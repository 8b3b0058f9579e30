/** File names of recorded chunks: `chunk_` followed by the chunk's sequence
    number in decimal, zero-padded to at least four digits, followed by `.wav`,
    joined onto the output directory the way POSIX `os.path.join` does. */
module ChunkNaming {
  import opened Wrappers

  const Prefix: string := "chunk_"
  const Extension: string := ".wav"
  /** Minimum number of digits of the sequence number (the `04` of `:04d`). */
  const Width: nat := 4

  predicate IsDigit(c: char) {
    '0' <= c <= '9'
  }

  predicate AllDigits(s: string) {
    forall i :: 0 <= i < |s| ==> IsDigit(s[i])
  }

  function DigitChar(d: nat): (c: char)
    requires d < 10
    ensures IsDigit(c)
  {
    "0123456789"[d]
  }

  function DigitValue(c: char): (d: nat)
    requires IsDigit(c)
    ensures d < 10
  {
    c as int - '0' as int
  }

  function Pow10(k: nat): (p: nat)
    ensures p >= 1
  {
    if k == 0 then 1 else 10 * Pow10(k - 1)
  }

  /** Shortest decimal representation of `n` (no leading zero unless n == 0). */
  function Decimal(n: nat): (s: string)
    ensures 1 <= |s|
    ensures AllDigits(s)
    ensures |s| > 1 ==> s[0] != '0'
    decreases n
  {
    if n < 10 then [DigitChar(n)] else Decimal(n / 10) + [DigitChar(n % 10)]
  }

  /** Value of a string of decimal digits, most significant digit first. */
  function ValueOf(s: string): nat
    requires AllDigits(s)
  {
    if s == [] then 0 else 10 * ValueOf(s[..|s| - 1]) + DigitValue(s[|s| - 1])
  }

  function Zeros(k: nat): (z: string)
    ensures |z| == k
    ensures forall i :: 0 <= i < k ==> z[i] == '0'
  {
    seq(k, _ => '0')
  }

  /** `{n:04d}` for a non-negative n. */
  function Padded(n: nat): (s: string)
    ensures AllDigits(s)
    ensures |s| >= Width
  {
    var d := Decimal(n);
    if |d| < Width then Zeros(Width - |d|) + d else d
  }

  /** `chunk_{id:04d}.wav` */
  function FileName(id: nat): (name: string)
    ensures |name| >= |Prefix| + Width + |Extension|
    ensures name[..|Prefix|] == Prefix
    ensures name[|name| - |Extension|..] == Extension
    ensures name[|Prefix|..|name| - |Extension|] == Padded(id)
    ensures '/' !in name
  {
    var name := Prefix + Padded(id) + Extension;
    FileNameParts(Padded(id));
    name
  }

  lemma FileNameParts(digits: string)
    requires AllDigits(digits)
    ensures var name := Prefix + digits + Extension;
            && name[..|Prefix|] == Prefix
            && name[|Prefix|..|name| - |Extension|] == digits
            && name[|name| - |Extension|..] == Extension
            && '/' !in name
  {
    var name := Prefix + digits + Extension;
    assert name[..|Prefix|] == Prefix;
    assert name[|Prefix|..|name| - |Extension|] == digits;
    assert name[|name| - |Extension|..] == Extension;
    forall i | 0 <= i < |name|
      ensures name[i] != '/'
    {
      if |Prefix| <= i < |name| - |Extension| {
        assert name[i] == digits[i - |Prefix|];
      }
    }
  }

  /** Recovers the sequence number from a chunk file name; None for any
      string that is not shaped like one. */
  function ParseFileName(name: string): (r: Option<nat>)
    ensures r.Some? ==> |name| >= |Prefix| + Width + |Extension|
  {
    if |name| >= |Prefix| + Width + |Extension|
       && name[..|Prefix|] == Prefix
       && name[|name| - |Extension|..] == Extension
       && AllDigits(name[|Prefix|..|name| - |Extension|])
    then Some(ValueOf(name[|Prefix|..|name| - |Extension|]))
    else None
  }

  /** POSIX `os.path.join(dir, name)` for a relative `name`. */
  function Join(dir: string, name: string): string {
    if dir == [] || dir[|dir| - 1] == '/' then dir + name else dir + "/" + name
  }

  /** POSIX `os.path.basename`: everything after the last '/'. */
  function BaseName(path: string): (b: string)
    ensures '/' !in b
  {
    if path == [] || path[|path| - 1] == '/' then []
    else BaseName(path[..|path| - 1]) + [path[|path| - 1]]
  }

  /** Path of the file holding chunk `id` under `dir` (record.py names it
      with `os.path.join(output_dir, ...)`). */
  function ChunkPath(dir: string, id: nat): string {
    Join(dir, FileName(id))
  }

  // ---------------------------------------------------------------------
  // Properties
  // ---------------------------------------------------------------------

  lemma {:induction false} ValueOfDecimal(n: nat)
    ensures ValueOf(Decimal(n)) == n
    decreases n
  {
    var d := Decimal(n);
    if n >= 10 {
      ValueOfDecimal(n / 10);
      assert d[..|d| - 1] == Decimal(n / 10);
    }
  }

  lemma {:induction false} ValueOfLeadingZeros(k: nat, s: string)
    requires AllDigits(s)
    ensures AllDigits(Zeros(k) + s)
    ensures ValueOf(Zeros(k) + s) == ValueOf(s)
    decreases |s|
  {
    var z := Zeros(k) + s;
    if s == [] {
      assert z == Zeros(k);
      ZerosValue(k);
    } else {
      assert z[..|z| - 1] == Zeros(k) + s[..|s| - 1];
      ValueOfLeadingZeros(k, s[..|s| - 1]);
    }
  }

  lemma {:induction false} ZerosValue(k: nat)
    ensures ValueOf(Zeros(k)) == 0
  {
    if k > 0 {
      assert Zeros(k)[..k - 1] == Zeros(k - 1);
      ZerosValue(k - 1);
    }
  }

  /** The padded field reads back as the number it pads. */
  lemma PaddedValue(n: nat)
    ensures ValueOf(Padded(n)) == n
  {
    var d := Decimal(n);
    ValueOfDecimal(n);
    if |d| < Width {
      ValueOfLeadingZeros(Width - |d|, d);
    }
  }

  /** The number of digits of `n` is at most `k` exactly when n < 10^k. */
  lemma {:induction false} DecimalLength(n: nat, k: nat)
    requires k >= 1
    ensures |Decimal(n)| <= k <==> n < Pow10(k)
    decreases n
  {
    if n >= 10 {
      assert |Decimal(n)| == |Decimal(n / 10)| + 1;
      if k > 1 {
        DecimalLength(n / 10, k - 1);
        assert n / 10 < Pow10(k - 1) <==> n < 10 * Pow10(k - 1);
      }
    } else {
      assert Pow10(k) == 10 * Pow10(k - 1);
    }
  }

  /** Sequence numbers below 10000 are padded to exactly four digits;
      larger ones are written in full, without padding or truncation. */
  lemma PaddedWidth(n: nat)
    ensures n < 10000 ==> |Padded(n)| == Width
    ensures n >= 10000 ==> Padded(n) == Decimal(n) && |Padded(n)| > Width
  {
    DecimalLength(n, 4);
    assert Pow10(4) == 10000;
  }

  /** Parsing a generated file name gives back its sequence number. */
  lemma ParseFileNameRoundTrip(id: nat)
    ensures ParseFileName(FileName(id)) == Some(id)
  {
    PaddedValue(id);
  }

  /** Distinct sequence numbers give distinct file names. */
  lemma FileNameInjective(a: nat, b: nat)
    requires FileName(a) == FileName(b)
    ensures a == b
  {
    ParseFileNameRoundTrip(a);
    ParseFileNameRoundTrip(b);
  }

  /** A slash-free name appended to a prefix that is empty or ends in '/'
      is its own base name. */
  lemma {:induction false} BaseNameAfterSeparator(prefix: string, name: string)
    requires prefix == [] || prefix[|prefix| - 1] == '/'
    requires '/' !in name
    ensures BaseName(prefix + name) == name
    decreases |name|
  {
    var p := prefix + name;
    if name == [] {
      assert p == prefix;
    } else {
      assert p[..|p| - 1] == prefix + name[..|name| - 1];
      assert name[|name| - 1] in name;
      BaseNameAfterSeparator(prefix, name[..|name| - 1]);
    }
  }

  /** The base name of a chunk's path is its file name, whatever the
      output directory; so the sequence number can be read back from the path. */
  lemma BaseNameOfChunkPath(dir: string, id: nat)
    ensures BaseName(ChunkPath(dir, id)) == FileName(id)
    ensures ParseFileName(BaseName(ChunkPath(dir, id))) == Some(id)
  {
    var name := FileName(id);
    if dir == [] || dir[|dir| - 1] == '/' {
      BaseNameAfterSeparator(dir, name);
    } else {
      assert dir + "/" + name == (dir + "/") + name;
      BaseNameAfterSeparator(dir + "/", name);
    }
    ParseFileNameRoundTrip(id);
  }
}
