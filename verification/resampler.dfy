/** The shape of the linear-interpolation resampler of the recorder: when it
    returns its input unchanged, how many samples it produces otherwise, and
    at which fractional positions of the input it interpolates. The
    interpolated values themselves are opaque: they come from the parameter
    `interp`, which stands for `np.interp` evaluated at one position. */
module Resampler {
  import opened Wrappers

  /** Number of output samples: the input's duration times the target rate,
      truncated, computed exactly (truncation of a non-negative value is the
      floor). */
  function TargetCount(len: nat, sourceRate: nat, targetRate: nat): nat
    requires sourceRate > 0
  {
    (len * targetRate) / sourceRate
  }

  /** The exact, unrounded number of target-rate samples spanning the same
      duration as `len` source-rate samples. */
  function ExactCount(len: nat, sourceRate: nat, targetRate: nat): real
    requires sourceRate > 0
  {
    (len as real) * (targetRate as real) / (sourceRate as real)
  }

  /** Position `i` of `np.linspace(0, len - 1, count)`: `count` evenly spaced
      points from the first to the last input index, both included; a single
      point is the first index. */
  function QueryPoint(len: nat, count: nat, i: nat): real
    requires len > 0
    requires i < count
  {
    if count == 1 then 0.0 else (i as real) * Spacing(len, count)
  }

  /** Distance between neighbouring positions of `np.linspace(0, len - 1, count)`. */
  function Spacing(len: nat, count: nat): real
    requires len > 0 && count > 1
  {
    ((len - 1) as real) / ((count - 1) as real)
  }

  /** `_resample(audio, sourceRate, targetRate)`. None is the exception the
      source raises: a division by zero when the source rate is 0, and
      `np.interp`'s refusal of an empty list of sample points when the input
      is empty. Equal rates short-cut before either can happen. */
  function Resample<S>(input: seq<S>, sourceRate: nat, targetRate: nat,
                       interp: (seq<S>, real) -> S): (r: Option<seq<S>>)
    ensures sourceRate == targetRate ==> r == Some(input)
    ensures sourceRate != targetRate ==> (r.Some? <==> sourceRate > 0 && |input| > 0)
    ensures r.Some? && sourceRate != targetRate ==>
              |r.value| as real <= ExactCount(|input|, sourceRate, targetRate) < (|r.value| + 1) as real
  {
    if sourceRate == targetRate then Some(input)
    else if sourceRate == 0 || |input| == 0 then None
    else
      var count := TargetCount(|input|, sourceRate, targetRate);
      TargetCountBounds(|input|, sourceRate, targetRate);
      Some(seq(count, i requires 0 <= i < count => interp(input, QueryPoint(|input|, count, i))))
  }

  // ---------------------------------------------------------------------
  // Properties
  // ---------------------------------------------------------------------

  /** The output length is the largest whole number not above the exact
      number of target-rate samples in the input's duration. */
  lemma TargetCountBounds(len: nat, sourceRate: nat, targetRate: nat)
    requires sourceRate > 0
    ensures TargetCount(len, sourceRate, targetRate) as real
              <= ExactCount(len, sourceRate, targetRate)
              < (TargetCount(len, sourceRate, targetRate) + 1) as real
  {
    var q := (len * targetRate) / sourceRate;
    var m := (len * targetRate) % sourceRate;
    assert len * targetRate == q * sourceRate + m;
    var x := ExactCount(len, sourceRate, targetRate);
    assert (len as real) * (targetRate as real) == (q as real) * (sourceRate as real) + (m as real);
    assert x == (q as real) + (m as real) / (sourceRate as real);
    assert 0.0 <= (m as real) / (sourceRate as real) < 1.0;
  }

  /** The same count as the floor of the duration times the target rate,
      seconds first and then samples, both computed in exact rationals. */
  lemma TargetCountIsFloorOfDuration(len: nat, sourceRate: nat, targetRate: nat)
    requires sourceRate > 0
    ensures TargetCount(len, sourceRate, targetRate)
              == (((len as real) / (sourceRate as real)) * (targetRate as real)).Floor
  {
    TargetCountBounds(len, sourceRate, targetRate);
    var c := TargetCount(len, sourceRate, targetRate);
    var x := ((len as real) / (sourceRate as real)) * (targetRate as real);
    assert x == ExactCount(len, sourceRate, targetRate);
    assert c as real <= x < (c + 1) as real;
  }

  /** Every query position lies within the input's index range, they never
      decrease, and with two or more of them the first and last indices of
      the input are both hit exactly. */
  lemma QueryPointsSpanInput(len: nat, count: nat)
    requires len > 0
    ensures forall i :: 0 <= i < count ==>
              0.0 <= QueryPoint(len, count, i) <= (len - 1) as real
    ensures forall i, j :: 0 <= i <= j < count ==>
              QueryPoint(len, count, i) <= QueryPoint(len, count, j)
    ensures count >= 2 ==> QueryPoint(len, count, 0) == 0.0
                           && QueryPoint(len, count, count - 1) == (len - 1) as real
  {
    if count > 1 {
      QueryPointMonotone(len, count, 0, 0);
      forall i | 0 <= i < count
        ensures 0.0 <= QueryPoint(len, count, i) <= (len - 1) as real
      {
        QueryPointMonotone(len, count, 0, i);
        QueryPointMonotone(len, count, i, count - 1);
      }
      forall i, j | 0 <= i <= j < count
        ensures QueryPoint(len, count, i) <= QueryPoint(len, count, j)
      {
        QueryPointMonotone(len, count, i, j);
      }
    }
  }

  lemma QueryPointMonotone(len: nat, count: nat, i: nat, j: nat)
    requires len > 0 && count > 1
    requires i <= j < count
    ensures QueryPoint(len, count, i) <= QueryPoint(len, count, j)
    ensures QueryPoint(len, count, 0) == 0.0
    ensures QueryPoint(len, count, count - 1) == (len - 1) as real
  {
    var step := Spacing(len, count);
    SpacingSpansInput(len, count);
    var a, b := QueryPoint(len, count, i), QueryPoint(len, count, j);
    assert a == (i as real) * step;
    assert b == (j as real) * step;
    ScaleMonotone(i as real, j as real, step);
  }

  lemma SpacingSpansInput(len: nat, count: nat)
    requires len > 0 && count > 1
    ensures Spacing(len, count) >= 0.0
    ensures ((count - 1) as real) * Spacing(len, count) == (len - 1) as real
  {
  }

  lemma ScaleMonotone(a: real, b: real, c: real)
    requires a <= b && c >= 0.0
    ensures a * c <= b * c
  {
  }

  lemma MulAtLeastOne(k: int, d: int)
    requires k >= 1 && d > 0
    ensures k * d >= d
  {
  }

  /** With equal rates the count formula is the identity, so the fast path
      and the general path agree on the output length. */
  lemma TargetCountSameRate(len: nat, rate: nat)
    requires rate > 0
    ensures TargetCount(len, rate, rate) == len
  {
    var a := len * rate;
    var q := a / rate;
    var m := a % rate;
    assert a == q * rate + m;
    assert 0 <= m < rate;
    if q < len {
      assert (len - q) * rate == len * rate - q * rate;
      MulAtLeastOne(len - q, rate);
    } else if q > len {
      assert (q - len) * rate == q * rate - len * rate;
      MulAtLeastOne(q - len, rate);
    }
  }

  /** A non-empty input at a non-zero source rate always resamples; the
      output has TargetCount samples, or is the input itself for equal rates. */
  lemma ResampledLength<S>(input: seq<S>, sourceRate: nat, targetRate: nat,
                           interp: (seq<S>, real) -> S)
    requires sourceRate > 0 && |input| > 0
    ensures Resample(input, sourceRate, targetRate, interp).Some?
    ensures |Resample(input, sourceRate, targetRate, interp).value|
              == TargetCount(|input|, sourceRate, targetRate)
  {
    if sourceRate == targetRate {
      TargetCountSameRate(|input|, sourceRate);
    }
  }
}
