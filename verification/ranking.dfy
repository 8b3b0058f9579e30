/** Ranking of stored speakers against one recording: one (name, score) pair
    per stored speaker in store order, sorted by score from high to low with
    a stable sort, each marked as a match when its score is strictly above
    the threshold. Scores come from an opaque comparison of embeddings. */
module Ranking {
  import SpeakerStore

  /** A score strictly above this is a match. */
  const Threshold: real := 0.25

  datatype Scored = Scored(name: string, score: real)

  /** One printed line: name, score and match mark. */
  datatype Line = Line(name: string, score: real, matched: bool)

  /** The results loop: each stored speaker's reference embedding compared with
      the recording's embedding, appended in the store's iteration order. */
  function BuildResults<E>(db: SpeakerStore.Db<E>, compare: (E, E) -> real, test: E): (r: seq<Scored>)
    requires SpeakerStore.Valid(db)
    ensures |r| == |db.order|
    ensures forall i :: 0 <= i < |r| ==>
              r[i].name in db.embeddings && r[i].score == compare(db.embeddings[r[i].name], test)
  {
    seq(|db.order|, i requires 0 <= i < |db.order| =>
      Scored(db.order[i], compare(db.embeddings[db.order[i]], test)))
  }

  /** Scores never increase along the sequence. */
  ghost predicate Descending(s: seq<Scored>) {
    forall i, j :: 0 <= i < j < |s| ==> s[i].score >= s[j].score
  }

  /** The entries of `s` whose score is `v`, in their order in `s`. */
  function WithScore(s: seq<Scored>, v: real): seq<Scored> {
    if s == [] then []
    else (if s[0].score == v then [s[0]] else []) + WithScore(s[1..], v)
  }

  /** The names along `s`, in order. */
  function Names(s: seq<Scored>): seq<string> {
    if s == [] then [] else [s[0].name] + Names(s[1..])
  }

  /** The names of the printed lines scoring `v`, in printed order. */
  function TieNames(lines: seq<Line>, v: real): seq<string> {
    if lines == [] then []
    else (if lines[0].score == v then [lines[0].name] else []) + TieNames(lines[1..], v)
  }

  /** The stored speakers whose comparison with `test` gives `v`, in the
      store's iteration order `order`. */
  function StoreTieNames<E>(order: seq<string>, embeddings: map<string, E>,
                            compare: (E, E) -> real, test: E, v: real): seq<string> {
    if order == [] then []
    else (if order[0] in embeddings && compare(embeddings[order[0]], test) == v then [order[0]] else [])
         + StoreTieNames(order[1..], embeddings, compare, test, v)
  }

  /** Inserts `x` before the first entry whose score is not above its own;
      `x` comes from earlier in the input than every entry of `t`. */
  function Insert(x: Scored, t: seq<Scored>): (r: seq<Scored>)
    ensures multiset(r) == multiset(t) + multiset{x}
    ensures |r| > 0 && (r[0] == x || (t != [] && r[0] == t[0]))
  {
    if t == [] || t[0].score <= x.score then [x] + t
    else
      assert t == [t[0]] + t[1..];
      [t[0]] + Insert(x, t[1..])
  }

  /** Inserting into a descending list keeps it descending. */
  lemma {:induction false} InsertDescending(x: Scored, t: seq<Scored>)
    requires Descending(t)
    ensures Descending(Insert(x, t))
    decreases |t|
  {
    if t != [] && t[0].score > x.score {
      var rest := Insert(x, t[1..]);
      InsertDescending(x, t[1..]);
      assert rest[0].score <= t[0].score;
      assert multiset(rest) == multiset(t[1..]) + multiset{x};
      var r := [t[0]] + rest;
      forall i, j | 0 <= i < j < |r|
        ensures r[i].score >= r[j].score
      {
        if i == 0 {
          assert r[j] in multiset(rest);
          assert r[j] == x || r[j] in multiset(t[1..]);
          if r[j] != x {
            assert r[j] in t[1..];
          }
        } else {
          assert r[i] == rest[i - 1] && r[j] == rest[j - 1];
        }
      }
    }
  }

  /** The in-place sort of the results by score, highest first; stable. */
  function SortDescending(s: seq<Scored>): (r: seq<Scored>)
    ensures multiset(r) == multiset(s)
    ensures Descending(r)
  {
    if s == [] then []
    else
      assert s == [s[0]] + s[1..];
      InsertDescending(s[0], SortDescending(s[1..]));
      Insert(s[0], SortDescending(s[1..]))
  }

  /** The printed lines: each result with its match mark, set exactly when
      the score is strictly above the threshold. */
  function Report(results: seq<Scored>): (lines: seq<Line>)
    ensures |lines| == |results|
    ensures forall i :: 0 <= i < |lines| ==>
              lines[i].name == results[i].name && lines[i].score == results[i].score
    ensures forall i :: 0 <= i < |lines| ==> (lines[i].matched <==> lines[i].score > Threshold)
  {
    seq(|results|, i requires 0 <= i < |results| =>
      Line(results[i].name, results[i].score, results[i].score > Threshold))
  }

  /** Everything the verification scripts print for one recording whose
      embedding is `test`: one line per stored speaker, best score first. */
  function Rank<E>(db: SpeakerStore.Db<E>, compare: (E, E) -> real, test: E): (lines: seq<Line>)
    requires SpeakerStore.Valid(db)
    ensures |lines| == |db.embeddings|
    ensures forall n :: n in db.embeddings <==> exists i :: 0 <= i < |lines| && lines[i].name == n
    ensures forall i :: 0 <= i < |lines| ==>
              lines[i].name in db.embeddings && lines[i].score == compare(db.embeddings[lines[i].name], test)
    ensures forall i, j :: 0 <= i < j < |lines| ==> lines[i].score >= lines[j].score
    ensures forall i :: 0 <= i < |lines| ==> (lines[i].matched <==> lines[i].score > Threshold)
    ensures forall v :: TieNames(lines, v) == StoreTieNames(db.order, db.embeddings, compare, test, v)
  {
    SortedResults(db, compare, test);
    RankedTieOrder(db, compare, test);
    Report(SortDescending(BuildResults(db, compare, test)))
  }

  /** The sorted results name each stored speaker and carry its score. */
  lemma SortedResults<E>(db: SpeakerStore.Db<E>, compare: (E, E) -> real, test: E)
    requires SpeakerStore.Valid(db)
    ensures var sorted := SortDescending(BuildResults(db, compare, test));
            && |sorted| == |db.embeddings|
            && (forall n :: n in db.embeddings <==> exists i :: 0 <= i < |sorted| && sorted[i].name == n)
            && (forall i :: 0 <= i < |sorted| ==>
                  sorted[i].name in db.embeddings && sorted[i].score == compare(db.embeddings[sorted[i].name], test))
  {
    var results := BuildResults(db, compare, test);
    ResultsOnePerSpeaker(db, compare, test);
    RankedLines(db.embeddings, compare, test, results, SortDescending(results));
  }

  /** Speakers with equal scores are printed in the store's iteration order:
      the sort is stable and the results are built in that order. */
  lemma RankedTieOrder<E>(db: SpeakerStore.Db<E>, compare: (E, E) -> real, test: E)
    requires SpeakerStore.Valid(db)
    ensures forall v :: TieNames(Report(SortDescending(BuildResults(db, compare, test))), v)
                        == StoreTieNames(db.order, db.embeddings, compare, test, v)
  {
    var results := BuildResults(db, compare, test);
    var sorted := SortDescending(results);
    forall v
      ensures TieNames(Report(sorted), v) == StoreTieNames(db.order, db.embeddings, compare, test, v)
    {
      ReportTieNames(sorted, v);
      SortKeepsTieOrder(results, v);
      ResultsTieNames(results, db.order, db.embeddings, compare, test, v);
    }
  }

  /** The lines scoring `v` carry the names of the results scoring `v`. */
  lemma {:induction false} ReportTieNames(s: seq<Scored>, v: real)
    ensures TieNames(Report(s), v) == Names(WithScore(s, v))
    decreases |s|
  {
    if s != [] {
      var x := s[0];
      var rest := WithScore(s[1..], v);
      assert Report(s)[0].score == x.score && Report(s)[0].name == x.name;
      assert Report(s)[1..] == Report(s[1..]);
      ReportTieNames(s[1..], v);
      if x.score == v {
        assert ([x] + rest)[1..] == rest;
        assert Names(WithScore(s, v)) == [x.name] + Names(rest);
      } else {
        assert WithScore(s, v) == rest;
      }
    }
  }

  /** A results list built along `order` lists the speakers scoring `v` in
      that order. */
  lemma {:induction false} ResultsTieNames<E>(s: seq<Scored>, order: seq<string>, embeddings: map<string, E>,
                                              compare: (E, E) -> real, test: E, v: real)
    requires |s| == |order|
    requires forall i :: 0 <= i < |s| ==>
               s[i].name == order[i] && order[i] in embeddings && s[i].score == compare(embeddings[order[i]], test)
    ensures Names(WithScore(s, v)) == StoreTieNames(order, embeddings, compare, test, v)
    decreases |s|
  {
    if s != [] {
      var rest := WithScore(s[1..], v);
      ResultsTieNames(s[1..], order[1..], embeddings, compare, test, v);
      assert s[0].name == order[0] && order[0] in embeddings;
      if s[0].score == v {
        assert ([s[0]] + rest)[1..] == rest;
        assert Names(WithScore(s, v)) == [order[0]] + Names(rest);
      } else {
        assert WithScore(s, v) == rest;
      }
    }
  }

  /** The facts behind Rank's contract, for any descending rearrangement
      `sorted` of a results list that names each stored speaker. */
  lemma RankedLines<E>(embeddings: map<string, E>, compare: (E, E) -> real, test: E,
                       results: seq<Scored>, sorted: seq<Scored>)
    requires |results| == |embeddings|
    requires forall n :: n in embeddings <==> exists k :: 0 <= k < |results| && results[k].name == n
    requires forall k :: 0 <= k < |results| ==>
               results[k].name in embeddings && results[k].score == compare(embeddings[results[k].name], test)
    requires multiset(sorted) == multiset(results)
    ensures |sorted| == |embeddings|
    ensures forall n :: n in embeddings <==> exists i :: 0 <= i < |sorted| && sorted[i].name == n
    ensures forall i :: 0 <= i < |sorted| ==>
              sorted[i].name in embeddings && sorted[i].score == compare(embeddings[sorted[i].name], test)
  {
    assert |sorted| == |multiset(sorted)| == |multiset(results)| == |results|;
    forall n | n in embeddings
      ensures exists i :: 0 <= i < |sorted| && sorted[i].name == n
    {
      var k :| 0 <= k < |results| && results[k].name == n;
      assert results[k] in multiset(sorted);
      assert results[k] in sorted;
      var i :| 0 <= i < |sorted| && sorted[i] == results[k];
    }
    forall i | 0 <= i < |sorted|
      ensures sorted[i].name in embeddings && sorted[i].score == compare(embeddings[sorted[i].name], test)
    {
      assert sorted[i] in multiset(results);
      assert sorted[i] in results;
      var k :| 0 <= k < |results| && results[k] == sorted[i];
    }
  }

  // ---------------------------------------------------------------------
  // Properties
  // ---------------------------------------------------------------------

  /** The results list names every stored speaker exactly once, in the
      store's iteration order. */
  lemma ResultsOnePerSpeaker<E>(db: SpeakerStore.Db<E>, compare: (E, E) -> real, test: E)
    requires SpeakerStore.Valid(db)
    ensures |BuildResults(db, compare, test)| == |db.embeddings|
    ensures forall i :: 0 <= i < |BuildResults(db, compare, test)| ==>
              BuildResults(db, compare, test)[i].name == db.order[i]
    ensures forall n :: n in db.embeddings <==>
              exists i :: 0 <= i < |BuildResults(db, compare, test)| && BuildResults(db, compare, test)[i].name == n
  {
    SpeakerStore.OrderLength(db);
    var r := BuildResults(db, compare, test);
    forall n | n in db.embeddings
      ensures exists i :: 0 <= i < |r| && r[i].name == n
    {
      var i :| 0 <= i < |db.order| && db.order[i] == n;
      assert r[i].name == n;
    }
  }

  lemma {:induction false} InsertWithScore(x: Scored, t: seq<Scored>, v: real)
    requires Descending(t)
    ensures WithScore(Insert(x, t), v) == (if x.score == v then [x] else []) + WithScore(t, v)
    decreases |t|
  {
    if t == [] || t[0].score <= x.score {
      assert [x] + t == [x] + t;
      assert ([x] + t)[1..] == t;
    } else {
      var rest := Insert(x, t[1..]);
      assert Descending(t[1..]);
      InsertWithScore(x, t[1..], v);
      assert ([t[0]] + rest)[1..] == rest;
      if x.score == v {
        // t[0] sits above x, so it cannot share x's score
        assert t[0].score != v;
      }
    }
  }

  /** Stability: for every score, the entries with that score keep their
      relative order through the sort (Python's sort is stable also with
      `reverse=True`). */
  lemma {:induction false} SortKeepsTieOrder(s: seq<Scored>, v: real)
    ensures WithScore(SortDescending(s), v) == WithScore(s, v)
    decreases |s|
  {
    if s != [] {
      SortKeepsTieOrder(s[1..], v);
      InsertWithScore(s[0], SortDescending(s[1..]), v);
    }
  }

  lemma {:induction false} WithScoreMembers(s: seq<Scored>, v: real, x: Scored)
    ensures x in WithScore(s, v) <==> x in s && x.score == v
    decreases |s|
  {
    if s != [] {
      WithScoreMembers(s[1..], v, x);
      assert s == [s[0]] + s[1..];
    }
  }

  lemma HasOwnScore(s: seq<Scored>)
    ensures s != [] ==> WithScore(s, s[0].score) != []
  {
  }

  /** Python's `sort(key=..., reverse=True)` is pinned down by what it
      promises: any arrangement that is descending and keeps the order of
      equal-score entries is the same sequence. */
  lemma {:induction false} DescendingStableUnique(r1: seq<Scored>, r2: seq<Scored>)
    requires Descending(r1) && Descending(r2)
    requires forall v :: WithScore(r1, v) == WithScore(r2, v)
    ensures r1 == r2
    decreases |r1| + |r2|
  {
    if r1 == [] && r2 != [] {
      HasOwnScore(r2);
      assert false;
    } else if r1 != [] && r2 == [] {
      HasOwnScore(r1);
      assert false;
    } else if r1 != [] {
      var a, b := r1[0], r2[0];
      WithScoreMembers(r1, a.score, a);
      WithScoreMembers(r2, a.score, a);
      WithScoreMembers(r1, b.score, b);
      WithScoreMembers(r2, b.score, b);
      assert WithScore(r1, a.score) == WithScore(r2, a.score);
      assert WithScore(r1, b.score) == WithScore(r2, b.score);
      assert a.score >= b.score;
      assert b.score >= a.score;
      assert WithScore(r1, a.score)[0] == a;
      assert WithScore(r2, a.score)[0] == b;
      assert a == b;
      forall v
        ensures WithScore(r1[1..], v) == WithScore(r2[1..], v)
      {
        assert WithScore(r1, v) == WithScore(r2, v);
        if v == a.score {
          assert WithScore(r1, v) == [a] + WithScore(r1[1..], v);
          assert WithScore(r2, v) == [a] + WithScore(r2[1..], v);
          assert ([a] + WithScore(r1[1..], v))[1..] == WithScore(r1[1..], v);
          assert ([a] + WithScore(r2[1..], v))[1..] == WithScore(r2[1..], v);
        } else {
          assert WithScore(r1, v) == WithScore(r1[1..], v);
          assert WithScore(r2, v) == WithScore(r2[1..], v);
        }
      }
      DescendingStableUnique(r1[1..], r2[1..]);
      assert r1 == [a] + r1[1..];
      assert r2 == [b] + r2[1..];
    }
  }

  /** The model's sort is the one Python's sort promises: for any descending
      arrangement `r` of the results that keeps ties in input order,
      `SortDescending` returns exactly `r`. */
  lemma SortIsTheStableDescendingSort(s: seq<Scored>, r: seq<Scored>)
    requires Descending(r)
    requires forall v :: WithScore(r, v) == WithScore(s, v)
    ensures SortDescending(s) == r
  {
    forall v
      ensures WithScore(SortDescending(s), v) == WithScore(r, v)
    {
      SortKeepsTieOrder(s, v);
    }
    DescendingStableUnique(SortDescending(s), r);
  }

  /** On a ranked list the matches come first: once a line is not a match,
      no later line is. The first line is the best-scoring speaker. */
  lemma MatchesFormPrefix<E>(db: SpeakerStore.Db<E>, compare: (E, E) -> real, test: E)
    requires SpeakerStore.Valid(db)
    ensures forall i, j :: 0 <= i < j < |Rank(db, compare, test)| && Rank(db, compare, test)[j].matched ==>
              Rank(db, compare, test)[i].matched
    ensures forall n :: n in db.embeddings && |Rank(db, compare, test)| > 0 ==>
              Rank(db, compare, test)[0].score >= compare(db.embeddings[n], test)
  {
    var lines := Rank(db, compare, test);
    forall n | n in db.embeddings && |lines| > 0
      ensures lines[0].score >= compare(db.embeddings[n], test)
    {
      var i :| 0 <= i < |lines| && lines[i].name == n;
    }
  }
}
