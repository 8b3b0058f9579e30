/** The two command-line scripts that rank the stored speakers against one
    recording. `verify.py` takes the recording's path as its only argument;
    `test.py` has the path fixed in the script. Both print the same ranking.
    The embedding of a recording (`model.get_embedding`) and the comparison
    of two embeddings (`model.compare`) are opaque parameters. */
module Scripts {
  import SpeakerStore
  import Ranking

  /** A wrong argument count exits with status 1 before anything is
      scored; otherwise the ranking is printed. The embedding and the store
      load are total here, so their failures are not outcomes. */
  datatype Outcome = Exit(status: int) | Printed(lines: seq<Ranking.Line>)

  /** The recording `test.py` checks. */
  const TestFile: string := "wojtek3.wav"

  /** `verify.py` run with command line `argv` (script name first). */
  function Verify<E>(argv: seq<string>, file: SpeakerStore.File<E>,
                     embed: string -> E, compare: (E, E) -> real): (o: Outcome)
    requires SpeakerStore.ValidFile(file)
    ensures o.Exit? <==> |argv| != 2
    ensures o.Exit? ==> o.status == 1
    ensures o.Printed? ==>
              && |o.lines| == |SpeakerStore.GetAll(file).embeddings|
              && (forall n :: n in SpeakerStore.GetAll(file).embeddings <==>
                    exists i :: 0 <= i < |o.lines| && o.lines[i].name == n)
              && (forall i :: 0 <= i < |o.lines| ==>
                    o.lines[i].name in SpeakerStore.GetAll(file).embeddings
                    && o.lines[i].score
                       == compare(SpeakerStore.GetAll(file).embeddings[o.lines[i].name], embed(argv[1])))
              && (forall i, j :: 0 <= i < j < |o.lines| ==> o.lines[i].score >= o.lines[j].score)
              && (forall i :: 0 <= i < |o.lines| ==> (o.lines[i].matched <==> o.lines[i].score > Ranking.Threshold))
              && (forall v :: Ranking.TieNames(o.lines, v)
                              == Ranking.StoreTieNames(SpeakerStore.GetAll(file).order,
                                                       SpeakerStore.GetAll(file).embeddings,
                                                       compare, embed(argv[1]), v))
  {
    if |argv| != 2 then Exit(1)
    else Printed(Ranking.Rank(SpeakerStore.GetAll(file), compare, embed(argv[1])))
  }

  /** `test.py`: the ranking of the fixed test recording. */
  function TestRun<E>(file: SpeakerStore.File<E>, embed: string -> E, compare: (E, E) -> real)
    : (lines: seq<Ranking.Line>)
    requires SpeakerStore.ValidFile(file)
    ensures |lines| == |SpeakerStore.GetAll(file).embeddings|
    ensures forall n :: n in SpeakerStore.GetAll(file).embeddings <==>
              exists i :: 0 <= i < |lines| && lines[i].name == n
    ensures forall i :: 0 <= i < |lines| ==>
              lines[i].score == compare(SpeakerStore.GetAll(file).embeddings[lines[i].name], embed(TestFile))
    ensures forall i, j :: 0 <= i < j < |lines| ==> lines[i].score >= lines[j].score
    ensures forall i :: 0 <= i < |lines| ==> (lines[i].matched <==> lines[i].score > Ranking.Threshold)
    ensures forall v :: Ranking.TieNames(lines, v)
                        == Ranking.StoreTieNames(SpeakerStore.GetAll(file).order,
                                                 SpeakerStore.GetAll(file).embeddings,
                                                 compare, embed(TestFile), v)
  {
    Ranking.Rank(SpeakerStore.GetAll(file), compare, embed(TestFile))
  }

  // ---------------------------------------------------------------------
  // Properties
  // ---------------------------------------------------------------------

  /** A wrong argument count is reported the same way whatever the store,
      the embedding and the comparison: nothing is scored. */
  lemma UsageErrorBeforeScoring<E>(argv: seq<string>,
                                   file1: SpeakerStore.File<E>, embed1: string -> E, compare1: (E, E) -> real,
                                   file2: SpeakerStore.File<E>, embed2: string -> E, compare2: (E, E) -> real)
    requires SpeakerStore.ValidFile(file1) && SpeakerStore.ValidFile(file2)
    requires |argv| != 2
    ensures Verify(argv, file1, embed1, compare1) == Verify(argv, file2, embed2, compare2) == Exit(1)
  {
  }

  /** `test.py` prints exactly what `verify.py` prints for the test file. */
  lemma TestAgreesWithVerify<E>(script: string, file: SpeakerStore.File<E>,
                                embed: string -> E, compare: (E, E) -> real)
    requires SpeakerStore.ValidFile(file)
    ensures Verify([script, TestFile], file, embed, compare) == Printed(TestRun(file, embed, compare))
  {
  }
}
