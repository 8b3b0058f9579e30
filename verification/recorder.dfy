/** The chunking bookkeeping of `AudioRecorder`: the device callback appends
    frames to a buffer, each pass of the processing loop cuts at most one
    fixed-length chunk off the front of the buffer and enqueues its file
    name, and stopping flushes whatever remains as one last chunk.

    Samples are an opaque type `S`; the state holds exactly what the three
    operations read and write. */
module Recorder {
  import opened Wrappers
  import ChunkNaming
  import Resampler

  /** `chunkSamples` is the capture rate times the chunk duration, truncated;
      the model takes it as given. */
  datatype Config = Config(sourceRate: nat, targetRate: nat, chunkSamples: nat, outputDir: string)

  /** `audio_buffer`, `chunk_counter` and the contents of `chunk_queue`
      (oldest first). */
  datatype RecorderState<S> = RecorderState(buffer: seq<seq<S>>, counter: nat, queue: seq<string>)

  /** The state after an operation, and the samples it handed to the chunk
      writer, if any. */
  datatype Step<S> = Step(state: RecorderState<S>, chunk: Option<seq<S>>)

  /** A freshly constructed recorder. */
  function Init<S>(): RecorderState<S> {
    RecorderState([], 0, [])
  }

  /** The buffered frames joined into one sample sequence, oldest first. */
  function Concat<S>(frames: seq<seq<S>>): seq<S> {
    if frames == [] then [] else Concat(frames[..|frames| - 1]) + frames[|frames| - 1]
  }

  /** The number of buffered samples, summed frame by frame. */
  function Total<S>(frames: seq<seq<S>>): nat {
    if frames == [] then 0 else Total(frames[..|frames| - 1]) + |frames[|frames| - 1]|
  }

  /** `_callback`: append one captured frame. */
  function Callback<S>(st: RecorderState<S>, frame: seq<S>): (r: RecorderState<S>)
    ensures Concat(r.buffer) == Concat(st.buffer) + frame
    ensures Total(r.buffer) == Total(st.buffer) + |frame|
    ensures r.counter == st.counter && r.queue == st.queue
  {
    var buffer := st.buffer + [frame];
    assert buffer[..|buffer| - 1] == st.buffer;
    st.(buffer := buffer)
  }

  /** One pass of the `_process_buffer` loop body. */
  function ProcessStep<S>(cfg: Config, st: RecorderState<S>): (r: Step<S>)
    requires cfg.chunkSamples > 0
    ensures r.chunk.Some? <==> Total(st.buffer) >= cfg.chunkSamples
    ensures r.chunk.None? ==> r.state == st
    ensures r.chunk.Some? ==>
              && |r.chunk.value| == cfg.chunkSamples
              && r.chunk.value + Concat(r.state.buffer) == Concat(st.buffer)
              && Total(r.state.buffer) == Total(st.buffer) - cfg.chunkSamples
              && r.state.counter == st.counter + 1
              && r.state.queue == st.queue + [ChunkNaming.ChunkPath(cfg.outputDir, st.counter)]
              && (r.state.buffer == [] <==> Total(st.buffer) == cfg.chunkSamples)
              && |r.state.buffer| <= 1
  {
    TotalIsLength(st.buffer);
    if |st.buffer| > 0 && Total(st.buffer) >= cfg.chunkSamples then
      var audio := Concat(st.buffer);
      var chunk := audio[..cfg.chunkSamples];
      var remaining := audio[cfg.chunkSamples..];
      var buffer := if |remaining| > 0 then [remaining] else [];
      assert Concat(buffer) == remaining by {
        if |remaining| > 0 {
          assert buffer[..0] == [];
        }
      }
      TotalIsLength(buffer);
      assert chunk + remaining == audio;
      var path := ChunkNaming.ChunkPath(cfg.outputDir, st.counter);
      Step(RecorderState(buffer, st.counter + 1, st.queue + [path]), Some(chunk))
    else
      Step(st, None)
  }

  /** The flush of `stop`: a non-empty remainder is written as one last chunk
      under the current counter. The buffer and the counter are left as
      they are. */
  function Stop<S>(cfg: Config, st: RecorderState<S>): (r: Step<S>)
    ensures r.chunk.Some? <==> |Concat(st.buffer)| > 0
    ensures r.chunk.None? ==> r.state == st
    ensures r.chunk.Some? ==>
              && r.chunk.value == Concat(st.buffer)
              && r.state.buffer == st.buffer
              && r.state.counter == st.counter
              && r.state.queue == st.queue + [ChunkNaming.ChunkPath(cfg.outputDir, st.counter)]
  {
    if |st.buffer| > 0 then
      var remaining := Concat(st.buffer);
      if |remaining| > 0 then
        Step(st.(queue := st.queue + [ChunkNaming.ChunkPath(cfg.outputDir, st.counter)]), Some(remaining))
      else
        Step(st, None)
    else
      Step(st, None)
  }

  /** The samples `_save_chunk` writes for a chunk: the chunk resampled from
      the capture rate to the target rate. */
  function Written<S>(cfg: Config, chunk: seq<S>, interp: (seq<S>, real) -> S): Option<seq<S>> {
    Resampler.Resample(chunk, cfg.sourceRate, cfg.targetRate, interp)
  }

  /** `_save_chunk` as the source is written: after writing the resampled
      chunk it takes the chunk's peak, which raises on an empty array. None
      is that exception, and the exception of the resampler itself. */
  function SaveChunkAsWritten<S>(cfg: Config, chunk: seq<S>, interp: (seq<S>, real) -> S): (r: Option<seq<S>>)
    ensures r.Some? ==> |r.value| > 0 && Written(cfg, chunk, interp) == Some(r.value)
    ensures cfg.sourceRate == cfg.targetRate ==> (r.Some? <==> |chunk| > 0) && (r.Some? ==> r.value == chunk)
    ensures cfg.sourceRate > 0 && cfg.sourceRate != cfg.targetRate && |chunk| > 0 ==>
              (r.Some? <==> Resampler.TargetCount(|chunk|, cfg.sourceRate, cfg.targetRate) > 0)
    ensures cfg.sourceRate > 0 && cfg.sourceRate != cfg.targetRate && r.Some? ==>
              |r.value| == Resampler.TargetCount(|chunk|, cfg.sourceRate, cfg.targetRate)
  {
    match Written(cfg, chunk, interp)
    case None => None
    case Some(w) => if |w| == 0 then None else Some(w)
  }

  /** `stop` as the source is written: when saving the remainder raises, the
      exception leaves `stop` before the file name is enqueued. `Stop` is the
      intended flush: the comment at record.py:119 says the last fragment is
      saved, and the guard at record.py:122 admits every non-empty remainder,
      so `Stop` enqueues each one. */
  function StopAsWritten<S>(cfg: Config, st: RecorderState<S>, interp: (seq<S>, real) -> S): (r: Step<S>)
    ensures r.chunk.Some? ==> r == Stop(cfg, st)
    ensures r.chunk.None? ==> r.state == st
    ensures r.chunk.Some? <==>
              Stop(cfg, st).chunk.Some? && SaveChunkAsWritten(cfg, Concat(st.buffer), interp).Some?
  {
    var flushed := Stop(cfg, st);
    if flushed.chunk.Some? && SaveChunkAsWritten(cfg, flushed.chunk.value, interp).None? then Step(st, None)
    else flushed
  }

  // ---------------------------------------------------------------------
  // Sessions: a recorder fed a sequence of callbacks and processing passes
  // ---------------------------------------------------------------------

  datatype Event<S> = Captured(frame: seq<S>) | Tick

  /** What a session has produced so far: the state, and every chunk handed
      to the writer, in order. */
  datatype Session<S> = Session(state: RecorderState<S>, chunks: seq<seq<S>>)

  /** The recorder after processing `events` in order from `Init`. */
  function Run<S>(cfg: Config, events: seq<Event<S>>): Session<S>
    requires cfg.chunkSamples > 0
  {
    if events == [] then Session(Init(), [])
    else
      var prev := Run(cfg, events[..|events| - 1]);
      match events[|events| - 1]
      case Captured(frame) => Session(Callback(prev.state, frame), prev.chunks)
      case Tick => TickSession(cfg, prev)
  }

  /** Every sample captured by the callback during `events`, in order. */
  function CapturedSamples<S>(events: seq<Event<S>>): seq<S> {
    if events == [] then []
    else
      CapturedSamples(events[..|events| - 1])
        + match events[|events| - 1]
          case Captured(frame) => frame
          case Tick => []
  }

  /** The queue contents after `n` chunks: the paths of chunks 0 .. n-1. */
  function Paths(dir: string, n: nat): (p: seq<string>)
    ensures |p| == n
  {
    seq(n, i requires 0 <= i < n => ChunkNaming.ChunkPath(dir, i))
  }

  // ---------------------------------------------------------------------
  // Properties
  // ---------------------------------------------------------------------

  lemma {:induction false} TotalIsLength<S>(frames: seq<seq<S>>)
    ensures Total(frames) == |Concat(frames)|
  {
    if frames != [] {
      TotalIsLength(frames[..|frames| - 1]);
    }
  }

  /** A single pass emits at most one chunk: when two or more chunks' worth
      are buffered, a full chunk is still buffered after the pass. */
  lemma OneChunkPerStep<S>(cfg: Config, st: RecorderState<S>)
    requires cfg.chunkSamples > 0
    requires Total(st.buffer) >= 2 * cfg.chunkSamples
    ensures ProcessStep(cfg, st).chunk.Some?
    ensures Total(ProcessStep(cfg, st).state.buffer) >= cfg.chunkSamples
    ensures ProcessStep(cfg, ProcessStep(cfg, st).state).chunk.Some?
  {
  }

  /** The session invariant, for a session that has captured `captured`:
      the chunks handed out so far followed by the buffer are exactly the
      captured samples (nothing lost, duplicated or reordered), every chunk
      has the configured length, and the queue holds the paths of chunks
      0, 1, 2, ... in the order they were made. */
  ghost predicate SessionOk<S>(cfg: Config, s: Session<S>, captured: seq<S>) {
    && Concat(s.chunks) + Concat(s.state.buffer) == captured
    && (forall i :: 0 <= i < |s.chunks| ==> |s.chunks[i]| == cfg.chunkSamples)
    && s.state.counter == |s.chunks|
    && s.state.queue == Paths(cfg.outputDir, s.state.counter)
  }

  lemma ConcatAppend<S>(frames: seq<seq<S>>, f: seq<S>)
    ensures Concat(frames + [f]) == Concat(frames) + f
  {
    assert (frames + [f])[..|frames|] == frames;
  }

  lemma CallbackKeepsSessionOk<S>(cfg: Config, s: Session<S>, captured: seq<S>, frame: seq<S>)
    requires SessionOk(cfg, s, captured)
    ensures SessionOk(cfg, Session(Callback(s.state, frame), s.chunks), captured + frame)
  {
  }

  lemma PathsAppend(dir: string, n: nat)
    ensures Paths(dir, n + 1) == Paths(dir, n) + [ChunkNaming.ChunkPath(dir, n)]
  {
    var longer, shorter := Paths(dir, n + 1), Paths(dir, n) + [ChunkNaming.ChunkPath(dir, n)];
    assert |longer| == |shorter|;
    forall i | 0 <= i < n + 1
      ensures longer[i] == shorter[i]
    {
      if i < n {
        assert shorter[i] == Paths(dir, n)[i];
      }
    }
  }

  /** The session after one pass of the processing loop. */
  function TickSession<S>(cfg: Config, s: Session<S>): Session<S>
    requires cfg.chunkSamples > 0
  {
    var step := ProcessStep(cfg, s.state);
    Session(step.state, s.chunks + if step.chunk.Some? then [step.chunk.value] else [])
  }

  lemma AppendChunkKeepsLengths<S>(chunks: seq<seq<S>>, c: seq<S>, n: nat)
    requires forall i :: 0 <= i < |chunks| ==> |chunks[i]| == n
    requires |c| == n
    ensures forall i :: 0 <= i < |chunks + [c]| ==> |(chunks + [c])[i]| == n
  {
  }

  /** Appending a chunk taken off the front of the buffer keeps the
      chunks-then-buffer concatenation. */
  lemma ConcatMoves<S>(chunks: seq<seq<S>>, c: seq<S>, oldBuffer: seq<S>, newBuffer: seq<S>)
    requires c + newBuffer == oldBuffer
    ensures Concat(chunks + [c]) + newBuffer == Concat(chunks) + oldBuffer
  {
    ConcatAppend(chunks, c);
  }

  lemma EmitKeepsSessionOk<S>(cfg: Config, s: Session<S>, captured: seq<S>)
    requires cfg.chunkSamples > 0
    requires SessionOk(cfg, s, captured)
    requires ProcessStep(cfg, s.state).chunk.Some?
    ensures SessionOk(cfg, TickSession(cfg, s), captured)
  {
    var step := ProcessStep(cfg, s.state);
    var c := step.chunk.value;
    var next := TickSession(cfg, s);
    assert next.chunks == s.chunks + [c] && next.state == step.state;
    ConcatMoves(s.chunks, c, Concat(s.state.buffer), Concat(step.state.buffer));
    AppendChunkKeepsLengths(s.chunks, c, cfg.chunkSamples);
    PathsAppend(cfg.outputDir, s.state.counter);
  }

  lemma TickKeepsSessionOk<S>(cfg: Config, s: Session<S>, captured: seq<S>)
    requires cfg.chunkSamples > 0
    requires SessionOk(cfg, s, captured)
    ensures SessionOk(cfg, TickSession(cfg, s), captured)
  {
    if ProcessStep(cfg, s.state).chunk.Some? {
      EmitKeepsSessionOk(cfg, s, captured);
    } else {
      assert TickSession(cfg, s) == s by {
        assert s.chunks + [] == s.chunks;
      }
    }
  }

  /** Every session reachable from a fresh recorder keeps the invariant. */
  lemma {:induction false} SessionInvariant<S>(cfg: Config, events: seq<Event<S>>)
    requires cfg.chunkSamples > 0
    ensures SessionOk(cfg, Run(cfg, events), CapturedSamples(events))
  {
    if events != [] {
      var init := events[..|events| - 1];
      SessionInvariant(cfg, init);
      var prev := Run(cfg, init);
      match events[|events| - 1]
      case Captured(frame) =>
        CallbackKeepsSessionOk(cfg, prev, CapturedSamples(init), frame);
      case Tick =>
        TickKeepsSessionOk(cfg, prev, CapturedSamples(init));
        assert CapturedSamples(events) == CapturedSamples(init) + [];
    }
  }

  /** The sequence number of every queued path can be read back from its
      base name, and it is the path's position in the queue. */
  lemma PathsCarryPositions(dir: string, n: nat)
    ensures forall i :: 0 <= i < n ==>
              ChunkNaming.ParseFileName(ChunkNaming.BaseName(Paths(dir, n)[i])) == Some(i)
  {
    forall i | 0 <= i < n
      ensures ChunkNaming.ParseFileName(ChunkNaming.BaseName(Paths(dir, n)[i])) == Some(i)
    {
      ChunkNaming.BaseNameOfChunkPath(dir, i);
    }
  }

  /** Every chunk of a session, the flushed remainder of `stop` included. */
  function AllChunks<S>(s: Session<S>, fin: Step<S>): seq<seq<S>> {
    s.chunks + if fin.chunk.Some? then [fin.chunk.value] else []
  }

  /** A whole session ended by `stop`: all chunks, including the flushed
      remainder, concatenate to the captured samples; the queue names every
      chunk, with sequence numbers 0, 1, 2, ... in queue order. */
  lemma SessionWithStop<S>(cfg: Config, events: seq<Event<S>>)
    requires cfg.chunkSamples > 0
    ensures Concat(AllChunks(Run(cfg, events), Stop(cfg, Run(cfg, events).state)))
              == CapturedSamples(events)
    ensures Stop(cfg, Run(cfg, events).state).state.queue
              == Paths(cfg.outputDir, |AllChunks(Run(cfg, events), Stop(cfg, Run(cfg, events).state))|)
  {
    SessionInvariant(cfg, events);
    StopKeepsSessionOk(cfg, Run(cfg, events), CapturedSamples(events));
  }

  /** The flush completes the invariant: nothing is left out of the chunks. */
  lemma StopKeepsSessionOk<S>(cfg: Config, s: Session<S>, captured: seq<S>)
    requires SessionOk(cfg, s, captured)
    ensures Concat(AllChunks(s, Stop(cfg, s.state))) == captured
    ensures Stop(cfg, s.state).state.queue == Paths(cfg.outputDir, |AllChunks(s, Stop(cfg, s.state))|)
  {
    var fin := Stop(cfg, s.state);
    var all := AllChunks(s, fin);
    if fin.chunk.Some? {
      assert all == s.chunks + [fin.chunk.value];
      ConcatAppend(s.chunks, fin.chunk.value);
      PathsAppend(cfg.outputDir, s.state.counter);
    } else {
      assert all == s.chunks;
      assert Concat(s.state.buffer) == [];
      assert Concat(all) + [] == Concat(all);
    }
  }

  /** Every regular chunk is written with the same number of target-rate
      samples: the floor of chunkSamples * targetRate / sourceRate. */
  lemma WrittenChunkLength<S>(cfg: Config, st: RecorderState<S>, interp: (seq<S>, real) -> S)
    requires cfg.chunkSamples > 0 && cfg.sourceRate > 0
    requires ProcessStep(cfg, st).chunk.Some?
    ensures Written(cfg, ProcessStep(cfg, st).chunk.value, interp).Some?
    ensures |Written(cfg, ProcessStep(cfg, st).chunk.value, interp).value|
              == Resampler.TargetCount(cfg.chunkSamples, cfg.sourceRate, cfg.targetRate)
  {
    Resampler.ResampledLength(ProcessStep(cfg, st).chunk.value, cfg.sourceRate, cfg.targetRate, interp);
  }

  /** With the default rates (48 kHz captured, 16 kHz written) a remainder of
      one sample resamples to no samples at all, so the source's `stop` raises
      and the captured sample ends up in no queued chunk; the intended flush
      queues it. */
  lemma ShortRemainderIsLost(interp: (seq<int>, real) -> int)
    ensures var cfg := Config(48000, 16000, 48000, "chunks");
            var st := RecorderState([[0]], 0, []);
            && Concat(st.buffer) == [0]
            && StopAsWritten(cfg, st, interp).chunk.None?
            && StopAsWritten(cfg, st, interp).state.queue == []
            && Stop(cfg, st).chunk == Some([0])
            && |Stop(cfg, st).state.queue| == 1
  {
    var cfg := Config(48000, 16000, 48000, "chunks");
    var st: RecorderState<int> := RecorderState([[0]], 0, []);
    assert [[0]][..0] == [];
    assert Concat(st.buffer) == [0];
    assert Resampler.TargetCount(1, 48000, 16000) == 0;
  }
}
