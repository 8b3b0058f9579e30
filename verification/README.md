# Chunked recording and speaker ranking — a Dafny model

This project models the sequential bookkeeping of a small speaker-identification
tool. It has four parts.

- **The recorder** (`AudioRecorder` in `record.py`). An audio callback appends
  captured frames to a buffer. A processing loop cuts one fixed-length chunk off
  the front of the buffer per pass once enough samples are buffered. It names
  the chunk `chunk_NNNN.wav` after a running counter and puts the file path on a
  queue. Stopping flushes the remainder as one last chunk.
- **The resampler's shape.** Equal rates return the input unchanged. Otherwise
  the output length is the duration times the target rate, truncated, and the
  output interpolates at evenly spaced positions across the input.
- **The speaker store** (`db.py`). A pickled dictionary from speaker name to
  reference embedding, updated by overwrite-on-add.
- **The ranking scripts** (`verify.py`, `test.py`). One `(name, score)` pair per
  stored speaker, stably sorted by score from high to low. Each line is marked
  as a match when its score is strictly above 0.25.

Samples, embeddings and scores are opaque. Samples are a type parameter `S`.
The interpolated values come from a function parameter `interp`. Embeddings are
a type parameter `E`. Scores are reals produced by a function parameter
`compare`. Computing an embedding from a recording is the parameter `embed`.

Files, one module each: `wrappers.dfy` (Option), `chunk_naming.dfy`,
`resampler.dfy`, `recorder.dfy`, `speaker_store.dfy`, `ranking.dfy`,
`scripts.dfy`.

Facts of the code that the model keeps:

- The resampled length is truncated by `int()`, not rounded.
- `stop` flushes the whole remaining buffer as one chunk. That chunk is shorter
  than a regular chunk only if the processing loop has kept up, and it can be
  longer.
- The flush does not advance the counter, and it leaves the buffer as it was.
- The scripts print the whole ranking; nothing picks a single best speaker.

## Model

| member | source | states |
|---|---|---|
| ChunkNaming.FileName | record.py:50 | A chunk file name is `chunk_`, then at least four decimal digits, then `.wav`; it contains no `/`. |
| ChunkNaming.PaddedWidth | record.py:50 | Sequence numbers below 10000 are zero-padded to exactly four digits; larger ones are written in full, neither padded nor cut. |
| ChunkNaming.ParseFileNameRoundTrip | record.py:50 | Reading the digits back out of a generated file name gives the sequence number it was made from. |
| ChunkNaming.FileNameInjective | record.py:50 | Different sequence numbers never share a file name. |
| ChunkNaming.BaseNameOfChunkPath | record.py:50 | For any output directory, the base name of the joined path is the chunk's file name, and the sequence number can be read back from it. |
| Resampler.Resample | record.py:35-46 | Equal rates return the input unchanged. Otherwise there is a result exactly when the source rate is non-zero and the input is non-empty, and its length is within one sample below the exact length × target / source. |
| Resampler.TargetCountIsFloorOfDuration | record.py:40-41 | The output length equals the floor of (length / source rate) × target rate, computed in exact rationals. |
| Resampler.QueryPointsSpanInput | record.py:43 | Interpolation positions lie in [0, length − 1] and never decrease. With two or more positions, the first is 0 and the last is length − 1. |
| Resampler.TargetCountSameRate | record.py:37-41 | With equal rates the length formula gives the input length, so the fast path agrees in length with the general path. |
| Resampler.ResampledLength | record.py:35-46 | A non-empty input at a non-zero source rate always resamples, to exactly the target count of samples. |
| Recorder.Callback | record.py:29-33 | The frame is appended after everything buffered; counter and queue are unchanged. |
| Recorder.ProcessStep | record.py:62-87 | A chunk is emitted exactly when at least `chunkSamples` samples are buffered; otherwise nothing changes. An emitted chunk has exactly `chunkSamples` samples, and chunk followed by the new buffer is the old buffer. The counter goes up by one and the queue gains the path for the old counter. The new buffer holds at most one frame and is empty exactly when nothing was left over. |
| Recorder.OneChunkPerStep | record.py:69-87 | With two chunks' worth buffered, one pass emits one chunk and leaves a full chunk buffered for the next pass. |
| Recorder.Stop | record.py:119-125 | A chunk is flushed exactly when the buffered frames hold at least one sample. It is the whole buffer and is queued under the current counter, which is not advanced. An empty buffer enqueues nothing. |
| Recorder.SaveChunkAsWritten | record.py:35-60 | Saving yields the resampled chunk, and only when it is non-empty. At equal rates a non-empty chunk is always saved, as itself. At different rates and a non-empty chunk, it succeeds exactly when the truncated target count is positive, and then writes exactly that many samples; otherwise the peak computation raises. |
| Recorder.StopAsWritten | record.py:119-125 | The flush as written enqueues exactly when the intended flush would and the save succeeds. When it enqueues, the result is the intended flush; otherwise the state is unchanged. |
| Recorder.ShortRemainderIsLost | record.py:119-125 | At 48 kHz to 16 kHz, a one-sample remainder is enqueued by the intended flush but not by the flush as written. |
| Recorder.TotalIsLength | record.py:70-73 | The frame-by-frame sample count equals the length of the concatenated buffer. |
| Recorder.SessionInvariant | record.py:66-87 | From a fresh recorder, after any mix of callbacks and passes: emitted chunks followed by the buffer are exactly the captured samples, every chunk has `chunkSamples` samples, the counter equals the number of chunks, and the queue holds the paths of chunks 0, 1, 2, … in order. |
| Recorder.SessionWithStop | record.py:113-125 | After `stop`, all chunks, the flushed one included, concatenate to exactly the captured samples, and the queue is the paths 0, 1, 2, … with one entry per chunk. |
| Recorder.PathsCarryPositions | record.py:76-84 | The sequence number parsed from each queued path is that path's position in the queue: ids are gap-free and FIFO. |
| Recorder.WrittenChunkLength | record.py:48-55 | Every regular chunk is written with floor(chunkSamples × target / source) samples. |
| SpeakerStore.Put | db.py:14 | After a dictionary assignment the name maps to the new embedding. Every other name is present and mapped as before. An existing name keeps its place in iteration order; a new name goes last. Keys stay unique. |
| SpeakerStore.Load | db.py:6-7 | With no file the result is the empty dictionary; a well-formed file loads as a well-formed dictionary. |
| SpeakerStore.Save | db.py:9-10 | Loading after saving gives back the saved dictionary. |
| SpeakerStore.Add | db.py:12-15 | Adding keeps the stored file well formed. |
| SpeakerStore.AddThenGetAll | db.py:12-18 | After `add(name, e)`, reading the store finds `e` under `name`. |
| SpeakerStore.AddKeepsOthers | db.py:12-18 | `add` leaves the presence and embedding of every other name unchanged. |
| SpeakerStore.AddSize | db.py:12-18 | Re-adding a known name keeps the size; a new name grows the store by exactly one. |
| SpeakerStore.AddKeepsOrder | db.py:12-18 | Re-adding keeps the iteration order; a new name is iterated last. |
| SpeakerStore.OrderLength | db.py:14 | The iteration order lists each key once, so it has as many entries as the dictionary. |
| Ranking.BuildResults | verify.py:16-19 | One result per position of the store's iteration order. Each names a stored speaker and carries the comparison of that speaker's embedding with the recording's. |
| Ranking.ResultsOnePerSpeaker | verify.py:16-19 | The results list has one entry per stored speaker, in store order, and names every stored speaker. |
| Ranking.SortDescending | verify.py:21 | The sorted list is a permutation of the results, and scores never increase along it. |
| Ranking.SortKeepsTieOrder | verify.py:21 | For every score value, the entries with that score appear in the same relative order before and after the sort. |
| Ranking.DescendingStableUnique | verify.py:21 | Two descending arrangements that agree on the order of each score's entries are identical. |
| Ranking.SortIsTheStableDescendingSort | verify.py:21 | Any descending arrangement that keeps ties in input order is exactly what the model's sort returns, so the model is Python's stable sort with `reverse=True`. |
| Ranking.Report | verify.py:24-26 | One line per sorted result with its name and score, marked as a match exactly when the score is strictly above 0.25. |
| Ranking.Rank | verify.py:16-26 | The printed ranking has one line per stored speaker and names each of them. Every score is that speaker's comparison, scores never increase, and the mark is set iff the score > 0.25. For every score value, the speakers with that score are printed in the store's iteration order. |
| Ranking.RankedTieOrder | verify.py:16-21 | Speakers with equal scores leave the stable sort in the order the results were built, which is the store's iteration order. |
| Ranking.MatchesFormPrefix | verify.py:21-26 | In the printed ranking every match comes before every non-match, and the first line has the highest score of any stored speaker. |
| Scripts.Verify | verify.py:6-26 | The script exits with status 1 on a wrong argument count, and only then, given that embedding and store load succeed. Otherwise it prints the full ranking for the recording at that argument's path: one line per stored speaker, naming each of them, with that speaker's score, scores never increasing, the mark set iff the score > 0.25, and speakers with equal scores in store order. |
| Scripts.UsageErrorBeforeScoring | verify.py:6-8 | On a wrong argument count the outcome does not depend on the store, the embedding or the comparison: nothing is scored. |
| Scripts.TestRun | test.py:14-32 | The test script prints one line per stored speaker and names each of them. The scores are for the fixed test recording, they never increase, the mark is set iff the score > 0.25, and speakers with equal scores appear in store order. |
| Scripts.TestAgreesWithVerify | test.py:22-32 | The test script prints exactly what `verify.py` prints when given the test recording's path. |

## Findings

| source | as written | input that shows it | evidently intended | confidence | as-written member | corrected member |
|---|---|---|---|---|---|---|
| record.py:53-58, 121-124 | `stop` saves the remainder, and the save takes the peak of the resampled data. A remainder so short that the truncated target count is 0 resamples to an empty array, whose peak raises before the file name is queued. | Capture 48000 Hz, target 16000 Hz, remainder of 1 sample: int(1/48000 × 16000) = 0 samples. | Every non-empty remainder is handed to the writer and its file name queued, and `stop` returns normally. Every captured sample then lies in some chunk handed to the writer, counted at the capture rate: a remainder that resamples to 0 samples still yields an empty file. | medium — not executed; relies on numpy raising for the maximum of an empty array | Recorder.StopAsWritten (counterexample: Recorder.ShortRemainderIsLost) | Recorder.Stop (every captured sample in a chunk handed to the writer, at the capture rate: Recorder.SessionWithStop) |

The rest of the model uses `Stop`. It is the intended flush because the comment at record.py:119 says the last fragment is saved and the guard at record.py:122 admits every non-empty remainder.

## Left out

- Threads and blocking: the daemon processing thread, the sleep between passes, the `is_recording` loop condition, and the blocking and timeout of the queue (`get_chunk`, `has_chunks`). Each processing pass and each callback is one atomic step, and the queue is a plain sequence. Frames appended by the callback while a pass is running, and a `stop` racing a pass, are concurrency effects outside this model.
- Audio device set-up and the input stream, the status warning in the callback, writing the WAV file, and all printing (including the completion message after `stop`).
- The interpolated sample values, and the peak and mean diagnostics on written chunks. Only the shape of the resampler is modelled; the values come from the opaque `interp`.
- The conversion of the chunk duration to `chunkSamples`. It is a configuration value and must be positive. With zero, every pass would try to save an empty chunk, and the save fails: at different rates `np.interp` (record.py:44) rejects the empty input, and at equal rates the peak (record.py:57) of the empty chunk raises.
- Resampler.Resample: the output length is the exact floor of length × target / source. The source computes `len / sr * tr` in floating point first, and that product can fall just below a whole number, making the count one lower. For example, 58 samples at 200 Hz to 100 Hz give 29 in the model, while the floating-point product 28.999… truncates to 28.
- Recorder.ProcessStep: does not model a failure while saving a chunk. In the source such a failure ends the processing thread. It happens on a disk error, or for a configuration whose chunk resamples to zero samples.
- Floating-point scores: scores are exact reals, so a NaN score, which would disturb the sort, cannot occur in the model.
- The embedding model and cosine similarity (`model.py`). They are the opaque parameters `embed` and `compare`.
- Scripts.Verify: the model takes `embed` and `Load` as total. In the source, a missing or unreadable recording makes `model.get_embedding` (verify.py:13) raise, and so does an unreadable store in `db.get_all()` (verify.py:17). Both exceptions are uncaught, so Python exits with status 1 as on a usage error. The same holds for `Scripts.TestRun` when `wojtek3.wav` is missing (test.py:19).
- Pickle encoding and the file-existence check. The file is an optional dictionary, and a saved dictionary loads back unchanged. A corrupt file is not modelled.
- SpeakerStore.GetAll: no contract. It returns the loaded dictionary and produces no new file, so by construction it cannot change the store.
- The `main` entry points and the Ctrl-C handling.
