# Per-utterance slicer, modelled in Dafny

`tools/slice_per_utterance.py` turns one long speech recording into short
training clips. A speech recogniser returns timestamped chunks of text.
Every chunk whose duration lies strictly between 0.6 s and 54 s is cut out
of the decoded buffer and written as `{base}_{i}.wav`, where `i` is the
chunk's position in the recogniser's list. Each kept chunk also gets one
manifest line `path|base|LANG|text`. The lines are joined with newlines into
`{base}.list`. Any exception inside the `try` makes the function return
`None` before the manifest is written.

The project has two files:

- `pylib.dfy` holds two modules. `Wrappers` has `Option`. `PyLib` models
  the Python built-ins the slicer relies on: `int()` on a float (truncation
  toward zero), `a[lo:hi]` (negative bounds counted from the end, clamped to
  the length), `str()` of a non-negative integer and its inverse,
  `sep.join`, `s.split(sep)`, ASCII `str.upper`, and POSIX
  `os.path.basename`, `os.path.splitext` and `os.path.join`.
- `slicer.dfy` (module `Slicer`) holds the language table, the duration
  filter, clip and manifest naming, and the loop as a specification function
  `Processed` (the state after the first `n` chunks). It also holds the
  methods `SliceChunks` (the loop) and `Slice` (the whole function), and
  the lemmas about the loop.

The file system is not state here. `Slice` returns the ordered log of what
it does: `MakeDirs`, one `WriteWav(path, frames, rate)` per clip, and
`WriteText(path, content)` for the manifest. Writes always overwrite. The
decoder result, the recogniser result and the set of paths whose write
raises are parameters.

Timestamps are exact `real`s. The sample rate is a `nat`. A frame is
`seq<real>` (one sample per channel), and slicing picks whole frames, as
slicing a numpy array's first axis does.

## Model

| member | source | states |
|---|---|---|
| `Slicer.Slice` | tools/slice_per_utterance.py:15-66 | A decode failure escapes with no effects. Otherwise both directories are created first. An unknown language code or a recogniser failure then returns None with no other effect. In every later case the clip writes of the loop follow the two directory creations. An exception in the loop returns None with exactly those effects and no manifest. If opening the manifest raises, the exception escapes, again with exactly those effects. Otherwise the manifest, the "\n"-join of the lines, is written after them and the result is `(audio_output_folder, join(transcript_output_folder, base + ".list"))`. In the model a manifest write only ever appears as the last effect of a successful call. |
| `Slicer.SliceChunks` | tools/slice_per_utterance.py:36-58 | The loop's lines, skip count and clip writes (or the writes before an exception) equal the specification `Processed` after all chunks. Every logged effect is a clip write. |
| `Slicer.AcceptedIndices` | tools/slice_per_utterance.py:39-47 | Reference definition of the kept positions: strictly ascending, all below `n`, and each one passes the duration filter with an end timestamp present. |
| `Slicer.AcceptedIndicesExact` | tools/slice_per_utterance.py:44-47 | A position below `n` is kept exactly when its chunk has an end timestamp and a duration strictly between 0.6 s and 54 s. |
| `Slicer.LinesOf` | tools/slice_per_utterance.py:57 | One manifest line per listed position, in order. Line `k` joins the clip path for position `ix[k]`, the base name, the upper-cased language code and that chunk's text with pipe characters. |
| `Slicer.WritesOf` | tools/slice_per_utterance.py:40-55 | One clip write per listed position, in order. Write `k` puts `audio[int(start*sr):int(end*sr)]` of chunk `ix[k]` at `join(dir, base_i.wav)` with `i = ix[k]`, at the decoded rate. |
| `Slicer.ProcessedWithoutFault` | tools/slice_per_utterance.py:39-57 | If none of the first `n` chunks raises, the loop state after them is the reference state: the lines and clip writes of the kept positions in ascending order (so skipped positions leave gaps in the clip numbering), and a skip count equal to the number of chunks not kept. |
| `Slicer.RunsIffNoFault` | tools/slice_per_utterance.py:39-60 | The loop completes exactly when no chunk has a None end and no kept chunk's clip write raises. |
| `Slicer.LinesPlusSkippedIsTotal` | tools/slice_per_utterance.py:36-47 | On the success path, manifest lines plus `skipped_segments` equals the number of chunks. |
| `Slicer.RaisedPersists` | tools/slice_per_utterance.py:59-60 | After an exception nothing further is written or appended. |
| `Slicer.ProcessedFirstFault` | tools/slice_per_utterance.py:41-60 | When chunk `f` is the first to raise, the loop ends raised. Exactly the clips of the kept chunks before `f` stay written, in order, and no lines survive. |
| `Slicer.ClipPathInjective` | tools/slice_per_utterance.py:40 | Two clip paths built from one folder and base name are equal only for equal indices. |
| `Slicer.ClipPathsDistinct` | tools/slice_per_utterance.py:39-55 | In a run without exception, no two clip writes share a path, so no clip of a run overwrites another. |
| `Slicer.SampleBounds` | tools/slice_per_utterance.py:41-42 | For a kept chunk with `start >= 0` and `end*sr` inside the buffer, `int(start*sr)` and `int(end*sr)` are the floors of the scaled times, in order, within the buffer. |
| `Slicer.ClipFramesInBuffer` | tools/slice_per_utterance.py:41-49 | Under the same conditions the clip is `audio[floor(start*sr)..floor(end*sr)]`, end-exclusive. |
| `Slicer.ClipFramesNonEmpty` | tools/slice_per_utterance.py:41-49 | Under the same conditions and `sr >= 2`, the clip holds at least one frame. |
| `Slicer.ManifestLineSplit` | tools/slice_per_utterance.py:57 | If the path, base and tag hold no pipe character, splitting a manifest line on the pipe gives `[path, base, tag]` followed by the pieces of the text. |
| `Slicer.ManifestLineFields` | tools/slice_per_utterance.py:57 | Under the same condition the line has exactly four fields iff the text holds no pipe, because nothing is escaped. |
| `Slicer.ClipPathNoPipe` | tools/slice_per_utterance.py:40 | A clip path holds a pipe character only if the clip folder or the base name does: the index and the fixed parts of the name never do. |
| `Slicer.ManifestLineNamesClip` | tools/slice_per_utterance.py:40-57 | On the success path, with a language from the table and no pipe in the clip folder or base name, the first field of manifest line `k` is the path that clip write `k` went to. |
| `Slicer.LanguageTags` | tools/slice_per_utterance.py:9-13 | The table accepts exactly `en`, `ja` and `zh`, and their manifest tags are `EN`, `JA` and `ZH`. |
| `Slicer.ThreeChunkExample` | tools/slice_per_utterance.py:39-57 | For chunks of 0.5 s, 2 s and 54 s in a 10 s recording at 16 kHz, only the middle one is kept. It keeps index 1, is written as `out/rec_1.wav` with frames 16000 to 48000, and two chunks are skipped. |
| `Slicer.ExampleMiddleChunk` | tools/slice_per_utterance.py:40-57 | The clip path, clip write and manifest line of the example's middle chunk, written out. |
| `Slicer.OutputBaseName` | tools/slice_per_utterance.py:21 | The base name holds no `/` and is no longer than the input path. |
| `PyLib.Trunc` | tools/slice_per_utterance.py:41-42 | `int(x)` is the integer within 1 of `x` on the side of zero: `r <= x < r+1` for `x >= 0`, and `r-1 < x <= r` for `x < 0`. |
| `PyLib.TruncBetween` | tools/slice_per_utterance.py:41-42 | For `0 <= x <= y <= n`, `int(x)` and `int(y)` are the floors and lie in order within `[0, n]`. |
| `PyLib.SliceBound` | tools/slice_per_utterance.py:49 | A slice bound within `[0, n]` stays. A bound above `n` becomes `n`. A negative bound counts from the end and is clamped at 0. |
| `PyLib.PySlice` | tools/slice_per_utterance.py:49 | `a[lo:hi]` has length `max(0, h - l)` for the normalised bounds `l` and `h`. Its element `k` is `a[l + k]`. |
| `PyLib.PySliceClamped` | tools/slice_per_utterance.py:49 | With non-negative bounds, `a[lo:hi]` is the end-exclusive subsequence with both bounds clamped to the length. |
| `PyLib.DecimalString` | tools/slice_per_utterance.py:40 | `str(i)` is a non-empty string of digits. It starts with `0` only for 0, where it is `"0"`. |
| `PyLib.DecimalRoundTrip` | tools/slice_per_utterance.py:40 | Parsing `str(i)` back gives `i`. |
| `PyLib.DecimalInjective` | tools/slice_per_utterance.py:40 | Distinct indices have distinct numerals. |
| `PyLib.Split` | tools/slice_per_utterance.py:57 | `s.split(sep)` has at least one piece, and no piece holds the separator. |
| `PyLib.SplitJoin` | tools/slice_per_utterance.py:65 | For at least one part and no part holding the separator, splitting `sep.join(parts)` gives the parts back. This is how the manifest reads back line by line. |
| `PyLib.JoinSplit` | tools/slice_per_utterance.py:65 | Joining the pieces of `s.split(sep)` with `sep` gives `s` back. |
| `PyLib.SplitSingle` | tools/slice_per_utterance.py:57 | A split has exactly one piece iff the separator is absent. |
| `PyLib.Upper` | tools/slice_per_utterance.py:57 | `upper()` keeps the length. Each ASCII lower-case letter becomes its capital, every other character stays, and no ASCII lower-case letter is left. |
| `PyLib.Basename` | tools/slice_per_utterance.py:21 | `basename(p)` is the longest suffix of `p` without `/`. |
| `PyLib.StemOf` | tools/slice_per_utterance.py:21 | `splitext(b)[0]` is a prefix of `b`. If it drops an extension, the cut is at the last `.` and something other than a dot precedes it. If it drops nothing, no dot follows a non-dot character. |
| `PyLib.PathJoinParts` | tools/slice_per_utterance.py:40 | `join(a, b)` ends with `b`. It is `b` alone when `b` is absolute. Otherwise it starts with `a`, and one `/` comes between them exactly when `a` is non-empty and does not already end in `/`. |

## Left out

- The Whisper pipeline, its model loading and inference, and the torch
  device choice are not modelled. Their result is the parameter
  `transcript`, and None stands for any exception they raise. `model_size`
  only selects the model. `precision` is never used by the function.
- `sf.read` and `sf.write` are codec I/O. The decoded buffer is the
  parameter `decoded` (None when decoding raises, which escapes the
  function). A write that raises is a path in `unwritable`. A partly
  written file left by a failing write is not modelled.
- Opening the manifest for writing either raises (its path is in
  `unwritable`, and the exception escapes) or succeeds together with the
  write. An `f.write` that raises after a successful open, which would leave
  an empty or partial manifest behind and let the exception escape, is not
  modelled.
- `os.makedirs` is an effect in the log. A failure to create a directory,
  which would escape the function, is not modelled.
- All `print` output and its float formatting are logging only and are not
  modelled.
- Timestamps are exact reals, so IEEE rounding of `end - start` near the
  0.6 and 54 boundaries and of `t * sr` is not modelled.
- `PyLib.Upper` covers ASCII letters only. The language codes that reach
  it are keys of the table, which are all ASCII.
- Paths follow POSIX `posixpath`. Windows path rules are not modelled.
- A chunk's start timestamp is a number. The recogniser only leaves the end
  of a chunk open, and a None start, which would raise the same TypeError,
  is not modelled.
- The manifest content is a string. Its UTF-8 encoding is not modelled.
- Re-running with the same inputs gives the same effect log, because the
  log is fully determined by the inputs. No separate lemma states this.
