/** The per-utterance slicer: one decoded recording and its timestamped
    transcript become one wav clip per chunk of acceptable duration plus a
    `.list` manifest with one `path|base|LANG|text` line per clip.

    The file system is not modelled as state: `Slice` returns the ordered
    log of the effects it would perform (directory creation, clip writes,
    the manifest write). The speech recogniser and the audio decoder are
    inputs: their results, or their failure, are parameters. */
module Slicer {
  import opened Wrappers
  import opened PyLib

  /** One frame of the decoded buffer: one sample per channel. Slicing the
      buffer selects whole frames. */
  type Frame = seq<real>

  /** `to_lang_name`: the recognised language codes and the language names
      passed to the recogniser. */
  const LanguageNames: map<string, string> :=
    map["en" := "english", "ja" := "japanese", "zh" := "chinese"]

  /** Exclusive bounds, in seconds, of an acceptable chunk duration. */
  const MinSeconds: real := 0.6
  const MaxSeconds: real := 54.0

  /** One entry of the recogniser's `chunks` list: `timestamp[0]`,
      `timestamp[1]` (which the recogniser may leave as None) and `text`. */
  datatype Chunk = Chunk(start: real, end: Option<real>, text: string)

  /** An effect on the file system, in the order `slice` performs them. */
  datatype Effect =
    | MakeDirs(dir: string)
    | WriteWav(path: string, frames: seq<Frame>, rate: nat)
    | WriteText(path: string, content: string)

  /** How a call of `slice` ends: an exception that escapes it (a decode
      failure, raised before the `try`), `None` (any exception inside the
      `try`), or the pair `(audio_output_folder, output_transcript_path)`. */
  datatype Outcome =
    | Propagated
    | ReturnedNone
    | Returned(audioDir: string, manifestPath: string)

  /** What the segment loop reads besides the chunks: the decoded buffer and
      its rate, the base name, the language code, the clip directory, and the
      clip paths whose `sf.write` raises. */
  datatype Job = Job(audio: seq<Frame>, rate: nat, base: string, lang: string,
                     audioDir: string, unwritable: set<string>)

  // ---------------------------------------------------------------------------
  // Per-chunk pieces
  // ---------------------------------------------------------------------------

  /** The duration filter: strictly longer than 0.6 s and strictly shorter
      than 54 s. */
  predicate WithinDuration(start: real, end: real) {
    MinSeconds < end - start < MaxSeconds
  }

  /** A chunk that yields a clip and a manifest line. */
  predicate Accepted(c: Chunk) {
    c.end.Some? && WithinDuration(c.start, c.end.value)
  }

  /** `os.path.splitext(os.path.basename(input_audio))[0]`. */
  function OutputBaseName(inputPath: string): (base: string)
    ensures '/' !in base
    ensures |base| <= |inputPath|
  {
    StemOf(Basename(inputPath))
  }

  function ClipName(base: string, i: nat): string {
    base + "_" + DecimalString(i) + ".wav"
  }

  /** `os.path.join(audio_output_folder, f"{output_base_name}_{i}.wav")`. */
  function ClipPath(dir: string, base: string, i: nat): string {
    PathJoin(dir, ClipName(base, i))
  }

  /** `os.path.join(transcript_output_folder, f"{output_base_name}.list")`. */
  function ManifestPath(dir: string, base: string): string {
    PathJoin(dir, base + ".list")
  }

  /** One manifest row; no character of `text` is escaped. */
  function ManifestLine(path: string, base: string, tag: string, text: string): string {
    path + "|" + base + "|" + tag + "|" + text
  }

  /** `int(t * sr)`. */
  function SampleIndex(t: real, rate: nat): int {
    Trunc(t * rate as real)
  }

  /** `audio_data[int(start*sr):int(end*sr)]`. */
  function ClipFrames(audio: seq<Frame>, rate: nat, start: real, end: real): seq<Frame> {
    PySlice(audio, SampleIndex(start, rate), SampleIndex(end, rate))
  }

  /** The clip write issued for chunk `i`. */
  function ClipWrite(job: Job, i: nat, c: Chunk): Effect
    requires c.end.Some?
  {
    WriteWav(ClipPath(job.audioDir, job.base, i),
             ClipFrames(job.audio, job.rate, c.start, c.end.value), job.rate)
  }

  /** The manifest line appended for chunk `i`. */
  function LineFor(job: Job, i: nat, c: Chunk): string {
    ManifestLine(ClipPath(job.audioDir, job.base, i), job.base, Upper(job.lang), c.text)
  }

  /** Chunk `i` raises inside the loop: its end timestamp is None (a
      TypeError in `int(None * sr)`), or it is accepted and writing its clip
      raises. */
  predicate Faulty(job: Job, i: nat, c: Chunk) {
    c.end.None? ||
    (WithinDuration(c.start, c.end.value) && ClipPath(job.audioDir, job.base, i) in job.unwritable)
  }

  // ---------------------------------------------------------------------------
  // The segment loop as a function of the chunks seen so far
  // ---------------------------------------------------------------------------

  /** The loop's state: the accumulated `output` lines, `skipped_segments`
      and the clip writes so far; or the writes done before an exception. */
  datatype Progress =
    | Running(lines: seq<string>, skipped: nat, log: seq<Effect>)
    | Raised(log: seq<Effect>)

  /** One iteration of the loop on chunk `i`. */
  function Step(job: Job, p: Progress, i: nat, c: Chunk): Progress {
    match p
    case Raised(_) => p
    case Running(lines, skipped, log) =>
      if c.end.None? then Raised(log)
      else if !WithinDuration(c.start, c.end.value) then Running(lines, skipped + 1, log)
      else if ClipPath(job.audioDir, job.base, i) in job.unwritable then Raised(log)
      else Running(lines + [LineFor(job, i, c)], skipped, log + [ClipWrite(job, i, c)])
  }

  /** The loop's state after the first `n` chunks. */
  function Processed(job: Job, chunks: seq<Chunk>, n: nat): Progress
    requires n <= |chunks|
  {
    if n == 0 then Running([], 0, [])
    else Step(job, Processed(job, chunks, n - 1), n - 1, chunks[n - 1])
  }

  /** Reference definition: the positions among the first `n` chunks that
      pass the filter, ascending (that it holds every such position is
      `AcceptedIndicesExact`). */
  function AcceptedIndices(chunks: seq<Chunk>, n: nat): (ix: seq<nat>)
    requires n <= |chunks|
    ensures |ix| <= n
    ensures forall k :: 0 <= k < |ix| ==> ix[k] < n && Accepted(chunks[ix[k]])
    ensures forall k, l :: 0 <= k < l < |ix| ==> ix[k] < ix[l]
  {
    if n == 0 then []
    else
      var prev := AcceptedIndices(chunks, n - 1);
      if Accepted(chunks[n - 1]) then prev + [n - 1] else prev
  }

  /** A position below `n` is listed exactly when its chunk passes the
      filter. */
  lemma {:induction false} AcceptedIndicesExact(chunks: seq<Chunk>, n: nat, i: nat)
    requires i < n <= |chunks|
    ensures i in AcceptedIndices(chunks, n) <==> Accepted(chunks[i])
  {
    if i < n - 1 {
      AcceptedIndicesExact(chunks, n - 1, i);
      var prev := AcceptedIndices(chunks, n - 1);
      if Accepted(chunks[n - 1]) {
        assert AcceptedIndices(chunks, n) == prev + [n - 1];
      }
    } else {
      var prev := AcceptedIndices(chunks, n - 1);
      assert i !in prev;
    }
  }

  /** An accepted chunk is appended to the positions. */
  lemma AcceptedIndicesSnoc(chunks: seq<Chunk>, n: nat)
    requires 0 < n <= |chunks|
    requires Accepted(chunks[n - 1])
    ensures AcceptedIndices(chunks, n) == AcceptedIndices(chunks, n - 1) + [n - 1]
  {
  }

  // ---------------------------------------------------------------------------
  // Properties of the loop
  // ---------------------------------------------------------------------------

  /** Once an exception is raised nothing further happens. */
  lemma {:induction false} RaisedPersists(job: Job, chunks: seq<Chunk>, m: nat, n: nat)
    requires m <= n <= |chunks|
    requires Processed(job, chunks, m).Raised?
    ensures Processed(job, chunks, n) == Processed(job, chunks, m)
    decreases n - m
  {
    if m < n {
      RaisedPersists(job, chunks, m, n - 1);
    }
  }

  /** The loop runs to the end of the first `n` chunks exactly when none of
      them raises. */
  lemma {:induction false} RunsIffNoFault(job: Job, chunks: seq<Chunk>, n: nat)
    requires n <= |chunks|
    ensures Processed(job, chunks, n).Running? <==>
            forall i :: 0 <= i < n ==> !Faulty(job, i, chunks[i])
  {
    if n > 0 {
      RunsIffNoFault(job, chunks, n - 1);
    }
  }

  /** The manifest lines for the chunks at positions `ix`, in that order. */
  function LinesOf(job: Job, chunks: seq<Chunk>, ix: seq<nat>): (lines: seq<string>)
    requires forall k :: 0 <= k < |ix| ==> ix[k] < |chunks|
    ensures |lines| == |ix|
    ensures forall k :: 0 <= k < |ix| ==> lines[k] == LineFor(job, ix[k], chunks[ix[k]])
  {
    if ix == [] then []
    else LinesOf(job, chunks, ix[..|ix| - 1]) + [LineFor(job, ix[|ix| - 1], chunks[ix[|ix| - 1]])]
  }

  /** `LinesOf` grows by one line per appended position. */
  lemma LinesOfSnoc(job: Job, chunks: seq<Chunk>, ix: seq<nat>, i: nat)
    requires forall k :: 0 <= k < |ix| ==> ix[k] < |chunks|
    requires i < |chunks|
    ensures LinesOf(job, chunks, ix + [i]) == LinesOf(job, chunks, ix) + [LineFor(job, i, chunks[i])]
  {
    assert (ix + [i])[..|ix|] == ix;
  }

  /** The clip writes for the accepted chunks at positions `ix`, in that
      order. */
  function WritesOf(job: Job, chunks: seq<Chunk>, ix: seq<nat>): (writes: seq<Effect>)
    requires forall k :: 0 <= k < |ix| ==> ix[k] < |chunks| && chunks[ix[k]].end.Some?
    ensures |writes| == |ix|
    ensures forall k :: 0 <= k < |ix| ==> writes[k] == ClipWrite(job, ix[k], chunks[ix[k]])
  {
    if ix == [] then []
    else WritesOf(job, chunks, ix[..|ix| - 1]) + [ClipWrite(job, ix[|ix| - 1], chunks[ix[|ix| - 1]])]
  }

  /** `WritesOf` grows by one clip write per appended position. */
  lemma WritesOfSnoc(job: Job, chunks: seq<Chunk>, ix: seq<nat>, i: nat)
    requires forall k :: 0 <= k < |ix| ==> ix[k] < |chunks| && chunks[ix[k]].end.Some?
    requires i < |chunks| && chunks[i].end.Some?
    ensures WritesOf(job, chunks, ix + [i]) == WritesOf(job, chunks, ix) + [ClipWrite(job, i, chunks[i])]
  {
    assert (ix + [i])[..|ix|] == ix;
  }

  /** Reference definition of the loop's state when no chunk raises: one
      line and one clip write per accepted chunk, in ascending order, and
      every other chunk counted as skipped. */
  function Expected(job: Job, chunks: seq<Chunk>, n: nat): Progress
    requires n <= |chunks|
  {
    var ix := AcceptedIndices(chunks, n);
    Running(LinesOf(job, chunks, ix), n - |ix|, WritesOf(job, chunks, ix))
  }

  /** An accepted chunk adds its line to the reference lines. */
  lemma LinesOfAccepted(job: Job, chunks: seq<Chunk>, n: nat)
    requires 0 < n <= |chunks|
    requires Accepted(chunks[n - 1])
    ensures LinesOf(job, chunks, AcceptedIndices(chunks, n)) ==
            LinesOf(job, chunks, AcceptedIndices(chunks, n - 1)) + [LineFor(job, n - 1, chunks[n - 1])]
  {
    AcceptedIndicesSnoc(chunks, n);
    LinesOfSnoc(job, chunks, AcceptedIndices(chunks, n - 1), n - 1);
  }

  /** An accepted chunk adds its clip write to the reference writes. */
  lemma WritesOfAccepted(job: Job, chunks: seq<Chunk>, n: nat)
    requires 0 < n <= |chunks|
    requires Accepted(chunks[n - 1])
    ensures WritesOf(job, chunks, AcceptedIndices(chunks, n)) ==
            WritesOf(job, chunks, AcceptedIndices(chunks, n - 1)) + [ClipWrite(job, n - 1, chunks[n - 1])]
  {
    AcceptedIndicesSnoc(chunks, n);
    WritesOfSnoc(job, chunks, AcceptedIndices(chunks, n - 1), n - 1);
  }

  /** An accepted chunk adds its line and its clip write to the reference
      state. */
  lemma ExpectedSnoc(job: Job, chunks: seq<Chunk>, n: nat)
    requires 0 < n <= |chunks|
    requires Accepted(chunks[n - 1])
    ensures var e, c := Expected(job, chunks, n - 1), chunks[n - 1];
      Expected(job, chunks, n) == Running(e.lines + [LineFor(job, n - 1, c)], e.skipped, e.log + [ClipWrite(job, n - 1, c)])
  {
    AcceptedIndicesSnoc(chunks, n);
    LinesOfAccepted(job, chunks, n);
    WritesOfAccepted(job, chunks, n);
  }

  /** Without an exception, the manifest lines and the clip writes are,
      in ascending order, exactly one per accepted chunk, and every other
      chunk is counted as skipped. */
  lemma {:induction false} ProcessedWithoutFault(job: Job, chunks: seq<Chunk>, n: nat)
    requires n <= |chunks|
    requires forall i :: 0 <= i < n ==> !Faulty(job, i, chunks[i])
    ensures Processed(job, chunks, n) == Expected(job, chunks, n)
  {
    if n > 0 {
      ProcessedWithoutFault(job, chunks, n - 1);
      assert !Faulty(job, n - 1, chunks[n - 1]);
      if Accepted(chunks[n - 1]) {
        AcceptedStep(job, chunks, n);
      } else {
        SkippedStep(job, chunks, n);
      }
    }
  }

  /** One iteration on an accepted chunk that does not raise. */
  lemma KeptStep(job: Job, chunks: seq<Chunk>, n: nat)
    requires 0 < n <= |chunks|
    requires Accepted(chunks[n - 1]) && !Faulty(job, n - 1, chunks[n - 1])
    requires Processed(job, chunks, n - 1).Running?
    ensures var p, c := Processed(job, chunks, n - 1), chunks[n - 1];
      Processed(job, chunks, n) == Running(p.lines + [LineFor(job, n - 1, c)], p.skipped, p.log + [ClipWrite(job, n - 1, c)])
  {
  }

  /** An accepted chunk that does not raise keeps the loop on the
      reference state. */
  lemma AcceptedStep(job: Job, chunks: seq<Chunk>, n: nat)
    requires 0 < n <= |chunks|
    requires Accepted(chunks[n - 1]) && !Faulty(job, n - 1, chunks[n - 1])
    requires Processed(job, chunks, n - 1) == Expected(job, chunks, n - 1)
    ensures Processed(job, chunks, n) == Expected(job, chunks, n)
  {
    KeptStep(job, chunks, n);
    ExpectedSnoc(job, chunks, n);
  }

  /** A chunk outside the duration bounds only raises the skip count, on
      the loop and on the reference state alike. */
  lemma SkippedStep(job: Job, chunks: seq<Chunk>, n: nat)
    requires 0 < n <= |chunks|
    requires !Accepted(chunks[n - 1]) && !Faulty(job, n - 1, chunks[n - 1])
    requires Processed(job, chunks, n - 1) == Expected(job, chunks, n - 1)
    ensures Processed(job, chunks, n) == Expected(job, chunks, n)
  {
  }

  /** On the success path the manifest lines and the skip count add up to
      the number of chunks. */
  lemma LinesPlusSkippedIsTotal(job: Job, chunks: seq<Chunk>)
    requires Processed(job, chunks, |chunks|).Running?
    ensures var p := Processed(job, chunks, |chunks|); |p.lines| + p.skipped == |chunks|
  {
    RunsIffNoFault(job, chunks, |chunks|);
    ProcessedWithoutFault(job, chunks, |chunks|);
  }

  /** When chunk `f` is the first to raise, the loop ends with exactly the
      clip writes of the accepted chunks before `f`, and no manifest lines
      survive. */
  lemma ProcessedFirstFault(job: Job, chunks: seq<Chunk>, f: nat)
    requires f < |chunks|
    requires Faulty(job, f, chunks[f])
    requires forall i :: 0 <= i < f ==> !Faulty(job, i, chunks[i])
    ensures var ix := AcceptedIndices(chunks, f);
      Processed(job, chunks, |chunks|).Raised? &&
      Processed(job, chunks, |chunks|).log == Processed(job, chunks, f).log &&
      |Processed(job, chunks, f).log| == |ix| &&
      forall k :: 0 <= k < |ix| ==>
        Processed(job, chunks, f).log[k] == ClipWrite(job, ix[k], chunks[ix[k]])
  {
    ProcessedWithoutFault(job, chunks, f);
    RunsIffNoFault(job, chunks, f + 1);
    RaisedPersists(job, chunks, f + 1, |chunks|);
  }

  /** The clip name determines the chunk index. */
  lemma ClipPathInjective(dir: string, base: string, i: nat, j: nat)
    requires ClipPath(dir, base, i) == ClipPath(dir, base, j)
    ensures i == j
  {
    var ni, nj := ClipName(base, i), ClipName(base, j);
    var si, sj := DecimalString(i), DecimalString(j);
    // both names start with the same character, so PathJoin treats them alike
    assert ni[0] == nj[0];
    var r := ClipPath(dir, base, i);
    PathJoinParts(dir, ni);
    PathJoinParts(dir, nj);
    assert r[|r| - |ni|..] == ni && r[|r| - |nj|..] == nj;
    assert |ni| == |nj|;
    assert ni == nj;
    assert si == ni[|base| + 1..|ni| - 4];
    assert sj == nj[|base| + 1..|nj| - 4];
    DecimalInjective(i, j);
  }

  /** No two clips of one run share a path, so no clip of the run
      overwrites another. */
  lemma ClipPathsDistinct(job: Job, chunks: seq<Chunk>, k: nat, l: nat)
    requires forall i :: 0 <= i < |chunks| ==> !Faulty(job, i, chunks[i])
    requires k < l < |AcceptedIndices(chunks, |chunks|)|
    ensures var p := Processed(job, chunks, |chunks|);
      l < |p.log| && p.log[k].WriteWav? && p.log[l].WriteWav? && p.log[k].path != p.log[l].path
  {
    ProcessedWithoutFault(job, chunks, |chunks|);
    var ix := AcceptedIndices(chunks, |chunks|);
    if ClipPath(job.audioDir, job.base, ix[k]) == ClipPath(job.audioDir, job.base, ix[l]) {
      ClipPathInjective(job.audioDir, job.base, ix[k], ix[l]);
    }
  }

  /** For a chunk inside the buffer the clip is the end-exclusive run of
      frames between the floors of `start * sr` and `end * sr`. */
  lemma ClipFramesInBuffer(audio: seq<Frame>, rate: nat, start: real, end: real)
    requires 0.0 <= start && WithinDuration(start, end)
    requires end * rate as real <= |audio| as real
    ensures var lo, hi := (start * rate as real).Floor, (end * rate as real).Floor;
      0 <= lo <= hi <= |audio| &&
      ClipFrames(audio, rate, start, end) == audio[lo..hi]
  {
    SampleBounds(start, end, rate, |audio|);
    PySliceClamped(audio, SampleIndex(start, rate), SampleIndex(end, rate));
  }

  /** The sample indices of an accepted chunk inside a buffer of `len`
      frames are the floors of the scaled times, in order, within the
      buffer. */
  lemma SampleBounds(start: real, end: real, rate: nat, len: nat)
    requires 0.0 <= start && WithinDuration(start, end)
    requires end * rate as real <= len as real
    ensures var lo, hi := SampleIndex(start, rate), SampleIndex(end, rate);
      lo == (start * rate as real).Floor && hi == (end * rate as real).Floor &&
      0 <= lo <= hi <= len
  {
    var r := rate as real;
    ScaledOrder(start, end, r);
    TruncBetween(start * r, end * r, len);
  }

  /** At two frames per second or more, every accepted chunk inside the
      buffer yields at least one frame. */
  lemma ClipFramesNonEmpty(audio: seq<Frame>, rate: nat, start: real, end: real)
    requires 0.0 <= start && WithinDuration(start, end)
    requires end * rate as real <= |audio| as real
    requires 2 <= rate
    ensures |ClipFrames(audio, rate, start, end)| >= 1
  {
    ClipFramesInBuffer(audio, rate, start, end);
    var r := rate as real;
    ScaledGap(start, end, r);
    var x, y := start * r, end * r;
    assert x.Floor as real <= x < y - 1.0 < y.Floor as real;
  }

  /** Scaling by a non-negative rate keeps the order of two times. */
  lemma ScaledOrder(start: real, end: real, r: real)
    requires 0.0 <= start <= end && 0.0 <= r
    ensures 0.0 <= start * r <= end * r
  {
    assert end * r - start * r == (end - start) * r;
  }

  /** A gap over 0.6 s spans more than one frame at two frames per second. */
  lemma ScaledGap(start: real, end: real, r: real)
    requires MinSeconds < end - start && 2.0 <= r
    ensures end * r - start * r > 1.0
  {
    var d := end - start;
    assert end * r - start * r == d * r;
    assert d * r - d * 2.0 == d * (r - 2.0);
    assert 0.0 <= d * (r - 2.0);
  }

  /** The fields of a manifest line read back with `split('|')` as long as
      the path, the base name and the tag hold no '|'. */
  lemma ManifestLineSplit(path: string, base: string, tag: string, text: string)
    requires '|' !in path && '|' !in base && '|' !in tag
    ensures Split(ManifestLine(path, base, tag, text), '|') == [path, base, tag] + Split(text, '|')
  {
    var rest := Split(text, '|');
    var afterBase := tag + ['|'] + text;
    var afterPath := base + ['|'] + afterBase;
    ManifestLineShape(path, base, tag, text);
    SplitAt(path, afterPath, '|');
    SplitAt(base, afterBase, '|');
    SplitAt(tag, text, '|');
    assert [path] + ([base] + ([tag] + rest)) == [path, base, tag] + rest;
  }

  lemma ManifestLineShape(path: string, base: string, tag: string, text: string)
    ensures ManifestLine(path, base, tag, text) == path + ['|'] + (base + ['|'] + (tag + ['|'] + text))
  {
  }

  /** Nothing in a manifest line is escaped: it has exactly four fields
      precisely when the text holds no '|'. */
  lemma ManifestLineFields(path: string, base: string, tag: string, text: string)
    requires '|' !in path && '|' !in base && '|' !in tag
    ensures |Split(ManifestLine(path, base, tag, text), '|')| == 4 <==> '|' !in text
  {
    ManifestLineSplit(path, base, tag, text);
    SplitSingle(text, '|');
  }

  /** A clip path holds a '|' only if its folder or base name does. */
  lemma ClipPathNoPipe(dir: string, base: string, i: nat)
    requires '|' !in dir && '|' !in base
    ensures '|' !in ClipPath(dir, base, i)
  {
    var digits := DecimalString(i);
    assert '|' !in digits;
    assert ClipName(base, i) == base + "_" + digits + ".wav";
    assert '|' !in DirPrefix(dir);
  }

  /** On the success path the first field of manifest line `k` is the path
      that clip write `k` went to, as long as the clip folder and the base
      name hold no '|'. */
  lemma ManifestLineNamesClip(job: Job, chunks: seq<Chunk>, k: nat)
    requires forall i :: 0 <= i < |chunks| ==> !Faulty(job, i, chunks[i])
    requires job.lang in LanguageNames && '|' !in job.audioDir && '|' !in job.base
    requires k < |AcceptedIndices(chunks, |chunks|)|
    ensures var p := Processed(job, chunks, |chunks|);
      p.Running? && k < |p.lines| && k < |p.log| && p.log[k].WriteWav? &&
      Split(p.lines[k], '|')[0] == p.log[k].path
  {
    ProcessedWithoutFault(job, chunks, |chunks|);
    var i := AcceptedIndices(chunks, |chunks|)[k];
    var path := ClipPath(job.audioDir, job.base, i);
    ClipPathNoPipe(job.audioDir, job.base, i);
    LanguageTags(job.lang);
    ManifestLineSplit(path, job.base, Upper(job.lang), chunks[i].text);
  }

  /** The table accepts exactly the codes "en", "ja" and "zh", and their
      manifest tags are the upper-case codes. */
  lemma LanguageTags(lang: string)
    ensures lang in LanguageNames <==> lang == "en" || lang == "ja" || lang == "zh"
    ensures lang in LanguageNames ==> Upper(lang) == if lang == "en" then "EN" else if lang == "ja" then "JA" else "ZH"
  {
    assert LanguageNames.Keys == {"en", "ja", "zh"};
    if lang == "en" {
      assert Upper(lang) == [UpperChar('e')] + Upper("n");
    } else if lang == "ja" {
      assert Upper(lang) == [UpperChar('j')] + Upper("a");
    } else if lang == "zh" {
      assert Upper(lang) == [UpperChar('z')] + Upper("h");
    }
  }

  /** A ten-second recording at 16 kHz with chunks of 0.5 s, 2 s and 54 s:
      the first and the last are skipped, the middle one becomes
      `out/rec_1.wav` (keeping its original index 1) with frames
      16000 up to 48000. */
  lemma ThreeChunkExample(audio: seq<Frame>)
    requires |audio| == 160000
    ensures var job := Job(audio, 16000, "rec", "en", "out", {});
      var chunks := [Chunk(0.0, Some(0.5), "a"), Chunk(1.0, Some(3.0), "b"), Chunk(4.0, Some(58.0), "c")];
      Processed(job, chunks, 3) ==
        Running(["out/rec_1.wav|rec|EN|b"], 2, [WriteWav("out/rec_1.wav", audio[16000..48000], 16000)])
  {
    var job := Job(audio, 16000, "rec", "en", "out", {});
    var chunks := [Chunk(0.0, Some(0.5), "a"), Chunk(1.0, Some(3.0), "b"), Chunk(4.0, Some(58.0), "c")];
    ExampleMiddleChunk(audio);
    assert Processed(job, chunks, 1) == Running([], 1, []);
    assert Processed(job, chunks, 2) ==
      Running(["out/rec_1.wav|rec|EN|b"], 1, [WriteWav("out/rec_1.wav", audio[16000..48000], 16000)]);
  }

  lemma ExampleMiddleChunk(audio: seq<Frame>)
    requires |audio| == 160000
    ensures var job := Job(audio, 16000, "rec", "en", "out", {});
      var c := Chunk(1.0, Some(3.0), "b");
      ClipPath("out", "rec", 1) == "out/rec_1.wav" &&
      ClipWrite(job, 1, c) == WriteWav("out/rec_1.wav", audio[16000..48000], 16000) &&
      LineFor(job, 1, c) == "out/rec_1.wav|rec|EN|b"
  {
    ExampleClipPath();
    ExampleSampleIndices();
    PySliceClamped(audio, 16000, 48000);
    assert Upper("en") == "EN";
  }

  lemma ExampleClipPath()
    ensures ClipPath("out", "rec", 1) == "out/rec_1.wav"
  {
    assert DecimalString(1) == "1";
    assert ClipName("rec", 1) == "rec_1.wav";
  }

  lemma ExampleSampleIndices()
    ensures SampleIndex(1.0, 16000) == 16000 && SampleIndex(3.0, 16000) == 48000
  {
    assert 1.0 * 16000 as real == 16000.0;
    assert 3.0 * 16000 as real == 48000.0;
  }

  // ---------------------------------------------------------------------------
  // slice
  // ---------------------------------------------------------------------------

  /** `slice(input_audio, audio_output_folder, transcript_output_folder,
      model_size, language, precision)`. `decoded` is the result of
      `sf.read` (None when it raises), `transcript` the recogniser's
      `chunks` (None when loading or running the model raises), and
      `unwritable` the paths whose write raises (`sf.write` for a clip,
      `open(..., "w")` for the manifest). */
  method Slice(decoded: Option<(seq<Frame>, nat)>, inputPath: string,
               audioDir: string, transcriptDir: string, lang: string,
               transcript: Option<seq<Chunk>>, unwritable: set<string>)
    returns (out: Outcome, log: seq<Effect>)
    // a decode failure escapes before anything is done
    ensures decoded.None? ==> out == Propagated && log == []
    // otherwise both directories are created first; an unknown language or
    // a recogniser failure then returns None
    ensures decoded.Some? && (lang !in LanguageNames || transcript.None?) ==>
      out == ReturnedNone && log == [MakeDirs(audioDir), MakeDirs(transcriptDir)]
    ensures decoded.Some? && lang in LanguageNames && transcript.Some? ==>
      var base := OutputBaseName(inputPath);
      var job := Job(decoded.value.0, decoded.value.1, base, lang, audioDir, unwritable);
      var p := Processed(job, transcript.value, |transcript.value|);
      var effects := [MakeDirs(audioDir), MakeDirs(transcriptDir)] + p.log;
      // the clip writes happen whatever the outcome; an exception in the
      // loop returns None before the manifest
      (p.Raised? ==> out == ReturnedNone && log == effects) &&
      // opening the manifest is outside the `try`: its failure escapes
      (p.Running? && ManifestPath(transcriptDir, base) in unwritable ==>
        out == Propagated && log == effects) &&
      (p.Running? && ManifestPath(transcriptDir, base) !in unwritable ==>
        out == Returned(audioDir, ManifestPath(transcriptDir, base)) &&
        log == effects + [WriteText(ManifestPath(transcriptDir, base), Join(p.lines, '\n'))])
    // the manifest is written on success only, and only once, last
    ensures forall k :: 0 <= k < |log| && log[k].WriteText? ==> out.Returned? && k == |log| - 1
  {
    if decoded.None? {
      return Propagated, [];
    }
    var (audio, rate) := decoded.value;
    var dirs := [MakeDirs(audioDir), MakeDirs(transcriptDir)];
    var base := OutputBaseName(inputPath);

    // the model is loaded, `to_lang_name[language]` is looked up and the
    // recogniser runs; any of the three may raise
    if transcript.None? || lang !in LanguageNames {
      return ReturnedNone, dirs;
    }
    var job := Job(audio, rate, base, lang, audioDir, unwritable);
    var p := SliceChunks(job, transcript.value);
    var effects := dirs + p.log;
    NoManifestWrite(dirs, p.log);
    if p.Raised? {
      return ReturnedNone, effects;
    }
    var manifestPath := ManifestPath(transcriptDir, base);
    if manifestPath in unwritable {
      return Propagated, effects;
    }
    out := Returned(audioDir, manifestPath);
    log := effects + [WriteText(manifestPath, Join(p.lines, '\n'))];
    ManifestLast(effects, WriteText(manifestPath, Join(p.lines, '\n')));
  }

  /** Appending one effect to a log without manifest writes leaves at most
      that last entry as a manifest write. */
  lemma ManifestLast(effects: seq<Effect>, e: Effect)
    requires forall k :: 0 <= k < |effects| ==> !effects[k].WriteText?
    ensures forall k :: 0 <= k < |effects + [e]| && (effects + [e])[k].WriteText? ==> k == |effects|
  {
  }

  /** Directory creations followed by clip writes hold no manifest write. */
  lemma NoManifestWrite(dirs: seq<Effect>, writes: seq<Effect>)
    requires forall k :: 0 <= k < |dirs| ==> dirs[k].MakeDirs?
    requires forall k :: 0 <= k < |writes| ==> writes[k].WriteWav?
    ensures forall k :: 0 <= k < |dirs + writes| ==> !(dirs + writes)[k].WriteText?
  {
  }

  /** The loop `for i, segment in enumerate(segments["chunks"])` of `slice`:
      the lines for the manifest, the number of skipped chunks and the clip
      writes, or the writes done before an exception left the loop. */
  method SliceChunks(job: Job, chunks: seq<Chunk>) returns (p: Progress)
    ensures p == Processed(job, chunks, |chunks|)
    ensures forall k :: 0 <= k < |p.log| ==> p.log[k].WriteWav?
  {
    var output: seq<string> := [];
    var skipped: nat := 0;
    var writes: seq<Effect> := [];

    var i := 0;
    while i < |chunks|
      invariant 0 <= i <= |chunks|
      invariant Processed(job, chunks, i) == Running(output, skipped, writes)
      invariant forall k :: 0 <= k < |writes| ==> writes[k].WriteWav?
    {
      var c := chunks[i];
      var path := ClipPath(job.audioDir, job.base, i);
      if c.end.None? {
        // int(None * sr) raises a TypeError
        RaisedPersists(job, chunks, i + 1, |chunks|);
        return Raised(writes);
      }
      var startIndex := SampleIndex(c.start, job.rate);
      var endIndex := SampleIndex(c.end.value, job.rate);
      if !WithinDuration(c.start, c.end.value) {
        skipped := skipped + 1;
        i := i + 1;
        continue;
      }
      var frames := PySlice(job.audio, startIndex, endIndex);
      if path in job.unwritable {
        RaisedPersists(job, chunks, i + 1, |chunks|);
        return Raised(writes);
      }
      writes := writes + [WriteWav(path, frames, job.rate)];
      output := output + [ManifestLine(path, job.base, Upper(job.lang), c.text)];
      i := i + 1;
    }
    p := Running(output, skipped, writes);
  }
}
