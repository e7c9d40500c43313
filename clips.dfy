/** The arithmetic of `VideoProcessor.cut_video_to_clips` in tiktok_bot.py:
    how many whole clips a video yields, where each starts, what each output
    file is called, and which of the planned files the call reports. The
    encoder itself is an oracle: for each planned clip it says whether the
    output file appeared, did not appear, or the encoder raised. */
module Clips {
  import opened Wrappers
  import opened Text
  import opened Clock
  import opened Paths
  import opened Description

  /** What `ffmpeg.probe` yields: it raises, it reports no duration in the
      format or any video stream, or it reports a duration (here in whole
      microseconds). */
  datatype Probe = ProbeFailed | NoDuration | Duration(micros: nat)

  /** The effect of one encoder run on its output file. */
  datatype Encoding = Written | NotWritten | EncoderFailed

  /** Default clip length, in seconds. */
  const DEFAULT_CLIP_DURATION: int := 60

  /** Width of the zero-padded clip number (`{i+1:03d}`). */
  const CLIP_NUMBER_WIDTH: nat := 3

  /** One planned encoder run: `ss=start`, `t=length` (seconds) into `output`. */
  datatype ClipJob = ClipJob(start: int, length: int, output: string)

  /** `int(duration // clip_duration)` for a non-zero clip length, floored to
      no iterations when negative: only whole clips are cut. */
  function ClipCount(durationMicros: nat, clipDuration: int): (n: nat)
    requires clipDuration != 0
    ensures clipDuration < 0 ==> n == 0
    ensures clipDuration > 0 ==>
      n * (clipDuration * SECOND) <= durationMicros < (n + 1) * (clipDuration * SECOND)
  {
    if clipDuration < 0 then 0 else durationMicros / (clipDuration * SECOND)
  }

  /** The output file name of clip `i` (counted from 0) of a video with stem `base`. */
  function ClipName(base: string, i: nat): string {
    ClipStem(base, ZeroPad(i + 1, CLIP_NUMBER_WIDTH)) + ".mp4"
  }

  /** Clip `i`'s file name is `<base>_clip_`, then a numeral of value
      `i + 1` at least three digits wide, then ".mp4". */
  lemma ClipNameShape(base: string, i: nat)
    ensures var name := ClipName(base, i);
      |name| >= |base| + 13 && StartsWith(name, base + "_clip_") && EndsWith(name, ".mp4") &&
      IsNumeral(name[|base| + 6..|name| - 4]) && DecimalValue(name[|base| + 6..|name| - 4]) == i + 1
  {
    var digits := ZeroPad(i + 1, CLIP_NUMBER_WIDTH);
    var name := ClipName(base, i);
    assert name == (base + "_clip_") + digits + ".mp4";
    assert name[..|base| + 6] == base + "_clip_";
    assert name[|name| - 4..] == ".mp4";
    assert name[|base| + 6..|name| - 4] == digits;
  }

  /** The planned runs: clip `i` starts `i * clip_duration` seconds in. */
  function Plan(base: string, outputDir: string, clipDuration: int, count: nat): (jobs: seq<ClipJob>)
    ensures |jobs| == count
  {
    seq(count, i requires 0 <= i < count => ClipJob(i * clipDuration, clipDuration, Child(outputDir, ClipName(base, i))))
  }

  /** The list built by the first `n` runs, or `None` once a run has raised. */
  function Kept(jobs: seq<ClipJob>, encode: ClipJob -> Encoding, n: nat): (r: Option<seq<string>>)
    requires n <= |jobs|
    ensures r.Some? ==> |r.value| <= n
  {
    if n == 0 then Some([])
    else
      match Kept(jobs, encode, n - 1)
      case None => None
      case Some(clips) =>
        match encode(jobs[n - 1])
        case EncoderFailed => None
        case NotWritten => Some(clips)
        case Written => Some(clips + [jobs[n - 1].output])
  }

  /** What `cut_video_to_clips(video_path, clip_duration)` returns. */
  function CutResult(videoPath: string, outputDir: string, clipDuration: int, probe: Probe,
                     encode: ClipJob -> Encoding): (r: seq<string>)
    ensures !probe.Duration? || clipDuration == 0 ==> r == []
    ensures probe.Duration? && clipDuration != 0 ==> |r| <= ClipCount(probe.micros, clipDuration)
  {
    match probe
    case ProbeFailed => []
    case NoDuration => []
    case Duration(d) =>
      if clipDuration == 0 then []
      else
        var jobs := Plan(Stem(videoPath), outputDir, clipDuration, ClipCount(d, clipDuration));
        match Kept(jobs, encode, |jobs|)
        case None => []
        case Some(clips) => clips
  }

  /** `cut_video_to_clips`: probe, count, then run the encoder clip by clip,
      keeping the outputs that appeared; any exception yields `[]`. */
  method CutVideoToClips(videoPath: string, outputDir: string, clipDuration: int, probe: Probe,
                         encode: ClipJob -> Encoding) returns (clips: seq<string>)
    ensures clips == CutResult(videoPath, outputDir, clipDuration, probe, encode)
  {
    if !probe.Duration? || clipDuration == 0 {
      return [];
    }
    var count := ClipCount(probe.micros, clipDuration);
    var base := Stem(videoPath);
    var jobs := Plan(base, outputDir, clipDuration, count);
    clips := [];
    var i := 0;
    while i < count
      invariant 0 <= i <= count
      invariant Kept(jobs, encode, i) == Some(clips)
    {
      var job := ClipJob(i * clipDuration, clipDuration, Child(outputDir, ClipName(base, i)));
      assert job == jobs[i];
      var outcome := encode(job);
      if outcome == EncoderFailed {
        KeptAfterFailure(jobs, encode, i, count);
        return [];
      } else if outcome == Written {
        clips := clips + [job.output];
      }
      i := i + 1;
    }
  }

  /** Once a run raises, the call reports nothing. */
  lemma {:induction false} KeptAfterFailure(jobs: seq<ClipJob>, encode: ClipJob -> Encoding, j: nat, n: nat)
    requires j < n <= |jobs| && encode(jobs[j]) == EncoderFailed
    ensures Kept(jobs, encode, n) == None
    decreases n
  {
    if n - 1 > j {
      KeptAfterFailure(jobs, encode, j, n - 1);
    }
  }

  /** Without failures, the reported list is the planned outputs whose file
      appeared, in plan order. */
  lemma {:induction false} KeptIsWrittenOutputs(jobs: seq<ClipJob>, encode: ClipJob -> Encoding, n: nat)
    requires n <= |jobs|
    requires forall k :: 0 <= k < n ==> encode(jobs[k]) != EncoderFailed
    ensures Kept(jobs, encode, n) == Some(WrittenOutputs(jobs[..n], encode))
  {
    if n > 0 {
      KeptIsWrittenOutputs(jobs, encode, n - 1);
      assert jobs[..n][..n - 1] == jobs[..n - 1];
    }
  }

  /** The outputs of the runs in `jobs` that left their file behind, in order. */
  function WrittenOutputs(jobs: seq<ClipJob>, encode: ClipJob -> Encoding): (r: seq<string>)
    ensures |r| <= |jobs|
    ensures (forall k :: 0 <= k < |jobs| ==> encode(jobs[k]) != Written) ==> r == []
  {
    if jobs == [] then []
    else
      var init := WrittenOutputs(jobs[..|jobs| - 1], encode);
      if encode(jobs[|jobs| - 1]) == Written then init + [jobs[|jobs| - 1].output] else init
  }

  /** `out` is the output of a run in `jobs` that wrote its file. */
  ghost predicate FromWrittenRun(jobs: seq<ClipJob>, encode: ClipJob -> Encoding, out: string) {
    exists i :: 0 <= i < |jobs| && out == jobs[i].output && encode(jobs[i]) == Written
  }

  /** Every output listed comes from a run of the plan that wrote its file. */
  lemma {:induction false} WrittenOutputsComeFromPlan(jobs: seq<ClipJob>, encode: ClipJob -> Encoding)
    ensures |WrittenOutputs(jobs, encode)| <= |jobs|
    ensures forall k :: 0 <= k < |WrittenOutputs(jobs, encode)| ==>
      FromWrittenRun(jobs, encode, WrittenOutputs(jobs, encode)[k])
  {
    if jobs != [] {
      var init := jobs[..|jobs| - 1];
      var last := |jobs| - 1;
      WrittenOutputsComeFromPlan(init, encode);
      var r := WrittenOutputs(jobs, encode);
      forall k | 0 <= k < |r| ensures FromWrittenRun(jobs, encode, r[k]) {
        if k < |WrittenOutputs(init, encode)| {
          assert FromWrittenRun(init, encode, r[k]);
          var i :| 0 <= i < |init| && r[k] == init[i].output && encode(init[i]) == Written;
          assert jobs[i] == init[i];
        } else {
          assert r[k] == jobs[last].output && encode(jobs[last]) == Written;
        }
      }
    }
  }

  /** When every run writes its file, all planned outputs are listed. */
  lemma {:induction false} AllWrittenListsAll(jobs: seq<ClipJob>, encode: ClipJob -> Encoding)
    requires forall k :: 0 <= k < |jobs| ==> encode(jobs[k]) == Written
    ensures WrittenOutputs(jobs, encode) == seq(|jobs|, k requires 0 <= k < |jobs| => jobs[k].output)
  {
    if jobs != [] {
      AllWrittenListsAll(jobs[..|jobs| - 1], encode);
    }
  }

  /** The outputs of the runs in `jobs` are pairwise different. */
  ghost predicate DistinctOutputs(jobs: seq<ClipJob>) {
    forall i, j :: 0 <= i < j < |jobs| ==> jobs[i].output != jobs[j].output
  }

  /** No value occurs twice in `s`. */
  ghost predicate NoDuplicates(s: seq<string>) {
    forall i, j :: 0 <= i < j < |s| ==> s[i] != s[j]
  }

  /** Listing the written outputs of distinct runs lists no file twice. */
  lemma {:induction false} WrittenOutputsDistinct(jobs: seq<ClipJob>, encode: ClipJob -> Encoding)
    requires DistinctOutputs(jobs)
    ensures NoDuplicates(WrittenOutputs(jobs, encode))
  {
    if jobs != [] {
      var init := jobs[..|jobs| - 1];
      var last := |jobs| - 1;
      assert DistinctOutputs(init);
      WrittenOutputsDistinct(init, encode);
      WrittenOutputsComeFromPlan(init, encode);
      var prev := WrittenOutputs(init, encode);
      forall k | 0 <= k < |prev| ensures prev[k] != jobs[last].output {
        assert FromWrittenRun(init, encode, prev[k]);
        var i :| 0 <= i < |init| && prev[k] == init[i].output && encode(init[i]) == Written;
        assert init[i] == jobs[i];
      }
    }
  }

  /** Clip `i` of the plan starts `i` clip lengths in, runs one clip length,
      and ends within the video; the next clip starts where it ends, and the
      remainder after the last clip is shorter than a clip. */
  lemma PlanCutsWholeClips(base: string, outputDir: string, clipDuration: int, durationMicros: nat)
    requires clipDuration > 0
    ensures var jobs := Plan(base, outputDir, clipDuration, ClipCount(durationMicros, clipDuration));
      (forall i :: 0 <= i < |jobs| ==>
        jobs[i].start == i * clipDuration && jobs[i].length == clipDuration &&
        0 <= jobs[i].start && (jobs[i].start + jobs[i].length) * SECOND <= durationMicros) &&
      (forall i :: 0 <= i < |jobs| - 1 ==> jobs[i + 1].start == jobs[i].start + jobs[i].length) &&
      durationMicros < (|jobs| + 1) * (clipDuration * SECOND)
  {
    var n := ClipCount(durationMicros, clipDuration);
    var jobs := Plan(base, outputDir, clipDuration, n);
    forall i | 0 <= i < |jobs|
      ensures jobs[i].start == i * clipDuration && jobs[i].length == clipDuration
      ensures 0 <= jobs[i].start && (jobs[i].start + jobs[i].length) * SECOND <= durationMicros
    {
      WholeClipFits(i, n, clipDuration, durationMicros);
    }
    forall i | 0 <= i < |jobs| - 1
      ensures jobs[i + 1].start == jobs[i].start + jobs[i].length
    {
      assert (i + 1) * clipDuration == i * clipDuration + clipDuration;
    }
  }

  /** Clip `i < n` ends no later than `n` whole clips do. */
  lemma WholeClipFits(i: nat, n: nat, c: nat, d: nat)
    requires i < n && n * (c * SECOND) <= d
    ensures 0 <= i * c && (i * c + c) * SECOND <= d
  {
    calc {
      (i * c + c) * SECOND;
    ==  { assert i * c + c == (i + 1) * c; }
      (i + 1) * c * SECOND;
    ==
      (i + 1) * (c * SECOND);
    <=  { assert i + 1 <= n; }
      n * (c * SECOND);
    }
  }

  /** Two different clips of one plan are written to different files. */
  lemma PlanOutputsDistinct(base: string, outputDir: string, clipDuration: int, count: nat)
    ensures DistinctOutputs(Plan(base, outputDir, clipDuration, count))
  {
    var jobs := Plan(base, outputDir, clipDuration, count);
    forall i, j | 0 <= i < j < |jobs| ensures jobs[i].output != jobs[j].output {
      ClipNamesDiffer(outputDir, base, i, j);
    }
  }

  /** Clip numbers are written without loss, so different clips get different
      paths. */
  lemma ClipNamesDiffer(outputDir: string, base: string, i: nat, j: nat)
    requires i != j
    ensures Child(outputDir, ClipName(base, i)) != Child(outputDir, ClipName(base, j))
  {
    var a := ZeroPad(i + 1, CLIP_NUMBER_WIDTH);
    var b := ZeroPad(j + 1, CLIP_NUMBER_WIDTH);
    var pre := outputDir + "/" + base + "_clip_";
    assert Child(outputDir, ClipName(base, i)) == pre + (a + ".mp4");
    assert Child(outputDir, ClipName(base, j)) == pre + (b + ".mp4");
    PrefixCancels(pre, a + ".mp4", b + ".mp4");
    SuffixCancels(a, b, ".mp4");
    assert DecimalValue(a) != DecimalValue(b);
  }

  lemma PrefixCancels(pre: string, x: string, y: string)
    ensures pre + x == pre + y ==> x == y
  {
    assert (pre + x)[|pre|..] == x;
    assert (pre + y)[|pre|..] == y;
  }

  lemma SuffixCancels(x: string, y: string, suf: string)
    ensures x + suf == y + suf ==> x == y
  {
    assert (x + suf)[..|x|] == x;
    assert (y + suf)[..|y|] == y;
  }

  /** The file written for clip `i` has stem `<base>_clip_<i+1, three digits>`,
      and when the source stem holds no "clip_<digits>" of its own the caption
      of that file numbers it as part `i + 1`. */
  lemma ClipOutputIsNumbered(videoPath: string, outputDir: string, clipDuration: int, count: nat, i: nat)
    requires i < count
    ensures var out := Plan(Stem(videoPath), outputDir, clipDuration, count)[i].output;
      var no := ZeroPad(i + 1, CLIP_NUMBER_WIDTH);
      Stem(out) == ClipStem(Stem(videoPath), no) && DecimalValue(no) == i + 1 &&
      (SearchGroup(Stem(videoPath), "clip_") == None ==> SearchGroup(Stem(out), "clip_") == Some(no))
  {
    var base := Stem(videoPath);
    var jobs := Plan(base, outputDir, clipDuration, count);
    assert jobs[i].output == Child(outputDir, ClipName(base, i));
    ClipPathStem(outputDir, base, i);
    if SearchGroup(base, "clip_") == None {
      ClipTagAfterBase(base, ZeroPad(i + 1, CLIP_NUMBER_WIDTH));
    }
  }

  /** The path of clip `i` has stem `<base>_clip_<i+1, three digits>`. */
  lemma ClipPathStem(outputDir: string, base: string, i: nat)
    requires '/' !in base
    ensures Stem(Child(outputDir, ClipName(base, i))) == ClipStem(base, ZeroPad(i + 1, CLIP_NUMBER_WIDTH))
  {
    var no := ZeroPad(i + 1, CLIP_NUMBER_WIDTH);
    var stem := ClipStem(base, no);
    assert '/' !in stem by {
      assert forall k :: 0 <= k < |no| ==> IsDigit(no[k]);
    }
    assert ClipName(base, i) == stem + "." + "mp4";
    StemOfChild(outputDir, stem, "mp4");
  }

  /** Unless the probe fails, no duration is found, the clip length is zero or
      an encoder run raises, the call lists exactly the planned clips whose
      file appeared, in plan order and each once. */
  lemma CutResultListsWrittenClips(videoPath: string, outputDir: string, clipDuration: int, d: nat,
                                   encode: ClipJob -> Encoding)
    requires clipDuration != 0
    requires var jobs := Plan(Stem(videoPath), outputDir, clipDuration, ClipCount(d, clipDuration));
      forall k :: 0 <= k < |jobs| ==> encode(jobs[k]) != EncoderFailed
    ensures var jobs := Plan(Stem(videoPath), outputDir, clipDuration, ClipCount(d, clipDuration));
      var r := CutResult(videoPath, outputDir, clipDuration, Duration(d), encode);
      r == WrittenOutputs(jobs, encode) && |r| <= |jobs| &&
      (forall k :: 0 <= k < |r| ==> FromWrittenRun(jobs, encode, r[k])) &&
      NoDuplicates(r)
  {
    var jobs := Plan(Stem(videoPath), outputDir, clipDuration, ClipCount(d, clipDuration));
    KeptIsWrittenOutputs(jobs, encode, |jobs|);
    assert jobs[..|jobs|] == jobs;
    WrittenOutputsComeFromPlan(jobs, encode);
    PlanOutputsDistinct(Stem(videoPath), outputDir, clipDuration, ClipCount(d, clipDuration));
    WrittenOutputsDistinct(jobs, encode);
  }

  /** When every run writes its file, every planned clip is listed, in order. */
  lemma CutResultAllWritten(videoPath: string, outputDir: string, clipDuration: int, d: nat,
                            encode: ClipJob -> Encoding)
    requires clipDuration != 0
    requires var jobs := Plan(Stem(videoPath), outputDir, clipDuration, ClipCount(d, clipDuration));
      forall k :: 0 <= k < |jobs| ==> encode(jobs[k]) == Written
    ensures var jobs := Plan(Stem(videoPath), outputDir, clipDuration, ClipCount(d, clipDuration));
      var r := CutResult(videoPath, outputDir, clipDuration, Duration(d), encode);
      |r| == |jobs| && forall k :: 0 <= k < |r| ==> r[k] == jobs[k].output
  {
    var jobs := Plan(Stem(videoPath), outputDir, clipDuration, ClipCount(d, clipDuration));
    KeptIsWrittenOutputs(jobs, encode, |jobs|);
    assert jobs[..|jobs|] == jobs;
    AllWrittenListsAll(jobs, encode);
  }

  /** A run that raises discards the clips already listed: the call yields `[]`. */
  lemma CutResultAfterEncoderFailure(videoPath: string, outputDir: string, clipDuration: int, d: nat,
                                     encode: ClipJob -> Encoding, j: nat)
    requires clipDuration != 0
    requires var jobs := Plan(Stem(videoPath), outputDir, clipDuration, ClipCount(d, clipDuration));
      j < |jobs| && encode(jobs[j]) == EncoderFailed
    ensures CutResult(videoPath, outputDir, clipDuration, Duration(d), encode) == []
  {
    var jobs := Plan(Stem(videoPath), outputDir, clipDuration, ClipCount(d, clipDuration));
    KeptAfterFailure(jobs, encode, j, |jobs|);
  }

  /** A video shorter than one clip yields no clips, whatever the encoder does. */
  lemma ShortVideoYieldsNothing(videoPath: string, outputDir: string, clipDuration: int, d: nat,
                                encode: ClipJob -> Encoding)
    requires clipDuration > 0 && d < clipDuration * SECOND
    ensures CutResult(videoPath, outputDir, clipDuration, Duration(d), encode) == []
  {
    var n := ClipCount(d, clipDuration);
    assert n == 0;
    assert Plan(Stem(videoPath), outputDir, clipDuration, n) == [];
  }
}
