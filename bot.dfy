/** `TikTokBot` in tiktok_bot.py: one poll of the scheduler loop
    (`upload_scheduled_videos`) and the batch that cuts every source video and
    queues the clips (`process_all_videos`). The publisher is a boolean
    oracle, file existence a set of paths, and each clock reading a
    parameter. */
module Bot {
  import opened Wrappers
  import opened Clock
  import opened Scheduling
  import opened Clips

  /** What one poll did. */
  datatype Poll =
    | NotDue                        // queue empty or no slot within 300 s
    | Published(path: string)       // head popped and uploaded
    | Requeued(path: string)        // upload failed: head put back at index 0
    | Dropped(path: string)         // head's file missing: popped, not put back
    | PollFailed(error: ScheduleError)  // the slot lookup raised

  /** The in-memory record, the schedule file, and what the poll did. */
  datatype Step = Step(schedule: ScheduleState, persisted: ScheduleState, outcome: Poll)

  /** One call of `upload_scheduled_videos` on record `s` with file contents
      `persisted`: `now` and `lookupNow` are the two readings taken by
      `should_upload_now`, `uploadedAt` the one stored as `last_upload`,
      `existing` the files on disk and `published` the publisher's answer. */
  function ScheduledStep(s: ScheduleState, persisted: ScheduleState, now: Timestamp, lookupNow: Timestamp,
                         uploadedAt: Timestamp, existing: set<string>, published: bool): (r: Step)
    ensures r.schedule.postingTimes == s.postingTimes && r.schedule.postsPerDay == s.postsPerDay
    ensures r.persisted == persisted || r.persisted == r.schedule
    ensures r.outcome.NotDue? || r.outcome.PollFailed? ==> r.schedule == s && r.persisted == persisted
  {
    match ShouldUpload(s.queue, now, lookupNow, s.postingTimes)
    case Err(e) => Step(s, persisted, PollFailed(e))
    case Ok(due) =>
      if !due then Step(s, persisted, NotDue)
      else
        var head := s.queue[0];
        var popped := s.(queue := s.queue[1..]);
        if head !in existing then Step(popped, persisted, Dropped(head))
        else if published then
          var done := popped.(lastUpload := Some(uploadedAt));
          Step(done, done, Published(head))
        else
          var back := popped.(queue := [head] + popped.queue);
          Step(back, back, Requeued(head))
  }

  /** The path a poll removed from the queue for good, if any. */
  function Consumed(p: Poll): seq<string> {
    match p
    case Published(path) => [path]
    case Dropped(path) => [path]
    case _ => []
  }

  /** A poll either leaves the queue as it was or removes exactly its head,
      which is the path it reports; the posting times and the slot count never
      change, and `last_upload` changes only on a successful upload. */
  lemma StepOnlyConsumesHead(s: ScheduleState, persisted: ScheduleState, now: Timestamp, lookupNow: Timestamp,
                             uploadedAt: Timestamp, existing: set<string>, published: bool)
    ensures var r := ScheduledStep(s, persisted, now, lookupNow, uploadedAt, existing, published);
      Consumed(r.outcome) + r.schedule.queue == s.queue &&
      r.schedule.postingTimes == s.postingTimes && r.schedule.postsPerDay == s.postsPerDay &&
      r.schedule.lastUpload == (if r.outcome.Published? then Some(uploadedAt) else s.lastUpload)
  {
    var r := ScheduledStep(s, persisted, now, lookupNow, uploadedAt, existing, published);
    if r.outcome.Published? || r.outcome.Dropped? || r.outcome.Requeued? {
      assert [s.queue[0]] + s.queue[1..] == s.queue;
    }
  }

  /** The poll acts only when the queue is non-empty and a slot is less than
      300 s ahead of `now`; it then handles exactly the head of the queue. */
  lemma StepActsOnHeadWhenDue(s: ScheduleState, persisted: ScheduleState, now: Timestamp, lookupNow: Timestamp,
                              uploadedAt: Timestamp, existing: set<string>, published: bool)
    requires now <= lookupNow
    ensures var r := ScheduledStep(s, persisted, now, lookupNow, uploadedAt, existing, published);
      (r.outcome.Published? || r.outcome.Requeued? || r.outcome.Dropped?) <==>
        (s.queue != [] && NextUploadTime(lookupNow, s.postingTimes).Ok? &&
         now < NextUploadTime(lookupNow, s.postingTimes).value < now + UPLOAD_WINDOW)
    ensures var r := ScheduledStep(s, persisted, now, lookupNow, uploadedAt, existing, published);
      (r.outcome.Published? || r.outcome.Requeued? || r.outcome.Dropped?) ==>
        r.outcome.path == s.queue[0] &&
        (r.outcome.Dropped? <==> s.queue[0] !in existing) &&
        (r.outcome.Published? <==> s.queue[0] in existing && published)
  {
    DueOnlyJustBeforeSlot(s.queue, now, lookupNow, s.postingTimes);
  }

  /** A failed upload puts the same path back in front: record and file both
      equal the record as it was before the poll. */
  lemma FailedUploadRestoresQueue(s: ScheduleState, persisted: ScheduleState, now: Timestamp, lookupNow: Timestamp,
                                  uploadedAt: Timestamp, existing: set<string>)
    requires ShouldUpload(s.queue, now, lookupNow, s.postingTimes) == Ok(true)
    requires s.queue[0] in existing
    ensures ScheduledStep(s, persisted, now, lookupNow, uploadedAt, existing, false) ==
      Step(s, s, Requeued(s.queue[0]))
  {
    assert [s.queue[0]] + s.queue[1..] == s.queue;
  }

  /** A successful upload removes the head, stamps `last_upload` and saves. */
  lemma SuccessfulUploadPopsAndSaves(s: ScheduleState, persisted: ScheduleState, now: Timestamp, lookupNow: Timestamp,
                                     uploadedAt: Timestamp, existing: set<string>)
    requires ShouldUpload(s.queue, now, lookupNow, s.postingTimes) == Ok(true)
    requires s.queue[0] in existing
    ensures var r := ScheduledStep(s, persisted, now, lookupNow, uploadedAt, existing, true);
      r.outcome == Published(s.queue[0]) &&
      r.schedule == s.(queue := s.queue[1..], lastUpload := Some(uploadedAt)) &&
      r.persisted == r.schedule
  {
  }

  /** A missing head file is dropped without saving: if the file matched the
      record before, it still lists the dropped path in front of the queue
      the record now holds. */
  lemma MissingFileDropsWithoutSaving(s: ScheduleState, now: Timestamp, lookupNow: Timestamp,
                                      uploadedAt: Timestamp, existing: set<string>, published: bool)
    requires ShouldUpload(s.queue, now, lookupNow, s.postingTimes) == Ok(true)
    requires s.queue[0] !in existing
    ensures var r := ScheduledStep(s, s, now, lookupNow, uploadedAt, existing, published);
      r.outcome == Dropped(s.queue[0]) &&
      r.schedule == s.(queue := s.queue[1..]) &&
      r.persisted == s &&
      r.persisted.queue == [s.queue[0]] + r.schedule.queue
  {
    assert [s.queue[0]] + s.queue[1..] == s.queue;
  }

  /** The environment of one poll. */
  datatype PollInput = PollInput(now: Timestamp, lookupNow: Timestamp, uploadedAt: Timestamp,
                                 existing: set<string>, published: bool)

  /** The record, file and outcomes after a run of polls. */
  datatype Run = Run(schedule: ScheduleState, persisted: ScheduleState, outcomes: seq<Poll>)

  /** Successive calls of `upload_scheduled_videos`, one per input. */
  function RunPolls(s: ScheduleState, persisted: ScheduleState, inputs: seq<PollInput>): (r: Run)
    ensures |r.outcomes| == |inputs|
    ensures r.schedule.postingTimes == s.postingTimes
    decreases |inputs|
  {
    if inputs == [] then Run(s, persisted, [])
    else
      var i := inputs[0];
      var step := ScheduledStep(s, persisted, i.now, i.lookupNow, i.uploadedAt, i.existing, i.published);
      var rest := RunPolls(step.schedule, step.persisted, inputs[1..]);
      Run(rest.schedule, rest.persisted, [step.outcome] + rest.outcomes)
  }

  /** The paths removed for good by a sequence of polls, in order. */
  function AllConsumed(outcomes: seq<Poll>): seq<string> {
    if outcomes == [] then [] else Consumed(outcomes[0]) + AllConsumed(outcomes[1..])
  }

  /** The queue is first in, first out: across any run of polls the paths
      published or dropped, in order, followed by the queue left over, are
      exactly the queue the run started with. The posting times are never
      changed. */
  lemma {:induction false} PollsConsumeInQueueOrder(s: ScheduleState, persisted: ScheduleState, inputs: seq<PollInput>)
    ensures var r := RunPolls(s, persisted, inputs);
      AllConsumed(r.outcomes) + r.schedule.queue == s.queue &&
      r.schedule.postingTimes == s.postingTimes
    decreases |inputs|
  {
    if inputs != [] {
      var i := inputs[0];
      var step := ScheduledStep(s, persisted, i.now, i.lookupNow, i.uploadedAt, i.existing, i.published);
      StepOnlyConsumesHead(s, persisted, i.now, i.lookupNow, i.uploadedAt, i.existing, i.published);
      PollsConsumeInQueueOrder(step.schedule, step.persisted, inputs[1..]);
      var rest := RunPolls(step.schedule, step.persisted, inputs[1..]);
      var outcomes := [step.outcome] + rest.outcomes;
      assert outcomes[1..] == rest.outcomes;
      assert AllConsumed(outcomes) == Consumed(step.outcome) + AllConsumed(rest.outcomes);
    }
  }

  /** The clips `process_all_videos` collects: `cut(v)` for each source
      video `v` in turn. */
  function AllClips(videos: seq<string>, cut: string -> seq<string>): (r: seq<string>)
    ensures videos == [] ==> r == []
    ensures |videos| == 1 ==> r == cut(videos[0])
  {
    if videos == [] then []
    else AllClips(videos[..|videos| - 1], cut) + cut(videos[|videos| - 1])
  }

  /** How `process_all_videos` cuts one video: the default clip length into
      `outputDir`, with the given probe and encoder outcomes; each source
      video has its own encoder outcomes, so two sources whose clips share a
      name may fare differently. */
  function DefaultCut(outputDir: string, probe: string -> Probe, encode: string -> ClipJob -> Encoding): string -> seq<string> {
    v => CutResult(v, outputDir, DEFAULT_CLIP_DURATION, probe(v), encode(v))
  }

  /** `c` is one of the clips cut from one of `videos`. */
  ghost predicate ClipOfSomeVideo(videos: seq<string>, cut: string -> seq<string>, c: string) {
    exists v :: 0 <= v < |videos| && c in cut(videos[v])
  }

  /** The clips collected from the first `n` videos begin the clips
      collected from all of them. */
  lemma {:induction false} AllClipsPrefix(videos: seq<string>, cut: string -> seq<string>, n: nat)
    requires n <= |videos|
    ensures |AllClips(videos[..n], cut)| <= |AllClips(videos, cut)|
    ensures AllClips(videos, cut)[..|AllClips(videos[..n], cut)|] == AllClips(videos[..n], cut)
    decreases |videos| - n
  {
    if n < |videos| {
      var init := videos[..|videos| - 1];
      AllClipsPrefix(init, cut, n);
      assert init[..n] == videos[..n];
    } else {
      assert videos[..n] == videos;
    }
  }

  /** The collected list is the clips of each video, video by video: the
      clips of video `v` form one contiguous run, right after those of the
      videos before it, and every entry was cut from one of the listed
      videos. */
  lemma {:induction false} AllClipsComeFromVideos(videos: seq<string>, cut: string -> seq<string>)
    ensures forall k :: 0 <= k < |AllClips(videos, cut)| ==> ClipOfSomeVideo(videos, cut, AllClips(videos, cut)[k])
    ensures forall v :: 0 <= v < |videos| ==>
      var start := |AllClips(videos[..v], cut)|;
      start + |cut(videos[v])| <= |AllClips(videos, cut)| &&
      AllClips(videos, cut)[start..start + |cut(videos[v])|] == cut(videos[v])
  {
    forall v | 0 <= v < |videos|
      ensures var start := |AllClips(videos[..v], cut)|;
        start + |cut(videos[v])| <= |AllClips(videos, cut)| &&
        AllClips(videos, cut)[start..start + |cut(videos[v])|] == cut(videos[v])
    {
      var upTo := videos[..v + 1];
      assert upTo[..|upTo| - 1] == videos[..v] && upTo[|upTo| - 1] == videos[v];
      AllClipsPrefix(videos, cut, v + 1);
      var start := |AllClips(videos[..v], cut)|;
      assert AllClips(upTo, cut) == AllClips(videos[..v], cut) + cut(videos[v]);
      assert AllClips(upTo, cut)[start..] == cut(videos[v]);
    }
    AllClipsFromSomeVideo(videos, cut);
  }

  /** Every collected clip was cut from one of the listed videos. */
  lemma {:induction false} AllClipsFromSomeVideo(videos: seq<string>, cut: string -> seq<string>)
    ensures forall k :: 0 <= k < |AllClips(videos, cut)| ==> ClipOfSomeVideo(videos, cut, AllClips(videos, cut)[k])
  {
    if videos != [] {
      var init := videos[..|videos| - 1];
      var last := |videos| - 1;
      AllClipsFromSomeVideo(init, cut);
      var prev := AllClips(init, cut);
      var all := AllClips(videos, cut);
      forall k | 0 <= k < |all| ensures ClipOfSomeVideo(videos, cut, all[k]) {
        if k < |prev| {
          assert ClipOfSomeVideo(init, cut, prev[k]);
          var v :| 0 <= v < |init| && prev[k] in cut(init[v]);
          assert init[v] == videos[v] && all[k] == prev[k];
        } else {
          assert all[k] == cut(videos[last])[k - |prev|];
        }
      }
    }
  }

  /** The bot: its schedule manager and the clip output directory. */
  class TikTokBot {
    const scheduler: ScheduleManager
    const outputDir: string

    /** `TikTokBot()`: loads the schedule (writing the default one when there
        is no file) and uses "clips" for cut clips. */
    constructor (scheduleFile: Option<ScheduleState>)
      ensures fresh(scheduler)
      ensures scheduler.schedule == Loaded(scheduleFile)
      ensures scheduler.persisted == scheduler.schedule
      ensures outputDir == "clips"
    {
      scheduler := new ScheduleManager(scheduleFile);
      outputDir := "clips";
    }

    /** `upload_scheduled_videos`: if due, pop the head; if its file exists,
        publish it and either stamp `last_upload` or put it back at index 0,
        saving in both cases; a missing file is dropped without saving. */
    method UploadScheduledVideos(now: Timestamp, lookupNow: Timestamp, uploadedAt: Timestamp,
                                 existing: set<string>, published: bool) returns (outcome: Poll)
      modifies scheduler
      ensures var r := ScheduledStep(old(scheduler.schedule), old(scheduler.persisted), now, lookupNow,
                                     uploadedAt, existing, published);
        scheduler.schedule == r.schedule && scheduler.persisted == r.persisted && outcome == r.outcome
    {
      var due := scheduler.ShouldUploadNow(now, lookupNow);
      if due.Err? {
        return PollFailed(due.error);
      }
      if !due.value || scheduler.schedule.queue == [] {
        return NotDue;
      }
      var videoPath := scheduler.schedule.queue[0];
      scheduler.schedule := scheduler.schedule.(queue := scheduler.schedule.queue[1..]);
      if videoPath in existing {
        if published {
          scheduler.schedule := scheduler.schedule.(lastUpload := Some(uploadedAt));
          scheduler.SaveSchedule();
          outcome := Published(videoPath);
        } else {
          scheduler.schedule := scheduler.schedule.(queue := [videoPath] + scheduler.schedule.queue);
          scheduler.SaveSchedule();
          outcome := Requeued(videoPath);
        }
      } else {
        outcome := Dropped(videoPath);
      }
    }

    /** The loop of `process_all_videos`: cut each listed source video in
        turn and collect the clips. */
    method CollectClips(videos: seq<string>, probe: string -> Probe, encode: string -> ClipJob -> Encoding)
      returns (allClips: seq<string>)
      ensures allClips == AllClips(videos, DefaultCut(outputDir, probe, encode))
    {
      var cut := DefaultCut(outputDir, probe, encode);
      allClips := [];
      var i := 0;
      while i < |videos|
        invariant 0 <= i <= |videos|
        invariant allClips == AllClips(videos[..i], cut)
      {
        var clips := CutVideoToClips(videos[i], outputDir, DEFAULT_CLIP_DURATION, probe(videos[i]), encode(videos[i]));
        assert clips == cut(videos[i]);
        ghost var prefix := videos[..i + 1];
        assert prefix[..i] == videos[..i] && prefix[i] == videos[i];
        allClips := allClips + clips;
        i := i + 1;
      }
      assert videos[..i] == videos;
    }

    /** `process_all_videos` over the listed source videos: cut each one and,
        when any clip was produced, append them all to the queue (which saves). */
    method ProcessAllVideos(videos: seq<string>, probe: string -> Probe, encode: string -> ClipJob -> Encoding)
      modifies scheduler
      ensures var clips := AllClips(videos, DefaultCut(outputDir, probe, encode));
        scheduler.schedule == old(scheduler.schedule).(queue := old(scheduler.schedule.queue) + clips) &&
        scheduler.persisted == (if clips == [] then old(scheduler.persisted) else scheduler.schedule)
    {
      var allClips := CollectClips(videos, probe, encode);
      if allClips != [] {
        scheduler.AddVideosToQueue(allClips);
      } else {
        assert old(scheduler.schedule.queue) + allClips == old(scheduler.schedule.queue);
      }
    }
  }
}
