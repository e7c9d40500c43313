/** The one-shot commands of run_bot.py that publish at once: `post_now`
    (publish the head of the queue, removing it only once published) and
    `post_specific` (publish a named file, leaving the queue alone). Each
    builds its own `TikTokBot`, so each starts from the schedule file and
    what survives the call is the file. */
module RunBot {
  import opened Wrappers
  import opened Clock
  import opened Scheduling
  import opened Bot

  /** What a one-shot post did. */
  datatype PostOutcome =
    | EmptyQueue                // nothing queued: no upload attempted
    | FileMissing(path: string) // the file to post does not exist
    | Posted(path: string)      // uploaded
    | PostFailed(path: string)  // the publisher reported failure

  /** The in-memory record, the schedule file, and what the post did. */
  datatype Posting = Posting(schedule: ScheduleState, persisted: ScheduleState, outcome: PostOutcome)

  /** `post_now` on record `s` with file contents `persisted`. */
  function PostNowStep(s: ScheduleState, persisted: ScheduleState, existing: set<string>, published: bool): (r: Posting)
    ensures r.schedule.postingTimes == s.postingTimes && r.schedule.lastUpload == s.lastUpload
    ensures r.persisted == persisted || r.persisted == r.schedule
    ensures !r.outcome.Posted? ==> r.schedule == s && r.persisted == persisted
  {
    if s.queue == [] then Posting(s, persisted, EmptyQueue)
    else
      var head := s.queue[0];
      if head !in existing then Posting(s, persisted, FileMissing(head))
      else if published then
        var popped := s.(queue := s.queue[1..]);
        Posting(popped, popped, Posted(head))
      else Posting(s, persisted, PostFailed(head))
  }

  /** `post_now`: loads the schedule, then publishes the head of the queue if
      its file exists, and removes it from the queue and saves only once it
      is published. Returns the outcome and the schedule file afterwards. */
  method PostNow(scheduleFile: Option<ScheduleState>, existing: set<string>, published: bool)
    returns (outcome: PostOutcome, file: ScheduleState)
    ensures var r := PostNowStep(Loaded(scheduleFile), Loaded(scheduleFile), existing, published);
      outcome == r.outcome && file == r.persisted
  {
    var bot := new TikTokBot(scheduleFile);
    if bot.scheduler.schedule.queue == [] {
      return EmptyQueue, bot.scheduler.persisted;
    }
    var videoPath := bot.scheduler.schedule.queue[0];
    if videoPath !in existing {
      return FileMissing(videoPath), bot.scheduler.persisted;
    }
    if published {
      bot.scheduler.schedule := bot.scheduler.schedule.(queue := bot.scheduler.schedule.queue[1..]);
      bot.scheduler.SaveSchedule();
      outcome := Posted(videoPath);
    } else {
      outcome := PostFailed(videoPath);
    }
    file := bot.scheduler.persisted;
  }

  /** `post_specific`: loads the schedule (which writes the default file when
      there is none) and publishes `filePath` if it exists. The schedule file
      is whatever loading left, whatever the upload does. */
  method PostSpecific(scheduleFile: Option<ScheduleState>, filePath: string, existing: set<string>, published: bool)
    returns (outcome: PostOutcome, file: ScheduleState)
    ensures file == Loaded(scheduleFile)
    ensures outcome == (if filePath !in existing then FileMissing(filePath)
                        else if published then Posted(filePath) else PostFailed(filePath))
  {
    var bot := new TikTokBot(scheduleFile);
    if filePath !in existing {
      return FileMissing(filePath), bot.scheduler.persisted;
    }
    outcome := if published then Posted(filePath) else PostFailed(filePath);
    file := bot.scheduler.persisted;
  }

  /** `post_now` looks only at the head: it removes exactly the head, and
      only when that head was published, keeping the rest in order; the
      posting times and `last_upload` are never changed, and the file is
      written only after a successful upload. */
  lemma PostNowRemovesOnlyPublishedHead(s: ScheduleState, persisted: ScheduleState, existing: set<string>, published: bool)
    ensures var r := PostNowStep(s, persisted, existing, published);
      (r.outcome.Posted? ==> [r.outcome.path] + r.schedule.queue == s.queue && r.persisted == r.schedule) &&
      (!r.outcome.Posted? ==> r.schedule == s && r.persisted == persisted) &&
      r.schedule == s.(queue := r.schedule.queue)
    ensures var r := PostNowStep(s, persisted, existing, published);
      r.outcome.Posted? <==> s.queue != [] && s.queue[0] in existing && published
  {
    var r := PostNowStep(s, persisted, existing, published);
    if r.outcome.Posted? {
      assert [s.queue[0]] + s.queue[1..] == s.queue;
    }
  }

  /** An empty queue: nothing is attempted and nothing changes. */
  lemma PostNowOnEmptyQueue(s: ScheduleState, persisted: ScheduleState, existing: set<string>, published: bool)
    requires s.queue == []
    ensures PostNowStep(s, persisted, existing, published) == Posting(s, persisted, EmptyQueue)
  {
  }

  /** When the head's file is missing, `post_now` keeps it in the queue,
      whereas a due scheduler poll drops it. */
  lemma MissingHeadKeptByPostNowDroppedByScheduler(s: ScheduleState, now: Timestamp, lookupNow: Timestamp,
                                                   uploadedAt: Timestamp, existing: set<string>, published: bool)
    requires ShouldUpload(s.queue, now, lookupNow, s.postingTimes) == Ok(true)
    requires s.queue[0] !in existing
    ensures PostNowStep(s, s, existing, published).schedule.queue == s.queue
    ensures ScheduledStep(s, s, now, lookupNow, uploadedAt, existing, published).schedule.queue == s.queue[1..]
    ensures |ScheduledStep(s, s, now, lookupNow, uploadedAt, existing, published).schedule.queue| == |s.queue| - 1
  {
  }

  /** On a successful upload both paths remove the head and save, but only
      the scheduler stamps `last_upload`. */
  lemma PublishedHeadPostNowVersusScheduler(s: ScheduleState, now: Timestamp, lookupNow: Timestamp,
                                            uploadedAt: Timestamp, existing: set<string>)
    requires ShouldUpload(s.queue, now, lookupNow, s.postingTimes) == Ok(true)
    requires s.queue[0] in existing
    ensures var p := PostNowStep(s, s, existing, true);
      var q := ScheduledStep(s, s, now, lookupNow, uploadedAt, existing, true);
      p.schedule.queue == q.schedule.queue == s.queue[1..] &&
      p.schedule.lastUpload == s.lastUpload && q.schedule.lastUpload == Some(uploadedAt) &&
      p.persisted == p.schedule && q.persisted == q.schedule
  {
  }

  /** A failed upload: `post_now` neither changes nor saves the record. */
  lemma FailedPostLeavesQueue(s: ScheduleState, persisted: ScheduleState, existing: set<string>)
    requires s.queue != [] && s.queue[0] in existing
    ensures PostNowStep(s, persisted, existing, false) == Posting(s, persisted, PostFailed(s.queue[0]))
  {
  }
}
