/** The schedule and its work queue (`ScheduleManager` in tiktok_bot.py): the
    persisted record, the choice of the next posting slot and the
    five-minute "is it time" test. */
module Scheduling {
  import opened Wrappers
  import opened Clock

  /** The record kept in the schedule file: `posts_per_day`, `posting_times`,
      `last_upload` and the ordered `queue` of clip paths. */
  datatype ScheduleState = ScheduleState(
    postsPerDay: int,
    postingTimes: seq<string>,
    lastUpload: Option<Timestamp>,
    queue: seq<string>)

  /** The record `load_schedule` creates when there is no schedule file. */
  function DefaultSchedule(): (r: ScheduleState)
    ensures r.postsPerDay == |r.postingTimes| && r.lastUpload == None && r.queue == []
  {
    ScheduleState(3, ["09:00", "15:00", "21:00"], None, [])
  }

  /** The record `load_schedule` leaves in memory, given the schedule file
      (absent: the default record). */
  function Loaded(file: Option<ScheduleState>): ScheduleState {
    if file.Some? then file.value else DefaultSchedule()
  }

  /** Why `get_next_upload_time` raises instead of returning: no slot at all
      (`posting_times[0]` on an empty list) or an entry that is not a valid
      "HH:MM" (`ValueError` from `int` or `datetime.replace`). */
  datatype ScheduleError = EmptySchedule | MalformedTime(index: nat)

  /** Tolerance of `should_upload_now`: 300 seconds. */
  const UPLOAD_WINDOW: nat := 300 * SECOND

  /** A parsed `posting_times` list: entry `k` is the slot its string names,
      or `None` when that string is malformed. */
  type Slots = seq<Option<TimeOfDay>>

  /** Every parsed entry is a valid time of day. */
  predicate ValidSlots(slots: Slots) {
    forall k :: 0 <= k < |slots| && slots[k].Some? ==> ValidTimeOfDay(slots[k].value)
  }

  /** Each entry of `posting_times` read as a slot. Parsing is pure, so
      reading every entry up front answers as the lazy scan does: an entry
      is only consulted when the scan reaches it. */
  function ParsedTimes(times: seq<string>): (slots: Slots)
    ensures |slots| == |times| && ValidSlots(slots)
  {
    seq(|times|, k requires 0 <= k < |times| => ParseTimeOfDay(times[k]))
  }

  /** The scan of the slots from index `from` on, in list order: the first
      slot that today lies strictly after `now`, `None` if the list runs out,
      or the error of the first malformed entry reached. */
  function FirstSlotToday(now: Timestamp, slots: Slots, from: nat): (r: Result<Option<Timestamp>, ScheduleError>)
    requires ValidSlots(slots)
    ensures r.Ok? && r.value.Some? ==> now < r.value.value < (DayOf(now) + 1) * DAY
    ensures r.Err? ==> r.error.MalformedTime? && from <= r.error.index < |slots| && slots[r.error.index].None?
    decreases |slots| - from
  {
    if from >= |slots| then Ok(None)
    else
      match slots[from]
      case None => Err(MalformedTime(from))
      case Some(t) =>
        if At(DayOf(now), t) > now then Ok(Some(At(DayOf(now), t)))
        else FirstSlotToday(now, slots, from + 1)
  }

  /** The lookup on parsed slots: today's first later slot, else the first
      entry's slot tomorrow. */
  function NextSlot(now: Timestamp, slots: Slots): (r: Result<Timestamp, ScheduleError>)
    requires ValidSlots(slots)
    ensures slots == [] ==> r == Err(EmptySchedule)
  {
    match FirstSlotToday(now, slots, 0)
    case Err(e) => Err(e)
    case Ok(Some(slot)) => Ok(slot)
    case Ok(None) =>
      if slots == [] then Err(EmptySchedule)
      else
        match slots[0]
        case None => Err(MalformedTime(0))
        case Some(t) => Ok(At(DayOf(now) + 1, t))
  }

  /** `get_next_upload_time` with the clock reading `now`. */
  function NextUploadTime(now: Timestamp, times: seq<string>): (r: Result<Timestamp, ScheduleError>)
    ensures times == [] ==> r == Err(EmptySchedule)
  {
    NextSlot(now, ParsedTimes(times))
  }

  /** `now + timedelta(days=1)` falls on the next calendar day. */
  lemma NextDay(now: Timestamp)
    ensures DayOf(now + DAY) == DayOf(now) + 1
  {
    assert now + DAY == (DayOf(now) + 1) * DAY + now % DAY;
  }

  /** Entries `0 .. j-1` are well-formed and their slots today are not after `now`. */
  ghost predicate PassedToday(now: Timestamp, slots: Slots, j: nat)
    requires ValidSlots(slots)
  {
    j <= |slots| &&
    forall k :: 0 <= k < j ==> slots[k].Some? && At(DayOf(now), slots[k].value) <= now
  }

  /** Skipping entries whose slot has passed does not change the scan. */
  lemma {:induction false} ScanSkipsPassed(now: Timestamp, slots: Slots, from: nat, j: nat)
    requires ValidSlots(slots)
    requires from <= j && PassedToday(now, slots, j)
    ensures FirstSlotToday(now, slots, from) == FirstSlotToday(now, slots, j)
    decreases j - from
  {
    if from < j {
      ScanSkipsPassed(now, slots, from + 1, j);
    }
  }

  /** What the scan finds is a slot later today, and running out means every
      entry was well-formed and already passed. */
  lemma {:induction false} ScanSound(now: Timestamp, slots: Slots, from: nat)
    requires ValidSlots(slots)
    requires PassedToday(now, slots, from)
    ensures FirstSlotToday(now, slots, from) == Ok(None) ==> PassedToday(now, slots, |slots|)
    ensures FirstSlotToday(now, slots, from).Ok? && FirstSlotToday(now, slots, from).value.Some? ==>
      exists j :: from <= j < |slots| && PassedToday(now, slots, j) && slots[j].Some? &&
        FirstSlotToday(now, slots, from).value.value == At(DayOf(now), slots[j].value) > now
    decreases |slots| - from
  {
    if from < |slots| && slots[from].Some? {
      if At(DayOf(now), slots[from].value) <= now {
        ScanSound(now, slots, from + 1);
      }
    }
  }

  /** The result is the first entry, in list order, whose slot today is after
      `now` (not necessarily the earliest such slot). */
  lemma FirstLaterSlotInListOrder(now: Timestamp, slots: Slots, j: nat)
    requires ValidSlots(slots)
    requires PassedToday(now, slots, j) && j < |slots|
    requires slots[j].Some? && At(DayOf(now), slots[j].value) > now
    ensures NextSlot(now, slots) == Ok(At(DayOf(now), slots[j].value))
  {
    ScanSkipsPassed(now, slots, 0, j);
  }

  /** A malformed entry reached before any later slot makes the lookup fail. */
  lemma FirstMalformedEntryFails(now: Timestamp, slots: Slots, j: nat)
    requires ValidSlots(slots)
    requires PassedToday(now, slots, j) && j < |slots| && slots[j].None?
    ensures NextSlot(now, slots) == Err(MalformedTime(j))
  {
    ScanSkipsPassed(now, slots, 0, j);
  }

  /** When every slot of today has passed, the first entry's slot tomorrow is used. */
  lemma AllPassedFallsBackToTomorrow(now: Timestamp, slots: Slots)
    requires ValidSlots(slots)
    requires |slots| > 0 && PassedToday(now, slots, |slots|)
    ensures NextSlot(now, slots) == Ok(At(DayOf(now) + 1, slots[0].value))
  {
    ScanSkipsPassed(now, slots, 0, |slots|);
  }

  /** The next upload time always lies in `(now, now + DAY]`. */
  lemma NextSlotWithinDay(now: Timestamp, slots: Slots)
    requires ValidSlots(slots)
    ensures NextSlot(now, slots).Ok? ==> now < NextSlot(now, slots).value <= now + DAY
  {
    ScanSound(now, slots, 0);
    if FirstSlotToday(now, slots, 0) == Ok(None) && slots != [] {
      var t := slots[0].value;
      assert At(DayOf(now), t) <= now;
      assert At(DayOf(now) + 1, t) == At(DayOf(now), t) + DAY;
      assert now < (DayOf(now) + 1) * DAY;
    }
  }

  /** Every entry is a valid time and they ascend through the day. */
  ghost predicate SortedSlots(slots: Slots) {
    ValidSlots(slots) &&
    (forall k :: 0 <= k < |slots| ==> slots[k].Some?) &&
    forall i, j :: 0 <= i <= j < |slots| ==> OffsetInDay(slots[i].value) <= OffsetInDay(slots[j].value)
  }

  /** `s` is a posting instant the schedule offers after `now`: one of today's
      slots still ahead, or any of tomorrow's. */
  ghost predicate IsUpcomingSlot(now: Timestamp, slots: Slots, s: Timestamp)
    requires ValidSlots(slots)
  {
    exists k :: 0 <= k < |slots| && slots[k].Some? &&
      ((s == At(DayOf(now), slots[k].value) && s > now) || s == At(DayOf(now) + 1, slots[k].value))
  }

  /** For an ascending, non-empty schedule the list-order scan does find the
      earliest upcoming slot. */
  lemma SortedScheduleGivesEarliestSlot(now: Timestamp, slots: Slots)
    requires |slots| > 0 && SortedSlots(slots)
    ensures NextSlot(now, slots).Ok?
    ensures IsUpcomingSlot(now, slots, NextSlot(now, slots).value)
    ensures forall s :: IsUpcomingSlot(now, slots, s) ==> NextSlot(now, slots).value <= s
  {
    var day := DayOf(now);
    ScanSound(now, slots, 0);
    ScanErrorIsMalformed(now, slots, 0);
    var r := FirstSlotToday(now, slots, 0);
    if r.value.Some? {
      var j :| 0 <= j < |slots| && PassedToday(now, slots, j) && slots[j].Some? &&
        r.value.value == At(day, slots[j].value) > now;
      forall s: Timestamp | IsUpcomingSlot(now, slots, s) ensures r.value.value <= s {
        var k :| 0 <= k < |slots| && slots[k].Some? &&
          ((s == At(day, slots[k].value) && s > now) || s == At(day + 1, slots[k].value));
        if s == At(day, slots[k].value) && s > now {
          assert k >= j;
        }
      }
    } else {
      var first := At(day + 1, slots[0].value);
      forall s: Timestamp | IsUpcomingSlot(now, slots, s) ensures first <= s {
        var k :| 0 <= k < |slots| && slots[k].Some? &&
          ((s == At(day, slots[k].value) && s > now) || s == At(day + 1, slots[k].value));
      }
    }
  }

  /** A scan over well-formed entries never fails. */
  lemma {:induction false} ScanErrorIsMalformed(now: Timestamp, slots: Slots, from: nat)
    requires ValidSlots(slots)
    requires forall k :: 0 <= k < |slots| ==> slots[k].Some?
    ensures FirstSlotToday(now, slots, from).Ok?
    decreases |slots| - from
  {
    if from < |slots| {
      ScanErrorIsMalformed(now, slots, from + 1);
    }
  }

  /** `should_upload_now`: never with an empty queue; otherwise whether the
      next slot, looked up at clock reading `lookupNow`, is less than 300 s
      from the earlier reading `now`. */
  function ShouldUpload(queue: seq<string>, now: Timestamp, lookupNow: Timestamp, times: seq<string>): (r: Result<bool, ScheduleError>)
    ensures queue == [] ==> r == Ok(false)
  {
    if queue == [] then Ok(false)
    else
      match NextUploadTime(lookupNow, times)
      case Err(e) => Err(e)
      case Ok(next) => Ok(-(UPLOAD_WINDOW as int) < next - now < UPLOAD_WINDOW)
  }

  /** Because the next slot is always ahead of the clock, the symmetric window
      only ever fires in the 300 s before a slot, and only with work queued. */
  lemma DueOnlyJustBeforeSlot(queue: seq<string>, now: Timestamp, lookupNow: Timestamp, times: seq<string>)
    requires now <= lookupNow
    ensures ShouldUpload(queue, now, lookupNow, times) == Ok(true) <==>
      queue != [] && NextUploadTime(lookupNow, times).Ok? &&
      now < NextUploadTime(lookupNow, times).value < now + UPLOAD_WINDOW
  {
    NextSlotWithinDay(lookupNow, ParsedTimes(times));
  }

  /** With an ascending schedule and work queued, any upcoming slot less than
      300 s ahead makes the test fire: a poll inside the window cannot miss it. */
  lemma DueWhenSlotWithinWindow(queue: seq<string>, now: Timestamp, lookupNow: Timestamp, times: seq<string>, slot: Timestamp)
    requires queue != [] && |times| > 0 && SortedSlots(ParsedTimes(times))
    requires now <= lookupNow
    requires IsUpcomingSlot(lookupNow, ParsedTimes(times), slot) && slot < now + UPLOAD_WINDOW
    ensures ShouldUpload(queue, now, lookupNow, times) == Ok(true)
  {
    SortedScheduleGivesEarliestSlot(lookupNow, ParsedTimes(times));
    NextSlotWithinDay(lookupNow, ParsedTimes(times));
  }

  /** The schedule file and its in-memory copy (`ScheduleManager`). */
  class ScheduleManager {
    /** `self.schedule`. */
    var schedule: ScheduleState
    /** The contents of the schedule file as `save_schedule` last wrote them. */
    var persisted: ScheduleState

    /** `load_schedule`: the file's record when there is one; otherwise the
        default record, which is then written out. */
    constructor (file: Option<ScheduleState>)
      ensures schedule == Loaded(file)
      ensures persisted == schedule
    {
      if file.Some? {
        schedule := file.value;
        persisted := file.value;
      } else {
        schedule := DefaultSchedule();
        persisted := schedule;
      }
    }

    /** `save_schedule`: the file now holds the in-memory record. */
    method SaveSchedule()
      modifies this`persisted
      ensures persisted == schedule
    {
      persisted := schedule;
    }

    /** `add_videos_to_queue`: every path goes to the tail, in order; nothing
        else changes; the record is then saved. */
    method AddVideosToQueue(videoPaths: seq<string>)
      modifies this
      ensures schedule == old(schedule).(queue := old(schedule.queue) + videoPaths)
      ensures persisted == schedule
    {
      var i := 0;
      while i < |videoPaths|
        invariant 0 <= i <= |videoPaths|
        invariant schedule == old(schedule).(queue := old(schedule.queue) + videoPaths[..i])
      {
        schedule := schedule.(queue := schedule.queue + [videoPaths[i]]);
        i := i + 1;
      }
      assert videoPaths[..i] == videoPaths;
      SaveSchedule();
    }

    /** `get_next_upload_time` with the clock reading `now`. */
    method GetNextUploadTime(now: Timestamp) returns (r: Result<Timestamp, ScheduleError>)
      ensures r == NextUploadTime(now, schedule.postingTimes)
    {
      var times := schedule.postingTimes;
      ghost var slots := ParsedTimes(times);
      var i := 0;
      while i < |times|
        invariant 0 <= i <= |times|
        invariant FirstSlotToday(now, slots, 0) == FirstSlotToday(now, slots, i)
      {
        assert slots[i] == ParseTimeOfDay(times[i]);
        var parsed := ParseTimeOfDay(times[i]);
        if parsed.None? {
          return Err(MalformedTime(i));
        }
        var uploadTime := At(DayOf(now), parsed.value);
        if uploadTime > now {
          return Ok(uploadTime);
        }
        i := i + 1;
      }
      if |times| == 0 {
        return Err(EmptySchedule);
      }
      assert slots[0] == ParseTimeOfDay(times[0]);
      var first := ParseTimeOfDay(times[0]).value;
      var tomorrow := now + DAY;
      NextDay(now);
      r := Ok(At(DayOf(tomorrow), first));
    }

    /** `should_upload_now`; `now` is its own clock reading and `lookupNow` the
        later one taken inside `get_next_upload_time`. */
    method ShouldUploadNow(now: Timestamp, lookupNow: Timestamp) returns (r: Result<bool, ScheduleError>)
      ensures r == ShouldUpload(schedule.queue, now, lookupNow, schedule.postingTimes)
    {
      if schedule.queue == [] {
        return Ok(false);
      }
      var next := GetNextUploadTime(lookupNow);
      if next.Err? {
        return Err(next.error);
      }
      var delta := next.value - now;
      r := Ok((if delta < 0 then -delta else delta) < UPLOAD_WINDOW);
    }
  }
}
