/** The default schedule worked through at a few clock readings, and the
    consequence of scanning an unsorted schedule in list order. Every
    example holds on any day `d`. */
module ScheduleExamples {
  import opened Wrappers
  import opened Text
  import opened Clock
  import opened Scheduling

  /** "HH:MM" made of two numerals parses to their values when in range. */
  lemma ParseNumerals(hh: string, mm: string)
    requires IsNumeral(hh) && IsNumeral(mm)
    ensures ParseTimeOfDay(hh + ":" + mm) ==
      (if DecimalValue(hh) < 24 && DecimalValue(mm) < 60 then Some(TimeOfDay(DecimalValue(hh), DecimalValue(mm))) else None)
  {
    var s := hh + ":" + mm;
    assert ':' !in hh by { assert forall k :: 0 <= k < |hh| ==> IsDigit(hh[k]); }
    assert s[|hh|] == ':' && s[..|hh|] == hh;
    assert IndexOf(s, ':') == Some(|hh|);
    assert s[|hh| + 1..] == mm;
  }

  /** "HH:00" with a two-digit hour below 24 parses to that hour. */
  lemma ParseOnTheHour(s: string, hh: string, h: nat)
    requires |hh| == 2 && IsDigit(hh[0]) && IsDigit(hh[1])
    requires h == DigitValue(hh[0]) * 10 + DigitValue(hh[1]) && h < 24
    requires s == hh + ":00"
    ensures ParseTimeOfDay(s) == Some(TimeOfDay(h, 0))
  {
    assert hh[..1][..0] == [];
    assert hh[..1] == [hh[0]];
    assert DecimalValue(hh[..1]) == DigitValue(hh[0]);
    assert hh[..|hh| - 1] == hh[..1];
    assert DecimalValue(hh) == h;
    var zeros := ":00"[1..];
    assert zeros[..1][..0] == [];
    assert DecimalValue(zeros) == 0;
    assert s == hh + ":" + zeros;
    ParseNumerals(hh, zeros);
  }

  lemma ParseNine()
    ensures ParseTimeOfDay("09:00") == Some(TimeOfDay(9, 0))
  {
    ParseOnTheHour("09:00", "09", 9);
  }

  lemma ParseFifteen()
    ensures ParseTimeOfDay("15:00") == Some(TimeOfDay(15, 0))
  {
    ParseOnTheHour("15:00", "15", 15);
  }

  lemma ParseTwentyOne()
    ensures ParseTimeOfDay("21:00") == Some(TimeOfDay(21, 0))
  {
    ParseOnTheHour("21:00", "21", 21);
  }

  /** A reading `offset` into day `day` belongs to that day. */
  lemma DayOfOffset(day: nat, offset: nat)
    requires offset < DAY
    ensures DayOf(day * DAY + offset) == day
  {
  }

  /** A parsed list reading 09:00, 15:00 and 21:00, in that order. */
  predicate IsDefaultShape(slots: Slots) {
    slots == [Some(TimeOfDay(9, 0)), Some(TimeOfDay(15, 0)), Some(TimeOfDay(21, 0))]
  }

  /** Parsing a list entry by entry. */
  lemma ParsedOfTwo(times: seq<string>, a: Option<TimeOfDay>, b: Option<TimeOfDay>)
    requires |times| == 2 && ParseTimeOfDay(times[0]) == a && ParseTimeOfDay(times[1]) == b
    ensures ParsedTimes(times) == [a, b]
  {
  }

  lemma ParsedOfThree(times: seq<string>, a: Option<TimeOfDay>, b: Option<TimeOfDay>, c: Option<TimeOfDay>)
    requires |times| == 3
    requires ParseTimeOfDay(times[0]) == a && ParseTimeOfDay(times[1]) == b && ParseTimeOfDay(times[2]) == c
    ensures ParsedTimes(times) == [a, b, c]
  {
  }

  lemma DefaultIsShape()
    ensures IsDefaultShape(ParsedTimes(DefaultSchedule().postingTimes))
  {
    ParseNine();
    ParseFifteen();
    ParseTwentyOne();
    ParsedOfThree(DefaultSchedule().postingTimes, Some(TimeOfDay(9, 0)), Some(TimeOfDay(15, 0)), Some(TimeOfDay(21, 0)));
  }

  lemma ShapeMidMorning(d: nat, slots: Slots)
    requires IsDefaultShape(slots)
    ensures NextSlot(d * DAY + 10 * HOUR, slots) == Ok(d * DAY + 15 * HOUR)
  {
    var now := d * DAY + 10 * HOUR;
    DayOfOffset(d, 10 * HOUR);
    assert PassedToday(now, slots, 1);
    FirstLaterSlotInListOrder(now, slots, 1);
  }

  lemma ShapeLateEvening(d: nat, slots: Slots)
    requires IsDefaultShape(slots)
    ensures NextSlot(d * DAY + 22 * HOUR, slots) == Ok((d + 1) * DAY + 9 * HOUR)
  {
    var now := d * DAY + 22 * HOUR;
    DayOfOffset(d, 22 * HOUR);
    assert PassedToday(now, slots, 3);
    AllPassedFallsBackToTomorrow(now, slots);
  }

  lemma ShapeJustBeforeNine(d: nat, slots: Slots, minute: nat)
    requires IsDefaultShape(slots) && minute < 60
    ensures NextSlot(d * DAY + 8 * HOUR + minute * MINUTE, slots) == Ok(d * DAY + 9 * HOUR)
  {
    var now := d * DAY + 8 * HOUR + minute * MINUTE;
    DayOfOffset(d, 8 * HOUR + minute * MINUTE);
    assert PassedToday(now, slots, 0);
    FirstLaterSlotInListOrder(now, slots, 0);
  }

  /** With the default schedule, at 10:00 the next upload is at 15:00 the same day. */
  lemma DefaultAtTen(d: nat)
    ensures NextUploadTime(d * DAY + 10 * HOUR, DefaultSchedule().postingTimes) == Ok(d * DAY + 15 * HOUR)
  {
    DefaultIsShape();
    ShapeMidMorning(d, ParsedTimes(DefaultSchedule().postingTimes));
  }

  /** At 22:00 every slot of the day has passed: 09:00 the next day. */
  lemma DefaultAtTwentyTwo(d: nat)
    ensures NextUploadTime(d * DAY + 22 * HOUR, DefaultSchedule().postingTimes) == Ok((d + 1) * DAY + 9 * HOUR)
  {
    DefaultIsShape();
    ShapeLateEvening(d, ParsedTimes(DefaultSchedule().postingTimes));
  }

  /** At 08:59 the next upload is 09:00 the same day. */
  lemma DefaultAtEightFiftyNine(d: nat)
    ensures NextUploadTime(d * DAY + 8 * HOUR + 59 * MINUTE, DefaultSchedule().postingTimes) == Ok(d * DAY + 9 * HOUR)
  {
    DefaultIsShape();
    ShapeJustBeforeNine(d, ParsedTimes(DefaultSchedule().postingTimes), 59);
  }

  /** With clips queued, a poll at 08:57 is due (09:00 is 180 s away) and a
      poll at 08:50 is not (600 s away). */
  lemma DefaultDueAroundNine(d: nat, queue: seq<string>)
    requires queue != []
    ensures ShouldUpload(queue, d * DAY + 8 * HOUR + 57 * MINUTE, d * DAY + 8 * HOUR + 57 * MINUTE,
                         DefaultSchedule().postingTimes) == Ok(true)
    ensures ShouldUpload(queue, d * DAY + 8 * HOUR + 50 * MINUTE, d * DAY + 8 * HOUR + 50 * MINUTE,
                         DefaultSchedule().postingTimes) == Ok(false)
  {
    DefaultIsShape();
    ShapeJustBeforeNine(d, ParsedTimes(DefaultSchedule().postingTimes), 57);
    ShapeJustBeforeNine(d, ParsedTimes(DefaultSchedule().postingTimes), 50);
  }

  lemma ShapeUnsorted(d: nat, slots: Slots)
    requires slots == [Some(TimeOfDay(21, 0)), Some(TimeOfDay(9, 0))]
    ensures NextSlot(d * DAY + 8 * HOUR, slots) == Ok(d * DAY + 21 * HOUR)
    ensures IsUpcomingSlot(d * DAY + 8 * HOUR, slots, d * DAY + 9 * HOUR)
  {
    var now := d * DAY + 8 * HOUR;
    DayOfOffset(d, 8 * HOUR);
    assert PassedToday(now, slots, 0);
    FirstLaterSlotInListOrder(now, slots, 0);
    assert d * DAY + 9 * HOUR == At(DayOf(now), slots[1].value);
  }

  /** An unsorted list is scanned in list order: with ["21:00", "09:00"] at
      08:00 the lookup answers 21:00 although 09:00 comes sooner. */
  lemma UnsortedScheduleAnswersInListOrder(d: nat)
    ensures NextUploadTime(d * DAY + 8 * HOUR, ["21:00", "09:00"]) == Ok(d * DAY + 21 * HOUR)
    ensures IsUpcomingSlot(d * DAY + 8 * HOUR, ParsedTimes(["21:00", "09:00"]), d * DAY + 9 * HOUR)
  {
    ParseNine();
    ParseTwentyOne();
    ParsedOfTwo(["21:00", "09:00"], Some(TimeOfDay(21, 0)), Some(TimeOfDay(9, 0)));
    ShapeUnsorted(d, ParsedTimes(["21:00", "09:00"]));
  }
}
