/** Wall-clock arithmetic for the posting schedule. A timestamp is a whole
    number of microseconds since midnight of day 0, in naive local time (the
    bot never converts time zones), so every day is exactly `DAY` long and
    Python's `datetime` resolution is kept exactly. */
module Clock {
  import opened Wrappers
  import opened Text

  const SECOND: nat := 1_000_000
  const MINUTE: nat := 60 * SECOND
  const HOUR: nat := 60 * MINUTE
  const DAY: nat := 24 * HOUR

  type Timestamp = nat

  /** A posting slot, the parsed form of an "HH:MM" entry of `posting_times`. */
  datatype TimeOfDay = TimeOfDay(hour: nat, minute: nat)

  /** The range `datetime.replace` accepts for hour and minute. */
  predicate ValidTimeOfDay(t: TimeOfDay) {
    t.hour < 24 && t.minute < 60
  }

  function OffsetInDay(t: TimeOfDay): nat {
    t.hour * HOUR + t.minute * MINUTE
  }

  /** The calendar day a timestamp falls on. */
  function DayOf(now: Timestamp): nat {
    now / DAY
  }

  /** The instant `t` on day `day`, with seconds and microseconds zero: what
      `now.replace(hour=h, minute=m, second=0, microsecond=0)` gives for a
      `now` on that day. */
  function At(day: nat, t: TimeOfDay): (r: Timestamp)
    requires ValidTimeOfDay(t)
    ensures day * DAY <= r < day * DAY + DAY
    ensures r % MINUTE == 0
    ensures r % DAY / HOUR == t.hour && r % HOUR / MINUTE == t.minute
  {
    AtFields(day, t);
    day * DAY + OffsetInDay(t)
  }

  /** Dividing `q * m + b` by `m`, for `b` below `m`, gives back `q` and `b`. */
  lemma DivModOfMultiple(q: nat, m: nat, b: nat)
    requires b < m
    ensures (q * m + b) / m == q && (q * m + b) % m == b
  {
    var x := q * m + b;
    var d, r := x / m, x % m;
    assert d * m + r == q * m + b;
    MultiplyOrder(d, q, m);
    MultiplyOrder(q, d, m);
  }

  /** Multiplying by `m` keeps a strict order at least `m` apart. */
  lemma MultiplyOrder(a: nat, c: nat, m: nat)
    ensures a > c ==> a * m >= c * m + m
  {
    if a > c {
      assert a * m == c * m + (a - c) * m;
      assert (a - c) * m == (a - c - 1) * m + m;
    }
  }

  /** The hour and minute fields of `At(day, t)` are those of `t`. */
  lemma AtFields(day: nat, t: TimeOfDay)
    requires ValidTimeOfDay(t)
    ensures day * DAY <= day * DAY + OffsetInDay(t) < day * DAY + DAY
    ensures (day * DAY + OffsetInDay(t)) % MINUTE == 0
    ensures (day * DAY + OffsetInDay(t)) % DAY / HOUR == t.hour
    ensures (day * DAY + OffsetInDay(t)) % HOUR / MINUTE == t.minute
  {
    var off := OffsetInDay(t);
    assert off < DAY;
    assert day * DAY + off == ((day * 24 + t.hour) * 60 + t.minute) * MINUTE;
    DivModOfMultiple((day * 24 + t.hour) * 60 + t.minute, MINUTE, 0);
    DivModOfMultiple(day, DAY, off);
    assert t.minute * MINUTE < HOUR;
    DivModOfMultiple(t.hour, HOUR, t.minute * MINUTE);
    assert day * DAY + off == (day * 24 + t.hour) * HOUR + t.minute * MINUTE;
    DivModOfMultiple(day * 24 + t.hour, HOUR, t.minute * MINUTE);
    DivModOfMultiple(t.minute, MINUTE, 0);
  }

  /** `At` lands on the day it is asked for. */
  lemma AtIsOnDay(day: nat, t: TimeOfDay)
    requires ValidTimeOfDay(t)
    ensures DayOf(At(day, t)) == day
  {
    var r := At(day, t);
    assert r == day * DAY + OffsetInDay(t);
    assert OffsetInDay(t) < DAY;
  }

  /** Reads one `posting_times` entry the way `map(int, s.split(':'))` followed
      by `datetime.replace` does: exactly one ':' with a numeral on each side,
      hour below 24 and minute below 60. `None` stands for the `ValueError`
      raised otherwise. */
  function ParseTimeOfDay(s: string): (r: Option<TimeOfDay>)
    ensures r.Some? ==> ValidTimeOfDay(r.value)
    ensures r.Some? ==> ':' in s
    ensures r.Some? ==> exists i :: (0 <= i < |s| && s[i] == ':' && IsNumeral(s[..i]) && IsNumeral(s[i + 1..]) &&
      r.value == TimeOfDay(DecimalValue(s[..i]), DecimalValue(s[i + 1..])))
  {
    match IndexOf(s, ':')
    case None => None
    case Some(i) =>
      var hh, mm := s[..i], s[i + 1..];
      if !IsNumeral(hh) || !IsNumeral(mm) then None
      else
        var t := TimeOfDay(DecimalValue(hh), DecimalValue(mm));
        if ValidTimeOfDay(t) then Some(t) else None
  }

  /** The "HH:MM" form in which the schedule file stores a slot. */
  function FormatTimeOfDay(t: TimeOfDay): (s: string)
    requires ValidTimeOfDay(t)
  {
    ZeroPad(t.hour, 2) + ":" + ZeroPad(t.minute, 2)
  }

  /** Every slot written as "HH:MM" is read back as the same slot. */
  lemma FormatThenParse(t: TimeOfDay)
    requires ValidTimeOfDay(t)
    ensures |FormatTimeOfDay(t)| == 5
    ensures ParseTimeOfDay(FormatTimeOfDay(t)) == Some(t)
  {
    var hh, mm := ZeroPad(t.hour, 2), ZeroPad(t.minute, 2);
    var s := hh + ":" + mm;
    assert |hh| == 2 && |mm| == 2 by {
      assert |Decimal(t.hour)| <= 2 by { DecimalLength(t.hour); }
      assert |Decimal(t.minute)| <= 2 by { DecimalLength(t.minute); }
    }
    assert ':' !in hh by { assert forall k :: 0 <= k < |hh| ==> IsDigit(hh[k]); }
    assert IndexOf(s, ':') == Some(2) by {
      assert s[2] == ':';
      assert s[..2] == hh;
    }
    assert s[..2] == hh && s[3..] == mm;
  }

  /** Numbers below 100 take at most two decimal digits. */
  lemma DecimalLength(n: nat)
    requires n < 100
    ensures |Decimal(n)| <= 2
  {
    if n >= 10 {
      assert n / 10 < 10;
    }
  }
}
