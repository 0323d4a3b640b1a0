/**
 * Instants and times of day. The bot works with naive Python datetimes: no
 * timezone and no daylight-saving logic. An instant is modelled as the number
 * of microseconds (a datetime's resolution) since an arbitrary midnight, so a
 * calendar day starts at every multiple of DAY.
 */
module Clock {
  import opened Text

  type Instant = int

  const MINUTE: int := 60_000_000
  const HOUR: int := 60 * MINUTE
  const DAY: int := 24 * HOUR

  /** An hour and a minute, as `datetime.replace(hour=…, minute=…)` takes them. */
  datatype TimeOfDay = TimeOfDay(hour: int, minute: int) {

    /** The range `datetime` accepts and the bot checks (bot.py:259). */
    predicate Valid() {
      0 <= hour <= 23 && 0 <= minute <= 59
    }

    /** Microseconds from midnight to this time of day, with zero seconds. */
    function Offset(): int {
      hour * HOUR + minute * MINUTE
    }
  }

  /** The midnight that starts the calendar day of `t`. */
  function Midnight(t: Instant): (m: Instant)
    ensures m % DAY == 0 && m <= t < m + DAY
  {
    t - t % DAY
  }

  /** The hour and minute shown for `t` by `strftime('%H:%M')`. */
  function ClockOf(t: Instant): (c: TimeOfDay)
    ensures c.Valid()
    ensures Midnight(t) + c.Offset() <= t < Midnight(t) + c.Offset() + MINUTE
  {
    var x := t % DAY;
    TimeOfDay(x / HOUR, (x % HOUR) / MINUTE)
  }

  /** `strftime('%H:%M')`: two zero-padded digits each for the hour and the minute. */
  function FormatHHMM(c: TimeOfDay): (s: string)
    requires c.Valid()
    ensures |s| == 5 && s[2] == ':'
    ensures IsDigit(s[0]) && IsDigit(s[1]) && IsDigit(s[3]) && IsDigit(s[4])
    ensures 10 * (s[0] as int - '0' as int) + (s[1] as int - '0' as int) == c.hour
    ensures 10 * (s[3] as int - '0' as int) + (s[4] as int - '0' as int) == c.minute
  {
    Pad2(c.hour) + [':'] + Pad2(c.minute)
  }

  /** A valid time of day lies inside its day. */
  lemma OffsetInDay(c: TimeOfDay)
    requires c.Valid()
    ensures 0 <= c.Offset() <= DAY - MINUTE
  {
  }

  /**
   * Placing a valid time of day on a calendar day gives back that time of day,
   * on that day.
   */
  lemma ClockOfPlaced(m: Instant, c: TimeOfDay)
    requires m % DAY == 0 && c.Valid()
    ensures Midnight(m + c.Offset()) == m
    ensures ClockOf(m + c.Offset()) == c
  {
    OffsetInDay(c);
    var t := m + c.Offset();
    MidnightOfPlaced(m, c.Offset());
    var d := ClockOf(t);
    if d.hour < c.hour || (d.hour == c.hour && d.minute < c.minute) {
      OffsetsOrdered(d, c);
    } else if c.hour < d.hour || (c.hour == d.hour && c.minute < d.minute) {
      OffsetsOrdered(c, d);
    }
  }

  /** Adding less than a day to a midnight stays on that day. */
  lemma MidnightOfPlaced(m: Instant, offset: int)
    requires m % DAY == 0 && 0 <= offset < DAY
    ensures Midnight(m + offset) == m
  {
    var q := m / DAY;
    assert m == q * DAY;
    var t := m + offset;
    var r := Midnight(t);
    assert r % DAY == 0 && r <= t < r + DAY;
    assert r == (r / DAY) * DAY;
    var p := r / DAY;
    assert p * DAY <= q * DAY + offset < p * DAY + DAY;
    assert (p - q) * DAY <= offset && offset - DAY < (p - q) * DAY;
    assert p == q;
  }

  /** Offsets order times of day lexicographically, a whole minute apart. */
  lemma OffsetsOrdered(a: TimeOfDay, b: TimeOfDay)
    requires a.Valid() && b.Valid()
    requires a.hour < b.hour || (a.hour == b.hour && a.minute < b.minute)
    ensures a.Offset() + MINUTE <= b.Offset()
  {
    if a.hour < b.hour {
      assert a.hour * HOUR + HOUR <= b.hour * HOUR;
    }
  }
}
