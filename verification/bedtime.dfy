/**
 * Reading a bedtime typed by the user (the `try` block of
 * `handle_sleep_time_input`): the text, already stripped, is read as an hour
 * and a minute by its shape, range-checked, and placed on the current day, or
 * on the next day when that moment has already passed.
 */
module Bedtime {
  import opened Wrappers
  import opened Text
  import opened Clock

  function Pair(hour: Option<int>, minute: Option<int>): Option<(int, int)> {
    if hour.Some? && minute.Some? then Some((hour.value, minute.value)) else None
  }

  /**
   * The hour and minute fields as the text's shape gives them, before the
   * range check. With a colon the text must split into exactly two fields;
   * without one, its length decides where the hour ends.
   */
  function ParseFields(text: string): Option<(int, int)> {
    if ':' in text then
      var fields := Split(text, ':');
      if |fields| == 2 then Pair(ParseInt(fields[0]), ParseInt(fields[1])) else None
    else if |text| <= 2 then Pair(ParseInt(text), Some(0))
    else if |text| == 3 then Pair(ParseInt(text[..1]), ParseInt(text[1..3]))
    else if |text| == 4 then Pair(ParseInt(text[..2]), ParseInt(text[2..4]))
    else None
  }

  /** The fields, kept only when they name a real time of day. */
  function ParseTimeOfDay(text: string): (r: Option<TimeOfDay>)
    ensures r.Some? ==> r.value.Valid()
    ensures r.Some? <==> ParseFields(text).Some? && TimeOfDay(ParseFields(text).value.0, ParseFields(text).value.1).Valid()
    ensures r.Some? ==> r.value == TimeOfDay(ParseFields(text).value.0, ParseFields(text).value.1)
  {
    match ParseFields(text)
    case Some((hour, minute)) =>
      var c := TimeOfDay(hour, minute);
      if c.Valid() then Some(c) else None
    case None => None
  }

  /**
   * `now.replace(hour, minute, second=0, microsecond=0)`, plus one day when
   * that is earlier than `now`. The result is the first moment at or after
   * `now` that shows the given time of day, on `now`'s date or the next.
   */
  function PlaceOnCalendar(c: TimeOfDay, now: Instant): (r: Instant)
    requires c.Valid()
    ensures now <= r < now + DAY
    ensures r == Midnight(r) + c.Offset()
    ensures Midnight(r) == if c.Offset() < now % DAY then Midnight(now) + DAY else Midnight(now)
  {
    OffsetInDay(c);
    var candidate := Midnight(now) + c.Offset();
    assert Midnight(candidate) == Midnight(now) by { ClockOfPlaced(Midnight(now), c); }
    assert Midnight(candidate + DAY) == Midnight(now) + DAY by { ClockOfPlaced(Midnight(now) + DAY, c); }
    if candidate < now then candidate + DAY else candidate
  }

  /** The whole block: text to bedtime, or failure and a re-prompt. */
  function ParseBedtime(text: string, now: Instant): (r: Option<Instant>)
    ensures r.Some? <==> ParseTimeOfDay(text).Some?
    ensures r.Some? ==> now <= r.value < now + DAY && ClockOf(r.value) == ParseTimeOfDay(text).value
    ensures r.Some? ==> var c := ParseTimeOfDay(text).value;
      && r.value == Midnight(r.value) + c.Offset()
      && Midnight(r.value) == if c.Offset() < now % DAY then Midnight(now) + DAY else Midnight(now)
  {
    match ParseTimeOfDay(text)
    case Some(c) =>
      var r := PlaceOnCalendar(c, now);
      ClockOfPlaced(Midnight(r), c);
      Some(r)
    case None => None
  }

  /** With exactly one colon the fields are the texts on either side of it. */
  lemma OneColon(hour: string, minute: string)
    requires ':' !in hour && ':' !in minute
    ensures ParseFields(hour + [':'] + minute) == Pair(ParseInt(hour), ParseInt(minute))
  {
    var text := hour + [':'] + minute;
    assert text[|hour|] == ':';
    SplitAtFirst(hour, ':', minute);
    SplitWithout(minute, ':');
    var fields := Split(text, ':');
    assert fields == [hour, minute];
  }

  /** Two or more colons never parse: the split gives too many fields. */
  lemma ManyColons(text: string)
    requires Count(text, ':') >= 2
    ensures ParseFields(text) == None
  {
    SplitPieces(text, ':');
    CountedIsPresent(text, ':');
  }

  lemma {:induction false} CountedIsPresent(s: string, c: char)
    requires Count(s, c) > 0
    ensures c in s
  {
    if s[0] != c {
      CountedIsPresent(s[1..], c);
    }
  }

  /**
   * `HH:MM` with two-digit fields, or `H:MM` with a one-digit hour (such as
   * `2:15`), gives those numbers.
   */
  lemma ColonDigits(hour: nat, minute: nat)
    requires hour < 100 && minute < 100
    ensures ParseFields(Pad2(hour) + [':'] + Pad2(minute)) == Some((hour, minute))
    ensures hour < 10 ==> ParseFields([Digit(hour)] + [':'] + Pad2(minute)) == Some((hour, minute))
  {
    OneColon(Pad2(hour), Pad2(minute));
    ParsePadded(hour);
    ParsePadded(minute);
    if hour < 10 {
      OneColon([Digit(hour)], Pad2(minute));
    }
  }

  /** Four digits without a colon: the first two are the hour, the last two the minute. */
  lemma FourDigits(hour: nat, minute: nat)
    requires hour < 100 && minute < 100
    ensures ParseFields(Pad2(hour) + Pad2(minute)) == Some((hour, minute))
  {
    var t := Pad2(hour) + Pad2(minute);
    assert t[..2] == Pad2(hour) && t[2..4] == Pad2(minute);
    assert ':' !in t by { assert forall i | 0 <= i < 4 :: IsDigit(t[i]); }
    ParsePadded(hour);
    ParsePadded(minute);
  }

  /** Three digits without a colon: the first is the hour, the other two the minute. */
  lemma ThreeDigits(hour: nat, minute: nat)
    requires hour < 10 && minute < 100
    ensures ParseFields([Digit(hour)] + Pad2(minute)) == Some((hour, minute))
  {
    var t := [Digit(hour)] + Pad2(minute);
    assert t[..1] == [Digit(hour)] && t[1..3] == Pad2(minute);
    assert ':' !in t by { assert forall i | 0 <= i < 3 :: IsDigit(t[i]); }
    ParsePadded(hour);
    ParsePadded(minute);
  }

  /** One or two digits without a colon: the whole text is the hour, on the hour. */
  lemma ShortDigits(hour: nat)
    requires hour < 100
    ensures hour < 10 ==> ParseFields([Digit(hour)]) == Some((hour, 0))
    ensures ParseFields(Pad2(hour)) == Some((hour, 0))
  {
    ParsePadded(hour);
    var t := Pad2(hour);
    assert ':' !in t by { assert forall i | 0 <= i < 2 :: IsDigit(t[i]); }
  }

  /** Without a colon, five or more characters never parse. */
  lemma TooLong(text: string)
    requires ':' !in text && |text| >= 5
    ensures ParseFields(text) == None
  {
  }

  /** What `strftime('%H:%M')` shows reads back as the same time of day. */
  lemma FormatParses(c: TimeOfDay)
    requires c.Valid()
    ensures ParseTimeOfDay(FormatHHMM(c)) == Some(c)
  {
    ColonDigits(c.hour, c.minute);
  }

  /**
   * PlaceOnCalendar is the only moment in [now, now + 1 day) on a minute
   * boundary that shows the given time of day.
   */
  lemma PlacedIsUnique(c: TimeOfDay, now: Instant, t: Instant)
    requires c.Valid()
    requires t == Midnight(t) + c.Offset()
    requires now <= t < now + DAY
    ensures t == PlaceOnCalendar(c, now)
  {
    var r := PlaceOnCalendar(c, now);
    var dt, dr := Midnight(t), Midnight(r);
    assert t - r == dt - dr;
    OffsetInDay(c);
    if dt < dr {
      MultiplesApart(dt, dr);
    } else if dr < dt {
      MultiplesApart(dr, dt);
    }
  }

  /** Two distinct midnights are at least a day apart. */
  lemma MultiplesApart(a: int, b: int)
    requires a % DAY == 0 && b % DAY == 0 && a < b
    ensures a + DAY <= b
  {
    assert a == (a / DAY) * DAY;
    assert b == (b / DAY) * DAY;
    assert a / DAY < b / DAY;
  }

  /** Worked example: "23:30" is 23:30. */
  lemma ColonExample()
    ensures ParseTimeOfDay("23:30") == Some(TimeOfDay(23, 30))
  {
    assert "23:30" == Pad2(23) + [':'] + Pad2(30);
    ColonDigits(23, 30);
  }

  /** Worked example: "2315" is 23:15. */
  lemma FourDigitExample()
    ensures ParseTimeOfDay("2315") == Some(TimeOfDay(23, 15))
  {
    assert "2315" == Pad2(23) + Pad2(15);
    FourDigits(23, 15);
  }

  /** Worked example: "130" is 01:30, not 13:00. */
  lemma ThreeDigitExample()
    ensures ParseTimeOfDay("130") == Some(TimeOfDay(1, 30))
  {
    assert "130" == [Digit(1)] + Pad2(30);
    ThreeDigits(1, 30);
  }

  /** Worked example: "7" is 07:00. */
  lemma OneDigitExample()
    ensures ParseTimeOfDay("7") == Some(TimeOfDay(7, 0))
  {
    assert "7" == [Digit(7)];
    ShortDigits(7);
  }

  /** Worked example: "2:15", with a one-digit hour, is 02:15. */
  lemma ShortHourExample()
    ensures ParseTimeOfDay("2:15") == Some(TimeOfDay(2, 15))
  {
    assert "2:15" == [Digit(2)] + [':'] + Pad2(15);
    ColonDigits(2, 15);
  }

  /** Worked example: "7" followed by a no-break space is stripped to "7", which is 07:00. */
  lemma NoBreakSpaceExample()
    ensures ParseTimeOfDay(Strip("7\U{A0}")) == Some(TimeOfDay(7, 0))
  {
    assert "7\U{A0}" == "7" + ['\U{A0}'];
    StripTrailing("7", '\U{A0}');
    OneDigitExample();
  }

  /**
   * Worked example: "23:" followed by U+001C and "30" is rejected, because
   * `int()` does not skip that separator although `strip()` would.
   */
  lemma InfoSeparatorExample()
    ensures ParseTimeOfDay("23:\U{1C}30") == None
  {
    var minute := "\U{1C}30";
    assert "23:\U{1C}30" == "23" + [':'] + minute;
    OneColon("23", minute);
    InfoSeparatorRejected(minute, 0);
  }

  /** Worked example: "25:00" has the right shape but its hour is out of range. */
  lemma HourOutOfRangeExample()
    ensures ParseTimeOfDay("25:00") == None
  {
    assert "25:00" == Pad2(25) + [':'] + Pad2(0);
    ColonDigits(25, 0);
  }

  /** Worked example: "12:60" has the right shape but its minute is out of range. */
  lemma MinuteOutOfRangeExample()
    ensures ParseTimeOfDay("12:60") == None
  {
    assert "12:60" == Pad2(12) + [':'] + Pad2(60);
    ColonDigits(12, 60);
  }

  /** Worked examples: five characters, or two colons, never parse. */
  lemma ShapeExamples()
    ensures ParseTimeOfDay("99999") == None
    ensures ParseTimeOfDay("1:2:3") == None
  {
    assert Count("1:2:3", ':') == 2;
    ManyColons("1:2:3");
  }
}
