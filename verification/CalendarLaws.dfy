/** The calendar tied to the world: where it starts, how one day follows another, and what its text looks like. Month
    lengths, the leap rule and all units are written out here, whatever the calendar computes them from. */
module CalendarLaws {
  import opened Wrappers
  import opened Digits
  import opened Calendar

  lemma CivilIs(minutes: int, c: Civil)
    requires ValidCivil(c) && MinutesOf(c) == minutes
    ensures CivilOf(minutes) == c
  {
    MinutesThenFields(c);
  }

  lemma FirstMinute()
    ensures MinutesOf(Civil(1970, 1, 1, 0, 0)) == 0
  {
    assert DayFromYear(1970) == 0 && MonthStart(1970, 1) == 0;
  }

  lemma FirstDigits()
    ensures Decimal(1970) == "1970" && Pad2(1) == "01" && Pad2(0) == "00"
  {
    FourDigits(1970);
    assert Pad2(1970 / 100) == "19" && Pad2(1970 % 100) == "70";
  }

  lemma FirstText()
    ensures ValidCivil(Civil(1970, 1, 1, 0, 0)) && Print(Civil(1970, 1, 1, 0, 0)) == "1970-01-01T00:00"
  {
    FirstDigits();
    assert Print(Civil(1970, 1, 1, 0, 0)) == "1970" + "-" + "01" + "-" + "01" + "T" + "00" + ":" + "00";
  }

  /** Minute 0 is the start of 1970. */
  lemma Epoch()
    ensures CivilOf(0) == Civil(1970, 1, 1, 0, 0) && MinutesOf(Civil(1970, 1, 1, 0, 0)) == 0
    ensures WallText(0) == "1970-01-01T00:00"
  {
    FirstMinute();
    FirstText();
    CivilIs(0, Civil(1970, 1, 1, 0, 0));
  }

  lemma DayFollowsDay(c: Civil, d: Civil)
    requires ValidCivil(c) && ValidCivil(d) && d.hour == c.hour && d.minute == c.minute
    requires DayNumber(d) == DayNumber(c) + 1
    ensures MinutesOf(d) == MinutesOf(c) + 1440
  {
  }

  lemma FirstOfNextYear(y: int)
    ensures DayNumber(Civil(y + 1, 1, 1, 0, 0)) == DayNumber(Civil(y, 12, 31, 0, 0)) + 1
  {
    YearLength(y);
    YearIsTwelveMonths(y);
    assert MonthStart(y, 13) == MonthStart(y, 12) + 31;
  }

  function NextCivil(c: Civil): Civil {
    if c.day < MonthLength(c.year, c.month) then c.(day := c.day + 1)
    else if c.month < 12 then c.(month := c.month + 1, day := 1)
    else c.(year := c.year + 1, month := 1, day := 1)
  }

  lemma NextCivilFollows(c: Civil)
    requires ValidCivil(c)
    ensures ValidCivil(NextCivil(c)) && MinutesOf(NextCivil(c)) == MinutesOf(c) + 1440
  {
    if c.day == MonthLength(c.year, c.month) && c.month == 12 {
      FirstOfNextYear(c.year);
    }
    DayFollowsDay(c, NextCivil(c));
  }

  lemma NextMinutes(c: Civil, minutes: int)
    requires ValidCivil(c) && MinutesOf(c) == minutes
    ensures CivilOf(minutes + 1440) == NextCivil(c)
  {
    NextCivilFollows(c);
    CivilIs(minutes + 1440, NextCivil(c));
  }

  lemma NextCivilIs(c: Civil)
    ensures var leap := c.year % 4 == 0 && (c.year % 100 != 0 || c.year % 400 == 0);
            var last := if c.month == 2 then (if leap then 29 else 28)
                        else if c.month == 4 || c.month == 6 || c.month == 9 || c.month == 11 then 30 else 31;
            NextCivil(c) ==
              if c.day < last then c.(day := c.day + 1)
              else if c.month < 12 then c.(month := c.month + 1, day := 1)
              else c.(year := c.year + 1, month := 1, day := 1)
  {
  }

  lemma FieldsOf(minutes: int) returns (c: Civil)
    ensures c == CivilOf(minutes) && ValidCivil(c) && MinutesOf(c) == minutes
  {
    FieldsThenMinutes(minutes);
    c := CivilOf(minutes);
  }

  /** 1440 minutes after any civil time, of any year, comes the same time of the civil day after it. */
  lemma NextDay(minutes: int) returns (c: Civil, d: Civil)
    ensures c == CivilOf(minutes) && d == CivilOf(minutes + 1440)
    ensures var leap := c.year % 4 == 0 && (c.year % 100 != 0 || c.year % 400 == 0);
            var last := if c.month == 2 then (if leap then 29 else 28)
                        else if c.month == 4 || c.month == 6 || c.month == 9 || c.month == 11 then 30 else 31;
            d == if c.day < last then c.(day := c.day + 1)
                 else if c.month < 12 then c.(month := c.month + 1, day := 1)
                 else c.(year := c.year + 1, month := 1, day := 1)
  {
    c := FieldsOf(minutes);
    NextMinutes(c, minutes);
    NextCivilIs(c);
    d := NextCivil(c);
  }

  lemma TimeIn(minutes: int, day: int, hour: int, minute: int)
    requires minutes == day * 1440 + (hour * 60 + minute) && 0 <= hour < 24 && 0 <= minute < 60
    ensures hour == minutes % 1440 / 60 && minute == minutes % 60
  {
    SplitDay(day, hour * 60 + minute);
    assert minutes == (day * 24 + hour) * 60 + minute;
  }

  /** The hour and the minute are those of the day, whatever the day. */
  lemma TimeOfDay(minutes: int) returns (c: Civil)
    ensures c == CivilOf(minutes) && c.hour == minutes % 1440 / 60 && c.minute == minutes % 60
  {
    c := FieldsOf(minutes);
    TimeIn(minutes, DayNumber(c), c.hour, c.minute);
  }

  // ---------- the text ----------

  function DigitAt(text: string, i: nat): int
    requires i < |text|
  {
    text[i] as int - 48
  }

  function PairAt(text: string, i: nat): int
    requires i + 1 < |text|
  {
    10 * DigitAt(text, i) + DigitAt(text, i + 1)
  }

  /** Year, month, day, hour and minute stand in the text as zero-padded decimal digits, separated as in
      `YYYY-MM-DDTHH:MM`. */
  lemma PrintedDigits(c: Civil)
    requires ValidCivil(c) && 1000 <= c.year <= 9999
    ensures var text := Print(c);
            && |text| == 16 && text[4] == '-' && text[7] == '-' && text[10] == 'T' && text[13] == ':'
            && 100 * PairAt(text, 0) + PairAt(text, 2) == c.year
            && PairAt(text, 5) == c.month && PairAt(text, 8) == c.day
            && PairAt(text, 11) == c.hour && PairAt(text, 14) == c.minute
            && forall i :: 0 <= i < 16 && i != 4 && i != 7 && i != 10 && i != 13 ==> 0 <= DigitAt(text, i) <= 9
  {
    FourDigits(c.year);
  }

  /** A minute has sixty thousand milliseconds, and its wall text is that of its civil time to the last of them. */
  lemma WallTextOfMinute(local: int)
    ensures ValidCivil(CivilOf(local / 60000)) && WallText(local) == Print(CivilOf(local / 60000))
  {
    FieldsThenMinutes(local / 60000);
  }

  /** Text parses exactly if it has that shape and names a month, a day of it, and a time up to 24:00; an engine that
      rolls over takes any day up to 31. */
  lemma ParsesExactly(rollover: bool, text: string)
    ensures Parse(rollover, text).Some? <==>
            && |text| == 16 && text[4] == '-' && text[7] == '-' && text[10] == 'T' && text[13] == ':'
            && (forall i :: 0 <= i < 16 && i != 4 && i != 7 && i != 10 && i != 13 ==> 0 <= DigitAt(text, i) <= 9)
            && var year, month, day := 100 * PairAt(text, 0) + PairAt(text, 2), PairAt(text, 5), PairAt(text, 8);
               var hour, minute := PairAt(text, 11), PairAt(text, 14);
               var leap := year % 4 == 0 && (year % 100 != 0 || year % 400 == 0);
               && 1 <= month <= 12 && 1 <= day <= 31
               && (rollover || (month == 2 ==> day <= if leap then 29 else 28))
               && (rollover || (month == 4 || month == 6 || month == 9 || month == 11 ==> day <= 30))
               && minute <= 59 && (hour <= 23 || (hour == 24 && minute == 0))
  {
    if |text| == 16 {
      forall i | 0 <= i < 16 ensures IsDigit(text[i]) <==> 0 <= DigitAt(text, i) <= 9 {
      }
      ShapeIsDigits(text);
    }
  }

  lemma ShapeIsDigits(text: string)
    requires |text| == 16
    ensures Shaped(text) <==>
            && text[4] == '-' && text[7] == '-' && text[10] == 'T' && text[13] == ':'
            && forall i :: 0 <= i < 16 && i != 4 && i != 7 && i != 10 && i != 13 ==> 0 <= DigitAt(text, i) <= 9
  {
    assert Shaped(text) ==> FitsAt(4, text[4]) && FitsAt(7, text[7]) && FitsAt(10, text[10]) && FitsAt(13, text[13]);
    forall i | 0 <= i < 16 && i != 4 && i != 7 && i != 10 && i != 13
      ensures FitsAt(i, text[i]) <==> 0 <= DigitAt(text, i) <= 9
    {
    }
  }

  /** Days, hours and minutes count on from the first of the month, past its end and past midnight if the text does. */
  lemma ParsedValue(rollover: bool, text: string)
    requires Parse(rollover, text).Some?
    ensures |text| == 16 && 1 <= PairAt(text, 5) <= 12
    ensures Parse(rollover, text).value ==
            60000 * MinutesOf(Civil(100 * PairAt(text, 0) + PairAt(text, 2), PairAt(text, 5), 1, 0, 0))
            + 86400000 * (PairAt(text, 8) - 1) + 3600000 * PairAt(text, 11) + 60000 * PairAt(text, 14)
  {
  }
}
