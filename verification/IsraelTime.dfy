/** The wall-clock field on real calendar text: the printer and parser of the calendar satisfy the laws the
    inversion needs, so `israelInput` and `israelInstant` undo each other. */
module IsraelTime {
  import opened Wrappers
  import opened Digits
  import opened Calendar
  import opened WallClock

  // ---------- printing and parsing undo each other ----------

  lemma {:induction false} DecimalLength(n: nat)
    ensures |Decimal(n)| == 4 <==> 1000 <= n <= 9999
  {
    var a, b, c := n / 10, n / 10 / 10, n / 10 / 10 / 10;
    assert Decimal(n) == if n < 10 then [DigitChar(n)] else Decimal(a) + [DigitChar(n % 10)];
    assert n >= 10 ==> Decimal(a) == if a < 10 then [DigitChar(a)] else Decimal(b) + [DigitChar(a % 10)];
    assert a >= 10 ==> Decimal(b) == if b < 10 then [DigitChar(b)] else Decimal(c) + [DigitChar(b % 10)];
    DecimalNonEmpty(c);
    if c >= 10 { DecimalNonEmpty(c / 10); }
  }

  lemma DecimalNonEmpty(n: nat)
    ensures |Decimal(n)| >= 1
  {
  }

  lemma PrintedShape(c: Civil)
    requires ValidCivil(c) && 1000 <= c.year <= 9999
    ensures Shaped(Print(c)) && Fields(Print(c)) == c
  {
    FourDigits(c.year);
  }

  function FirstMs(y: int): int { DayFromYear(y) * DAY_MINUTES * MINUTE }

  function YearAt(local: int): int { YearOf(local / MINUTE / DAY_MINUTES) }

  lemma YearAtLeast(local: int, a: int)
    ensures FirstMs(a) <= local <==> a <= YearAt(local)
  {
    var day := local / MINUTE / DAY_MINUTES;
    assert FirstMs(a) <= local <==> DayFromYear(a) <= day;
    var y := YearAt(local);
    if y < a {
      if y + 1 < a { YearsIncrease(y + 1, a); }
    } else if a < y {
      YearsIncrease(a, y);
    }
  }

  /** Parsing the printed wall text of a four-digit year gives the minute back. */
  lemma ParsePrinted(rollover: bool, local: int)
    requires 1000 <= YearAt(local) <= 9999
    ensures Shaped(WallText(local))
    ensures Parse(rollover, WallText(local)) == Some(local / MINUTE * MINUTE)
  {
    FieldsThenMinutes(local / MINUTE);
    PrintedShape(CivilOf(local / MINUTE));
  }

  lemma PairOfDigits(v: string, i: nat)
    requires i + 1 < |v| && IsDigit(v[i]) && IsDigit(v[i + 1])
    ensures 0 <= Two(v, i) < 100 && Pad2(Two(v, i)) == [v[i], v[i + 1]]
  {
  }

  lemma ShapedAt(v: string, i: nat)
    requires Shaped(v) && i < 16
    ensures FitsAt(i, v[i])
  {
  }

  lemma DatePairs(v: string)
    requires Shaped(v)
    ensures var c := Fields(v);
            && c.year / 100 == Two(v, 0) && c.year % 100 == Two(v, 2)
            && 0 <= Two(v, 0) < 100 && Pad2(Two(v, 0)) == [v[0], v[1]]
            && 0 <= Two(v, 2) < 100 && Pad2(Two(v, 2)) == [v[2], v[3]]
            && 0 <= c.month < 100 && Pad2(c.month) == [v[5], v[6]]
  {
    ShapedAt(v, 0); ShapedAt(v, 1); ShapedAt(v, 2); ShapedAt(v, 3); ShapedAt(v, 5); ShapedAt(v, 6);
    PairOfDigits(v, 0); PairOfDigits(v, 2); PairOfDigits(v, 5);
  }

  lemma TimePairs(v: string)
    requires Shaped(v)
    ensures var c := Fields(v);
            && 0 <= c.day < 100 && Pad2(c.day) == [v[8], v[9]]
            && 0 <= c.hour < 100 && Pad2(c.hour) == [v[11], v[12]]
            && 0 <= c.minute < 100 && Pad2(c.minute) == [v[14], v[15]]
  {
    ShapedAt(v, 8); ShapedAt(v, 9); ShapedAt(v, 11); ShapedAt(v, 12); ShapedAt(v, 14); ShapedAt(v, 15);
    PairOfDigits(v, 8); PairOfDigits(v, 11); PairOfDigits(v, 14);
  }

  lemma Reassembled(v: string)
    requires |v| == 16 && v[4] == '-' && v[7] == '-' && v[10] == 'T' && v[13] == ':'
    ensures v == [v[0], v[1]] + [v[2], v[3]] + "-" + [v[5], v[6]] + "-" + [v[8], v[9]] + "T" + [v[11], v[12]] + ":" + [v[14], v[15]]
  {
  }

  lemma PrintOfFields(v: string)
    requires Shaped(v) && ValidCivil(Fields(v)) && Fields(v).year >= 1000
    ensures Print(Fields(v)) == v
  {
    DatePairs(v);
    TimePairs(v);
    FourDigits(Fields(v).year);
    ShapedAt(v, 4); ShapedAt(v, 7); ShapedAt(v, 10); ShapedAt(v, 13);
    Reassembled(v);
  }

  lemma WallTextOf(c: Civil, minutes: int)
    requires ValidCivil(c) && CivilOf(minutes) == c
    ensures WallText(minutes * MINUTE) == Print(c)
  {
    assert minutes * MINUTE / MINUTE == minutes;
  }

  /** Printing a parsed text gives the text back: the parser takes no two texts for one minute. */
  lemma PrintParsed(v: string)
    requires Parse(false, v).Some? && Fields(v).year >= 1000 && Fields(v).hour < 24
    ensures WallText(Parse(false, v).value) == v
  {
    MinutesThenFields(Fields(v));
    WallTextOf(Fields(v), MinutesOf(Fields(v)));
    PrintOfFields(v);
  }

  /** Around and after year 1, only four-digit years print as sixteen characters. */
  lemma OnlyFourDigitYearsAreShaped(local: int)
    requires YearAt(local) >= -998
    ensures Shaped(WallText(local)) <==> 1000 <= YearAt(local) <= 9999
  {
    FieldsThenMinutes(local / MINUTE);
    var c := CivilOf(local / MINUTE);
    DecimalLength(if c.year >= 1 then c.year else 1 - c.year);
    if 1000 <= c.year <= 9999 {
      PrintedShape(c);
    }
  }

  /** A parsed text lies within the year it names. */
  lemma WallWithinItsYear(rollover: bool, v: string)
    requires Parse(rollover, v).Some?
    ensures Fields(v).year >= 0
    ensures FirstMs(Fields(v).year) <= Parse(rollover, v).value <= FirstMs(Fields(v).year + 1)
  {
    var c := Fields(v);
    MonthsIncrease(c.year, 1, c.month);
    YearLength(c.year);
    DayFitsMonth(c.year, c.month, c.day);
  }

  lemma DayFitsMonth(y: int, m: int, d: int)
    requires 1 <= m <= 12 && 1 <= d <= 31
    ensures MonthStart(y, m) + d <= YearDays(y)
  {
    YearIsTwelveMonths(y);
    if m < 12 {
      assert MonthStart(y, 12) + 31 == MonthStart(y, 13);
      if m == 11 {
        assert MonthStart(y, 12) == MonthStart(y, 11) + 30;
      } else {
        MonthsIncrease(y, m + 2, 13);
        assert MonthStart(y, m + 2) == MonthStart(y, m) + MonthLength(y, m) + MonthLength(y, m + 1);
      }
    }
  }


  // ---------- the calendar as a codec ----------

  function CalendarCodec(rollover: bool): Codec {
    Codec(WallText, text => Parse(rollover, text))
  }

  lemma ParsedIsMinutes(rollover: bool, v: string)
    requires Parse(rollover, v).Some?
    ensures Parse(rollover, v).value % MINUTE == 0 && Parse(rollover, v).value >= YEAR_ZERO
  {
    WallWithinItsYear(rollover, v);
    if Fields(v).year > 0 {
      YearsIncrease(0, Fields(v).year);
    }
  }

  lemma PrintedIsUndone(rollover: bool, local: int)
    requires local % MINUTE == 0 && local > YEAR_ZERO - DAY
    requires Parse(rollover, WallText(local)).Some?
    ensures Parse(rollover, WallText(local)) == Some(local) && local >= YEAR_ONE
  {
    ReadableIsFourDigits(rollover, local);
    MinuteParses(rollover, local);
  }

  lemma CalendarIsLawful(rollover: bool)
    ensures Lawful(CalendarCodec(rollover))
  {
    var codec := CalendarCodec(rollover);
    forall v: string | codec.parse(v).Some?
      ensures codec.parse(v).value % MINUTE == 0 && codec.parse(v).value >= YEAR_ZERO
    {
      ParsedIsMinutes(rollover, v);
    }
    forall local: int | local % MINUTE == 0 && local > YEAR_ZERO - DAY
      ensures UndoesPrinting(codec, local)
    {
      if codec.parse(codec.print_(local)).Some? {
        PrintedIsUndone(rollover, local);
      }
    }
  }

  /** From the first millisecond of year 1000 up to that of year 10000. */
  predicate FourDigitYear(local: int) { FirstMs(1000) <= local < FirstMs(10000) }

  lemma FourDigitsAreFourDigits(local: int)
    ensures FourDigitYear(local) <==> 1000 <= YearAt(local) <= 9999
  {
    YearAtLeast(local, 1000);
    YearAtLeast(local, 10000);
  }

  /** The corrections leave the four-digit years: the wall time read as an instant, or the first corrected guess, has a
      wall text whose year has another number of digits. */
  predicate RunsOut(z: Zone, wall: int) {
    Leaves(z, wall, FirstMs(1000), FirstMs(10000))
  }

  lemma ReadableIsFourDigits(rollover: bool, local: int)
    requires local > YEAR_ZERO - DAY
    ensures Parse(rollover, WallText(local)).Some? <==> FourDigitYear(local)
  {
    YearsIncrease(-1, 0);
    YearAtLeast(local, -1);
    FourDigitsAreFourDigits(local);
    OnlyFourDigitYearsAreShaped(local);
    if FourDigitYear(local) {
      ParsePrinted(rollover, local);
    }
  }

  lemma CalendarReadsExactly(rollover: bool)
    ensures ReadsExactly(CalendarCodec(rollover), FirstMs(1000), FirstMs(10000))
  {
    forall local: int | local > YEAR_ZERO - DAY
      ensures CalendarCodec(rollover).parse(CalendarCodec(rollover).print_(local)).Some? <==> FourDigitYear(local)
    {
      ReadableIsFourDigits(rollover, local);
    }
  }

  lemma CalendarRoundsParse(rollover: bool, z: Zone, lo: int, wall: int)
    requires TwoValued(z, lo) && wall >= YEAR_ZERO
    ensures RoundsParse(CalendarCodec(rollover), z, wall) <==> !RunsOut(z, wall)
  {
    CalendarReadsExactly(rollover);
    LeavingIsExact(CalendarCodec(rollover), z, lo, wall, FirstMs(1000), FirstMs(10000));
  }

  lemma CodecParse(rollover: bool, v: string)
    requires Parse(rollover, v).Some?
    ensures CalendarCodec(rollover).parse(v) == Parse(rollover, v) && Parse(rollover, v).value >= YEAR_ZERO
  {
    ParsedIsMinutes(rollover, v);
  }

  /** For every text that parses and every two-valued zone: the range error comes exactly when the corrections leave the
      four-digit years. */
  lemma FailsExactlyWhenRunningOut(rollover: bool, z: Zone, lo: int, v: string)
    requires TwoValued(z, lo) && Parse(rollover, v).Some?
    ensures Inverse(CalendarCodec(rollover), z, v) == RangeFailure <==> RunsOut(z, Parse(rollover, v).value)
  {
    CodecParse(rollover, v);
    CalendarIsLawful(rollover);
    RangeFailureIsExact(CalendarCodec(rollover), z, lo, v);
    CalendarRoundsParse(rollover, z, lo, Parse(rollover, v).value);
  }

  /** So every text of the years 0 to 998 that parses ends in the range error, and none of the years 1001 to 9998. */
  lemma YearsThatRunOut(rollover: bool, z: Zone, lo: int, v: string)
    requires TwoValued(z, lo) && Parse(rollover, v).Some?
    ensures Fields(v).year <= 998 ==> Inverse(CalendarCodec(rollover), z, v) == RangeFailure
    ensures 1001 <= Fields(v).year <= 9998 ==> Inverse(CalendarCodec(rollover), z, v) != RangeFailure
  {
    WallWithinItsYear(rollover, v);
    NamedYearRunsOut(rollover, z, lo, v, Fields(v).year, Parse(rollover, v));
  }

  lemma NamedYearRunsOut(rollover: bool, z: Zone, lo: int, v: string, y: int, wall: Option<int>)
    requires TwoValued(z, lo) && wall.Some? && wall == Parse(rollover, v)
    requires FirstMs(y) <= wall.value <= FirstMs(y + 1)
    ensures y <= 998 ==> Inverse(CalendarCodec(rollover), z, v) == RangeFailure
    ensures 1001 <= y <= 9998 ==> Inverse(CalendarCodec(rollover), z, v) != RangeFailure
  {
    FailsExactlyWhenRunningOut(rollover, z, lo, v);
    YearRunsOut(z, lo, y, wall.value);
  }

  lemma YearRunsOut(z: Zone, lo: int, y: int, wall: int)
    requires TwoValued(z, lo) && FirstMs(y) <= wall <= FirstMs(y + 1)
    ensures y <= 998 ==> RunsOut(z, wall)
    ensures 1001 <= y <= 9998 ==> !RunsOut(z, wall)
  {
    YearWindow(y);
    LeavingFromAfar(z, lo, wall, FirstMs(1000), FirstMs(10000));
  }

  /** At the other end, where standard time is ahead of UTC by `lo`, every text of the last `lo` milliseconds of 9999
      ends in the range error. */
  lemma LastHoursRunOut(rollover: bool, z: Zone, lo: int, v: string)
    requires TwoValued(z, lo) && Parse(rollover, v).Some? && Parse(rollover, v).value + lo >= FirstMs(10000)
    ensures Inverse(CalendarCodec(rollover), z, v) == RangeFailure
  {
    FailsExactlyWhenRunningOut(rollover, z, lo, v);
    LeavingFromAfar(z, lo, Parse(rollover, v).value, FirstMs(1000), FirstMs(10000));
  }

  /** A day before or after the times of a year, the years keep their number of digits away from the ends. */
  lemma YearWindow(y: int)
    ensures y <= 998 ==> FirstMs(y + 1) + DAY <= FirstMs(1000)
    ensures 1001 <= y <= 9998 ==> FirstMs(1000) + DAY <= FirstMs(y) && FirstMs(y + 1) + DAY <= FirstMs(10000)
  {
    if y <= 998 {
      YearsIncrease(y + 1, 1000);
    } else if 1001 <= y <= 9998 {
      YearsIncrease(1000, y);
      YearsIncrease(y + 1, 10000);
    }
  }

  /** For every text that parses: the parser returns `t` exactly when the corrections stay within the four-digit years
      and `t` is the only whole minute with that wall text. */
  lemma InstantExactlyWhenUnique(rollover: bool, z: Zone, lo: int, v: string, t: int)
    requires TwoValued(z, lo) && Parse(rollover, v).Some?
    ensures Inverse(CalendarCodec(rollover), z, v) == Instant(t) <==>
            !RunsOut(z, Parse(rollover, v).value) && OnlySolution(CalendarCodec(rollover), z, v, t)
  {
    CodecParse(rollover, v);
    CalendarIsLawful(rollover);
    InverseIsExact(CalendarCodec(rollover), z, lo, v, t);
    CalendarRoundsParse(rollover, z, lo, Parse(rollover, v).value);
  }

  ghost predicate NoSolution(codec: Codec, z: Zone, v: string) {
    forall u: int :: !Solves(codec, z, v, u)
  }

  ghost predicate TwoSolutions(codec: Codec, z: Zone, v: string) {
    exists u: int :: Solves(codec, z, v, u) && Solves(codec, z, v, u + HOUR)
  }

  /** A second solution lies exactly one hour from the first. */
  lemma SecondSolution(codec: Codec, z: Zone, lo: int, v: string, u: int)
    requires Lawful(codec) && TwoValued(z, lo) && codec.parse(v).Some?
    requires Solves(codec, z, v, u) && !OnlySolution(codec, z, v, u)
    ensures TwoSolutions(codec, z, v)
  {
    var other: int :| Solves(codec, z, v, other) && other != u;
    SolutionsAreTwo(codec, z, lo, v, u);
    SolutionsAreTwo(codec, z, lo, v, other);
    var first := if u < other then u else other;
    assert Solves(codec, z, v, first) && Solves(codec, z, v, first + HOUR);
  }

  /** The parser refuses a text that parses exactly when the corrections stay within the four-digit years and no minute
      has the text, or two minutes an hour apart have it. */
  lemma RefusedExactlyWhenZeroOrTwo(rollover: bool, z: Zone, lo: int, v: string)
    requires TwoValued(z, lo) && Parse(rollover, v).Some?
    ensures Inverse(CalendarCodec(rollover), z, v) == InvalidAppointmentTime <==>
            && !RunsOut(z, Parse(rollover, v).value)
            && (NoSolution(CalendarCodec(rollover), z, v) || TwoSolutions(CalendarCodec(rollover), z, v))
  {
    CalendarIsLawful(rollover);
    FailsExactlyWhenRunningOut(rollover, z, lo, v);
    assert CalendarCodec(rollover).parse(v).Some?;
    if !RunsOut(z, Parse(rollover, v).value) {
      RefusedWhenNotUnique(CalendarCodec(rollover), z, lo, v);
    }
  }

  lemma RefusedWhenNotUnique(codec: Codec, z: Zone, lo: int, v: string)
    requires Lawful(codec) && TwoValued(z, lo)
    requires codec.parse(v).Some? && Inverse(codec, z, v) != RangeFailure
    ensures Inverse(codec, z, v) == InvalidAppointmentTime <==> NoSolution(codec, z, v) || TwoSolutions(codec, z, v)
  {
    var r := Inverse(codec, z, v);
    if r.Instant? {
      ReadableInverse(codec, z, lo, v, r.t);
    } else if !NoSolution(codec, z, v) {
      var u: int :| Solves(codec, z, v, u);
      ReadableInverse(codec, z, lo, v, u);
      SecondSolution(codec, z, lo, v, u);
    }
  }

  /** Whatever the text, an instant that is returned prints back as exactly that text. */
  lemma PrintAfterInverse(codec: Codec, z: Zone, v: string)
    requires Inverse(codec, z, v).Instant?
    ensures IsraelInput(codec, z, Inverse(codec, z, v).t) == v
  {
    var g := Rounds(codec, z, codec.parse(v).value, 2).value;
    MatchingThree(codec, z, v, g - HOUR, g, g + HOUR);
  }

  /** `t` is the only whole minute of the common era printed as its wall text. */
  ghost predicate Unambiguous(codec: Codec, z: Zone, t: int) {
    forall u: int :: u % MINUTE == 0 && Local(z, u) >= YEAR_ONE && u != t ==>
      IsraelInput(codec, z, u) != IsraelInput(codec, z, t)
  }

  lemma UnambiguousIsOnly(codec: Codec, z: Zone, t: int)
    requires t % MINUTE == 0 && Local(z, t) >= YEAR_ONE
    ensures Unambiguous(codec, z, t) <==> OnlySolution(codec, z, IsraelInput(codec, z, t), t)
  {
    var v := IsraelInput(codec, z, t);
    if !Unambiguous(codec, z, t) {
      var u: int :| u % MINUTE == 0 && Local(z, u) >= YEAR_ONE && u != t && IsraelInput(codec, z, u) == v;
      assert Solves(codec, z, v, u);
    }
  }

  /** For every whole minute: printing it and inverting the text gives it back exactly when its wall time lies in a
      four-digit year, the corrections do not leave those years, and no other minute prints the same. */
  lemma InverseAfterPrint(rollover: bool, z: Zone, lo: int, t: int)
    requires TwoValued(z, lo) && t % MINUTE == 0
    ensures Inverse(CalendarCodec(rollover), z, IsraelInput(CalendarCodec(rollover), z, t)) == Instant(t) <==>
            FourDigitYear(Local(z, t)) && !RunsOut(z, Local(z, t)) && Unambiguous(CalendarCodec(rollover), z, t)
  {
    if FourDigitYear(Local(z, t)) {
      FourDigitsComeBack(rollover, z, lo, t);
    } else {
      OtherYearsNeverComeBack(rollover, z, lo, t);
    }
  }

  lemma LocalIsMinutes(z: Zone, lo: int, t: int)
    requires TwoValued(z, lo) && t % MINUTE == 0
    ensures Local(z, t) % MINUTE == 0
  {
    assert z(t) == lo || z(t) == lo + HOUR;
  }

  lemma MinuteParses(rollover: bool, local: int)
    requires local % MINUTE == 0 && FourDigitYear(local)
    ensures Parse(rollover, WallText(local)) == Some(local)
  {
    FourDigitsAreFourDigits(local);
    ParsePrinted(rollover, local);
  }

  lemma PrintedParses(rollover: bool, z: Zone, lo: int, t: int)
    requires TwoValued(z, lo) && t % MINUTE == 0 && FourDigitYear(Local(z, t))
    ensures Parse(rollover, IsraelInput(CalendarCodec(rollover), z, t)) == Some(Local(z, t)) && Local(z, t) >= YEAR_ONE
  {
    LocalIsMinutes(z, lo, t);
    MinuteParses(rollover, Local(z, t));
  }

  lemma FourDigitsComeBack(rollover: bool, z: Zone, lo: int, t: int)
    requires TwoValued(z, lo) && t % MINUTE == 0 && FourDigitYear(Local(z, t))
    ensures Inverse(CalendarCodec(rollover), z, IsraelInput(CalendarCodec(rollover), z, t)) == Instant(t) <==>
            !RunsOut(z, Local(z, t)) && Unambiguous(CalendarCodec(rollover), z, t)
  {
    PrintedParses(rollover, z, lo, t);
    UnambiguousIsOnly(CalendarCodec(rollover), z, t);
    InstantExactlyWhenUnique(rollover, z, lo, IsraelInput(CalendarCodec(rollover), z, t), t);
  }

  /** A minute outside the four-digit years, of any era, is never what the parser makes of its text. */
  lemma OtherYearsNeverComeBack(rollover: bool, z: Zone, lo: int, t: int)
    requires TwoValued(z, lo) && !FourDigitYear(Local(z, t))
    ensures Inverse(CalendarCodec(rollover), z, IsraelInput(CalendarCodec(rollover), z, t)) != Instant(t)
  {
    var v := IsraelInput(CalendarCodec(rollover), z, t);
    if Parse(rollover, v).None? {
      assert CalendarCodec(rollover).parse(v).None?;
    } else {
      InstantExactlyWhenUnique(rollover, z, lo, v, t);
      if Local(z, t) >= YEAR_ONE {
        ReadableIsFourDigits(rollover, Local(z, t));
      }
    }
  }

  /** Wall text of the years 1 to 999, and of those from 10000 on, is refused, however many minutes it stands for. */
  lemma OtherYearsAreRefused(rollover: bool, z: Zone, t: int)
    requires Local(z, t) >= YEAR_ONE && !FourDigitYear(Local(z, t))
    ensures Inverse(CalendarCodec(rollover), z, IsraelInput(CalendarCodec(rollover), z, t)) == InvalidAppointmentTime
  {
    ReadableIsFourDigits(rollover, Local(z, t));
  }

  /** A well-shaped text that names no civil time stands for no instant, so refusing it is exact as well. */
  lemma MalformedTextHasNoInstant(rollover: bool, z: Zone, v: string, t: int)
    requires Shaped(v) && Parse(rollover, v).None?
    ensures Inverse(CalendarCodec(rollover), z, v) == InvalidAppointmentTime
    ensures !Solves(CalendarCodec(rollover), z, v, t)
  {
    if Solves(CalendarCodec(rollover), z, v, t) {
      YearAtLeast(Local(z, t), 1);
      OnlyFourDigitYearsAreShaped(Local(z, t));
      ParsePrinted(rollover, Local(z, t));
    }
  }
}
