/** Civil dates and times on the proleptic Gregorian calendar, counted in minutes from 1970-01-01T00:00
    (section 21.4.1 of ECMA-262), with the sixteen-character text form used by date-time inputs. */
module Calendar {
  import opened Digits
  import opened Wrappers

  const MINUTE := 60000
  const HOUR := 3600000
  const DAY := 86400000
  const DAY_MINUTES := 1440

  // ---------- years ----------

  /** The day number of the first day of year `y`. */
  function DayFromYear(y: int): int {
    365 * (y - 1970) + (y - 1969) / 4 - (y - 1901) / 100 + (y - 1601) / 400
  }

  predicate Leap(y: int) {
    y % 4 == 0 && (y % 100 != 0 || y % 400 == 0)
  }

  lemma FourYearStep(y: int)
    ensures (y - 1968) / 4 == (y - 1969) / 4 + if y % 4 == 0 then 1 else 0
  {
  }

  lemma HundredYearStep(y: int)
    ensures (y - 1900) / 100 == (y - 1901) / 100 + if y % 100 == 0 then 1 else 0
  {
  }

  lemma FourHundredYearStep(y: int)
    ensures (y - 1600) / 400 == (y - 1601) / 400 + if y % 400 == 0 then 1 else 0
    ensures y % 400 == 0 ==> y % 100 == 0
    ensures y % 100 == 0 ==> y % 4 == 0
  {
  }

  function YearDays(y: int): int { if Leap(y) then 366 else 365 }

  lemma YearLength(y: int)
    ensures DayFromYear(y + 1) == DayFromYear(y) + YearDays(y)
  {
    FourYearStep(y);
    HundredYearStep(y);
    FourHundredYearStep(y);
  }

  lemma {:induction false} YearsIncrease(a: int, b: int)
    requires a < b
    ensures DayFromYear(a) + 365 <= DayFromYear(b)
    decreases b - a
  {
    YearLength(b - 1);
    if a < b - 1 {
      YearsIncrease(a, b - 1);
    }
  }

  /** Searches for the year containing `day`, starting at `y`. */
  function YearFrom(day: int, y: int): (r: int)
    ensures DayFromYear(r) <= day < DayFromYear(r + 1)
    decreases DayFromYear(y) > day, if DayFromYear(y) > day then DayFromYear(y) - day else day - DayFromYear(y)
  {
    YearLength(y - 1);
    YearLength(y);
    if DayFromYear(y) > day then YearFrom(day, y - 1)
    else if DayFromYear(y + 1) <= day then YearFrom(day, y + 1)
    else y
  }

  function YearOf(day: int): (r: int)
    ensures DayFromYear(r) <= day < DayFromYear(r + 1)
  {
    YearFrom(day, 1970 + day / 366)
  }

  lemma YearIsUnique(day: int, y: int)
    requires DayFromYear(y) <= day < DayFromYear(y + 1)
    ensures YearOf(day) == y
  {
    var r := YearOf(day);
    if r < y {
      if r + 1 < y { YearsIncrease(r + 1, y); }
    } else if y < r {
      if y + 1 < r { YearsIncrease(y + 1, r); }
    }
  }

  // ---------- months ----------

  function MonthLength(y: int, m: int): int {
    if m == 2 then (if Leap(y) then 29 else 28)
    else if m == 4 || m == 6 || m == 9 || m == 11 then 30
    else 31
  }

  /** Days of year `y` before the first of month `m`. */
  function MonthStart(y: int, m: int): int
    requires 1 <= m <= 13
    decreases m
  {
    if m == 1 then 0 else MonthStart(y, m - 1) + MonthLength(y, m - 1)
  }

  /** Searches for the month containing the day of the year `k`, not before month `m`. */
  function MonthFrom(y: int, k: int, m: int): (r: int)
    requires 1 <= m <= 12
    requires MonthStart(y, m) <= k < YearDays(y)
    ensures m <= r <= 12 && MonthStart(y, r) <= k < MonthStart(y, r + 1)
    decreases 12 - m
  {
    YearIsTwelveMonths(y);
    if k < MonthStart(y, m + 1) then m else MonthFrom(y, k, m + 1)
  }

  lemma YearIsTwelveMonths(y: int)
    ensures MonthStart(y, 13) == YearDays(y)
  {
    assert MonthStart(y, 4) == 31 + MonthLength(y, 2) + 31;
    assert MonthStart(y, 7) == MonthStart(y, 4) + 91;
    assert MonthStart(y, 10) == MonthStart(y, 7) + 92;
    assert MonthStart(y, 13) == MonthStart(y, 10) + 92;
  }

  lemma {:induction false} MonthsIncrease(y: int, a: int, b: int)
    requires 1 <= a <= b <= 13
    ensures MonthStart(y, a) <= MonthStart(y, b)
    decreases b - a
  {
    if a < b {
      MonthsIncrease(y, a, b - 1);
    }
  }

  // ---------- civil fields and minutes ----------

  datatype Civil = Civil(year: int, month: int, day: int, hour: int, minute: int)

  predicate ValidCivil(c: Civil) {
    && 1 <= c.month <= 12
    && 1 <= c.day <= MonthLength(c.year, c.month)
    && 0 <= c.hour < 24
    && 0 <= c.minute < 60
  }

  function DayNumber(c: Civil): int
    requires 1 <= c.month <= 12
  {
    DayFromYear(c.year) + (MonthStart(c.year, c.month) + c.day - 1)
  }

  function MinutesOf(c: Civil): int
    requires 1 <= c.month <= 12
  {
    DayNumber(c) * DAY_MINUTES + (c.hour * 60 + c.minute)
  }

  function CivilOf(minutes: int): Civil {
    OnDay(minutes / DAY_MINUTES, minutes % DAY_MINUTES)
  }

  function DayWithinYear(day: int): (k: int)
    ensures 0 <= k < YearDays(YearOf(day))
  {
    YearLength(YearOf(day));
    day - DayFromYear(YearOf(day))
  }

  function OnDay(day: int, rest: int): Civil {
    InYear(YearOf(day), DayWithinYear(day), rest)
  }

  function InYear(y: int, k: int, rest: int): Civil
    requires 0 <= k < YearDays(y)
  {
    var m := MonthFrom(y, k, 1);
    Civil(y, m, k - MonthStart(y, m) + 1, rest / 60, rest % 60)
  }

  lemma InYearFields(y: int, k: int, rest: int)
    requires 0 <= k < YearDays(y) && 0 <= rest < DAY_MINUTES
    ensures ValidCivil(InYear(y, k, rest))
    ensures DayNumber(InYear(y, k, rest)) == DayFromYear(y) + k
    ensures InYear(y, k, rest).hour * 60 + InYear(y, k, rest).minute == rest
  {
    var m := MonthFrom(y, k, 1);
    assert MonthStart(y, m + 1) == MonthStart(y, m) + MonthLength(y, m);
  }

  /** Reading the fields of an instant and counting them back loses nothing. */
  lemma FieldsThenMinutes(minutes: int)
    ensures ValidCivil(CivilOf(minutes))
    ensures MinutesOf(CivilOf(minutes)) == minutes
  {
    var day, rest := minutes / DAY_MINUTES, minutes % DAY_MINUTES;
    InYearFields(YearOf(day), DayWithinYear(day), rest);
    assert minutes == day * DAY_MINUTES + rest;
  }

  lemma MonthIsUnique(y: int, k: int, m: int)
    requires 1 <= m <= 12
    requires MonthStart(y, m) <= k < MonthStart(y, m + 1)
    ensures 0 <= k < YearDays(y)
    ensures MonthFrom(y, k, 1) == m
  {
    MonthsIncrease(y, 1, m);
    MonthsIncrease(y, m + 1, 13);
    YearIsTwelveMonths(y);
    var r := MonthFrom(y, k, 1);
    if r < m {
      MonthsIncrease(y, r + 1, m);
    } else if m < r {
      MonthsIncrease(y, m + 1, r);
    }
  }

  lemma DateIsUnique(y: int, k: int, day: int)
    requires 0 <= k < YearDays(y) && day == DayFromYear(y) + k
    ensures YearOf(day) == y && DayWithinYear(day) == k
  {
    YearLength(y);
    YearIsUnique(day, y);
  }

  lemma PositionInYear(c: Civil) returns (k: int)
    requires ValidCivil(c)
    ensures k == MonthStart(c.year, c.month) + c.day - 1 && 0 <= k < YearDays(c.year)
    ensures MonthFrom(c.year, k, 1) == c.month
  {
    k := MonthStart(c.year, c.month) + c.day - 1;
    MonthIsUnique(c.year, k, c.month);
  }

  lemma FieldsInYear(c: Civil) returns (k: int)
    requires ValidCivil(c)
    ensures k == MonthStart(c.year, c.month) + c.day - 1 && 0 <= k < YearDays(c.year)
    ensures InYear(c.year, k, c.hour * 60 + c.minute) == c
  {
    k := PositionInYear(c);
  }

  lemma DayOf(c: Civil, k: int) returns (day: int)
    requires 1 <= c.month <= 12
    requires k == MonthStart(c.year, c.month) + c.day - 1 && 0 <= k < YearDays(c.year)
    ensures MinutesOf(c) == day * DAY_MINUTES + (c.hour * 60 + c.minute)
    ensures YearOf(day) == c.year && DayWithinYear(day) == k
  {
    day := DayFromYear(c.year) + k;
    DateIsUnique(c.year, k, day);
  }

  lemma AssembleCivil(c: Civil, minutes: int, day: int, k: int, rest: int)
    requires minutes / DAY_MINUTES == day && minutes % DAY_MINUTES == rest
    requires YearOf(day) == c.year && DayWithinYear(day) == k
    requires 0 <= k < YearDays(c.year) && InYear(c.year, k, rest) == c
    ensures CivilOf(minutes) == c
  {
  }

  /** Every valid civil time, month ends and leap days included, is read back from its minute count. */
  lemma MinutesThenFields(c: Civil)
    requires ValidCivil(c)
    ensures CivilOf(MinutesOf(c)) == c
  {
    var k := FieldsInYear(c);
    var day := DayOf(c, k);
    SplitDay(day, c.hour * 60 + c.minute);
    AssembleCivil(c, MinutesOf(c), day, k, c.hour * 60 + c.minute);
  }

  lemma SplitDay(day: int, rest: int)
    requires 0 <= rest < DAY_MINUTES
    ensures (day * DAY_MINUTES + rest) / DAY_MINUTES == day
    ensures (day * DAY_MINUTES + rest) % DAY_MINUTES == rest
  {
  }

  // ---------- text ----------

  /** An era-less numeric year is not padded: years before year 1 count backwards from 1. */
  function YearText(y: int): string {
    if y >= 1 then Decimal(y) else Decimal(1 - y)
  }

  function Print(c: Civil): string
    requires ValidCivil(c)
  {
    YearText(c.year) + "-" + Pad2(c.month) + "-" + Pad2(c.day) + "T" + Pad2(c.hour) + ":" + Pad2(c.minute)
  }

  /** The wall text of local milliseconds; seconds are dropped. */
  function WallText(local: int): string {
    FieldsThenMinutes(local / MINUTE);
    Print(CivilOf(local / MINUTE))
  }

  predicate FitsAt(i: nat, c: char) {
    if i == 4 || i == 7 then c == '-' else if i == 10 then c == 'T' else if i == 13 then c == ':' else IsDigit(c)
  }

  /** The sixteen characters `YYYY-MM-DDTHH:MM`. */
  predicate Shaped(text: string) {
    |text| == 16 && forall i :: 0 <= i < 16 ==> FitsAt(i, text[i])
  }

  function Two(text: string, i: nat): int
    requires i + 1 < |text|
  {
    10 * DigitValue(text[i]) + DigitValue(text[i + 1])
  }

  function Fields(text: string): Civil
    requires Shaped(text)
  {
    Civil(100 * Two(text, 0) + Two(text, 2), Two(text, 5), Two(text, 8), Two(text, 11), Two(text, 14))
  }

  /** `Date.parse` of the text followed by `Z`, in milliseconds; `None` stands for NaN. Hour 24 with minute 0
      is the end of the day. Days 29 to 31 past the end of a month roll over into the next month in engines
      that accept them (`rollover`). */
  function Parse(rollover: bool, text: string): Option<int> {
    if Shaped(text) && Readable(rollover, Fields(text)) then Some(MinutesOf(Fields(text)) * MINUTE) else None
  }

  predicate Readable(rollover: bool, c: Civil) {
    && 1 <= c.month <= 12
    && 1 <= c.day <= (if rollover then 31 else MonthLength(c.year, c.month))
    && 0 <= c.minute < 60
    && (0 <= c.hour < 24 || (c.hour == 24 && c.minute == 0))
  }
}
