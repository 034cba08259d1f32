/** Day numbers of calendar dates (source/iptv/xmltv.c). */
module CivilDays {
  // --------------------------------------------------- the proleptic Gregorian calendar

  predicate Leap(year: int) {
    year % 4 == 0 && (year % 100 != 0 || year % 400 == 0)
  }

  function YearLength(year: int): nat {
    if Leap(year) then 366 else 365
  }

  function MonthLength(year: int, month: nat): nat {
    if month == 2 then (if Leap(year) then 29 else 28)
    else if month == 4 || month == 6 || month == 9 || month == 11 then 30
    else 31
  }

  datatype Date = Date(year: int, month: nat, day: nat)

  predicate Valid(d: Date) {
    1 <= d.month <= 12 && 1 <= d.day <= MonthLength(d.year, d.month)
  }

  function NextDay(d: Date): Date {
    if d.day < MonthLength(d.year, d.month) then d.(day := d.day + 1)
    else if d.month < 12 then Date(d.year, d.month + 1, 1)
    else Date(d.year + 1, 1, 1)
  }

  predicate Earlier(a: Date, b: Date) {
    a.year < b.year || (a.year == b.year && (a.month < b.month || (a.month == b.month && a.day < b.day)))
  }

  /** Days from 1 January 1970 to 1 January of the year, counted year by year. */
  function DaysBeforeYear(year: int): int
    decreases if year >= 1970 then year - 1970 else 1970 - year
  {
    if year == 1970 then 0
    else if year > 1970 then DaysBeforeYear(year - 1) + YearLength(year - 1)
    else DaysBeforeYear(year + 1) - YearLength(year)
  }

  /** Days of the year before a month, counted month by month. */
  function DaysBeforeMonth(year: int, month: nat): nat {
    if month <= 1 then 0 else DaysBeforeMonth(year, month - 1) + MonthLength(year, month - 1)
  }

  // ------------------------------------------------------------------- the source

  /** The division of C, which truncates toward zero. */
  function Quotient(a: int, b: int): int
    requires b > 0
  {
    if a >= 0 then a / b else -((-a) / b)
  }

  const TWO_TO_32: nat := 0x1_0000_0000

  /** Unsigned arithmetic wraps at 32 bits. */
  function Unsigned(x: int): nat {
    x % TWO_TO_32
  }

  /** The day of the year that starts in March. */
  function MarchDay(month: nat, day: nat): nat {
    var shifted := Unsigned(month + if month > 2 then TWO_TO_32 - 3 else 9);
    Unsigned(Unsigned(Unsigned(153 * shifted + 2) / 5 + day) - 1)
  }

  function DayOfEra(yoe: nat, doy: nat): nat {
    Unsigned(yoe * 365 + yoe / 4 - yoe / 100 + doy)
  }

  /** xmltv_days_from_civil. */
  function DaysFromCivil(year: int, month: nat, day: nat): int {
    var y := if month <= 2 then year - 1 else year;
    var era := Quotient(if y >= 0 then y else y - 399, 400);
    era * 146097 + DayOfEra(Unsigned(y - era * 400), MarchDay(month, day)) - 719468
  }

  // ----------------------------------------------------------------------- proofs

  /** The era is the floor of y / 400 although C truncates. */
  lemma EraIsFloor(y: int)
    ensures Quotient(if y >= 0 then y else y - 399, 400) == y / 400
  {}

  /** Days of whole years counted from March, in closed form. */
  function MarchYears(y: int): int {
    365 * y + y / 4 - y / 100 + y / 400
  }

  lemma EraForm(y: int)
    ensures var era, yoe := y / 400, y % 400;
      0 <= yoe < 400 && era * 146097 + yoe * 365 + yoe / 4 - yoe / 100 == MarchYears(y)
  {
    var era, yoe := y / 400, y % 400;
    assert y == 400 * era + yoe;
    assert y / 4 == 100 * era + yoe / 4;
    assert y / 100 == 4 * era + yoe / 100;
  }

  /** Months counted from March. */
  function MarchMonth(month: nat): nat
    requires 1 <= month <= 12
  {
    if month > 2 then month - 3 else month + 9
  }

  lemma MarchDayIs(month: nat, day: nat)
    requires 1 <= month <= 12 && 1 <= day <= 31
    ensures MarchDay(month, day) == (153 * MarchMonth(month) + 2) / 5 + day - 1 < 400
  {
    var m := MarchMonth(month);
    assert Unsigned(month + if month > 2 then TWO_TO_32 - 3 else 9) == m < 12;
    assert Unsigned(153 * m + 2) == 153 * m + 2;
    assert 0 <= (153 * m + 2) / 5 < 340;
  }

  lemma DayOfEraIs(yoe: nat, doy: nat)
    requires yoe < 400 && doy < 400
    ensures DayOfEra(yoe, doy) == yoe * 365 + yoe / 4 - yoe / 100 + doy
  {}

  lemma YearOfEraIs(y: int)
    ensures Unsigned(y - (y / 400) * 400) == y % 400
  {}

  lemma ClosedForm(d: Date)
    requires Valid(d)
    ensures DaysFromCivil(d.year, d.month, d.day) ==
      MarchYears(if d.month <= 2 then d.year - 1 else d.year) + (153 * MarchMonth(d.month) + 2) / 5 + d.day - 719469
  {
    hide MarchDay, DayOfEra, Unsigned, MarchYears, Quotient, MarchMonth;
    var y := if d.month <= 2 then d.year - 1 else d.year;
    EraIsFloor(y);
    EraForm(y);
    MarchDayIs(d.month, d.day);
    YearOfEraIs(y);
    DayOfEraIs(y % 400, MarchDay(d.month, d.day));
  }

  lemma Fourths(y: int)
    ensures y / 4 - (y - 1) / 4 == if y % 4 == 0 then 1 else 0
  {}

  lemma Hundredths(y: int)
    ensures y / 100 - (y - 1) / 100 == if y % 100 == 0 then 1 else 0
  {
    var q, r := y / 100, y % 100;
    assert y - 1 == if r > 0 then 100 * q + (r - 1) else 100 * (q - 1) + 99;
  }

  lemma FourHundredths(y: int)
    ensures y / 400 - (y - 1) / 400 == if y % 400 == 0 then 1 else 0
  {
    var q, r := y / 400, y % 400;
    assert y - 1 == if r > 0 then 400 * q + (r - 1) else 400 * (q - 1) + 399;
  }

  lemma Centuries(k: int)
    ensures (100 * k) % 4 == 0
  {}

  lemma FourCenturies(k: int)
    ensures (400 * k) % 100 == 0
  {}

  lemma RoundYears(y: int)
    ensures y % 400 == 0 ==> y % 100 == 0
    ensures y % 100 == 0 ==> y % 4 == 0
  {
    Centuries(y / 100);
    FourCenturies(y / 400);
  }

  lemma MarchYearStep(y: int)
    ensures MarchYears(y) - MarchYears(y - 1) == YearLength(y)
  {
    Fourths(y);
    Hundredths(y);
    FourHundredths(y);
    RoundYears(y);
  }

  lemma {:induction false} YearsCounted(year: int)
    ensures MarchYears(year - 1) + 306 - 719468 == DaysBeforeYear(year)
    decreases if year >= 1970 then year - 1970 else 1970 - year
  {
    if year > 1970 {
      YearsCounted(year - 1);
      MarchYearStep(year - 1);
    } else if year < 1970 {
      YearsCounted(year + 1);
      MarchYearStep(year);
    }
  }

  lemma MonthsCounted(year: int, month: nat)
    requires 1 <= month <= 12
    ensures DaysBeforeMonth(year, month) ==
      if month <= 2 then (153 * MarchMonth(month) + 2) / 5 - 306
      else (153 * MarchMonth(month) + 2) / 5 + 59 + (if Leap(year) then 1 else 0)
  {
    assert DaysBeforeMonth(year, 1) == 0;
    assert DaysBeforeMonth(year, 2) == 31;
    assert DaysBeforeMonth(year, 3) == 31 + MonthLength(year, 2);
    assert DaysBeforeMonth(year, 4) == DaysBeforeMonth(year, 3) + 31;
    assert DaysBeforeMonth(year, 5) == DaysBeforeMonth(year, 4) + 30;
    assert DaysBeforeMonth(year, 6) == DaysBeforeMonth(year, 5) + 31;
    assert DaysBeforeMonth(year, 7) == DaysBeforeMonth(year, 6) + 30;
    assert DaysBeforeMonth(year, 8) == DaysBeforeMonth(year, 7) + 31;
    assert DaysBeforeMonth(year, 9) == DaysBeforeMonth(year, 8) + 31;
    assert DaysBeforeMonth(year, 10) == DaysBeforeMonth(year, 9) + 30;
    assert DaysBeforeMonth(year, 11) == DaysBeforeMonth(year, 10) + 31;
    assert DaysBeforeMonth(year, 12) == DaysBeforeMonth(year, 11) + 30;
  }

  /** The function counts days: for every date, before or after year 0, it is the
      number of days from 1970-01-01. */
  lemma CountsDays(d: Date)
    requires Valid(d)
    ensures DaysFromCivil(d.year, d.month, d.day)
            == DaysBeforeYear(d.year) + DaysBeforeMonth(d.year, d.month) + d.day - 1
  {
    ClosedForm(d);
    YearsCounted(d.year);
    MonthsCounted(d.year, d.month);
    MarchYearStep(d.year);
  }

  /** Days of the year from 0. */
  function DayOfYear(d: Date): int {
    DaysBeforeMonth(d.year, d.month) + d.day - 1
  }

  lemma DayOfYearBounds(d: Date)
    requires Valid(d)
    ensures 0 <= DayOfYear(d) < YearLength(d.year)
    ensures DayOfYear(d) < DaysBeforeMonth(d.year, d.month) + MonthLength(d.year, d.month)
  {
    MonthsCounted(d.year, d.month);
  }

  lemma NextDayCounts(d: Date)
    requires Valid(d)
    ensures Valid(NextDay(d))
    ensures var n := NextDay(d); DaysBeforeYear(n.year) + DayOfYear(n) == DaysBeforeYear(d.year) + DayOfYear(d) + 1
  {
    if d.month == 12 {
      MonthsCounted(d.year, 12);
      assert DaysBeforeYear(d.year + 1) == DaysBeforeYear(d.year) + YearLength(d.year);
    } else {
      hide DaysBeforeYear, Leap;
      assert DaysBeforeMonth(d.year, d.month + 1) == DaysBeforeMonth(d.year, d.month) + MonthLength(d.year, d.month);
    }
  }

  /** The next calendar day maps to exactly one more, and the epoch to 0. */
  lemma NextDayIsNext(d: Date)
    requires Valid(d)
    ensures Valid(NextDay(d))
    ensures var n := NextDay(d); DaysFromCivil(n.year, n.month, n.day) == DaysFromCivil(d.year, d.month, d.day) + 1
    ensures DaysFromCivil(1970, 1, 1) == 0
  {
    assert DaysBeforeYear(1970) == 0 && DaysBeforeMonth(1970, 1) == 0 && Valid(Date(1970, 1, 1));
    hide DaysFromCivil, NextDay, DaysBeforeYear, DaysBeforeMonth;
    NextDayCounts(d);
    CountsDays(d);
    CountsDays(NextDay(d));
    CountsDays(Date(1970, 1, 1));
  }

  lemma {:induction false} YearsRise(a: int, b: int)
    requires a < b
    ensures DaysBeforeYear(a) + YearLength(a) <= DaysBeforeYear(b)
    decreases b - a
  {
    assert DaysBeforeYear(b) == DaysBeforeYear(b - 1) + YearLength(b - 1);
    if a < b - 1 { YearsRise(a, b - 1); }
  }

  lemma {:induction false} MonthsRise(year: int, a: nat, b: nat)
    requires 1 <= a < b
    ensures DaysBeforeMonth(year, a) + MonthLength(year, a) <= DaysBeforeMonth(year, b)
  {
    if a < b - 1 { MonthsRise(year, a, b - 1); }
  }

  /** Earlier dates have smaller numbers, so distinct dates distinct ones. */
  lemma StrictlyIncreasing(a: Date, b: Date)
    requires Valid(a) && Valid(b)
    ensures Earlier(a, b) <==> DaysFromCivil(a.year, a.month, a.day) < DaysFromCivil(b.year, b.month, b.day)
    ensures DaysFromCivil(a.year, a.month, a.day) == DaysFromCivil(b.year, b.month, b.day) ==> a == b
  {
    CountsDays(a);
    CountsDays(b);
    if Earlier(a, b) { EarlierIsLess(a, b); }
    if Earlier(b, a) { EarlierIsLess(b, a); }
  }

  lemma EarlierIsLess(a: Date, b: Date)
    requires Valid(a) && Valid(b) && Earlier(a, b)
    ensures DaysBeforeYear(a.year) + DayOfYear(a) < DaysBeforeYear(b.year) + DayOfYear(b)
  {
    DayOfYearBounds(a);
    DayOfYearBounds(b);
    if a.year < b.year {
      YearsRise(a.year, b.year);
    } else if a.month < b.month {
      MonthsRise(a.year, a.month, b.month);
    }
  }

  // ------------------------------------------------------------------------ times

  /** The arithmetic of xmltv_parse_time on the numbers it scanned. */
  function Seconds(d: Date, hour: int, minute: int, second: int, west: bool, offsetHour: int, offsetMinute: int): int {
    DaysFromCivil(d.year, d.month, d.day) * 86400 + hour * 3600 + minute * 60 + second
    - (if west then -1 else 1) * (offsetHour * 3600 + offsetMinute * 60)
  }

  predicate ClockTime(hour: int, minute: int, second: int) {
    0 <= hour < 24 && 0 <= minute < 60 && 0 <= second < 60
  }

  /** Under one offset, times are in the order of their dates and clocks. */
  lemma SecondsInOrder(a: Date, h: int, m: int, s: int, b: Date, i: int, n: int, t: int,
                       west: bool, offsetHour: int, offsetMinute: int)
    requires Valid(a) && Valid(b) && ClockTime(h, m, s) && ClockTime(i, n, t)
    ensures Seconds(a, h, m, s, west, offsetHour, offsetMinute) < Seconds(b, i, n, t, west, offsetHour, offsetMinute)
      <==> Earlier(a, b) || (a == b && (h < i || (h == i && (m < n || (m == n && s < t)))))
  {
    StrictlyIncreasing(a, b);
    StrictlyIncreasing(b, a);
  }

  datatype Time = Time(date: Date, hour: int, minute: int, second: int)

  /** The next second of a clock on a calendar. */
  function NextSecond(t: Time): Time {
    if t.second < 59 then t.(second := t.second + 1)
    else if t.minute < 59 then t.(minute := t.minute + 1, second := 0)
    else if t.hour < 23 then t.(hour := t.hour + 1, minute := 0, second := 0)
    else Time(NextDay(t.date), 0, 0, 0)
  }

  function InZone(t: Time, west: bool, offsetHour: int, offsetMinute: int): int {
    Seconds(t.date, t.hour, t.minute, t.second, west, offsetHour, offsetMinute)
  }

  /** Seconds are counted one by one from midnight of 1970-01-01 UTC. */
  lemma NextSecondIsNext(t: Time, west: bool, offsetHour: int, offsetMinute: int)
    requires Valid(t.date) && ClockTime(t.hour, t.minute, t.second)
    ensures var n := NextSecond(t);
      && Valid(n.date) && ClockTime(n.hour, n.minute, n.second)
      && InZone(n, west, offsetHour, offsetMinute) == InZone(t, west, offsetHour, offsetMinute) + 1
    ensures InZone(Time(Date(1970, 1, 1), 0, 0, 0), west, 0, 0) == 0
  {
    NextDayIsNext(t.date);
    NextDayIsNext(Date(1970, 1, 1));
    hide DaysFromCivil, NextDay;
  }

  /** A clock east of Greenwich is ahead of UTC by its offset, one to the west
      behind, so that noon at +0130 is half past ten there. */
  lemma OffsetIsFromUtc(t: Time, offsetHour: int, offsetMinute: int)
    ensures InZone(t, false, offsetHour, offsetMinute) ==
            InZone(t.(hour := t.hour - offsetHour, minute := t.minute - offsetMinute), false, 0, 0)
    ensures InZone(t, true, offsetHour, offsetMinute) ==
            InZone(t.(hour := t.hour + offsetHour, minute := t.minute + offsetMinute), false, 0, 0)
  {
    hide DaysFromCivil;
  }
}
