/** agent/scheduler_agent.py: the hour, the day and the ISO week of a time, as Python's datetime computes them in UTC. */
module Calendar {

  const MINUTE := 60
  const HOUR := 3600
  const DAY := 86400

  /** The ordinal of 1 January 1970; 1 January of year 1 is day 1. */
  const EPOCH := 719163

  function DayOf(t: nat): nat {
    EPOCH + t / DAY
  }

  function HourOf(t: nat): nat {
    t % DAY / HOUR
  }

  function MinuteOf(t: nat): nat {
    t % HOUR / MINUTE
  }

  /** date.weekday: Monday is 0. */
  function Weekday(day: nat): nat {
    (day + 6) % 7
  }

  // ----- years -----

  /** Days before 1 January of each year. */
  type Years = nat -> int

  /** Years are numbered from 1 and have 365 or 366 days. */
  ghost predicate IsCalendar(c: Years) {
    c(1) == 0 && forall y {:trigger c(y + 1)} :: y >= 1 ==> 365 <= c(y + 1) - c(y) <= 366
  }

  /** The Gregorian years. */
  function BeforeYear(year: nat): int {
    var y := year - 1;
    365 * y + y / 4 - y / 100 + y / 400
  }

  predicate Leap(year: nat) {
    year % 4 == 0 && (year % 100 != 0 || year % 400 == 0)
  }

  lemma Quarter(y: nat)
    ensures (y + 1) / 4 - y / 4 == if (y + 1) % 4 == 0 then 1 else 0
  {
  }

  lemma Century(y: nat)
    ensures (y + 1) / 100 - y / 100 == if (y + 1) % 100 == 0 then 1 else 0
    ensures (y + 1) % 100 == 0 ==> (y + 1) % 4 == 0
  {
  }

  lemma FourCenturies(y: nat)
    ensures (y + 1) / 400 - y / 400 == if (y + 1) % 400 == 0 then 1 else 0
    ensures (y + 1) % 400 == 0 ==> (y + 1) % 100 == 0
  {
  }

  lemma YearLength(year: nat)
    requires year >= 1
    ensures BeforeYear(year + 1) - BeforeYear(year) == if Leap(year) then 366 else 365
  {
    Quarter(year - 1);
    Century(year - 1);
    FourCenturies(year - 1);
  }

  lemma GregorianIsCalendar()
    ensures IsCalendar(BeforeYear)
  {
    forall y: nat | y >= 1 ensures 365 <= BeforeYear(y + 1) - BeforeYear(y) <= 366 {
      YearLength(y);
    }
  }

  /** The year of a day, looked for from `year` on. */
  function YearFrom(c: Years, year: nat, day: nat): (r: nat)
    requires IsCalendar(c) && year >= 1 && c(year) < day
    ensures r >= 1 && c(r) < day <= c(r + 1)
    decreases day - c(year)
  {
    if day <= c(year + 1) then year else YearFrom(c, year + 1, day)
  }

  // ----- ISO weeks -----

  /** The Monday of the first ISO week of a year, which has its first Thursday. */
  function FirstMonday(c: Years, year: nat): int {
    var first := c(year) + 1;
    var weekday := (first + 6) % 7;
    first - weekday + if weekday > 3 then 7 else 0
  }

  /** date.isocalendar()[:2]: the year and the number of the week. */
  function IsoWeek(c: Years, day: nat): (int, int)
    requires IsCalendar(c) && day >= 1
  {
    var year := YearFrom(c, 1, day);
    var week := (day - FirstMonday(c, year)) / 7;
    if week < 0 then (year - 1, (day - FirstMonday(c, year - 1)) / 7 + 1)
    else if week >= 52 && day >= FirstMonday(c, year + 1) then (year + 1, 1)
    else (year, week + 1)
  }

  /** The first Monday counted in weeks. */
  function FirstWeek(c: Years, year: nat): int {
    var first := c(year) + 1;
    (first + 6) / 7 - 1 + if (first + 6) % 7 > 3 then 1 else 0
  }

  lemma DivMod(a: int)
    ensures a == 7 * (a / 7) + a % 7 && 0 <= a % 7 < 7
  {
  }

  lemma FirstMondayFacts(c: Years, year: nat)
    ensures FirstMonday(c, year) == 7 * FirstWeek(c, year) + 1
    ensures -3 <= 7 * FirstWeek(c, year) - c(year) <= 3
  {
    DivMod(c(year) + 7);
  }

  /** An ISO year has 52 or 53 weeks. */
  lemma IsoYearLength(c: Years, year: nat)
    requires IsCalendar(c) && year >= 1
    ensures 52 <= FirstWeek(c, year + 1) - FirstWeek(c, year) <= 53
  {
    FirstMondayFacts(c, year);
    FirstMondayFacts(c, year + 1);
  }

  lemma {:induction false} FirstWeeksGrow(c: Years, a: nat, b: nat)
    requires IsCalendar(c) && 1 <= a <= b
    ensures FirstWeek(c, a) <= FirstWeek(c, b)
    decreases b - a
  {
    if a < b {
      IsoYearLength(c, a);
      FirstWeeksGrow(c, a + 1, b);
    }
  }

  /** Weeks from Monday to Sunday, counted without a break. */
  function Block(day: nat): int
    requires day >= 1
  {
    (day - 1) / 7
  }

  /** The division that isocalendar does is the distance in weeks. */
  lemma Distance(day: nat, w: int)
    requires day >= 1
    ensures (day - (7 * w + 1)) / 7 == Block(day) - w
    ensures day >= 7 * w + 1 <==> Block(day) >= w
  {
    DivMod(day - 1);
    DivMod(day - (7 * w + 1));
  }

  /** The ISO year of a week: its first week is not after it, and the next year's is. */
  ghost predicate InIsoYear(c: Years, b: int, year: int) {
    year >= 1 && FirstWeek(c, year) <= b < FirstWeek(c, year + 1)
  }

  lemma YearStep(c: Years, y: nat)
    requires IsCalendar(c) && y >= 1
    ensures 365 <= c(y + 1) - c(y) <= 366
  {
  }

  /** A day is not before the ISO year before its calendar year, and not after the beginning of the next. */
  lemma Bounds(c: Years, day: nat, y: nat)
    requires IsCalendar(c) && day >= 1 && y >= 1 && c(y) < day <= c(y + 1)
    ensures Block(day) <= FirstWeek(c, y + 1)
    ensures y > 1 ==> FirstWeek(c, y - 1) <= Block(day)
    ensures y == 1 ==> FirstWeek(c, y) <= Block(day)
  {
    FirstMondayFacts(c, y);
    FirstMondayFacts(c, y + 1);
    DivMod(day - 1);
    if y > 1 {
      FirstMondayFacts(c, y - 1);
      YearStep(c, y - 1);
    }
  }

  /** What Python numbers: the year a week is in and how many weeks it is after the first. */
  lemma IsoWeekMeaning(c: Years, day: nat)
    requires IsCalendar(c) && day >= 1
    ensures var (year, week) := IsoWeek(c, day);
            InIsoYear(c, Block(day), year) && week == Block(day) - FirstWeek(c, year) + 1
  {
    var y := YearFrom(c, 1, day);
    Bounds(c, day, y);
    FirstMondayFacts(c, y);
    FirstMondayFacts(c, y + 1);
    Distance(day, FirstWeek(c, y));
    Distance(day, FirstWeek(c, y + 1));
    IsoYearLength(c, y);
    IsoYearLength(c, y + 1);
    if y > 1 {
      FirstMondayFacts(c, y - 1);
      Distance(day, FirstWeek(c, y - 1));
    }
  }

  lemma YearsOrdered(c: Years, a: int, b: int, x: nat, y: nat)
    requires IsCalendar(c) && a <= b && InIsoYear(c, a, x) && InIsoYear(c, b, y)
    ensures x <= y
  {
    if x > y {
      FirstWeeksGrow(c, y + 1, x);
    }
  }

  /** Two days have the same ISO year and week exactly when they are in the same week, also across the end of a year. */
  lemma IsoWeekIsBlock(c: Years, a: nat, b: nat)
    requires IsCalendar(c) && a >= 1 && b >= 1
    ensures IsoWeek(c, a) == IsoWeek(c, b) <==> Block(a) == Block(b)
  {
    IsoWeekMeaning(c, a);
    IsoWeekMeaning(c, b);
    if Block(a) == Block(b) {
      var x, y := IsoWeek(c, a).0, IsoWeek(c, b).0;
      YearsOrdered(c, Block(a), Block(b), x, y);
      YearsOrdered(c, Block(b), Block(a), y, x);
    }
  }

  // ----- the three periods -----

  /** _same_hour; a time of 0 is no time. */
  predicate SameHour(a: nat, b: nat) {
    a != 0 && DayOf(a) == DayOf(b) && HourOf(a) == HourOf(b)
  }

  predicate SameDay(a: nat, b: nat) {
    a != 0 && DayOf(a) == DayOf(b)
  }

  predicate SameIsoWeek(a: nat, b: nat) {
    GregorianIsCalendar();
    a != 0 && IsoWeek(BeforeYear, DayOf(a)) == IsoWeek(BeforeYear, DayOf(b))
  }

  datatype Cadence = Hourly | Daily | Weekly | Other

  /** The number of the hour, day or week of a time, counted without a break. */
  function Period(cadence: Cadence, t: nat): int {
    match cadence
    case Hourly => t / HOUR
    case Daily => t / DAY
    case Weekly => Block(DayOf(t))
    case Other => 0
  }

  predicate SamePeriod(cadence: Cadence, a: nat, b: nat) {
    match cadence
    case Hourly => SameHour(a, b)
    case Daily => SameDay(a, b)
    case Weekly => SameIsoWeek(a, b)
    case Other => true
  }

  lemma HourCount(t: nat)
    ensures t / HOUR == 24 * (t / DAY) + HourOf(t) && 0 <= HourOf(t) < 24
  {
    var d, r := t / DAY, t % DAY;
    assert t == 24 * d * HOUR + r;
    assert r == HOUR * (r / HOUR) + r % HOUR;
    var h := 24 * d + r / HOUR;
    assert t == h * HOUR + r % HOUR;
  }

  /** The three tests compare the number of the period. */
  lemma SamePeriodIs(cadence: Cadence, a: nat, b: nat)
    requires !cadence.Other?
    ensures SamePeriod(cadence, a, b) <==> a != 0 && Period(cadence, a) == Period(cadence, b)
  {
    match cadence {
      case Hourly =>
        HourCount(a);
        HourCount(b);
      case Daily =>
      case Weekly =>
        GregorianIsCalendar();
        IsoWeekIsBlock(BeforeYear, DayOf(a), DayOf(b));
    }
  }

  /** Periods do not go back. */
  lemma PeriodGrows(cadence: Cadence, a: nat, b: nat)
    requires a <= b
    ensures Period(cadence, a) <= Period(cadence, b)
  {
  }
}
