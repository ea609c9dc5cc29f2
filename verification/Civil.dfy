/** Day numbers of civil dates: the batch builder's closed form against the calendar itself. */
module Civil {

  /** Integer division as the program's language has it: towards zero. */
  function TruncDiv(a: int, b: int): int
    requires b > 0
  {
    if a >= 0 then a / b else -(-a / b)
  }

  /** `days_from_civil`, division for division. */
  function DaysFromCivil(year: int, month: int, day: int): int {
    var y := if month <= 2 then year - 1 else year;
    var era := TruncDiv(if y >= 0 then y else y - 399, 400);
    var yoe := y - era * 400;
    var mp := if month > 2 then month - 3 else month + 9;
    var doy := TruncDiv(153 * mp + 2, 5) + day - 1;
    var doe := yoe * 365 + TruncDiv(yoe, 4) - TruncDiv(yoe, 100) + doy;
    era * 146_097 + doe - 719_468
  }

  // ---- The proleptic Gregorian calendar ----

  datatype Date = Date(year: int, month: int, day: int)

  const EPOCH := Date(1970, 1, 1)

  predicate IsLeap(year: int) {
    year % 4 == 0 && (year % 100 != 0 || year % 400 == 0)
  }

  function YearLength(year: int): int {
    if IsLeap(year) then 366 else 365
  }

  function MonthLength(year: int, month: int): int {
    if month == 2 then (if IsLeap(year) then 29 else 28)
    else if month in {4, 6, 9, 11} then 30
    else 31
  }

  predicate Valid(d: Date) {
    1 <= d.month <= 12 && 1 <= d.day <= MonthLength(d.year, d.month)
  }

  /** The calendar day after `d`. */
  function Next(d: Date): Date {
    if d.day < MonthLength(d.year, d.month) then d.(day := d.day + 1)
    else if d.month < 12 then Date(d.year, d.month + 1, 1)
    else Date(d.year + 1, 1, 1)
  }

  /** The calendar day before `d`. */
  function Prev(d: Date): Date {
    if d.day > 1 then d.(day := d.day - 1)
    else if d.month > 1 then Date(d.year, d.month - 1, MonthLength(d.year, d.month - 1))
    else Date(d.year - 1, 12, 31)
  }

  predicate Before(a: Date, b: Date) {
    a.year < b.year || (a.year == b.year && (a.month < b.month || (a.month == b.month && a.day < b.day)))
  }

  /** Days from 1 January 1970 to 1 January of `year`, counted year by year. */
  function DaysBeforeYear(year: int): int
    decreases if year >= 1970 then year - 1970 else 1970 - year
  {
    if year == 1970 then 0
    else if year > 1970 then DaysBeforeYear(year - 1) + YearLength(year - 1)
    else DaysBeforeYear(year + 1) - YearLength(year)
  }

  /** Days from 1 January to the first of `month`, counted month by month. */
  function DaysBeforeMonth(year: int, month: int): int
    requires 1 <= month <= 13
  {
    if month == 1 then 0 else DaysBeforeMonth(year, month - 1) + MonthLength(year, month - 1)
  }

  /** The signed number of days from the epoch to `d`, counted on the calendar. */
  function CountedDays(d: Date): int
    requires 1 <= d.month <= 12
  {
    DaysBeforeYear(d.year) + DaysBeforeMonth(d.year, d.month) + d.day - 1
  }

  // ---- The closed form is the count ----

  /** Subtracting 399 first makes truncation round down on negative years too. */
  lemma EraIsFloor(y: int)
    ensures TruncDiv(if y >= 0 then y else y - 399, 400) == y / 400
  {
  }

  /** Days from the epoch to 1 March of `y`, as the closed form has it. */
  function MarchFirst(y: int): int {
    365 * y + LeapsThrough(y) - 719_468
  }

  lemma ClosedForm(year: int, month: int, day: int)
    requires month >= 0
    ensures month > 2 ==> DaysFromCivil(year, month, day) == MarchFirst(year) + (153 * (month - 3) + 2) / 5 + day - 1
    ensures month <= 2 ==>
              DaysFromCivil(year, month, day) == MarchFirst(year - 1) + (153 * (month + 9) + 2) / 5 + day - 1
  {
    var y := if month <= 2 then year - 1 else year;
    EraIsFloor(y);
    var era, yoe := y / 400, y % 400;
    assert y / 4 == 100 * era + yoe / 4;
    assert y / 100 == 4 * era + yoe / 100;
  }

  /** Leap days from year 1 through year `y`. */
  function LeapsThrough(y: int): int {
    y / 4 - y / 100 + y / 400
  }

  lemma LeapStep(y: int)
    ensures LeapsThrough(y) - LeapsThrough(y - 1) == if IsLeap(y) then 1 else 0
  {
    QuotientStep(y, 4);
    QuotientStep(y, 100);
    QuotientStep(y, 400);
    CenturiesAreFourths(y);
    LeapSum(y / 4, (y - 1) / 4, y / 100, (y - 1) / 100, y / 400, (y - 1) / 400, y % 4 == 0, y % 100 == 0, y % 400 == 0);
  }

  lemma CenturiesAreFourths(y: int)
    ensures y % 400 == 0 ==> y % 100 == 0
    ensures y % 100 == 0 ==> y % 4 == 0
  {
    if y % 400 == 0 {
      HundredDivides(4 * (y / 400));
    }
    if y % 100 == 0 {
      FourDivides(25 * (y / 100));
    }
  }

  lemma HundredDivides(n: int)
    ensures (100 * n) % 100 == 0
  {
  }

  lemma FourDivides(n: int)
    ensures (4 * n) % 4 == 0
  {
  }

  lemma LeapSum(a: int, a': int, b: int, b': int, c: int, c': int, fourth: bool, century: bool, era: bool)
    requires a - a' == (if fourth then 1 else 0) && b - b' == (if century then 1 else 0)
    requires c - c' == if era then 1 else 0
    requires (era ==> century) && (century ==> fourth)
    ensures (a - b + c) - (a' - b' + c') == if fourth && (!century || era) then 1 else 0
  {
  }

  lemma MarchFirstStep(y: int)
    ensures MarchFirst(y) - MarchFirst(y - 1) == YearLength(y)
  {
    hide IsLeap, LeapsThrough;
    LeapStep(y);
  }

  lemma QuotientStep(y: int, d: int)
    requires d in {4, 100, 400}
    ensures y / d - (y - 1) / d == if y % d == 0 then 1 else 0
  {
  }

  lemma {:induction false} MarchFirstCounts(y: int)
    ensures MarchFirst(y) == DaysBeforeYear(y) + 31 + MonthLength(y, 2)
    decreases if y >= 1970 then y - 1970 else 1970 - y
  {
    if y > 1970 {
      MarchFirstCounts(y - 1);
      MarchFirstStep(y);
    } else if y < 1970 {
      MarchFirstCounts(y + 1);
      MarchFirstStep(y + 1);
    }
  }

  /** Month lengths from March on, as (153 * mp + 2) / 5 spreads them. */
  lemma MonthTable(year: int, month: int)
    requires 1 <= month <= 12
    ensures month > 2 ==> DaysBeforeMonth(year, month) == 31 + MonthLength(year, 2) + (153 * (month - 3) + 2) / 5
    ensures month <= 2 ==> DaysBeforeMonth(year, month) == (153 * (month + 9) + 2) / 5 - 306
  {
    if month > 3 {
      MonthTable(year, month - 1);
    } else if month == 3 {
      assert DaysBeforeMonth(year, 2) == 31;
    }
  }

  /** `days_from_civil` is the signed day count from the epoch, for every year, every month 1-12 and
      every day number, existing or not. */
  lemma DaysFromCivilCounts(d: Date)
    requires 1 <= d.month <= 12
    ensures DaysFromCivil(d.year, d.month, d.day) == CountedDays(d)
  {
    ClosedForm(d.year, d.month, d.day);
    MonthTable(d.year, d.month);
    if d.month > 2 {
      MarchFirstCounts(d.year);
    } else {
      MarchFirstCounts(d.year - 1);
      YearStep(d.year - 1);
    }
  }

  lemma YearStep(year: int)
    ensures DaysBeforeYear(year + 1) == DaysBeforeYear(year) + YearLength(year)
  {
  }

  function Days(d: Date): int {
    DaysFromCivil(d.year, d.month, d.day)
  }

  lemma YearIsItsMonths(year: int)
    ensures DaysBeforeMonth(year, 13) == YearLength(year)
  {
    MonthTable(year, 12);
  }

  /** The next calendar date always maps to one more, and stepping back undoes the step. */
  lemma NextDayIsPlusOne(d: Date)
    requires Valid(d)
    ensures Valid(Next(d)) && Days(Next(d)) == Days(d) + 1 && Prev(Next(d)) == d
  {
    hide DaysFromCivil, DaysBeforeYear, IsLeap;
    DaysFromCivilCounts(d);
    DaysFromCivilCounts(Next(d));
    YearStep(d.year);
    YearIsItsMonths(d.year);
  }

  lemma PrevDayIsMinusOne(d: Date)
    requires Valid(d)
    ensures Valid(Prev(d)) && Days(Prev(d)) == Days(d) - 1 && Next(Prev(d)) == d
  {
    hide DaysFromCivil, DaysBeforeYear, IsLeap;
    DaysFromCivilCounts(d);
    DaysFromCivilCounts(Prev(d));
    YearStep(d.year - 1);
    YearIsItsMonths(d.year - 1);
  }

  /** A day number past the end of its month counts on into the next one: the parser, which lets
      days 1-31 through in every month, reads 30 February as 1 or 2 March. */
  lemma LateDaySpills(d: Date)
    requires 1 <= d.month <= 11
    ensures Days(d) == Days(Date(d.year, d.month + 1, d.day - MonthLength(d.year, d.month)))
  {
    DaysFromCivilCounts(d);
    DaysFromCivilCounts(Date(d.year, d.month + 1, d.day - MonthLength(d.year, d.month)));
  }

  /** The day count of a date whose month may lie outside 1-12: whole years are carried over. */
  function CarriedDays(d: Date): int {
    CountedDays(Date(d.year + (d.month - 1) / 12, (d.month - 1) % 12 + 1, d.day))
  }

  lemma {:induction false} YearsGrowMarchFirst(y: int, n: nat)
    ensures MarchFirst(y + n) - MarchFirst(y) <= 366 * n
  {
    hide MarchFirst;
    if n == 0 {
    } else {
      YearsGrowMarchFirst(y, n - 1);
      MarchFirstStep(y + n);
      assert MarchFirst(y + n) - MarchFirst(y + n - 1) <= 366;
    }
  }

  /** Where the closed form puts the first of a month: `m` months after March of a year. */
  function MonthsAfterMarch(m: int): int {
    (153 * m + 2) / 5
  }

  /** Twelve months at a time it moves on by more days than any year has. */
  lemma MonthsOutrunYears(y: int, n: nat, m: nat)
    ensures MarchFirst(y) + MonthsAfterMarch(12 * n + m) >= MarchFirst(y + n) + MonthsAfterMarch(m) + n
  {
    YearsGrowMarchFirst(y, n);
    hide MarchFirst;
    assert 153 * (12 * n + m) + 2 == 5 * (367 * n) + (153 * m + 2 + n);
    assert (5 * (367 * n) + (153 * m + 2 + n)) / 5 == 367 * n + (153 * m + 2 + n) / 5;
  }

  lemma ClosedFormAfterMarch(year: int, month: int, day: int)
    requires month >= 0
    ensures DaysFromCivil(year, month, day)
         == (if month > 2 then MarchFirst(year) + MonthsAfterMarch(month - 3)
             else MarchFirst(year - 1) + MonthsAfterMarch(month + 9)) + day - 1
  {
    ClosedForm(year, month, day);
  }

  lemma CarriedClosedForm(d: Date, a: int, b: int)
    requires d.month == 12 * a + b && 1 <= b <= 12
    ensures CarriedDays(d)
         == (if b > 2 then MarchFirst(d.year + a) + MonthsAfterMarch(b - 3)
             else MarchFirst(d.year + a - 1) + MonthsAfterMarch(b + 9)) + d.day - 1
  {
    hide DaysFromCivil, CountedDays, MarchFirst, MonthsAfterMarch;
    assert (d.month - 1) / 12 == a && (d.month - 1) % 12 == b - 1;
    DaysFromCivilCounts(Date(d.year + a, b, d.day));
    ClosedFormAfterMarch(d.year + a, b, d.day);
  }

  /** Month numbers outside 1-12, which the timestamp parser lets through: month 0 is the December
      before, 13 and 14 are the January and February after, and every later one counts too many days. */
  lemma MonthsCarryTo14(d: Date)
    requires 0 <= d.month
    ensures DaysFromCivil(d.year, d.month, d.day) == CarriedDays(d) <==> d.month <= 14
  {
    hide MarchFirst, DaysFromCivil, CountedDays, MonthsAfterMarch, CarriedDays;
    var a, b := (d.month - 1) / 12, (d.month - 1) % 12 + 1;
    ClosedFormAfterMarch(d.year, d.month, d.day);
    CarriedClosedForm(d, a, b);
    if d.month > 14 {
      var n, m := if b > 2 then a else a - 1, if b > 2 then b - 3 else b + 9;
      assert d.month - 3 == 12 * n + m;
      MonthsOutrunYears(d.year, n, m);
    }
  }

  lemma MonthsFitYear(year: int, m: int, n: int)
    requires 1 <= m <= n <= 13
    ensures DaysBeforeMonth(year, m) <= DaysBeforeMonth(year, n)
    ensures m < n ==> DaysBeforeMonth(year, m) + MonthLength(year, m) <= DaysBeforeMonth(year, n)
  {
    if m + 1 < n {
      MonthsFitYear(year, m, n - 1);
    }
  }

  lemma {:induction false} YearsAreOrdered(a: int, b: int)
    requires a <= b
    ensures DaysBeforeYear(a) + 365 * (b - a) <= DaysBeforeYear(b)
    ensures a < b ==> DaysBeforeYear(a) + YearLength(a) <= DaysBeforeYear(b)
    decreases b - a
  {
    if a < b {
      YearsAreOrdered(a, b - 1);
      YearStep(b - 1);
    }
  }

  lemma DayFitsYear(d: Date)
    requires Valid(d)
    ensures DaysBeforeYear(d.year) <= Days(d) < DaysBeforeYear(d.year) + YearLength(d.year)
  {
    DaysFromCivilCounts(d);
    MonthsFitYear(d.year, 1, d.month);
    MonthsFitYear(d.year, d.month, 13);
    YearIsItsMonths(d.year);
  }

  lemma EarlierIsLess(a: Date, b: Date)
    requires Valid(a) && Valid(b) && Before(a, b)
    ensures Days(a) < Days(b)
  {
    if a.year < b.year {
      DayFitsYear(a);
      DayFitsYear(b);
      YearsAreOrdered(a.year, b.year);
    } else {
      DaysFromCivilCounts(a);
      DaysFromCivilCounts(b);
      MonthsFitYear(a.year, a.month, b.month);
    }
  }

  /** Day numbers order valid dates exactly as the calendar does; in particular no two share one. */
  lemma DaysOrderDates(a: Date, b: Date)
    requires Valid(a) && Valid(b)
    ensures Days(a) < Days(b) <==> Before(a, b)
    ensures Days(a) == Days(b) <==> a == b
  {
    if Before(a, b) {
      EarlierIsLess(a, b);
    } else if Before(b, a) {
      EarlierIsLess(b, a);
    }
  }

  /** The date `n` days from the epoch, found by walking the calendar. */
  function DateAt(n: int): Date
    decreases if n >= 0 then n else -n
  {
    if n == 0 then EPOCH else if n > 0 then Next(DateAt(n - 1)) else Prev(DateAt(n + 1))
  }

  lemma {:induction false} WalkArrives(n: int)
    ensures Valid(DateAt(n)) && Days(DateAt(n)) == n
    decreases if n >= 0 then n else -n
  {
    hide DaysFromCivil, Next, Prev;
    if n == 0 {
      EpochIsDayZero();
    } else if n > 0 {
      WalkArrives(n - 1);
      NextDayIsPlusOne(DateAt(n - 1));
    } else {
      WalkArrives(n + 1);
      PrevDayIsMinusOne(DateAt(n + 1));
    }
  }

  lemma EpochIsDayZero()
    ensures Valid(EPOCH) && Days(EPOCH) == 0
  {
  }

  /** `days_from_civil` is a bijection between valid dates and the integers, inverse to walking the
      calendar from the epoch. */
  lemma DaysInvertWalk(d: Date, n: int)
    requires Valid(d)
    ensures Days(DateAt(n)) == n && DateAt(Days(d)) == d
  {
    WalkArrives(n);
    WalkArrives(Days(d));
    DaysOrderDates(d, DateAt(Days(d)));
  }

  lemma CycleStep(y: int)
    ensures MarchFirst(y + 400) == MarchFirst(y) + 146_097
  {
    DivShift(y, 100, 4);
    DivShift(y, 4, 100);
    DivShift(y, 1, 400);
  }

  lemma DivShift(y: int, k: int, d: int)
    requires d in {4, 100, 400}
    ensures (y + k * d) / d == y / d + k
  {
  }

  /** 400 years add 146,097 days, across the change of sign too. */
  lemma GregorianCycle(d: Date)
    requires 1 <= d.month <= 12
    ensures Days(d.(year := d.year + 400)) == Days(d) + 146_097
  {
    hide DaysFromCivil, MarchFirst;
    CycleStep(d.year);
    CycleStep(d.year - 1);
    ClosedForm(d.year, d.month, d.day);
    ClosedForm(d.year + 400, d.month, d.day);
  }
}
