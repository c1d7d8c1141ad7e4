/** The proleptic Gregorian calendar: days since 1970-01-01 and back. */
module Calendar {
  import opened Arithmetic

  datatype Date = Date(year: int, month: int, day: int)

  predicate IsLeap(year: int) {
    year % 4 == 0 && (year % 100 != 0 || year % 400 == 0)
  }

  function DaysInMonth(year: int, month: int): int {
    if month == 2 then (if IsLeap(year) then 29 else 28)
    else if month in {4, 6, 9, 11} then 30
    else 31
  }

  predicate ValidDate(d: Date) {
    1 <= d.month <= 12 && 1 <= d.day <= DaysInMonth(d.year, d.month)
  }

  function DaysInYear(year: int): int {
    if IsLeap(year) then 366 else 365
  }

  /** Days from 0000-01-01 to the first of January of a year. */
  function DaysBeforeYear(year: int): int {
    365 * year + (year + 3) / 4 - (year + 99) / 100 + (year + 399) / 400
  }

  /** The closed form counts exactly the leap years of the Gregorian rule. */
  lemma YearLength(year: int)
    ensures DaysBeforeYear(year + 1) == DaysBeforeYear(year) + DaysInYear(year)
  {
    Multiples(year, 4);
    Multiples(year, 100);
    Multiples(year, 400);
    DivisibleChain(year);
  }

  /** Rounding up moves by one exactly after a multiple. */
  lemma Multiples(y: int, k: int)
    requires k > 1
    ensures (y + 1 + k - 1) / k == (y + k - 1) / k + if y % k == 0 then 1 else 0
  {
    var q, r := y / k, y % k;
    if r == 0 {
      DivModUnique(y + k - 1, q, k - 1, k);
      DivModUnique(y + k, q + 1, 0, k);
    } else {
      DivModUnique(y + k - 1, q + 1, r - 1, k);
      DivModUnique(y + k, q + 1, r, k);
    }
  }

  lemma DivisibleChain(y: int)
    ensures y % 100 == 0 ==> y % 4 == 0
    ensures y % 400 == 0 ==> y % 100 == 0
  {
    if y % 100 == 0 { DivModUnique(y, 25 * (y / 100), 0, 4); }
    if y % 400 == 0 { DivModUnique(y, 4 * (y / 400), 0, 100); }
  }

  function DaysBeforeMonth(year: int, month: int): int
    requires 1 <= month <= 13
  {
    if month == 1 then 0 else DaysBeforeMonth(year, month - 1) + DaysInMonth(year, month - 1)
  }

  const EPOCH: int := 719_528
  const ERA_DAYS: int := 146_097

  function DaysFromCivil(d: Date): int
    requires ValidDate(d)
  {
    DaysBeforeYear(d.year) + DaysBeforeMonth(d.year, d.month) + d.day - 1 - EPOCH
  }

  lemma EpochIsDayZero()
    ensures DaysFromCivil(Date(1970, 1, 1)) == 0
  {}

  lemma EraStart(era: int)
    ensures DaysBeforeYear(400 * era) == ERA_DAYS * era
  {
    DivModUnique(400 * era + 3, 100 * era, 3, 4);
    DivModUnique(400 * era + 99, 4 * era, 99, 100);
    DivModUnique(400 * era + 399, era, 399, 400);
  }

  lemma TwelveMonths(year: int)
    ensures DaysBeforeMonth(year, 13) == DaysInYear(year)
  {
    assert DaysBeforeMonth(year, 2) == 31;
    assert DaysBeforeMonth(year, 3) == 31 + DaysInMonth(year, 2);
    assert DaysBeforeMonth(year, 5) == DaysBeforeMonth(year, 3) + 61;
    assert DaysBeforeMonth(year, 7) == DaysBeforeMonth(year, 5) + 61;
    assert DaysBeforeMonth(year, 9) == DaysBeforeMonth(year, 7) + 62;
    assert DaysBeforeMonth(year, 11) == DaysBeforeMonth(year, 9) + 61;
    assert DaysBeforeMonth(year, 13) == DaysBeforeMonth(year, 11) + 61;
  }

  /** The year containing a day counted from 0000-01-01, searching upwards from `year`. */
  function YearOf(day: int, year: int, limit: int): (y: int)
    requires DaysBeforeYear(year) <= day < DaysBeforeYear(limit) && year <= limit
    ensures DaysBeforeYear(y) <= day < DaysBeforeYear(y + 1)
    decreases limit - year
  {
    if day < DaysBeforeYear(year + 1) then year else YearOf(day, year + 1, limit)
  }

  function MonthOf(year: int, day: int, month: int): (m: int)
    requires 1 <= month <= 12 && DaysBeforeMonth(year, month) <= day < DaysBeforeMonth(year, 13)
    ensures 1 <= m <= 12 && DaysBeforeMonth(year, m) <= day < DaysBeforeMonth(year, m + 1)
    decreases 13 - month
  {
    if day < DaysBeforeMonth(year, month + 1) then month else MonthOf(year, day, month + 1)
  }

  function CivilFromDays(days: int): (d: Date)
    ensures ValidDate(d) && DaysFromCivil(d) == days
  {
    var day := days + EPOCH;
    var era := day / ERA_DAYS;
    EraStart(era);
    EraStart(era + 1);
    var year := YearOf(day, 400 * era, 400 * (era + 1));
    YearLength(year);
    TwelveMonths(year);
    var inYear := day - DaysBeforeYear(year);
    var month := MonthOf(year, inYear, 1);
    Date(year, month, inYear - DaysBeforeMonth(year, month) + 1)
  }

  // ---- calendar order is day order ----

  predicate DateBefore(a: Date, b: Date) {
    a.year < b.year || (a.year == b.year && (a.month < b.month || (a.month == b.month && a.day < b.day)))
  }

  lemma {:induction false} YearsGrow(a: int, b: int)
    requires a <= b
    ensures DaysBeforeYear(a) <= DaysBeforeYear(b)
    decreases b - a
  {
    if a < b {
      YearLength(a);
      YearsGrow(a + 1, b);
    }
  }

  lemma {:induction false} MonthsGrow(year: int, a: int, b: int)
    requires 1 <= a <= b <= 13
    ensures 0 <= DaysBeforeMonth(year, a) <= DaysBeforeMonth(year, b)
    decreases b
  {
    if a < b {
      MonthsGrow(year, a, b - 1);
    } else if a > 1 {
      MonthsGrow(year, a - 1, a - 1);
    }
  }

  lemma DayInYear(d: Date)
    requires ValidDate(d)
    ensures 0 <= DaysBeforeMonth(d.year, d.month) + d.day - 1 < DaysInYear(d.year)
  {
    MonthsGrow(d.year, 1, d.month);
    MonthsGrow(d.year, d.month + 1, 13);
    TwelveMonths(d.year);
  }

  lemma DaysMonotone(a: Date, b: Date)
    requires ValidDate(a) && ValidDate(b) && DateBefore(a, b)
    ensures DaysFromCivil(a) < DaysFromCivil(b)
  {
    DayInYear(a);
    DayInYear(b);
    if a.year < b.year {
      YearLength(a.year);
      YearsGrow(a.year + 1, b.year);
    } else if a.month < b.month {
      MonthsGrow(a.year, a.month + 1, b.month);
    }
  }

  /** The two conversions are inverse. */
  lemma CivilRoundTrip(d: Date)
    requires ValidDate(d)
    ensures CivilFromDays(DaysFromCivil(d)) == d
  {
    var back := CivilFromDays(DaysFromCivil(d));
    if DateBefore(back, d) {
      DaysMonotone(back, d);
    } else if DateBefore(d, back) {
      DaysMonotone(d, back);
    }
  }
}
