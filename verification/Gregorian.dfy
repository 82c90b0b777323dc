/** Proleptic Gregorian dates with the ordinal of Python's `date`: day 1 is January 1 of year 1, a Monday. Dates are bounded
    by nothing but the calendar, so every statement about them holds for years before 1 and after 9999 as well; the order of
    dates is that of their ordinals, and a weekday is a remainder of the ordinal. */
module Gregorian {
  const MONDAY := 0
  const THURSDAY := 3
  const FRIDAY := 4
  const SATURDAY := 5
  const SUNDAY := 6

  predicate IsLeap(year: int) {
    year % 4 == 0 && (year % 100 != 0 || year % 400 == 0)
  }

  function DaysInMonth(year: int, month: int): (n: int)
    requires 1 <= month <= 12
    ensures 28 <= n <= 31
  {
    if month == 2 then (if IsLeap(year) then 29 else 28)
    else if month == 4 || month == 6 || month == 9 || month == 11 then 30
    else 31
  }

  datatype RawDate = RawDate(year: int, month: int, day: int)

  predicate IsDate(d: RawDate) {
    1 <= d.month <= 12 && 1 <= d.day <= DaysInMonth(d.year, d.month)
  }

  type Date = d: RawDate | IsDate(d) witness RawDate(2000, 1, 1)

  function DaysBeforeYear(year: int): int {
    var y := year - 1;
    y * 365 + y / 4 - y / 100 + y / 400
  }

  function DaysBeforeMonth(year: int, month: int): (n: int)
    requires 1 <= month <= 13
  {
    [0, 31, 59, 90, 120, 151, 181, 212, 243, 273, 304, 334, 365][month - 1] + (if month > 2 && IsLeap(year) then 1 else 0)
  }

  function Ordinal(d: Date): int {
    DaysBeforeYear(d.year) + DaysBeforeMonth(d.year, d.month) + d.day
  }

  /** Monday is 0 and Sunday is 6. */
  function Weekday(d: Date): (w: int)
    ensures 0 <= w <= 6
  {
    (Ordinal(d) + 6) % 7
  }

  function Tomorrow(d: Date): (r: Date)
    ensures Ordinal(r) == Ordinal(d) + 1
  {
    YearLength(d.year);
    MonthLength(d.year, d.month);
    if d.day < DaysInMonth(d.year, d.month) then RawDate(d.year, d.month, d.day + 1)
    else if d.month < 12 then RawDate(d.year, d.month + 1, 1)
    else RawDate(d.year + 1, 1, 1)
  }

  function Yesterday(d: Date): (r: Date)
    ensures Ordinal(r) == Ordinal(d) - 1
  {
    YearLength(d.year - 1);
    if d.day > 1 then RawDate(d.year, d.month, d.day - 1)
    else if d.month > 1 then
      MonthLength(d.year, d.month - 1);
      RawDate(d.year, d.month - 1, DaysInMonth(d.year, d.month - 1))
    else RawDate(d.year - 1, 12, 31)
  }

  /** Adding a `timedelta` of whole days. */
  function AddDays(d: Date, n: int): (r: Date)
    ensures Ordinal(r) == Ordinal(d) + n
    decreases if n < 0 then -n else n
  {
    if n == 0 then d
    else if n > 0 then AddDays(Tomorrow(d), n - 1)
    else AddDays(Yesterday(d), n + 1)
  }

  lemma YearLength(year: int)
    ensures DaysBeforeYear(year + 1) - DaysBeforeYear(year) == DaysBeforeMonth(year, 13)
  {
    var y := year - 1;
    FloorStep(y, 4);
    FloorStep(y, 100);
    FloorStep(y, 400);
    assert year % 400 == 0 ==> year % 100 == 0;
    assert year % 100 == 0 ==> year % 4 == 0;
  }

  lemma FloorStep(y: int, k: int)
    requires k == 4 || k == 100 || k == 400
    ensures (y + 1) / k - y / k == if (y + 1) % k == 0 then 1 else 0
  {
  }

  lemma MonthLength(year: int, month: int)
    requires 1 <= month <= 12
    ensures DaysBeforeMonth(year, month + 1) - DaysBeforeMonth(year, month) == DaysInMonth(year, month)
  {
  }

  lemma YearsApart(a: int, b: int)
    requires a < b
    ensures DaysBeforeYear(a) + DaysBeforeMonth(a, 13) <= DaysBeforeYear(b)
  {
    YearLength(a);
  }

  /** Dates are ordered by their ordinals exactly as by year, then month, then day. */
  lemma OrdinalOrder(a: Date, b: Date)
    ensures Ordinal(a) < Ordinal(b) <==>
            a.year < b.year || (a.year == b.year && (a.month < b.month || (a.month == b.month && a.day < b.day)))
  {
    if a.year < b.year {
      YearsApart(a.year, b.year);
    } else if b.year < a.year {
      YearsApart(b.year, a.year);
    } else {
      MonthLength(a.year, a.month);
      MonthLength(b.year, b.month);
    }
  }

  lemma OrdinalInjective(a: Date, b: Date)
    requires Ordinal(a) == Ordinal(b)
    ensures a == b
  {
    OrdinalOrder(a, b);
    OrdinalOrder(b, a);
  }
}
