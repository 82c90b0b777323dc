/** NYSE holidays and trading days (`market_calendar.py`). The rule the exchange follows is stated day by day; the table the
    program fills for one year, the lookup over two years and the two searches for a trading day are then proved to follow
    it, for every year. That no four consecutive days are closed is what makes the searches end. */
module TradingCalendar {
  import opened Options
  import opened Gregorian
  import opened Computus

  datatype Holiday =
    | NewYear | MartinLutherKing | Washington | GoodFriday | Memorial
    | Juneteenth | Independence | Labor | Thanksgiving | Christmas

  datatype Reason = Weekend | Closed(holiday: Holiday) | RegularTradingDay

  // ----- Weekday arithmetic -----

  lemma WeekdayShift(d: Date, e: Date)
    ensures Weekday(e) == (Weekday(d) + (Ordinal(e) - Ordinal(d))) % 7
  {
    ShiftMod7(Ordinal(d), Ordinal(e) - Ordinal(d));
  }

  lemma ShiftMod7(n: int, k: int)
    ensures (n + k + 6) % 7 == ((n + 6) % 7 + k) % 7
  {
    var m := n + 6;
    assert m + k == 7 * (m / 7) + (m % 7 + k);
  }

  lemma NextWeekday(d: Date, e: Date)
    requires Ordinal(e) == Ordinal(d) + 1
    ensures Weekday(e) == if Weekday(d) == SUNDAY then MONDAY else Weekday(d) + 1
  {
    ShiftMod7(Ordinal(d), 1);
  }

  function NthWeekday(year: int, month: int, weekday: int, n: int): (r: Date)
    requires 1 <= month <= 12 && 0 <= weekday <= 6
    ensures Weekday(r) == weekday
    ensures 1 <= n <= 4 ==> r.year == year && r.month == month && 7 * n - 6 <= r.day <= 7 * n
  {
    var current := RawDate(year, month, 1);
    var offset := (weekday - Weekday(current)) % 7;
    var r := AddDays(current, offset + (n - 1) * 7);
    WeekdayReached(Weekday(current), weekday, offset, n);
    WeekdayShift(current, r);
    assert 1 <= n <= 4 ==> 1 + offset + (n - 1) * 7 <= 28;
    assert 1 <= n <= 4 ==> r == RawDate(year, month, 1 + offset + (n - 1) * 7) by {
      if 1 <= n <= 4 {
        OrdinalInjective(r, RawDate(year, month, 1 + offset + (n - 1) * 7));
      }
    }
    r
  }

  lemma WeekdayReached(from: int, to: int, offset: int, n: int)
    requires 0 <= from <= 6 && 0 <= to <= 6 && offset == (to - from) % 7
    ensures (from + (offset + (n - 1) * 7)) % 7 == to
  {
  }

  lemma MonthEnd(year: int, month: int, d: Date)
    requires 1 <= month <= 12
    requires Ordinal(d) == Ordinal(RawDate(if month == 12 then year + 1 else year, if month == 12 then 1 else month + 1, 1)) - 1
    ensures d == RawDate(year, month, DaysInMonth(year, month))
  {
    MonthLength(year, month);
    YearLength(year);
    OrdinalInjective(d, RawDate(year, month, DaysInMonth(year, month)));
  }

  function LastWeekday(year: int, month: int, weekday: int): (r: Date)
    requires 1 <= month <= 12 && 0 <= weekday <= 6
    ensures r.year == year && r.month == month && Weekday(r) == weekday
    ensures DaysInMonth(year, month) - 6 <= r.day
  {
    var nextMonth := RawDate(if month == 12 then year + 1 else year, if month == 12 then 1 else month + 1, 1);
    var current := AddDays(nextMonth, -1);
    MonthEnd(year, month, current);
    var back := (Weekday(current) - weekday) % 7;
    var r := AddDays(current, -back);
    WeekdayLeft(Weekday(current), weekday, back);
    WeekdayShift(current, r);
    OrdinalInjective(r, RawDate(year, month, DaysInMonth(year, month) - back));
    r
  }

  lemma WeekdayLeft(from: int, to: int, back: int)
    requires 0 <= from <= 6 && 0 <= to <= 6 && back == (from - to) % 7
    ensures (from - back) % 7 == to
  {
  }

  // ----- The rule each holiday follows, read off the day itself -----

  /** A fixed date kept on the Friday before when it falls on Saturday and on the Monday after when on Sunday. */
  predicate KeepsFixedDate(d: Date, month: int, day: int)
    requires 2 <= day <= 27
  {
    d.month == month &&
    ((d.day == day && Weekday(d) < SATURDAY) ||
     (d.day == day - 1 && Weekday(d) == FRIDAY) ||
     (d.day == day + 1 && Weekday(d) == MONDAY))
  }

  /** The exchange is closed on `d` for `h`. A New Year's Day on a Saturday is not observed at all. */
  predicate Celebrates(h: Holiday, d: Date) {
    match h
    case NewYear => d.month == 1 && ((d.day == 1 && Weekday(d) < SATURDAY) || (d.day == 2 && Weekday(d) == MONDAY))
    case MartinLutherKing => d.month == 1 && Weekday(d) == MONDAY && 15 <= d.day <= 21
    case Washington => d.month == 2 && Weekday(d) == MONDAY && 15 <= d.day <= 21
    case GoodFriday => Ordinal(d) + 2 == Ordinal(EasterSunday(d.year))
    case Memorial => d.month == 5 && Weekday(d) == MONDAY && 25 <= d.day
    case Juneteenth => d.year >= 2022 && KeepsFixedDate(d, 6, 19)
    case Independence => KeepsFixedDate(d, 7, 4)
    case Labor => d.month == 9 && Weekday(d) == MONDAY && d.day <= 7
    case Thanksgiving => d.month == 11 && Weekday(d) == THURSDAY && 22 <= d.day <= 28
    case Christmas => KeepsFixedDate(d, 12, 25)
  }

  predicate IsTradingDay(d: Date) {
    Weekday(d) < SATURDAY && forall h: Holiday :: !Celebrates(h, d)
  }

  // ----- The table the program builds -----

  function Observed(actual: Date): Date {
    if Weekday(actual) == SATURDAY then Yesterday(actual)
    else if Weekday(actual) == SUNDAY then Tomorrow(actual)
    else actual
  }

  /** The entry `_nyse_holidays(year)` holds for `h`. */
  function TableDate(year: int, h: Holiday): (r: Date)
  {
    match h
    case NewYear => Observed(RawDate(year, 1, 1))
    case MartinLutherKing => NthWeekday(year, 1, MONDAY, 3)
    case Washington => NthWeekday(year, 2, MONDAY, 3)
    case GoodFriday => AddDays(EasterSunday(year), -2)
    case Memorial => LastWeekday(year, 5, MONDAY)
    case Juneteenth => Observed(RawDate(year, 6, 19))
    case Independence => Observed(RawDate(year, 7, 4))
    case Labor => NthWeekday(year, 9, MONDAY, 1)
    case Thanksgiving => NthWeekday(year, 11, THURSDAY, 4)
    case Christmas => Observed(RawDate(year, 12, 25))
  }

  predicate InTable(year: int, h: Holiday) {
    h == Juneteenth ==> year >= 2022
  }

  lemma ObservedFixedDate(actual: Date, d: Date)
    requires 2 <= actual.day <= 27
    ensures Observed(actual).year == actual.year
    ensures d.year == actual.year ==> (d == Observed(actual) <==> KeepsFixedDate(d, actual.month, actual.day))
  {
    var before, after := RawDate(actual.year, actual.month, actual.day - 1), RawDate(actual.year, actual.month, actual.day + 1);
    NextWeekday(before, actual);
    NextWeekday(actual, after);
    OrdinalInjective(Yesterday(actual), before);
    OrdinalInjective(Tomorrow(actual), after);
  }

  lemma ObservedNewYear(year: int, d: Date)
    ensures d.year == year ==> (d == Observed(RawDate(year, 1, 1)) <==> Celebrates(NewYear, d))
    ensures Observed(RawDate(year, 1, 1)).year == if Weekday(RawDate(year, 1, 1)) == SATURDAY then year - 1 else year
  {
    var actual := RawDate(year, 1, 1);
    WeekdayShift(actual, Observed(actual));
    if d.year == year && Celebrates(NewYear, d) {
      WeekdayShift(actual, d);
    }
  }

  lemma SameWeekdayNear(d: Date, e: Date)
    requires Weekday(d) == Weekday(e) && d.year == e.year && d.month == e.month && -6 <= d.day - e.day <= 6
    ensures d == e
  {
    WeekdayShift(d, e);
  }

  /** Within the year it is built for, the table lists exactly the days of the rule. */
  lemma TableMatchesRule(year: int, h: Holiday, d: Date)
    requires d.year == year
    ensures InTable(year, h) && d == TableDate(year, h) <==> Celebrates(h, d)
  {
    match h
    case NewYear => ObservedNewYear(year, d);
    case Juneteenth => ObservedFixedDate(RawDate(year, 6, 19), d);
    case Independence => ObservedFixedDate(RawDate(year, 7, 4), d);
    case Christmas => ObservedFixedDate(RawDate(year, 12, 25), d);
    case GoodFriday =>
      if Celebrates(h, d) {
        OrdinalInjective(d, TableDate(year, h));
      }
    case _ =>
      if Celebrates(h, d) {
        SameWeekdayNear(d, TableDate(year, h));
      }
  }

  lemma GoodFridayRange(d: Date, year: int)
    requires Ordinal(d) + 2 == Ordinal(EasterSunday(year))
    ensures d.year == year && Weekday(d) == FRIDAY
    ensures (d.month == 3 && 20 <= d.day) || (d.month == 4 && d.day <= 23)
  {
    TwoDaysBefore(EasterSunday(year), d);
  }

  lemma TwoDaysBefore(sunday: Date, d: Date)
    requires Weekday(sunday) == SUNDAY && Ordinal(d) + 2 == Ordinal(sunday)
    requires (sunday.month == 3 && 22 <= sunday.day) || (sunday.month == 4 && sunday.day <= 25)
    ensures d.year == sunday.year && Weekday(d) == FRIDAY
    ensures (d.month == 3 && 20 <= d.day) || (d.month == 4 && d.day <= 23)
  {
    WeekdayShift(sunday, d);
    if sunday.day > 2 {
      OrdinalInjective(d, RawDate(sunday.year, sunday.month, sunday.day - 2));
    } else {
      OrdinalInjective(d, RawDate(sunday.year, 3, sunday.day + 29));
    }
  }

  // ----- Holidays are at least four days apart -----

  function DayOfYear(d: Date): int {
    DaysBeforeMonth(d.year, d.month) + d.day
  }

  /** The first and last day of a common year on which `h` can fall; from March on a leap year adds one. */
  function Window(h: Holiday): (int, int) {
    match h
    case NewYear => (1, 2)
    case MartinLutherKing => (15, 21)
    case Washington => (46, 52)
    case GoodFriday => (79, 113)
    case Memorial => (145, 151)
    case Juneteenth => (169, 171)
    case Independence => (184, 186)
    case Labor => (244, 250)
    case Thanksgiving => (326, 332)
    case Christmas => (358, 360)
  }

  predicate InWindow(h: Holiday, d: Date) {
    var leap := if IsLeap(d.year) && Window(h).0 > 59 then 1 else 0;
    Window(h).0 + leap <= DayOfYear(d) <= Window(h).1 + leap
  }

  lemma FallsInWindow(h: Holiday, d: Date)
    requires Celebrates(h, d)
    ensures InWindow(h, d)
  {
    if h == GoodFriday {
      GoodFridayRange(d, d.year);
    }
  }

  lemma WindowsApart(g: Holiday, h: Holiday, d: Date, e: Date)
    requires InWindow(g, d) && InWindow(h, e) && Ordinal(d) < Ordinal(e)
    requires d.year == e.year ==> g != h
    ensures Ordinal(e) - Ordinal(d) >= 4
  {
    if d.year != e.year {
      OrdinalOrder(d, e);
      YearsApart(d.year, e.year);
    }
  }

  lemma OncePerYear(h: Holiday, d: Date, e: Date)
    requires Celebrates(h, d) && Celebrates(h, e) && d.year == e.year
    ensures d == e
  {
    TableMatchesRule(d.year, h, d);
    TableMatchesRule(d.year, h, e);
  }

  lemma HolidaysApart(g: Holiday, h: Holiday, d: Date, e: Date)
    requires Celebrates(g, d) && Celebrates(h, e) && Ordinal(d) < Ordinal(e)
    ensures Ordinal(e) - Ordinal(d) >= 4
  {
    FallsInWindow(g, d);
    FallsInWindow(h, e);
    if d.year == e.year && g == h {
      OncePerYear(h, d, e);
    } else {
      WindowsApart(g, h, d, e);
    }
  }

  /** Two working days less than four days apart are not both closed. */
  lemma NotBothClosed(d: Date, e: Date)
    requires Weekday(d) < SATURDAY && Weekday(e) < SATURDAY
    requires Ordinal(d) < Ordinal(e) < Ordinal(d) + 4
    ensures IsTradingDay(d) || IsTradingDay(e)
  {
    if !IsTradingDay(d) && !IsTradingDay(e) {
      var g: Holiday :| Celebrates(g, d);
      var h: Holiday :| Celebrates(h, e);
      HolidaysApart(g, h, d, e);
    }
  }

  predicate Consecutive(a: Date, b: Date, c: Date, d: Date) {
    Ordinal(b) == Ordinal(a) + 1 && Ordinal(c) == Ordinal(a) + 2 && Ordinal(d) == Ordinal(a) + 3
  }

  /** No four consecutive days are all closed. */
  lemma NoFourClosed(a: Date, b: Date, c: Date, d: Date)
    requires Consecutive(a, b, c, d)
    ensures IsTradingDay(a) || IsTradingDay(b) || IsTradingDay(c) || IsTradingDay(d)
  {
    NextWeekday(a, b);
    NextWeekday(b, c);
    NextWeekday(c, d);
    if Weekday(a) <= 3 {
      NotBothClosed(a, b);
    } else if Weekday(a) == FRIDAY {
      NotBothClosed(a, d);
    } else if Weekday(a) == SATURDAY {
      NotBothClosed(c, d);
    } else {
      NotBothClosed(b, c);
    }
  }

  /** A New Year's Day on a Saturday is entered on December 31, where no lookup by year finds it: the exchange stays open. */
  lemma SaturdayNewYearIsNotObserved(year: int)
    requires Weekday(RawDate(year, 1, 1)) == SATURDAY
    ensures TableDate(year, NewYear) == RawDate(year - 1, 12, 31)
    ensures IsTradingDay(RawDate(year - 1, 12, 31))
  {
    var eve := RawDate(year - 1, 12, 31);
    OrdinalInjective(Yesterday(RawDate(year, 1, 1)), eve);
    NextWeekday(eve, RawDate(year, 1, 1));
    forall h: Holiday
      ensures !Celebrates(h, eve)
    {
      if Celebrates(h, eve) {
        FallsInWindow(h, eve);
      }
    }
  }

  // ----- The two searches -----

  /** It happens for no other weekday: then the day entered for New Year's Day is a day on which it is kept. */
  lemma NewYearIsObservedIff(year: int)
    ensures Celebrates(NewYear, TableDate(year, NewYear)) <==> Weekday(RawDate(year, 1, 1)) != SATURDAY
  {
    var d := TableDate(year, NewYear);
    if Weekday(RawDate(year, 1, 1)) == SATURDAY {
      SaturdayNewYearIsNotObserved(year);
    } else {
      ObservedNewYear(year, d);
    }
  }

  lemma AmongFour(a: Date, b: Date, c: Date, d: Date, x: Date)
    requires Consecutive(a, b, c, d) && Ordinal(a) <= Ordinal(x) <= Ordinal(d)
    ensures x == a || x == b || x == c || x == d
  {
    var y := if Ordinal(x) == Ordinal(a) then a else if Ordinal(x) == Ordinal(b) then b else if Ordinal(x) == Ordinal(c) then c else d;
    OrdinalInjective(x, y);
  }

  function FirstOpen(a: Date, b: Date, c: Date, d: Date): Date {
    if IsTradingDay(a) then a else if IsTradingDay(b) then b else if IsTradingDay(c) then c else d
  }

  lemma FirstOpenIsLeast(a: Date, b: Date, c: Date, d: Date, x: Date)
    requires Consecutive(a, b, c, d) && IsTradingDay(x) && Ordinal(a) <= Ordinal(x)
    ensures Ordinal(FirstOpen(a, b, c, d)) <= Ordinal(x)
  {
    if Ordinal(x) <= Ordinal(d) {
      AmongFour(a, b, c, d, x);
    }
  }

  lemma FirstOpenIsGreatest(a: Date, b: Date, c: Date, d: Date, x: Date)
    requires Consecutive(d, c, b, a) && IsTradingDay(x) && Ordinal(x) <= Ordinal(a)
    ensures Ordinal(x) <= Ordinal(FirstOpen(a, b, c, d))
  {
    if Ordinal(d) <= Ordinal(x) {
      AmongFour(d, c, b, a, x);
    }
  }

  function NextTradingDay(d: Date): (r: Date)
    ensures IsTradingDay(r) && Ordinal(d) <= Ordinal(r) <= Ordinal(d) + 3
    ensures forall x: Date {:trigger IsTradingDay(x)} :: IsTradingDay(x) && Ordinal(d) <= Ordinal(x) ==> Ordinal(r) <= Ordinal(x)
  {
    var d1, d2, d3 := AddDays(d, 1), AddDays(d, 2), AddDays(d, 3);
    NoFourClosed(d, d1, d2, d3);
    var r := FirstOpen(d, d1, d2, d3);
    assert forall x: Date {:trigger IsTradingDay(x)} :: IsTradingDay(x) && Ordinal(d) <= Ordinal(x) ==> Ordinal(r) <= Ordinal(x) by {
      forall x: Date {:trigger IsTradingDay(x)} | IsTradingDay(x) && Ordinal(d) <= Ordinal(x)
        ensures Ordinal(r) <= Ordinal(x)
      {
        FirstOpenIsLeast(d, d1, d2, d3, x);
      }
    }
    r
  }

  function PreviousTradingDay(d: Date): (r: Date)
    ensures IsTradingDay(r) && Ordinal(d) - 3 <= Ordinal(r) <= Ordinal(d)
    ensures forall x: Date {:trigger IsTradingDay(x)} :: IsTradingDay(x) && Ordinal(x) <= Ordinal(d) ==> Ordinal(x) <= Ordinal(r)
  {
    var d1, d2, d3 := AddDays(d, -1), AddDays(d, -2), AddDays(d, -3);
    NoFourClosed(d3, d2, d1, d);
    var r := FirstOpen(d, d1, d2, d3);
    assert forall x: Date {:trigger IsTradingDay(x)} :: IsTradingDay(x) && Ordinal(x) <= Ordinal(d) ==> Ordinal(x) <= Ordinal(r) by {
      forall x: Date {:trigger IsTradingDay(x)} | IsTradingDay(x) && Ordinal(x) <= Ordinal(d)
        ensures Ordinal(x) <= Ordinal(r)
      {
        FirstOpenIsGreatest(d, d1, d2, d3, x);
      }
    }
    r
  }

  // ----- The program -----

  /** The order in which the program enters the holidays. */
  function Rank(h: Holiday): nat {
    match h
    case NewYear => 0 case MartinLutherKing => 1 case Washington => 2 case GoodFriday => 3 case Memorial => 4
    case Juneteenth => 5 case Independence => 6 case Labor => 7 case Thanksgiving => 8 case Christmas => 9
  }

  /** `m` holds the first `n` holidays of the year, each on its own day, and nothing else. */
  ghost predicate Tabulates(m: map<Date, Holiday>, year: int, n: nat) {
    (forall d <- m :: InTable(year, m[d]) && Rank(m[d]) < n && d == TableDate(year, m[d]) && d.year <= year) &&
    (forall h: Holiday :: InTable(year, h) && Rank(h) < n ==> TableDate(year, h) in m && m[TableDate(year, h)] == h)
  }

  /** An assignment into the table never overwrites an earlier holiday. */
  method SetHoliday(holidays: map<Date, Holiday>, day: Date, name: Holiday, ghost year: int)
    returns (updated: map<Date, Holiday>)
    requires Tabulates(holidays, year, Rank(name)) && InTable(year, name) && day == TableDate(year, name) && day.year <= year
    ensures Tabulates(updated, year, Rank(name) + 1)
  {
    updated := holidays[day := name];
    forall h: Holiday | InTable(year, h) && Rank(h) < Rank(name) + 1
      ensures TableDate(year, h) in updated && updated[TableDate(year, h)] == h
    {
      if TableDate(year, h) == day {
        TableDatesDistinct(year, h, name);
      }
    }
  }

  method AddObserved(holidays: map<Date, Holiday>, actual: Date, name: Holiday, ghost year: int)
    returns (updated: map<Date, Holiday>)
    requires Tabulates(holidays, year, Rank(name)) && InTable(year, name) && Observed(actual) == TableDate(year, name) && Observed(actual).year <= year
    ensures Tabulates(updated, year, Rank(name) + 1)
  {
    var observed := actual;
    if Weekday(actual) == SATURDAY {
      observed := Yesterday(actual);
    } else if Weekday(actual) == SUNDAY {
      observed := Tomorrow(actual);
    }
    updated := SetHoliday(holidays, observed, name, year);
  }

  method EnterWinterAndSpring(year: int) returns (holidays: map<Date, Holiday>)
    ensures Tabulates(holidays, year, Rank(Juneteenth))
  {
    holidays := AddObserved(map[], RawDate(year, 1, 1), NewYear, year);
    holidays := SetHoliday(holidays, NthWeekday(year, 1, MONDAY, 3), MartinLutherKing, year);
    holidays := SetHoliday(holidays, NthWeekday(year, 2, MONDAY, 3), Washington, year);
    GoodFridayRange(AddDays(EasterSunday(year), -2), year);
    holidays := SetHoliday(holidays, AddDays(EasterSunday(year), -2), GoodFriday, year);
    holidays := SetHoliday(holidays, LastWeekday(year, 5, MONDAY), Memorial, year);
  }

  method EnterSummer(entered: map<Date, Holiday>, year: int) returns (holidays: map<Date, Holiday>)
    requires Tabulates(entered, year, Rank(Juneteenth))
    ensures Tabulates(holidays, year, Rank(Labor))
  {
    holidays := entered;
    if year >= 2022 {
      holidays := AddObserved(holidays, RawDate(year, 6, 19), Juneteenth, year);
    }
    holidays := AddObserved(holidays, RawDate(year, 7, 4), Independence, year);
  }

  /** The table of one year holds each holiday on its own day. */
  method NyseHolidays(year: int) returns (holidays: map<Date, Holiday>)
    ensures Tabulates(holidays, year, 10)
  {
    holidays := EnterWinterAndSpring(year);
    holidays := EnterSummer(holidays, year);
    holidays := SetHoliday(holidays, NthWeekday(year, 9, MONDAY, 1), Labor, year);
    holidays := SetHoliday(holidays, NthWeekday(year, 11, THURSDAY, 4), Thanksgiving, year);
    holidays := AddObserved(holidays, RawDate(year, 12, 25), Christmas, year);
  }

  lemma TableMonth(year: int, h: Holiday)
    ensures var d := TableDate(year, h);
            match h
            case NewYear => (d.month == 12 && d.year == year - 1) || (d.month == 1 && d.year == year && d.day <= 2)
            case MartinLutherKing => d.month == 1 && 15 <= d.day
            case Washington => d.month == 2
            case GoodFriday => d.month == 3 || d.month == 4
            case Memorial => d.month == 5
            case Juneteenth => d.month == 6
            case Independence => d.month == 7
            case Labor => d.month == 9
            case Thanksgiving => d.month == 11
            case Christmas => d.month == 12 && d.year == year
  {
    match h
    case GoodFriday => GoodFridayRange(TableDate(year, h), year);
    case _ =>
  }

  lemma TableDatesDistinct(year: int, g: Holiday, h: Holiday)
    requires TableDate(year, g) == TableDate(year, h)
    ensures g == h
  {
    TableMonth(year, g);
    TableMonth(year, h);
  }

  lemma LookupMatchesRule(holidays: map<Date, Holiday>, day: Date, h: Holiday)
    requires Tabulates(holidays, day.year, 10)
    ensures (day in holidays && holidays[day] == h) <==> Celebrates(h, day)
  {
    TableMatchesRule(day.year, h, day);
    var listed := InTable(day.year, h) && day == TableDate(day.year, h);
    assert listed ==> day in holidays && holidays[day] == h;
    assert day in holidays && holidays[day] == h ==> listed;
  }

  /** The two-year lookup names exactly the holiday the day celebrates: the previous year's table never answers. */
  method NyseHolidayName(day: Date) returns (name: Option<Holiday>)
    ensures forall h: Holiday :: name == Some(h) <==> Celebrates(h, day)
  {
    var holidays := NyseHolidays(day.year);
    var previousYearHolidays := NyseHolidays(day.year - 1);
    assert day !in previousYearHolidays;
    forall h: Holiday
      ensures (day in holidays && holidays[day] == h) <==> Celebrates(h, day)
    {
      LookupMatchesRule(holidays, day, h);
    }
    name := Get(holidays, day);
    if name == None {
      name := Get(previousYearHolidays, day);
    }
  }

  function Get(holidays: map<Date, Holiday>, day: Date): Option<Holiday> {
    if day in holidays then Some(holidays[day]) else None
  }

  method IsNyseTradingDay(day: Date) returns (open: bool, reason: Reason)
    ensures open == IsTradingDay(day)
    ensures open <==> Weekday(day) <= 4 && forall h: Holiday :: !Celebrates(h, day)
    ensures reason == RegularTradingDay <==> open
    ensures reason == Weekend <==> Weekday(day) >= SATURDAY
    ensures reason.Closed? ==> Celebrates(reason.holiday, day)
  {
    if Weekday(day) >= SATURDAY {
      return false, Weekend;
    }
    var holiday := NyseHolidayName(day);
    match holiday
    case Some(h) => return false, Closed(h);
    case None =>
      assert forall h: Holiday :: !Celebrates(h, day);
      return true, RegularTradingDay;
  }

  /** The forward search ends within three steps at the least trading day on or after `day`. */
  method NextNyseTradingDay(day: Date) returns (target: Date)
    ensures IsTradingDay(target) && Ordinal(day) <= Ordinal(target) <= Ordinal(day) + 3
    ensures forall x: Date {:trigger IsTradingDay(x)} :: IsTradingDay(x) && Ordinal(day) <= Ordinal(x) ==> Ordinal(target) <= Ordinal(x)
    ensures target == NextTradingDay(day)
  {
    target := day;
    var open, reason := IsNyseTradingDay(target);
    while !open
      invariant open == IsTradingDay(target)
      invariant Ordinal(day) <= Ordinal(target) <= Ordinal(NextTradingDay(day))
      decreases Ordinal(NextTradingDay(day)) - Ordinal(target)
    {
      if Ordinal(target) == Ordinal(NextTradingDay(day)) {
        OrdinalInjective(target, NextTradingDay(day));
      }
      target := AddDays(target, 1);
      open, reason := IsNyseTradingDay(target);
    }
    OrdinalInjective(target, NextTradingDay(day));
  }

  /** The backward search ends within three steps at the greatest trading day on or before `day`. */
  method PreviousNyseTradingDay(day: Date) returns (target: Date)
    ensures IsTradingDay(target) && Ordinal(day) - 3 <= Ordinal(target) <= Ordinal(day)
    ensures forall x: Date {:trigger IsTradingDay(x)} :: IsTradingDay(x) && Ordinal(x) <= Ordinal(day) ==> Ordinal(x) <= Ordinal(target)
    ensures target == PreviousTradingDay(day)
  {
    target := day;
    var open, reason := IsNyseTradingDay(target);
    while !open
      invariant open == IsTradingDay(target)
      invariant Ordinal(PreviousTradingDay(day)) <= Ordinal(target) <= Ordinal(day)
      decreases Ordinal(target) - Ordinal(PreviousTradingDay(day))
    {
      if Ordinal(target) == Ordinal(PreviousTradingDay(day)) {
        OrdinalInjective(target, PreviousTradingDay(day));
      }
      target := AddDays(target, -1);
      open, reason := IsNyseTradingDay(target);
    }
    OrdinalInjective(target, PreviousTradingDay(day));
  }
}
