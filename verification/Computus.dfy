/** The Gregorian computus (`_easter_sunday` in `market_calendar.py`): the date it yields is a Sunday in the Easter range, and
    the Sunday after the full moon of the church's tables. The proof follows the decomposition of the year into centuries,
    quadrennia and the golden number that the program makes, one small congruence at a time. */
module Computus {
  import opened Gregorian

  /** The moon's offset `h` and the weekday offset `l` of the computus. */
  function MoonOffset(year: int): (h: int)
    ensures 0 <= h < 30
  {
    var a := year % 19;
    var b := year / 100;
    var d := b / 4;
    var f := (b + 8) / 25;
    var g := (b - f + 1) / 3;
    (19 * a + b - d - g + 15) % 30
  }

  function WeekdayOffset(year: int): (l: int)
    ensures 0 <= l < 7
  {
    var b := year / 100;
    var c := year % 100;
    var e := b % 4;
    var i := c / 4;
    var k := c % 4;
    (32 + 2 * e + 2 * i - MoonOffset(year) - k) % 7
  }

  /** Days from March 22 to Easter. */
  function EasterOffset(year: int): (n: int)
    ensures 0 <= n <= 34
  {
    var h, l := MoonOffset(year), WeekdayOffset(year);
    var m := (year % 19 + 11 * h + 22 * l) / 451;
    DaysAfterMarch22(year % 19, h, l, m);
    h + l - 7 * m
  }

  function EasterSunday(year: int): (r: Date)
    ensures r.year == year && Weekday(r) == SUNDAY
    ensures (r.month == 3 && 22 <= r.day) || (r.month == 4 && r.day <= 25)
  {
    var n := EasterOffset(year);
    MarchDay(year, n);
    EasterIsSunday(year);
    var r := RawDate(year, (n + 114) / 31, (n + 114) % 31 + 1);
    SeventhDay(Ordinal(r));
    r
  }

  lemma EasterIsSunday(year: int)
    ensures (Ordinal(RawDate(year, 3, 22)) + EasterOffset(year)) % 7 == 0
  {
    var h, l := MoonOffset(year), WeekdayOffset(year);
    SundayCongruence(year, h, l);
    WholeWeeks(Ordinal(RawDate(year, 3, 22)) + h + l, (year % 19 + 11 * h + 22 * l) / 451);
  }

  lemma WholeWeeks(n: int, m: int)
    ensures (n - 7 * m) % 7 == n % 7
  {
  }

  lemma SeventhDay(n: int)
    requires n % 7 == 0
    ensures (n + 6) % 7 == SUNDAY
  {
  }

  lemma MarchDay(year: int, n: int)
    requires 0 <= n <= 34
    ensures var r := RawDate(year, (n + 114) / 31, (n + 114) % 31 + 1);
            IsDate(r) && Ordinal(r) == Ordinal(RawDate(year, 3, 22)) + n &&
            ((r.month == 3 && 22 <= r.day) || (r.month == 4 && r.day <= 25))
  {
  }

  /** The computed day falls 0 to 34 days after March 22; `m` is 1 exactly for the two exceptional full moons. */
  lemma DaysAfterMarch22(a: int, h: int, l: int, m: int)
    requires 0 <= a < 19 && 0 <= h < 30 && 0 <= l < 7
    requires m == (a + 11 * h + 22 * l) / 451
    ensures 0 <= h + l - 7 * m <= 34
    ensures m == if l == 6 && (h == 29 || (h == 28 && a > 10)) then 1 else 0
  {
  }

  /** The year split into centuries and quadrennia, as the computus splits it. */
  lemma YearParts(year: int, d: int, e: int, i: int, k: int)
    requires d == year / 100 / 4 && e == year / 100 % 4 && i == year % 100 / 4 && k == year % 100 % 4
    ensures year == 400 * d + 100 * e + 4 * i + k
    ensures year / 100 == 4 * d + e && year / 4 == 25 * (4 * d + e) + i && year / 400 == d
  {
    assert year == 100 * (year / 100) + year % 100;
  }

  lemma March22Ordinal(year: int)
    ensures Ordinal(RawDate(year, 3, 22)) == 365 * year + year / 4 - year / 100 + year / 400 - 284
  {
    YearLength(year);
    FloorStep(year - 1, 4);
    FloorStep(year - 1, 100);
    FloorStep(year - 1, 400);
  }

  lemma SundayCongruence(year: int, h: int, l: int)
    requires l == (32 + 2 * (year / 100 % 4) + 2 * (year % 100 / 4) - h - year % 100 % 4) % 7
    ensures (Ordinal(RawDate(year, 3, 22)) + h + l) % 7 == 0
  {
    var d, e, i, k := year / 100 / 4, year / 100 % 4, year % 100 / 4, year % 100 % 4;
    YearParts(year, d, e, i, k);
    March22Ordinal(year);
    SevenDivides(Ordinal(RawDate(year, 3, 22)), d, e, i, k, h, l);
  }

  lemma SevenDivides(march22: int, d: int, e: int, i: int, k: int, h: int, l: int)
    requires march22 == 365 * (400 * d + 100 * e + 4 * i + k) + 25 * (4 * d + e) + i - (4 * d + e) + d - 284
    requires l == (32 + 2 * e + 2 * i - h - k) % 7
    ensures (march22 + h + l) % 7 == 0
  {
    var z := 32 + 2 * e + 2 * i - h - k;
    assert z == 7 * (z / 7) + l;
    assert march22 + h + l == 7 * (20871 * d + 5218 * e + 209 * i + 52 * k - 36 - z / 7);
  }

  // ----- The ecclesiastical definition -----

  /** Lilius' epact: the age of the moon at the start of the year, with the solar and lunar corrections of the century. */
  function TabularEpact(year: int): int {
    var golden := year % 19 + 1;
    var century := year / 100 + 1;
    var solar := 3 * century / 4 - 12;
    var lunar := (8 * century + 5) / 25 - 5;
    (11 * golden + 20 + lunar - solar) % 30
  }

  /** The two epacts the tables shift by one. */
  function Epact(year: int): int {
    var e := TabularEpact(year);
    if e == 24 || (e == 25 && year % 19 + 1 > 11) then e + 1 else e
  }

  /** The first day, counted in March from March 21 on, on which that moon is full. */
  function PaschalFullMoon(year: int): int {
    var n := 44 - Epact(year);
    if n < 21 then n + 30 else n
  }

  /** The `g` correction equals the lunar correction of Clavius' tables. */
  lemma LunarCorrection(b: int)
    ensures (b - (b + 8) / 25 + 1) / 3 == (8 * (b + 1) + 5) / 25
  {
    var q, r := b / 25, b % 25;
    assert b == 25 * q + r;
    if r < 17 {
      assert (b + 8) / 25 == q;
      assert b - q + 1 == 24 * q + r + 1;
      assert (24 * q + r + 1) / 3 == 8 * q + (r + 1) / 3;
    } else {
      assert (b + 8) / 25 == q + 1;
      assert (24 * q + r) / 3 == 8 * q + r / 3;
    }
    assert (8 * (b + 1) + 5) / 25 == 8 * q + (8 * r + 13) / 25;
  }

  /** `h` counts the days from March 21 to the full moon before the two exceptional epacts are shifted. */
  lemma MoonAge(a: int, b: int, h: int, epact: int)
    requires h == (19 * a + b - b / 4 - (b - (b + 8) / 25 + 1) / 3 + 15) % 30
    requires epact == (11 * (a + 1) + 20 + ((8 * (b + 1) + 5) / 25 - 5) - (3 * (b + 1) / 4 - 12)) % 30
    ensures h == (53 - epact) % 30
  {
    LunarCorrection(b);
    var g := (8 * (b + 1) + 5) / 25;
    assert 3 * (b + 1) / 4 == b - b / 4;
    ComplementMod30(19 * a + b - b / 4 - g + 15, 11 * (a + 1) + 20 + (g - 5) - (b - b / 4 - 12), a);
  }

  lemma ComplementMod30(x: int, y: int, a: int)
    requires x + y == 30 * a + 53
    ensures x % 30 == (53 - y % 30) % 30
  {
    assert 53 - y % 30 - x % 30 == 30 * (x / 30 + y / 30 - a);
  }

  /** Easter is the first Sunday strictly after the paschal full moon, in every Gregorian year. */
  lemma EasterFollowsFullMoon(year: int)
    ensures 1 <= Ordinal(EasterSunday(year)) - (Ordinal(RawDate(year, 3, 1)) + PaschalFullMoon(year) - 1) <= 7
  {
    FullMoonFromOffset(year);
    MarchDay(year, EasterOffset(year));
    assert EasterOffset(year) - (PaschalFullMoon(year) - 21) == WithinTheWeek(year);
  }

  /** How many days after the day following the full moon Easter falls. */
  function WithinTheWeek(year: int): (n: int)
    ensures 0 <= n <= 6
  {
    var h, l := MoonOffset(year), WeekdayOffset(year);
    DaysAfterMarch22(year % 19, h, l, (year % 19 + 11 * h + 22 * l) / 451);
    EasterOffset(year) - (if h == 29 || (h == 28 && year % 19 > 10) then h - 1 else h)
  }

  lemma FullMoonFromOffset(year: int)
    ensures var h := MoonOffset(year);
            PaschalFullMoon(year) == 21 + (if h == 29 || (h == 28 && year % 19 > 10) then h - 1 else h)
  {
    MoonAge(year % 19, year / 100, MoonOffset(year), TabularEpact(year));
    MoonOfEpact(MoonOffset(year), TabularEpact(year), year % 19);
  }

  /** The two shifted epacts are the two exceptional full moons. */
  lemma MoonOfEpact(h: int, epact: int, a: int)
    requires 0 <= epact < 30 && h == (53 - epact) % 30
    ensures var shifted := if epact == 24 || (epact == 25 && a + 1 > 11) then epact + 1 else epact;
            (if 44 - shifted < 21 then 44 - shifted + 30 else 44 - shifted) == 21 + (if h == 29 || (h == 28 && a > 10) then h - 1 else h)
  {
  }
}
