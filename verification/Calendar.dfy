/** The proleptic Gregorian calendar in UTC. Days are counted from 1 January of year 1. */
module Calendar {

  datatype Date = Date(year: int, month: int, day: int)

  predicate Leap(y: int) { y % 4 == 0 && (y % 100 != 0 || y % 400 == 0) }

  function YearLen(y: int): int { if Leap(y) then 366 else 365 }

  /** Days before year `y`. */
  function YearStart(y: int): int
    requires y >= 1
  {
    if y == 1 then 0 else YearStart(y - 1) + YearLen(y - 1)
  }

  function MonthLen(leap: bool, m: int): int {
    if m == 2 then (if leap then 29 else 28) else if m == 4 || m == 6 || m == 9 || m == 11 then 30 else 31
  }

  /** Days of the year before month `m`. */
  function MonthStart(leap: bool, m: int): int
    requires 1 <= m <= 13
  {
    if m == 1 then 0 else MonthStart(leap, m - 1) + MonthLen(leap, m - 1)
  }

  /** The year of a day, found from year `y` on. */
  function YearFrom(n: int, y: int): (r: int)
    requires y >= 1 && n >= YearStart(y)
    ensures r >= y && YearStart(r) <= n < YearStart(r + 1)
    decreases n - YearStart(y)
  {
    if n < YearStart(y + 1) then y else YearFrom(n, y + 1)
  }

  function MonthFrom(leap: bool, doy: int, m: int): (r: int)
    requires 1 <= m <= 12 && MonthStart(leap, m) <= doy < MonthStart(leap, 13)
    ensures m <= r <= 12 && MonthStart(leap, r) <= doy < MonthStart(leap, r + 1)
    decreases 12 - m
  {
    if m == 12 || doy < MonthStart(leap, m + 1) then m else MonthFrom(leap, doy, m + 1)
  }

  lemma YearHolds(leap: bool)
    ensures MonthStart(leap, 13) == if leap then 366 else 365
  {
    var extra := if leap then 1 else 0;
    assert MonthStart(leap, 2) == 31;
    assert MonthStart(leap, 3) == 59 + extra;
    assert MonthStart(leap, 4) == 90 + extra;
    assert MonthStart(leap, 5) == 120 + extra;
    assert MonthStart(leap, 6) == 151 + extra;
    assert MonthStart(leap, 7) == 181 + extra;
    assert MonthStart(leap, 8) == 212 + extra;
    assert MonthStart(leap, 9) == 243 + extra;
    assert MonthStart(leap, 10) == 273 + extra;
    assert MonthStart(leap, 11) == 304 + extra;
    assert MonthStart(leap, 12) == 334 + extra;
    assert MonthStart(leap, 13) == 365 + extra;
  }

  function DateOf(n: int): (d: Date)
    requires n >= 0
    ensures 1 <= d.month <= 12 && 1 <= d.day <= MonthLen(Leap(d.year), d.month) <= 31
  {
    var y := YearFrom(n, 1);
    YearHolds(Leap(y));
    var doy := n - YearStart(y);
    var m := MonthFrom(Leap(y), doy, 1);
    Date(y, m, doy - MonthStart(Leap(y), m) + 1)
  }

  /** Monday, 1 January of year 1; Sunday is 0. */
  function Weekday(n: int): int { (n + 1) % 7 }

  lemma {:induction false} YearsAscend(x: int, y: int)
    requires 1 <= x <= y
    ensures YearStart(x) + 365 * (y - x) <= YearStart(y) <= YearStart(x) + 366 * (y - x)
  {
    if x < y { YearsAscend(x, y - 1); }
  }

  lemma {:induction false} YearOfDay(n: int, y: int)
    requires y >= 1 && YearStart(y) <= n < YearStart(y + 1)
    ensures n >= 0 && YearFrom(n, 1) == y
  {
    hide YearFrom, YearStart;
    FirstYear();
    YearsAscend(1, y);
    var r := YearFrom(n, 1);
    if r < y { YearsAscend(r + 1, y); }
    if r > y { YearsAscend(y + 1, r); }
  }

  lemma FirstYear()
    ensures YearStart(1) == 0
  {
  }

  lemma {:induction false} MonthOfDay(leap: bool, doy: int, m: int)
    requires 1 <= m <= 12 && MonthStart(leap, m) <= doy < MonthStart(leap, m + 1)
    ensures 0 <= doy < MonthStart(leap, 13) && MonthFrom(leap, doy, 1) == m
  {
    hide MonthFrom, MonthStart, MonthLen;
    FirstMonth(leap);
    MonthsGrow(leap, 1, m);
    MonthsGrow(leap, m + 1, 13);
    var r := MonthFrom(leap, doy, 1);
    if r < m { MonthsGrow(leap, r + 1, m); }
    if r > m { MonthsGrow(leap, m + 1, r); }
  }

  lemma FirstMonth(leap: bool)
    ensures MonthStart(leap, 1) == 0
  {
  }

  lemma {:induction false} MonthsGrow(leap: bool, x: int, y: int)
    requires 1 <= x <= y <= 13
    ensures MonthStart(leap, x) <= MonthStart(leap, y)
  {
    if x < y { MonthsGrow(leap, x, y - 1); }
  }

  lemma NextYear(y: int)
    requires y >= 1
    ensures YearStart(y + 1) == YearStart(y) + if Leap(y) then 366 else 365
  {
  }

  /** Every real date is the date of the day it should be. */
  lemma {:induction false} DateOfDay(y: int, m: int, d: int)
    requires y >= 1 && 1 <= m <= 12 && 1 <= d <= MonthLen(Leap(y), m)
    ensures var n := YearStart(y) + MonthStart(Leap(y), m) + d - 1;
            n >= 0 && YearStart(y) <= n < YearStart(y + 1) && DateOf(n) == Date(y, m, d)
  {
    hide MonthFrom, YearFrom, YearStart, MonthLen, Leap;
    var leap := Leap(y);
    var doy := MonthStart(leap, m) + d - 1;
    YearHolds(leap);
    MonthOfDay(leap, doy, m);
    NextYear(y);
    YearOfDay(YearStart(y) + doy, y);
  }

  // The calendar repeats every 400 years

  /** Days of 400 years, a whole number of weeks. */
  const CYCLE := 146097

  lemma FloorStep4(x: int)
    ensures x / 4 - (x - 1) / 4 == if x % 4 == 0 then 1 else 0
  {
  }

  lemma FloorStep100(x: int)
    ensures x / 100 - (x - 1) / 100 == if x % 100 == 0 then 1 else 0
  {
  }

  lemma FloorStep400(x: int)
    ensures x / 400 - (x - 1) / 400 == if x % 400 == 0 then 1 else 0
  {
  }

  lemma HundredsAreFours(x: int)
    requires x % 100 == 0
    ensures x % 4 == 0
  {
    var k := x / 100;
    assert x == 4 * (25 * k);
  }

  lemma FourHundredsAreHundreds(x: int)
    requires x % 400 == 0
    ensures x % 100 == 0
  {
    var k := x / 400;
    assert x == 100 * (4 * k);
  }

  /** Leap years up to a year. */
  function LeapsUpTo(x: int): int { x / 4 - x / 100 + x / 400 }

  lemma {:induction false} LeapStep(x: int)
    ensures LeapsUpTo(x) - LeapsUpTo(x - 1) == if Leap(x) then 1 else 0
  {
    FloorStep4(x);
    FloorStep100(x);
    FloorStep400(x);
    if x % 400 == 0 { FourHundredsAreHundreds(x); }
    if x % 100 == 0 { HundredsAreFours(x); }
  }

  lemma {:induction false} YearsCounted(y: int)
    requires y >= 1
    ensures YearStart(y) == 365 * (y - 1) + LeapsUpTo(y - 1)
  {
    hide LeapsUpTo, Leap;
    if y == 1 {
      assert LeapsUpTo(0) == 0 by { NoLeaps(); }
    } else {
      YearsCounted(y - 1);
      LeapStep(y - 1);
    }
  }

  lemma NoLeaps()
    ensures LeapsUpTo(0) == 0
  {
  }

  lemma Fours(x: int)
    ensures (x + 400) / 4 == x / 4 + 100 && (x + 400) % 4 == x % 4
  {
  }

  lemma Hundreds(x: int)
    ensures (x + 400) / 100 == x / 100 + 4 && (x + 400) % 100 == x % 100
  {
  }

  lemma FourHundreds(x: int)
    ensures (x + 400) / 400 == x / 400 + 1 && (x + 400) % 400 == x % 400
  {
  }

  lemma LeapsRepeat(x: int)
    ensures LeapsUpTo(x + 400) == LeapsUpTo(x) + 97
    ensures Leap(x + 400) == Leap(x)
  {
    Fours(x);
    Hundreds(x);
    FourHundreds(x);
  }

  lemma {:induction false} YearsRepeat(y: int)
    requires y >= 1
    ensures YearStart(y + 400) == YearStart(y) + CYCLE
  {
    hide YearStart, LeapsUpTo, Leap;
    YearsCounted(y);
    YearsCounted(y + 400);
    LeapsRepeat(y - 1);
  }

  lemma WeekdaysRepeat(n: nat)
    ensures Weekday(n + CYCLE) == Weekday(n)
  {
    assert CYCLE == 7 * 20871;
  }

  /** A day is the day counted to its own date. */
  lemma DayOfDate(n: nat)
    ensures var d := DateOf(n);
            d.year >= 1 && n == YearStart(d.year) + MonthStart(Leap(d.year), d.month) + d.day - 1
  {
    hide YearFrom, MonthFrom, MonthStart, YearStart, Leap;
    FirstYear();
  }

  /** The date 400 years on has the same month and day, and falls on the same weekday. */
  lemma {:induction false} DatesRepeat(n: nat)
    ensures DateOf(n + CYCLE) == DateOf(n).(year := DateOf(n).year + 400)
    ensures Weekday(n + CYCLE) == Weekday(n)
  {
    hide DateOf, MonthStart, MonthLen, YearStart, Weekday, Leap;
    var d := DateOf(n);
    DayOfDate(n);
    YearsRepeat(d.year);
    LeapsRepeat(d.year);
    DateOfDay(d.year + 400, d.month, d.day);
    WeekdaysRepeat(n);
  }

  /** What a month adds to the weekday, in years counted from March. */
  const SHIFTS := [0, 3, 2, 5, 0, 3, 5, 1, 4, 6, 2, 4]

  lemma {:induction false} ShiftOf(leap: bool, m: int)
    requires 1 <= m <= 12
    ensures var late := if m < 3 then 0 else if leap then 2 else 1;
            (MonthStart(leap, m) - late - SHIFTS[m - 1]) % 7 == 0
  {
    if m > 1 { ShiftOf(leap, m - 1); }
  }

  /** The weekday of a date by the rule of thumb that starts the year in March:
      Sunday is 0. */
  lemma {:induction false} WeekdayOfDate(y: int, m: int, d: int)
    requires y >= 1 && 1 <= m <= 12
    ensures var x := if m < 3 then y - 1 else y;
            Weekday(YearStart(y) + MonthStart(Leap(y), m) + d - 1) ==
            (x + x / 4 - x / 100 + x / 400 + SHIFTS[m - 1] + d) % 7
  {
    hide YearStart, MonthStart, Leap, LeapsUpTo;
    YearsCounted(y);
    ShiftOf(Leap(y), m);
    LeapStep(y);
    var x := if m < 3 then y - 1 else y;
    var late := if m < 3 then 0 else if Leap(y) then 2 else 1;
    assert x + LeapsUpTo(x) == y - 1 + LeapsUpTo(y - 1) + late;
    var weeks := 52 * (y - 1) + (MonthStart(Leap(y), m) - late - SHIFTS[m - 1]) / 7;
    WeeksPass(x + LeapsUpTo(x) + SHIFTS[m - 1] + d, weeks);
    LeapsAre(x);
  }

  lemma WeeksPass(n: int, weeks: int)
    ensures Weekday(n + 7 * weeks - 1) == n % 7
  {
  }

  lemma LeapsAre(x: int)
    ensures LeapsUpTo(x) == x / 4 - x / 100 + x / 400
  {
  }
}
