/** internal/jobs/cron_parser.go: when a schedule fires. Times are nanoseconds
    since 1 January of year 1, UTC; schedules fire on whole minutes. */
module CronNext {
  import opened Text
  import opened Calendar
  import opened CronParser

  const MINUTE := 60_000_000_000
  /** Four years of 366 days. */
  const WINDOW := 4 * 366 * 24 * 60 * MINUTE

  predicate WellFormed(s: Schedule) {
    |s.minute| == 60 && |s.hour| == 24 && |s.dom| == 31 && |s.mon| == 12 && |s.dow| == 7
  }

  predicate MatchesDay(s: Schedule, n: nat)
    requires WellFormed(s)
  {
    var d := DateOf(n);
    s.dom[d.day - 1] && s.mon[d.month - 1] && s.dow[Weekday(n)]
  }

  /** `Matches` for the minute that is `m` minutes after the start. */
  predicate Matches(s: Schedule, m: nat)
    requires WellFormed(s)
  {
    s.minute[m % 60] && s.hour[m / 60 % 24] && MatchesDay(s, m / 1440)
  }

  /** Strictly after `from`, and before the search gives up. */
  predicate InWindow(from: nat, m: nat) { from < m * MINUTE < from + WINDOW }

  /** The walk: the least matching minute of the window, or nothing exactly when there is none. */
  method Next(s: Schedule, from: nat) returns (r: Option<nat>)
    requires WellFormed(s)
    ensures r.Some? ==> InWindow(from, r.value) && Matches(s, r.value)
    ensures r.Some? ==> forall m: nat | InWindow(from, m) && m < r.value :: !Matches(s, m)
    ensures r == None ==> forall m: nat | InWindow(from, m) :: !Matches(s, m)
  {
    hide Matches;
    var deadline := from + WINDOW;
    var m := from / MINUTE + 1;
    var t := from - from % MINUTE + MINUTE;
    while t < deadline
      invariant t == m * MINUTE && t > from
      invariant forall k: nat | InWindow(from, k) && k < m :: !Matches(s, k)
    {
      if Matches(s, m) {
        return Some(m);
      }
      m := m + 1;
      t := t + MINUTE;
    }
    r := None;
  }

  /** Some minute, hour and real date other than 29 February are allowed. */
  ghost predicate HasDate(s: Schedule)
    requires WellFormed(s)
  {
    exists mon, day :: Allows(s, mon, day)
  }

  /** A date of an ordinary year that the schedule allows. */
  predicate Allows(s: Schedule, mon: int, day: int)
    requires WellFormed(s)
  {
    1 <= mon <= 12 && 1 <= day <= MonthLen(false, mon) && s.mon[mon - 1] && s.dom[day - 1]
  }

  ghost predicate HasTime(s: Schedule)
    requires WellFormed(s)
  {
    exists h, mi :: 0 <= h < 24 && 0 <= mi < 60 && s.hour[h] && s.minute[mi]
  }

  ghost predicate Fires(s: Schedule, from: nat)
    requires WellFormed(s)
  {
    exists m: nat :: InWindow(from, m) && Matches(s, m)
  }

  predicate EveryWeekday(s: Schedule)
    requires WellFormed(s)
  {
    forall k | 0 <= k < 7 :: s.dow[k]
  }

  lemma MinuteOf(n: nat, h: nat, mi: nat)
    requires h < 24 && mi < 60
    ensures var m := 1440 * n + 60 * h + mi; m % 60 == mi && m / 60 % 24 == h && m / 1440 == n
  {
    var m := 1440 * n + 60 * h + mi;
    assert m == 60 * (24 * n + h) + mi;
    assert m / 60 == 24 * n + h;
  }

  /** A real date other than 29 February comes in the next calendar year. */
  lemma {:induction false} DateFires(s: Schedule, from: nat, mon: int, day: int, h: nat, mi: nat)
    requires WellFormed(s) && EveryWeekday(s)
    requires Allows(s, mon, day)
    requires h < 24 && mi < 60 && s.hour[h] && s.minute[mi]
    ensures Fires(s, from)
  {
    hide YearFrom, MonthFrom, MonthStart, YearStart, DateOf;
    var today := from / (1440 * MINUTE);
    assert YearStart(1) == 0 by { FirstYear(); }
    var y := YearFrom(today, 1) + 1;
    assert day <= MonthLen(Leap(y), mon);
    DateOfDay(y, mon, day);
    var n := YearStart(y) + MonthStart(Leap(y), mon) + day - 1;
    YearsAscend(y - 1, y);
    YearsAscend(y, y + 1);
    assert today < n < today + 732;
    var m := 1440 * n + 60 * h + mi;
    MinuteOf(n, h, mi);
    assert MatchesDay(s, n);
    assert InWindow(from, m) by {
      assert today * 1440 * MINUTE <= from < (today + 1) * 1440 * MINUTE;
    }
  }

  /** 1 March 2096: the next 29 February is eight years away. */
  function Start2096(): nat {
    FirstYear();
    YearsAscend(1, 2096);
    (YearStart(2096) + 60) * 1440 * MINUTE
  }

  /** From there a schedule without any other real date has nothing to find. */
  lemma {:induction false} NothingFrom2096(s: Schedule, m: nat)
    requires WellFormed(s) && !HasDate(s) && InWindow(Start2096(), m)
    ensures !Matches(s, m)
  {
    hide YearFrom, MonthFrom, MonthStart, YearStart, DateOf;
    var n := m / 1440;
    var d := DateOf(n);
    if MatchesDay(s, n) {
      assert !Allows(s, d.month, d.day);
      NotLeapDay(n);
    }
  }

  lemma {:induction false} NotLeapDay(n: nat)
    requires YearStart(2096) + 60 <= n <= YearStart(2096) + 60 + 1464
    ensures !(DateOf(n).month == 2 && DateOf(n).day == 29)
  {
    hide MonthFrom, YearStart;
    FirstYear();
    YearsAscend(1, 2096);
    var y := YearFrom(n, 1);
    YearsAscend(2096, 2101);
    if y < 2096 { YearsAscend(y + 1, 2096); }
    if y > 2100 { YearsAscend(2101, y); }
    assert MonthStart(true, 2) == 31;
  }

  /** With every weekday allowed the schedule always finds a time, from any
      moment, exactly when it allows a real date other than 29 February. */
  lemma {:induction false} AlwaysFiresIff(s: Schedule)
    requires WellFormed(s) && EveryWeekday(s) && HasTime(s)
    ensures (forall from: nat :: Fires(s, from)) <==> HasDate(s)
  {
    hide Fires, Matches;
    if HasDate(s) {
      var mon, day :| Allows(s, mon, day);
      var h, mi :| 0 <= h < 24 && 0 <= mi < 60 && s.hour[h] && s.minute[mi];
      forall from: nat ensures Fires(s, from) { DateFires(s, from, mon, day, h, mi); }
    } else {
      NeverFires(s);
    }
  }

  lemma DayStart(n: nat)
    ensures var at := n * 1440 * MINUTE;
            at % 86_400_000_000_000 == 0 && at / 86_400_000_000_000 == n
  {
  }

  /** Whatever the weekdays, a schedule for 29 February alone can come back empty. */
  lemma {:induction false} NeverFires(s: Schedule)
    requires WellFormed(s) && !HasDate(s)
    ensures !Fires(s, Start2096())
    ensures Start2096() % 86_400_000_000_000 == 0 && DateOf(Start2096() / 86_400_000_000_000) == Date(2096, 3, 1)
  {
    hide Matches, YearStart, DateOf;
    assert Leap(2096) && MonthStart(true, 3) == 60;
    DateOfDay(2096, 3, 1);
    DayStart(YearStart(2096) + 60);
    forall m: nat | InWindow(Start2096(), m) ensures !Matches(s, m) { NothingFrom2096(s, m); }
  }
}
