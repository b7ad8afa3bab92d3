/** internal/jobs/cron_parser.go: whether a schedule always finds a time, for any
    weekdays. One cycle of 400 years decides it. */
module CronCycle {
  import CronAtoms
  import opened Text
  import opened Calendar
  import opened CronParser
  import opened CronNext

  /** Days the search looks ahead. */
  const SPAN := 1464

  /** Whether the `t`-th minute of a day is allowed. */
  predicate AtTime(s: Schedule, t: int)
    requires WellFormed(s)
  {
    0 <= t < 1440 && s.minute[t % 60] && s.hour[t / 60]
  }

  ghost predicate TwoTimes(s: Schedule)
    requires WellFormed(s)
  {
    exists a, b :: a < b && AtTime(s, a) && AtTime(s, b)
  }

  /** A later allowed day within the span; with two times a day, one right at its end will do. */
  ghost predicate Followed(s: Schedule, d: nat)
    requires WellFormed(s)
  {
    exists n: nat :: MatchesDay(s, n) && d < n && (n < d + SPAN || (n == d + SPAN && TwoTimes(s)))
  }

  /** Every allowed day of one cycle is followed by another, and there is one. */
  ghost predicate Gapless(s: Schedule)
    requires WellFormed(s)
  {
    && (exists d: nat :: d < CYCLE && MatchesDay(s, d))
    && forall d: nat | d < CYCLE && MatchesDay(s, d) :: Followed(s, d)
  }

  lemma {:induction false} MinuteParts(s: Schedule, m: nat)
    requires WellFormed(s)
    ensures Matches(s, m) <==> AtTime(s, m % 1440) && MatchesDay(s, m / 1440)
  {
    hide MatchesDay;
    var n, t := m / 1440, m % 1440;
    assert m == 1440 * n + 60 * (t / 60) + t % 60;
    MinuteOf(n, t / 60, t % 60);
  }

  /** A day and a minute of it put together. */
  lemma {:induction false} Joined(s: Schedule, n: nat, t: int)
    requires WellFormed(s) && MatchesDay(s, n) && AtTime(s, t)
    ensures Matches(s, 1440 * n + t)
  {
    hide MatchesDay, Matches;
    MinuteParts(s, 1440 * n + t);
    assert (1440 * n + t) / 1440 == n && (1440 * n + t) % 1440 == t;
  }

  lemma {:induction false} DaysRepeat(s: Schedule, n: nat, k: nat)
    requires WellFormed(s)
    ensures MatchesDay(s, n + k * CYCLE) <==> MatchesDay(s, n)
  {
    hide DateOf, Weekday;
    if k > 0 {
      DaysRepeat(s, n, k - 1);
      assert n + k * CYCLE == n + (k - 1) * CYCLE + CYCLE;
      DatesRepeat(n + (k - 1) * CYCLE);
    }
  }

  /** The day of the cycle that a day corresponds to. */
  lemma {:induction false} InCycle(s: Schedule, n: nat)
    requires WellFormed(s)
    ensures MatchesDay(s, n) <==> MatchesDay(s, n % CYCLE)
  {
    hide MatchesDay;
    Cycles(n);
    DaysRepeat(s, n % CYCLE, n / CYCLE);
  }

  lemma {:induction false} FollowedAnywhere(s: Schedule, d: nat)
    requires WellFormed(s) && Gapless(s) && MatchesDay(s, d)
    ensures Followed(s, d)
  {
    hide MatchesDay, TwoTimes, WellFormed;
    InCycle(s, d);
    Cycles(d);
    var n: nat :| MatchesDay(s, n) && d % CYCLE < n
                  && (n < d % CYCLE + SPAN || (n == d % CYCLE + SPAN && TwoTimes(s)));
    var whole := d / CYCLE * CYCLE;
    DaysRepeat(s, n, d / CYCLE);
    assert MatchesDay(s, n + whole);
  }

  lemma Cycles(n: nat)
    ensures n % CYCLE + n / CYCLE * CYCLE == n && 0 <= n % CYCLE < CYCLE && n / CYCLE >= 0
  {
  }

  /** The last allowed day up to a day, if one is known. */
  lemma {:induction false} LastDay(s: Schedule, d: nat, t: nat) returns (r: nat)
    requires WellFormed(s) && d <= t && MatchesDay(s, d)
    ensures d <= r <= t && MatchesDay(s, r) && forall x: nat | r < x <= t :: !MatchesDay(s, x)
    decreases t - d
  {
    hide MatchesDay;
    if exists x: nat :: d < x <= t && MatchesDay(s, x) {
      var x: nat :| d < x <= t && MatchesDay(s, x);
      r := LastDay(s, x, t);
    } else {
      r := d;
    }
  }

  /** From any day the next allowed day is near. */
  lemma {:induction false} NextDay(s: Schedule, t: nat) returns (n: nat)
    requires WellFormed(s) && Gapless(s)
    ensures MatchesDay(s, n) && t < n
    ensures n < t + SPAN || (n == t + SPAN && TwoTimes(s) && MatchesDay(s, t))
  {
    hide MatchesDay, TwoTimes;
    var d: nat :| d < CYCLE && MatchesDay(s, d);
    var r := LastDay(s, d, t + CYCLE);
    FollowedAnywhere(s, r);
    var x: nat :| MatchesDay(s, x) && r < x && (x < r + SPAN || (x == r + SPAN && TwoTimes(s)));
    n := x - CYCLE;
    DaysRepeat(s, n, 1);
    DaysRepeat(s, t, 1);
  }

  /** Hence a match in the window. */
  lemma {:induction false} GaplessFires(s: Schedule, from: nat)
    requires WellFormed(s) && HasTime(s) && Gapless(s)
    ensures Fires(s, from)
  {
    hide MatchesDay, Matches, Gapless;
    var k := from / MINUTE;
    var day, tod := k / 1440, k % 1440;
    var n := NextDay(s, day);
    var m: nat;
    if n < day + SPAN {
      var h, mi :| 0 <= h < 24 && 0 <= mi < 60 && s.hour[h] && s.minute[mi];
      assert AtTime(s, 60 * h + mi);
      Joined(s, n, 60 * h + mi);
      m := 1440 * n + 60 * h + mi;
    } else {
      var a, b :| a < b && AtTime(s, a) && AtTime(s, b);
      Joined(s, day, b);
      Joined(s, n, a);
      m := if tod < b then 1440 * day + b else 1440 * n + a;
    }
    assert k < m < k + 1440 * SPAN;
    Within(from, m);
  }

  lemma Within(from: nat, m: nat)
    ensures from / MINUTE < m < from / MINUTE + 1440 * SPAN ==> InWindow(from, m)
    ensures from % MINUTE == 0 && InWindow(from, m) ==> from / MINUTE < m < from / MINUTE + 1440 * SPAN
  {
  }

  /** The last allowed minute of a day. */
  lemma {:induction false} LastTime(s: Schedule, t: int) returns (r: int)
    requires WellFormed(s) && AtTime(s, t)
    ensures AtTime(s, r) && forall x | AtTime(s, x) :: x <= r
    decreases 1440 - t
  {
    if exists x :: x > t && AtTime(s, x) {
      var x :| x > t && AtTime(s, x);
      r := LastTime(s, x);
    } else {
      r := t;
    }
  }

  /** From the last minute of an allowed day the search must reach another allowed day. */
  lemma {:induction false} FiresFollowed(s: Schedule, d: nat, t: int)
    requires WellFormed(s) && MatchesDay(s, d) && AtTime(s, t)
    requires forall from: nat :: Fires(s, from)
    ensures Followed(s, d)
  {
    hide MatchesDay, Matches, AtTime;
    var last := LastTime(s, t);
    assert 0 <= last < 1440 by { TimeInDay(s, last); }
    var k: nat := 1440 * d + last;
    assert Fires(s, k * MINUTE);
    var m: nat :| InWindow(k * MINUTE, m) && Matches(s, m);
    Within(k * MINUTE, m);
    assert k * MINUTE / MINUTE == k;
    MinuteParts(s, m);
    var n, a := m / 1440, m % 1440;
    assert a <= last && n > d;
    if n >= d + SPAN { assert n == d + SPAN && a < last; }
  }

  lemma TimeInDay(s: Schedule, t: int)
    requires WellFormed(s) && AtTime(s, t)
    ensures 0 <= t < 1440
  {
  }

  /** For any weekdays: a schedule finds a time from every moment if and only if
      it allows some time of day, some day of the 400-year cycle, and after each
      allowed day of the cycle another one within the span of the search. */
  lemma {:induction false} FiresIffGapless(s: Schedule)
    requires WellFormed(s)
    ensures (forall from: nat :: Fires(s, from)) <==> HasTime(s) && Gapless(s)
  {
    hide MatchesDay, Matches, Followed;
    if HasTime(s) && Gapless(s) {
      forall from: nat ensures Fires(s, from) { GaplessFires(s, from); }
    }
    if forall from: nat :: Fires(s, from) {
      assert Fires(s, 0);
      var m: nat :| InWindow(0, m) && Matches(s, m);
      MinuteParts(s, m);
      InCycle(s, m / 1440);
      var t := m % 1440;
      assert s.hour[t / 60] && s.minute[t % 60];
      forall d: nat | d < CYCLE && MatchesDay(s, d) ensures Followed(s, d) { FiresFollowed(s, d, t); }
    }
  }

  // A date that exists every year

  /** 1 January when it is a Monday, at midnight. */
  ghost predicate NewYearMonday(s: Schedule) {
    && WellFormed(s) && (forall k | 0 <= k < 60 :: s.minute[k] <==> k == 0)
    && (forall k | 0 <= k < 24 :: s.hour[k] <==> k == 0) && (forall k | 0 <= k < 31 :: s.dom[k] <==> k == 0)
    && (forall k | 0 <= k < 12 :: s.mon[k] <==> k == 0) && (forall k | 0 <= k < 7 :: s.dow[k] <==> k == 1)
  }

  /** Midnight of 1 January 2018, a Monday; the next such Monday is in 2024. */
  function Start2018(): nat {
    FirstYear();
    YearsAscend(1, 2018);
    YearStart(2018) * 1440 * MINUTE
  }

  const NEW_YEAR_MONDAY := ["0", "0", "1", "1", "1"]

  /** A word of one digit allows that value alone. */
  lemma {:induction false} OneDigit(c: char, min: int, max: int, v: int)
    requires IsDigit(c) && min <= DigitValue(c) <= max
    ensures FirstTrouble(Split([c], ','), min, max) == None
    ensures AnyHas(Split([c], ','), min, max, v) <==> v == DigitValue(c)
  {
    var d := DigitValue(c);
    SplitNoSeparator([c], ',');
    assert IndexOf([c], '/') == IndexOf([c], '-') == 1 && [c][..1] == [c];
    assert NumberValue([c]) == d;
    var span := Span(d, d, 1);
    assert ReadAtom([c], min, max) == Ok(span);
    NthStart(span);
    assert [c] in Split([c], ',') && (AtomHas([c], min, max, v) <==> InSpan(span, v));
  }

  lemma {:induction false} NewYearMondayParses(s: Schedule)
    requires Compiled(s, NEW_YEAR_MONDAY)
    ensures NewYearMonday(s)
  {
    hide AnyHas, FirstFieldTrouble, Split;
    forall k | 0 <= k < 60 ensures s.minute[k] <==> k == 0 { OneDigit('0', 0, 59, 0 + k); }
    forall k | 0 <= k < 24 ensures s.hour[k] <==> k == 0 { OneDigit('0', 0, 23, 0 + k); }
    forall k | 0 <= k < 31 ensures s.dom[k] <==> k == 0 { OneDigit('1', 1, 31, 1 + k); }
    forall k | 0 <= k < 12 ensures s.mon[k] <==> k == 0 { OneDigit('1', 1, 12, 1 + k); }
    forall k | 0 <= k < 7 ensures s.dow[k] <==> k == 1 { OneDigit('1', 0, 6, 0 + k); }
  }

  lemma {:induction false} NewYearMondayText()
    ensures CronAtoms.Spread(NEW_YEAR_MONDAY, ["", " ", " ", " ", " ", ""]) == "0 0 1 1 1"
  {
    hide CronAtoms.Spread;
    assert CronAtoms.Spread([], [""]) == "" by { CronAtoms.NothingApart(); }
    CronAtoms.SpreadOn(" ", "1", [], [""]);
    assert ["1"] + [] == ["1"] && [" "] + [""] == [" ", ""];
    CronAtoms.SpreadOn(" ", "1", ["1"], [" ", ""]);
    assert ["1"] + ["1"] == ["1", "1"] && [" "] + [" ", ""] == [" ", " ", ""];
    CronAtoms.SpreadOn(" ", "1", ["1", "1"], [" ", " ", ""]);
    assert ["1"] + ["1", "1"] == ["1", "1", "1"] && [" "] + [" ", " ", ""] == [" ", " ", " ", ""];
    CronAtoms.SpreadOn(" ", "0", ["1", "1", "1"], [" ", " ", " ", ""]);
    assert ["0"] + ["1", "1", "1"] == ["0", "1", "1", "1"];
    assert [" "] + [" ", " ", " ", ""] == [" ", " ", " ", " ", ""];
    CronAtoms.SpreadOn("", "0", ["0", "1", "1", "1"], [" ", " ", " ", " ", ""]);
    assert ["0"] + ["0", "1", "1", "1"] == NEW_YEAR_MONDAY;
    assert [""] + [" ", " ", " ", " ", ""] == ["", " ", " ", " ", " ", ""];
  }

  lemma {:induction false} NewYearMondayWords()
    ensures Fields("0 0 1 1 1") == NEW_YEAR_MONDAY
  {
    hide Fields, CronAtoms.Spread;
    NewYearMondayText();
    CronAtoms.SpreadReads(NEW_YEAR_MONDAY, ["", " ", " ", " ", " ", ""]);
  }

  /** `0 0 1 1 1` is accepted. */
  lemma {:induction false} NewYearMondayAccepted()
    ensures var words := Fields("0 0 1 1 1");
            |words| == 5 && FirstFieldTrouble(words, 0) == None
  {
    hide FirstTrouble, AnyHas, Split, Fields;
    NewYearMondayWords();
    OneDigit('0', 0, 59, 0);
    OneDigit('0', 0, 23, 0);
    OneDigit('1', 1, 31, 1);
    OneDigit('1', 1, 12, 1);
    OneDigit('1', 0, 6, 1);
    assert FirstFieldTrouble(NEW_YEAR_MONDAY, 3) == None;
  }

  /** It names a date of every year, and still the search can come back empty. */
  lemma {:induction false} NewYearMondayIsMissed(s: Schedule)
    requires Compiled(s, Fields("0 0 1 1 1"))
    ensures WellFormed(s) && HasDate(s) && !Fires(s, Start2018())
    ensures Start2018() % 86_400_000_000_000 == 0 && DateOf(Start2018() / 86_400_000_000_000) == Date(2018, 1, 1)
  {
    hide YearStart, DateOf, HasDate, Compiled, FirstFieldTrouble, Fields;
    NewYearMondayWords();
    DateOfDay(2018, 1, 1);
    FirstMonth(Leap(2018));
    DayStart(YearStart(2018));
    NewYearMondayParses(s);
    NothingFrom2018(s);
  }

  lemma {:induction false} NothingFrom2018(s: Schedule)
    requires NewYearMonday(s)
    ensures HasDate(s) && !Fires(s, Start2018())
  {
    hide Matches, YearStart, InWindow, DateOf;
    assert Allows(s, 1, 1);
    forall m: nat | InWindow(Start2018(), m) ensures !Matches(s, m) {
      MinuteParts(s, m);
      AfterNewYear(m);
      if AtTime(s, m % 1440) { NoSuchMonday(s, m / 1440); }
    }
  }

  lemma {:induction false} AfterNewYear(m: nat)
    requires InWindow(Start2018(), m)
    ensures YearStart(2018) <= m / 1440 <= YearStart(2018) + SPAN
    ensures m / 1440 == YearStart(2018) ==> m % 1440 != 0
  {
    hide YearStart;
    assert Start2018() == YearStart(2018) * 1440 * MINUTE;
  }

  lemma {:induction false} NoSuchMonday(s: Schedule, n: nat)
    requires NewYearMonday(s) && YearStart(2018) < n <= YearStart(2018) + SPAN
    ensures !MatchesDay(s, n)
  {
    hide YearStart, DateOf;
    var y := DateOf(n).year;
    FirstOfYear(n);
    Starts();
    if y < 2018 { YearsAscend(y + 1, 2018); }
    if y > 2022 { YearsAscend(2023, y); }
  }

  lemma {:induction false} Starts()
    ensures YearStart(2018) == 736694 && YearStart(2019) == 737059 && YearStart(2020) == 737424
    ensures YearStart(2021) == 737790 && YearStart(2022) == 738155 && YearStart(2023) == 738520
  {
    hide YearStart;
    YearsCounted(2018);
    YearsCounted(2019);
    YearsCounted(2020);
    YearsCounted(2021);
    YearsCounted(2022);
    YearsCounted(2023);
  }

  /** Only 1 January is the first day of its year. */
  lemma {:induction false} FirstOfYear(n: nat)
    ensures DateOf(n).year >= 1 && YearStart(DateOf(n).year) <= n < YearStart(DateOf(n).year + 1)
    ensures DateOf(n).month == DateOf(n).day == 1 ==> n == YearStart(DateOf(n).year)
  {
    hide YearStart, YearFrom, MonthFrom;
    FirstYear();
    FirstMonth(Leap(YearFrom(n, 1)));
  }

  // For a parsed expression

  /** What the parser accepts is well formed and allows some time of day. */
  lemma {:induction false} CompiledHasTime(s: Schedule, words: seq<string>)
    requires Compiled(s, words)
    ensures WellFormed(s) && HasTime(s)
  {
    hide AnyHas, FirstTrouble;
    assert FirstFieldTrouble(words, 1) == None;
    SomethingIsAllowed(words[0], 0, 59);
    SomethingIsAllowed(words[1], 0, 23);
    var mi :| 0 <= mi <= 59 && AnyHas(Split(words[0], ','), 0, 59, mi);
    var h :| 0 <= h <= 23 && AnyHas(Split(words[1], ','), 0, 23, h);
    assert AnyHas(Split(words[0], ','), 0, 59, 0 + mi) && AnyHas(Split(words[1], ','), 0, 23, 0 + h);
    assert s.minute[mi] && s.hour[h];
  }

  lemma {:induction false} StarIsEvery(v: int)
    requires 0 <= v <= 6
    ensures AnyHas(Split("*", ','), 0, 6, v)
  {
    hide Nth;
    SplitNoSeparator("*", ',');
    assert IndexOf("*", '/') == 1 && "*"[..1] == "*";
    assert ReadAtom("*", 0, 6) == Ok(Span(0, 6, 1));
    assert v == Nth(Span(0, 6, 1), v as nat) by { NthOfOnes(v); }
    assert AtomHas("*", 0, 6, v);
    assert "*" in Split("*", ',');
  }

  lemma NthOfOnes(v: nat)
    ensures Nth(Span(0, 6, 1), v) == v
  {
  }

  /** An accepted expression always finds a time if and only if its days leave no
      gap; with `*` as its last word, if and only if it allows a real date other
      than 29 February. */
  lemma {:induction false} ParsedAlwaysFiresIff(s: Schedule, words: seq<string>)
    requires Compiled(s, words)
    ensures WellFormed(s) && ((forall from: nat :: Fires(s, from)) <==> Gapless(s))
    ensures words[4] == "*" ==> ((forall from: nat :: Fires(s, from)) <==> HasDate(s))
  {
    hide Fires, Gapless, HasDate, HasTime, AnyHas, FirstFieldTrouble;
    CompiledHasTime(s, words);
    FiresIffGapless(s);
    if words[4] == "*" {
      forall k | 0 <= k < 7 ensures s.dow[k] {
        StarIsEvery(k);
        assert AnyHas(Split(words[4], ','), 0, 6, 0 + k);
      }
      AlwaysFiresIff(s);
    }
  }
}
