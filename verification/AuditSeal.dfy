/** internal/audit/seal.go: sealing ranges of the legacy log. Times are
    microseconds since the epoch; signing is left out. */
module AuditSeal {
  import opened Text

  const EPOCH := 0
  /** The first moment of 1971. */
  const YEAR_1971 := 365 * 24 * 3600 * 1_000_000

  datatype Row = Row(at: int, hash: string)

  datatype Seal = Seal(rangeStart: int, rangeEnd: int, rowCount: nat, chainHead: string)

  datatype State = State(rows: seq<Row>, seals: seq<Seal>)

  /** `COALESCE(MAX(range_end), 'epoch')`. */
  function LastEnd(seals: seq<Seal>): int {
    if seals == [] then EPOCH
    else
      var m, last := LastEnd(seals[..|seals| - 1]), seals[|seals| - 1].rangeEnd;
      if |seals| == 1 || last > m then last else m
  }

  /** The rows later than a time, in log order. */
  function After(rows: seq<Row>, t: int): (r: seq<Row>)
    ensures forall x :: x in r <==> x in rows && x.at > t
  {
    if rows == [] then [] else (if rows[0].at > t then [rows[0]] else []) + After(rows[1..], t)
  }

  /** The seal over the rows a call selects. */
  function NewSeal(end: int, chosen: seq<Row>): Seal
    requires chosen != []
  {
    var last := chosen[|chosen| - 1];
    Seal(if end < YEAR_1971 then chosen[0].at else end, last.at, |chosen|, last.hash)
  }

  /** One call; `stored` says whether signing and the insert succeed. */
  function Sealed(st: State, stored: bool): State {
    var end := LastEnd(st.seals);
    var chosen := After(st.rows, end);
    if chosen == [] || !stored then st else st.(seals := st.seals + [NewSeal(end, chosen)])
  }

  lemma AfterParts(rows: seq<Row>, t: int)
    ensures After(rows, t) ==
              if rows == [] then [] else (if rows[0].at > t then [rows[0]] else []) + After(rows[1..], t)
  {
  }

  class Sealer {
    var rows: seq<Row>
    var seals: seq<Seal>

    ghost function View(): State
      reads this
    {
      State(rows, seals)
    }

    /** The scan of the rows past the last seal. */
    method Scan(rangeStart: int) returns (firstAt: int, lastAt: int, chainHead: string, rowCount: nat)
      ensures var chosen := After(rows, rangeStart);
              && rowCount == |chosen|
              && (chosen != [] ==> firstAt == chosen[0].at && lastAt == chosen[|chosen| - 1].at)
              && (chosen != [] ==> chainHead == chosen[|chosen| - 1].hash)
    {
      hide After;
      firstAt, lastAt, chainHead, rowCount := 0, 0, "", 0;
      ghost var chosen: seq<Row> := [];
      for i := 0 to |rows|
        invariant chosen + After(rows[i..], rangeStart) == After(rows, rangeStart)
        invariant rowCount == |chosen|
        invariant chosen != [] ==> firstAt == chosen[0].at && lastAt == chosen[|chosen| - 1].at
        invariant chosen != [] ==> chainHead == chosen[|chosen| - 1].hash
      {
        AfterParts(rows[i..], rangeStart);
        assert rows[i..][1..] == rows[i + 1..];
        if rows[i].at > rangeStart {
          if rowCount == 0 {
            firstAt := rows[i].at;
          }
          lastAt := rows[i].at;
          chainHead := rows[i].hash;
          rowCount := rowCount + 1;
          chosen := chosen + [rows[i]];
        }
      }
      AfterParts([], rangeStart);
      assert rows[|rows|..] == [] && chosen + [] == chosen;
    }

    method SealUnsealed(stored: bool) returns (n: nat)
      modifies this`seals
      ensures View() == Sealed(old(View()), stored)
      ensures n == if stored then |After(rows, LastEnd(old(seals)))| else 0
    {
      hide After;
      var rangeStart := LastEnd(seals);
      var firstAt, lastAt, chainHead, rowCount := Scan(rangeStart);
      if rowCount == 0 || !stored {
        return 0;
      }
      if rangeStart < YEAR_1971 {
        rangeStart := firstAt;
      }
      seals := seals + [Seal(rangeStart, lastAt, rowCount, chainHead)];
      n := rowCount;
    }
  }

  datatype Step = Write(row: Row) | SealNow(stored: bool)

  function Next(st: State, step: Step): State {
    match step
    case Write(row) => st.(rows := st.rows + [row])
    case SealNow(stored) => Sealed(st, stored)
  }

  function Run(st: State, steps: seq<Step>): State {
    if steps == [] then st else Next(Run(st, steps[..|steps| - 1]), steps[|steps| - 1])
  }

  // With strictly increasing times the seals tile the log

  /** Rows covered by the first seals together. */
  function Covered(seals: seq<Seal>): nat {
    if seals == [] then 0 else Covered(seals[..|seals| - 1]) + seals[|seals| - 1].rowCount
  }

  ghost predicate Increasing(rows: seq<Row>) {
    (forall i | 0 <= i < |rows| :: rows[i].at > EPOCH) && forall i, j | 0 <= i < j < |rows| :: rows[i].at < rows[j].at
  }

  /** Seal `i` covers the rows right after those of the seals before it: its
      range begins where the last one ended, it ends at its own last row, whose
      hash it carries. */
  ghost predicate Tile(st: State, i: nat)
    requires i < |st.seals|
  {
    var s, from, to := st.seals[i], Covered(st.seals[..i]), Covered(st.seals[..i + 1]);
    && from < to <= |st.rows|
    && s.rangeEnd == st.rows[to - 1].at && s.chainHead == st.rows[to - 1].hash
    && s.rangeStart ==
       if i == 0 || st.seals[i - 1].rangeEnd < YEAR_1971 then st.rows[from].at else st.seals[i - 1].rangeEnd
  }

  ghost predicate Tiled(st: State) {
    Increasing(st.rows) && forall i | 0 <= i < |st.seals| :: Tile(st, i)
  }

  lemma {:induction false} FewerTiles(st: State)
    requires Tiled(st) && st.seals != []
    ensures Tiled(st.(seals := st.seals[..|st.seals| - 1]))
  {
    hide Covered;
    var n := |st.seals| - 1;
    var init := st.(seals := st.seals[..n]);
    forall i | 0 <= i < n ensures Tile(init, i) {
      assert Tile(st, i) && init.seals[..i] == st.seals[..i] && init.seals[..i + 1] == st.seals[..i + 1];
    }
  }

  lemma {:induction false} EndOfTiles(st: State)
    requires Tiled(st)
    ensures Covered(st.seals) <= |st.rows|
    ensures if st.seals == [] then Covered(st.seals) == 0 else Covered(st.seals) > 0
    ensures LastEnd(st.seals) == if st.seals == [] then EPOCH else st.rows[Covered(st.seals) - 1].at
    ensures st.seals != [] ==> LastEnd(st.seals) == st.seals[|st.seals| - 1].rangeEnd
    decreases |st.seals|
  {
    if st.seals != [] {
      var n := |st.seals| - 1;
      var init := st.(seals := st.seals[..n]);
      assert Tile(st, n) && st.seals[..n + 1] == st.seals;
      FewerTiles(st);
      EndOfTiles(init);
      assert Covered(st.seals) > Covered(init.seals);
    }
  }

  lemma {:induction false} AfterIsSuffix(rows: seq<Row>, n: nat, t: int)
    requires Increasing(rows) && n <= |rows| && t >= EPOCH
    requires t == if n == 0 then EPOCH else rows[n - 1].at
    ensures After(rows, t) == rows[n..]
  {
    forall i | 0 <= i < |rows| ensures rows[i].at > t <==> i >= n {}
    Suffix(rows, n, t);
  }

  lemma {:induction false} Suffix(rows: seq<Row>, n: nat, t: int)
    requires n <= |rows| && forall i | 0 <= i < |rows| :: rows[i].at > t <==> i >= n
    ensures After(rows, t) == rows[n..]
  {
    if rows != [] {
      Suffix(rows[1..], if n == 0 then 0 else n - 1, t);
      assert rows == [rows[0]] + rows[1..];
    }
  }

  lemma {:induction false} SealTiles(st: State, stored: bool)
    requires Tiled(st)
    ensures Tiled(Sealed(st, stored))
    ensures stored ==> Covered(Sealed(st, stored).seals) == |st.rows|
    ensures Covered(st.seals) == |st.rows| ==> Sealed(st, stored) == st
  {
    hide After, Covered;
    var next, n := Sealed(st, stored), Covered(st.seals);
    EndOfTiles(st);
    AfterIsSuffix(st.rows, n, LastEnd(st.seals));
    if next != st {
      TileAdded(st, next.seals[|st.seals|]);
    }
  }

  /** One more seal, over all the rows not covered yet. */
  lemma {:induction false} TileAdded(st: State, s: Seal)
    requires Tiled(st) && Covered(st.seals) < |st.rows| && s.rowCount == |st.rows| - Covered(st.seals)
    requires s.rangeEnd == st.rows[|st.rows| - 1].at && s.chainHead == st.rows[|st.rows| - 1].hash
    requires var end := if st.seals == [] then EPOCH else st.seals[|st.seals| - 1].rangeEnd;
             s.rangeStart == if end < YEAR_1971 then st.rows[Covered(st.seals)].at else end
    ensures Tiled(st.(seals := st.seals + [s])) && Covered(st.seals + [s]) == |st.rows|
  {
    var next := st.(seals := st.seals + [s]);
    assert next.seals[..|st.seals|] == st.seals && next.seals[..|st.seals| + 1] == next.seals;
    assert Covered(next.seals) == |st.rows|;
    hide Covered;
    forall i | 0 <= i < |next.seals| ensures Tile(next, i) {
      if i < |st.seals| {
        assert Tile(st, i) && next.seals[..i] == st.seals[..i] && next.seals[..i + 1] == st.seals[..i + 1];
      }
    }
  }

  lemma {:induction false} WriteTiles(st: State, row: Row)
    requires Tiled(st) && row.at > EPOCH && forall r | r in st.rows :: r.at < row.at
    ensures Tiled(Next(st, Write(row)))
  {
    var next := Next(st, Write(row));
    forall i | 0 <= i < |next.seals| ensures Tile(next, i) { assert Tile(st, i); }
  }

  /** Row times of a run. */
  function Rows(steps: seq<Step>): seq<Row> {
    if steps == [] then []
    else
      var last := steps[|steps| - 1];
      Rows(steps[..|steps| - 1]) + if last.Write? then [last.row] else []
  }

  /** In every run with strictly increasing row times the seals cut the sealed
      prefix of the log into consecutive pieces; a call that succeeds seals
      everything, and one with nothing new to seal changes nothing. */
  lemma {:induction false} SealsPartitionTheLog(steps: seq<Step>)
    requires Increasing(Rows(steps))
    ensures var st := Run(State([], []), steps);
            st.rows == Rows(steps) && Tiled(st) && Covered(st.seals) <= |st.rows|
  {
    hide Sealed, Covered;
    var st := Run(State([], []), steps);
    if steps != [] {
      var last := steps[|steps| - 1];
      var before := Rows(steps[..|steps| - 1]);
      assert forall i | 0 <= i < |before| :: before[i] == Rows(steps)[i];
      SealsPartitionTheLog(steps[..|steps| - 1]);
      match last
      case Write(row) =>
        assert Rows(steps)[|before|] == row;
        WriteTiles(Run(State([], []), steps[..|steps| - 1]), row);
      case SealNow(stored) => SealKeepsRows(Run(State([], []), steps[..|steps| - 1]), stored);
    }
    EndOfTiles(st);
  }

  lemma SealKeepsRows(st: State, stored: bool)
    requires Tiled(st)
    ensures Tiled(Sealed(st, stored)) && Sealed(st, stored).rows == st.rows
  {
    hide Covered;
    SealTiles(st, stored);
  }

  /** Each sealed row is covered by exactly one seal: the one whose range its time falls in. */
  lemma {:induction false} CoveredByTime(st: State, i: nat, k: nat)
    requires Tiled(st) && i < |st.seals| && k < |st.rows|
    ensures Covered(st.seals[..i]) <= k < Covered(st.seals[..i + 1]) <==>
            (if i == 0 then EPOCH else st.seals[i - 1].rangeEnd) < st.rows[k].at <= st.seals[i].rangeEnd
  {
    hide Covered;
    assert Tile(st, i);
    if i == 0 {
      assert Covered(st.seals[..0]) == 0 by { NoneCovered(); assert st.seals[..0] == []; }
    } else {
      assert Tile(st, i - 1);
    }
  }

  lemma NoneCovered()
    ensures Covered([]) == 0
  {
  }

  // Without that assumption

  /** Row times in any order: a row no later than the last range end when it is
      written is never selected again, whatever happens next. */
  lemma {:induction false} LateRowIsNeverSealed(st: State, row: Row, steps: seq<Step>)
    requires row.at <= LastEnd(st.seals)
    ensures var end := Run(st, steps); row !in After(end.rows, LastEnd(end.seals))
  {
    EndGrows(st, steps);
  }

  lemma {:induction false} EndGrows(st: State, steps: seq<Step>)
    ensures LastEnd(Run(st, steps).seals) >= LastEnd(st.seals)
  {
    if steps != [] {
      var before := Run(st, steps[..|steps| - 1]);
      EndGrows(st, steps[..|steps| - 1]);
      var next := Run(st, steps);
      if next.seals != before.seals {
        var chosen := After(before.rows, LastEnd(before.seals));
        assert chosen[|chosen| - 1] in chosen;
        assert next.seals[..|before.seals|] == before.seals;
      }
    }
  }

  /** A call leaves none of the rows it sealed to be sealed again exactly when the last of them is the latest. */
  lemma {:induction false} SealedOnceIff(st: State)
    requires After(st.rows, LastEnd(st.seals)) != []
    ensures var chosen, next := After(st.rows, LastEnd(st.seals)), Sealed(st, true);
            After(next.rows, LastEnd(next.seals)) == [] <==> forall r | r in chosen :: r.at <= chosen[|chosen| - 1].at
  {
    var chosen, next := After(st.rows, LastEnd(st.seals)), Sealed(st, true);
    assert next.seals[..|st.seals|] == st.seals;
    var again := After(next.rows, LastEnd(next.seals));
    assert chosen[|chosen| - 1] in chosen;
    if again != [] { assert again[0] in again; }
  }

  /** Two rows in one microsecond with a seal between them: the second is left out for good. */
  lemma TieIsLost(t: int, h: string, g: string)
    requires t > EPOCH && h != g
    ensures var st := Run(State([], []), [Write(Row(t, h)), SealNow(true), Write(Row(t, g)), SealNow(true)]);
            |st.rows| == 2 && Covered(st.seals) == 1 && |st.seals| == 1
  {
    hide After, Run, Sealed, LastEnd, Covered;
    var first, second, none := Row(t, h), Row(t, g), State([], []);
    var a: seq<Step> := [Write(first)];
    var b, c := a + [SealNow(true)], a + [SealNow(true)] + [Write(second)];
    assert [Write(first), SealNow(true), Write(second), SealNow(true)] == c + [SealNow(true)] && [] + a == a;
    RunNone(none);
    RunOne(none, [], Write(first));
    RunOne(none, a, SealNow(true));
    RunOne(none, b, Write(second));
    RunOne(none, c, SealNow(true));
    assert [] + [first] == [first] && [first] + [second] == [first, second];
    OneSealed(first);
    OneLost(first, second);
  }

  lemma RunNone(st: State)
    ensures Run(st, []) == st
  {
  }

  lemma OneSealed(first: Row)
    requires first.at > EPOCH
    ensures Sealed(State([first], []), true) == State([first], [NewSeal(EPOCH, [first])])
  {
    assert After([first], EPOCH) == [first];
  }

  lemma OneLost(first: Row, second: Row)
    requires second.at <= first.at
    ensures var st := State([first, second], [NewSeal(EPOCH, [first])]);
            Sealed(st, true) == st && Covered(st.seals) == 1
  {
    hide After;
    var s := NewSeal(EPOCH, [first]);
    assert [s][..0] == [] && LastEnd([s]) == first.at;
    AfterParts([first, second], first.at);
    AfterParts([second], first.at);
    AfterParts([], first.at);
    assert [first, second][1..] == [second] && [second][1..] == [];
  }

  lemma RunOne(st: State, steps: seq<Step>, step: Step)
    ensures Run(st, steps + [step]) == Next(Run(st, steps), step)
  {
    assert (steps + [step])[..|steps|] == steps;
  }
}
