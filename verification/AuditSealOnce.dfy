/** internal/audit/seal.go: row times in any order. Exactly when a run seals
    every row once. */
module AuditSealOnce {
  import opened AuditSeal

  /** Writes, and calls that fail. */
  predicate Quiet(step: Step) { step.Write? || !step.stored }

  /** Until the next successful call nothing is sealed and nothing is forgotten. */
  lemma {:induction false} QuietKeeps(st: State, mid: seq<Step>)
    requires forall s | s in mid :: Quiet(s)
    ensures Run(st, mid).seals == st.seals && forall r | r in st.rows :: r in Run(st, mid).rows
  {
    hide After;
    if mid != [] {
      QuietKeeps(st, mid[..|mid| - 1]);
      assert Quiet(mid[|mid| - 1]);
    }
  }

  /** The next call selects a row exactly when its time was past the last range
      end as it was written; until then no write and no failed call matters. */
  lemma {:induction false} SelectedIff(st: State, row: Row, mid: seq<Step>)
    requires forall s | s in mid :: Quiet(s)
    ensures var now := Run(Next(st, Write(row)), mid);
            row in After(now.rows, LastEnd(now.seals)) <==> row.at > LastEnd(st.seals)
  {
    QuietKeeps(Next(st, Write(row)), mid);
  }

  /** The last range end is the latest of them, and the epoch when there is none. */
  lemma {:induction false} LastEndIsMax(seals: seq<Seal>)
    ensures seals == [] ==> LastEnd(seals) == 0
    ensures seals != [] ==> exists i :: 0 <= i < |seals| && LastEnd(seals) == seals[i].rangeEnd
    ensures forall i | 0 <= i < |seals| :: seals[i].rangeEnd <= LastEnd(seals)
  {
    if seals != [] {
      var n := |seals| - 1;
      LastEndIsMax(seals[..n]);
      if n > 0 && LastEnd(seals) != seals[n].rangeEnd {
        var i :| 0 <= i < n && LastEnd(seals[..n]) == seals[..n][i].rangeEnd;
        assert LastEnd(seals) == seals[i].rangeEnd;
      } else {
        assert LastEnd(seals) == seals[n].rangeEnd;
      }
    }
  }

  /** A new seal starts where the ranges before it ended, but at its own first row
      when that is no later than the year 1970. */
  lemma {:induction false} NewSealIs(end: int, chosen: seq<Row>)
    requires chosen != []
    ensures var s, last := NewSeal(end, chosen), chosen[|chosen| - 1];
            && s.rangeStart == (if end < 31_536_000_000_000 then chosen[0].at else end) && s.rangeEnd == last.at
            && s.rowCount == |chosen| && s.chainHead == last.hash
  {
  }

  // Whole runs

  const NONE := State([], [])

  /** Whether a successful call selects the row at a position. */
  predicate Selects(st: State, k: nat) { k < |st.rows| && st.rows[k].at > LastEnd(st.seals) }

  /** How often the calls of a run seal the row at a position. */
  function Times(steps: seq<Step>, k: nat): nat {
    if steps == [] then 0
    else
      var init, last := steps[..|steps| - 1], steps[|steps| - 1];
      Times(init, k) + if last == SealNow(true) && Selects(Run(NONE, init), k) then 1 else 0
  }

  /** A row is later than every range end when it is written, and the last row a
      successful call selects is the latest of them. */
  ghost predicate Orderly(st: State, step: Step) {
    match step
    case Write(row) => row.at > LastEnd(st.seals)
    case SealNow(stored) =>
      var chosen := After(st.rows, LastEnd(st.seals));
      stored ==> forall r | r in chosen :: r.at <= chosen[|chosen| - 1].at
  }

  ghost predicate OrderlyRun(steps: seq<Step>) {
    forall i | 0 <= i < |steps| :: Orderly(Run(NONE, steps[..i]), steps[i])
  }

  /** Each row sealed once if its time is not past the last range end, and not yet if it is. */
  ghost predicate Exact(steps: seq<Step>) {
    var st := Run(NONE, steps);
    forall k | 0 <= k < |st.rows| :: Times(steps, k) == if Selects(st, k) then 0 else 1
  }

  ghost predicate EachSealedOnce(steps: seq<Step>) {
    forall k | 0 <= k < |Run(NONE, steps).rows| :: Times(steps, k) == 1
  }

  lemma SealEnd(st: State)
    ensures var chosen := After(st.rows, LastEnd(st.seals));
            LastEnd(Sealed(st, true).seals) == if chosen == [] then LastEnd(st.seals) else chosen[|chosen| - 1].at
    ensures forall k | 0 <= k < |st.rows| :: Selects(st, k) <==> st.rows[k] in After(st.rows, LastEnd(st.seals))
  {
    var chosen, next := After(st.rows, LastEnd(st.seals)), Sealed(st, true);
    if chosen != [] {
      assert chosen[|chosen| - 1] in chosen;
      assert next.seals[..|st.seals|] == st.seals;
      if st.seals == [] { assert next.seals == [next.seals[0]]; }
    }
  }

  lemma {:induction false} NotYetWritten(steps: seq<Step>, k: nat)
    requires k >= |Run(NONE, steps).rows|
    ensures Times(steps, k) == 0
  {
    if steps != [] {
      NotYetWritten(steps[..|steps| - 1], k);
    }
  }

  lemma {:induction false} WriteExact(init: seq<Step>, row: Row)
    ensures Exact(init + [Write(row)]) <==> Exact(init) && row.at > LastEnd(Run(NONE, init).seals)
  {
    hide After, Sealed, LastEnd;
    var steps, st := init + [Write(row)], Run(NONE, init);
    var n := |st.rows|;
    assert steps[..|init|] == init;
    var next := Run(NONE, steps);
    assert next == st.(rows := st.rows + [row]);
    NotYetWritten(init, n);
    forall k | 0 <= k < n ensures Selects(next, k) <==> Selects(st, k) {}
    if Exact(steps) {
      assert Times(steps, n) == if Selects(next, n) then 0 else 1;
      forall k | 0 <= k < n ensures Times(init, k) == if Selects(st, k) then 0 else 1 {
        assert Times(steps, k) == Times(init, k);
      }
    }
  }

  lemma {:induction false} SealExact(init: seq<Step>)
    ensures Exact(init + [SealNow(true)]) <==> Exact(init) && Orderly(Run(NONE, init), SealNow(true))
  {
    hide After, Sealed, LastEnd, Selects;
    var steps, st := init + [SealNow(true)], Run(NONE, init);
    assert steps[..|init|] == init;
    var next, chosen := Run(NONE, steps), After(st.rows, LastEnd(st.seals));
    assert next == Sealed(st, true);
    SameRows(st);
    SealEnd(st);
    forall k | 0 <= k < |st.rows| ensures Selects(next, k) ==> Selects(st, k) { StillSelected(st, k); }
    if Orderly(st, SealNow(true)) {
      forall k | 0 <= k < |st.rows| ensures !Selects(next, k) { NotAgain(st, k); }
    } else {
      var r :| r in chosen && r.at > chosen[|chosen| - 1].at;
      assert r in st.rows;
      var k :| 0 <= k < |st.rows| && st.rows[k] == r;
      Again(st, k);
      assert Times(steps, k) >= 1;
    }
  }

  lemma SameRows(st: State)
    ensures Sealed(st, true).rows == st.rows
  {
  }

  lemma StillSelected(st: State, k: nat)
    ensures Selects(Sealed(st, true), k) ==> Selects(st, k)
  {
    SealEnd(st);
    var chosen := After(st.rows, LastEnd(st.seals));
    if chosen != [] { assert chosen[|chosen| - 1] in chosen; }
  }

  lemma NotAgain(st: State, k: nat)
    requires Orderly(st, SealNow(true))
    ensures !Selects(Sealed(st, true), k)
  {
    SealEnd(st);
    StillSelected(st, k);
  }

  lemma Again(st: State, k: nat)
    requires k < |st.rows|
    requires var chosen := After(st.rows, LastEnd(st.seals));
             st.rows[k] in chosen && st.rows[k].at > chosen[|chosen| - 1].at
    ensures Selects(st, k) && Selects(Sealed(st, true), k)
  {
    SealEnd(st);
  }

  lemma {:induction false} OrderlyMore(init: seq<Step>, step: Step)
    ensures OrderlyRun(init + [step]) <==> OrderlyRun(init) && Orderly(Run(NONE, init), step)
  {
    hide Orderly, Run;
    var steps := init + [step];
    assert steps[..|init|] == init;
    forall i | 0 <= i < |init| ensures steps[..i] == init[..i] && steps[i] == init[i] {}
    if OrderlyRun(steps) {
      assert Orderly(Run(NONE, steps[..|init|]), steps[|init|]);
      forall i | 0 <= i < |init| ensures Orderly(Run(NONE, init[..i]), init[i]) {
        assert Orderly(Run(NONE, steps[..i]), steps[i]);
      }
    }
  }

  /** A run is exact as long as it is orderly, and never again after that. */
  lemma {:induction false} ExactIffOrderly(steps: seq<Step>)
    ensures Exact(steps) <==> OrderlyRun(steps)
  {
    hide Exact, OrderlyRun, Orderly;
    if steps == [] {
      NothingYet();
    } else {
      var init, last := steps[..|steps| - 1], steps[|steps| - 1];
      assert steps == init + [last];
      ExactIffOrderly(init);
      OrderlyMore(init, last);
      match last
      case Write(row) => WriteExact(init, row); WriteOrderly(Run(NONE, init), row);
      case SealNow(stored) => if stored { SealExact(init); } else { FailedCall(init); }
    }
  }

  lemma NothingYet()
    ensures Exact([]) && OrderlyRun([])
  {
  }

  lemma WriteOrderly(st: State, row: Row)
    ensures Orderly(st, Write(row)) <==> row.at > LastEnd(st.seals)
  {
  }

  lemma {:induction false} FailedCall(init: seq<Step>)
    ensures Exact(init + [SealNow(false)]) <==> Exact(init)
    ensures Orderly(Run(NONE, init), SealNow(false))
  {
    hide After, LastEnd, Selects;
    var steps := init + [SealNow(false)];
    assert steps[..|init|] == init;
    assert Run(NONE, steps) == Run(NONE, init);
    assert forall k: nat :: Times(steps, k) == Times(init, k);
  }

  /** A run that ends with a successful call has sealed every row exactly once if
      and only if every row was later than the range ends before it, and every
      earlier call that succeeded ended with its latest row. */
  lemma {:induction false} EachSealedOnceIff(steps: seq<Step>)
    ensures EachSealedOnce(steps + [SealNow(true)]) <==> OrderlyRun(steps)
  {
    hide After, Sealed, LastEnd, OrderlyRun, Selects;
    var all, st := steps + [SealNow(true)], Run(NONE, steps);
    assert all[..|steps|] == steps;
    SameRows(st);
    ExactIffOrderly(steps);
    assert Run(NONE, all).rows == st.rows;
    assert forall k: nat :: Times(all, k) == Times(steps, k) + if Selects(st, k) then 1 else 0;
    if EachSealedOnce(all) {
      forall k | 0 <= k < |st.rows| ensures Times(steps, k) == if Selects(st, k) then 0 else 1 {
        assert Times(all, k) == 1;
      }
    }
  }

  // The counts of the seals are these counts

  function SumTimes(steps: seq<Step>, n: nat): nat {
    if n == 0 then 0 else SumTimes(steps, n - 1) + Times(steps, n - 1)
  }

  lemma {:induction false} AfterMore(rows: seq<Row>, row: Row, t: int)
    ensures After(rows + [row], t) == After(rows, t) + if row.at > t then [row] else []
  {
    hide After;
    var more := rows + [row];
    AfterParts(rows, t);
    AfterParts(more, t);
    if rows == [] {
      AfterParts([], t);
      assert more[1..] == [];
    } else {
      AfterMore(rows[1..], row, t);
      assert more[1..] == rows[1..] + [row] && more[0] == rows[0];
    }
  }

  lemma {:induction false} SumSealed(init: seq<Step>, n: nat)
    requires n <= |Run(NONE, init).rows|
    ensures var st := Run(NONE, init);
            SumTimes(init + [SealNow(true)], n) == SumTimes(init, n) + |After(st.rows[..n], LastEnd(st.seals))|
  {
    hide LastEnd, After, Run;
    var steps, st := init + [SealNow(true)], Run(NONE, init);
    assert steps[..|init|] == init;
    if n == 0 {
      assert st.rows[..0] == [];
      AfterParts([], LastEnd(st.seals));
    } else {
      SumSealed(init, n - 1);
      assert st.rows[..n] == st.rows[..n - 1] + [st.rows[n - 1]];
      AfterMore(st.rows[..n - 1], st.rows[n - 1], LastEnd(st.seals));
    }
  }

  lemma {:induction false} SumSame(steps: seq<Step>, init: seq<Step>, n: nat)
    requires forall k: nat :: Times(steps, k) == Times(init, k)
    ensures SumTimes(steps, n) == SumTimes(init, n)
  {
    if n > 0 { SumSame(steps, init, n - 1); }
  }

  /** In every run the row counts of the seals add up to how often rows were sealed. */
  lemma {:induction false} CountsAddUp(steps: seq<Step>)
    ensures Covered(Run(NONE, steps).seals) == SumTimes(steps, |Run(NONE, steps).rows|)
  {
    hide After, LastEnd, Selects;
    if steps != [] {
      var init, last := steps[..|steps| - 1], steps[|steps| - 1];
      var st, next := Run(NONE, init), Run(NONE, steps);
      assert steps == init + [last];
      CountsAddUp(init);
      if last == SealNow(true) {
        SumSealed(init, |st.rows|);
        assert st.rows[..|st.rows|] == st.rows;
        assert next.seals != st.seals ==> next.seals[..|st.seals|] == st.seals;
      } else {
        SumSame(steps, init, |st.rows|);
        if last.Write? { NotYetWritten(init, |st.rows|); SumSame(steps, init, |next.rows|); }
      }
    }
  }
}
