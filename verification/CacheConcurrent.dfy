/** The concurrent machine is a run of the shard: what its steps did to the
    shard, in order, is one sequence of lookups, stores and removals, so what
    holds over every run of a shard holds under any interleaving. */
module CacheConcurrent {
  import opened Text
  import opened CacheSpec
  import opened CacheFlight
  import R = CacheRuns
  import T = CacheTrace

  /** The operation a step does to the shard, if any: the first look is a lookup,
      the second one only when it hits, and a load that comes back is a store. */
  function Done<K(==), V, E>(st: State<K, V, E>, step: Step<K, V, E>): seq<R.Op<K, V>> {
    if !Enabled(st, step) then []
    else
      match step
      case Ask(_, k) => [R.Get(k)]
      case Recheck(t) => if Live(st.slots, st.callers[t].k, st.now) then [R.Get(st.callers[t].k)] else []
      case Land(t, outcome) => if outcome.Ok? then [R.Set(st.callers[t].k, outcome.value)] else []
      case Wake(_) => []
      case Put(k, v) => [R.Set(k, v)]
      case Drop(k) => [R.Delete(k)]
      case Clear => [R.Purge]
      case Tick(d) => [R.Tick(d)]
  }

  function Trace<K(==), V, E>(
      st: State<K, V, E>, steps: seq<Step<K, V, E>>, ttl: int, cap: nat): seq<R.Op<K, V>>
    decreases |steps|
  {
    if steps == [] then [] else Done(st, steps[0]) + Trace(Next(st, steps[0], ttl, cap), steps[1..], ttl, cap)
  }

  ghost predicate Same<K, V, E>(st: State<K, V, E>, shard: R.State<K, V>) {
    st.slots == shard.slots && st.now == shard.now
  }

  lemma {:induction false} StepIsOp<K, V, E>(
      st: State<K, V, E>, step: Step<K, V, E>, shard: R.State<K, V>, ttl: int, cap: nat)
    requires Same(st, shard)
    ensures Same(Next(st, step, ttl, cap), R.Run(shard, Done(st, step), ttl, cap))
  {
    hide Lookup, Store, Without, Live;
    var ops := Done(st, step);
    if ops != [] {
      assert ops[1..] == [];
      assert R.Run(shard, ops, ttl, cap) == R.Apply(shard, ops[0], ttl, cap);
    }
  }

  lemma {:induction false} RunsJoin<K, V>(
      shard: R.State<K, V>, a: seq<R.Op<K, V>>, b: seq<R.Op<K, V>>, ttl: int, cap: nat)
    ensures R.Run(shard, a + b, ttl, cap) == R.Run(R.Run(shard, a, ttl, cap), b, ttl, cap)
    decreases |a|
  {
    hide R.Apply;
    if a == [] {
      assert a + b == b;
    } else {
      assert (a + b)[1..] == a[1..] + b;
      RunsJoin(R.Apply(shard, a[0], ttl, cap), a[1..], b, ttl, cap);
    }
  }

  /** In every run, slots and clock are those of a shard that did the steps' operations. */
  lemma {:induction false} RunIsTrace<K, V, E>(
      st: State<K, V, E>, steps: seq<Step<K, V, E>>, shard: R.State<K, V>, ttl: int, cap: nat)
    requires Same(st, shard)
    ensures Same(Run(st, steps, ttl, cap), R.Run(shard, Trace(st, steps, ttl, cap), ttl, cap))
    decreases |steps|
  {
    hide Next, Done, R.Run, Same;
    if steps == [] {
      NothingDone(shard, ttl, cap);
    } else {
      var next, ops := Next(st, steps[0], ttl, cap), Done(st, steps[0]);
      StepIsOp(st, steps[0], shard, ttl, cap);
      RunIsTrace(next, steps[1..], R.Run(shard, ops, ttl, cap), ttl, cap);
      RunsJoin(shard, ops, Trace(next, steps[1..], ttl, cap), ttl, cap);
    }
  }

  lemma NothingDone<K, V>(shard: R.State<K, V>, ttl: int, cap: nat)
    ensures R.Run(shard, [], ttl, cap) == shard
  {
  }

  /** In every run of the machine, a caller answered without a load gets what the
      latest store of its key stored, whoever stored it: a loader that landed or
      the rest of the program; nothing has removed it since, and it is in time. */
  lemma {:induction false} HitIsLastStore<K(!new), V(!new), E(!new)>(
      callers: nat, now: int, steps: seq<Step<K, V, E>>, step: Step<K, V, E>, t: nat, ttl: int, cap: nat)
    requires cap > 0
    requires var st := Run(Start<K, V, E>(callers, now), steps, ttl, cap);
             && Enabled(st, step) && (step.Ask? || step.Recheck?) && step.t == t && t < |st.callers|
             && t < |Next(st, step, ttl, cap).callers| && Next(st, step, ttl, cap).callers[t].Returned?
    ensures var st, ops := Run(Start<K, V, E>(callers, now), steps, ttl, cap),
                           Trace(Start<K, V, E>(callers, now), steps, ttl, cap);
            var answer := Next(st, step, ttl, cap).callers[t];
            && answer.outcome.Ok?
            && exists i: nat ::
                 && T.Stands(ops, answer.k, i) && ops[i].v == answer.outcome.value
                 && (ttl > 0 ==> T.TimeOf(now, ops) <= T.TimeOf(now, ops[..i]) + ttl)
  {
    hide Run, Trace, R.Run, T.Stands, T.TimeOf, Lookup, Store, Without, IndexOf;
    var start, shard := Start<K, V, E>(callers, now), R.Start<K, V>(now);
    var st, ops := Run(start, steps, ttl, cap), Trace(start, steps, ttl, cap);
    RunIsTrace(start, steps, shard, ttl, cap);
    var k := if step.Ask? then step.k else st.callers[t].k;
    T.HitInTime(now, ops, k, ttl, cap);
    if step.Recheck? { LiveHits(st.slots, k, st.now); }
    assert Lookup(st.slots, k, st.now).1.Some?;
  }
}
