/** What a hit says about the trace of operations alone: which store it comes
    from, and how long ago that was. */
module CacheTrace {
  import opened Text
  import opened CacheSpec
  import opened CacheRuns

  /** The clock after the operations. */
  function TimeOf<K, V>(now: int, ops: seq<Op<K, V>>): int {
    if ops == [] then now
    else
      var last := ops[|ops| - 1];
      TimeOf(now, ops[..|ops| - 1]) + if last.Tick? then last.d else 0
  }

  /** Operations that end what was stored for a key. */
  predicate Ends<K(==), V>(op: Op<K, V>, k: K) {
    op.Purge? || (op.Delete? && op.k == k) || (op.Set? && op.k == k)
  }

  /** Operation `i` stored `k`, and nothing has ended that since. */
  ghost predicate Stands<K, V>(ops: seq<Op<K, V>>, k: K, i: nat) {
    i < |ops| && ops[i].Set? && ops[i].k == k && forall j | i < j < |ops| :: !Ends(ops[j], k)
  }

  lemma {:induction false} RunMore<K, V>(st: State<K, V>, ops: seq<Op<K, V>>, op: Op<K, V>, ttl: int, cap: nat)
    ensures Run(st, ops + [op], ttl, cap) == Apply(Run(st, ops, ttl, cap), op, ttl, cap)
    decreases |ops|
  {
    hide Apply;
    if ops == [] {
      assert ([] + [op])[1..] == [];
    } else {
      assert (ops + [op])[1..] == ops[1..] + [op];
      RunMore(Apply(st, ops[0], ttl, cap), ops[1..], op, ttl, cap);
    }
  }

  /** What an unbounded store would hold, read off the trace. */
  ghost predicate BareIs<K(!new), V>(st: State<K, V>, now: int, ops: seq<Op<K, V>>, k: K, ttl: int) {
    && st.now == TimeOf(now, ops) && (k in st.bare ==> exists i: nat :: Stands(ops, k, i))
    && forall i: nat | Stands(ops, k, i) ::
         k in st.bare && st.bare[k].value == ops[i].v
         && st.bare[k].expiresAt == if ttl > 0 then Some(TimeOf(now, ops[..i]) + ttl) else None
  }

  lemma {:induction false} StandsMore<K, V>(ops: seq<Op<K, V>>, op: Op<K, V>, k: K, i: nat)
    ensures Stands(ops + [op], k, i) <==>
            if i == |ops| then op.Set? && op.k == k else Stands(ops, k, i) && !Ends(op, k)
  {
    var more := ops + [op];
    if i < |ops| {
      assert more[i] == ops[i] && more[|ops|] == op;
      if Stands(more, k, i) {
        forall j | i < j < |ops| ensures !Ends(ops[j], k) { assert more[j] == ops[j]; }
      }
    }
  }

  lemma {:induction false} BareIsTrace<K(!new), V>(now: int, ops: seq<Op<K, V>>, k: K, ttl: int, cap: nat)
    ensures BareIs(Run(Start<K, V>(now), ops, ttl, cap), now, ops, k, ttl)
    decreases |ops|
  {
    hide Run, Lookup, Store, Without, Stands;
    if ops == [] {
      NothingStands<K, V>(now, k, ttl, cap);
    } else {
      var n := |ops| - 1;
      var init, op := ops[..n], ops[n];
      assert ops == init + [op];
      BareIsTrace(now, init, k, ttl, cap);
      RunMore(Start<K, V>(now), init, op, ttl, cap);
      BareStep(Run(Start<K, V>(now), init, ttl, cap), now, init, op, k, ttl, cap);
    }
  }

  lemma {:induction false} BareStep<K(!new), V>(
      st: State<K, V>, now: int, init: seq<Op<K, V>>, op: Op<K, V>, k: K, ttl: int, cap: nat)
    requires BareIs(st, now, init, k, ttl)
    ensures BareIs(Apply(st, op, ttl, cap), now, init + [op], k, ttl)
  {
    hide Run, Lookup, Store, Without, Stands;
    var ops, n, next := init + [op], |init|, Apply(st, op, ttl, cap);
    assert ops[..n] == init;
    forall i: nat
      ensures Stands(ops, k, i) <==> if i == n then op.Set? && op.k == k else Stands(init, k, i) && !Ends(op, k)
    {
      StandsMore(init, op, k, i);
    }
    forall i: nat | Stands(ops, k, i)
      ensures i < |ops| && ops[i].Set? && k in next.bare && next.bare[k].value == ops[i].v
      ensures next.bare[k].expiresAt == if ttl > 0 then Some(TimeOf(now, ops[..i]) + ttl) else None
    {
      StandsIn(ops, k, i);
      if i < n { assert ops[i] == init[i] && ops[..i] == init[..i]; }
    }
    if k in next.bare {
      if op.Set? && op.k == k {
        assert Stands(ops, k, n);
      } else {
        var i: nat :| Stands(init, k, i);
        StandsIn(init, k, i);
        assert Stands(ops, k, i);
      }
    }
  }

  lemma StandsIn<K, V>(ops: seq<Op<K, V>>, k: K, i: nat)
    requires Stands(ops, k, i)
    ensures i < |ops| && ops[i].Set? && ops[i].k == k
  {
  }

  lemma NothingStands<K(!new), V>(now: int, k: K, ttl: int, cap: nat)
    ensures BareIs(Run(Start<K, V>(now), [], ttl, cap), now, [], k, ttl)
  {
  }

  /** In every run of a shard that starts empty: a hit comes from a store of the
      key that nothing has ended since, and no later than `ttl` after it; and a
      key stored so and still in time is missed only when outrun. */
  lemma {:induction false} HitInTime<K(!new), V>(now: int, ops: seq<Op<K, V>>, k: K, ttl: int, cap: nat)
    requires cap > 0
    ensures var st := Run(Start<K, V>(now), ops, ttl, cap);
            var hit := Lookup(st.slots, k, st.now).1;
            && (hit.Some? ==> exists i: nat :: Stands(ops, k, i) && hit.value == ops[i].v
                                               && (ttl > 0 ==> TimeOf(now, ops) <= TimeOf(now, ops[..i]) + ttl))
            && (hit == None ==> forall i: nat | Stands(ops, k, i) ::
                  (ttl > 0 && TimeOf(now, ops) > TimeOf(now, ops[..i]) + ttl) || Outrun(st, k, cap))
  {
    hide Run, Lookup, Stands, Outrun, TimeOf;
    BareIsTrace(now, ops, k, ttl, cap);
    HitIsLatest(now, ops, k, ttl, cap);
    var st := Run(Start<K, V>(now), ops, ttl, cap);
    forall i: nat | Stands(ops, k, i) ensures i < |ops| && ops[i].Set? { StandsIn(ops, k, i); }
    if Lookup(st.slots, k, st.now).1.Some? {
      var i: nat :| Stands(ops, k, i);
      assert st.bare[k].value == ops[i].v;
    }
  }
}
