/** What a shard keeps over whole runs: the order is the order of last use, a
    hit returns the latest value stored, and a live key is lost only to a full
    shard of keys used since. */
module CacheRuns {
  import opened Text
  import opened CacheSpec

  datatype Op<K, V> = Get(k: K) | Set(k: K, v: V) | Delete(k: K) | Purge | Tick(d: nat)

  /** `last` says, for each key ever used, the step of its latest use; `bare`
      is the map an unbounded store would hold. Neither steers the shard. */
  datatype State<K, V> = State(
    slots: Recency<K, V>, now: int, step: nat, last: map<K, nat>, bare: map<K, Slot<K, V>>)

  function Start<K, V>(now: int): State<K, V> { State([], now, 0, map[], map[]) }

  function Used<K, V>(st: State<K, V>, k: K): map<K, nat> { st.last[k := st.step] }

  function Apply<K(==), V>(st: State<K, V>, op: Op<K, V>, ttl: int, cap: nat): State<K, V> {
    var next := st.(step := st.step + 1);
    match op
    case Get(k) =>
      var (slots, r) := Lookup(st.slots, k, st.now);
      if r.Some? then next.(slots := slots, last := Used(st, k)) else next.(slots := slots)
    case Set(k, v) =>
      next.(
        slots := Store(st.slots, k, v, ttl, st.now, cap).0,
        last := Used(st, k),
        bare := st.bare[k := Slot(k, v, Deadline(ttl, st.now, None))])
    case Delete(k) => next.(slots := Without(st.slots, k), bare := st.bare - {k})
    case Purge => next.(slots := [], bare := map[])
    case Tick(d) => next.(now := st.now + d)
  }

  function Run<K(==), V>(st: State<K, V>, ops: seq<Op<K, V>>, ttl: int, cap: nat): State<K, V>
    decreases |ops|
  {
    if ops == [] then st else Run(Apply(st, ops[0], ttl, cap), ops[1..], ttl, cap)
  }

  /** At least `cap` keys, all used since `k` was. */
  ghost predicate Outrun<K(!new), V>(st: State<K, V>, k: K, cap: nat) {
    exists fresher: set<K> :: Fresher(st, k, fresher) && |fresher| == cap
  }

  ghost predicate Fresher<K, V>(st: State<K, V>, k: K, fresher: set<K>) {
    k in st.last && forall x | x in fresher :: x in st.last && st.last[x] > st.last[k]
  }

  ghost predicate Ordered<K, V>(st: State<K, V>) {
    && (forall s | s in st.slots :: s.key in st.last)
    && (forall i, j | 0 <= i < j < |st.slots| :: st.last[st.slots[i].key] > st.last[st.slots[j].key])
    && (forall k | k in st.last :: st.last[k] < st.step)
  }

  ghost predicate Agrees<K, V>(st: State<K, V>) {
    && (forall s | s in st.slots :: s.key in st.bare && st.bare[s.key] == s)
    && (forall k | k in st.bare :: k in st.last && st.bare[k].key == k)
  }

  ghost predicate Retains<K(!new), V>(st: State<K, V>, cap: nat) {
    forall k | k in st.bare :: Holds(st.slots, k) || Expired(st.bare[k], st.now) || Outrun(st, k, cap)
  }

  ghost predicate Deadlines<K, V>(st: State<K, V>, ttl: int) {
    forall k | k in st.bare :: st.bare[k].expiresAt.Some? <==> ttl > 0
  }

  ghost predicate Sound<K, V>(st: State<K, V>, ttl: int, cap: nat) {
    |st.slots| <= cap && Distinct(st.slots) && Ordered(st) && Agrees(st) && Deadlines(st, ttl)
  }

  ghost predicate Lru<K(!new), V>(st: State<K, V>, ttl: int, cap: nat) {
    Sound(st, ttl, cap) && Retains(st, cap)
  }

  /** `t` keeps some slots of `s`, in their order. */
  ghost predicate Thinned<T>(s: seq<T>, t: seq<T>) {
    exists at: seq<nat> :: Picks(s, t, at)
  }

  ghost predicate Picks<T>(s: seq<T>, t: seq<T>, at: seq<nat>) {
    && |at| == |t|
    && (forall i | 0 <= i < |t| :: at[i] < |s| && t[i] == s[at[i]])
    && forall i, j | 0 <= i < j < |t| :: at[i] < at[j]
  }

  lemma {:induction false} WithoutThins<K, V>(s: Recency<K, V>, k: K)
    ensures Thinned(s, Without(s, k))
  {
    hide IndexOf;
    var i, t := IndexOf(s, k), Without(s, k);
    assert Picks(s, t, seq(|t|, j => if j < i then j else j + 1));
  }

  lemma {:induction false} PrefixThins<T>(s: seq<T>, n: nat)
    requires n <= |s|
    ensures Thinned(s, s[..n])
  {
    assert Picks(s, s[..n], seq(n, j => j));
  }

  /** Dropping slots keeps what holds of each slot and of each ordered pair. */
  lemma {:induction false} ThinnedKeeps<K, V>(st: State<K, V>, t: Recency<K, V>)
    requires Distinct(st.slots) && Ordered(st) && Thinned(st.slots, t)
    ensures Distinct(t) && Ordered(st.(slots := t)) && (forall s | s in t :: s in st.slots)
  {
    var at :| Picks(st.slots, t, at);
    forall i | 0 <= i < |t| ensures t[i] in st.slots { assert t[i] == st.slots[at[i]]; }
  }

  /** Putting a key in front, and stamping it with the current step, keeps the order. */
  lemma {:induction false} FrontKeeps<K, V>(st: State<K, V>, s: Slot<K, V>)
    requires Distinct(st.slots) && Ordered(st) && forall x | x in st.slots :: x.key != s.key
    ensures Distinct([s] + st.slots)
    ensures Ordered(st.(slots := [s] + st.slots, last := Used(st, s.key), step := st.step + 1))
  {
    var t := [s] + st.slots;
    assert forall i | 0 < i < |t| :: t[i] == st.slots[i - 1] && t[i] in st.slots;
  }

  lemma {:induction false} OutrunLasts<K(!new), V>(st: State<K, V>, next: State<K, V>, k: K, cap: nat)
    requires Outrun(st, k, cap) && cap > 0
    requires k in next.last && k in st.last && next.last[k] == st.last[k]
    requires forall x | x in st.last :: x in next.last && next.last[x] >= st.last[x]
    ensures Outrun(next, k, cap)
  {
    var fresher :| Fresher(st, k, fresher) && |fresher| == cap;
    assert Fresher(next, k, fresher);
  }

  /** Held keys stay held when the slots of all of them but `k` stay and `k` is held anyway or not kept. */
  lemma {:induction false} StillHeld<K, V>(s: Recency<K, V>, t: Recency<K, V>, k: K)
    requires Holds(s, k) && s[IndexOf(s, k)] in t
    ensures Holds(t, k)
  {
    HoldsMember(t, s[IndexOf(s, k)]);
  }

  lemma {:induction false} KeysCount<K, V>(s: Recency<K, V>) returns (keys: set<K>)
    requires Distinct(s)
    ensures |keys| == |s| && forall k :: k in keys <==> Holds(s, k)
  {
    if s == [] {
      keys := {};
    } else {
      var rest := KeysCount(s[1..]);
      keys := rest + {s[0].key};
    }
  }

  lemma {:induction false} GetSound<K, V>(st: State<K, V>, k: K, ttl: int, cap: nat)
    requires cap > 0 && Sound(st, ttl, cap)
    ensures Sound(Apply(st, Get(k), ttl, cap), ttl, cap)
  {
    hide IndexOf, Thinned;
    var rest := Without(st.slots, k);
    if Holds(st.slots, k) {
      var slot := st.slots[IndexOf(st.slots, k)];
      assert slot in st.slots;
      WithoutThins(st.slots, k);
      ThinnedKeeps(st, rest);
      WithoutKeeps(st.slots, k);
      if !Expired(slot, st.now) {
        FrontKeeps(st.(slots := rest), slot);
      }
    }
  }

  lemma {:induction false} GetKeeps<K(!new), V>(st: State<K, V>, k: K, ttl: int, cap: nat)
    requires cap > 0 && Lru(st, ttl, cap)
    ensures Lru(Apply(st, Get(k), ttl, cap), ttl, cap)
  {
    hide IndexOf, Outrun, Without, Deadlines;
    var next := Apply(st, Get(k), ttl, cap);
    GetSound(st, k, ttl, cap);
    WithoutKeeps(st.slots, k);
    if Holds(st.slots, k) {
      var slot := st.slots[IndexOf(st.slots, k)];
      assert slot in st.slots;
      if !Expired(slot, st.now) { HoldsMember(next.slots, slot); }
    } else if k in st.bare && Outrun(st, k, cap) {
      OutrunLasts(st, next, k, cap);
    }
    RetainsOn(st, next, k, cap);
  }

  /** What is left to show of `Retains` is the key the step names. */
  lemma {:induction false} RetainsOn<K(!new), V>(st: State<K, V>, next: State<K, V>, k: K, cap: nat)
    requires cap > 0 && Retains(st, cap) && Agrees(st) && next.now >= st.now
    requires forall x | x in st.slots && x.key != k :: x in next.slots || Outrun(next, x.key, cap)
    requires next.last == st.last || next.last == Used(st, k)
    requires forall x | x in st.last :: st.last[x] < st.step
    requires forall x | x in next.bare && x != k :: x in st.bare && next.bare[x] == st.bare[x]
    requires k in next.bare ==> Holds(next.slots, k) || Expired(next.bare[k], next.now) || Outrun(next, k, cap)
    ensures Retains(next, cap)
  {
    hide IndexOf, Outrun;
    forall x | x in next.bare && x != k
      ensures Holds(next.slots, x) || Expired(next.bare[x], next.now) || Outrun(next, x, cap)
    {
      if Holds(st.slots, x) {
        assert st.slots[IndexOf(st.slots, x)] in st.slots;
        if !Outrun(next, x, cap) { StillHeld(st.slots, next.slots, x); }
      } else if Outrun(st, x, cap) {
        OutrunLasts(st, next, x, cap);
      }
    }
  }

  /** What a store keeps behind the new slot. */
  function Rest<K(==), V>(s: Recency<K, V>, k: K, cap: nat): Recency<K, V> {
    if Holds(s, k) then Without(s, k) else if |s| >= cap && s != [] then s[..|s| - 1] else s
  }

  lemma {:induction false} RestKeeps<K, V>(st: State<K, V>, k: K, cap: nat)
    requires cap > 0 && |st.slots| <= cap && Distinct(st.slots) && Ordered(st)
    ensures var rest := Rest(st.slots, k, cap);
            |rest| < cap && Distinct(rest) && Ordered(st.(slots := rest)) &&
            forall x | x in rest :: x.key != k && x in st.slots
  {
    hide IndexOf, Thinned;
    var rest := Rest(st.slots, k, cap);
    WithoutKeeps(st.slots, k);
    WithoutThins(st.slots, k);
    PrefixThins(st.slots, |rest|);
    assert !Holds(st.slots, k) ==> rest == st.slots[..|rest|];
    ThinnedKeeps(st, rest);
    forall x | x in rest ensures x.key != k {
      HoldsMember(st.slots, x);
    }
  }

  lemma {:induction false} SetSound<K, V>(st: State<K, V>, k: K, v: V, ttl: int, cap: nat)
    requires cap > 0 && Sound(st, ttl, cap)
    ensures Sound(Apply(st, Set(k, v), ttl, cap), ttl, cap)
    ensures Apply(st, Set(k, v), ttl, cap).slots ==
            [Slot(k, v, Deadline(ttl, st.now, None))] + Rest(st.slots, k, cap)
  {
    hide IndexOf, Rest;
    var slot := Slot(k, v, Deadline(ttl, st.now, None));
    SetSlots(st, k, v, ttl, cap);
    RestKeeps(st, k, cap);
    FrontKeeps(st.(slots := Rest(st.slots, k, cap)), slot);
  }

  lemma {:induction false} SetSlots<K, V>(st: State<K, V>, k: K, v: V, ttl: int, cap: nat)
    requires Agrees(st) && Deadlines(st, ttl)
    ensures Store(st.slots, k, v, ttl, st.now, cap).0 ==
            [Slot(k, v, Deadline(ttl, st.now, None))] + Rest(st.slots, k, cap)
  {
    if Holds(st.slots, k) {
      assert st.slots[IndexOf(st.slots, k)] in st.slots;
    }
  }

  /** A store says that it evicted exactly when a key held before is not held any
      more; that is never the key stored, and at most one. */
  lemma {:induction false} EvictedIff<K, V>(s: Recency<K, V>, k: K, v: V, ttl: int, now: int, cap: nat)
    requires Distinct(s) && |s| <= cap
    ensures var (t, evicted) := Store(s, k, v, ttl, now, cap);
            && Holds(t, k) && |t| == |s| + (if Holds(s, k) then 0 else 1) - (if evicted then 1 else 0)
            && (evicted <==> exists x :: x in s && !Holds(t, x.key))
  {
    hide IndexOf, Without;
    var (t, evicted) := Store(s, k, v, ttl, now, cap);
    WithoutKeeps(s, k);
    HoldsMember(t, t[0]);
    forall x | x in s ensures Holds(t, x.key) || (evicted && x == s[|s| - 1]) {
      HoldsMember(s, x);
      var i :| 0 <= i < |s| && s[i] == x;
      if Holds(s, k) {
        assert x.key == k || x in Without(s, k);
        assert exists y :: y in t && y.key == x.key;
        var y :| y in t && y.key == x.key;
        HoldsMember(t, y);
      } else if !evicted || i < |s| - 1 {
        assert t[i + 1] == x;
        HoldsMember(t, x);
      }
    }
    if evicted {
      var x := s[|s| - 1];
      HoldsMember(s, x);
      assert forall i | 0 < i < |t| :: t[i] == s[i - 1] && t[i].key != x.key;
      assert !Holds(t, x.key);
    }
  }

  lemma {:induction false} SetKeeps<K(!new), V>(st: State<K, V>, k: K, v: V, ttl: int, cap: nat)
    requires cap > 0 && Lru(st, ttl, cap)
    ensures Lru(Apply(st, Set(k, v), ttl, cap), ttl, cap)
  {
    hide IndexOf, Outrun, Without, Deadlines, Store;
    var next, slots := Apply(st, Set(k, v), ttl, cap), st.slots;
    SetSound(st, k, v, ttl, cap);
    WithoutKeeps(slots, k);
    HoldsMember(next.slots, next.slots[0]);
    if !Holds(slots, k) && |slots| >= cap {
      VictimOutrun(st, next, cap);
      assert forall x | x in slots :: x in slots[..cap - 1] || x == slots[cap - 1];
    }
    RetainsOn(st, next, k, cap);
  }

  /** The slot a full shard gives up is the least recently used, and the others,
      with the new one, were all used since. */
  lemma {:induction false} VictimOutrun<K(!new), V>(st: State<K, V>, next: State<K, V>, cap: nat)
    requires |st.slots| == cap > 0 && Ordered(st) && Ordered(next) && Distinct(next.slots) && Distinct(st.slots)
    requires |next.slots| == cap && next.slots[1..] == st.slots[..cap - 1] && !Holds(st.slots, next.slots[0].key)
    requires next.last == st.last[next.slots[0].key := st.step]
    ensures Outrun(next, st.slots[cap - 1].key, cap)
  {
    hide IndexOf;
    var victim := st.slots[cap - 1];
    HoldsMember(st.slots, victim);
    var fresher := KeysCount(next.slots);
    forall x | x in fresher ensures x in next.last && next.last[x] > next.last[victim.key] {
      var i := IndexOf(next.slots, x);
      assert i > 0 ==> next.slots[i] == next.slots[1..][i - 1] == st.slots[i - 1];
    }
    assert Fresher(next, victim.key, fresher);
  }

  /** Over whole runs of a shard. */
  lemma {:induction false} RunIsLru<K(!new), V>(st: State<K, V>, ops: seq<Op<K, V>>, ttl: int, cap: nat)
    requires cap > 0 && Lru(st, ttl, cap)
    ensures Lru(Run(st, ops, ttl, cap), ttl, cap)
    decreases |ops|
  {
    hide Lru, Apply;
    if ops != [] {
      StepIsLru(st, ops[0], ttl, cap);
      RunIsLru(Apply(st, ops[0], ttl, cap), ops[1..], ttl, cap);
    }
  }

  lemma {:induction false} StepIsLru<K(!new), V>(st: State<K, V>, op: Op<K, V>, ttl: int, cap: nat)
    requires cap > 0 && Lru(st, ttl, cap)
    ensures Lru(Apply(st, op, ttl, cap), ttl, cap)
  {
    hide IndexOf, Outrun, Thinned;
    var next := Apply(st, op, ttl, cap);
    match op
    case Get(k) => GetKeeps(st, k, ttl, cap);
    case Set(k, v) => SetKeeps(st, k, v, ttl, cap);
    case Delete(k) =>
      WithoutThins(st.slots, k);
      ThinnedKeeps(st, next.slots);
      WithoutKeeps(st.slots, k);
      RetainsOn(st, next, k, cap);
    case Purge =>
    case Tick(d) =>
      forall k | k in st.bare && Outrun(st, k, cap) ensures Outrun(next, k, cap) { OutrunLasts(st, next, k, cap); }
  }

  /** A fresh shard satisfies it; and it says what a hit may return. */
  lemma {:induction false} StartIsLru<K(!new), V>(now: int, ttl: int, cap: nat)
    ensures Lru<K, V>(Start(now), ttl, cap)
  {
  }

  /** In every run of a shard that starts empty: a hit returns the value of the
      latest store of that key, not deleted or purged since, and not past its
      deadline; and such a key is missed only after `cap` other keys were used
      since its own last use. */
  lemma {:induction false} HitIsLatest<K(!new), V>(now: int, ops: seq<Op<K, V>>, k: K, ttl: int, cap: nat)
    requires cap > 0
    ensures var st := Run(Start<K, V>(now), ops, ttl, cap);
            var live := k in st.bare && !Expired(st.bare[k], st.now);
            && Lookup(st.slots, k, st.now).1 == (if live && Holds(st.slots, k) then Some(st.bare[k].value) else None)
            && (live && !Holds(st.slots, k) ==> Outrun(st, k, cap))
  {
    hide Run;
    StartIsLru<K, V>(now, ttl, cap);
    RunIsLru(Start<K, V>(now), ops, ttl, cap);
    var st := Run(Start<K, V>(now), ops, ttl, cap);
    if Holds(st.slots, k) {
      assert st.slots[IndexOf(st.slots, k)] in st.slots;
    }
  }

  /** Most recently used first, one slot per key, and never more slots than the capacity. */
  lemma {:induction false} OrderIsLastUse<K(!new), V>(now: int, ops: seq<Op<K, V>>, ttl: int, cap: nat)
    requires cap > 0
    ensures var st := Run(Start<K, V>(now), ops, ttl, cap);
            && |st.slots| <= cap && Distinct(st.slots)
            && forall i, j | 0 <= i < j < |st.slots| ::
                 && st.slots[i].key in st.last && st.slots[j].key in st.last
                 && st.last[st.slots[i].key] > st.last[st.slots[j].key]
  {
    hide Run;
    StartIsLru<K, V>(now, ttl, cap);
    RunIsLru(Start<K, V>(now), ops, ttl, cap);
    var st := Run(Start<K, V>(now), ops, ttl, cap);
    assert forall i | 0 <= i < |st.slots| :: st.slots[i] in st.slots;
  }
}
