/** A larger shard never hits less: on one trace of successful `GetOrLoad`
    calls, with no deadline, the smaller list is a prefix of the larger. */
module CacheInclusion {
  import opened Text
  import opened CacheSpec

  /** One successful `GetOrLoad`: a hit, or a miss and the loaded value stored. */
  function GetOrLoad<K(==), V>(s: Recency<K, V>, k: K, loaded: V, now: int, cap: nat): (Recency<K, V>, bool) {
    var (t, r) := Lookup(s, k, now);
    if r.Some? then (t, true) else (Store(t, k, loaded, 0, now, cap).0, false)
  }

  datatype Call<K, V> = Call(k: K, loaded: V, now: int)

  /** The list after a trace of calls on an empty shard. */
  function Trace<K(==), V>(calls: seq<Call<K, V>>, cap: nat): Recency<K, V> {
    if calls == [] then []
    else
      var c := calls[|calls| - 1];
      GetOrLoad(Trace(calls[..|calls| - 1], cap), c.k, c.loaded, c.now, cap).0
  }

  /** Whether call `i` of a trace is a hit. */
  predicate Hit<K(==), V>(calls: seq<Call<K, V>>, i: nat, cap: nat)
    requires i < |calls|
  {
    GetOrLoad(Trace(calls[..i], cap), calls[i].k, calls[i].loaded, calls[i].now, cap).1
  }

  function Keys<K(==), V>(s: Recency<K, V>): (r: seq<K>)
    ensures |r| == |s| && forall i | 0 <= i < |s| :: r[i] == s[i].key
  {
    if s == [] then [] else [s[0].key] + Keys(s[1..])
  }

  function Find<K(==)>(keys: seq<K>, k: K): (i: nat)
    ensures i <= |keys| && (i < |keys| ==> keys[i] == k) && forall j | 0 <= j < i :: keys[j] != k
  {
    if keys == [] || keys[0] == k then 0 else 1 + Find(keys[1..], k)
  }

  /** What a call does to the keys alone. */
  function Used<K(==)>(keys: seq<K>, k: K, cap: nat): seq<K> {
    var i := Find(keys, k);
    [k] + if i < |keys| then RemoveAt(keys, i) else if |keys| >= cap && keys != [] then keys[..|keys| - 1] else keys
  }

  ghost predicate Lasting<K, V>(s: Recency<K, V>) { forall x | x in s :: x.expiresAt == None }

  lemma {:induction false} CallUsesKey<K, V>(s: Recency<K, V>, k: K, loaded: V, now: int, cap: nat)
    requires Lasting(s)
    ensures var (t, hit) := GetOrLoad(s, k, loaded, now, cap);
            Lasting(t) && Keys(t) == Used(Keys(s), k, cap) && (hit <==> k in Keys(s))
  {
    hide IndexOf, Find, Keys;
    var i, t := IndexOf(s, k), GetOrLoad(s, k, loaded, now, cap).0;
    assert i == Find(Keys(s), k);
    if i < |s| {
      assert s[i] in s && s[i].key == Keys(s)[i];
    }
    assert Keys(t) == Used(Keys(s), k, cap);
  }

  predicate NoRepeat<K(==)>(keys: seq<K>) { forall i, j | 0 <= i < j < |keys| :: keys[i] != keys[j] }

  function Cut<K>(keys: seq<K>, n: nat): seq<K> { if |keys| <= n then keys else keys[..n] }

  lemma {:induction false} UsedKeeps<K>(keys: seq<K>, k: K, cap: nat)
    requires NoRepeat(keys) && |keys| <= cap && cap > 0
    ensures NoRepeat(Used(keys, k, cap)) && |Used(keys, k, cap)| <= cap
  {
    hide Find;
  }

  /** Using a key commutes with looking at the first `c` keys only. */
  lemma {:induction false} UsedCommutesWithCut<K>(keys: seq<K>, k: K, c: nat)
    requires c > 0 && NoRepeat(keys) && |keys| <= c + 1
    ensures Used(Cut(keys, c), k, c) == Cut(Used(keys, k, c + 1), c)
  {
    hide Find;
    var i := Find(keys, k);
    assert i < c ==> Find(Cut(keys, c), k) == Find(keys, k) || i == |keys|;
  }

  /** The smaller list is the larger one cut at its capacity. */
  lemma {:induction false} TraceIncluded<K, V>(calls: seq<Call<K, V>>, c: nat)
    requires c > 0
    ensures Lasting(Trace(calls, c)) && Lasting(Trace(calls, c + 1))
    ensures NoRepeat(Keys(Trace(calls, c + 1))) && |Keys(Trace(calls, c + 1))| <= c + 1
    ensures Keys(Trace(calls, c)) == Cut(Keys(Trace(calls, c + 1)), c)
  {
    hide GetOrLoad, Used, Find;
    if calls != [] {
      var init, last := calls[..|calls| - 1], calls[|calls| - 1];
      TraceIncluded(init, c);
      var large := Keys(Trace(init, c + 1));
      CallUsesKey(Trace(init, c), last.k, last.loaded, last.now, c);
      CallUsesKey(Trace(init, c + 1), last.k, last.loaded, last.now, c + 1);
      UsedKeeps(large, last.k, c + 1);
      UsedCommutesWithCut(large, last.k, c);
    }
  }

  lemma {:induction false} OneMoreSlot<K, V>(calls: seq<Call<K, V>>, i: nat, c: nat)
    requires 0 < c && i < |calls|
    ensures Keys(Trace(calls, c)) <= Keys(Trace(calls, c + 1))
    ensures Hit(calls, i, c) ==> Hit(calls, i, c + 1)
  {
    hide GetOrLoad, Trace, Keys, NoRepeat, Lasting, Used;
    TraceIncluded(calls, c);
    TraceIncluded(calls[..i], c);
    CallUsesKey(Trace(calls[..i], c), calls[i].k, calls[i].loaded, calls[i].now, c);
    CallUsesKey(Trace(calls[..i], c + 1), calls[i].k, calls[i].loaded, calls[i].now, c + 1);
  }

  /** Every hit of a shard of capacity `c` is a hit of any larger one. */
  lemma {:induction false} LargerHitsToo<K, V>(calls: seq<Call<K, V>>, i: nat, c: nat, d: nat)
    requires 0 < c <= d && i < |calls|
    ensures Keys(Trace(calls, c)) <= Keys(Trace(calls, d))
    ensures Hit(calls, i, c) ==> Hit(calls, i, d)
    decreases d
  {
    hide Hit, Trace, Keys;
    if c < d {
      LargerHitsToo(calls, i, c, d - 1);
      OneMoreSlot(calls, i, d - 1);
    }
  }
}
