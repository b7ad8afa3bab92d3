/** internal/cache/cache.go: the cache as an array of independent shards. */
module Cache {
  import opened Text
  import opened CacheSpec
  import opened CacheShard

  /** Bitwise AND of naturals, as the source's `&`. */
  function And(a: nat, b: nat): nat {
    if a == 0 || b == 0 then 0 else 2 * And(a / 2, b / 2) + (a % 2) * (b % 2)
  }

  ghost predicate PowerOfTwo(n: nat) { n == 1 || (n > 0 && n % 2 == 0 && PowerOfTwo(n / 2)) }

  function IsPow2(n: int): bool { n > 0 && And(n, n - 1) == 0 }

  /** The bit trick recognises exactly the powers of two. */
  lemma {:induction false} IsPow2Exactly(n: nat)
    ensures IsPow2(n) <==> PowerOfTwo(n)
  {
    if n > 1 {
      IsPow2Exactly(n / 2);
      if n % 2 == 0 {
        assert (n - 1) / 2 == n / 2 - 1;
      } else {
        assert And(n, n - 1) == 2 * And(n / 2, n / 2);
        AndSelf(n / 2);
      }
    }
  }

  lemma {:induction false} AndSelf(a: nat)
    ensures And(a, a) == a
  {
    if a > 0 { AndSelf(a / 2); }
  }

  /** Masking with a power of two less one stays in range and reaches every shard. */
  lemma {:induction false} MaskSelects(h: nat, n: nat)
    requires PowerOfTwo(n)
    ensures And(h, n - 1) < n
    ensures h < n ==> And(h, n - 1) == h
  {
    if n > 1 && h > 0 {
      MaskSelects(h / 2, n / 2);
      assert (n - 1) / 2 == n / 2 - 1;
    }
  }

  method NextPow2(n: int) returns (p: nat)
    ensures PowerOfTwo(p) && p >= n && (n > 1 ==> p < 2 * n)
  {
    p := 1;
    while p < n
      invariant PowerOfTwo(p) && (p > 1 ==> p < 2 * n)
    {
      p := 2 * p;
    }
  }

  function Max(a: int, b: int): int { if a < b then b else a }

  method MakeShards<K(==), V>(n: nat, per: nat) returns (made: seq<Shard<K, V>>)
    requires per > 0
    ensures |made| == n
    ensures forall i | 0 <= i < n :: fresh(made[i].Repr)
    ensures forall i, j | 0 <= i < j < n :: made[i].Repr !! made[j].Repr
    ensures forall i | 0 <= i < n ::
              made[i].Valid() && made[i].cap == per && made[i].Slots() == []
  {
    hide Shard.Valid, Shard.Slots;
    made := [];
    while |made| < n
      invariant |made| <= n
      invariant forall i | 0 <= i < |made| :: fresh(made[i].Repr)
      invariant forall i, j | 0 <= i < j < |made| :: made[i].Repr !! made[j].Repr
      invariant forall i | 0 <= i < |made| ::
          made[i].Valid() && made[i].cap == per && made[i].Slots() == []
    {
      var s := new Shard(per);
      made := made + [s];
    }
  }

  class Cache<K(==), V> {
    const shards: seq<Shard<K, V>>
    const mask: nat
    const ttl: int
    const hash: K -> nat
    ghost const perShard: nat

    function ShardFor(k: K): nat { And(hash(k), mask) }

    ghost function Owned(): set<object>
      reads shards
    {
      set i, o | 0 <= i < |shards| && o in shards[i].Repr :: o
    }

    ghost predicate Valid()
      reads shards, Owned()
    {
      && PowerOfTwo(|shards|) && mask == |shards| - 1
      && (forall i, j | 0 <= i < j < |shards| :: shards[i].Repr !! shards[j].Repr)
      && forall i | 0 <= i < |shards| :: ShardValid(i)
    }

    ghost predicate ShardValid(i: nat)
      requires i < |shards|
      reads shards, Owned()
    {
      assert shards[i].Repr <= Owned();
      shards[i].Valid() && shards[i].cap == perShard
    }

    /** What shard `i` holds. */
    ghost function View(i: nat): Recency<K, V>
      requires i < |shards| && ShardValid(i)
      reads shards, Owned()
    {
      assert shards[i].Repr <= Owned();
      shards[i].Slots()
    }

    constructor (capacity: int, ttl: int, count: int, hash: K -> nat)
      ensures Valid() && fresh(Owned())
      ensures this.ttl == ttl && this.hash == hash
      ensures forall i | 0 <= i < |shards| :: View(i) == []
      ensures (if count <= 0 then 16 else count) <= |shards| < 2 * (if count <= 0 then 16 else count)
      ensures perShard == Max(4, (if capacity <= 0 then 1024 else capacity) / |shards|)
    {
      var total := if capacity <= 0 then 1024 else capacity;
      var n := if count <= 0 then 16 else count;
      if !IsPow2(n) {
        n := NextPow2(n);
      }
      IsPow2Exactly(n);
      var per := total / n;
      if per < 4 {
        per := 4;
      }
      var made := MakeShards(n, per);
      shards := made;
      mask := n - 1;
      perShard := per;
      this.ttl := ttl;
      this.hash := hash;
    }

    method Get(k: K, now: int) returns (r: Option<V>)
      requires Valid()
      modifies Owned()
      ensures Valid() && fresh(Owned() - old(Owned()))
      ensures ShardFor(k) < |shards|
      ensures (View(ShardFor(k)), r) == Lookup(old(View(ShardFor(k))), k, now)
      ensures forall j | 0 <= j < |shards| && j != ShardFor(k) :: View(j) == old(View(j))
    {
      hide Shard.Valid, Shard.Slots, Shard.SlotsOf;
      MaskSelects(hash(k), |shards|);
      ghost var i := ShardFor(k);
      assert ShardValid(i) && shards[i].Repr <= Owned();
      r := shards[ShardFor(k)].Get(k, now);
      forall j | 0 <= j < |shards| && j != i
        ensures shards[j].Repr == old(shards[j].Repr) && ShardValid(j) && View(j) == old(View(j))
      {
        assert old(ShardValid(j));
      }
    }

    method Set(k: K, v: V, now: int) returns (evicted: bool)
      requires Valid()
      modifies Owned()
      ensures Valid() && fresh(Owned() - old(Owned()))
      ensures ShardFor(k) < |shards|
      ensures (View(ShardFor(k)), evicted) == Store(old(View(ShardFor(k))), k, v, ttl, now, perShard)
      ensures forall j | 0 <= j < |shards| && j != ShardFor(k) :: View(j) == old(View(j))
    {
      hide Shard.Valid, Shard.Slots, Shard.SlotsOf;
      MaskSelects(hash(k), |shards|);
      ghost var i := ShardFor(k);
      assert ShardValid(i) && shards[i].Repr <= Owned();
      evicted := shards[ShardFor(k)].SetLocked(k, v, ttl, now);
      forall j | 0 <= j < |shards| && j != i
        ensures shards[j].Repr == old(shards[j].Repr) && ShardValid(j) && View(j) == old(View(j))
      {
        assert old(ShardValid(j));
      }
    }

    method Delete(k: K)
      requires Valid()
      modifies Owned()
      ensures Valid() && fresh(Owned() - old(Owned()))
      ensures ShardFor(k) < |shards|
      ensures View(ShardFor(k)) == Without(old(View(ShardFor(k))), k)
      ensures forall j | 0 <= j < |shards| && j != ShardFor(k) :: View(j) == old(View(j))
    {
      hide Shard.Valid, Shard.Slots, Shard.SlotsOf;
      MaskSelects(hash(k), |shards|);
      ghost var i := ShardFor(k);
      assert ShardValid(i) && shards[i].Repr <= Owned();
      shards[ShardFor(k)].Delete(k);
      forall j | 0 <= j < |shards| && j != i
        ensures shards[j].Repr == old(shards[j].Repr) && ShardValid(j) && View(j) == old(View(j))
      {
        assert old(ShardValid(j));
      }
    }

    /** One round of `Purge`. */
    method PurgeShard(i: nat)
      requires i < |shards| && Valid()
      modifies Owned()
      ensures Valid() && Owned() <= old(Owned()) && View(i) == []
      ensures forall j | 0 <= j < |shards| && j != i :: View(j) == old(View(j))
    {
      hide Shard.Valid, Shard.Slots, Shard.SlotsOf;
      assert ShardValid(i) && shards[i].Repr <= Owned();
      shards[i].Purge();
      forall j | 0 <= j < |shards| && j != i
        ensures shards[j].Repr == old(shards[j].Repr) && ShardValid(j) && View(j) == old(View(j))
      {
        assert old(ShardValid(j));
      }
    }

    method Purge()
      requires Valid()
      modifies Owned()
      ensures Valid() && Owned() <= old(Owned())
      ensures forall j | 0 <= j < |shards| :: View(j) == []
    {
      hide Shard.Valid, Shard.Slots, Shard.SlotsOf;
      for i := 0 to |shards|
        invariant Valid() && Owned() <= old(Owned())
        invariant forall j | 0 <= j < i :: ShardValid(j) && View(j) == []
      {
        PurgeShard(i);
      }
    }

    ghost function Total(upto: nat): nat
      requires upto <= |shards|
      reads shards
    {
      if upto == 0 then 0 else Total(upto - 1) + |shards[upto - 1].order|
    }

    /** `Len` counts every slot, and never exceeds one cap per shard. */
    method Len() returns (n: nat)
      requires Valid()
      ensures n == Total(|shards|) <= |shards| * perShard
    {
      n := 0;
      for i := 0 to |shards|
        invariant n == Total(i) <= i * perShard
      {
        assert ShardValid(i);
        n := n + |shards[i].entries|;
      }
    }
  }
}
