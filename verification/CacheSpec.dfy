/** One shard of the cache as a sequence of slots, most recently used first. */
module CacheSpec {
  import opened Text

  /** A cached entry; no expiry means it lives until it is evicted. */
  datatype Slot<K, V> = Slot(key: K, value: V, expiresAt: Option<int>)

  type Recency<K, V> = seq<Slot<K, V>>

  predicate Expired<K, V>(s: Slot<K, V>, now: int) { s.expiresAt.Some? && now > s.expiresAt.value }

  predicate Distinct<K(==), V>(s: Recency<K, V>) {
    forall i, j | 0 <= i < j < |s| :: s[i].key != s[j].key
  }

  /** Position of a key, or the length when it is absent. */
  function IndexOf<K(==), V>(s: Recency<K, V>, k: K): (i: nat)
    ensures i <= |s|
    ensures i < |s| ==> s[i].key == k
    ensures forall j | 0 <= j < i :: s[j].key != k
  {
    if s == [] || s[0].key == k then 0 else 1 + IndexOf(s[1..], k)
  }

  predicate Holds<K(==), V>(s: Recency<K, V>, k: K) { IndexOf(s, k) < |s| }

  function RemoveAt<T>(s: seq<T>, i: nat): (r: seq<T>)
    requires i < |s|
    ensures |r| == |s| - 1
    ensures forall x | x in r :: x in s
  {
    s[..i] + s[i + 1..]
  }

  function Without<K(==), V>(s: Recency<K, V>, k: K): Recency<K, V> {
    if Holds(s, k) then RemoveAt(s, IndexOf(s, k)) else s
  }

  /** A lookup: a live slot moves to the front, an expired one is dropped. */
  function Lookup<K(==), V>(s: Recency<K, V>, k: K, now: int): (Recency<K, V>, Option<V>) {
    if !Holds(s, k) then (s, None)
    else
      var slot := s[IndexOf(s, k)];
      if Expired(slot, now) then (Without(s, k), None)
      else ([slot] + Without(s, k), Some(slot.value))
  }

  function Deadline(ttl: int, now: int, old_: Option<int>): Option<int> {
    if ttl > 0 then Some(now + ttl) else old_
  }

  /** An insertion; a full shard gives up its least recently used slot. */
  function Store<K(==), V>(s: Recency<K, V>, k: K, v: V, ttl: int, now: int, cap: nat): (Recency<K, V>, bool) {
    if Holds(s, k) then
      ([Slot(k, v, Deadline(ttl, now, s[IndexOf(s, k)].expiresAt))] + Without(s, k), false)
    else if |s| >= cap && s != [] then
      ([Slot(k, v, Deadline(ttl, now, None))] + s[..|s| - 1], true)
    else ([Slot(k, v, Deadline(ttl, now, None))] + s, false)
  }

  lemma {:induction false} WithoutKeeps<K, V>(s: Recency<K, V>, k: K)
    requires Distinct(s)
    ensures Distinct(Without(s, k)) && !Holds(Without(s, k), k)
    ensures |Without(s, k)| == if Holds(s, k) then |s| - 1 else |s|
    ensures forall x :: x in Without(s, k) <==> x in s && x.key != k
  {
    hide IndexOf;
    var i, t := IndexOf(s, k), Without(s, k);
    if i < |s| {
      forall j | 0 <= j < |t| ensures t[j] == s[if j < i then j else j + 1] {}
      forall x | x in s && x.key != k ensures x in t {
        var j :| 0 <= j < |s| && s[j] == x;
        assert x == t[if j < i then j else j - 1];
      }
    }
  }

  lemma {:induction false} HoldsMember<K, V>(s: Recency<K, V>, x: Slot<K, V>)
    requires x in s
    ensures Holds(s, x.key)
  {
  }

  /** Whether a key is held depends on the slots of that key alone. */
  lemma {:induction false} SameHolds<K, V>(s: Recency<K, V>, t: Recency<K, V>, k: K)
    requires forall x: Slot<K, V> | x.key == k :: x in s <==> x in t
    ensures Holds(s, k) <==> Holds(t, k)
  {
    if Holds(s, k) { HoldsMember(t, s[IndexOf(s, k)]); }
    if Holds(t, k) { HoldsMember(s, t[IndexOf(t, k)]); }
  }
}
