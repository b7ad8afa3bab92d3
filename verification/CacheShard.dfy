/** internal/cache/cache.go: a shard as the source keeps it, a map to entries
    that a doubly linked list threads from the most to the least recently used. */
module CacheShard {
  import opened Text
  import opened CacheSpec

  class Entry<K, V> {
    const key: K
    var value: V
    var expiresAt: Option<int>
    var prev: Entry?<K, V>
    var next: Entry?<K, V>

    constructor (key: K, value: V)
      ensures this.key == key && this.value == value && expiresAt == None && prev == null && next == null
    {
      this.key := key;
      this.value := value;
      expiresAt := None;
      prev, next := null, null;
    }

    function AsSlot(): Slot<K, V>
      reads this`value, this`expiresAt
    {
      Slot(key, value, expiresAt)
    }
  }

  class Shard<K(==), V> {
    const cap: nat
    var entries: map<K, Entry<K, V>>
    var head: Entry?<K, V>
    var tail: Entry?<K, V>
    /** The list, head to tail. */
    ghost var order: seq<Entry<K, V>>
    /** The shard and every entry it ever made since the last purge. */
    ghost var Repr: set<object>

    /** `prev` and `next` thread `order`, and no entry occurs in it twice. */
    ghost predicate Chained()
      reads this, order
    {
      Apart(order) && head == At(order, 0) && tail == At(order, |order| - 1) && Threaded(order)
    }

    static ghost predicate Threaded(s: seq<Entry<K, V>>)
      reads s`prev, s`next
    {
      && (forall i {:trigger s[i].prev} | 0 <= i < |s| :: s[i].prev == At(s, i - 1))
      && (forall i {:trigger s[i].next} | 0 <= i < |s| :: s[i].next == At(s, i + 1))
    }

    static ghost predicate Apart(s: seq<Entry<K, V>>) { forall i, j | 0 <= i < j < |s| :: s[i] != s[j] }

    static ghost function At(s: seq<Entry<K, V>>, i: int): Entry?<K, V> {
      if 0 <= i < |s| then s[i] else null
    }

    /** The map holds exactly the listed entries, each under its key. */
    static ghost predicate Indexed(m: map<K, Entry<K, V>>, s: seq<Entry<K, V>>) {
      && |m| == |s|
      && (forall i | 0 <= i < |s| :: s[i].key in m && m[s[i].key] == s[i])
      && (forall k | k in m :: m[k].key == k && m[k] in s)
    }

    ghost predicate Valid()
      reads this, Repr
      ensures Valid() ==> this in Repr
    {
      && this in Repr && (forall e | e in order :: e in Repr)
      && Chained() && Indexed(entries, order) && 0 < cap && |order| <= cap
    }

    static lemma IndexedWithout(m: map<K, Entry<K, V>>, s: seq<Entry<K, V>>, at: nat)
      requires at < |s| && Indexed(m, s) && Apart(s)
      ensures s[at].key in m && m[s[at].key] == s[at]
      ensures Indexed(m - {s[at].key}, RemoveAt(s, at))
    {
      var t, n := RemoveAt(s, at), m - {s[at].key};
      assert n.Keys == m.Keys - {s[at].key};
      assert forall i | 0 <= i < |t| :: t[i] == s[if i < at then i else i + 1];
      forall k | k in n ensures n[k] in t {
        var i :| 0 <= i < |s| && s[i] == m[k];
        assert m[k] == t[if i < at then i else i - 1];
      }
    }

    static lemma IndexedWith(m: map<K, Entry<K, V>>, s: seq<Entry<K, V>>, e: Entry<K, V>)
      requires Indexed(m, s) && e.key !in m
      ensures Indexed(m[e.key := e], [e] + s) && e !in s
    {
      var t := [e] + s;
      var n := m[e.key := e];
      assert n.Keys == m.Keys + {e.key} && t[0] == e && t[1..] == s;
      assert forall x | x in s :: x in t;
      assert forall i | 1 <= i < |t| :: t[i] == s[i - 1] && t[i].key in m;
    }

    /** The abstract shard. */
    ghost function Slots(): Recency<K, V>
      requires Valid()
      reads this, Repr
    {
      SlotsOf(order)
    }

    static ghost function SlotsOf(s: seq<Entry<K, V>>): (r: Recency<K, V>)
      reads s`value, s`expiresAt
      ensures |r| == |s| && forall i | 0 <= i < |s| :: r[i] == s[i].AsSlot()
    {
      if s == [] then [] else [s[0].AsSlot()] + SlotsOf(s[1..])
    }

    static lemma SlotsWith(e: Entry<K, V>, s: seq<Entry<K, V>>)
      ensures SlotsOf([e] + s) == [e.AsSlot()] + SlotsOf(s)
    {
      assert ([e] + s)[1..] == s;
    }

    static lemma SlotsWithout(s: seq<Entry<K, V>>, at: nat)
      requires at < |s|
      ensures SlotsOf(RemoveAt(s, at)) == RemoveAt(SlotsOf(s), at)
    {
    }

    constructor (capacity: nat)
      requires capacity > 0
      ensures Valid() && fresh(Repr) && Slots() == [] && cap == capacity
    {
      cap := capacity;
      entries := map[];
      head, tail := null, null;
      order := [];
      Repr := {this};
    }

    method PushFront(e: Entry<K, V>)
      requires Chained() && e !in order
      modifies this`head, this`tail, this`order, e`prev, e`next, order`prev
      ensures Chained() && order == [e] + old(order)
    {
      ghost var was := order;
      e.prev := null;
      e.next := head;
      if head != null {
        head.prev := e;
      }
      head := e;
      if tail == null {
        tail := e;
      }
      order := [e] + order;
      assert forall i | 0 < i < |order| :: order[i] == was[i - 1];
    }

    /** Bridging one entry over leaves the rest threading the shorter list. */
    lemma GapClosed(was: seq<Entry<K, V>>, at: nat)
      requires at < |was| && order == RemoveAt(was, at)
      requires forall i {:trigger was[i].prev} | 0 <= i < |was| && i != at ::
                 was[i].prev == (if i == at + 1 then At(was, at - 1) else At(was, i - 1))
      requires forall i {:trigger was[i].next} | 0 <= i < |was| && i != at ::
                 was[i].next == (if i == at - 1 then At(was, at + 1) else At(was, i + 1))
      ensures Threaded(order)
    {
      assert forall i {:trigger order[i].prev} {:trigger order[i].next} | 0 <= i < |order| ::
          order[i].prev == was[if i < at then i else i + 1].prev &&
          order[i].next == was[if i < at then i else i + 1].next;
    }

    method RemoveNode(e: Entry<K, V>, ghost at: nat)
      requires Chained() && at < |order| && order[at] == e
      modifies this`head, this`tail, this`order, order`prev, order`next
      ensures Chained() && order == RemoveAt(old(order), at)
      ensures e.prev == null && e.next == null
    {
      ghost var was := order;
      if e.prev != null {
        e.prev.next := e.next;
      } else {
        head := e.next;
      }
      if e.next != null {
        e.next.prev := e.prev;
      } else {
        tail := e.prev;
      }
      e.prev, e.next := null, null;
      order := RemoveAt(order, at);
      GapClosed(was, at);
    }

    method Promote(e: Entry<K, V>, ghost at: nat)
      requires Chained() && at < |order| && order[at] == e
      modifies this`head, this`tail, this`order, order`prev, order`next
      ensures Chained() && order == [e] + RemoveAt(old(order), at)
    {
      if e == head {
        assert at == 0;
        assert order == [e] + RemoveAt(order, 0);
        return;
      }
      RemoveNode(e, at);
      PushFront(e);
    }

    /** Where the map finds a key is where the abstract shard holds it. */
    lemma Found(k: K)
      requires Valid()
      ensures k in entries <==> Holds(Slots(), k)
      ensures k in entries ==> order[IndexOf(Slots(), k)] == entries[k]
      ensures Distinct(Slots()) && |entries| == |order|
    {
      if k in entries {
        var i :| 0 <= i < |order| && order[i] == entries[k];
        assert Slots()[i].key == k;
      }
    }

    /** Unlinks an entry and forgets its key. */
    method Drop(e: Entry<K, V>, ghost at: nat)
      requires Valid() && at < |order| && order[at] == e
      modifies this`head, this`tail, this`order, this`entries, order`prev, order`next
      ensures Valid() && order == RemoveAt(old(order), at) && entries == old(entries) - {e.key}
      ensures Slots() == RemoveAt(old(Slots()), at)
    {
      hide Indexed, Threaded, Apart, RemoveAt, SlotsOf;
      IndexedWithout(entries, order, at);
      SlotsWithout(order, at);
      RemoveNode(e, at);
      entries := entries - {e.key};
    }

    /** Moves an entry to the front; the map does not change. */
    method Touch(e: Entry<K, V>, ghost at: nat)
      requires Valid() && at < |order| && order[at] == e
      modifies this`head, this`tail, this`order, order`prev, order`next
      ensures Valid() && Slots() == [old(e.AsSlot())] + RemoveAt(old(Slots()), at)
    {
      hide Indexed, Threaded, Apart, RemoveAt, SlotsOf;
      SlotsWithout(order, at);
      SlotsWith(e, RemoveAt(order, at));
      IndexedWithout(entries, order, at);
      IndexedWith(entries - {e.key}, RemoveAt(order, at), e);
      assert (entries - {e.key})[e.key := e] == entries;
      Promote(e, at);
    }

    method Get(k: K, now: int) returns (r: Option<V>)
      requires Valid()
      modifies Repr
      ensures Valid() && Repr == old(Repr)
      ensures (Slots(), r) == Lookup(old(Slots()), k, now)
    {
      hide Indexed, Chained;
      Found(k);
      if k !in entries {
        return None;
      }
      var e := entries[k];
      ghost var at := IndexOf(Slots(), k);
      if e.expiresAt.Some? && now > e.expiresAt.value {
        Drop(e, at);
        return None;
      }
      Touch(e, at);
      r := Some(e.value);
    }

    /** Gives an entry a new value and brings it to the front. */
    method Overwrite(e: Entry<K, V>, v: V, ttl: int, now: int, ghost at: nat)
      requires Valid() && at < |order| && order[at] == e
      modifies this`head, this`tail, this`order, order
      ensures Valid() && Repr == old(Repr)
      ensures Slots() == [Slot(e.key, v, Deadline(ttl, now, old(e.expiresAt)))] + RemoveAt(old(Slots()), at)
    {
      hide Indexed, Threaded, SlotsOf;
      ghost var was := Slots();
      e.value := v;
      if ttl > 0 {
        e.expiresAt := Some(now + ttl);
      }
      assert RemoveAt(Slots(), at) == RemoveAt(was, at);
      Touch(e, at);
    }

    /** Adds a new entry in front. */
    method Insert(k: K, v: V, ttl: int, now: int)
      requires Valid() && k !in entries && |order| < cap
      modifies this`head, this`tail, this`order, this`entries, this`Repr, order`prev
      ensures Valid() && fresh(Repr - old(Repr))
      ensures Slots() == [Slot(k, v, Deadline(ttl, now, None))] + old(Slots())
    {
      hide Indexed, Threaded, Apart, SlotsOf;
      var e := new Entry(k, v);
      if ttl > 0 {
        e.expiresAt := Some(now + ttl);
      }
      IndexedWith(entries, order, e);
      SlotsWith(e, order);
      entries := entries[k := e];
      Repr := Repr + {e};
      PushFront(e);
    }

    method SetLocked(k: K, v: V, ttl: int, now: int) returns (evicted: bool)
      requires Valid()
      modifies Repr
      ensures Valid() && fresh(Repr - old(Repr))
      ensures (Slots(), evicted) == Store(old(Slots()), k, v, ttl, now, cap)
    {
      hide Indexed, Threaded, Apart, SlotsOf;
      Found(k);
      evicted := false;
      if k in entries {
        Overwrite(entries[k], v, ttl, now, IndexOf(Slots(), k));
        return;
      }
      if |entries| >= cap {
        var victim := tail;
        if victim != null {
          ghost var last := |order| - 1;
          assert RemoveAt(Slots(), last) == Slots()[..last];
          Drop(victim, last);
          evicted := true;
        }
      }
      Insert(k, v, ttl, now);
    }

    method Delete(k: K)
      requires Valid()
      modifies Repr
      ensures Valid() && Repr == old(Repr)
      ensures Slots() == Without(old(Slots()), k)
    {
      Found(k);
      if k in entries {
        Drop(entries[k], IndexOf(Slots(), k));
      }
    }

    method Purge()
      requires Valid()
      modifies Repr
      ensures Valid() && Repr <= old(Repr) && Slots() == []
    {
      entries := map[];
      head, tail := null, null;
      order := [];
      Repr := {this};
    }
  }
}
