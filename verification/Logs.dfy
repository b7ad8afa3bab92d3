/** internal/logs/logs.go: the bounded buffer between the loggers and the flusher. */
module Logs {

  const CAPACITY := 10_000
  const BATCH_SIZE := 100

  /** What has become of an accepted record. */
  datatype Fate = Buffered | Flying | Stored | Lost | Dropped

  /** The accepted records with one fate, in the order they were accepted. */
  ghost function Of<T>(accepted: seq<T>, fates: seq<Fate>, f: Fate): seq<T>
    requires |accepted| == |fates|
  {
    if fates == [] then []
    else
      var last := |fates| - 1;
      Of(accepted[..last], fates[..last], f) + if fates[last] == f then [accepted[last]] else []
  }

  /** Every record with fate `a` gets fate `b`. */
  ghost function Remark(fates: seq<Fate>, a: Fate, b: Fate): (r: seq<Fate>)
    ensures |r| == |fates| && forall i | 0 <= i < |r| :: r[i] == if fates[i] == a then b else fates[i]
  {
    seq(|fates|, i requires 0 <= i < |fates| => if fates[i] == a then b else fates[i])
  }

  /** No record with fate `b` was accepted after one with fate `a`. */
  ghost predicate NoneAfter(fates: seq<Fate>, a: Fate, b: Fate) {
    forall i, j | 0 <= i < j < |fates| && fates[i] == a :: fates[j] != b
  }

  lemma {:induction false} NoneIsEmpty<T>(accepted: seq<T>, fates: seq<Fate>, f: Fate)
    requires |accepted| == |fates|
    ensures Of(accepted, fates, f) == [] <==> f !in fates
  {
    if fates != [] {
      var last := |fates| - 1;
      NoneIsEmpty(accepted[..last], fates[..last], f);
      assert fates == fates[..last] + [fates[last]];
    }
  }

  /** Marking a batch appends it to the records already so marked. */
  lemma {:induction false} Merge<T>(accepted: seq<T>, fates: seq<Fate>, a: Fate, b: Fate)
    requires |accepted| == |fates| && a != b && NoneAfter(fates, a, b)
    ensures Of(accepted, Remark(fates, a, b), b) == Of(accepted, fates, b) + Of(accepted, fates, a)
    ensures forall c | c != b :: Of(accepted, Remark(fates, a, b), c) == if c == a then [] else Of(accepted, fates, c)
  {
    hide Of;
    MergeInto(accepted, fates, a, b);
    forall c | c != b ensures Of(accepted, Remark(fates, a, b), c) == if c == a then [] else Of(accepted, fates, c) {
      MergeLeaves(accepted, fates, a, b, c);
    }
  }

  lemma OfLast<T>(accepted: seq<T>, fates: seq<Fate>, f: Fate)
    requires |accepted| == |fates|
    ensures fates == [] ==> Of(accepted, fates, f) == []
    ensures fates != [] ==>
              (var last := |fates| - 1;
              Of(accepted, fates, f)
              == Of(accepted[..last], fates[..last], f) + if fates[last] == f then [accepted[last]] else [])
  {
  }

  lemma {:induction false} MergeInto<T>(accepted: seq<T>, fates: seq<Fate>, a: Fate, b: Fate)
    requires |accepted| == |fates| && a != b && NoneAfter(fates, a, b)
    ensures Of(accepted, Remark(fates, a, b), b) == Of(accepted, fates, b) + Of(accepted, fates, a)
  {
    hide Of, Remark;
    var marked := Remark(fates, a, b);
    OfLast(accepted, fates, a);
    OfLast(accepted, fates, b);
    OfLast(accepted, marked, b);
    if fates != [] {
      var last := |fates| - 1;
      MergeInto(accepted[..last], fates[..last], a, b);
      assert marked[..last] == Remark(fates[..last], a, b);
      if fates[last] == b {
        NoneIsEmpty(accepted[..last], fates[..last], a);
      }
    }
  }

  lemma {:induction false} MergeLeaves<T>(accepted: seq<T>, fates: seq<Fate>, a: Fate, b: Fate, c: Fate)
    requires |accepted| == |fates| && a != b && c != b
    ensures Of(accepted, Remark(fates, a, b), c) == if c == a then [] else Of(accepted, fates, c)
  {
    if fates != [] {
      var last := |fates| - 1;
      MergeLeaves(accepted[..last], fates[..last], a, b, c);
      assert Remark(fates, a, b)[..last] == Remark(fates[..last], a, b);
    }
  }

  lemma {:induction false} Append<T>(accepted: seq<T>, fates: seq<Fate>, e: T)
    requires |accepted| == |fates|
    ensures forall f :: Of(accepted + [e], fates + [Buffered], f) ==
                        Of(accepted, fates, f) + if f == Buffered then [e] else []
  {
    assert (accepted + [e])[..|accepted|] == accepted && (fates + [Buffered])[..|fates|] == fates;
  }

  /** Dropping the oldest buffered record. */
  lemma {:induction false} DropOldest<T>(accepted: seq<T>, fates: seq<Fate>) returns (i: nat)
    requires |accepted| == |fates| && Of(accepted, fates, Buffered) != []
    ensures i < |fates| && fates[i] == Buffered && forall j | 0 <= j < i :: fates[j] != Buffered
    ensures accepted[i] == Of(accepted, fates, Buffered)[0]
    ensures Of(accepted, fates[i := Dropped], Buffered) == Of(accepted, fates, Buffered)[1..]
    ensures |Of(accepted, fates[i := Dropped], Dropped)| == |Of(accepted, fates, Dropped)| + 1
    ensures forall f | f != Buffered && f != Dropped :: Of(accepted, fates[i := Dropped], f) == Of(accepted, fates, f)
  {
    var last := |fates| - 1;
    var a, s := accepted[..last], fates[..last];
    if Of(a, s, Buffered) == [] {
      NoneIsEmpty(a, s, Buffered);
      i := last;
      assert fates[last := Dropped][..last] == s;
      forall j | 0 <= j < i ensures fates[j] != Buffered { assert fates[j] == s[j]; }
    } else {
      i := DropOldest(a, s);
      assert fates[i := Dropped][..last] == s[i := Dropped];
      assert forall j | 0 <= j < i :: fates[j] == s[j];
    }
  }

  /** Every accepted record has one fate. */
  lemma {:induction false} Conserved<T>(accepted: seq<T>, fates: seq<Fate>)
    requires |accepted| == |fates|
    ensures |accepted| == |Of(accepted, fates, Stored)| + |Of(accepted, fates, Lost)| + |Of(accepted, fates, Dropped)|
                        + |Of(accepted, fates, Buffered)| + |Of(accepted, fates, Flying)|
  {
    if fates != [] { Conserved(accepted[..|fates| - 1], fates[..|fates| - 1]); }
  }

  /** The positions of the records with one fate. */
  lemma {:induction false} InOrder<T>(accepted: seq<T>, fates: seq<Fate>, f: Fate) returns (at: seq<nat>)
    requires |accepted| == |fates|
    ensures |at| == |Of(accepted, fates, f)|
    ensures forall i | 0 <= i < |at| ::
              at[i] < |accepted| && Of(accepted, fates, f)[i] == accepted[at[i]] && fates[at[i]] == f
    ensures forall i, j | 0 <= i < j < |at| :: at[i] < at[j]
  {
    if fates == [] {
      at := [];
    } else {
      var last := |fates| - 1;
      at := InOrder(accepted[..last], fates[..last], f);
      if fates[last] == f { at := at + [last]; }
    }
  }

  class Sink<T> {
    const cap: nat
    const batchSize: nat
    var buffer: seq<T>
    /** The batch the flusher took and has not finished writing. */
    var batch: seq<T>
    /** The rows in the table. */
    var rows: seq<T>
    var written: nat
    var dropped: nat
    var errors: nat
    ghost var accepted: seq<T>
    ghost var fates: seq<Fate>

    ghost predicate Valid()
      reads this
    {
      && |accepted| == |fates| && 0 < cap && |buffer| <= cap
      && buffer == Of(accepted, fates, Buffered) && batch == Of(accepted, fates, Flying)
      && rows == Of(accepted, fates, Stored) && written == |rows| && dropped == |Of(accepted, fates, Dropped)|
      && NoneAfter(fates, Flying, Stored) && NoneAfter(fates, Flying, Lost)
      && NoneAfter(fates, Buffered, Flying) && NoneAfter(fates, Buffered, Stored) && NoneAfter(fates, Buffered, Lost)
    }

    constructor (capacity: int, batchSize: int)
      ensures Valid() && accepted == [] && cap == (if capacity <= 0 then CAPACITY else capacity)
      ensures this.batchSize == (if batchSize <= 0 then BATCH_SIZE else batchSize)
      ensures CAPACITY == 10_000 && BATCH_SIZE == 100
    {
      cap := if capacity <= 0 then CAPACITY else capacity;
      this.batchSize := if batchSize <= 0 then BATCH_SIZE else batchSize;
      buffer, batch, rows := [], [], [];
      written, dropped, errors := 0, 0, 0;
      accepted, fates := [], [];
    }

    /** A full buffer gives up its oldest record, and no other, for the new one. */
    method Enqueue(e: T) returns (wake: bool)
      requires Valid()
      modifies this`buffer, this`dropped, this`accepted, this`fates
      ensures Valid() && accepted == old(accepted) + [e]
      ensures buffer == (if |old(buffer)| >= cap then old(buffer)[1..] else old(buffer)) + [e]
      ensures dropped == old(dropped) + (if |old(buffer)| >= cap then 1 else 0)
      ensures wake <==> |buffer| >= batchSize
    {
      hide Of;
      if |buffer| >= cap {
        ghost var i := DropOldest(accepted, fates);
        fates := fates[i := Dropped];
        buffer := buffer[1..];
        dropped := dropped + 1;
      }
      Append(accepted, fates, e);
      accepted, fates := accepted + [e], fates + [Buffered];
      buffer := buffer + [e];
      wake := |buffer| >= batchSize;
    }

    /** The first half of `flush`: under the lock the whole buffer becomes the batch. */
    method Swap() returns (taken: bool)
      requires Valid() && batch == []
      modifies this`buffer, this`batch, this`fates
      ensures Valid() && (taken <==> old(buffer) != [])
      ensures buffer == [] && batch == old(buffer)
    {
      hide Of;
      if buffer == [] {
        return false;
      }
      NoneIsEmpty(accepted, fates, Flying);
      Merge(accepted, fates, Buffered, Flying);
      fates := Remark(fates, Buffered, Flying);
      batch, buffer := buffer, [];
      taken := true;
    }

    /** The second half: the batch is written whole, or lost whole. */
    method Finish(inserted: bool)
      requires Valid() && batch != []
      modifies this`rows, this`batch, this`written, this`errors, this`fates
      ensures Valid() && batch == []
      ensures rows == old(rows) + (if inserted then old(batch) else [])
      ensures written == old(written) + (if inserted then |old(batch)| else 0)
      ensures errors == old(errors) + (if inserted then 0 else 1)
    {
      hide Of;
      if inserted {
        Merge(accepted, fates, Flying, Stored);
        fates := Remark(fates, Flying, Stored);
        rows := rows + batch;
        written := written + |batch|;
      } else {
        Merge(accepted, fates, Flying, Lost);
        fates := Remark(fates, Flying, Lost);
        errors := errors + 1;
      }
      batch := [];
    }

    /** At every moment: accepted is written, lost with a failed batch, dropped, buffered or in flight. */
    lemma Conservation()
      requires Valid()
      ensures |accepted| == written + |Of(accepted, fates, Lost)| + dropped + |buffer| + |batch|
    {
      Conserved(accepted, fates);
    }

    /** The table holds accepted records in the order they were accepted. */
    lemma RowsInOrder() returns (at: seq<nat>)
      requires Valid()
      ensures |at| == |rows| && (forall i, j | 0 <= i < j < |at| :: at[i] < at[j])
      ensures forall i | 0 <= i < |at| :: at[i] < |accepted| && rows[i] == accepted[at[i]]
    {
      at := InOrder(accepted, fates, Stored);
    }
  }
}
