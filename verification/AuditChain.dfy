/** One hash chain: appending, restarting, verifying, and what an accepted
    chain rules out. SHA-256 is a parameter that always yields 32 bytes. */
module AuditChain {
  import opened Text
  import opened AuditJson
  import opened AuditJsonRead
  import opened AuditRow
  import opened Ids

  type Digest = string

  datatype Env = Env(sha: string -> Digest, stamp: int -> string)

  ghost predicate Hashes(env: Env) { forall x :: |env.sha(x)| == 32 }

  function Zeros(n: nat): (r: string)
    ensures |r| == n
  {
    if n == 0 then "" else [0 as char] + Zeros(n - 1)
  }

  const GENESIS: Digest := Zeros(32)

  datatype Row = Row(cells: seq<Cell>, prev: Digest, hash: Digest)

  ghost predicate TypedRow(schema: Schema, r: Row) {
    |r.cells| == |schema| && forall i | 0 <= i < |schema| :: Typed(schema[i].kind, r.cells[i])
  }

  ghost predicate FitsAll(schema: Schema, values: seq<Value>) {
    |values| == |schema| && forall i | 0 <= i < |schema| :: Fits(schema[i].kind, values[i])
  }

  function WrittenAll(env: Env, values: seq<Value>): seq<Json> {
    seq(|values|, i requires 0 <= i < |values| => Written(values[i], env.stamp))
  }

  function StoredAll(schema: Schema, values: seq<Value>): seq<Cell>
    requires |values| == |schema|
  {
    seq(|values|, i requires 0 <= i < |values| => Stored(schema[i].kind, values[i]))
  }

  function ReadBackAll(env: Env, schema: Schema, cells: seq<Cell>): seq<Json>
    requires |cells| == |schema|
  {
    seq(|cells|, i requires 0 <= i < |cells| => ReadBack(schema[i].kind, cells[i], env.stamp))
  }

  /** The hash of a row: the previous hash, then the canonical text. */
  ghost function RowHash(env: Env, schema: Schema, prev: Digest, values: seq<Json>): Digest
    requires |values| == |schema|
  {
    env.sha(prev + Canon(RowObject(schema, values)))
  }

  method ComputeHash(env: Env, schema: Schema, prev: Digest, values: seq<Json>) returns (h: Digest)
    requires |values| == |schema|
    ensures h == RowHash(env, schema, prev, values)
  {
    var body := MarshalSorted(RowObject(schema, values));
    h := env.sha(prev + body);
  }

  function Head(rows: seq<Row>): Digest { if rows == [] then GENESIS else rows[|rows| - 1].hash }

  /** Row `i` links to the one before it and carries its own hash. */
  ghost predicate LinkedAt(env: Env, schema: Schema, rows: seq<Row>, i: nat)
    requires i < |rows|
  {
    && |rows[i].cells| == |schema|
    && rows[i].prev == Head(rows[..i])
    && rows[i].hash == RowHash(env, schema, rows[i].prev, ReadBackAll(env, schema, rows[i].cells))
  }

  ghost predicate Linked(env: Env, schema: Schema, rows: seq<Row>) {
    forall i | 0 <= i < |rows| :: LinkedAt(env, schema, rows, i)
  }

  datatype Reason = PrevMismatch | HashMismatch

  /** The chain walk: accepts exactly the linked chains, and otherwise stops at
      the first row that does not link. */
  method Verify(env: Env, schema: Schema, rows: seq<Row>) returns (n: nat, broken: Option<Reason>)
    requires forall r | r in rows :: TypedRow(schema, r)
    ensures broken.None? <==> Linked(env, schema, rows)
    ensures broken.None? ==> n == |rows|
    ensures broken.Some? ==> n < |rows| && !LinkedAt(env, schema, rows, n)
    ensures broken.Some? ==> (broken.value.PrevMismatch? <==> rows[n].prev != Head(rows[..n]))
    ensures forall i | 0 <= i < n :: LinkedAt(env, schema, rows, i)
  {
    hide RowHash;
    var expected := GENESIS;
    n := 0;
    while n < |rows|
      invariant n <= |rows| && expected == Head(rows[..n])
      invariant forall i | 0 <= i < n :: LinkedAt(env, schema, rows, i)
    {
      var row := rows[n];
      assert row in rows && TypedRow(schema, row);
      if row.prev != expected {
        assert !LinkedAt(env, schema, rows, n);
        return n, Some(PrevMismatch);
      }
      var got := ComputeHash(env, schema, row.prev, ReadBackAll(env, schema, row.cells));
      if row.hash != got {
        assert !LinkedAt(env, schema, rows, n);
        return n, Some(HashMismatch);
      }
      expected := row.hash;
      n := n + 1;
    }
    broken := None;
  }

  /** A chain as the process sees it: the rows in the table and the head in memory. */
  datatype Log = Log(rows: seq<Row>, head: Digest)

  /** A write: the new row and head, or nothing at all when the insert fails. */
  ghost function Append(env: Env, schema: Schema, log: Log, values: seq<Value>, inserted: bool): Log
    requires |values| == |schema|
  {
    if !inserted then log
    else
      var hash := RowHash(env, schema, log.head, WrittenAll(env, values));
      Log(log.rows + [Row(StoredAll(schema, values), log.head, hash)], hash)
  }

  /** A restart: the head comes from the last row. */
  function Reload(log: Log): Log { Log(log.rows, Head(log.rows)) }

  ghost predicate Sound(env: Env, schema: Schema, log: Log) {
    && log.head == Head(log.rows) && Linked(env, schema, log.rows)
    && forall r | r in log.rows :: TypedRow(schema, r)
  }

  lemma {:induction false} WrittenIsReadBack(env: Env, schema: Schema, values: seq<Value>)
    requires FitsAll(schema, values)
    ensures |StoredAll(schema, values)| == |WrittenAll(env, values)| == |schema|
    ensures ReadBackAll(env, schema, StoredAll(schema, values)) == WrittenAll(env, values)
    ensures forall i | 0 <= i < |schema| :: Typed(schema[i].kind, StoredAll(schema, values)[i])
  {
    hide Fits, Typed, Stored, Written, ReadBack;
    forall i | 0 <= i < |schema|
      ensures ReadBack(schema[i].kind, Stored(schema[i].kind, values[i]), env.stamp) == Written(values[i], env.stamp)
      ensures Typed(schema[i].kind, StoredAll(schema, values)[i])
    {
      ReadsBackWritten(schema[i].kind, values[i], env.stamp);
    }
  }

  lemma {:induction false} AppendKeeps(env: Env, schema: Schema, log: Log, values: seq<Value>, inserted: bool)
    requires Sound(env, schema, log) && FitsAll(schema, values)
    ensures Sound(env, schema, Append(env, schema, log, values, inserted))
  {
    hide RowHash, ReadBackAll, StoredAll, WrittenAll, Typed, Fits;
    var next := Append(env, schema, log, values, inserted);
    WrittenIsReadBack(env, schema, values);
    if inserted {
      var rows := next.rows;
      forall i | 0 <= i < |rows| ensures LinkedAt(env, schema, rows, i) {
        if i < |log.rows| {
          assert LinkedAt(env, schema, log.rows, i) && rows[..i] == log.rows[..i];
        } else {
          assert rows[..i] == log.rows;
          assert rows[i] == Row(StoredAll(schema, values), log.head, next.head);
        }
      }
    }
  }

  // Tamper evidence

  /** What a forger would have had to find. */
  datatype Clash = NoClash | Collision(x: string, y: string) | Preimage(x: string)

  ghost predicate Found(env: Env, c: Clash) {
    match c
    case NoClash => false
    case Collision(x, y) => x != y && env.sha(x) == env.sha(y)
    case Preimage(x) => env.sha(x) == GENESIS
  }

  predicate SameRow(env: Env, schema: Schema, a: Row, b: Row) {
    && |a.cells| == |b.cells| == |schema|
    && forall i | 0 <= i < |schema| :: SameCell(schema[i].kind, a.cells[i], b.cells[i], env.stamp)
  }

  ghost function Body(env: Env, schema: Schema, r: Row): string
    requires |r.cells| == |schema|
  {
    Canon(RowObject(schema, ReadBackAll(env, schema, r.cells)))
  }

  lemma {:induction false} SaneRow(env: Env, schema: Schema, r: Row)
    requires TypedRow(schema, r)
    ensures Sane(RowObject(schema, ReadBackAll(env, schema, r.cells)))
  {
    hide Typed, ReadBack;
    var values := ReadBackAll(env, schema, r.cells);
    forall i | 0 <= i < |values| ensures Sane(values[i]) { SaneCell(schema[i].kind, r.cells[i], env.stamp); }
    var m := Assemble(schema, values);
    forall k | k in m ensures Sane(m[k]) {
      var _ := AssembledOnly(schema, values, k);
    }
  }

  lemma SaneCell(k: Kind, c: Cell, stamp: int -> string)
    requires Typed(k, c)
    ensures Sane(ReadBack(k, c, stamp))
  {
    hide UuidText, ParseUuid;
  }

  /** Two rows hash the same bytes exactly when they agree in every hashed column. */
  lemma {:induction false} SameBody(env: Env, schema: Schema, a: Row, b: Row)
    requires Distinct(schema) && TypedRow(schema, a) && TypedRow(schema, b)
    ensures Body(env, schema, a) == Body(env, schema, b) <==> SameRow(env, schema, a, b)
  {
    hide Typed, ReadBack, Canon, SameCell, Distinct, RowObject, Sane;
    var va, vb := ReadBackAll(env, schema, a.cells), ReadBackAll(env, schema, b.cells);
    SaneRow(env, schema, a);
    SaneRow(env, schema, b);
    CanonIsInjective(RowObject(schema, va), RowObject(schema, vb));
    RowObjectIsInjective(schema, va, vb);
    forall i | 0 <= i < |schema| ensures va[i] == vb[i]
        <==> SameCell(schema[i].kind, a.cells[i], b.cells[i], env.stamp) {
      ReadBackIsInjective(schema[i].kind, a.cells[i], b.cells[i], env.stamp);
    }
  }

  /** Two accepted chains with one head are the same chain, column by column
      and row by row, unless two inputs of the hash function are exhibited that
      collide, or one that hashes to the zero genesis. */
  lemma {:induction false} TamperEvident(env: Env, schema: Schema, a: seq<Row>, b: seq<Row>) returns (clash: Clash)
    requires Hashes(env) && Distinct(schema)
    requires Linked(env, schema, a) && Linked(env, schema, b) && Head(a) == Head(b)
    requires forall r | r in a + b :: TypedRow(schema, r)
    ensures clash != NoClash ==> Found(env, clash)
    ensures clash == NoClash ==> |a| == |b| && forall i | 0 <= i < |a| :: SameRow(env, schema, a[i], b[i])
    decreases |a|
  {
    hide TypedRow, Distinct, SameRow, RowHash, Body;
    clash := NoClash;
    if a != [] { Shorter(env, schema, a); }
    if b != [] { Shorter(env, schema, b); }
    if a == [] && b == [] {
    } else if a == [] {
      clash := Preimage(LastInput(env, schema, b));
    } else if b == [] {
      clash := Preimage(LastInput(env, schema, a));
    } else if LastInput(env, schema, a) != LastInput(env, schema, b) {
      clash := Collision(LastInput(env, schema, a), LastInput(env, schema, b));
    } else {
      var ra, rb := a[|a| - 1], b[|b| - 1];
      assert ra in a + b && rb in a + b;
      HeadLength(env, schema, a[..|a| - 1]);
      HeadLength(env, schema, b[..|b| - 1]);
      SplitAt32(ra.prev, Body(env, schema, ra), rb.prev, Body(env, schema, rb));
      SameBody(env, schema, ra, rb);
      assert forall r | r in a[..|a| - 1] + b[..|b| - 1] :: r in a + b;
      clash := TamperEvident(env, schema, a[..|a| - 1], b[..|b| - 1]);
      assert clash == NoClash ==> forall i | 0 <= i < |a| - 1 :: a[..|a| - 1][i] == a[i] && b[..|a| - 1][i] == b[i];
    }
  }

  /** What was hashed into the head. */
  ghost function LastInput(env: Env, schema: Schema, rows: seq<Row>): string
    requires rows != [] && |rows[|rows| - 1].cells| == |schema|
  {
    rows[|rows| - 1].prev + Body(env, schema, rows[|rows| - 1])
  }

  lemma Shorter(env: Env, schema: Schema, rows: seq<Row>)
    requires rows != [] && Linked(env, schema, rows)
    ensures |rows[|rows| - 1].cells| == |schema|
    ensures Linked(env, schema, rows[..|rows| - 1])
    ensures rows[|rows| - 1].prev == Head(rows[..|rows| - 1])
    ensures env.sha(LastInput(env, schema, rows)) == Head(rows)
  {
    hide RowObject, ReadBackAll;
    var init := rows[..|rows| - 1];
    assert LinkedAt(env, schema, rows, |rows| - 1);
    forall i | 0 <= i < |init| ensures LinkedAt(env, schema, init, i) {
      assert LinkedAt(env, schema, rows, i) && rows[..i] == init[..i];
    }
  }

  lemma HeadLength(env: Env, schema: Schema, rows: seq<Row>)
    requires Hashes(env) && Linked(env, schema, rows)
    ensures |Head(rows)| == 32
  {
    if rows != [] { assert LinkedAt(env, schema, rows, |rows| - 1); }
  }

  /** The previous hash has a fixed width, so it cannot run into the body. */
  lemma SplitAt32(p: Digest, x: string, q: Digest, y: string)
    requires |p| == |q| == 32 && p + x == q + y
    ensures p == q && x == y
  {
    assert (p + x)[..32] == p && (q + y)[..32] == q;
    assert (p + x)[32..] == x && (q + y)[32..] == y;
  }
}
