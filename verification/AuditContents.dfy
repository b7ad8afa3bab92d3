/** internal/audit: what the chains contain. In every run a chain holds one row
    for each of its successful writes, in order, and each row reads back as what
    was written. */
module AuditContents {
  import opened Text
  import opened AuditJson
  import opened AuditRow
  import opened AuditChain
  import opened AuditSystem

  /** A successful write adds one row at the end: it links to the head, carries
      the hash of the head and of what was written, and reads back as that; its
      hash is the new head. */
  lemma {:induction false} AppendAdds(env: Env, schema: Schema, log: Log, values: seq<Value>)
    requires FitsAll(schema, values)
    ensures var next := Append(env, schema, log, values, true);
            && |next.rows| == |log.rows| + 1 && next.rows[..|log.rows|] == log.rows
            && var row := next.rows[|log.rows|];
            && row.prev == log.head && |row.cells| == |schema|
            && row.hash == env.sha(log.head + Canon(RowObject(schema, WrittenAll(env, values))))
            && ReadBackAll(env, schema, row.cells) == WrittenAll(env, values) && next.head == row.hash
    ensures Append(env, schema, log, values, false) == log
  {
    hide WrittenAll, StoredAll, ReadBackAll, RowObject;
    WrittenIsReadBack(env, schema, values);
    WrittenSizes(env, values);
  }

  lemma WrittenSizes(env: Env, values: seq<Value>)
    ensures |WrittenAll(env, values)| == |values|
  {
  }

  /** All that a run adds to a chain. */
  function AddedAll(steps: seq<Step>, c: Chain): seq<seq<Value>> {
    if steps == [] then []
    else
      AddedAll(steps[..|steps| - 1], c) +
      match Added(steps[|steps| - 1], c) { case None => [] case Some(values) => [values] }
  }

  /** The rows read back as these writes, one by one. */
  ghost predicate ReadsAs(env: Env, schema: Schema, rows: seq<Row>, added: seq<seq<Value>>) {
    |rows| == |added| &&
    forall i | 0 <= i < |rows| ::
      |rows[i].cells| == |schema| && ReadBackAll(env, schema, rows[i].cells) == WrittenAll(env, added[i])
  }

  lemma {:induction false} AloneReads(env: Env, steps: seq<Step>, c: Chain)
    requires forall s | s in steps :: Fitting(s)
    ensures ReadsAs(env, SchemaOf(c), Alone(env, steps, c).rows, AddedAll(steps, c))
  {
    hide Append, Fitting, Added, SchemaOf, FitsAll, ReadBackAll, WrittenAll;
    if steps != [] {
      var init, last := steps[..|steps| - 1], steps[|steps| - 1];
      AloneReads(env, init, c);
      AddedFits(last, c);
      if Added(last, c).Some? {
        AppendAdds(env, SchemaOf(c), Alone(env, init, c), Added(last, c).value);
      }
    }
  }

  /** In every run: one row per successful write of the chain, in their order,
      whatever failed and restarted in between, each reading back as it was written. */
  lemma {:induction false} ChainReadsAsWritten(env: Env, steps: seq<Step>, c: Chain)
    requires forall s | s in steps :: Fitting(s)
    ensures ReadsAs(env, SchemaOf(c), LogOf(Run(env, START, steps), c).rows, AddedAll(steps, c))
  {
    hide Run, Fitting, LogOf, ReadsAs, Alone, SchemaOf, AddedAll;
    ChainsAreIndependent(env, steps, c);
    AloneReads(env, steps, c);
  }

  // ---- characters ---------------------------------------------------------------------

  /** Characters a string of the canonical text never holds raw: control
      characters, those that could end a script, and the line separators. */
  predicate Unsafe(c: char) {
    c < ' ' || c == '<' || c == '>' || c == '&' || c == 0x2028 as char || c == 0x2029 as char
  }

  ghost predicate Clean(s: string) { forall c | c in s :: !Unsafe(c) }

  lemma {:induction false} EscapeClean(c: char)
    ensures Clean(Escape(c))
    ensures !Unsafe(c) && c != '"' && c != '\\' ==> Escape(c) == [c]
  {
    if c < ' ' || c == '<' || c == '>' || c == '&' || c == 0x2028 as char || c == 0x2029 as char { HexClean(c as int); }
  }

  lemma HexClean(n: nat)
    requires n < 0x1_0000
    ensures Clean(Hex4(n))
  {
  }

  /** Every quoted string is clean, and one without such characters, quotes or
      backslashes is written as it is. */
  lemma {:induction false} QuoteClean(s: string)
    ensures Clean(Quote(s))
    ensures Clean(s) && '"' !in s && '\\' !in s ==> Quote(s) == "\"" + s + "\""
  {
    EscapedClean(s);
  }

  lemma {:induction false} EscapedClean(s: string)
    ensures Clean(Escaped(s))
    ensures Clean(s) && '"' !in s && '\\' !in s ==> Escaped(s) == s
  {
    hide Escape, Unsafe;
    if s != "" {
      EscapeClean(s[0]);
      EscapedClean(s[1..]);
      assert s == [s[0]] + s[1..];
    }
  }
}
