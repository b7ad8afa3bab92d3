/** The hashed columns of an audit row: what the writer hashes, what the table
    stores, and what the verifier hashes again after reading the row back. */
module AuditRow {
  import opened Text
  import opened AuditJson
  import opened AuditJsonRead
  import opened Ids

  /** A column read back as a UUID; the zero UUID stands for a text that is not one. */
  function ParseUuid(s: string): nat {
    match ReadUuid(s)
    case Some(u) => u
    case None => NIL
  }

  lemma ParseUndoesText(u: nat)
    requires u < UUIDS
    ensures ParseUuid(UuidText(u)) == u
  {
    UuidTextReads(u);
  }

  // Columns

  /** How a hashed column is declared: a required or nullable UUID, required or
      nullable text, nullable JSON, or the time of the row. */
  datatype Kind = Key | Ref | Name | Note | Payload | Stamp

  datatype Column = Column(name: string, kind: Kind)

  type Schema = seq<Column>

  /** A value as the writer has it. Times are nanoseconds. */
  datatype Value = Uuid(u: nat) | Text(s: string) | Data(j: Option<Json>) | Time(ns: int)

  /** A cell as the table holds it. Times are microseconds. */
  datatype Cell = Missing | UuidCell(u: nat) | TextCell(s: string) | JsonCell(j: Json) | TimeCell(us: int)

  ghost predicate Fits(k: Kind, v: Value) {
    match k
    case Key | Ref => v.Uuid? && v.u < UUIDS
    case Name | Note => v.Text?
    case Payload => v.Data? && (v.j.Some? ==> Sane(v.j.value))
    case Stamp => v.Time?
  }

  ghost predicate Typed(k: Kind, c: Cell) {
    match k
    case Key => c.UuidCell? && c.u < UUIDS
    case Ref => c.Missing? || (c.UuidCell? && c.u < UUIDS)
    case Name => c.TextCell?
    case Note => c.Missing? || c.TextCell?
    case Payload => c.Missing? || (c.JsonCell? && Sane(c.j))
    case Stamp => c.TimeCell?
  }

  function Micros(ns: int): int { ns / 1000 }

  /** What the writer hashes; `stamp` renders a time in microseconds. */
  function Written(v: Value, stamp: int -> string): Json {
    match v
    case Uuid(u) => Str(UuidText(u))
    case Text(s) => Str(s)
    case Data(None) => Null
    case Data(Some(j)) => j
    case Time(ns) => Str(stamp(Micros(ns)))
  }

  /** What the insert stores: a nullable column holds NULL for the zero UUID, the empty text and no payload. */
  function Stored(k: Kind, v: Value): Cell {
    match v
    case Uuid(u) => if k == Ref && u == NIL then Missing else UuidCell(u)
    case Text(s) => if k == Note && s == "" then Missing else TextCell(s)
    case Data(None) => Missing
    case Data(Some(j)) => JsonCell(j)
    case Time(ns) => TimeCell(Micros(ns))
  }

  /** What the verifier hashes: NULL reads as the empty text or as JSON null, and a nullable UUID comes as text. */
  function ReadBack(k: Kind, c: Cell, stamp: int -> string): Json {
    match c
    case Missing => if k == Ref then Str(UuidText(NIL)) else if k == Payload then Null else Str("")
    case UuidCell(u) => Str(UuidText(if k == Ref then ParseUuid(UuidText(u)) else u))
    case TextCell(s) => Str(s)
    case JsonCell(j) => j
    case TimeCell(us) => Str(stamp(us))
  }

  /** The two sides agree, so an untouched row always hashes to what was written. */
  lemma {:induction false} ReadsBackWritten(k: Kind, v: Value, stamp: int -> string)
    requires Fits(k, v)
    ensures Typed(k, Stored(k, v)) && ReadBack(k, Stored(k, v), stamp) == Written(v, stamp)
  {
    hide UuidText, ParseUuid;
    if v.Uuid? { ParseUndoesText(v.u); }
  }

  /** The cells the verifier does not tell apart. */
  predicate SameCell(k: Kind, c: Cell, d: Cell, stamp: int -> string) {
    || c == d
    || (k == Ref && c in {Missing, UuidCell(NIL)} && d in {Missing, UuidCell(NIL)})
    || (k == Note && c in {Missing, TextCell("")} && d in {Missing, TextCell("")})
    || (k == Payload && c in {Missing, JsonCell(Null)} && d in {Missing, JsonCell(Null)})
    || (k == Stamp && c.TimeCell? && d.TimeCell? && stamp(c.us) == stamp(d.us))
  }

  /** NULL folding is all the verifier forgets. */
  lemma {:induction false} ReadBackIsInjective(k: Kind, c: Cell, d: Cell, stamp: int -> string)
    requires Typed(k, c) && Typed(k, d)
    ensures ReadBack(k, c, stamp) == ReadBack(k, d, stamp) <==> SameCell(k, c, d, stamp)
  {
    hide UuidText, ParseUuid;
    ParseUndoesText(NIL);
    if c.UuidCell? { ParseUndoesText(c.u); }
    if d.UuidCell? { ParseUndoesText(d.u); }
  }

  // Rows

  predicate Distinct(schema: Schema) { forall i, j | 0 <= i < j < |schema| :: schema[i].name != schema[j].name }

  /** The object that is hashed: one member per column. */
  function RowObject(schema: Schema, values: seq<Json>): Json
    requires |values| == |schema|
  {
    Obj(Assemble(schema, values))
  }

  function Assemble(schema: Schema, values: seq<Json>): map<string, Json>
    requires |values| == |schema|
  {
    if schema == [] then map[]
    else
      var last := |schema| - 1;
      Assemble(schema[..last], values[..last])[schema[last].name := values[last]]
  }

  /** With distinct names every column finds its own value in the object. */
  lemma {:induction false} Assembled(schema: Schema, values: seq<Json>, i: nat)
    requires Distinct(schema) && |values| == |schema| && i < |schema|
    ensures schema[i].name in Assemble(schema, values) && Assemble(schema, values)[schema[i].name] == values[i]
  {
    var last := |schema| - 1;
    if i < last { Assembled(schema[..last], values[..last], i); }
  }

  lemma {:induction false} AssembledOnly(schema: Schema, values: seq<Json>, k: string) returns (i: nat)
    requires |values| == |schema| && k in Assemble(schema, values)
    ensures i < |schema| && Assemble(schema, values)[k] == values[i]
  {
    i := |schema| - 1;
    if schema[i].name != k { i := AssembledOnly(schema[..i], values[..i], k); }
  }

  lemma {:induction false} RowObjectIsInjective(schema: Schema, a: seq<Json>, b: seq<Json>)
    requires Distinct(schema) && |a| == |b| == |schema|
    ensures RowObject(schema, a) == RowObject(schema, b) <==> a == b
  {
    if RowObject(schema, a) == RowObject(schema, b) {
      forall i | 0 <= i < |a| ensures a[i] == b[i] {
        Assembled(schema, a, i);
        Assembled(schema, b, i);
      }
    }
  }

  const LEGACY: Schema := [
    Column("id", Key), Column("at", Stamp), Column("user_id", Ref), Column("user_collection", Note),
    Column("tenant_id", Ref), Column("event", Name), Column("outcome", Name), Column("before", Payload),
    Column("after", Payload), Column("error_code", Note), Column("ip", Note), Column("user_agent", Note)]

  const SITE: Schema := [
    Column("id", Key), Column("at", Stamp), Column("actor_type", Name), Column("actor_id", Ref),
    Column("actor_email", Note), Column("actor_collection", Note), Column("event", Name),
    Column("entity_type", Note), Column("entity_id", Note), Column("outcome", Name), Column("before", Payload),
    Column("after", Payload), Column("meta", Payload), Column("error_code", Note), Column("error_data", Payload),
    Column("ip", Note), Column("user_agent", Note), Column("request_id", Note)]

  const TENANT: Schema := SITE + [Column("tenant_id", Key)]

  lemma LegacyNames6()
    ensures forall i, j | 0 <= i < j && 0 <= j < 6 :: LEGACY[i].name != LEGACY[j].name
  {
  }

  lemma LegacyNames9()
    ensures forall i, j | 0 <= i < j && 6 <= j < 9 :: LEGACY[i].name != LEGACY[j].name
  {
  }

  lemma LegacyNames12()
    ensures forall i, j | 0 <= i < j && 9 <= j < 12 :: LEGACY[i].name != LEGACY[j].name
  {
  }

  lemma LegacyDistinct()
    ensures Distinct(LEGACY)
  {
    LegacyNames6();
    LegacyNames9();
    LegacyNames12();
  }

  lemma SiteNames6()
    ensures forall i, j | 0 <= i < j && 0 <= j < 6 :: SITE[i].name != SITE[j].name
  {
  }

  lemma SiteNames9()
    ensures forall i, j | 0 <= i < j && 6 <= j < 9 :: SITE[i].name != SITE[j].name
  {
  }

  lemma SiteNames12()
    ensures forall i, j | 0 <= i < j && 9 <= j < 12 :: SITE[i].name != SITE[j].name
  {
  }

  lemma SiteNames15()
    ensures forall i, j | 0 <= i < j && 12 <= j < 15 :: SITE[i].name != SITE[j].name
  {
  }

  lemma SiteNames18()
    ensures forall i, j | 0 <= i < j && 15 <= j < 18 :: SITE[i].name != SITE[j].name
  {
  }

  lemma SiteDistinct()
    ensures Distinct(SITE)
  {
    SiteNames6();
    SiteNames9();
    SiteNames12();
    SiteNames15();
    SiteNames18();
  }

  lemma TenantDistinct()
    ensures Distinct(TENANT)
  {
    hide Distinct;
    SiteDistinct();
    NoSiteColumnIsTenant();
    Extended(SITE, Column("tenant_id", Key));
  }

  lemma NoSiteColumnIsTenant()
    ensures forall i | 0 <= i < |SITE| :: SITE[i].name != "tenant_id"
  {
  }

  lemma Extended(schema: Schema, c: Column)
    requires Distinct(schema) && forall i | 0 <= i < |schema| :: schema[i].name != c.name
    ensures Distinct(schema + [c])
  {
  }
}
