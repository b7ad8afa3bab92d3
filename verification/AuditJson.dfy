/** internal/audit/audit.go: canonical JSON. A `string` is a sequence of Unicode
    characters; byte order of UTF-8 keys is the order of their characters. */
module AuditJson {
  import opened Ids
  import opened Text

  datatype Json =
    | Null
    | Bool(b: bool)
    | Number(text: string)
    | Str(s: string)
    | Arr(items: seq<Json>)
    | Obj(members: map<string, Json>)

  predicate IsNumberChar(c: char) { IsDigit(c) || c == '-' || c == '+' || c == '.' || c == 'e' || c == 'E' }

  predicate IsNumber(t: string) {
    t != "" && (IsDigit(t[0]) || t[0] == '-') && forall i | 0 <= i < |t| :: IsNumberChar(t[i])
  }

  /** Numbers are given by their text, already in the form the encoder prints. */
  ghost predicate Sane(v: Json) {
    match v
    case Number(t) => IsNumber(t)
    case Arr(items) => forall i | 0 <= i < |items| :: Sane(items[i])
    case Obj(m) => forall k | k in m :: Sane(m[k])
    case _ => true
  }

  /** Integers, fractions and exponents (section 6 of RFC 8259) are among them. */
  lemma {:induction false} NumbersAreSane(whole: nat, part: string, power: nat)
    requires AllDigits(part)
    ensures forall sign | sign in {"", "-"} ::
              forall tail | tail in {"", "." + part, "E-" + Decimal(power), "." + part + "e+" + Decimal(power)} ::
                Sane(Number(sign + Decimal(whole) + tail))
  {
    forall sign, tail |
      sign in {"", "-"} && tail in {"", "." + part, "E-" + Decimal(power), "." + part + "e+" + Decimal(power)}
      ensures IsNumber(sign + Decimal(whole) + tail)
    {
      hide Decimal;
      assert forall i | 0 <= i < |sign| :: IsNumberChar(sign[i]);
      assert forall i | 0 <= i < |tail| :: IsNumberChar(tail[i]);
    }
  }

  // Key order

  predicate Less(a: string, b: string) {
    b != "" && (a == "" || a[0] < b[0] || (a[0] == b[0] && Less(a[1..], b[1..])))
  }

  lemma {:induction false} LessIsTotal(a: string, b: string)
    ensures Less(a, b) || a == b || Less(b, a)
    ensures !(Less(a, b) && Less(b, a)) && !Less(a, a)
  {
    if a != "" && b != "" && a[0] == b[0] {
      LessIsTotal(a[1..], b[1..]);
      assert a == [a[0]] + a[1..] && b == [b[0]] + b[1..];
    }
    LessIrreflexive(a);
  }

  lemma {:induction false} LessIrreflexive(a: string)
    ensures !Less(a, a)
  {
    if a != "" { LessIrreflexive(a[1..]); }
  }

  lemma {:induction false} LessIsTransitive(a: string, b: string, c: string)
    requires Less(a, b) && Less(b, c)
    ensures Less(a, c)
  {
    if a != "" && a[0] == b[0] == c[0] { LessIsTransitive(a[1..], b[1..], c[1..]); }
  }

  ghost predicate Ascending(keys: seq<string>) {
    forall i, j | 0 <= i < j < |keys| :: Less(keys[i], keys[j])
  }

  lemma EmptyHasNone(a: seq<string>)
    ensures a == [] <==> forall k :: k !in a
  {
    if a != [] { assert a[0] in a; }
  }

  /** The order is determined by the set of keys. */
  lemma {:induction false} AscendingIsUnique(a: seq<string>, b: seq<string>)
    requires Ascending(a) && Ascending(b) && forall k :: k in a <==> k in b
    ensures a == b
  {
    hide Less;
    EmptyHasNone(a);
    EmptyHasNone(b);
    if a != [] {
      assert a[0] in b && b[0] in a;
      LessIsTotal(a[0], b[0]);
      var i :| 0 <= i < |b| && b[i] == a[0];
      var j :| 0 <= j < |a| && a[j] == b[0];
      assert a[0] == b[0];
      LessIsTotal(a[0], a[0]);
      forall k ensures k in a[1..] <==> k in b[1..] {
        assert k in a[1..] ==> k in a && k != a[0];
        assert k in b[1..] ==> k in b && k != b[0];
      }
      AscendingIsUnique(a[1..], b[1..]);
    }
  }

  ghost function SortedKeys(keys: set<string>): (r: seq<string>)
    ensures Ascending(r) && forall k :: k in r <==> k in keys
  {
    if keys == {} then []
    else
      LeastExists(keys);
      var k :| k in keys && forall x | x in keys && x != k :: Less(k, x);
      [k] + SortedKeys(keys - {k})
  }

  lemma {:induction false} LeastExists(keys: set<string>)
    requires keys != {}
    ensures exists k :: k in keys && forall x | x in keys && x != k :: Less(k, x)
  {
    hide Less;
    var k :| k in keys;
    if keys - {k} == {} {
      assert forall x | x in keys && x != k :: x in keys - {k};
    } else {
      LeastExists(keys - {k});
      var l :| l in keys - {k} && forall x | x in keys - {k} && x != l :: Less(l, x);
      LessIsTotal(k, l);
      if Less(k, l) {
        forall x | x in keys && x != k ensures Less(k, x) {
          if x != l { LessIsTransitive(k, l, x); }
        }
      } else {
        assert forall x | x in keys && x != l :: Less(l, x);
      }
    }
  }

  // Strings

  function Hex4(n: nat): (r: string)
    requires n < 0x1_0000
    ensures |r| == 4
  {
    [HEX[n / 4096], HEX[n % 4096 / 256], HEX[n % 4096 % 256 / 16], HEX[n % 4096 % 256 % 16]]
  }

  /** One character of a string, escaped as the Go encoder escapes it. */
  function Escape(c: char): (r: string)
    ensures r != ""
  {
    if c == '"' then "\\\""
    else if c == '\\' then "\\\\"
    else if c == 8 as char then "\\b"
    else if c == 12 as char then "\\f"
    else if c == '\n' then "\\n"
    else if c == '\r' then "\\r"
    else if c == '\t' then "\\t"
    else if c < ' ' || c == '<' || c == '>' || c == '&' || c == 0x2028 as char || c == 0x2029 as char then
      "\\u" + Hex4(c as int)
    else [c]
  }

  function Escaped(s: string): string { if s == "" then "" else Escape(s[0]) + Escaped(s[1..]) }

  function Quote(s: string): string { "\"" + Escaped(s) + "\"" }

  // The canonical text

  ghost function Canon(v: Json): string
    decreases v, 1, 0
  {
    match v
    case Null => "null"
    case Bool(b) => if b then "true" else "false"
    case Number(t) => t
    case Str(s) => Quote(s)
    case Arr(items) => "[" + Elements(items) + "]"
    case Obj(m) => "{" + Members(v, SortedKeys(m.Keys)) + "}"
  }

  ghost function Elements(items: seq<Json>): string
    decreases items, 0, 0
  {
    if items == [] then ""
    else Canon(items[0]) + if |items| == 1 then "" else "," + Elements(items[1..])
  }

  ghost function Members(v: Json, keys: seq<string>): string
    requires v.Obj? && forall k | k in keys :: k in v.members
    decreases v, 0, |keys|
  {
    if keys == [] then ""
    else
      Quote(keys[0]) + ":" + Canon(v.members[keys[0]]) +
      if |keys| == 1 then "" else "," + Members(v, keys[1..])
  }

  // The encoder

  /** `sort.Strings` on distinct keys. */
  method SortStrings(keys: seq<string>) returns (r: seq<string>)
    requires forall i, j | 0 <= i < j < |keys| :: keys[i] != keys[j]
    ensures Ascending(r) && forall k :: k in r <==> k in keys
  {
    hide Less;
    r := [];
    for n := 0 to |keys|
      invariant Ascending(r) && forall k :: k in r <==> k in keys[..n]
    {
      var k, i := keys[n], 0;
      assert k !in keys[..n];
      while i < |r| && Less(r[i], k)
        invariant i <= |r| && forall j | 0 <= j < i :: Less(r[j], k)
      {
        i := i + 1;
      }
      forall j | i <= j < |r| ensures Less(k, r[j]) {
        assert r[i] in r;
        LessIsTotal(r[i], k);
        if i < j { LessIsTransitive(k, r[i], r[j]); }
      }
      Spliced(r, i, k);
      assert keys[..n + 1] == keys[..n] + [k];
      r := r[..i] + [k] + r[i..];
    }
    assert keys[..|keys|] == keys;
  }

  lemma Spliced(r: seq<string>, i: nat, k: string)
    requires Ascending(r) && i <= |r|
    requires forall j | 0 <= j < i :: Less(r[j], k)
    requires forall j | i <= j < |r| :: Less(k, r[j])
    ensures Ascending(r[..i] + [k] + r[i..])
    ensures forall x :: x in r[..i] + [k] + r[i..] <==> x == k || x in r
  {
    hide Less;
    var t := r[..i] + [k] + r[i..];
    assert forall j | 0 <= j < |t| :: t[j] == if j < i then r[j] else if j == i then k else r[j - 1];
    assert r == r[..i] + r[i..];
  }

  /** The encoder: whatever order the keys of an object come in, the text is the canonical one. */
  method MarshalSorted(v: Json) returns (out: string)
    ensures out == Canon(v)
    decreases v, 1
  {
    match v
    case Obj(m) => out := MarshalObject(v);
    case Arr(items) => out := MarshalArray(v);
    case Null => out := "null";
    case Bool(b) => out := if b then "true" else "false";
    case Number(t) => out := t;
    case Str(s) => out := Quote(s);
  }

  /** The keys of an object, taken in any order and then sorted. */
  method KeysOf(m: map<string, Json>) returns (keys: seq<string>)
    ensures keys == SortedKeys(m.Keys)
  {
    hide Less, SortedKeys;
    keys := [];
    var rest := m.Keys;
    while rest != {}
      invariant rest <= m.Keys && forall k :: k in keys <==> k in m.Keys - rest
      invariant forall i, j | 0 <= i < j < |keys| :: keys[i] != keys[j]
    {
      var k :| k in rest;
      ghost var was := keys;
      keys, rest := keys + [k], rest - {k};
      assert forall x :: x in keys <==> x in was || x == k;
    }
    keys := SortStrings(keys);
    AscendingIsUnique(keys, SortedKeys(m.Keys));
  }

  method MarshalObject(v: Json) returns (out: string)
    requires v.Obj?
    ensures out == Canon(v)
    decreases v, 0
  {
    hide Quote, SortedKeys, Members, Ascending;
    var keys := KeysOf(v.members);
    out := "{";
    for i := 0 to |keys|
      invariant out + (if 0 < i < |keys| then "," else "") + Members(v, keys[i..]) == "{" + Members(v, keys)
    {
      MemberFirst(v, keys[i..]);
      if i > 0 {
        out := out + ",";
      }
      var text := MarshalSorted(v.members[keys[i]]);
      out := out + (Quote(keys[i]) + ":" + text);
      assert keys[i..][1..] == keys[i + 1..];
    }
    NoMembers(v);
    out := out + "}";
  }

  lemma NoMembers(v: Json)
    requires v.Obj?
    ensures Members(v, []) == ""
  {
  }

  lemma MemberFirst(v: Json, keys: seq<string>)
    requires v.Obj? && keys != [] && forall k | k in keys :: k in v.members
    ensures Members(v, keys) ==
            Quote(keys[0]) + ":" + Canon(v.members[keys[0]]) + (if |keys| > 1 then "," else "") + Members(v, keys[1..])
  {
    hide Quote, Canon;
  }

  method MarshalArray(v: Json) returns (out: string)
    requires v.Arr?
    ensures out == Canon(v)
    decreases v, 0
  {
    var items := v.items;
    out := "[";
    for i := 0 to |items|
      invariant out + (if 0 < i < |items| then "," else "") + Elements(items[i..]) == "[" + Elements(items)
    {
      if i > 0 {
        out := out + ",";
      }
      var text := MarshalSorted(items[i]);
      out := out + text;
      assert items[i..][1..] == items[i + 1..];
    }
    out := out + "]";
  }
}
