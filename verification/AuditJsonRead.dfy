/** A reader of JSON texts (RFC 8259) without optional white space, and the
    proof that it gives back every value from its canonical text. */
module AuditJsonRead {
  import opened Text
  import opened AuditJson
  import opened Ids

  /** Section 7: one character of a string, escaped or not, and what follows it. */
  function ReadChar(s: string): (r: Option<(char, string)>)
    ensures r.Some? ==> |r.value.1| < |s|
  {
    if s == "" || s[0] < ' ' || s[0] == '"' then None
    else if s[0] != '\\' then Some((s[0], s[1..]))
    else if |s| < 2 then None
    else
      match s[1]
      case '"' => Some(('"', s[2..]))
      case '\\' => Some(('\\', s[2..]))
      case '/' => Some(('/', s[2..]))
      case 'b' => Some((8 as char, s[2..]))
      case 'f' => Some((12 as char, s[2..]))
      case 'n' => Some(('\n', s[2..]))
      case 'r' => Some(('\r', s[2..]))
      case 't' => Some(('\t', s[2..]))
      case 'u' => ReadHex(s[2..])
      case _ => None
  }

  /** Four hexadecimal digits naming a character of the basic plane. */
  function ReadHex(s: string): (r: Option<(char, string)>)
    ensures r.Some? ==> |r.value.1| < |s|
  {
    if |s| < 4 then None
    else
      var a, b, c, d := HexValue(s[0]), HexValue(s[1]), HexValue(s[2]), HexValue(s[3]);
      if a.None? || b.None? || c.None? || d.None? then None
      else
        var n := 4096 * a.value + 256 * b.value + 16 * c.value + d.value;
        if n < 0xD800 || 0xE000 <= n < 0x1_0000 then Some((n as char, s[4..])) else None
  }

  /** The rest of a string after its opening quote. */
  function ReadText(s: string): (r: Option<(string, string)>)
    ensures r.Some? ==> |r.value.1| < |s|
    decreases |s|
  {
    if s != "" && s[0] == '"' then Some(("", s[1..]))
    else
      match ReadChar(s)
      case None => None
      case Some((c, rest)) =>
        match ReadText(rest)
        case None => None
        case Some((t, after)) => Some(([c] + t, after))
  }

  /** The longest run of number characters. */
  function NumberLen(s: string): (n: nat)
    ensures n <= |s|
  {
    if s == "" || !IsNumberChar(s[0]) then 0 else 1 + NumberLen(s[1..])
  }

  predicate Starts(s: string, word: string) { word <= s }

  ghost function ReadValue(s: string): (r: Option<(Json, string)>)
    ensures r.Some? ==> |r.value.1| < |s|
    decreases |s|, 0
  {
    if s == "" then None
    else if Starts(s, "null") then Some((Null, s[4..]))
    else if Starts(s, "true") then Some((Bool(true), s[4..]))
    else if Starts(s, "false") then Some((Bool(false), s[5..]))
    else if s[0] == '"' then
      match ReadText(s[1..])
      case None => None
      case Some((t, rest)) => Some((Str(t), rest))
    else if s[0] == '[' then
      if Starts(s[1..], "]") then Some((Arr([]), s[2..]))
      else
        match ReadElements(s[1..])
        case None => None
        case Some((items, rest)) => Some((Arr(items), rest))
    else if s[0] == '{' then
      if Starts(s[1..], "}") then Some((Obj(map[]), s[2..]))
      else
        match ReadMembers(s[1..])
        case None => None
        case Some((m, rest)) => Some((Obj(m), rest))
    else if IsDigit(s[0]) || s[0] == '-' then Some((Number(s[..NumberLen(s)]), s[NumberLen(s)..]))
    else None
  }

  /** One or more values separated by commas, and the closing bracket. */
  ghost function ReadElements(s: string): (r: Option<(seq<Json>, string)>)
    ensures r.Some? ==> |r.value.1| < |s|
    decreases |s|, 1
  {
    match ReadValue(s)
    case None => None
    case Some((v, rest)) =>
      if Starts(rest, "]") then Some(([v], rest[1..]))
      else if !Starts(rest, ",") then None
      else
        match ReadElements(rest[1..])
        case None => None
        case Some((items, after)) => Some(([v] + items, after))
  }

  /** One or more members separated by commas, and the closing brace; of equal names the last wins. */
  ghost function ReadMembers(s: string): (r: Option<(map<string, Json>, string)>)
    ensures r.Some? ==> |r.value.1| < |s|
    decreases |s|, 1
  {
    if !Starts(s, "\"") then None
    else
      match ReadText(s[1..])
      case None => None
      case Some((k, afterName)) =>
        if !Starts(afterName, ":") then None
        else
          match ReadValue(afterName[1..])
          case None => None
          case Some((v, rest)) =>
            if Starts(rest, "}") then Some((map[k := v], rest[1..]))
            else if !Starts(rest, ",") then None
            else
              match ReadMembers(rest[1..])
              case None => None
              case Some((m, after)) => Some((map[k := v] + m, after))
  }

  // Reading back

  lemma {:induction false} HexReads(n: nat, rest: string)
    requires n < 0xD800
    ensures ReadHex(Hex4(n) + rest) == Some((n as char, rest))
  {
    hide ReadHex;
    DigitsRead(n / 4096, n % 4096 / 256, n % 4096 % 256 / 16, n % 4096 % 256 % 16, rest);
  }

  lemma DigitsRead(a: nat, b: nat, c: nat, d: nat, rest: string)
    requires a < 16 && b < 16 && c < 16 && d < 16 && 4096 * a + 256 * b + 16 * c + d < 0xD800
    ensures ReadHex([HEX[a], HEX[b], HEX[c], HEX[d]] + rest) == Some(((4096 * a + 256 * b + 16 * c + d) as char, rest))
  {
    hide HexValue;
    DigitReads(a);
    DigitReads(b);
    DigitReads(c);
    DigitReads(d);
    var s := [HEX[a], HEX[b], HEX[c], HEX[d]] + rest;
    assert s[4..] == rest;
  }

  lemma {:induction false} CharReads(c: char, rest: string)
    ensures ReadChar(Escape(c) + rest) == Some((c, rest))
    ensures Escape(c)[0] != '"'
  {
    hide ReadHex, Hex4;
    var s := Escape(c) + rest;
    if |Escape(c)| == 6 {
      HexReads(c as int, rest);
      assert s[2..] == Hex4(c as int) + rest;
    } else {
      assert s[|Escape(c)|..] == rest;
    }
  }

  lemma {:induction false} TextReads(t: string, rest: string)
    ensures ReadText(Escaped(t) + ("\"" + rest)) == Some((t, rest))
    decreases |t|
  {
    hide Escape, ReadChar;
    if t == "" {
      assert Escaped(t) + ("\"" + rest) == "\"" + rest;
    } else {
      var more := Escaped(t[1..]) + ("\"" + rest);
      CharReads(t[0], more);
      TextReads(t[1..], rest);
      assert Escaped(t) + ("\"" + rest) == Escape(t[0]) + more;
      assert [t[0]] + t[1..] == t;
    }
  }

  predicate EndsNumber(rest: string) { rest == "" || !IsNumberChar(rest[0]) }

  lemma {:induction false} NumberReads(t: string, rest: string)
    requires EndsNumber(rest) && forall i | 0 <= i < |t| :: IsNumberChar(t[i])
    ensures NumberLen(t + rest) == |t|
  {
    if t == "" {
      assert t + rest == rest;
    } else {
      assert (t + rest)[1..] == t[1..] + rest;
      NumberReads(t[1..], rest);
    }
  }

  lemma {:induction false} QuoteReads(t: string, rest: string)
    ensures var s := Quote(t) + rest; Starts(s, "\"") && ReadText(s[1..]) == Some((t, rest))
    ensures ReadValue(Quote(t) + rest) == Some((Str(t), rest))
  {
    hide Escaped, ReadText;
    TextReads(t, rest);
    var s := Quote(t) + rest;
    assert s == "\"" + (Escaped(t) + ("\"" + rest));
    assert s[0] == '"' && s[1..] == Escaped(t) + ("\"" + rest);
    StringValue(s);
  }

  lemma StringValue(s: string)
    requires s != "" && s[0] == '"' && ReadText(s[1..]).Some?
    ensures ReadValue(s) == Some((Str(ReadText(s[1..]).value.0), ReadText(s[1..]).value.1))
  {
    hide ReadText;
    OtherWord(s);
  }

  /** A text that does not begin with n, t or f is none of the three words. */
  lemma OtherWord(s: string)
    requires s != "" && s[0] != 'n' && s[0] != 't' && s[0] != 'f'
    ensures !Starts(s, "null") && !Starts(s, "true") && !Starts(s, "false")
  {
    assert "null"[0] == 'n' && "true"[0] == 't' && "false"[0] == 'f';
  }


  lemma WordReads(v: Json, rest: string)
    requires v.Null? || v.Bool?
    ensures ReadValue(Canon(v) + rest) == Some((v, rest))
  {
    hide ReadText, ReadElements, ReadMembers, NumberLen;
    var word, s := Canon(v), Canon(v) + rest;
    assert s[|word|..] == rest && word <= s;
    if v.Bool? {
      assert s[0] == word[0] != "null"[0];
      if !v.b { assert s[0] != "true"[0]; }
    }
  }

  lemma {:induction false} NumberValueReads(t: string, rest: string)
    requires IsNumber(t) && EndsNumber(rest)
    ensures ReadValue(t + rest) == Some((Number(t), rest))
  {
    hide ReadText, ReadElements, ReadMembers, NumberLen;
    var s := t + rest;
    NumberReads(t, rest);
    OtherWord(s);
    assert s[0] == t[0] && s[..|t|] == t && s[|t|..] == rest;
  }

  /** The first character of a canonical text is never a closing bracket or brace. */
  lemma {:induction false} CanonStarts(v: Json)
    requires Sane(v)
    ensures Canon(v) != "" && Canon(v)[0] !in "]}"
  {
    hide Escaped, Members, Elements, SortedKeys;
  }

  lemma {:induction false} ValueReads(v: Json, rest: string)
    requires Sane(v) && EndsNumber(rest)
    ensures ReadValue(Canon(v) + rest) == Some((v, rest))
    decreases v, 1, 0
  {
    hide ReadValue, Quote, SortedKeys, Members, Elements;
    match v
    case Null => WordReads(v, rest);
    case Bool(_) => WordReads(v, rest);
    case Number(t) => NumberValueReads(t, rest);
    case Str(t) => QuoteReads(t, rest);
    case Arr(items) =>
      if items == [] {
        EmptyArr(rest);
      } else {
        ElementsRead(items, rest);
        CanonStarts(items[0]);
        ElementsStart(items);
        ArrValue("[" + Elements(items) + "]" + rest, Elements(items) + ("]" + rest));
      }
    case Obj(m) =>
      var keys := SortedKeys(m.Keys);
      if keys == [] {
        assert m == map[] by { assert forall k :: k in keys <==> k in m.Keys; }
        EmptyObj(rest);
      } else {
        MembersRead(v, keys, rest);
        assert (map k | k in keys :: m[k]) == m;
        ObjValue("{" + Members(v, keys) + "}" + rest, Members(v, keys) + ("}" + rest));
      }
  }

  lemma EmptyArr(rest: string)
    ensures ReadValue(Canon(Arr([])) + rest) == Some((Arr([]), rest))
  {
    var s := "[" + "" + "]" + rest;
    OtherWord(s);
    assert s[1..] == "]" + rest && s[2..] == rest;
  }

  lemma {:induction false} ElementsRead(items: seq<Json>, rest: string)
    requires items != [] && forall i | 0 <= i < |items| :: Sane(items[i])
    ensures ReadElements(Elements(items) + ("]" + rest)) == Some((items, rest))
    decreases items, 0, |items|
  {
    hide ReadValue, Canon, Sane, ReadElements, Elements, Starts;
    var v := items[0];
    var s := Elements(items) + ("]" + rest);
    ElementsText(items, rest);
    if |items| == 1 {
      ValueReads(v, "]" + rest);
      LastElement(s, v, rest);
      assert items == [v];
    } else {
      var after := "," + (Elements(items[1..]) + ("]" + rest));
      ValueReads(v, after);
      ElementsRead(items[1..], rest);
      NextElement(s, v, after);
      assert [v] + items[1..] == items;
    }
  }

  lemma ElementsText(items: seq<Json>, rest: string)
    requires items != []
    ensures EndsNumber("]" + rest)
    ensures |items| == 1 ==> Elements(items) + ("]" + rest) == Canon(items[0]) + ("]" + rest)
    ensures |items| > 1 ==>
              (var tail := Elements(items[1..]) + ("]" + rest);
              && Elements(items) + ("]" + rest) == Canon(items[0]) + ("," + tail)
              && EndsNumber("," + tail) && Starts("," + tail, ",") && ("," + tail)[1..] == tail)
  {
    hide Canon;
    if |items| == 1 {
      assert Canon(items[0]) + "" == Canon(items[0]);
    } else {
      CommaText(Canon(items[0]), Elements(items[1..]), "]" + rest);
    }
  }

  lemma CommaText(c: string, tail: string, rest: string)
    ensures c + ("," + tail) + rest == c + ("," + (tail + rest))
    ensures ("," + (tail + rest))[1..] == tail + rest
  {
  }

  lemma LastElement(s: string, v: Json, rest: string)
    requires ReadValue(s) == Some((v, "]" + rest))
    ensures ReadElements(s) == Some(([v], rest))
  {
    hide ReadValue;
    assert ("]" + rest)[1..] == rest;
  }

  lemma NextElement(s: string, v: Json, more: string)
    requires ReadValue(s) == Some((v, more)) && Starts(more, ",") && ReadElements(more[1..]).Some?
    ensures var (items, after) := ReadElements(more[1..]).value; ReadElements(s) == Some(([v] + items, after))
  {
    hide ReadValue;
    assert more[0] == ',';
  }

  lemma ElementsStart(items: seq<Json>)
    requires items != [] && Canon(items[0]) != ""
    ensures Elements(items) != "" && Elements(items)[0] == Canon(items[0])[0]
  {
    hide Canon;
  }

  lemma ArrValue(s: string, tail: string)
    requires s != "" && s[0] == '[' && s[1..] == tail && tail != "" && tail[0] != ']' && ReadElements(tail).Some?
    ensures ReadValue(s) == Some((Arr(ReadElements(tail).value.0), ReadElements(tail).value.1))
  {
    hide ReadElements;
    OtherWord(s);
  }

  lemma EmptyObj(rest: string)
    ensures ReadValue(Canon(Obj(map[])) + rest) == Some((Obj(map[]), rest))
  {
    assert SortedKeys({}) == [];
    var s := "{" + "" + "}" + rest;
    OtherWord(s);
    assert s[1..] == "}" + rest && s[2..] == rest;
  }

  lemma ObjValue(s: string, tail: string)
    requires s != "" && s[0] == '{' && s[1..] == tail && Starts(tail, "\"") && ReadMembers(tail).Some?
    ensures ReadValue(s) == Some((Obj(ReadMembers(tail).value.0), ReadMembers(tail).value.1))
  {
    hide ReadMembers;
    OtherWord(s);
    assert tail[0] == '"';
  }

  lemma {:induction false} MembersRead(v: Json, keys: seq<string>, rest: string)
    requires v.Obj? && Sane(v) && keys != [] && forall k | k in keys :: k in v.members
    ensures Starts(Members(v, keys) + ("}" + rest), "\"")
    ensures ReadMembers(Members(v, keys) + ("}" + rest)) == Some((map k | k in keys :: v.members[k], rest))
    decreases v, 0, |keys|
  {
    hide ReadValue, ReadText, Canon, Quote, Sane, Members, ReadMembers, Starts;
    var k := keys[0];
    var more := if |keys| == 1 then "}" + rest else "," + (Members(v, keys[1..]) + ("}" + rest));
    SaneMember(v, k);
    EndsMember(v, keys, rest);
    ValueReads(v.members[k], more);
    var text := ":" + (Canon(v.members[k]) + more);
    QuoteReads(k, text);
    MembersText(v, keys, rest);
    var s := Members(v, keys) + ("}" + rest);
    if |keys| == 1 {
      LastMember(s, k, text, v.members[k], rest);
      OnlyMember(v.members, keys);
    } else {
      MembersRead(v, keys[1..], rest);
      NextMember(s, k, text, v.members[k], more);
      MoreMembers(v.members, keys);
    }
  }

  lemma OnlyMember(m: map<string, Json>, keys: seq<string>)
    requires |keys| == 1 && keys[0] in m
    ensures (map x | x in keys :: m[x]) == map[keys[0] := m[keys[0]]]
  {
  }

  /** What follows the first value ends a number, and begins as it should. */
  lemma EndsMember(v: Json, keys: seq<string>, rest: string)
    requires v.Obj? && keys != [] && forall k | k in keys :: k in v.members
    ensures EndsNumber("}" + rest)
    ensures var tail := Members(v, keys[1..]) + ("}" + rest);
            EndsNumber("," + tail) && Starts("," + tail, ",") && ("," + tail)[1..] == tail
  {
    hide Members;
  }

  lemma MembersText(v: Json, keys: seq<string>, rest: string)
    requires v.Obj? && keys != [] && forall k | k in keys :: k in v.members
    ensures var more := if |keys| == 1 then "}" + rest else "," + (Members(v, keys[1..]) + ("}" + rest));
            var text := ":" + (Canon(v.members[keys[0]]) + more);
            Members(v, keys) + ("}" + rest) == Quote(keys[0]) + text && Starts(text, ":")
            && text[1..] == Canon(v.members[keys[0]]) + more
  {
    hide Canon, Quote, Members;
    MemberFirst(v, keys);
    var q, c := Quote(keys[0]), Canon(v.members[keys[0]]);
    if |keys| == 1 {
      NoMembers(v);
      assert keys[1..] == [];
      Regroup(q, c, "", "", "}" + rest);
    } else {
      Regroup(q, c, ",", Members(v, keys[1..]), "}" + rest);
    }
  }

  lemma Regroup(q: string, c: string, sep: string, tail: string, rest: string)
    ensures var text := ":" + (c + (sep + (tail + rest)));
            q + ":" + c + sep + tail + rest == q + text && Starts(text, ":") && text[1..] == c + (sep + (tail + rest))
    ensures "" + ("" + rest) == rest
  {
  }

  lemma MoreMembers(m: map<string, Json>, keys: seq<string>)
    requires keys != [] && forall k | k in keys :: k in m
    ensures map[keys[0] := m[keys[0]]] + (map x | x in keys[1..] :: m[x]) == map x | x in keys :: m[x]
  {
    assert keys == [keys[0]] + keys[1..];
  }

  lemma SaneMember(v: Json, k: string)
    requires v.Obj? && Sane(v) && k in v.members
    ensures Sane(v.members[k])
  {
  }

  lemma LastMember(s: string, k: string, text: string, v: Json, rest: string)
    requires Starts(s, "\"") && ReadText(s[1..]) == Some((k, text))
    requires Starts(text, ":") && ReadValue(text[1..]) == Some((v, "}" + rest))
    ensures ReadMembers(s) == Some((map[k := v], rest))
  {
    hide ReadText, ReadValue;
    assert ("}" + rest)[1..] == rest;
  }

  lemma NextMember(s: string, k: string, text: string, v: Json, more: string)
    requires Starts(s, "\"") && ReadText(s[1..]) == Some((k, text))
    requires Starts(text, ":") && ReadValue(text[1..]) == Some((v, more))
    requires Starts(more, ",") && ReadMembers(more[1..]).Some?
    ensures var (m, after) := ReadMembers(more[1..]).value; ReadMembers(s) == Some((map[k := v] + m, after))
  {
    hide ReadText, ReadValue;
    assert s[0] == '"' && text[0] == ':' && more[0] == ',';
  }

  /** Every value is read back from its canonical text, so the text is unambiguous. */
  lemma {:induction false} CanonReadsBack(v: Json)
    requires Sane(v)
    ensures ReadValue(Canon(v)) == Some((v, ""))
  {
    hide ReadValue, Canon;
    ValueReads(v, "");
    assert Canon(v) + "" == Canon(v);
  }

  lemma {:induction false} CanonIsInjective(v: Json, w: Json)
    requires Sane(v) && Sane(w)
    ensures Canon(v) == Canon(w) <==> v == w
  {
    hide ReadValue, Canon, Sane;
    CanonReadsBack(v);
    CanonReadsBack(w);
  }
}
