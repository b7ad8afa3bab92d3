/** internal/jobs/cron_parser.go: crontab expressions. Integers are 64 bits wide. */
module CronParser {
  import opened Text

  const MAX_INT: int := 0x7FFF_FFFF_FFFF_FFFF
  const TWO_64: int := 0x1_0000_0000_0000_0000

  function Wrap(n: int): int { if n > MAX_INT then n - TWO_64 else n }

  datatype Reason = EmptyAtom | BadStep | BadRange | BadLiteral | OutOfRange

  /** An error the parser reports, or an index out of range that stops it. */
  datatype Trouble = Fault(reason: Reason) | Crash

  datatype Schedule = Schedule(
    minute: seq<bool>, hour: seq<bool>, dom: seq<bool>, mon: seq<bool>, dow: seq<bool>)

  datatype CronError = FieldCount(n: nat) | InField(field: string, trouble: Trouble)

  // Words

  predicate IsSpace(c: char) { c == ' ' || 9 <= c as int <= 13 }

  function WordLen(s: string): (n: nat)
    ensures n <= |s| && (s != "" && !IsSpace(s[0]) ==> n > 0)
  {
    if s == "" || IsSpace(s[0]) then 0 else 1 + WordLen(s[1..])
  }

  /** `strings.Fields`. */
  function Fields(s: string): seq<string>
    decreases |s|
  {
    if s == "" then []
    else if IsSpace(s[0]) then Fields(s[1..])
    else [s[..WordLen(s)]] + Fields(s[WordLen(s)..])
  }

  /** `strings.Index` of one character, or the length. */
  function IndexOf(s: string, c: char): (i: nat)
    ensures i <= |s| && c !in s[..i] && (i < |s| ==> s[i] == c) && (i == |s| <==> c !in s)
  {
    if s == "" || s[0] == c then 0 else 1 + IndexOf(s[1..], c)
  }

  /** `strconv.Atoi`: an optional sign and digits, within 64 bits. */
  function Atoi(s: string): (n: Option<int>)
    ensures n.Some? ==> -MAX_INT - 1 <= n.value <= MAX_INT
  {
    var digits := if s != "" && (s[0] == '-' || s[0] == '+') then s[1..] else s;
    if digits == "" || !AllDigits(digits) then None
    else
      var n: int := if s[0] == '-' then -(NumberValue(digits) as int) else NumberValue(digits);
      if -MAX_INT - 1 <= n <= MAX_INT then Some(n) else None
  }

  // Atoms

  /** Every `step`-th value from `lo` to `hi`. */
  datatype Span = Span(lo: int, hi: int, step: int)

  function ReadStep(atom: string): Option<int> {
    var i := IndexOf(atom, '/');
    if i == |atom| then Some(1)
    else
      match Atoi(atom[i + 1..])
      case None => None
      case Some(n) => if n <= 0 then None else Some(n)
  }

  function ReadBounds(body: string, min: int, max: int): Result<(int, int), Reason> {
    if body == "*" then Ok((min, max))
    else
      var i := IndexOf(body, '-');
      if i < |body| then
        match (Atoi(body[..i]), Atoi(body[i + 1..]))
        case (Some(l), Some(h)) => Ok((l, h))
        case _ => Err(BadRange)
      else
        match Atoi(body)
        case None => Err(BadLiteral)
        case Some(n) => Ok((n, n))
  }

  function ReadAtom(atom: string, min: int, max: int): (r: Result<Span, Reason>)
    ensures r.Ok? ==> min <= r.value.lo <= r.value.hi <= max && 0 < r.value.step <= MAX_INT
  {
    if atom == "" then Err(EmptyAtom)
    else
      var step := ReadStep(atom);
      if step == None then Err(BadStep)
      else
        var bounds :- ReadBounds(atom[..IndexOf(atom, '/')], min, max);
        if bounds.0 < min || bounds.1 > max || bounds.0 > bounds.1 then Err(OutOfRange)
        else Ok(Span(bounds.0, bounds.1, step.value))
  }

  ghost predicate InSpan(s: Span, v: int) { v <= s.hi && exists i: nat :: v == Nth(s, i) }

  function Nth(s: Span, i: nat): int { s.lo + i * s.step }

  /** A step so large that adding it to the first value leaves 64 bits. */
  function AtomTrouble(atom: string, min: int, max: int): Option<Trouble> {
    match ReadAtom(atom, min, max)
    case Err(reason) => Some(Fault(reason))
    case Ok(s) => if s.lo + s.step > MAX_INT then Some(Crash) else None
  }

  ghost predicate AtomHas(atom: string, min: int, max: int, v: int) {
    var r := ReadAtom(atom, min, max);
    r.Ok? && InSpan(r.value, v)
  }

  /** The trouble of the first atom that has any. */
  function FirstTrouble(atoms: seq<string>, min: int, max: int): Option<Trouble> {
    if atoms == [] then None
    else if AtomTrouble(atoms[0], min, max).Some? then AtomTrouble(atoms[0], min, max)
    else FirstTrouble(atoms[1..], min, max)
  }

  ghost predicate AnyHas(atoms: seq<string>, min: int, max: int, v: int) {
    exists atom :: atom in atoms && AtomHas(atom, min, max, v)
  }

  lemma {:induction false} NthGrows(s: Span, i: nat, j: nat)
    requires s.step > 0 && i <= j
    ensures s.lo <= Nth(s, i) && (i < j ==> Nth(s, i) + s.step <= Nth(s, j))
  {
    hide Nth;
    if i < j {
      NthGrows(s, i, j - 1);
      NthStep(s, j - 1);
    } else if i > 0 {
      NthGrows(s, i - 1, i - 1);
      NthStep(s, i - 1);
    } else {
      NthStart(s);
    }
  }

  lemma NthStart(s: Span)
    ensures Nth(s, 0) == s.lo
  {
  }

  /** Between one value of a span and the next there is none. */
  lemma {:induction false} Gap(s: Span, i: nat)
    requires s.step > 0
    ensures Nth(s, i + 1) == Nth(s, i) + s.step
    ensures forall x | Nth(s, i) < x < Nth(s, i + 1) :: !InSpan(s, x)
    ensures forall x | x < s.lo || x > s.hi :: !InSpan(s, x)
    ensures Nth(s, i) <= s.hi ==> InSpan(s, Nth(s, i))
  {
    hide Nth;
    NthStep(s, i);
    forall j: nat ensures s.lo <= Nth(s, j) && !(Nth(s, i) < Nth(s, j) < Nth(s, i + 1)) {
      NthGrows(s, j, j);
      if j > i + 1 { NthGrows(s, i + 1, j); }
      if j < i { NthGrows(s, j, i); }
    }
  }

  lemma NthStep(s: Span, i: nat)
    ensures Nth(s, i + 1) == Nth(s, i) + s.step
  {
  }

  /** Marks the values of one span. */
  method Mark(s: Span, min: int, dst: array<bool>) returns (crashed: bool)
    requires 0 <= min <= s.lo <= s.hi < min + dst.Length && s.hi < 100 && 0 < s.step <= MAX_INT
    modifies dst
    ensures crashed <==> s.lo + s.step > MAX_INT
    ensures !crashed ==> forall k | 0 <= k < dst.Length :: dst[k] <==> old(dst[k]) || InSpan(s, min + k)
  {
    hide InSpan;
    var v := s.lo;
    ghost var i: nat := 0;
    Gap(s, 0);
    while v <= s.hi
      invariant v == Nth(s, i) && v >= s.lo && (i > 0 ==> s.lo + s.step <= v && v < 100 + s.step)
      invariant i > 0 ==> s.lo + s.step <= MAX_INT
      invariant forall k | 0 <= k < dst.Length && min + k < v :: dst[k] <==> old(dst[k]) || InSpan(s, min + k)
      invariant forall k | 0 <= k < dst.Length && min + k >= v :: dst[k] == old(dst[k])
      decreases s.hi - v
    {
      Gap(s, i);
      dst[v - min] := true;
      var next := Wrap(v + s.step);
      if next < min {
        return true;
      }
      v, i := next, i + 1;
    }
    crashed := false;
    Gap(s, i);
  }

  /** One field: stops at the first troubled atom; otherwise a slot is set
      exactly when it was, or when some atom contains its value. */
  method ParseField(raw: string, min: int, max: int, dst: array<bool>) returns (trouble: Option<Trouble>)
    requires 0 <= min <= max < 100 && dst.Length == max - min + 1
    modifies dst
    ensures trouble == FirstTrouble(Split(raw, ','), min, max)
    ensures trouble == None ==> forall k | 0 <= k < dst.Length ::
              dst[k] <==> old(dst[k]) || AnyHas(Split(raw, ','), min, max, min + k)
  {
    hide ReadAtom, InSpan, AnyHas, AtomHas;
    var atoms := Split(raw, ',');
    NoAtoms(min, max);
    for i := 0 to |atoms|
      invariant FirstTrouble(atoms, min, max) == FirstTrouble(atoms[i..], min, max)
      invariant forall k | 0 <= k < dst.Length :: dst[k] <==> old(dst[k]) || AnyHas(atoms[..i], min, max, min + k)
    {
      assert atoms[i..][0] == atoms[i] && atoms[i..][1..] == atoms[i + 1..];
      OneMoreAtom(atoms, i, min, max);
      var span := ReadAtom(atoms[i], min, max);
      if span.Err? {
        return Some(Fault(span.error));
      }
      HasSpan(atoms[i], min, max);
      var crashed := Mark(span.value, min, dst);
      if crashed {
        return Some(Crash);
      }
    }
    assert atoms[..|atoms|] == atoms;
    trouble := None;
  }

  lemma NoAtoms(min: int, max: int)
    ensures forall v :: !AnyHas([], min, max, v)
  {
  }

  lemma OneMoreAtom(atoms: seq<string>, i: nat, min: int, max: int)
    requires i < |atoms|
    ensures forall v :: AnyHas(atoms[..i + 1], min, max, v) <==>
                        AnyHas(atoms[..i], min, max, v) || AtomHas(atoms[i], min, max, v)
  {
    hide AtomHas;
    assert atoms[..i + 1] == atoms[..i] + [atoms[i]];
  }

  lemma HasSpan(atom: string, min: int, max: int)
    requires ReadAtom(atom, min, max).Ok?
    ensures forall v :: AtomHas(atom, min, max, v) <==> InSpan(ReadAtom(atom, min, max).value, v)
  {
    hide ReadAtom, InSpan;
  }

  /** The five fields, with their ranges. */
  const FIELDS: seq<(string, int, int)> :=
    [("minute", 0, 59), ("hour", 0, 23), ("dom", 1, 31), ("mon", 1, 12), ("dow", 0, 6)]

  /** The trouble of the first field that has any. */
  function FirstFieldTrouble(words: seq<string>, f: nat): Option<CronError>
    requires |words| == 5 && f <= 5
    decreases 5 - f
  {
    if f == 5 then None
    else
      match FirstTrouble(Split(words[f], ','), FIELDS[f].1, FIELDS[f].2)
      case Some(t) => Some(InField(FIELDS[f].0, t))
      case None => FirstFieldTrouble(words, f + 1)
  }

  /** The slots of one field: one for each value of its range that some atom contains. */
  ghost predicate Slots(slots: seq<bool>, raw: string, min: int, max: int) {
    |slots| == max - min + 1 &&
    forall k | 0 <= k < |slots| :: slots[k] <==> AnyHas(Split(raw, ','), min, max, min + k)
  }

  /** A schedule with exactly the slots that the five words contain. */
  ghost predicate Compiled(s: Schedule, words: seq<string>) {
    && |words| == 5 && FirstFieldTrouble(words, 0) == None
    && Slots(s.minute, words[0], 0, 59) && Slots(s.hour, words[1], 0, 23) && Slots(s.dom, words[2], 1, 31)
    && Slots(s.mon, words[3], 1, 12) && Slots(s.dow, words[4], 0, 6)
  }

  /** The whole expression: either the first trouble, or exactly the slots its fields contain. */
  method ParseCron(expr: string) returns (r: Result<Schedule, CronError>)
    ensures |Fields(expr)| != 5 ==> r == Err(FieldCount(|Fields(expr)|))
    ensures |Fields(expr)| == 5 && FirstFieldTrouble(Fields(expr), 0).Some? ==>
              r == Err(FirstFieldTrouble(Fields(expr), 0).value)
    ensures |Fields(expr)| == 5 && FirstFieldTrouble(Fields(expr), 0) == None ==>
              r.Ok? && Compiled(r.value, Fields(expr))
  {
    hide Fields, FirstTrouble, AnyHas;
    var words := Fields(expr);
    if |words| != 5 {
      return Err(FieldCount(|words|));
    }
    var dst: seq<seq<bool>> := [];
    for f := 0 to 5
      invariant |dst| == f && FirstFieldTrouble(words, 0) == FirstFieldTrouble(words, f)
      invariant forall g | 0 <= g < f :: Slots(dst[g], words[g], FIELDS[g].1, FIELDS[g].2)
    {
      var slots := new bool[FIELDS[f].2 - FIELDS[f].1 + 1](_ => false);
      var trouble := ParseField(words[f], FIELDS[f].1, FIELDS[f].2, slots);
      if trouble.Some? {
        return Err(InField(FIELDS[f].0, trouble.value));
      }
      dst := dst + [slots[..]];
    }
    r := Ok(Schedule(dst[0], dst[1], dst[2], dst[3], dst[4]));
  }

  /** A field without trouble allows at least one value. */
  lemma {:induction false} SomethingIsAllowed(raw: string, min: int, max: int)
    requires FirstTrouble(Split(raw, ','), min, max) == None
    ensures exists v :: min <= v <= max && AnyHas(Split(raw, ','), min, max, v)
  {
    hide ReadAtom;
    var atom := Split(raw, ',')[0];
    var span := ReadAtom(atom, min, max).value;
    NthStart(span);
    assert InSpan(span, span.lo);
    assert atom in Split(raw, ',') && AtomHas(atom, min, max, span.lo);
    assert AnyHas(Split(raw, ','), min, max, span.lo);
  }

  // A text that stops the parser

  /** A step of the largest integer from 1 on. */
  const HUGE := "1/" + Decimal(MAX_INT)

  const HUGE_CRON := HUGE + " * * * *"

  lemma AtoiOfDigits(s: string)
    requires s != "" && AllDigits(s) && NumberValue(s) <= MAX_INT
    ensures Atoi(s) == Some(NumberValue(s))
  {
    assert IsDigit(s[0]);
  }

  lemma {:induction false} HugeAtom()
    ensures AtomTrouble(HUGE, 0, 59) == Some(Crash)
  {
    hide Atoi, Decimal;
    var digits := Decimal(MAX_INT);
    assert HUGE[0] == '1' && HUGE[1] == '/' && HUGE[2..] == digits && HUGE[..1] == "1";
    assert IndexOf(HUGE, '/') == 1;
    AtoiOfDigits(digits);
    assert ReadStep(HUGE) == Some(MAX_INT);
    AtoiOfOne();
    assert IndexOf("1", '-') == 1;
    assert ReadBounds("1", 0, 59) == Ok((1, 1));
    assert ReadAtom(HUGE, 0, 59) == Ok(Span(1, 1, MAX_INT));
  }

  lemma AtoiOfOne()
    ensures Atoi("1") == Some(1)
  {
    assert AllDigits("1") && "1"[..0] == "" && NumberValue("1") == 1;
  }

  lemma {:induction false} WordFirst(w: string, rest: string)
    requires forall i | 0 <= i < |w| :: !IsSpace(w[i])
    requires rest == "" || IsSpace(rest[0])
    ensures WordLen(w + rest) == |w|
  {
    var s := w + rest;
    if w == "" {
      assert s == rest;
    } else {
      assert s[1..] == w[1..] + rest;
      WordFirst(w[1..], rest);
    }
  }

  lemma {:induction false} FieldsFirst(w: string, rest: string)
    requires w != "" && forall i | 0 <= i < |w| :: !IsSpace(w[i])
    requires rest == "" || IsSpace(rest[0])
    ensures Fields(w + rest) == [w] + Fields(rest)
  {
    WordFirst(w, rest);
    assert (w + rest)[..|w|] == w && (w + rest)[|w|..] == rest;
  }

  lemma {:induction false} StarWords(n: nat)
    ensures Fields(Stars(n)) == seq(n, i => "*")
  {
    if n > 0 {
      StarWords(n - 1);
      FieldsFirst("*", Stars(n - 1));
      assert Stars(n)[1..] == "*" + Stars(n - 1);
    }
  }

  /** That many words `*`, each after a space. */
  function Stars(n: nat): string { if n == 0 then "" else " " + "*" + Stars(n - 1) }

  /** One expression with a valid step stops the parser with an index out of range. */
  lemma {:induction false} HugeStepCrashes()
    ensures var words := Fields(HUGE_CRON);
            |words| == 5 && FirstFieldTrouble(words, 0) == Some(InField("minute", Crash))
  {
    hide Fields, AtomTrouble, Decimal;
    assert " * * * *" == Stars(4);
    assert forall i | 0 <= i < |HUGE| :: !IsSpace(HUGE[i]) && HUGE[i] != ',' by {
      assert forall i | 0 <= i < |Decimal(MAX_INT)| :: IsDigit(Decimal(MAX_INT)[i]);
    }
    FieldsFirst(HUGE, Stars(4));
    StarWords(4);
    var words := Fields(HUGE_CRON);
    assert words[0] == HUGE;
    SplitNoSeparator(HUGE, ',');
    HugeAtom();
  }
}
