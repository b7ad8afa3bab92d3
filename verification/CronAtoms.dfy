/** internal/jobs/cron_parser.go: what the text of an atom, a field and a whole
    expression means, apart from how it is read. */
module CronAtoms {
  import opened Text
  import opened CronParser

  datatype Range = Star | One(n: nat) | FromTo(lo: nat, hi: nat)

  /** `*`, `n` or `lo-hi`, with `/step` or without. */
  datatype Atom = Atom(range: Range, step: Option<nat>)

  function RangeText(r: Range): string {
    match r
    case Star => "*"
    case One(n) => Decimal(n)
    case FromTo(lo, hi) => Decimal(lo) + ("-" + Decimal(hi))
  }

  function AtomText(a: Atom): string {
    RangeText(a.range) + if a.step == None then "" else "/" + Decimal(a.step.value)
  }

  /** Its numbers are 64 bits wide. */
  predicate Fits(a: Atom) {
    && (a.range.One? ==> a.range.n <= MAX_INT)
    && (a.range.FromTo? ==> a.range.lo <= MAX_INT && a.range.hi <= MAX_INT)
    && (a.step.Some? ==> a.step.value <= MAX_INT)
  }

  function Low(a: Atom, min: int): int {
    match a.range
    case Star => min
    case One(n) => n
    case FromTo(lo, _) => lo
  }

  function High(a: Atom, max: int): int {
    match a.range
    case Star => max
    case One(n) => n
    case FromTo(_, hi) => hi
  }

  function StepOf(a: Atom): nat { if a.step == None then 1 else a.step.value }

  predicate InRange(a: Atom, min: int, max: int) { min <= Low(a, min) <= High(a, max) <= max }

  /** The values an atom stands for: every `step`-th from its low end to its high end, both included. */
  predicate Contains(a: Atom, min: int, max: int, v: int) {
    StepOf(a) > 0 && Low(a, min) <= v <= High(a, max) && (v - Low(a, min)) % StepOf(a) == 0
  }

  ghost predicate AnyContains(atoms: seq<Atom>, min: int, max: int, v: int) {
    exists a :: a in atoms && Contains(a, min, max, v)
  }

  // ---- one atom -------------------------------------------------------------------

  lemma {:induction false} IndexSkips(a: string, rest: string, c: char)
    requires c !in a
    ensures IndexOf(a + rest, c) == |a| + IndexOf(rest, c)
  {
    if a == "" {
      assert a + rest == rest;
    } else {
      assert (a + rest)[1..] == a[1..] + rest;
      IndexSkips(a[1..], rest, c);
    }
  }

  lemma DigitsPlain(s: string)
    requires AllDigits(s)
    ensures '/' !in s && '-' !in s && ',' !in s && ' ' !in s
    ensures forall i | 0 <= i < |s| :: !IsSpace(s[i])
  {
  }

  lemma {:induction false} RangePlain(r: Range)
    ensures RangeText(r) != "" && '/' !in RangeText(r) && ',' !in RangeText(r)
    ensures forall i | 0 <= i < |RangeText(r)| :: !IsSpace(RangeText(r)[i])
  {
    hide Decimal, IsSpace;
    match r
    case Star => assert !IsSpace('*') by { StarIsNoSpace(); }
    case One(n) => DigitsPlain(Decimal(n));
    case FromTo(lo, hi) =>
      DigitsPlain(Decimal(lo));
      DigitsPlain(Decimal(hi));
      assert !IsSpace('-') by { StarIsNoSpace(); }
  }

  lemma StarIsNoSpace()
    ensures IsSpace(' ')
    ensures !IsSpace('*') && !IsSpace('-') && !IsSpace('/') && !IsSpace(',')
  {
  }

  lemma {:induction false} ReadsRange(r: Range, min: int, max: int)
    requires Fits(Atom(r, None))
    ensures ReadBounds(RangeText(r), min, max) == Ok((Low(Atom(r, None), min), High(Atom(r, None), max)))
  {
    hide Decimal, Atoi;
    match r
    case Star =>
    case One(n) =>
      var d := Decimal(n);
      DigitsPlain(d);
      assert d != "*" by { assert IsDigit(d[0]); }
      AtoiOfDigits(d);
    case FromTo(lo, hi) =>
      var l, h := Decimal(lo), Decimal(hi);
      var s := l + ("-" + h);
      DigitsPlain(l);
      IndexSkips(l, "-" + h, '-');
      assert IndexOf("-" + h, '-') == 0;
      assert s[..|l|] == l && s[|l| + 1..] == h;
      assert s != "*" by { assert IsDigit(s[0]); }
      AtoiOfDigits(l);
      AtoiOfDigits(h);
  }

  lemma {:induction false} ReadsStep(a: Atom)
    requires Fits(a)
    ensures var s := AtomText(a);
            && IndexOf(s, '/') == |RangeText(a.range)| && s[..|RangeText(a.range)|] == RangeText(a.range)
            && ReadStep(s) == if StepOf(a) > 0 then Some(StepOf(a)) else None
  {
    hide Decimal, RangeText, Atoi;
    var r := RangeText(a.range);
    RangePlain(a.range);
    if a.step == None {
      IndexSkips(r, "", '/');
    } else {
      var d := Decimal(a.step.value);
      IndexSkips(r, "/" + d, '/');
      assert IndexOf("/" + d, '/') == 0;
      assert (r + ("/" + d))[|r| + 1..] == d;
      AtoiOfDigits(d);
    }
  }

  lemma {:induction false} StepsIff(lo: int, hi: int, step: int, v: int)
    requires step > 0
    ensures InSpan(Span(lo, hi, step), v) <==> lo <= v <= hi && (v - lo) % step == 0
  {
    var s := Span(lo, hi, step);
    if InSpan(s, v) {
      var i: nat :| v == Nth(s, i);
      NthGrows(s, i, i);
      Multiple(i, step);
    }
    if lo <= v <= hi && (v - lo) % step == 0 {
      var i := (v - lo) / step;
      assert v - lo == step * i;
      assert v == Nth(s, i);
    }
  }

  lemma AtLeastOnce(k: int, step: int)
    requires k >= 1 && step > 0
    ensures k * step >= step
  {
  }

  lemma {:induction false} Multiple(i: int, step: int)
    requires step > 0
    ensures i * step % step == 0
  {
    var x := i * step;
    var q, r := x / step, x % step;
    assert (i - q) * step == r;
    if i > q { AtLeastOnce(i - q, step); }
    if i < q { AtLeastOnce(q - i, step); }
  }

  /** A printed atom with a positive step is accepted exactly when its bounds lie
      within the field's and in order, and then stands for exactly its values. */
  lemma {:induction false} AtomExactly(a: Atom, min: int, max: int, v: int)
    requires Fits(a) && StepOf(a) > 0
    ensures ReadAtom(AtomText(a), min, max) ==
            if InRange(a, min, max) then Ok(Span(Low(a, min), High(a, max), StepOf(a))) else Err(OutOfRange)
    ensures AtomHas(AtomText(a), min, max, v) <==> InRange(a, min, max) && Contains(a, min, max, v)
  {
    hide Decimal, RangeText, InSpan, ReadStep, ReadBounds;
    RangePlain(a.range);
    ReadsStep(a);
    ReadsRange(a.range, min, max);
    StepsIff(Low(a, min), High(a, max), StepOf(a), v);
  }

  /** A zero step is refused. */
  lemma {:induction false} ZeroStepRefused(a: Atom, min: int, max: int)
    requires Fits(a) && StepOf(a) == 0
    ensures ReadAtom(AtomText(a), min, max) == Err(BadStep)
  {
    hide Decimal, RangeText, ReadStep, ReadBounds;
    RangePlain(a.range);
    ReadsStep(a);
  }

  // ---- what is refused ---------------------------------------------------------------

  /** An optional sign and digits, within 64 bits. */
  lemma {:induction false} NumbersRead(d: string)
    requires d != "" && AllDigits(d)
    ensures Atoi(d) == Atoi("+" + d) == if NumberValue(d) <= MAX_INT then Some(NumberValue(d)) else None
    ensures Atoi("-" + d) == if NumberValue(d) <= MAX_INT + 1 then Some(-(NumberValue(d) as int)) else None
  {
    assert IsDigit(d[0]);
    assert ("+" + d)[1..] == d && ("-" + d)[1..] == d;
  }

  /** And nothing else. */
  lemma {:induction false} NumbersOnly(s: string)
    requires Atoi(s).Some?
    ensures exists d: string :: d != "" && AllDigits(d) && (s == d || s == "+" + d || s == "-" + d)
  {
    var d := if s[0] == '-' || s[0] == '+' then s[1..] else s;
    assert s == d || s == "+" + d || s == "-" + d;
  }

  /** Why an atom is refused: it is empty, its step is no positive number, a side
      of its range or its value is no number, or its bounds do not lie in order
      within the field's. The first that applies is reported. */
  lemma {:induction false} RefusedFor(atom: string, min: int, max: int)
    ensures var slash := IndexOf(atom, '/');
            var body := atom[..slash];
            var dash := IndexOf(body, '-');
            var badStep := slash < |atom| && !(Atoi(atom[slash + 1..]).Some? && Atoi(atom[slash + 1..]).value > 0);
            var badRange := dash < |body| && (Atoi(body[..dash]) == None || Atoi(body[dash + 1..]) == None);
            var badValue := dash == |body| && Atoi(body) == None;
            && (ReadAtom(atom, min, max) == Err(EmptyAtom) <==> atom == "")
            && (ReadAtom(atom, min, max) == Err(BadStep) <==> atom != "" && badStep)
            && (ReadAtom(atom, min, max) == Err(BadRange) <==> atom != "" && !badStep && body != "*" && badRange)
            && (ReadAtom(atom, min, max) == Err(BadLiteral) <==> atom != "" && !badStep && body != "*" && badValue)
  {
    hide Atoi;
  }

  // ---- a field -----------------------------------------------------------------------

  function AtomTexts(atoms: seq<Atom>): (texts: seq<string>)
    ensures |texts| == |atoms| && forall i | 0 <= i < |texts| :: texts[i] == AtomText(atoms[i])
  {
    if atoms == [] then [] else [AtomText(atoms[0])] + AtomTexts(atoms[1..])
  }

  function FieldText(atoms: seq<Atom>): string
    requires atoms != []
  {
    Join(AtomTexts(atoms), ',')
  }

  predicate ValidAtom(a: Atom, min: int, max: int) {
    Fits(a) && StepOf(a) > 0 && InRange(a, min, max) && Low(a, min) + StepOf(a) <= MAX_INT
  }

  lemma {:induction false} AtomPlain(a: Atom)
    ensures ',' !in AtomText(a) && AtomText(a) != ""
    ensures forall i | 0 <= i < |AtomText(a)| :: !IsSpace(AtomText(a)[i])
  {
    hide Decimal, RangeText, IsSpace;
    RangePlain(a.range);
    StarIsNoSpace();
    if a.step.Some? { DigitsPlain(Decimal(a.step.value)); }
  }

  lemma {:induction false} FieldSplits(atoms: seq<Atom>)
    requires atoms != []
    ensures Split(FieldText(atoms), ',') == AtomTexts(atoms)
  {
    hide AtomText, Split, Join;
    forall p | p in AtomTexts(atoms) ensures ',' !in p {
      var i :| 0 <= i < |atoms| && p == AtomText(atoms[i]);
      AtomPlain(atoms[i]);
    }
    SplitJoin(AtomTexts(atoms), ',');
  }

  lemma {:induction false} NoTroubleIff(atoms: seq<Atom>, min: int, max: int)
    requires forall a | a in atoms :: Fits(a) && StepOf(a) > 0
    ensures FirstTrouble(AtomTexts(atoms), min, max) == None <==> forall a | a in atoms :: ValidAtom(a, min, max)
  {
    hide AtomText, ReadAtom;
    if atoms != [] {
      var rest := atoms[1..];
      assert AtomTexts(atoms)[1..] == AtomTexts(rest);
      AtomExactly(atoms[0], min, max, 0);
      NoTroubleIff(rest, min, max);
      assert forall a :: a in atoms <==> a == atoms[0] || a in rest;
    }
  }

  /** A comma list is accepted exactly when all its atoms are, and contains what one of them contains. */
  lemma {:induction false} FieldExactly(atoms: seq<Atom>, min: int, max: int, v: int)
    requires atoms != [] && forall a | a in atoms :: Fits(a) && StepOf(a) > 0
    ensures var texts := Split(FieldText(atoms), ',');
            && (FirstTrouble(texts, min, max) == None <==> forall a | a in atoms :: ValidAtom(a, min, max))
            && (AnyHas(texts, min, max, v) <==>
                exists a :: a in atoms && InRange(a, min, max) && Contains(a, min, max, v))
  {
    hide AtomText, FieldText, FirstTrouble, AtomHas, Contains, InRange, Fits, ValidAtom;
    FieldSplits(atoms);
    NoTroubleIff(atoms, min, max);
    var texts := AtomTexts(atoms);
    forall i | 0 <= i < |atoms|
      ensures AtomHas(texts[i], min, max, v) <==> InRange(atoms[i], min, max) && Contains(atoms[i], min, max, v)
    {
      AtomExactly(atoms[i], min, max, v);
    }
    if AnyHas(texts, min, max, v) {
      var t :| t in texts && AtomHas(t, min, max, v);
      var i :| 0 <= i < |texts| && texts[i] == t;
      assert atoms[i] in atoms;
    }
    if a :| a in atoms && InRange(a, min, max) && Contains(a, min, max, v) {
      var i :| 0 <= i < |atoms| && atoms[i] == a;
      assert texts[i] in texts;
    }
  }

  // ---- an expression --------------------------------------------------------------------

  ghost predicate Plain(w: string) { w != "" && forall i | 0 <= i < |w| :: !IsSpace(w[i]) }

  lemma {:induction false} FieldPlain(atoms: seq<Atom>)
    requires atoms != []
    ensures Plain(FieldText(atoms))
  {
    hide AtomText, IsSpace;
    AtomPlain(atoms[0]);
    StarIsNoSpace();
    if |atoms| > 1 {
      FieldPlain(atoms[1..]);
      assert AtomTexts(atoms)[1..] == AtomTexts(atoms[1..]);
    }
  }

  lemma NoFields()
    ensures Fields("") == []
  {
  }

  // ---- words -----------------------------------------------------------------------------

  predicate Blank(c: char) { c in " \t\n\r\U{0B}\U{0C}" }

  /** Words with white space around and between them. */
  ghost predicate Apart(words: seq<string>, gaps: seq<string>) {
    && |gaps| == |words| + 1
    && (forall i | 0 <= i < |gaps| :: forall c | c in gaps[i] :: Blank(c))
    && (forall i | 0 <= i < |words| :: words[i] != "" && forall c | c in words[i] :: !Blank(c))
    && (forall i | 0 < i < |words| :: gaps[i] != "")
  }

  function Spread(words: seq<string>, gaps: seq<string>): string
    requires |gaps| == |words| + 1
  {
    if words == [] then gaps[0] else gaps[0] + (words[0] + Spread(words[1..], gaps[1..]))
  }

  lemma BlankIsSpace(c: char)
    ensures Blank(c) <==> IsSpace(c)
  {
  }

  lemma {:induction false} GapSkipped(gap: string, rest: string)
    requires forall c | c in gap :: Blank(c)
    ensures Fields(gap + rest) == Fields(rest)
  {
    hide IsSpace, Blank;
    if gap == "" {
      assert gap + rest == rest;
    } else {
      BlankIsSpace(gap[0]);
      assert (gap + rest)[1..] == gap[1..] + rest;
      GapSkipped(gap[1..], rest);
    }
  }

  lemma {:induction false} SpreadReads(words: seq<string>, gaps: seq<string>)
    requires Apart(words, gaps)
    ensures Fields(Spread(words, gaps)) == words
    ensures gaps[0] != "" ==> IsSpace(Spread(words, gaps)[0])
  {
    hide Fields, IsSpace, Blank;
    if gaps[0] != "" { BlankIsSpace(gaps[0][0]); }
    if words == [] {
      GapSkipped(gaps[0], "");
      assert gaps[0] + "" == gaps[0];
      NoFields();
    } else {
      var w, rest := words[0], Spread(words[1..], gaps[1..]);
      SpreadReads(words[1..], gaps[1..]);
      forall i | 0 <= i < |w| ensures !IsSpace(w[i]) { BlankIsSpace(w[i]); }
      if |words| == 1 { LastGap(gaps[1]); }
      FieldsFirst(w, rest);
      GapSkipped(gaps[0], w + rest);
      assert words == [w] + words[1..];
    }
  }

  lemma LastGap(gap: string)
    requires forall c | c in gap :: Blank(c)
    ensures gap == "" || IsSpace(gap[0])
  {
    hide IsSpace, Blank;
    if gap != "" { BlankIsSpace(gap[0]); }
  }

  lemma {:induction false} WiderGap(words: seq<string>, gaps: seq<string>, c: char)
    requires Apart(words, gaps) && Blank(c)
    ensures var wider := [[c] + gaps[0]] + gaps[1..];
            Apart(words, wider) && Spread(words, wider) == [c] + Spread(words, gaps)
  {
    hide Blank;
    var wider := [[c] + gaps[0]] + gaps[1..];
    assert wider[1..] == gaps[1..];
    assert forall i | 0 < i < |wider| :: wider[i] == gaps[i];
    if words != [] {
      var rest := words[0] + Spread(words[1..], gaps[1..]);
      assert [c] + gaps[0] + rest == [c] + (gaps[0] + rest);
    }
  }

  lemma {:induction false} NextWord(words: seq<string>, gaps: seq<string>, w: string)
    requires Apart(words, gaps) && (words != [] ==> gaps[0] != "") && w != "" && forall c | c in w :: !Blank(c)
    ensures Apart([w] + words, [""] + gaps) && Spread([w] + words, [""] + gaps) == w + Spread(words, gaps)
  {
    hide Blank;
    assert ([w] + words)[1..] == words && ([""] + gaps)[1..] == gaps;
    assert forall i | 0 < i < |gaps| + 1 :: ([""] + gaps)[i] == gaps[i - 1];
    assert forall i | 0 < i < |words| + 1 :: ([w] + words)[i] == words[i - 1];
  }

  lemma {:induction false} FieldsSpread(src: string) returns (gaps: seq<string>)
    ensures Apart(Fields(src), gaps) && src == Spread(Fields(src), gaps)
    ensures src != "" && IsSpace(src[0]) ==> gaps[0] != ""
    decreases |src|
  {
    hide IsSpace, Blank, Apart, Spread;
    if src == "" {
      gaps := [""];
      NothingApart();
    } else if IsSpace(src[0]) {
      BlankIsSpace(src[0]);
      var more := FieldsSpread(src[1..]);
      assert |more| > 0 by { GapsThere(Fields(src[1..]), more); }
      gaps := [[src[0]] + more[0]] + more[1..];
      WiderGap(Fields(src[1..]), more, src[0]);
      assert src == [src[0]] + src[1..];
    } else {
      var n := WordLen(src);
      WordLenIs(src);
      var more := FieldsSpread(src[n..]);
      GapsThere(Fields(src[n..]), more);
      gaps := [""] + more;
      forall c | c in src[..n] ensures !Blank(c) { BlankIsSpace(c); }
      assert Fields(src[n..]) != [] ==> src[n..] != "" && IsSpace(src[n..][0]);
      NextWord(Fields(src[n..]), more, src[..n]);
      assert src == src[..n] + src[n..];
    }
  }

  lemma NothingApart()
    ensures Apart([], [""]) && Spread([], [""]) == ""
  {
  }

  lemma GapsThere(words: seq<string>, gaps: seq<string>)
    requires Apart(words, gaps)
    ensures |gaps| == |words| + 1
  {
  }

  lemma {:induction false} WordLenIs(s: string)
    ensures forall i | 0 <= i < WordLen(s) :: !IsSpace(s[i])
    ensures WordLen(s) == |s| || IsSpace(s[WordLen(s)])
  {
    hide IsSpace;
    if s != "" && !IsSpace(s[0]) { WordLenIs(s[1..]); }
  }

  /** A text has given words if and only if it is a layout of them with white
      space between each two. */
  lemma {:induction false} FieldsExactly(src: string, words: seq<string>)
    ensures Fields(src) == words <==> exists gaps :: Apart(words, gaps) && src == Spread(words, gaps)
  {
    hide Fields, Spread;
    if Fields(src) == words {
      var gaps := FieldsSpread(src);
      assert Apart(words, gaps);
    }
    if gaps :| Apart(words, gaps) && src == Spread(words, gaps) {
      SpreadReads(words, gaps);
    }
  }

  /** The atoms of the five fields. */
  datatype Expr = Expr(minute: seq<Atom>, hour: seq<Atom>, dom: seq<Atom>, mon: seq<Atom>, dow: seq<Atom>)

  predicate ValidField(atoms: seq<Atom>, min: int, max: int) {
    atoms != [] && forall a | a in atoms :: ValidAtom(a, min, max)
  }

  predicate Valid(e: Expr) {
    && ValidField(e.minute, 0, 59) && ValidField(e.hour, 0, 23) && ValidField(e.dom, 1, 31)
    && ValidField(e.mon, 1, 12) && ValidField(e.dow, 0, 6)
  }

  function Words(e: Expr): (words: seq<string>)
    requires Valid(e)
    ensures |words| == 5
  {
    [FieldText(e.minute), FieldText(e.hour), FieldText(e.dom), FieldText(e.mon), FieldText(e.dow)]
  }

  /** White space around five words and between each two. */
  ghost predicate Gaps(gaps: seq<string>) {
    && |gaps| == 6
    && (forall i | 0 <= i < 6 :: forall c | c in gaps[i] :: Blank(c))
    && (forall i | 0 < i < 5 :: gaps[i] != "")
  }

  lemma {:induction false} WordsApart(e: Expr, gaps: seq<string>)
    requires Valid(e) && Gaps(gaps)
    ensures Apart(Words(e), gaps)
  {
    hide Blank, FieldText, ValidAtom;
    FieldApart(e.minute);
    FieldApart(e.hour);
    FieldApart(e.dom);
    FieldApart(e.mon);
    FieldApart(e.dow);
  }

  lemma {:induction false} FieldApart(atoms: seq<Atom>)
    requires atoms != []
    ensures FieldText(atoms) != "" && forall c | c in FieldText(atoms) :: !Blank(c)
  {
    hide Blank, IsSpace, FieldText;
    FieldPlain(atoms);
    forall c | c in FieldText(atoms) ensures !Blank(c) { BlankIsSpace(c); }
  }

  /** A slot for each value of the field, set exactly when some atom contains it. */
  ghost predicate SlotsAre(slots: seq<bool>, atoms: seq<Atom>, min: int, max: int) {
    |slots| == max - min + 1 &&
    forall k | 0 <= k < |slots| :: slots[k] <==> AnyContains(atoms, min, max, min + k)
  }

  lemma {:induction false} FieldSlots(slots: seq<bool>, atoms: seq<Atom>, min: int, max: int)
    requires ValidField(atoms, min, max)
    ensures FirstTrouble(Split(FieldText(atoms), ','), min, max) == None
    ensures Slots(slots, FieldText(atoms), min, max) <==> SlotsAre(slots, atoms, min, max)
  {
    hide FieldText, AnyHas, Contains, FirstTrouble, Split;
    FieldExactly(atoms, min, max, min);
    hide AnyContains;
    var raw := FieldText(atoms);
    forall v | min <= v <= max ensures AnyHas(Split(raw, ','), min, max, v) <==> AnyContains(atoms, min, max, v) {
      FieldHas(atoms, min, max, v);
    }
  }

  lemma {:induction false} FieldHas(atoms: seq<Atom>, min: int, max: int, v: int)
    requires ValidField(atoms, min, max)
    ensures AnyHas(Split(FieldText(atoms), ','), min, max, v) <==> AnyContains(atoms, min, max, v)
  {
    hide FieldText, AnyHas, Contains, FirstTrouble, Split;
    FieldExactly(atoms, min, max, v);
  }

  /** A layout of an expression with valid atoms is accepted, with exactly the slots
      that its atoms stand for. */
  lemma {:induction false} ExprExactly(e: Expr, gaps: seq<string>, s: Schedule)
    requires Valid(e) && Gaps(gaps)
    ensures FirstFieldTrouble(Words(e), 0) == None && Fields(Spread(Words(e), gaps)) == Words(e)
    ensures Compiled(s, Words(e)) <==>
            && SlotsAre(s.minute, e.minute, 0, 59) && SlotsAre(s.hour, e.hour, 0, 23) && SlotsAre(s.dom, e.dom, 1, 31)
            && SlotsAre(s.mon, e.mon, 1, 12) && SlotsAre(s.dow, e.dow, 0, 6)
  {
    hide Fields, FieldText, FirstTrouble, AnyHas, SlotsAre, ValidAtom, Slots, Split, Join, Apart, Spread, Blank;
    FieldSlots(s.minute, e.minute, 0, 59);
    FieldSlots(s.hour, e.hour, 0, 23);
    FieldSlots(s.dom, e.dom, 1, 31);
    FieldSlots(s.mon, e.mon, 1, 12);
    FieldSlots(s.dow, e.dow, 0, 6);
    var words := Words(e);
    assert FirstFieldTrouble(words, 3) == None;
    WordsApart(e, gaps);
    SpreadReads(words, gaps);
  }

  /** The field named in an error is the first troubled one, with its own range. */
  lemma {:induction false} FieldBlamed(words: seq<string>)
    requires |words| == 5
    ensures var minute, hour := FirstTrouble(Split(words[0], ','), 0, 59), FirstTrouble(Split(words[1], ','), 0, 23);
            var dom, mon := FirstTrouble(Split(words[2], ','), 1, 31), FirstTrouble(Split(words[3], ','), 1, 12);
            var dow := FirstTrouble(Split(words[4], ','), 0, 6);
            && (minute.Some? ==> FirstFieldTrouble(words, 0) == Some(InField("minute", minute.value)))
            && (minute == None && hour.Some? ==> FirstFieldTrouble(words, 0) == Some(InField("hour", hour.value)))
            && (minute == hour == None && dom.Some? ==> FirstFieldTrouble(words, 0) == Some(InField("dom", dom.value)))
            && (minute == hour == dom == None && mon.Some? ==>
                FirstFieldTrouble(words, 0) == Some(InField("mon", mon.value)))
            && (minute == hour == dom == mon == None && dow.Some? ==>
                FirstFieldTrouble(words, 0) == Some(InField("dow", dow.value)))
            && (minute == hour == dom == mon == dow == None ==> FirstFieldTrouble(words, 0) == None)
  {
    hide FirstTrouble, Split;
    assert FirstFieldTrouble(words, 5) == None;
    assert FirstFieldTrouble(words, 4) == FirstFieldTrouble(words, 4);
    assert FirstFieldTrouble(words, 2) == FirstFieldTrouble(words, 2);
  }

  /** The trouble of a field is that of its first troubled atom. */
  lemma {:induction false} AtomBlamed(atoms: seq<string>, min: int, max: int, i: nat)
    requires i < |atoms| && AtomTrouble(atoms[i], min, max).Some?
    requires forall j | 0 <= j < i :: AtomTrouble(atoms[j], min, max) == None
    ensures FirstTrouble(atoms, min, max) == AtomTrouble(atoms[i], min, max)
  {
    hide AtomTrouble;
    if i > 0 { AtomBlamed(atoms[1..], min, max, i - 1); }
  }

  lemma {:induction false} OneAtom(slots: seq<bool>, a: Atom, min: int, max: int)
    requires SlotsAre(slots, [a], min, max)
    ensures |slots| == max - min + 1 && forall k | 0 <= k < |slots| :: slots[k] <==> Contains(a, min, max, min + k)
  {
    hide Contains;
    assert a in [a] && forall b | b in [a] :: b == a;
    assert forall v :: AnyContains([a], min, max, v) <==> Contains(a, min, max, v);
  }

  const OFFICE := Expr(
    [Atom(One(0), None)], [Atom(FromTo(9, 17), None)], [Atom(Star, None)], [Atom(Star, None)],
    [Atom(FromTo(1, 5), None)])

  lemma OneText(a: Atom)
    ensures FieldText([a]) == AtomText(a)
  {
    assert AtomTexts([a]) == [AtomText(a)];
  }

  lemma {:induction false} OfficeWords()
    ensures Valid(OFFICE) && Words(OFFICE) == ["0", "9-17", "*", "*", "1-5"]
  {
    hide Decimal, FieldText;
    SmallDecimals();
    assert RangeText(FromTo(9, 17)) == "9-17" && RangeText(FromTo(1, 5)) == "1-5";
    assert forall r: Range :: AtomText(Atom(r, None)) == RangeText(r);
    OneText(Atom(One(0), None));
    OneText(Atom(FromTo(9, 17), None));
    OneText(Atom(Star, None));
    OneText(Atom(FromTo(1, 5), None));
  }

  lemma SmallDecimals()
    ensures Decimal(0) == "0" && Decimal(1) == "1" && Decimal(5) == "5" && Decimal(9) == "9" && Decimal(17) == "17"
  {
  }

  lemma {:induction false} SpreadOn(gap: string, w: string, words: seq<string>, gaps: seq<string>)
    requires |gaps| == |words| + 1
    ensures Spread([w] + words, [gap] + gaps) == gap + (w + Spread(words, gaps))
  {
    assert ([w] + words)[1..] == words && ([gap] + gaps)[1..] == gaps;
  }

  lemma {:induction false} OfficeText()
    ensures var gaps := ["", " ", " ", " ", " ", ""];
            Gaps(gaps) && Spread(["0", "9-17", "*", "*", "1-5"], gaps) == "0 9-17 * * 1-5"
  {
    hide Spread;
    assert Spread([], [""]) == "" by { NothingApart(); }
    SpreadOn(" ", "1-5", [], [""]);
    assert ["1-5"] + [] == ["1-5"] && [" "] + [""] == [" ", ""];
    SpreadOn(" ", "*", ["1-5"], [" ", ""]);
    assert ["*"] + ["1-5"] == ["*", "1-5"] && [" "] + [" ", ""] == [" ", " ", ""];
    SpreadOn(" ", "*", ["*", "1-5"], [" ", " ", ""]);
    assert ["*"] + ["*", "1-5"] == ["*", "*", "1-5"] && [" "] + [" ", " ", ""] == [" ", " ", " ", ""];
    SpreadOn(" ", "9-17", ["*", "*", "1-5"], [" ", " ", " ", ""]);
    assert ["9-17"] + ["*", "*", "1-5"] == ["9-17", "*", "*", "1-5"];
    assert [" "] + [" ", " ", " ", ""] == [" ", " ", " ", " ", ""];
    SpreadOn("", "0", ["9-17", "*", "*", "1-5"], [" ", " ", " ", " ", ""]);
    assert ["0"] + ["9-17", "*", "*", "1-5"] == ["0", "9-17", "*", "*", "1-5"];
    assert [""] + [" ", " ", " ", " ", ""] == ["", " ", " ", " ", " ", ""];
  }

  /** It fires on the hour from 9:00 to 17:00, Monday to Friday. */
  lemma {:induction false} OfficeHours(s: Schedule)
    requires Compiled(s, Fields("0 9-17 * * 1-5"))
    ensures |s.hour| == 24 && forall h | 0 <= h < 24 :: s.hour[h] <==> 9 <= h <= 17
    ensures |s.dow| == 7 && forall d | 0 <= d < 7 :: s.dow[d] <==> 1 <= d <= 5
  {
    hide Fields, Words, SlotsAre, Compiled, Valid;
    OfficeReads(s);
    OneAtom(s.hour, Atom(FromTo(9, 17), None), 0, 23);
    OneAtom(s.dow, Atom(FromTo(1, 5), None), 0, 6);
  }

  lemma {:induction false} OfficeReads(s: Schedule)
    requires Compiled(s, Fields("0 9-17 * * 1-5"))
    ensures SlotsAre(s.hour, OFFICE.hour, 0, 23) && SlotsAre(s.dow, OFFICE.dow, 0, 6)
  {
    hide Fields, Words, SlotsAre, Compiled, Gaps, Spread, Valid;
    OfficeWords();
    OfficeText();
    ExprExactly(OFFICE, ["", " ", " ", " ", " ", ""], s);
  }
}
