/** The compiler's text is the text of the compiled expression, so reading it
    back gives that expression. */
module FilterCompiled {
  import opened Text
  import opened FilterAst
  import opened FilterSql
  import opened SqlShow
  import opened FilterMeaning
  import SqlText
  import SqlReadBack

  // ---- names ----------------------------------------------------------------------

  ghost predicate ValidSpec(spec: CollectionSpec) {
    SqlName(spec.name) && forall i | 0 <= i < |spec.fields| :: SqlName(spec.fields[i].name)
  }

  /** Names as the schema builder validates them, here and one hop away. */
  ghost predicate ValidNames(spec: CollectionSpec, ctx: Context) {
    && ValidSpec(spec)
    && (ctx.schema.Some? ==> forall k | k in ctx.schema.value :: ValidSpec(ctx.schema.value[k]))
  }

  lemma {:induction false} FindFieldName(fields: seq<FieldSpec>, name: string)
    requires forall i | 0 <= i < |fields| :: SqlName(fields[i].name)
    ensures FindField(fields, name).Some? ==> SqlName(name)
    ensures FindRelation(fields, name).Some? ==> SqlName(name)
  {
    if fields != [] {
      assert SqlName(fields[0].name);
      FindFieldName(fields[1..], name);
    }
  }

  lemma {:induction false} SystemName(s: string)
    requires IsWord(s) && (forall i | 0 <= i < |s| :: ToLowerChar(s[i]) == s[i]) && s !in SqlText.SQL_KEYWORDS
    ensures SqlName(s)
  {
    LowerIs(s, s);
  }

  lemma {:induction false} SystemNames1()
    ensures SqlName("id") && SqlName("created") && SqlName("updated")
  {
    hide SqlName, ToLower;
    SystemName("id");
    SystemName("created");
    SystemName("updated");
  }

  lemma {:induction false} SystemNames2()
    ensures SqlName("tenant_id") && SqlName("email") && SqlName("verified")
  {
    hide SqlName, ToLower;
    SystemName("tenant_id");
    SystemName("email");
    SystemName("verified");
  }

  lemma {:induction false} SystemNames3()
    ensures SqlName("last_login_at") && SqlName("parent") && SqlName("sort_index")
  {
    hide SqlName, ToLower;
    SystemName("last_login_at");
    SystemName("parent");
    SystemName("sort_index");
  }

  lemma {:induction false} AllowedName(spec: CollectionSpec, name: string)
    requires ValidSpec(spec) && ColumnAllowed(spec, name)
    ensures SqlName(name)
  {
    hide SqlName, Filterable;
    SystemNames1();
    SystemNames2();
    SystemNames3();
    FindFieldName(spec.fields, name);
  }

  // ---- the texts of the fixed parts ---------------------------------------------------

  lemma {:induction false} SpellOne(a: Atom)
    ensures Spell([a]) == SpellAtom(a)
  {
    hide SpellAtom;
    assert Spell([a]) == SpellAtom(a) + Spell([]);
  }

  lemma {:induction false} SpellBlock(a: Atom, b: Atom, c: Atom)
    ensures Spell([a]) == SpellAtom(a) && Spell([a, b]) == SpellAtom(a) + SpellAtom(b)
    ensures Spell([a, b, c]) == SpellAtom(a) + SpellAtom(b) + SpellAtom(c)
  {
    hide Spell, SpellAtom;
    SpellOne(a);
    SpellOne(b);
    SpellOne(c);
    SpellCat([a], [b]);
    SpellCat([a, b], [c]);
    assert [a] + [b] == [a, b] && [a, b] + [c] == [a, b, c];
  }

  lemma {:induction false} SpellWord(w: string)
    ensures Spell(Word(w)) == " " + w + " "
  {
    SpellBlock(Gap, W(w), Gap);
  }

  function MiddleText(e: Expr): string
    requires IsInfix(e)
  {
    match e
    case Either(_, _) => " OR "
    case Both(_, _) => " AND "
    case Cmp(op, _, _) => " " + op + " "
    case Like(negate, _, _) => if negate then " NOT ILIKE ('%' || " else " ILIKE ('%' || "
  }

  function ClosingText(e: Expr): string { if e.Like? then " || '%'))" else ")" }

  lemma {:induction false} ClosingLiterals()
    ensures " " + "||" + " " + ("'%'" + ")" + ")") == " || '%'))"
  {
  }

  lemma {:induction false} LikeClosingSpells()
    ensures Spell(Oper("||") + ([Q("%"), RP] + [RP])) == " || '%'))"
  {
    hide Spell, Oper;
    SpellOper("||");
    SpellBlock(Q("%"), RP, RP);
    assert [Q("%"), RP] + [RP] == [Q("%"), RP, RP];
    SpellCat(Oper("||"), [Q("%"), RP] + [RP]);
    ClosingLiterals();
  }

  lemma {:induction false} MiddleSpells(e: Expr)
    requires IsInfix(e)
    ensures Spell(Middle(e)) == MiddleText(e) && Spell(Closing(e)) == ClosingText(e)
  {
    hide Spell, Word, Oper, LikeAtoms;
    SpellOne(RP);
    match e {
      case Either(_, _) => SpellWord("OR"); assert " " + "OR" + " " == " OR ";
      case Both(_, _) => SpellWord("AND"); assert " " + "AND" + " " == " AND ";
      case Cmp(op, _, _) => SpellOper(op);
      case Like(negate, _, _) => LikeSpells(negate); LikeClosingSpells();
    }
  }

  lemma {:induction false} LikeLiterals()
    ensures " ILIKE " + ("('%'" + " || ") == " ILIKE ('%' || "
    ensures " NOT" + " ILIKE ('%' || " == " NOT ILIKE ('%' || "
  {
  }

  lemma {:induction false} IlikeSpells()
    ensures Spell(Word("ILIKE") + ([LP, Q("%")] + Oper("||"))) == " ILIKE ('%' || "
  {
    hide Spell, Word, Oper;
    SpellWord("ILIKE");
    SpellBlock(LP, Q("%"), RP);
    SpellOper("||");
    SpellCat([LP, Q("%")], Oper("||"));
    SpellCat(Word("ILIKE"), [LP, Q("%")] + Oper("||"));
    LikeLiterals();
  }

  lemma {:induction false} SpellOper(op: string)
    ensures Spell(Oper(op)) == " " + op + " "
  {
    hide Spell;
    SpellBlock(Gap, P(op), Gap);
  }

  lemma {:induction false} LikeSpells(negate: bool)
    ensures Spell(LikeAtoms(negate)) == if negate then " NOT ILIKE ('%' || " else " ILIKE ('%' || "
  {
    hide Spell, Word, Oper;
    IlikeSpells();
    var tail := Word("ILIKE") + ([LP, Q("%")] + Oper("||"));
    if negate {
      SpellBlock(Gap, W("NOT"), Gap);
      SpellCat([Gap, W("NOT")], tail);
      LikeLiterals();
    } else {
      assert [] + tail == tail;
    }
  }

  lemma {:induction false} InfixSpells(e: Expr)
    requires Shaped(e) && IsInfix(e)
    ensures Spell(Atoms(e))
         == "(" + Spell(Atoms(LeftOf(e))) + MiddleText(e) + Spell(Atoms(RightOf(e))) + ClosingText(e)
  {
    hide Spell, Middle, Closing, MiddleText, ClosingText;
    MiddleSpells(e);
    SpellOne(LP);
    SpellFive([LP], Atoms(LeftOf(e)), Middle(e), Atoms(RightOf(e)), Closing(e));
  }

  lemma {:induction false} Assoc5(a: string, b: string, c: string, d: string, e: string)
    ensures a + (b + (c + (d + e))) == a + b + c + d + e
  {
  }

  lemma {:induction false} NullLiterals()
    ensures " IS " + ("NOT " + "NULL)") == " IS NOT NULL)" && " IS " + "NULL)" == " IS NULL)"
  {
  }

  lemma {:induction false} NullAtomsSpell(negate: bool)
    ensures Spell(NullAtoms(negate)) == if negate then " IS NOT NULL)" else " IS NULL)"
  {
    hide Spell, Word;
    IsSpells();
    NullLiterals();
    if negate {
      SpellCat([W("NOT"), Gap], [W("NULL"), RP]);
      SpellCat(Word("IS"), [W("NOT"), Gap] + [W("NULL"), RP]);
    } else {
      assert [] + [W("NULL"), RP] == [W("NULL"), RP];
      SpellCat(Word("IS"), [W("NULL"), RP]);
    }
  }

  lemma {:induction false} IsSpells()
    ensures Spell(Word("IS")) == " IS " && Spell([W("NOT"), Gap]) == "NOT " && Spell([W("NULL"), RP]) == "NULL)"
  {
    hide Spell, Word;
    SpellWord("IS");
    SpellBlock(W("NOT"), Gap, Gap);
    SpellBlock(W("NULL"), RP, RP);
    IsLiterals();
  }

  lemma {:induction false} IsLiterals()
    ensures " " + "IS" + " " == " IS " && "NOT" + " " == "NOT " && "NULL" + ")" == "NULL)"
  {
  }

  lemma {:induction false} NullSpells(e: Expr)
    requires Shaped(e) && e.NullTest?
    ensures Spell(Atoms(e)) == "(" + Spell(Atoms(e.e)) + (if e.negate then " IS NOT NULL)" else " IS NULL)")
  {
    hide Spell, NullAtoms, Atoms;
    NullTestAtoms(e);
    SpellOne(LP);
    NullAtomsSpell(e.negate);
    SpellCat(Atoms(e.e), NullAtoms(e.negate));
    SpellCat([LP], Atoms(e.e) + NullAtoms(e.negate));
    var t := if e.negate then " IS NOT NULL)" else " IS NULL)";
    assert "(" + (Spell(Atoms(e.e)) + t) == "(" + Spell(Atoms(e.e)) + t;
  }

  lemma {:induction false} SpellSeven(a: seq<Atom>, b: seq<Atom>, c: seq<Atom>, d: seq<Atom>, e: seq<Atom>,
          f: seq<Atom>, g: seq<Atom>)
    ensures Spell(a + (b + (c + (d + (e + (f + g))))))
         == Spell(a) + Spell(b) + Spell(c) + Spell(d) + Spell(e) + Spell(f) + Spell(g)
  {
    hide Spell;
    SpellCat(f, g);
    SpellCat(e, f + g);
    SpellCat(d, e + (f + g));
    SpellCat(c, d + (e + (f + g)));
    SpellCat(b, c + (d + (e + (f + g))));
    SpellCat(a, b + (c + (d + (e + (f + g)))));
    Assoc7(Spell(a), Spell(b), Spell(c), Spell(d), Spell(e), Spell(f), Spell(g));
  }

  lemma {:induction false} RangeSpells(e: Expr)
    requires Shaped(e) && e.Range?
    ensures Spell(Atoms(e))
         == "(" + Spell(Atoms(e.e)) + " BETWEEN " + Spell(Atoms(e.lo)) + " AND " + Spell(Atoms(e.hi)) + ")"
  {
    hide Spell, Word, Atoms;
    RangeAtoms(e);
    SpellOne(LP);
    SpellOne(RP);
    SpellWord("BETWEEN");
    SpellWord("AND");
    assert " " + "BETWEEN" + " " == " BETWEEN " && " " + "AND" + " " == " AND ";
    SpellSeven([LP], Atoms(e.e), Word("BETWEEN"), Atoms(e.lo), Word("AND"), Atoms(e.hi), [RP]);
  }

  lemma {:induction false} Assoc7(a: string, b: string, c: string, d: string, e: string, f: string, g: string)
    ensures a + (b + (c + (d + (e + (f + g))))) == a + b + c + d + e + f + g
  {
    Assoc5(c, d, e, f, g);
    assert a + (b + (c + d + e + f + g)) == a + b + c + d + e + f + g;
  }

  lemma {:induction false} OneOfSpells(e: Expr)
    requires Shaped(e) && e.OneOf?
    ensures Spell(Atoms(e)) == "(" + Spell(Atoms(e.e)) + " IN (" + Spell(ItemAtoms(e.items)) + "))"
  {
    hide Spell, Word, Atoms, ItemAtoms;
    OneOfAtoms(e);
    InSpells();
    var a, b := Atoms(e.e), ItemAtoms(e.items);
    assert Word("IN") + [LP] + (b + ([RP] + [RP])) == Word("IN") + ([LP] + (b + ([RP] + [RP])));
    SpellFive([LP], a, Word("IN") + [LP], b, [RP] + [RP]);
  }

  lemma {:induction false} InSpells()
    ensures Spell([LP]) == "(" && Spell([RP] + [RP]) == "))" && Spell(Word("IN") + [LP]) == " IN ("
  {
    hide Spell, Word;
    SpellOne(LP);
    SpellOne(RP);
    SpellCat([RP], [RP]);
    SpellWord("IN");
    SpellCat(Word("IN"), [LP]);
    InLiterals();
  }

  lemma {:induction false} InLiterals()
    ensures " " + "IN" + " " + "(" == " IN (" && ")" + ")" == "))"
  {
  }

  lemma {:induction false} SpellFive(a: seq<Atom>, b: seq<Atom>, c: seq<Atom>, d: seq<Atom>, e: seq<Atom>)
    ensures Spell(a + (b + (c + (d + e)))) == Spell(a) + Spell(b) + Spell(c) + Spell(d) + Spell(e)
  {
    hide Spell;
    SpellCat(d, e);
    SpellCat(c, d + e);
    SpellCat(b, c + (d + e));
    SpellCat(a, b + (c + (d + e)));
    Assoc5(Spell(a), Spell(b), Spell(c), Spell(d), Spell(e));
  }

  lemma {:induction false} QualifiedSpells(e: Expr)
    requires e.QCol?
    ensures Spell(QualifiedAtoms(e)) == e.table + "." + e.name
  {
    SpellBlock(W(e.table), DT, W(e.name));
  }

  function HopTree(related: string, column: string, current: string, rel: string): Expr {
    SqlText.Subquery(SqlText.QCol(related, column), related,
                     SqlText.Cmp("=", SqlText.QCol(related, "id"), SqlText.QCol(current, rel)))
  }

  lemma {:induction false} HopShaped(related: string, column: string, current: string, rel: string)
    requires SqlName(related) && SqlName(column) && SqlName(current) && SqlName(rel)
    ensures Shaped(HopTree(related, column, current, rel))
  {
    hide SqlName;
    SystemNames1();
  }

  lemma {:induction false} CondSpells(e: Expr, related: string, current: string, rel: string)
    requires e.Subquery? && e.cond == SqlText.Cmp("=", SqlText.QCol(related, "id"), SqlText.QCol(current, rel))
    ensures Spell(CondAtoms(e)) == related + "." + "id" + (" = " + (current + "." + rel + ")"))
  {
    hide Spell, QualifiedAtoms, Oper;
    QualifiedSpells(e.cond.l);
    QualifiedSpells(e.cond.r);
    SpellOne(RP);
    SpellOper("=");
    SpellCat(QualifiedAtoms(e.cond.r), [RP]);
    SpellCat(Oper("="), QualifiedAtoms(e.cond.r) + [RP]);
    SpellCat(QualifiedAtoms(e.cond.l), Oper("=") + (QualifiedAtoms(e.cond.r) + [RP]));
    assert " " + "=" + " " == " = ";
  }

  lemma {:induction false} FromSpells(e: Expr)
    requires e.Subquery? && e.cond.Cmp? && e.cond.l.QCol? && e.cond.r.QCol?
    ensures Spell(FromAtoms(e)) == " FROM " + (e.from + (" WHERE " + Spell(CondAtoms(e))))
  {
    hide Spell, CondAtoms, Word;
    SpellWord("FROM");
    SpellWord("WHERE");
    SpellOne(W(e.from));
    SpellCat(Word("WHERE"), CondAtoms(e));
    SpellCat([W(e.from)], Word("WHERE") + CondAtoms(e));
    SpellCat(Word("FROM"), [W(e.from)] + (Word("WHERE") + CondAtoms(e)));
  }

  lemma {:induction false} SubquerySpells(related: string, column: string, current: string, rel: string)
    requires SqlName(related) && SqlName(column) && SqlName(current) && SqlName(rel)
    ensures var e := HopTree(related, column, current, rel);
      Shaped(e) && Spell(Atoms(e)) == SubqueryText(related, column, current, rel)
  {
    hide Spell, SqlName, QualifiedAtoms, FromAtoms, CondAtoms;
    var e := HopTree(related, column, current, rel);
    HopShaped(related, column, current, rel);
    QualifiedSpells(e.sel);
    FromSpells(e);
    CondSpells(e, related, current, rel);
    SpellBlock(LP, W("SELECT"), Gap);
    assert "(" + "SELECT" + " " == "(SELECT ";
    SpellCat(QualifiedAtoms(e.sel), FromAtoms(e));
    SpellCat([LP, W("SELECT"), Gap], QualifiedAtoms(e.sel) + FromAtoms(e));
    SubqueryAssoc(related, column, current, rel);
  }

  lemma {:induction false} SubqueryAssoc(related: string, column: string, current: string, rel: string)
    ensures "(SELECT " + (related + "." + column + (" FROM " + (related + (" WHERE " +
              (related + "." + "id" + (" = " + (current + "." + rel + ")")))))))
         == SubqueryText(related, column, current, rel)
  {
    CondAssoc(related, current, rel);
    var tail := ".id = " + (current + "." + rel + ")");
    Assoc5(" FROM ", related, " WHERE ", related, tail);
    HopAssoc("(SELECT ", related, ".", column, " FROM ", " WHERE ", ".id = ", current, rel, ")");
  }

  lemma {:induction false} CondAssoc(related: string, current: string, rel: string)
    ensures related + "." + "id" + (" = " + (current + "." + rel + ")"))
         == related + (".id = " + (current + "." + rel + ")"))
  {
    assert "." + "id" + " = " == ".id = ";
    var t := current + "." + rel + ")";
    assert related + "." + "id" + (" = " + t) == related + ("." + "id" + " = " + t);
  }

  lemma {:induction false} HopAssoc(a: string, r: string, dot: string, c: string, f: string, w: string, k: string,
          u: string, l: string, z: string)
    ensures a + (r + dot + c + (f + r + w + r + (k + (u + dot + l + z))))
         == a + r + dot + c + f + r + w + r + k + u + dot + l + z
  {
    var t := k + (u + dot + l + z);
    assert t == k + u + dot + l + z;
    assert f + r + w + r + t == f + r + w + r + k + u + dot + l + z;
  }
}
