/** `~` is documented as a case-insensitive substring test. The code does not
    escape the right operand, so it is one exactly when that operand holds no
    pattern character. */
module FilterLike {
  import opened Text
  import opened FilterMeaning

  predicate IsPatternChar(c: char) { c == '%' || c == '_' || c == '\\' }

  predicate HasPatternChar(v: string) { exists i :: 0 <= i < |v| && IsPatternChar(v[i]) }

  predicate FoldEqual(s: string, t: string) {
    |s| == |t| && forall i | 0 <= i < |s| :: ToLowerChar(s[i]) == ToLowerChar(t[i])
  }

  /** `v` occurs in `s`, letter case aside. */
  ghost predicate ContainsFold(s: string, v: string) {
    exists i :: OccursAt(s, v, i)
  }

  predicate OccursAt(s: string, v: string, i: int) {
    0 <= i <= |s| - |v| && FoldEqual(s[i..i + |v|], v)
  }

  lemma {:induction false} PercentMatches(s: string)
    ensures ILikeMatch(s, "%")
  {
    if s != "" {
      PercentMatches(s[1..]);
    }
    assert "%"[1..] == "";
  }

  /** A leading `%` skips some prefix. */
  lemma {:induction false} PercentSkips(s: string, p: string)
    ensures ILikeMatch(s, "%" + p) <==> exists i :: 0 <= i <= |s| && ILikeMatch(s[i..], p)
    decreases |s|
  {
    var q := "%" + p;
    assert q[1..] == p && s[0..] == s;
    if s != "" {
      PercentSkips(s[1..], p);
      assert forall i :: 0 <= i <= |s[1..]| ==> s[1..][i..] == s[i + 1..];
      if i :| 0 <= i <= |s| && ILikeMatch(s[i..], p) {
        if i > 0 {
          assert ILikeMatch(s[1..][i - 1..], p);
        }
      }
    } else {
      assert forall i :: 0 <= i <= |s| ==> s[i..] == s;
    }
  }

  lemma {:induction false} PlainMatches(s: string, v: string)
    requires !HasPatternChar(v)
    ensures ILikeMatch(s, v + "%") <==> |s| >= |v| && FoldEqual(s[..|v|], v)
    decreases |v|
  {
    if v == "" {
      assert v + "%" == "%";
      PercentMatches(s);
    } else {
      assert !IsPatternChar(v[0]);
      assert (v + "%")[1..] == v[1..] + "%";
      assert !HasPatternChar(v[1..]) by {
        assert forall i | 0 <= i < |v[1..]| :: v[1..][i] == v[i + 1] && !IsPatternChar(v[i + 1]);
      }
      if s != "" {
        PlainMatches(s[1..], v[1..]);
        if |s| >= |v| {
          assert s[1..][..|v[1..]|] == s[..|v|][1..];
          assert FoldEqual(s[..|v|], v) <==>
                 ToLowerChar(s[0]) == ToLowerChar(v[0]) && FoldEqual(s[..|v|][1..], v[1..]) by {
            FoldEqualCons(s[..|v|], v);
          }
        }
      }
    }
  }

  lemma {:induction false} FoldEqualCons(s: string, t: string)
    requires s != "" && t != ""
    ensures FoldEqual(s, t) <==> ToLowerChar(s[0]) == ToLowerChar(t[0]) && FoldEqual(s[1..], t[1..])
  {
    if ToLowerChar(s[0]) == ToLowerChar(t[0]) && FoldEqual(s[1..], t[1..]) {
      forall i | 0 <= i < |s| ensures ToLowerChar(s[i]) == ToLowerChar(t[i]) {
        if i > 0 {
          assert s[i] == s[1..][i - 1] && t[i] == t[1..][i - 1];
        }
      }
    }
  }

  lemma {:induction false} PlainIsSubstring(s: string, v: string)
    requires !HasPatternChar(v)
    ensures ILikeMatch(s, "%" + (v + "%")) <==> ContainsFold(s, v)
  {
    PercentSkips(s, v + "%");
    forall i | 0 <= i <= |s|
      ensures ILikeMatch(s[i..], v + "%") <==> OccursAt(s, v, i)
    {
      PlainMatches(s[i..], v);
      if i <= |s| - |v| {
        assert s[i..][..|v|] == s[i..i + |v|];
      }
    }
  }

  /** A text the pattern accepts although `v` does not occur in it. */
  function Stray(v: string): string
    decreases |v|
  {
    if v == "" then ""
    else if v[0] == '%' then Stray(v[1..])
    else if v[0] == '_' then ['q'] + Stray(v[1..])
    else if v[0] == '\\' then (if |v| == 1 then "%" else [v[1]] + Stray(v[2..]))
    else [v[0]] + Stray(v[1..])
  }

  lemma {:induction false} StrayMatches(v: string)
    ensures ILikeMatch(Stray(v), v + "%")
    decreases |v|
  {
    var p := v + "%";
    if v == "" {
      assert p == "%";
      PercentMatches("");
    } else if v[0] == '\\' {
      if |v| == 1 {
        assert p[2..] == "" && "%"[1..] == "";
      } else {
        assert p[2..] == v[2..] + "%";
        StrayMatches(v[2..]);
      }
    } else {
      assert p[1..] == v[1..] + "%";
      StrayMatches(v[1..]);
    }
  }

  lemma {:induction false} StrayDiffers(v: string)
    ensures |Stray(v)| <= |v|
    ensures HasPatternChar(v) ==> |Stray(v)| < |v| || !FoldEqual(Stray(v), v)
    decreases |v|
  {
    if v != "" {
      if v[0] == '\\' && |v| > 1 {
        StrayDiffers(v[2..]);
      } else {
        StrayDiffers(v[1..]);
        assert HasPatternChar(v) ==> IsPatternChar(v[0]) || HasPatternChar(v[1..]) by {
          if i :| 0 <= i < |v| && IsPatternChar(v[i]) {
            if i > 0 {
              assert v[1..][i - 1] == v[i];
            }
          }
        }
        if |Stray(v)| == |v| && FoldEqual(Stray(v), v) {
          FoldEqualCons(Stray(v), v);
          assert v[0] == '\\' ==> Stray(v) == "%";
          assert v[0] != '\\' && v[0] != '_' && v[0] != '%';
          assert Stray(v)[1..] == Stray(v[1..]);
        }
      }
    }
  }

  /** `~` is the documented substring test on every text exactly when its right
      operand holds none of `%`, `_` and backslash. */
  lemma {:induction false} LikeIsSubstringExactly(v: string)
    ensures (forall s: string :: ILikeMatch(s, "%" + v + "%") <==> ContainsFold(s, v)) <==> !HasPatternChar(v)
  {
    assert "%" + v + "%" == "%" + (v + "%");
    if !HasPatternChar(v) {
      forall s: string ensures ILikeMatch(s, "%" + v + "%") <==> ContainsFold(s, v) {
        PlainIsSubstring(s, v);
      }
    } else {
      var s := Stray(v);
      StrayMatches(v);
      StrayDiffers(v);
      PercentSkips(s, v + "%");
      assert s[0..] == s;
      assert ILikeMatch(s, "%" + v + "%");
      assert |s| == |v| ==> s[0..|v|] == s;
      assert !ContainsFold(s, v);
    }
  }
}
