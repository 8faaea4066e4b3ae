/** Which names the lexical pass replaces (pkg/query/translator.go): those of the map that are
    called and not qualified, in whatever case they are written. */
module LexicalNames {
  import opened Cases
  import opened Lexical
  import opened Scanner
  import opened Text

  // ------------------------------------------------------------- exactly which names

  predicate Gap(s: string, a: nat, b: nat) {
    a <= b <= |s| && forall k :: a <= k < b ==> s[k] == ' ' || s[k] == '\t' || s[k] == '\n' || s[k] == '\r'
  }

  /** An opening parenthesis follows after blanks. */
  predicate Called(s: string, j: nat) { exists e :: j <= e < |s| && s[e] == '(' && Gap(s, j, e) }

  /** A dot precedes, before blanks. */
  predicate Qualified(s: string, i: nat) { exists d :: 0 <= d < i <= |s| && s[d] == '.' && Gap(s, d + 1, i) }

  lemma {:induction false} CalledIff(s: string, j: nat)
    requires j <= |s|
    ensures CallFollows(s, j) <==> Called(s, j)
    decreases |s| - j
  {
    if j < |s| && Blank(s[j]) {
      CalledIff(s, j + 1);
      if Called(s, j + 1) {
        var e :| j + 1 <= e < |s| && s[e] == '(' && Gap(s, j + 1, e);
        assert Gap(s, j, e);
      }
      if Called(s, j) {
        var e :| j <= e < |s| && s[e] == '(' && Gap(s, j, e);
        assert Gap(s, j + 1, e);
      }
    } else if j < |s| && s[j] == '(' {
      assert Gap(s, j, j);
    }
  }

  lemma {:induction false} QualifiedIff(s: string, i: nat)
    requires i <= |s|
    ensures DotBefore(s[..i]) <==> Qualified(s, i)
    decreases i
  {
    if i > 0 {
      assert s[..i][..i - 1] == s[..i - 1];
      if Blank(s[i - 1]) {
        QualifiedIff(s, i - 1);
        if Qualified(s, i - 1) {
          var d :| 0 <= d < i - 1 && s[d] == '.' && Gap(s, d + 1, i - 1);
          assert Gap(s, d + 1, i);
        }
        if Qualified(s, i) {
          var d :| 0 <= d < i && s[d] == '.' && Gap(s, d + 1, i);
          assert Gap(s, d + 1, i - 1);
        }
      } else if s[i - 1] == '.' {
        assert Gap(s, i, i);
      }
    }
  }

  /** A whole name stands between i and j. */
  predicate WholeName(s: string, i: nat, j: nat) {
    i < j <= |s| && IsName(s[i..j]) && (j < |s| ==> !IdentPart(s[j]))
  }

  lemma WholeNameToken(s: string, i: nat, j: nat)
    requires WholeName(s, i, j)
    ensures KindAt(s, i) == Name && TokenEnd(s, i) == j
  {
    NameTokenSame(s, i, s[i..j]);
  }

  /** A name is replaced exactly when its upper-case spelling is in the map, it is called and it is
      not qualified; and then by what the map has for that spelling, and reported under it. */
  lemma NameReplacedIff(fm: FunctionMap, s: string, i: nat, j: nat, seen: set<string>)
    requires WholeName(s, i, j)
    ensures var name := Upper(s[i..j]);
            var replaced, more := name in fm && Called(s, j) && !Qualified(s, i), RewritesFrom(fm, s, j, seen + {name});
            && Translate(fm, s, i) == (if replaced then fm[name] else s[i..j]) + Translate(fm, s, j)
            && (replaced && name !in seen ==> RewritesFrom(fm, s, i, seen) == [Rewrite(name, Describe(fm[name]))] + more)
            && (!replaced || name in seen ==> RewritesFrom(fm, s, i, seen) == RewritesFrom(fm, s, j, seen))
  {
    WholeNameToken(s, i, j);
    CalledIff(s, j);
    QualifiedIff(s, i);
    hide CallFollows, DotBefore, Called, Qualified, Upper, Describe, KindAt, TokenEnd, WholeName;
  }

  /** Every spelling of every name of the map, called at the beginning of a statement: the
      translation begins with what the map has for the name, and the name is reported. */
  lemma EverySpelling(fm: FunctionMap, k: string, w: string, gap: string, rest: string)
    requires k in fm && IsName(k) && Upper(w) == k && Gap(gap, 0, |gap|)
    ensures var s := w + gap + "(" + rest;
            && fm[k] <= Translate(fm, s, 0) && Reported(RewritesFrom(fm, s, 0, {}), k)
  {
    var s := w + gap + "(" + rest;
    SpelledName(k, w);
    CallText(w, gap, rest);
    var e := |w| + |gap|;
    assert Called(s, |w|) by { assert s[e] == '(' && Gap(s, |w|, e); }
    assert !Qualified(s, 0);
    hide Called, Qualified, Translate, RewritesFrom, Upper, WholeName;
    NameReplacedIff(fm, s, 0, |w|, {});
  }

  lemma SpelledName(k: string, w: string)
    requires IsName(k) && Upper(w) == k
    ensures IsName(w)
  {
    assert |Upper(w)| == |w|;
    forall i | 0 <= i < |w|
      ensures IdentPart(w[i]) && (IdentStart(k[i]) ==> IdentStart(w[i]))
    {
      assert Upper(w)[i] == Up(w[i]);
    }
  }

  lemma CallText(w: string, gap: string, rest: string)
    requires IsName(w) && Gap(gap, 0, |gap|)
    ensures var s := w + gap + "(" + rest; var e := |w| + |gap|;
            WholeName(s, 0, |w|) && s[0..|w|] == w && e < |s| && s[e] == '(' && Gap(s, |w|, e)
  {
    var s := w + gap + "(" + rest;
    assert s[0..|w|] == w;
    forall k | |w| <= k < |w| + |gap|
      ensures s[k] == gap[k - |w|]
    {
    }
  }

  /** The names that are registered are names. */
  lemma RegisteredNames()
    ensures forall k :: k in Registered() ==> IsName(k)
  {
  }

  lemma EveryRegisteredSpelling(k: string, w: string, gap: string, rest: string)
    requires k in Registered() && Upper(w) == k && Gap(gap, 0, |gap|)
    ensures var s := w + gap + "(" + rest;
            && Registered()[k] <= Translate(Registered(), s, 0) && Reported(RewritesFrom(Registered(), s, 0, {}), k)
  {
    RegisteredNames();
    hide *;
    EverySpelling(Registered(), k, w, gap, rest);
  }

  /** A longer name that begins with a registered one is another name. */
  lemma LongerNameKept(fm: FunctionMap, k: string, c: char, rest: string)
    requires k in fm && IsName(k) && (Letter(c) || '0' <= c <= '9' || c == '_' || c == '$') && Upper(k + [c]) !in fm
    ensures var s := k + [c] + "(" + rest;
            && Translate(fm, s, 0) == k + [c] + Translate(fm, s, |k| + 1)
            && RewritesFrom(fm, s, 0, {}) == RewritesFrom(fm, s, |k| + 1, {})
  {
    var w := k + [c];
    assert IsName(w);
    var s := w + "" + "(" + rest;
    assert s == w + "(" + rest;
    CallText(w, "", rest);
    hide Translate, RewritesFrom, Upper, WholeName, IsName, Called, Qualified;
    NameReplacedIff(fm, s, 0, |w|, {});
  }

  /** Without a parenthesis nothing is called. */
  lemma {:induction false} NothingCalled(fm: FunctionMap, s: string, i: nat)
    requires i <= |s| && forall k :: i <= k < |s| ==> s[k] != '('
    ensures Translate(fm, s, i) == s[i..]
    decreases |s| - i
  {
    if i < |s| {
      var e := TokenEnd(s, i);
      CalledIff(s, e);
      hide TokenEnd, KindAt, CallFollows;
      NothingCalled(fm, s, e);
      assert s[i..] == s[i..e] + s[e..];
    }
  }

  lemma OneCharCopied(fm: FunctionMap, s: string, i: nat)
    requires i < |s| && (s[i] == ' ' || s[i] == '(')
    ensures Translate(fm, s, i) == [s[i]] + Translate(fm, s, i + 1)
  {
    assert s[i..i + 1] == [s[i]];
  }

  /** A call in lower case. */
  lemma LowerCaseCall()
    ensures Translate(Registered(), "SELECT iff(a, 1, 0)", 0) == "SELECT IF(a, 1, 0)"
  {
    PreviewPieces();
    OnlyIff();
    hide *;
    CallInSelect(Registered(), "SELECT iff(a, 1, 0)");
    assert "SELECT" + ([' '] + ("IF" + (['('] + "a, 1, 0)"))) == "SELECT IF(a, 1, 0)";
  }

  lemma OnlyIff()
    ensures "SELECT" !in Registered() && "IFF" in Registered() && Registered()["IFF"] == "IF"
  {
  }

  lemma CallInSelect(fm: FunctionMap, s: string)
    requires |s| > 11 && WholeName(s, 0, 6) && WholeName(s, 7, 10) && Upper(s[0..6]) !in fm && Upper(s[7..10]) in fm
    requires s[6] == ' ' && s[10] == '(' && Called(s, 10) && !Qualified(s, 7) && forall k :: 11 <= k < |s| ==> s[k] != '('
    ensures Translate(fm, s, 0) == s[0..6] + ([' '] + (fm[Upper(s[7..10])] + (['('] + s[11..])))
  {
    hide Translate, RewritesFrom, Upper, WholeName, Called, Qualified;
    NameReplacedIff(fm, s, 0, 6, {});
    OneCharCopied(fm, s, 6);
    NameReplacedIff(fm, s, 7, 10, {});
    OneCharCopied(fm, s, 10);
    NothingCalled(fm, s, 11);
  }

  lemma PreviewPieces()
    ensures var s := "SELECT iff(a, 1, 0)";
            && |s| == 19 && WholeName(s, 0, 6) && WholeName(s, 7, 10) && Upper(s[0..6]) == "SELECT" && Upper(s[7..10]) == "IFF"
            && s[0..6] == "SELECT" && s[6] == ' ' && s[10] == '(' && s[11..] == "a, 1, 0)"
            && Called(s, 10) && !Qualified(s, 7) && forall k :: 11 <= k < 19 ==> s[k] != '('
  {
    var s := "SELECT iff(a, 1, 0)";
    assert s[0..6] == "SELECT" && s[7..10] == "iff" && s[11..] == "a, 1, 0)";
    assert Upper("iff") == "IFF" && Upper("SELECT") == "SELECT";
    assert Gap(s, 10, 10);
  }

  // ------------------------------------------------------------- case makes no difference

  lemma {:induction false} CallAlike(s: string, u: string, i: nat)
    requires Alike(s, u) && i <= |s|
    ensures CallFollows(u, i) == CallFollows(s, i)
    decreases |s| - i
  {
    if i < |s| {
      CharAlike(s[i], u[i]);
      NameChars(s[i], u[i]);
      if Blank(s[i]) { CallAlike(s, u, i + 1); }
    }
  }

  lemma {:induction false} DotAlike(p: string, q: string)
    requires Alike(p, q)
    ensures DotBefore(q) == DotBefore(p)
    decreases |p|
  {
    if p != "" {
      var n := |p| - 1;
      CharAlike(p[n], q[n]);
      NameChars(p[n], q[n]);
      DotAlike(p[..n], q[..n]);
    }
  }

  /** The scan sees the same tokens, and replaces the same ones. */
  lemma TokenAlike(fm: FunctionMap, s: string, u: string, i: nat)
    requires Alike(s, u) && i < |s|
    ensures KindAt(u, i) == KindAt(s, i) && TokenEnd(u, i) == TokenEnd(s, i)
    ensures Upper(u[i..TokenEnd(s, i)]) == Upper(s[i..TokenEnd(s, i)]) && Rewrites(fm, u, i) == Rewrites(fm, s, i)
  {
    RegionAlike(s, u, i);
    NameChars(s[i], u[i]);
    IdentAlike(s, u, i + 1);
    hide SkipNonCode, RegionStarts, IdentEnd, CallFollows, DotBefore;
    var e := TokenEnd(s, i);
    SliceAlike(s, u, i, e);
    CallAlike(s, u, e);
    assert s[..i] == s[0..i] && u[..i] == u[0..i];
    SliceAlike(s, u, 0, i);
    DotAlike(s[..i], u[..i]);
  }

  /** Of two texts cut into as many tokens, the same tokens are changed, and changed into the same. */
  predicate SameChanges(a: seq<Token>, b: seq<Token>, c: seq<Token>, d: seq<Token>) {
    |a| == |b| == |c| == |d|
    && forall j :: 0 <= j < |a| ==> (a[j] != b[j] <==> c[j] != d[j]) && (a[j] != b[j] ==> b[j] == d[j])
  }

  lemma {:induction false} ReportsAlike(fm: FunctionMap, s: string, u: string, i: nat, seen: set<string>)
    requires Alike(s, u) && i <= |s|
    ensures RewritesFrom(fm, u, i, seen) == RewritesFrom(fm, s, i, seen)
    decreases |s| - i
  {
    SameLength(s, u);
    if i < |s| {
      TokenAlike(fm, s, u, i);
      var e := TokenEnd(s, i);
      var name := Upper(s[i..e]);
      assert Rewrites(fm, s, i) ==> Replacement(fm, s[i..e]) == Replacement(fm, u[i..e]);
      hide Alike, Rewrites, TokenEnd, Upper, Describe, Replacement, Known;
      ReportsAlike(fm, s, u, e, if Rewrites(fm, s, i) && name !in seen then seen + {name} else seen);
    }
  }

  lemma EmitAlike(fm: FunctionMap, s: string, u: string, i: nat)
    requires Safe(fm) && Alike(s, u) && i < |s|
    ensures TokenEnd(u, i) == TokenEnd(s, i) && KindAt(u, i) == KindAt(s, i) && |u| == |s|
    ensures var x, y, e := s[i..TokenEnd(s, i)], u[i..TokenEnd(s, i)], Emit(fm, s, i);
            (e != x <==> Emit(fm, u, i) != y) && (e != x ==> e == Emit(fm, u, i))
  {
    TokenAlike(fm, s, u, i);
    if Rewrites(fm, s, i) {
      ReplacementFacts(fm, s[i..TokenEnd(s, i)]);
      ReplacementFacts(fm, u[i..TokenEnd(s, i)]);
    }
    hide Alike, Safe, TokenEnd, KindAt, Upper, Rewrites;
  }

  lemma {:induction false} ChangesAlike(fm: FunctionMap, s: string, u: string, i: nat)
    requires Safe(fm) && Alike(s, u) && i <= |s|
    ensures SameChanges(Tokens(s, i), Renamed(fm, s, i), Tokens(u, i), Renamed(fm, u, i))
    decreases |s| - i
  {
    SameLength(s, u);
    hide Alike, Safe, TokenEnd, KindAt, Emit, SameChanges;
    if i < |s| {
      EmitAlike(fm, s, u, i);
      var e, k := TokenEnd(s, i), KindAt(s, i);
      ChangesAlike(fm, s, u, e);
      OneMoreToken(Token(k, s[i..e]), Token(k, Emit(fm, s, i)), Token(k, u[i..e]), Token(k, Emit(fm, u, i)),
                   Tokens(s, e), Renamed(fm, s, e), Tokens(u, e), Renamed(fm, u, e));
    } else {
      assert SameChanges([], [], [], []) by { NoChanges(); }
    }
  }

  lemma NoChanges()
    ensures SameChanges([], [], [], [])
  {
  }

  lemma OneMoreToken(w: Token, x: Token, y: Token, z: Token, a: seq<Token>, b: seq<Token>, c: seq<Token>, d: seq<Token>)
    requires SameChanges(a, b, c, d) && (w != x <==> y != z) && (w != x ==> x == z)
    ensures SameChanges([w] + a, [x] + b, [y] + c, [z] + d)
  {
  }

  /** Two statements that differ only in the case of letters are reported alike, and the same names
      of them are replaced, by the same names. */
  lemma CaseIsIgnored(fm: FunctionMap, s: string, u: string)
    requires Safe(fm) && Upper(s) == Upper(u)
    ensures RewritesFrom(fm, u, 0, {}) == RewritesFrom(fm, s, 0, {})
    ensures SameChanges(Tokens(s, 0), Tokens(Translate(fm, s, 0), 0), Tokens(u, 0), Tokens(Translate(fm, u, 0), 0))
  {
    AlikeIffUpper(s, u);
    hide Alike, Safe, Upper, SameChanges, Tokens, Renamed, Translate, RewritesFrom;
    ReportsAlike(fm, s, u, 0, {});
    ChangesAlike(fm, s, u, 0);
    TranslateCommutes(fm, s, 0, "");
    TranslateCommutes(fm, u, 0, "");
    assert "" + Translate(fm, s, 0) == Translate(fm, s, 0) && "" + Translate(fm, u, 0) == Translate(fm, u, 0);
  }
}
