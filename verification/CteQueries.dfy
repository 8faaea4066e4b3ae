/** Which WITH statements the classifier takes for queries, and the one name that the reader of the
    clause does not understand (pkg/query/contextual_naming.go, pkg/query/classifier.go). */
module CteQueries {
  import opened Cases
  import opened Scanner
  import opened Text
  import opened Lexical
  import opened Classifiers
  import opened Ctes

  // ------------------------------------------------------------- the text in another case

  lemma {:induction false} GapAlike(s: string, u: string, i: nat)
    requires Alike(s, u) && i <= |s|
    ensures GapEnd(u, i) == GapEnd(s, i)
    decreases |s| - i
  {
    if i < |s| {
      NameChars(s[i], u[i]);
      MarksAlike(s, u, i, '-', '-');
      MarksAlike(s, u, i, '/', '*');
      if Blank(s[i]) {
        GapAlike(s, u, i + 1);
      } else if PairAt(s, i, '-', '-') {
        LineAlike(s, u, i + 2);
        hide Alike;
        GapAlike(s, u, LineEnd(s, i + 2));
      } else if PairAt(s, i, '/', '*') {
        CommentAlike(s, u, i + 2, 1);
        hide Alike;
        GapAlike(s, u, CommentEnd(s, i + 2, 1));
      }
    }
  }

  lemma NameAlike(s: string, u: string, i: nat)
    requires Alike(s, u) && i <= |s|
    ensures NameEnd(u, i) == NameEnd(s, i) && Upper(u[i..NameEnd(u, i)]) == Upper(s[i..NameEnd(s, i)])
  {
    if i < |s| {
      NameChars(s[i], u[i]);
      IdentAlike(s, u, i + 1);
    }
    SliceAlike(s, u, i, NameEnd(s, i));
  }

  lemma {:induction false} CloseAlike(s: string, u: string, i: nat, depth: int)
    requires Alike(s, u) && i <= |s|
    ensures CloseAt(u, i, depth) == CloseAt(s, i, depth)
    decreases |s| - i
  {
    if i < |s| {
      RegionAlike(s, u, i);
      CharAlike(s[i], u[i]);
      hide Alike, RegionStarts, SkipNonCode;
      if RegionStarts(s, i) {
        CloseAlike(s, u, SkipNonCode(s, i), depth);
      } else if s[i] == '(' {
        CloseAlike(s, u, i + 1, depth + 1);
      } else if s[i] == ')' {
        if depth != 1 { CloseAlike(s, u, i + 1, depth - 1); }
      } else {
        CloseAlike(s, u, i + 1, depth);
      }
    }
  }

  lemma {:induction false} KeywordAlike(s: string, u: string, i: nat, kw: string)
    requires Alike(s, u) && i <= |s|
    ensures KeywordAt(u, i, kw) == KeywordAt(s, i, kw)
    decreases |s| - i
  {
    if i < |s| {
      RegionAlike(s, u, i);
      NameChars(s[i], u[i]);
      IdentAlike(s, u, i + 1);
      SliceAlike(s, u, i, IdentEnd(s, i + 1));
      hide Alike, RegionStarts, SkipNonCode, Upper, IdentStart, IdentPart;
      if RegionStarts(s, i) {
        KeywordAlike(s, u, SkipNonCode(s, i), kw);
      } else if IdentStart(s[i]) {
        KeywordAlike(s, u, IdentEnd(s, i + 1), kw);
      } else {
        KeywordAlike(s, u, i + 1, kw);
      }
    }
  }

  lemma {:induction false} ReadAlike(s: string, u: string, i: nat, names: set<string>)
    requires Alike(s, u) && i <= |s|
    ensures ReadCtes(u, i, names) == ReadCtes(s, i, names)
    decreases |s| - i, 1
  {
    hide Alike, GapEnd, NameEnd, CloseAt, Upper, ReadCtes, AfterBody;
    GapAlike(s, u, i);
    var a := GapEnd(s, i);
    NameAlike(s, u, a);
    var b := NameEnd(s, a);
    GapAlike(s, u, b);
    var c := GapEnd(s, b);
    NameAlike(s, u, c);
    var d := NameEnd(s, c);
    GapAlike(s, u, d);
    var j := GapEnd(s, d);
    NoTurn(s, i, names, a, b);
    SameLength(s, u);
    NoTurn(u, i, names, a, b);
    if a < b && Upper(s[c..d]) == "AS" && j < |s| {
      SignAlike(s, u, j, '(');
      if s[j] == '(' {
        Turn(s, i, names, a, b, c, d, j);
        Turn(u, i, names, a, b, c, d, j);
        CloseAlike(s, u, j, 0);
        BodyAlike(s, u, CloseAt(s, j, 0), i, names + {Upper(s[a..b])});
      }
    }
  }

  lemma {:induction false} BodyAlike(s: string, u: string, close: int, i: nat, names: set<string>)
    requires Alike(s, u) && i <= |s| && (close == -1 || (i <= close < |s| && s[close] == u[close] == ')'))
    ensures AfterBody(u, close, i, names) == AfterBody(s, close, i, names)
    decreases |s| - i, 0
  {
    hide GapEnd, ReadCtes;
    BodyRead(s, close, i, names);
    BodyRead(u, close, i, names);
    if close >= 0 {
      GapAlike(s, u, close + 1);
      var next := GapEnd(s, close + 1);
      if next < |s| {
        SignAlike(s, u, next, ',');
        if s[next] == ',' { ReadAlike(s, u, next + 1, names); }
      }
    }
  }

  /** Where the reading of the clause begins, WITH standing at w. */
  function ClauseBegin(s: string, w: nat): nat
    requires w + 4 <= |s|
  {
    var a := GapEnd(s, w + 4);
    var b := NameEnd(s, a);
    if Upper(s[a..b]) == "RECURSIVE" then b else w + 4
  }

  lemma BeginAlike(s: string, u: string, w: nat)
    requires Alike(s, u) && w + 4 <= |s|
    ensures |u| == |s| && ClauseBegin(u, w) == ClauseBegin(s, w) <= |s|
  {
    hide GapEnd, NameEnd, Upper;
    GapAlike(s, u, w + 4);
    NameAlike(s, u, GapEnd(s, w + 4));
  }

  lemma BeginsAt(s: string)
    ensures var w := KeywordAt(s, 0, "WITH");
            CteAliases(s) == if w < 0 then Clause({}, -1) else ReadCtes(s, ClauseBegin(s, w), {})
  {
    hide GapEnd, NameEnd, KeywordAt, ReadCtes, Upper, CteAliases;
    ClauseAt(s, KeywordAt(s, 0, "WITH"));
  }

  lemma ClauseAlike(s: string, u: string)
    requires Alike(s, u)
    ensures CteAliases(u) == CteAliases(s)
  {
    hide Alike, KeywordAt, ReadCtes, CteAliases, ClauseBegin;
    KeywordAlike(s, u, 0, "WITH");
    BeginsAt(s);
    BeginsAt(u);
    var w := KeywordAt(s, 0, "WITH");
    if w >= 0 {
      BeginAlike(s, u, w);
      ReadAlike(s, u, ClauseBegin(s, w), {});
    }
  }

  /** The clause read in the text in upper case is the clause of the text. */
  lemma AliasesUpper(s: string)
    ensures CteAliases(Upper(s)) == CteAliases(s)
  {
    assert Alike(s, Upper(s));
    hide Alike, CteAliases, Upper;
    ClauseAlike(s, Upper(s));
  }

  // ------------------------------------------------------------- which statements are queries

  lemma SuffixStarts(s: string, e: nat, main: string, x: string)
    requires e + |main| == |s| && s[e..] == main
    ensures StartsWith(Upper(s), e, x) <==> StartsWith(Upper(main), 0, x)
  {
    assert Upper(s)[e..] == Upper(main);
    if e + |x| <= |s| { assert Upper(s)[e..e + |x|] == Upper(s)[e..][0..|x|]; }
  }

  lemma WithStarts(s: string, w: string)
    requires Holds(s, 0, w) && Upper(w) == "WITH"
    ensures StartsWith(Upper(s), 0, "WITH")
  {
    assert |Upper(w)| == |w|;
    forall k | 0 <= k < 4
      ensures Upper(s)[k] == "WITH"[k]
    {
      HoldsAt(s, 0, w, k);
      assert Upper(w)[k] == "WITH"[k];
    }
    assert Upper(s)[0..4] == "WITH";
  }

  /** Only a statement that itself begins with WITH is taken for such a query, whatever clauses it
      holds further on. */
  lemma OnlyWithIsQuery(s: string)
    requires StartsWithCteQuery(Upper(s))
    ensures |s| >= 4 && Upper(s[..4]) == "WITH"
  {
    hide CteAliases;
    assert |Upper(s)| == |s|;
    assert Upper(s)[0..4] == "WITH";
    assert Upper(s[..4]) == Upper(s)[0..4];
  }

  /** Whatever spaces and comments lead up to it, and in whatever case it is written: a WITH
      statement is taken for a query exactly when the statement after the clause starts with
      SELECT. */
  lemma QueryIffSelect(sql: string, h: Head, cs: seq<Cte>, main: string)
    requires StatementFits(h, cs, main) && Leading(sql) == PrintStatement(h, cs, main)
    ensures StartsWithCteQuery(Upper(Leading(sql))) <==> StartsWith(Upper(main), 0, "SELECT")
  {
    var s := PrintStatement(h, cs, main);
    assert cs != [] by { hide Fits, HeadFits, MainFits; }
    hide StatementFits, CteAliases, PrintCtes, Names, Upper, PrintHead, Leading, PrintStatement, StartsWith, Holds;
    AliasesExact(h, cs, main);
    StatementParts(s, h, cs, main);
    HeadStarts(s, h, cs, main);
    StartsAfter(s, main, Names(cs));
  }

  lemma StartsAfter(s: string, main: string, names: set<string>)
    requires |main| <= |s| && s[|s| - |main|..] == main && CteAliases(s) == Clause(names, |s| - |main|)
    requires StartsWith(Upper(s), 0, "WITH")
    ensures StartsWithCteQuery(Upper(s)) <==> StartsWith(Upper(main), 0, "SELECT")
  {
    hide CteAliases, Upper, StartsWith;
    AliasesUpper(s);
    SuffixStarts(s, |s| - |main|, main, "SELECT");
  }

  lemma HeadStarts(s: string, h: Head, cs: seq<Cte>, main: string)
    requires StatementFits(h, cs, main) && Holds(s, 0, PrintHead(h))
    ensures StartsWith(Upper(s), 0, "WITH")
  {
    hide Fits, MainFits, Upper, Gap;
    if h.recursive != "" { HoldsSplit(s, 0, h.with_, h.gap + h.recursive); }
    WithStarts(s, h.with_);
  }

  // ------------------------------------------------------------- a table expression named RECURSIVE

  /** The first name is taken for the keyword, and AS for the name: the clause is not understood. */
  lemma NameTaken(s: string, i: nat, c: Cte)
    requires KeywordAt(s, 0, "WITH") == 0 && i == 4 && Fits(c) && Upper(c.name) == "RECURSIVE" && Holds(s, i, PrintCte(c))
    ensures CteAliases(s) == Clause({"AS"}, -1)
  {
    hide *;
    CteLayout(s, i, c);
    var a := i + |c.before|;
    var b := a + |c.name|;
    var d := b + |c.middle|;
    var e := d + |c.as_|;
    var j := e + |c.open|;
    CteName(s, i, c, a, b, d);
    CteAs(s, c, b, d, e, j);
    OpenHere(s, c, e, j);
    TakenRead(s, i, c, a, b, d, e, j);
  }

  lemma OpenHere(s: string, c: Cte, e: nat, j: nat)
    requires Fits(c) && Holds(s, e, c.open) && j == e + |c.open| && Holds(s, j, "(" + c.body + ")")
    ensures e <= |s| && GapEnd(s, e) == j < |s| && s[j] == '('
  {
    BodyHere(s, j, c.body);
    assert Stops(s, j);
    hide Balanced, GapEnd, CloseAt, Gap;
    GapHere(s, e, c.open);
  }

  lemma TakenRead(s: string, i: nat, c: Cte, a: nat, b: nat, d: nat, e: nat, j: nat)
    requires KeywordAt(s, 0, "WITH") == 0 && i == 4 <= a < b <= d <= e <= j < |s|
    requires GapEnd(s, i) == a && NameEnd(s, a) == b && s[a..b] == c.name && Upper(c.name) == "RECURSIVE"
    requires GapEnd(s, b) == d && NameEnd(s, d) == e && Upper(s[d..e]) == "AS" && GapEnd(s, e) == j && s[j] == '('
    ensures CteAliases(s) == Clause({"AS"}, -1)
  {
    hide GapEnd, NameEnd, KeywordAt, Upper, ReadCtes;
    assert CteAliases(s) == ReadCtes(s, b, {});
    hide CteAliases;
    EmptyName(s, j);
    StaysAtParen(s, j);
    assert d < e by { assert |Upper(s[d..e])| == e - d; }
    NoTurn(s, b, {}, d, e);
    assert {} + {Upper(s[d..e])} == {"AS"};
  }

  lemma EmptyName(s: string, j: nat)
    requires j < |s| && s[j] == '('
    ensures NameEnd(s, j) == j && Upper(s[j..j]) != "AS"
  {
    assert s[j..j] == "";
  }

  lemma StaysAtParen(s: string, j: nat)
    requires j < |s| && s[j] == '('
    ensures GapEnd(s, j) == j
  {
  }

  /** Without RECURSIVE, the clause is read rightly exactly when its first name is not that word. */
  lemma ExactIffNotRecursive(h: Head, cs: seq<Cte>, main: string)
    requires ClauseFits(h, cs, main) && h.recursive == ""
    ensures var s := PrintStatement(h, cs, main);
            CteAliases(s) == Clause(Names(cs), |s| - |main|) <==> Upper(cs[0].name) != "RECURSIVE"
    ensures Upper(cs[0].name) == "RECURSIVE" ==> CteAliases(PrintStatement(h, cs, main)) == Clause({"AS"}, -1)
  {
    var s := PrintStatement(h, cs, main);
    if Upper(cs[0].name) != "RECURSIVE" {
      hide ClauseFits, PrintStatement, CteAliases, Upper;
      AliasesExact(h, cs, main);
    } else {
      StatementParts(s, h, cs, main);
      CtesFirst(s, |h.with_|, cs);
      hide Fits, PrintCtes, PrintCte, GapEnd, KeywordAt, Upper, Holds, PrintStatement, MainFits, CteAliases;
      assert |Upper(h.with_)| == |h.with_|;
      WithFound(s, h.with_);
      NameTaken(s, 4, cs[0]);
    }
  }

  /** WITH RECURSIVE AS (SELECT 1) SELECT 1. */
  function NamedRecursive(): Cte { Cte(" ", "RECURSIVE", " ", "AS", " ", "SELECT 1", " ") }

  lemma RecursiveIsNoName()
    ensures var s := "WITH RECURSIVE AS (SELECT 1) SELECT 1";
            && s == PrintStatement(Head("WITH", "", ""), [NamedRecursive()], "SELECT 1")
            && ClauseFits(Head("WITH", "", ""), [NamedRecursive()], "SELECT 1")
            && CteAliases(s) == Clause({"AS"}, -1)
  {
    var h, cs := Head("WITH", "", ""), [NamedRecursive()];
    RecursiveFits();
    RecursivePrinted();
    assert Upper("RECURSIVE") == "RECURSIVE";
    hide ClauseFits, PrintStatement, CteAliases, Upper, Names;
    ExactIffNotRecursive(h, cs, "SELECT 1");
  }

  lemma RecursivePrinted()
    ensures PrintStatement(Head("WITH", "", ""), [NamedRecursive()], "SELECT 1") == "WITH RECURSIVE AS (SELECT 1) SELECT 1"
  {
    OneCte(Head("WITH", "", ""), NamedRecursive(), "SELECT 1");
    hide PrintStatement, PrintCte;
    RecursiveCte();
    assert "WITH" + (" RECURSIVE AS (SELECT 1) " + "SELECT 1") == "WITH RECURSIVE AS (SELECT 1) SELECT 1";
  }

  lemma OneCte(h: Head, c: Cte, main: string)
    requires h.recursive == ""
    ensures PrintStatement(h, [c], main) == h.with_ + (PrintCte(c) + main)
  {
    hide PrintCte;
  }

  lemma RecursiveCte()
    ensures PrintCte(NamedRecursive()) == " RECURSIVE AS (SELECT 1) "
  {
    assert ("(" + "SELECT 1" + ")") + " " == "(SELECT 1) ";
    assert " " + ("AS" + (" " + "(SELECT 1) ")) == " AS (SELECT 1) ";
    assert " " + ("RECURSIVE" + " AS (SELECT 1) ") == " RECURSIVE AS (SELECT 1) ";
  }

  lemma RecursiveFits()
    ensures ClauseFits(Head("WITH", "", ""), [NamedRecursive()], "SELECT 1")
  {
    assert Upper("WITH") == "WITH" && Upper("AS") == "AS";
    assert IsName("RECURSIVE");
    assert Gap("") by { assert "" + "A" == "A"; }
    assert Gap(" ") by { assert " " + "A" == " A" && GapEnd(" A", 1) == 1; }
    SelectBalanced();
    assert GapEnd("SELECT 1", 0) == 0;
    hide GapEnd, Balanced, IsName, Upper;
  }

  lemma SelectBalanced()
    ensures Balanced("SELECT 1")
  {
    var p := "(SELECT 1)";
    assert p == "(" + "SELECT 1" + ")";
    assert CloseAt(p, 9, 1) == 9;
    LettersPassed(p, 1, 9);
  }

  /** Characters that neither begin a region nor are parentheses are passed. */
  lemma {:induction false} LettersPassed(p: string, k: nat, n: nat)
    requires k <= n < |p| && forall i :: k <= i < n ==> IdentStart(p[i]) || '0' <= p[i] <= '9' || p[i] == ' '
    ensures CloseAt(p, k, 1) == CloseAt(p, n, 1)
    decreases n - k
  {
    if k < n { LettersPassed(p, k + 1, n); }
  }
}
