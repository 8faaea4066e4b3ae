/** What the printer does not write and the parser still reads: spaces and comments between the
    words of a script, and LET with the word DEFAULT. Statements end at the first semicolon outside
    literals and parentheses. */
module ScriptGaps {
  import opened Scanner
  import opened Text
  import opened Script
  import opened ScriptPrinting
  import opened ScriptRoundTrip
  import opened ScriptWhole

  // ------------------------------------------------------------- gaps

  /** A line comment from i up to and including its newline. */
  predicate Comment(s: string, i: nat, k: nat) {
    i + 2 < k <= |s| && s[i] == '-' && s[i + 1] == '-' && s[k - 1] == '\n' && forall n :: i + 2 <= n < k - 1 ==> s[n] != '\n'
  }

  /** Spaces and line comments, one after the other. */
  predicate Gap(s: string, i: nat, k: nat)
    requires k <= |s|
    decreases k - i
  {
    i == k || (i < k && ((IsSpace(s[i]) && Gap(s, i + 1, k)) || exists m :: i < m <= k && Comment(s, i, m) && Gap(s, m, k)))
  }

  lemma {:induction false} LineHere(s: string, i: nat, k: nat)
    requires i < k <= |s| && s[k - 1] == '\n' && forall n :: i <= n < k - 1 ==> s[n] != '\n'
    ensures LineEnd(s, i) == k
    decreases k - i
  {
    if i < k - 1 { LineHere(s, i + 1, k); }
  }

  lemma {:induction false} GapSkipped(s: string, i: nat, k: nat)
    requires i <= k <= |s| && Gap(s, i, k)
    ensures SkipFrom(s, i) == SkipFrom(s, k)
    decreases k - i
  {
    if i < k {
      if IsSpace(s[i]) && Gap(s, i + 1, k) {
        GapSkipped(s, i + 1, k);
      } else {
        var m :| i < m <= k && Comment(s, i, m) && Gap(s, m, k);
        LineHere(s, i + 2, m);
        GapSkipped(s, m, k);
      }
    }
  }

  lemma WordAfterGap(s: string, i: nat, k: nat, kw: string)
    requires i <= k <= |s| && Gap(s, i, k)
    ensures NextWord(s, i, kw) == NextWord(s, k, kw)
    ensures NextWord(s, k, kw) ==> AfterWord(s, i, kw) == AfterWord(s, k, kw)
  {
    GapSkipped(s, i, k);
    hide Gap, SkipFrom, WordAt;
  }

  /** Statements, their ends and the parts of a script read the same after a gap. */
  lemma StatementsAfterGap(s: string, i: nat, k: nat, terminators: seq<string>)
    requires i <= k <= |s| && Gap(s, i, k)
    ensures ParseStatements(s, i, terminators) == ParseStatements(s, k, terminators)
  {
    hide Gap, SkipFrom, FirstWord, ParseStatement;
    GapSkipped(s, i, k);
  }

  lemma EndAfterGap(s: string, i: nat, k: nat, kw: string, st: Stmt, fault: Fault)
    requires i <= k <= |s| && Gap(s, i, k)
    ensures EndBlock(s, i, kw, st, fault) == EndBlock(s, k, kw, st, fault)
  {
    hide Gap, NextWord, AfterWord, AfterSemicolon;
    WordAfterGap(s, i, k, "END");
  }

  lemma DeclarationsAfterGap(s: string, i: nat, k: nat)
    requires i <= k <= |s| && Gap(s, i, k)
    ensures ParseDeclarations(s, i) == ParseDeclarations(s, k)
  {
    hide Gap, SkipFrom, NextWord, ParseDeclaration;
    GapSkipped(s, i, k);
  }

  lemma BodyAfterGap(s: string, i: nat, k: nat, ds: seq<Declaration>)
    requires i <= k <= |s| && Gap(s, i, k)
    ensures ParseBody(s, i, ds) == ParseBody(s, k, ds)
  {
    hide Gap, NextWord, AfterWord, ParseStatements, ParseHandler, EndScript;
    WordAfterGap(s, i, k, "BEGIN");
  }

  // ------------------------------------------------------------- statements with gaps between them

  /** From i to e stand the printed statements, each after a gap of its own, and then a gap. */
  predicate Spread(s: string, i: nat, ss: Stmts, e: nat)
    requires e <= |s|
    decreases ss
  {
    match ss
    case Done => i <= e && Gap(s, i, e)
    case Then(st, rest) =>
      exists k :: i <= k <= e && Gap(s, i, k) && Edge(s, k) && Holds(s, k, PrintStmt(st)) && k + |PrintStmt(st)| <= e
                  && Spread(s, k + |PrintStmt(st)|, rest, e)
  }

  /** Whatever spaces and comments stand between them, printed statements are read back up to the
      word that ends their list. */
  lemma {:induction false} SpreadRound(s: string, i: nat, ss: Stmts, words: seq<string>, w: nat, e: nat)
    requires FitsStmts(ss) && e < |s| && Spread(s, i, ss, e) && w < |words| && Closes(s, e, words[w])
    requires forall j :: 0 <= j < |words| ==> Terminator(words[j])
    requires forall j :: 0 <= j < w ==> words[j] != words[w]
    ensures i <= e && ParseStatements(s, i, words) == Ok(List(ss, words[w]), e)
    decreases ss
  {
    match ss
    case Done =>
      StatementsAfterGap(s, i, e, words);
      SpreadEnd(s, words, w, e);
    case Then(st, rest) =>
      var k :| i <= k <= e && Gap(s, i, k) && Edge(s, k) && Holds(s, k, PrintStmt(st)) && k + |PrintStmt(st)| <= e
               && Spread(s, k + |PrintStmt(st)|, rest, e);
      hide WordAt, ParseStatement, ParseStatements, PrintStmt, Opens, Gap, FitsStmt, Closes, Spread;
      StmtRound(s, k, st);
      SpreadRound(s, k + |PrintStmt(st)|, rest, words, w, e);
      StatementsAfterGap(s, i, k, words);
      SpreadStep(s, k, words, st, k + |PrintStmt(st)|);
  }

  lemma SpreadEnd(s: string, words: seq<string>, w: nat, e: nat)
    requires w < |words| && Closes(s, e, words[w])
    requires forall j :: 0 <= j < |words| ==> Terminator(words[j])
    requires forall j :: 0 <= j < w ==> words[j] != words[w]
    ensures ParseStatements(s, e, words) == Ok(List(Done, words[w]), e)
  {
    FirstWordAt(s, e, words, w);
    hide WordAt;
  }

  lemma SpreadStep(s: string, k: nat, words: seq<string>, st: Stmt, a: nat)
    requires Opens(s, k) && k < a <= |s| && ParseStatement(s, k) == Ok(st, a) && ParseStatements(s, a, words).Ok?
    requires forall j :: 0 <= j < |words| ==> Terminator(words[j])
    ensures var r := ParseStatements(s, a, words);
            ParseStatements(s, k, words) == Ok(List(Then(st, r.value.stmts), r.value.terminator), r.pos)
  {
    NoFirstWord(s, k, words);
    assert SkipFrom(s, k) == k;
    hide WordAt, ParseStatement;
  }

  // ------------------------------------------------------------- where a statement ends

  /** Outside literals and parentheses, counted from i. */
  predicate TopLevel(s: string, i: nat, k: nat)
    requires i <= k <= |s|
  {
    DepthTo(s[i..], k - i) == (0, false)
  }

  /** A statement runs up to the first semicolon outside literals and parentheses. */
  lemma SemicolonIsFirst(s: string, i: nat, j: nat)
    requires i <= j <= |s|
    ensures UntilSemicolon(s, i, 0, false) == j <==>
            (j < |s| ==> s[j] == ';' && TopLevel(s, i, j)) && forall k :: i <= k < j && TopLevel(s, i, k) ==> s[k] != ';'
  {
    SemicolonFrom(s, i, i, 0, false);
  }

  /** The scan has come to position p. */
  lemma {:induction false} SemicolonFrom(s: string, i: nat, p: nat, depth: int, quoted: bool)
    requires i <= p <= |s| && DepthTo(s[i..], p - i) == (depth, quoted)
    ensures var e := UntilSemicolon(s, p, depth, quoted);
            && (e < |s| ==> s[e] == ';' && TopLevel(s, i, e)) && forall k :: p <= k < e && TopLevel(s, i, k) ==> s[k] != ';'
    decreases |s| - p
  {
    if p < |s| && !(!quoted && s[p] == ';' && depth == 0) {
      var n := Stride(s, p, quoted);
      assert s[i..][p - i] == s[p];
      assert n == 2 ==> s[i..][p + 1 - i] == s[p + 1] == '\'' && DepthTo(s[i..], p + 1 - i).1 == !quoted;
      SemicolonFrom(s, i, p + n, DepthAfter(s, p, depth, quoted), QuotedAfter(s, p, quoted));
    }
  }

  // ------------------------------------------------------------- whole scripts with gaps

  /** Spaces and comments up to the end of the text, where the last comment needs no newline. */
  predicate GapToEnd(s: string, i: nat) {
    i <= |s| && (Gap(s, i, |s|) || exists m :: i <= m < |s| && Gap(s, i, m) && PairAt(s, m, '-', '-') && forall n :: m + 2 <= n < |s| ==> s[n] != '\n')
  }

  lemma {:induction false} LineToEnd(s: string, i: nat)
    requires i <= |s|
    ensures LineEnd(s, i) == |s| <==> forall n :: i <= n < |s| - 1 ==> s[n] != '\n'
    ensures LineEnd(s, i) < |s| || (i < |s| && s[|s| - 1] == '\n' && LineEnd(s, i) == |s|) ==>
            i < LineEnd(s, i) && s[LineEnd(s, i) - 1] == '\n' && forall n :: i <= n < LineEnd(s, i) - 1 ==> s[n] != '\n'
    decreases |s| - i
  {
    if i < |s| && s[i] != '\n' { LineToEnd(s, i + 1); }
  }

  /** One more space or comment before a gap. */
  lemma GapMore(s: string, i: nat, m: nat)
    requires i < m <= |s| && ((m == i + 1 && IsSpace(s[i])) || Comment(s, i, m)) && GapToEnd(s, m)
    ensures GapToEnd(s, i)
  {
    if !Gap(s, m, |s|) {
      var n :| m <= n < |s| && Gap(s, m, n) && PairAt(s, n, '-', '-') && forall k :: n + 2 <= k < |s| ==> s[k] != '\n';
      assert Gap(s, i, n);
    }
  }

  /** The parser reaches the end of the text exactly over such a gap. */
  lemma {:induction false} EndReached(s: string, i: nat)
    requires i <= |s|
    ensures SkipFrom(s, i) == |s| <==> GapToEnd(s, i)
    decreases |s| - i
  {
    if GapToEnd(s, i) { OverGap(s, i); }
    if SkipFrom(s, i) == |s| && i < |s| {
      if IsSpace(s[i]) {
        EndReached(s, i + 1);
        GapMore(s, i, i + 1);
      } else {
        var m := LineEnd(s, i + 2);
        LineToEnd(s, i + 2);
        if m < |s| || (i + 2 < |s| && s[|s| - 1] == '\n') {
          assert Comment(s, i, m);
          EndReached(s, m);
          GapMore(s, i, m);
        } else {
          assert Gap(s, i, i);
        }
      }
    }
  }

  lemma OverGap(s: string, i: nat)
    requires GapToEnd(s, i)
    ensures SkipFrom(s, i) == |s|
  {
    if Gap(s, i, |s|) {
      GapSkipped(s, i, |s|);
    } else {
      var m :| i <= m < |s| && Gap(s, i, m) && PairAt(s, m, '-', '-') && forall n :: m + 2 <= n < |s| ==> s[n] != '\n';
      GapSkipped(s, i, m);
      LineToEnd(s, m + 2);
    }
  }

  /** A script of printed statements with gaps anywhere around its words: after END and a semicolon
      it may end in a gap; anything else there is refused. */
  lemma SpreadScript(s: string, i: nat, body: Stmts, a: nat, c: nat)
    requires Trimmed(s) && FitsStmts(body) && i + 5 < a && a + 3 <= c < |s| && s[c] == ';'
    requires Gap(s, 0, i) && Edge(s, i) && Holds(s, i, "BEGIN") && !IdentChar(s[i + 5])
    requires Spread(s, i + 5, body, a) && Edge(s, a) && Holds(s, a, "END") && !IdentChar(s[a + 3]) && Gap(s, a + 3, c)
    ensures ParseScript(s) == if GapToEnd(s, c + 1) then Good(Script([], body, Done)) else Bad(TrailingText)
  {
    hide Gap, Spread, FitsStmts, Edge, Upper, PrintStmt, Trimmed, GapToEnd, ParseStatements, ParseBody, Trim, ParseScript, EndScript;
    EndReached(s, c + 1);
    AtEnd(s, a, c);
    AtBegin(s, i);
    NotDeclare(s, i);
    TrimSame(s);
    SpreadRound(s, i + 5, body, ["EXCEPTION", "END"], 1, a);
    hide Closes, NextWord, AfterWord, SkipFrom, WordAt, Holds;
    BodyIs(s, i, body, a);
    ScriptIs(s, i, body, a);
    EndIs(s, a, c, Script([], body, Done));
  }

  lemma AtBegin(s: string, i: nat)
    requires Edge(s, i) && Holds(s, i, "BEGIN") && i + 5 < |s| && !IdentChar(s[i + 5])
    ensures SkipFrom(s, i) == i && WordAt(s, i, "BEGIN") && NextWord(s, i, "BEGIN") && AfterWord(s, i, "BEGIN") == i + 5
  {
    OuterKeywords();
    KeywordHere(s, i, "BEGIN");
  }

  lemma AtEnd(s: string, a: nat, c: nat)
    requires Edge(s, a) && Holds(s, a, "END") && a + 3 <= c < |s| && !IdentChar(s[a + 3]) && Gap(s, a + 3, c) && s[c] == ';'
    ensures Closes(s, a, "END") && NextWord(s, a, "END") && AfterWord(s, a, "END") == a + 3 && AfterSemicolon(s, a + 3) == c + 1
  {
    Keywords();
    KeywordHere(s, a, "END");
    GapSkipped(s, a + 3, c);
    assert SkipFrom(s, c) == c;
  }

  lemma NotDeclare(s: string, i: nat)
    requires i <= |s| && Gap(s, 0, i) && SkipFrom(s, i) == i && WordAt(s, i, "BEGIN")
    ensures SkipFrom(s, 0) == i && !NextWord(s, i, "DECLARE")
  {
    GapSkipped(s, 0, i);
    OuterKeywords();
    OneKeyword(s, i, "BEGIN", "DECLARE");
  }

  lemma ScriptIs(s: string, i: nat, body: Stmts, a: nat)
    requires i <= |s| && Trim(s) == s && SkipFrom(s, 0) == i && !NextWord(s, i, "DECLARE")
    ensures ParseScript(s) == ParseBody(s, i, [])
  {
    hide NextWord, SkipFrom, ParseBody, Trim;
  }

  lemma BodyIs(s: string, i: nat, body: Stmts, a: nat)
    requires i + 5 <= |s| && NextWord(s, i, "BEGIN") && AfterWord(s, i, "BEGIN") == i + 5 && a <= |s| && NextWord(s, a, "END")
    requires ParseStatements(s, i + 5, ["EXCEPTION", "END"]) == Ok(List(body, "END"), a)
    ensures ParseBody(s, i, []) == EndScript(s, a, Script([], body, Done))
  {
    hide NextWord, AfterWord, ParseStatements, EndScript, ParseHandler, SkipFrom;
  }

  lemma EndIs(s: string, a: nat, c: nat, script: Script)
    requires a <= |s| && NextWord(s, a, "END") && AfterWord(s, a, "END") == a + 3 <= |s| && AfterSemicolon(s, a + 3) == c + 1
    ensures EndScript(s, a, script) == if SkipFrom(s, c + 1) == |s| then Good(script) else Bad(TrailingText)
  {
    hide NextWord, AfterWord, AfterSemicolon, SkipFrom;
  }

  // ------------------------------------------------------------- LET with DEFAULT

  /** What follows the word LET, with DEFAULT in the place of ":=". */
  function DefaultBody(n: string, t: string, e: string): string { n + (LetType(t) + DefaultPart(e)) }

  lemma DefaultBodyEnded(n: string, t: string, e: string)
    requires Name(n) && TypeText(t) && Ended(e) && e != ""
    ensures Ended(DefaultBody(n, t, e))
  {
    hide Quiet, WordFree, Upper;
    DefaultQuiet(e);
    if t == "" {
      assert LetType(t) + DefaultPart(e) == DefaultPart(e);
      EndedConcat(n, DefaultPart(e));
    } else {
      assert Name("A") by { AName(); }
      RestQuiet(Declaration("A", t, e));
      EndedConcat(n, " " + t + DefaultPart(e));
    }
  }

  lemma AName()
    ensures Name("A") && "A" != "BEGIN"
  {
    assert Upper("A") == "A";
  }

  /** Before the word DEFAULT no ":=" is found. */
  lemma {:induction false} NoAssignIn(r: string, i: nat, k: nat)
    requires i <= k <= |r| && forall n :: i <= n < k ==> r[n] != ':' && r[n] != '\'' && r[n] != '(' && r[n] != ')'
    ensures TopAssign(r, i, 0, false) == TopAssign(r, k, 0, false)
    decreases k - i
  {
    if i < k { NoAssignIn(r, i + 1, k); }
  }

  lemma DefaultFirst(t: string, e: string, r: string, k: nat)
    requires TypeText(t) && AssignFree(t, 0, false) && e != "" && r == LetType(t) + DefaultPart(e) && k == |LetType(t)|
    ensures k + 9 <= |r| && r[0] == ' ' && TopWord(r, 0, 0, false, "DEFAULT") == k + 1
    ensures TopAssign(r, 0, 0, false) < 0 || TopAssign(r, 0, 0, false) > k + 1
  {
    hide TopAssign, TopWord, AssignFree, TypeText, WordAt;
    assert r[k..] == " DEFAULT " + e;
    DefaultMarks(r, k, e);
    DefaultCut(r, k, r[k..], e);
    assert forall n :: k <= n < k + 9 ==> r[n] != ':' && r[n] != '\'' && r[n] != '(' && r[n] != ')' by { NoSigns(r, k, e); }
    NoAssignIn(r, k, k + 9);
    AssignAfter(r, k + 9);
    if t != "" {
      assert r[1..1 + |t|] == t && r[0] == ' ';
      LetRestScan(r, t);
    }
  }

  lemma NoSigns(r: string, k: nat, e: string)
    requires k + 9 <= |r| && r[k..] == " DEFAULT " + e
    ensures forall n :: k <= n < k + 9 ==> r[n] != ':' && r[n] != '\'' && r[n] != '(' && r[n] != ')'
  {
    var p := " DEFAULT " + e;
    assert forall n :: k <= n < k + 9 ==> r[n] == r[k..][n - k];
  }

  lemma AssignAfter(r: string, i: nat)
    ensures TopAssign(r, i, 0, false) == -1 || TopAssign(r, i, 0, false) >= i
  {
  }

  lemma DefaultRead(text: string, n: string, t: string, e: string)
    requires Name(n) && TypeText(t) && AssignFree(t, 0, false) && Ended(e) && e != "" && Trim(text) == DefaultBody(n, t, e)
    ensures ReadLet(text) == Good(Let(n, t, e))
  {
    hide Trim, Quiet, AssignFree, ReadLet, TopAssign, TopWord, WordFree;
    var r := LetType(t) + DefaultPart(e);
    var k := |LetType(t)|;
    DefaultFirst(t, e, r, k);
    DefaultPieces(t, e, r, k);
    NameRead(n, r, n + r);
    DefaultAssemble(text, n, r, k, t, e);
  }

  lemma DefaultPieces(t: string, e: string, r: string, k: nat)
    requires Trimmed(t) && Trimmed(e) && e != "" && r == LetType(t) + DefaultPart(e) && k == |LetType(t)|
    ensures k + 9 <= |r| && Trim(r[..k + 1]) == t && Trim(r[k + 8..]) == e
  {
    hide Trim;
    assert r[k..] == " DEFAULT " + e;
    DefaultCut(r, k, r[k..], e);
    assert r[..k + 1] == LetType(t) + " ";
    TrimRight(t);
    TrimRight(e);
    if t == "" { assert LetType(t) + " " == t + " "; }
  }

  lemma DefaultAssemble(text: string, n: string, r: string, k: nat, t: string, e: string)
    requires n != "" && Upper(n) == n && Upper(t) == t && e != "" && k + 9 <= |r|
    requires var b := Trim(text); IdentRun(b, 0) == |n| && b[..|n|] == n && b[|n|..] == r
    requires TopAssign(r, 0, 0, false) < 0 || TopAssign(r, 0, 0, false) > k + 1
    requires TopWord(r, 0, 0, false, "DEFAULT") == k + 1 && Trim(r[..k + 1]) == t && Trim(r[k + 8..]) == e
    ensures ReadLet(text) == Good(Let(n, t, e))
  {
    hide Trim, IdentRun, TopAssign, TopWord, Upper;
  }

  /** LET with DEFAULT declares the same variable with the same value, even where its value holds
      a ":=" of its own. */
  lemma LetByDefault(s: string, i: nat, n: string, t: string, e: string)
    requires FitsStmt(Let(n, t, e)) && Edge(s, i) && Holds(s, i, "LET" + (" " + (DefaultBody(n, t, e) + ";")))
    ensures ParseStatement(s, i) == Ok(Let(n, t, e), i + 4 + |DefaultBody(n, t, e)| + 1)
  {
    hide Holds, Quiet, WordFree, AssignFree, WordAt, ReadLet, ParseStatement, DefaultBody, Trim, UntilSemicolon, SkipFrom, AfterWord;
    var body := DefaultBody(n, t, e);
    DefaultBodyEnded(n, t, e);
    WordThenText(s, i, "LET", body);
    Openers(s, i, "LET");
    LetStatement(s, i, i + 4 + |body|);
    DefaultRead(s[i + 3..i + 4 + |body|], n, t, e);
  }

  /** Spaces on either side of the outer parentheses of a condition come off with them. */
  lemma OuterWithSpaces(before: string, left: string, x: string, right: string, after: string)
    requires Trimmed(x) && AllSpace(before, 0, |before|) && AllSpace(left, 0, |left|)
    requires AllSpace(right, 0, |right|) && AllSpace(after, 0, |after|)
    ensures TrimOuter(before + ("(" + (left + x + right) + ")") + after) == x
  {
    var inside := left + x + right;
    var t := "(" + inside + ")";
    assert Trimmed(t) by { assert t[0] == '(' && t[|t| - 1] == ')'; }
    assert t[1..|t| - 1] == inside;
    TrimPadded(before, t, after);
    TrimPadded(left, x, right);
    hide Trim, Trimmed;
  }
}
