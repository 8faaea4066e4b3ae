/** The round trip of whole scripts: declarations, body and exception handler. */
module ScriptWhole {
  import opened Text
  import opened Script
  import opened ScriptPrinting
  import opened ScriptRoundTrip

  // ------------------------------------------------------------- declarations

  function DeclarationRest(d: Declaration): string { " " + d.dataType + DefaultPart(d.defaultSql) }

  lemma RestQuiet(d: Declaration)
    requires FitsDeclaration(d)
    ensures var r := DeclarationRest(d); Quiet(r, 0, false, true) && r != "" && r[0] == ' ' && !IsSpace(r[|r| - 1])
  {
    QuietPlain(" ");
    QuietConcat(" ", d.dataType, 0, false, true);
    var t := " " + d.dataType;
    assert t[|t| - 1] == d.dataType[|d.dataType| - 1];
    if d.defaultSql == "" {
      assert t + "" == t;
    } else {
      DefaultQuiet(d.defaultSql);
      QuietConcat(t, DefaultPart(d.defaultSql), 0, false, true);
      LastOf(t, DefaultPart(d.defaultSql));
    }
  }

  lemma DefaultQuiet(x: string)
    requires Ended(x) && x != ""
    ensures var p := DefaultPart(x); Quiet(p, 0, false, true) && p != "" && p[0] == ' ' && !IsSpace(p[|p| - 1])
  {
    hide Quiet;
    QuietPlain(" DEFAULT ");
    QuietConcat(" DEFAULT ", x, 0, false, true);
    LastOf(" DEFAULT ", x);
  }

  lemma DeclarationEnded(d: Declaration)
    requires FitsDeclaration(d)
    ensures Ended(DeclarationBody(d))
  {
    RestQuiet(d);
    EndedConcat(d.name, DeclarationRest(d));
  }

  /** Where DEFAULT is found after the name. */
  lemma DefaultFound(r: string, t: string, x: string)
    requires TypeText(t) && t != "" && r == " " + t + DefaultPart(x)
    ensures TopWord(r, 0, 0, false, "DEFAULT") == if x == "" then -1 else |t| + 2
  {
    hide WordAt, Quiet, WordFree;
    var k := 1 + |t|;
    assert r[1..k] == t && r[0] == ' ';
    OuterKeywords();
    NoWordAtQuote(r, 0, "DEFAULT");
    if x == "" {
      assert |r| == k;
    } else {
      assert r[k..] == " DEFAULT " + x;
      DefaultMarks(r, k, x);
    }
    DefaultOver(r, 1, t, ' ', 0, false);
  }

  lemma DefaultMarks(r: string, k: nat, x: string)
    requires k <= |r| && r[k..] == " DEFAULT " + x
    ensures k + 9 <= |r| && r[k] == ' ' && TopWord(r, k, 0, false, "DEFAULT") == k + 1 && r[k + 8..] == " " + x
  {
    DefaultCut(r, k, r[k..], x);
    OuterKeywords();
    NoWordAtQuote(r, k, "DEFAULT");
    assert WordAt(r, k + 1, "DEFAULT");
  }

  lemma DefaultCut(r: string, k: nat, p: string, x: string)
    requires k <= |r| && p == r[k..] && p == " DEFAULT " + x
    ensures k + 9 <= |r| && r[k] == ' ' && r[k + 8] == ' ' && r[k + 1..k + 8] == "DEFAULT" && r[k + 8..] == " " + x
  {
    assert p[0] == ' ' && p[8] == ' ' && p[1..8] == "DEFAULT";
    assert p[8..] == " " + x;
    assert r[k + 1..k + 8] == p[1..8];
    assert r[k + 8..] == p[8..];
  }

  lemma DeclarationRead(text: string, d: Declaration)
    requires FitsDeclaration(d) && Trim(text) == DeclarationBody(d)
    ensures ReadDeclaration(text) == Good(d)
  {
    var r := DeclarationRest(d);
    NameRead(d.name, r, d.name + r);
    DefaultFound(r, d.dataType, d.defaultSql);
    DeclarationParts(r, d.dataType, d.defaultSql);
    DeclarationAssemble(text, d, r);
  }

  lemma DeclarationParts(r: string, t: string, x: string)
    requires Trimmed(t) && t != "" && Trimmed(x) && r == " " + t + DefaultPart(x)
    ensures x == "" ==> Trim(r) == t
    ensures x != "" ==> |t| + 9 <= |r| && Trim(r[..|t| + 2]) == t && Trim(r[|t| + 9..]) == x
  {
    hide Trim, Trimmed;
    TrimRight(t);
    if x == "" {
      assert r == " " + t;
    } else {
      DefaultParts(r, t, x, DefaultPart(x));
      TrimRight(x);
    }
  }

  lemma DefaultParts(r: string, t: string, x: string, p: string)
    requires r == " " + t + p && p == " DEFAULT " + x
    ensures |t| + 9 <= |r| && r[..|t| + 2] == " " + t + " " && r[|t| + 9..] == " " + x
  {
    assert p[0] == ' ' && p[8..] == " " + x;
    assert r[..|t| + 2] == " " + t + [p[0]];
    assert r[|t| + 9..] == p[8..];
  }

  lemma DeclarationAssemble(text: string, d: Declaration, r: string)
    requires d.name != "" && Upper(d.name) == d.name && d.dataType != "" && Upper(d.dataType) == d.dataType
    requires var b := Trim(text); var n := IdentRun(b, 0); n == |d.name| && b[..n] == d.name && b[n..] == r
    requires TopWord(r, 0, 0, false, "DEFAULT") == if d.defaultSql == "" then -1 else |d.dataType| + 2
    requires d.defaultSql == "" ==> Trim(r) == d.dataType
    requires d.defaultSql != "" ==>
      |d.dataType| + 9 <= |r| && Trim(r[..|d.dataType| + 2]) == d.dataType && Trim(r[|d.dataType| + 9..]) == d.defaultSql
    ensures ReadDeclaration(text) == Good(d)
  {
    hide Trim, IdentRun, TopWord;
  }

  lemma DeclarationRound(s: string, i: nat, d: Declaration, body: string)
    requires FitsDeclaration(d) && body == DeclarationBody(d) && Holds(s, i, body + ";")
    ensures i + |body| < |s| && ParseDeclaration(s, i) == Ok(d, i + |body| + 1)
    ensures Solid(s, i) && !WordAt(s, i, "BEGIN")
  {
    hide WordAt, ReadDeclaration, UntilSemicolon, Quiet, WordFree, Trim;
    DeclarationEnded(d);
    UntilPrinted(s, i, body);
    TrimSame(body);
    DeclarationRead(s[i..i + |body|], d);
    HoldsSplit(s, i, body, ";");
    NameFirst(s, i, d.name, DeclarationRest(d));
  }

  lemma NameFirst(s: string, i: nat, n: string, r: string)
    requires Name(n) && n != "BEGIN" && r != "" && r[0] == ' ' && Holds(s, i, n + r)
    ensures Solid(s, i) && !WordAt(s, i, "BEGIN")
  {
    HoldsSplit(s, i, n, r);
    HoldsAt(s, i, n, 0);
    HoldsAt(s, i + |n|, r, 0);
    OuterKeywords();
    WordHere(s, i, n, "BEGIN");
    if |n| == 5 { assert n[..5] == n; }
  }

  /** The word BEGIN stands at i. */
  predicate Begins(s: string, i: nat) { i < |s| && SkipFrom(s, i) == i && WordAt(s, i, "BEGIN") }

  lemma {:induction false} DeclarationsRound(s: string, i: nat, ds: seq<Declaration>, e: nat)
    requires forall k :: 0 <= k < |ds| ==> FitsDeclaration(ds[k])
    requires Holds(s, i, PrintDeclarations(ds)) && e == i + |PrintDeclarations(ds)|
    requires e + 1 < |s| && s[e] == '\n' && Begins(s, e + 1)
    ensures ParseDeclarations(s, i) == Ok(ds, e + 1)
    decreases |ds|
  {
    hide WordAt, ParseDeclaration, FitsDeclaration, DeclarationBody, ParseDeclarations;
    if ds == [] {
      NoDeclaration(s, i);
    } else {
      var body := DeclarationBody(ds[0]);
      DeclarationText(s, i, body, PrintDeclarations(ds[1..]));
      DeclarationRound(s, i + 1, ds[0], body);
      DeclarationsRound(s, i + 1 + |body| + 1, ds[1..], e);
      DeclarationStep(s, i, ds[0], i + 1 + |body| + 1, ds[1..], e + 1);
      assert [ds[0]] + ds[1..] == ds;
    }
  }

  lemma DeclarationText(s: string, i: nat, body: string, rest: string)
    requires Holds(s, i, "\n" + ((body + ";") + rest))
    ensures i < |s| && s[i] == '\n' && Holds(s, i + 1, body + ";") && Holds(s, i + 1 + |body| + 1, rest)
  {
    HoldsSplit(s, i, "\n", (body + ";") + rest);
    HoldsAt(s, i, "\n", 0);
    HoldsSplit(s, i + 1, body + ";", rest);
  }

  lemma NoDeclaration(s: string, i: nat)
    requires i + 1 < |s| && s[i] == '\n' && Begins(s, i + 1)
    ensures ParseDeclarations(s, i) == Ok([], i + 1)
  {
    hide WordAt, ParseDeclaration;
    assert SkipFrom(s, i) == i + 1;
  }

  lemma DeclarationStep(s: string, i: nat, d: Declaration, k: nat, ds: seq<Declaration>, e: nat)
    requires i + 1 < |s| && s[i] == '\n' && Solid(s, i + 1) && !WordAt(s, i + 1, "BEGIN")
    requires k <= |s| && ParseDeclaration(s, i + 1) == Ok(d, k) && ParseDeclarations(s, k) == Ok(ds, e)
    ensures ParseDeclarations(s, i) == Ok([d] + ds, e)
  {
    hide WordAt, ParseDeclaration;
    assert SkipFrom(s, i + 1) == i + 1;
    assert SkipFrom(s, i) == i + 1;
  }

  // ------------------------------------------------------------- body and handler

  const HANDLER := "EXCEPTION WHEN OTHER THEN"

  lemma ScriptEnd(s: string, i: nat, script: Script)
    requires Holds(s, i, "END;") && i + 4 == |s| && Edge(s, i)
    ensures Closes(s, i, "END") && EndScript(s, i, script) == Good(script)
  {
    assert "END;" == "END" + ";";
    HoldsSplit(s, i, "END", ";");
    HoldsAt(s, i + 3, ";", 0);
    Keywords();
    KeywordHere(s, i, "END");
    EndAt(s, i, script);
  }

  lemma EndAt(s: string, i: nat, script: Script)
    requires i + 4 == |s| && s[i + 3] == ';' && NextWord(s, i, "END") && AfterWord(s, i, "END") == i + 3
    ensures EndScript(s, i, script) == Good(script)
  {
    hide WordAt, NextWord, AfterWord;
    assert SkipFrom(s, i + 3) == i + 3;
    assert SkipFrom(s, |s|) == |s|;
  }

  /** The words of the handler's head, one after the other. */
  lemma HandlerHead(s: string, i: nat)
    requires Holds(s, i, HANDLER) && Edge(s, i) && i + 25 < |s| && s[i + 25] == '\n'
    ensures Closes(s, i, "EXCEPTION") && NextWord(s, i, "EXCEPTION") && AfterWord(s, i, "EXCEPTION") == i + 9
    ensures NextWord(s, i + 9, "WHEN") && AfterWord(s, i + 9, "WHEN") == i + 14
    ensures NextWord(s, i + 14, "OTHER") && AfterWord(s, i + 14, "OTHER") == i + 20
    ensures NextWord(s, i + 20, "THEN") && AfterWord(s, i + 20, "THEN") == i + 25
  {
    HandlerWords(s, i);
    Keywords();
    OuterKeywords();
    KeywordHere(s, i, "EXCEPTION");
    SpacedKeyword(s, i + 9, "WHEN");
    SpacedKeyword(s, i + 14, "OTHER");
    SpacedKeyword(s, i + 20, "THEN");
  }

  lemma HandlerWords(s: string, i: nat)
    requires Holds(s, i, HANDLER)
    ensures Holds(s, i, "EXCEPTION") && s[i + 9] == ' ' && Holds(s, i + 10, "WHEN") && s[i + 14] == ' '
    ensures Holds(s, i + 15, "OTHER") && s[i + 20] == ' ' && Holds(s, i + 21, "THEN")
  {
    hide Holds;
    HandlerWordsAre();
    HoldsSplit(s, i, "EXCEPTION" + (" " + "WHEN"), (" " + "OTHER") + (" " + "THEN"));
    HoldsSplit(s, i, "EXCEPTION", " " + "WHEN");
    SpacedWord(s, i + 9, "WHEN");
    HoldsSplit(s, i + 14, " " + "OTHER", " " + "THEN");
    SpacedWord(s, i + 14, "OTHER");
    SpacedWord(s, i + 20, "THEN");
  }

  lemma HandlerWordsAre()
    ensures HANDLER == ("EXCEPTION" + (" " + "WHEN")) + ((" " + "OTHER") + (" " + "THEN"))
  {
  }

  lemma SpacedWord(s: string, i: nat, kw: string)
    requires Holds(s, i, " " + kw)
    ensures i < |s| && s[i] == ' ' && Holds(s, i + 1, kw)
  {
    HoldsSplit(s, i, " ", kw);
    HoldsAt(s, i, " ", 0);
  }

  lemma SpacedKeyword(s: string, i: nat, kw: string)
    requires Keyword(kw) && i < |s| && s[i] == ' ' && Holds(s, i + 1, kw)
    requires i + 1 + |kw| < |s| && !IdentChar(s[i + 1 + |kw|])
    ensures NextWord(s, i, kw) && AfterWord(s, i, kw) == i + 1 + |kw|
  {
    KeywordHere(s, i + 1, kw);
    SpacedSkip(s, i);
  }

  lemma SpacedSkip(s: string, i: nat)
    requires i < |s| && s[i] == ' '
    ensures SkipFrom(s, i) == SkipFrom(s, i + 1)
  {
  }

  /** What is printed after the statements of the body; `written` says that a handler is. */
  function Rest(handler: Stmts, written: bool): string {
    if written then HANDLER + (PrintStmts(handler) + ("\n" + "END;")) else "END;"
  }

  /** From the handler or END to the end of the script. */
  lemma {:induction false} RestRound(s: string, i: nat, handler: Stmts, written: bool, ds: seq<Declaration>, body: Stmts)
    requires FitsStmts(handler) && (!written ==> handler == Done) && Edge(s, i)
    requires Holds(s, i, Rest(handler, written)) && i + |Rest(handler, written)| == |s|
    ensures Closes(s, i, if written then "EXCEPTION" else "END")
    ensures !written ==> EndScript(s, i, Script(ds, body, handler)) == Good(Script(ds, body, handler))
    ensures written ==> ParseHandler(s, AfterWord(s, i, "EXCEPTION"), ds, body) == Good(Script(ds, body, handler))
  {
    hide WordAt, ParseHandler, EndScript, AfterWord, ParseStatements, SkipFrom, PrintStmts, FitsStmts;
    if written {
      HandlerRound(s, i, handler, ds, body);
    } else {
      ScriptEnd(s, i, Script(ds, body, handler));
    }
  }

  lemma {:induction false} HandlerRound(s: string, i: nat, handler: Stmts, ds: seq<Declaration>, body: Stmts)
    requires FitsStmts(handler) && Edge(s, i)
    requires Holds(s, i, HANDLER + (PrintStmts(handler) + ("\n" + "END;"))) && i + 25 + |PrintStmts(handler)| + 5 == |s|
    ensures Closes(s, i, "EXCEPTION")
    ensures ParseHandler(s, AfterWord(s, i, "EXCEPTION"), ds, body) == Good(Script(ds, body, handler))
  {
    hide WordAt, ParseHandler, EndScript, AfterWord, ParseStatements, SkipFrom, PrintStmts, FitsStmts, Upper;
    var e := i + 25 + |PrintStmts(handler)|;
    HandlerText(s, i, PrintStmts(handler), e);
    NewlineFirst(s, i + 25, handler, e);
    HandlerHead(s, i);
    ScriptEnd(s, e + 1, Script(ds, body, handler));
    ListRound(s, i + 25, handler, ["END"], 0, e);
    hide Holds, Edge;
    HandlerAssemble(s, i, ds, body, handler, e + 1);
  }

  lemma HandlerText(s: string, i: nat, y: string, e: nat)
    requires Holds(s, i, HANDLER + (y + ("\n" + "END;"))) && e == i + 25 + |y|
    ensures Holds(s, i, HANDLER) && Holds(s, i + 25, y) && e < |s| && s[e] == '\n' && Holds(s, e + 1, "END;")
  {
    HoldsSplit(s, i, HANDLER, y + ("\n" + "END;"));
    HoldsSplit(s, i + 25, y, "\n" + "END;");
    HoldsSplit(s, e, "\n", "END;");
    HoldsAt(s, e, "\n", 0);
  }

  lemma HandlerAssemble(s: string, i: nat, ds: seq<Declaration>, body: Stmts, handler: Stmts, e: nat)
    requires i + 25 <= |s| && e <= |s| && NextWord(s, i + 9, "WHEN") && AfterWord(s, i + 9, "WHEN") == i + 14
    requires NextWord(s, i, "EXCEPTION") && AfterWord(s, i, "EXCEPTION") == i + 9
    requires NextWord(s, i + 14, "OTHER") && AfterWord(s, i + 14, "OTHER") == i + 20
    requires NextWord(s, i + 20, "THEN") && AfterWord(s, i + 20, "THEN") == i + 25
    requires ParseStatements(s, i + 25, ["END"]) == Ok(List(handler, "END"), e) && NextWord(s, e, "END")
    requires EndScript(s, e, Script(ds, body, handler)) == Good(Script(ds, body, handler))
    ensures ParseHandler(s, AfterWord(s, i, "EXCEPTION"), ds, body) == Good(Script(ds, body, handler))
  {
    hide WordAt, NextWord, AfterWord, ParseStatements, EndScript, SkipFrom;
  }

  lemma {:induction false} BodyRound(s: string, i: nat, ds: seq<Declaration>, body: Stmts, handler: Stmts, written: bool)
    requires FitsStmts(body) && FitsStmts(handler) && (!written ==> handler == Done) && Edge(s, i)
    requires Holds(s, i, "BEGIN" + (PrintStmts(body) + ("\n" + Rest(handler, written))))
    requires i + 5 + |PrintStmts(body)| + 1 + |Rest(handler, written)| == |s|
    ensures Begins(s, i) && ParseBody(s, i, ds) == Good(Script(ds, body, handler))
  {
    hide WordAt, PrintStmts, Rest, ParseBody, ParseHandler, EndScript, ParseStatements, SkipFrom, AfterWord;
    var e := i + 5 + |PrintStmts(body)|;
    BodyText(s, i, PrintStmts(body), Rest(handler, written), e);
    NewlineFirst(s, i + 5, body, e);
    OuterKeywords();
    KeywordHere(s, i, "BEGIN");
    RestRound(s, e + 1, handler, written, ds, body);
    ListRound(s, i + 5, body, ["EXCEPTION", "END"], if written then 0 else 1, e);
    BodyAssemble(s, i, ds, body, handler, written, e + 1);
  }

  lemma BodyText(s: string, i: nat, y: string, rest: string, e: nat)
    requires Holds(s, i, "BEGIN" + (y + ("\n" + rest))) && e == i + 5 + |y|
    ensures Holds(s, i, "BEGIN") && Holds(s, i + 5, y) && e < |s| && s[e] == '\n' && Holds(s, e + 1, rest)
  {
    HoldsSplit(s, i, "BEGIN", y + ("\n" + rest));
    HoldsSplit(s, i + 5, y, "\n" + rest);
    HoldsSplit(s, e, "\n", rest);
    HoldsAt(s, e, "\n", 0);
  }

  lemma BodyAssemble(s: string, i: nat, ds: seq<Declaration>, body: Stmts, handler: Stmts, written: bool, e: nat)
    requires i + 5 <= |s| && e < |s| && NextWord(s, i, "BEGIN") && AfterWord(s, i, "BEGIN") == i + 5
    requires ParseStatements(s, i + 5, ["EXCEPTION", "END"]) == Ok(List(body, if written then "EXCEPTION" else "END"), e)
    requires Closes(s, e, if written then "EXCEPTION" else "END")
    requires !written ==> handler == Done && EndScript(s, e, Script(ds, body, handler)) == Good(Script(ds, body, handler))
    requires written ==> ParseHandler(s, AfterWord(s, e, "EXCEPTION"), ds, body) == Good(Script(ds, body, handler))
    ensures ParseBody(s, i, ds) == Good(Script(ds, body, handler))
  {
    hide WordAt, AfterWord, ParseStatements, EndScript, ParseHandler, SkipFrom;
  }

  // ------------------------------------------------------------- scripts

  function Head(ds: seq<Declaration>): string {
    if ds == [] then "" else "DECLARE" + (PrintDeclarations(ds) + "\n")
  }

  /** A script text: the declarations, the body and, when `written`, an exception handler. */
  function Whole(ds: seq<Declaration>, body: Stmts, handler: Stmts, written: bool): string {
    Head(ds) + ("BEGIN" + (PrintStmts(body) + ("\n" + Rest(handler, written))))
  }

  lemma {:induction false} TextRound(ds: seq<Declaration>, body: Stmts, handler: Stmts, written: bool)
    requires FitsScript(Script(ds, body, handler)) && (!written ==> handler == Done)
    ensures ParseScript(Whole(ds, body, handler, written)) == Good(Script(ds, body, handler))
  {
    hide PrintStmts, PrintDeclarations, Rest, Head, ParseBody, WordAt, SkipFrom, Trim, ParseScript;
    var s := Whole(ds, body, handler, written);
    var main := "BEGIN" + (PrintStmts(body) + ("\n" + Rest(handler, written)));
    var i := |Head(ds)|;
    assert Holds(s, i, main) by { assert s[i..] == main; }
    TextEdges(ds, body, handler, written);
    HeadEdge(s, ds, main);
    BodyRound(s, i, ds, body, handler, written);
    TrimSame(s);
    HeadRound(s, ds, main, i);
  }

  lemma TextEdges(ds: seq<Declaration>, body: Stmts, handler: Stmts, written: bool)
    ensures Trimmed(Whole(ds, body, handler, written))
  {
    var r := Rest(handler, written);
    assert r != "" && r[|r| - 1] == ';' by {
      if written {
        LastOf("\n", "END;");
        LastOf(PrintStmts(handler), "\n" + "END;");
        LastOf(HANDLER, PrintStmts(handler) + ("\n" + "END;"));
      }
    }
    EndsWith(Head(ds), PrintStmts(body), r);
    var s := Whole(ds, body, handler, written);
    assert s[0] == if ds == [] then 'B' else 'D';
  }

  lemma EndsWith(h: string, y: string, r: string)
    requires r != ""
    ensures var s := h + ("BEGIN" + (y + ("\n" + r))); s != "" && s[|s| - 1] == r[|r| - 1]
  {
    LastOf("\n", r);
    LastOf(y, "\n" + r);
    LastOf("BEGIN", y + ("\n" + r));
    LastOf(h, "BEGIN" + (y + ("\n" + r)));
  }

  lemma HeadEdge(s: string, ds: seq<Declaration>, main: string)
    requires s == Head(ds) + main
    ensures Edge(s, |Head(ds)|)
  {
    if ds != [] {
      var h := Head(ds);
      LastOf(PrintDeclarations(ds), "\n");
      LastOf("DECLARE", PrintDeclarations(ds) + "\n");
      assert s[|h| - 1] == h[|h| - 1];
    }
  }

  lemma HeadRound(s: string, ds: seq<Declaration>, main: string, i: nat)
    requires forall k :: 0 <= k < |ds| ==> FitsDeclaration(ds[k])
    requires s == Head(ds) + main && i == |Head(ds)| && Trim(s) == s && Begins(s, i)
    ensures ParseScript(s) == ParseBody(s, i, ds)
  {
    hide FitsDeclaration, ParseBody, WordAt, Trim, SkipFrom, PrintDeclarations, ParseScript, ParseDeclarations, NextWord, AfterWord;
    if ds == [] {
      NoDeclare(s);
    } else {
      var p := PrintDeclarations(ds);
      var e := 7 + |p|;
      DeclareText(s, p, main, e);
      DeclarationsNewline(s, 7, ds, e);
      DeclareHere(s);
      DeclarationsRound(s, 7, ds, e);
      DeclareAssemble(s, ds, i);
    }
  }

  lemma NoDeclare(s: string)
    requires Trim(s) == s && Begins(s, 0)
    ensures ParseScript(s) == ParseBody(s, 0, [])
  {
    hide Trim, WordAt, SkipFrom, ParseBody, ParseDeclarations;
    OuterKeywords();
    OneKeyword(s, 0, "BEGIN", "DECLARE");
  }

  lemma DeclareText(s: string, p: string, main: string, e: nat)
    requires s == "DECLARE" + (p + "\n") + main && e == 7 + |p|
    ensures Holds(s, 0, "DECLARE") && Holds(s, 7, p) && e < |s| && s[e] == '\n'
  {
    var h := "DECLARE" + (p + "\n");
    assert s[0..|h|] == h;
    HoldsSplit(s, 0, "DECLARE", p + "\n");
    HoldsSplit(s, 7, p, "\n");
    HoldsAt(s, e, "\n", 0);
  }

  lemma DeclarationsNewline(s: string, i: nat, ds: seq<Declaration>, e: nat)
    requires Holds(s, i, PrintDeclarations(ds)) && e == i + |PrintDeclarations(ds)| && e < |s| && s[e] == '\n'
    ensures s[i] == '\n'
  {
    if ds != [] { DeclarationText(s, i, DeclarationBody(ds[0]), PrintDeclarations(ds[1..])); }
  }

  lemma DeclareHere(s: string)
    requires Holds(s, 0, "DECLARE") && 7 < |s| && s[7] == '\n'
    ensures SkipFrom(s, 0) == 0 && NextWord(s, 0, "DECLARE") && AfterWord(s, 0, "DECLARE") == 7
  {
    OuterKeywords();
    KeywordHere(s, 0, "DECLARE");
  }

  lemma DeclareAssemble(s: string, ds: seq<Declaration>, i: nat)
    requires Trim(s) == s && SkipFrom(s, 0) == 0 && NextWord(s, 0, "DECLARE") && AfterWord(s, 0, "DECLARE") == 7
    requires ParseDeclarations(s, 7) == Ok(ds, i) && i <= |s|
    ensures ParseScript(s) == ParseBody(s, i, ds)
  {
    hide Trim, SkipFrom, NextWord, AfterWord, ParseDeclarations, ParseBody;
  }

  // ------------------------------------------------------------- the main results

  /** Parsing what is printed for a script gives back that script. */
  lemma ScriptRound(p: Script)
    requires FitsScript(p)
    ensures ParseScript(PrintScript(p)) == Good(p)
  {
    hide PrintStmts, PrintDeclarations, ParseScript, FitsScript;
    PrintedIsText(p);
    TextRound(p.declarations, p.body, p.handler, p.handler != Done);
  }

  lemma PrintedIsText(p: Script)
    ensures PrintScript(p) == Whole(p.declarations, p.body, p.handler, p.handler != Done)
  {
    hide PrintStmts, PrintDeclarations;
    if p.handler != Done {
      var y := PrintStmts(p.handler);
      assert HANDLER == "EXCEPTION" + " WHEN OTHER THEN";
      HandlerShape("EXCEPTION", " WHEN OTHER THEN", y, "\n", "END;");
    } else {
      assert "" + "END;" == "END;";
    }
  }

  lemma HandlerShape(a: string, b: string, y: string, c: string, d: string)
    ensures (a + (b + (y + c))) + d == (a + b) + (y + (c + d))
  {
  }

  /** A handler without statements is the same script as no handler. */
  lemma EmptyHandlerIsNone(ds: seq<Declaration>, body: Stmts)
    requires FitsScript(Script(ds, body, Done))
    ensures ParseScript(Whole(ds, body, Done, true)) == ParseScript(Whole(ds, body, Done, false))
         == Good(Script(ds, body, Done))
  {
    hide *;
    TextRound(ds, body, Done, true);
    TextRound(ds, body, Done, false);
  }

  /** Printing is injective on the scripts it fits. */
  lemma PrintInjective(p: Script, q: Script)
    requires FitsScript(p) && FitsScript(q) && PrintScript(p) == PrintScript(q)
    ensures p == q
  {
    hide *;
    ScriptRound(p);
    ScriptRound(q);
  }

  // ------------------------------------------------------------- conditions without parentheses

  /** IF with the condition as it is. */
  function BareIf(c: string, yes: Stmts, no: Stmts): string {
    "IF" + ((" " + c + " ") + ("THEN" + (PrintStmts(yes) + ("\n" + (PrintElse(no) + "END IF;")))))
  }

  /** The parser takes an outer pair of parentheses off the condition. */
  lemma {:induction false} BareIfRound(s: string, i: nat, c: string, yes: Stmts, no: Stmts)
    requires FitsStmts(yes) && FitsStmts(no) && Trimmed(c) && Quiet(c, 0, false, false)
    requires WordFree(c, ' ', 0, false, "THEN") && Edge(s, i) && Holds(s, i, BareIf(c, yes, no))
    ensures ParseStatement(s, i) == Ok(If(TrimOuter(c), yes, no), i + |BareIf(c, yes, no)|)
  {
    hide *;
    var y, n := PrintStmts(yes), PrintElse(no);
    var k := i + 2 + (|c| + 2);
    var e := k + 4 + |y|;
    BareIfIs(c, yes, no);
    IfText(s, i, " " + c + " ", y, n, k, e);
    BareParts(s, i, c, yes, no, k, e, e + 1 + |n|);
  }

  lemma BareIfIs(c: string, yes: Stmts, no: Stmts)
    ensures BareIf(c, yes, no) == "IF" + ((" " + c + " ") + ("THEN" + (PrintStmts(yes) + ("\n" + (PrintElse(no) + "END IF;")))))
    ensures |BareIf(c, yes, no)| == |c| + |PrintStmts(yes)| + |PrintElse(no)| + 16
  {
    hide PrintStmts, PrintElse;
  }

  lemma BareParts(s: string, i: nat, c: string, yes: Stmts, no: Stmts, k: nat, e: nat, b: nat)
    requires FitsStmts(yes) && FitsStmts(no) && Trimmed(c) && Quiet(c, 0, false, false)
    requires WordFree(c, ' ', 0, false, "THEN") && Edge(s, i) && k == i + 2 + (|c| + 2)
    requires Holds(s, i, "IF") && Holds(s, i + 2, " " + c + " ") && Holds(s, k, "THEN") && Holds(s, k + 4, PrintStmts(yes))
    requires e == k + 4 + |PrintStmts(yes)| < |s| && s[e] == '\n'
    requires Holds(s, e + 1, PrintElse(no)) && b == e + 1 + |PrintElse(no)| && Holds(s, b, "END IF;")
    ensures ParseStatement(s, i) == Ok(If(TrimOuter(c), yes, no), b + 7)
  {
    hide PrintStmts, PrintElse, WordAt, SkipFrom, UntilWord, ParseStatement, TrimOuter, Quiet, WordFree, EndBlock, ParseElse, ParseStatements;
    hide Trimmed, FitsStmts, Upper, Closes;
    NewlineFirst(s, k + 4, yes, e);
    BareHead(s, i, c, k);
    assert Edge(s, e + 1);
    hide Edge, Holds;
    BareRest(s, If(TrimOuter(c), yes, no), k, yes, no, e, b);
    BareAssemble(s, i, TrimOuter(c), yes, no, k, e + 1, b);
  }

  /** The branches and the end of an IF. */
  lemma BareRest(s: string, st: Stmt, k: nat, yes: Stmts, no: Stmts, e: nat, b: nat)
    requires FitsStmts(yes) && FitsStmts(no) && Holds(s, k + 4, PrintStmts(yes)) && e == k + 4 + |PrintStmts(yes)| < |s| && s[e] == '\n'
    requires Edge(s, e + 1) && Holds(s, e + 1, PrintElse(no)) && b == e + 1 + |PrintElse(no)| && Holds(s, b, "END IF;")
    ensures b <= |s| && EndBlock(s, b, "IF", st, NoEndIf) == Ok(st, b + 7) && ParseElse(s, e + 1) == Ok(no, b)
    ensures ParseStatements(s, k + 4, ["ELSE", "END"]) == Ok(List(yes, if no == Done then "END" else "ELSE"), e + 1)
  {
    hide PrintStmts, PrintElse, WordAt, SkipFrom, EndBlock, ParseElse, ParseStatements, FitsStmts, Closes;
    IfTail(s, st, e + 1, no, b);
    ElseRound(s, e + 1, no, b);
    IfThen(s, k + 4, yes, no, e);
  }

  lemma BareHead(s: string, i: nat, c: string, k: nat)
    requires Trimmed(c) && Quiet(c, 0, false, false) && WordFree(c, ' ', 0, false, "THEN")
    requires Edge(s, i) && Holds(s, i, "IF") && Holds(s, i + 2, " " + c + " ") && k == i + 2 + (|c| + 2)
    requires Holds(s, k, "THEN") && k + 4 < |s| && s[k + 4] == '\n'
    ensures SkipFrom(s, i) == i && WordAt(s, i, "IF") && !WordAt(s, i, "CASE")
    ensures var at := UntilWord(s, i + 2, 0, false, "THEN"); at < |s| && SkipFrom(s, at) == k
    ensures TrimOuter(s[i + 2..k]) == TrimOuter(c)
  {
    hide WordAt, SkipFrom, UntilWord, Quiet, WordFree, Trim;
    BareMarks(s, i + 2, c);
    HoldsAt(s, i, "IF", 0);
    Keywords();
    KeywordHere(s, i, "IF");
    Openers(s, i, "IF");
    KeywordHere(s, k, "THEN");
    BranchScan(s, i + 2, c, k, "THEN");
    BranchValue(s, i + 2, c, k);
    TrimSame(c);
  }

  lemma BareMarks(s: string, i: nat, c: string)
    requires Holds(s, i, " " + c + " ")
    ensures i + 1 + |c| < |s| && s[i] == ' ' && Holds(s, i + 1, c) && s[i + 1 + |c|] == ' '
  {
    HoldsSplit(s, i, " " + c, " ");
    HoldsSplit(s, i, " ", c);
    HoldsAt(s, i, " ", 0);
    HoldsAt(s, i + 1 + |c|, " ", 0);
  }

  lemma BareAssemble(s: string, i: nat, c: string, yes: Stmts, no: Stmts, k: nat, a: nat, b: nat)
    requires i + 2 <= k && k + 4 <= |s| && SkipFrom(s, i) == i && WordAt(s, i, "IF") && !WordAt(s, i, "CASE")
    requires var at := UntilWord(s, i + 2, 0, false, "THEN"); at < |s| && SkipFrom(s, at) == k
    requires TrimOuter(s[i + 2..k]) == c && a <= |s| && b <= |s|
    requires ParseStatements(s, k + 4, ["ELSE", "END"]) == Ok(List(yes, if no == Done then "END" else "ELSE"), a)
    requires ParseElse(s, a) == Ok(no, b)
    requires EndBlock(s, b, "IF", If(c, yes, no), NoEndIf) == Ok(If(c, yes, no), b + 7)
    ensures ParseStatement(s, i) == Ok(If(c, yes, no), b + 7)
  {
    hide WordAt, ParseStatement, ParseStatements, ParseElse, EndBlock, UntilWord, TrimOuter;
    IsIf(s, i);
  }

  /** CASE with the subject as it is. */
  function BareCase(c: string, bs: Branches, no: Stmts): string {
    "CASE" + ((" " + c + " ") + (PrintBranches(bs) + (PrintElse(no) + "END CASE;")))
  }

  lemma {:induction false} BareCaseRound(s: string, i: nat, c: string, bs: Branches, no: Stmts)
    requires FitsBranches(bs) && bs != NoBranch && FitsStmts(no) && Trimmed(c) && Quiet(c, 0, false, false)
    requires WordFree(c, ' ', 0, false, "WHEN") && Edge(s, i) && Holds(s, i, BareCase(c, bs, no))
    ensures ParseStatement(s, i) == Ok(Case(TrimOuter(c), bs, no), i + |BareCase(c, bs, no)|)
  {
    hide *;
    var p, n := PrintBranches(bs), PrintElse(no);
    var k := i + 4 + (|c| + 2);
    BareCaseIs(c, bs, no);
    CaseText(s, i, " " + c + " ", p, n, k);
    BareCaseParts(s, i, c, bs, no, k, k + |p|, k + |p| + |n|);
  }

  lemma BareCaseIs(c: string, bs: Branches, no: Stmts)
    ensures BareCase(c, bs, no) == "CASE" + ((" " + c + " ") + (PrintBranches(bs) + (PrintElse(no) + "END CASE;")))
    ensures |BareCase(c, bs, no)| == |c| + |PrintBranches(bs)| + |PrintElse(no)| + 15
  {
    hide PrintBranches, PrintElse;
  }

  lemma BareCaseParts(s: string, i: nat, c: string, bs: Branches, no: Stmts, k: nat, a: nat, b: nat)
    requires FitsBranches(bs) && bs != NoBranch && FitsStmts(no) && Trimmed(c) && Quiet(c, 0, false, false)
    requires WordFree(c, ' ', 0, false, "WHEN") && Edge(s, i) && k == i + 4 + (|c| + 2)
    requires Holds(s, i, "CASE") && Holds(s, i + 4, " " + c + " ") && Holds(s, k, PrintBranches(bs)) && a == k + |PrintBranches(bs)|
    requires Holds(s, a, PrintElse(no)) && b == a + |PrintElse(no)| && Holds(s, b, "END CASE;")
    ensures ParseStatement(s, i) == Ok(Case(TrimOuter(c), bs, no), b + 9)
  {
    hide PrintBranches, PrintElse, WordAt, SkipFrom, UntilWord, ParseStatement, ParseBranches, ParseElse, EndBlock, TrimOuter, Quiet, WordFree;
    hide Trimmed, FitsStmts, FitsBranches, Upper;
    BareCaseStart(s, i, c, k);
    BranchEdge(s, k, bs);
    CaseTail(s, Case(TrimOuter(c), bs, no), a, no, b);
    hide Edge, Holds;
    CaseBranches(s, k, bs, no, a, b);
    BareCaseHead(s, i, c, k);
    CaseAssemble(s, i, TrimOuter(c), bs, no, k, a, b);
  }

  /** The branches and ELSE. */
  lemma CaseBranches(s: string, k: nat, bs: Branches, no: Stmts, a: nat, b: nat)
    requires FitsBranches(bs) && bs != NoBranch && FitsStmts(no) && Edge(s, k) && Edge(s, a) && b < |s| && Closes(s, b, "END")
    requires Holds(s, k, PrintBranches(bs)) && a == k + |PrintBranches(bs)|
    requires Holds(s, a, PrintElse(no)) && b == a + |PrintElse(no)|
    ensures a <= |s| && k < |s| && ParseBranches(s, k) == Ok(bs, a) && ParseElse(s, a) == Ok(no, b)
    ensures SkipFrom(s, k) == k && WordAt(s, k, "WHEN")
  {
    hide PrintBranches, PrintElse, WordAt, SkipFrom, ParseBranches, ParseElse, FitsStmts, FitsBranches, Edge, Upper;
    ElseRound(s, a, no, b);
    BranchesRound(s, k, bs, if no == Done then "END" else "ELSE", a);
  }

  lemma BareCaseStart(s: string, i: nat, c: string, k: nat)
    requires Edge(s, i) && Holds(s, i, "CASE") && Holds(s, i + 4, " " + c + " ") && k == i + 4 + (|c| + 2)
    ensures SkipFrom(s, i) == i && WordAt(s, i, "CASE") && Edge(s, k)
  {
    Keywords();
    BareMarks(s, i + 4, c);
    KeywordHere(s, i, "CASE");
  }

  lemma BareCaseHead(s: string, i: nat, c: string, k: nat)
    requires Trimmed(c) && Quiet(c, 0, false, false) && WordFree(c, ' ', 0, false, "WHEN")
    requires Holds(s, i + 4, " " + c + " ") && k == i + 4 + (|c| + 2) < |s| && SkipFrom(s, k) == k && WordAt(s, k, "WHEN")
    ensures var at := UntilWord(s, i + 4, 0, false, "WHEN"); at < |s| && SkipFrom(s, at) == k
    ensures TrimOuter(s[i + 4..k]) == TrimOuter(c)
  {
    hide WordAt, SkipFrom, UntilWord, Quiet, WordFree, Trim;
    BareMarks(s, i + 4, c);
    Keywords();
    BranchScan(s, i + 4, c, k, "WHEN");
    BranchValue(s, i + 4, c, k);
    TrimSame(c);
  }

  /** A condition printed without parentheses comes back exactly when it does not both start with
      an opening and end with a closing one, whether or not those two match. */
  lemma BareConditionIff(s: string, i: nat, c: string, yes: Stmts, no: Stmts)
    requires FitsStmts(yes) && FitsStmts(no) && Trimmed(c) && Quiet(c, 0, false, false)
    requires WordFree(c, ' ', 0, false, "THEN") && Edge(s, i) && Holds(s, i, BareIf(c, yes, no))
    ensures ParseStatement(s, i) == Ok(If(c, yes, no), i + |BareIf(c, yes, no)|)
       <==> !(|c| >= 2 && c[0] == '(' && c[|c| - 1] == ')')
  {
    hide *;
    BareIfRound(s, i, c, yes, no);
    OuterKept(c);
  }

  /** The subject of CASE goes the same way. */
  lemma BareSubjectIff(s: string, i: nat, c: string, bs: Branches, no: Stmts)
    requires FitsBranches(bs) && bs != NoBranch && FitsStmts(no) && Trimmed(c) && Quiet(c, 0, false, false)
    requires WordFree(c, ' ', 0, false, "WHEN") && Edge(s, i) && Holds(s, i, BareCase(c, bs, no))
    ensures ParseStatement(s, i) == Ok(Case(c, bs, no), i + |BareCase(c, bs, no)|)
       <==> !(|c| >= 2 && c[0] == '(' && c[|c| - 1] == ')')
  {
    hide *;
    BareCaseRound(s, i, c, bs, no);
    OuterKept(c);
  }

  lemma OuterKept(c: string)
    requires Trimmed(c)
    ensures TrimOuter(c) == c <==> !(|c| >= 2 && c[0] == '(' && c[|c| - 1] == ')')
  {
    TrimSame(c);
  }

  /** How many parentheses are open before n, and whether a literal is. */
  function DepthTo(x: string, n: nat): (int, bool)
    requires n <= |x|
  {
    if n == 0 then (0, false)
    else
      var d := DepthTo(x, n - 1);
      if x[n - 1] == '\'' then (d.0, !d.1)
      else if d.1 then d
      else if x[n - 1] == '(' then (d.0 + 1, false)
      else if x[n - 1] == ')' then (d.0 - 1, false)
      else d
  }

  predicate Nested(x: string) {
    DepthTo(x, |x|) == (0, false) && forall n :: 0 <= n <= |x| ==> DepthTo(x, n).0 >= 0
  }

  /** The first parenthesis is still open before the last character. */
  predicate OuterMatch(x: string) { forall n :: 0 < n < |x| ==> DepthTo(x, n).0 > 0 }

  lemma {:induction false} DepthInside(y: string, n: nat)
    requires n <= |y|
    ensures var c := "(" + y + ")"; DepthTo(c, n + 1) == (DepthTo(y, n).0 + 1, DepthTo(y, n).1)
  {
    var c := "(" + y + ")";
    if n > 0 {
      DepthInside(y, n - 1);
      assert c[n] == y[n - 1];
    } else {
      assert c[0] == '(' && DepthTo(c, 0) == (0, false);
    }
  }

  /** Taking the outer parentheses off a properly nested condition leaves a properly nested one
      exactly when they match each other. */
  lemma OuterMatchIff(y: string)
    requires Nested("(" + y + ")")
    ensures Nested(y) <==> OuterMatch("(" + y + ")")
  {
    var c := "(" + y + ")";
    forall n | 0 <= n <= |y|
      ensures DepthTo(c, n + 1) == (DepthTo(y, n).0 + 1, DepthTo(y, n).1)
    {
      DepthInside(y, n);
    }
    assert c[|y| + 1] == ')' && DepthTo(c, |y| + 2) == (0, false);
    assert forall n :: 0 < n < |c| ==> DepthTo(c, n).0 == DepthTo(y, n - 1).0 + 1;
  }

  /** Two parenthesised alternatives lose their outer parentheses, which do not match each other. */
  lemma UnmatchedOuter()
    ensures TrimOuter("(a) OR (b)") == "a) OR (b"
  {
    var c := "(a) OR (b)";
    TrimSame(c);
    assert c[1..|c| - 1] == "a) OR (b";
    TrimSame("a) OR (b");
  }
}
