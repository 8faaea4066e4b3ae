/** Printing a procedure script and parsing it again gives back the same script, for every
    nesting of IF and CASE. */
module ScriptRoundTrip {
  import opened Text
  import opened Script
  import opened ScriptPrinting

  // ------------------------------------------------------------- the end of a printed text

  lemma LastOf(a: string, b: string)
    requires b != ""
    ensures (a + b) != "" && (a + b)[|a + b| - 1] == b[|b| - 1]
  {
  }

  lemma SemicolonLast(st: Stmt)
    ensures PrintStmt(st) != "" && PrintStmt(st)[|PrintStmt(st)| - 1] == ';'
  {
    match st
    case Sql(x) => LastOf(x, ";");
    case Assign(n, e) => LastOf(e, ";"); LastOf(n + " := ", e + ";");
    case Return(e) => LastOf(e, ";"); LastOf("RETURN ", e + ";");
    case Let(n, t, e) => LastOf(LetBody(n, t, e), ";"); LastOf("LET ", LetBody(n, t, e) + ";");
    case If(c, yes, no) => IfLast(Condition(c, ' '), PrintStmts(yes), PrintElse(no));
    case Case(e, bs, no) => CaseLast(Condition(e, '\n'), PrintBranches(bs), PrintElse(no));
  }

  lemma IfLast(c: string, y: string, n: string)
    ensures var p := "IF" + (c + ("THEN" + (y + ("\n" + (n + "END IF;"))))); p != "" && p[|p| - 1] == ';'
  {
    var a := n + "END IF;";
    LastOf(n, "END IF;");
    LastOf("\n", a);
    LastOf(y, "\n" + a);
    LastOf("THEN", y + ("\n" + a));
    LastOf(c, "THEN" + (y + ("\n" + a)));
    LastOf("IF", c + ("THEN" + (y + ("\n" + a))));
  }

  lemma CaseLast(c: string, p: string, n: string)
    ensures var r := "CASE" + (c + (p + (n + "END CASE;"))); r != "" && r[|r| - 1] == ';'
  {
    var a := n + "END CASE;";
    LastOf(n, "END CASE;");
    LastOf(p, a);
    LastOf(c, p + a);
    LastOf("CASE", c + (p + a));
  }

  /** Every printed statement ends in a semicolon. */
  lemma StmtLast(s: string, i: nat, st: Stmt)
    requires Holds(s, i, PrintStmt(st))
    ensures PrintStmt(st) != "" && Edge(s, i + |PrintStmt(st)|)
  {
    SemicolonLast(st);
    var p := PrintStmt(st);
    HoldsAt(s, i, p, |p| - 1);
  }

  lemma ElseEdge(s: string, i: nat, no: Stmts)
    requires Holds(s, i, PrintElse(no)) && Edge(s, i)
    ensures Edge(s, i + |PrintElse(no)|)
  {
    if no != Done {
      ElseLast(PrintStmts(no));
      var p := PrintElse(no);
      HoldsAt(s, i, p, |p| - 1);
    }
  }

  lemma ElseLast(y: string)
    ensures var p := "ELSE" + (y + "\n"); p != "" && p[|p| - 1] == '\n'
  {
    LastOf(y, "\n");
    LastOf("ELSE", y + "\n");
  }

  // ------------------------------------------------------------- lists

  /** A printed statement parses back, wherever it stands. */
  lemma {:induction false} StmtRound(s: string, i: nat, st: Stmt)
    requires FitsStmt(st) && Holds(s, i, PrintStmt(st)) && Edge(s, i)
    ensures Opens(s, i) && ParseStatement(s, i) == Ok(st, i + |PrintStmt(st)|)
    decreases st, 3
  {
    match st
    case Sql(x) => SqlRound(s, i, x);
    case Assign(n, e) => AssignRound(s, i, n, e);
    case Return(e) => ReturnRound(s, i, e);
    case Let(n, t, e) => LetRound(s, i, n, t, e);
    case If(c, yes, no) => IfRound(s, i, c, yes, no);
    case Case(e, bs, no) => CaseRound(s, i, e, bs, no);
  }

  lemma ThenText(s: string, i: nat, st: Stmt, r: Stmts, p: string, q: string)
    requires p == PrintStmt(st) && q == PrintStmts(r) && Holds(s, i, PrintStmts(Then(st, r)))
    ensures i < |s| && s[i] == '\n' && Holds(s, i + 1, p) && Holds(s, i + 1 + |p|, q)
    ensures |PrintStmts(Then(st, r))| == 1 + |p| + |q|
  {
    assert PrintStmts(Then(st, r)) == "\n" + (p + q);
    HoldsSplit(s, i, "\n", p + q);
    HoldsAt(s, i, "\n", 0);
    HoldsSplit(s, i + 1, p, q);
  }

  /** A printed list, up to the newline at e and the word that ends the list. */
  lemma {:induction false} ListRound(s: string, i: nat, ss: Stmts, words: seq<string>, w: nat, e: nat)
    requires FitsStmts(ss) && Holds(s, i, PrintStmts(ss)) && e == i + |PrintStmts(ss)|
    requires e + 1 < |s| && s[e] == '\n' && w < |words| && Closes(s, e + 1, words[w])
    requires forall j :: 0 <= j < |words| ==> Terminator(words[j])
    requires forall j :: 0 <= j < w ==> words[j] != words[w]
    ensures ParseStatements(s, i, words) == Ok(List(ss, words[w]), e + 1)
    decreases ss, 0
  {
    hide WordAt, ParseStatement, ParseStatements, PrintStmt, Quiet, SqlText, Opens;
    match ss
    case Done => ListEnd(s, i, words, w);
    case Then(st, r) =>
      ThenText(s, i, st, r, PrintStmt(st), PrintStmts(r));
      StmtRound(s, i + 1, st);
      StmtLast(s, i + 1, st);
      var k := i + 1 + |PrintStmt(st)|;
      ListRound(s, k, r, words, w, e);
      ListStep(s, i, words, st, k, ParseStatements(s, k, words));
  }

  lemma NewlineFirst(s: string, i: nat, ss: Stmts, e: nat)
    requires Holds(s, i, PrintStmts(ss)) && e == i + |PrintStmts(ss)| && e < |s| && s[e] == '\n'
    ensures s[i] == '\n'
  {
    if ss.Then? { ThenText(s, i, ss.first, ss.rest, PrintStmt(ss.first), PrintStmts(ss.rest)); }
  }

  // ------------------------------------------------------------- ELSE

  /** The ELSE part of a block, or none, up to END. */
  lemma {:induction false} ElseRound(s: string, i: nat, no: Stmts, b: nat)
    requires FitsStmts(no) && Holds(s, i, PrintElse(no)) && Edge(s, i) && b == i + |PrintElse(no)|
    requires b < |s| && Closes(s, b, "END")
    ensures ParseElse(s, i) == Ok(no, b) && Closes(s, i, if no == Done then "END" else "ELSE")
    decreases no, 1
  {
    if no == Done {
      NoElse(s, i);
    } else {
      var e := i + 4 + |PrintStmts(no)|;
      ElseText(s, i, no, e);
      ListRound(s, i + 4, no, ["END"], 0, e);
      SomeElse(s, i, no, e + 1);
    }
  }

  lemma NoElse(s: string, i: nat)
    requires Closes(s, i, "END")
    ensures ParseElse(s, i) == Ok(Done, i)
  {
    Keywords();
    OneKeyword(s, i, "END", "ELSE");
  }

  lemma ElseText(s: string, i: nat, no: Stmts, e: nat)
    requires no != Done && Holds(s, i, PrintElse(no)) && Edge(s, i) && e == i + 4 + |PrintStmts(no)|
    ensures Holds(s, i + 4, PrintStmts(no)) && e + 1 <= |s| && s[e] == '\n' && Closes(s, i, "ELSE")
    ensures |PrintElse(no)| == e + 1 - i
  {
    ElseMarks(s, i, PrintStmts(no), e);
    NewlineFirst(s, i + 4, no, e);
    Keywords();
    KeywordHere(s, i, "ELSE");
  }

  lemma ElseMarks(s: string, i: nat, y: string, e: nat)
    requires Holds(s, i, "ELSE" + (y + "\n")) && e == i + 4 + |y|
    ensures Holds(s, i, "ELSE") && Holds(s, i + 4, y) && e + 1 <= |s| && s[e] == '\n'
  {
    HoldsSplit(s, i, "ELSE", y + "\n");
    HoldsSplit(s, i + 4, y, "\n");
    HoldsAt(s, e, "\n", 0);
  }

  lemma SomeElse(s: string, i: nat, no: Stmts, b: nat)
    requires Closes(s, i, "ELSE") && i + 4 <= |s| && ParseStatements(s, i + 4, ["END"]) == Ok(List(no, "END"), b)
    ensures ParseElse(s, i) == Ok(no, b)
  {
    hide WordAt, ParseStatements;
  }

  // ------------------------------------------------------------- IF

  lemma {:induction false} IfRound(s: string, i: nat, c: string, yes: Stmts, no: Stmts)
    requires FitsStmt(If(c, yes, no)) && Holds(s, i, PrintStmt(If(c, yes, no))) && Edge(s, i)
    ensures Opens(s, i) && ParseStatement(s, i) == Ok(If(c, yes, no), i + |PrintStmt(If(c, yes, no))|)
    decreases If(c, yes, no), 2
  {
    var cond, y, n := Condition(c, ' '), PrintStmts(yes), PrintElse(no);
    var k := i + 2 + |cond|;
    var e := k + 4 + |y|;
    assert PrintStmt(If(c, yes, no)) == "IF" + (cond + ("THEN" + (y + ("\n" + (n + "END IF;")))));
    hide PrintStmt, PrintStmts, PrintElse, Condition, ParseStatement, Opens, Quiet, Trimmed, Holds;
    IfText(s, i, cond, y, n, k, e);
    IfParts(s, i, c, yes, no, k, e, e + 1 + |n|);
  }

  lemma IfText(s: string, i: nat, cond: string, y: string, n: string, k: nat, e: nat)
    requires Holds(s, i, "IF" + (cond + ("THEN" + (y + ("\n" + (n + "END IF;"))))))
    requires k == i + 2 + |cond| && e == k + 4 + |y|
    ensures Holds(s, i, "IF") && Holds(s, i + 2, cond) && Holds(s, k, "THEN") && Holds(s, k + 4, y)
    ensures e < |s| && s[e] == '\n' && Holds(s, e + 1, n) && Holds(s, e + 1 + |n|, "END IF;")
  {
    var r3 := n + "END IF;";
    var r2 := y + ("\n" + r3);
    HoldsSplit(s, i, "IF", cond + ("THEN" + r2));
    HoldsSplit(s, i + 2, cond, "THEN" + r2);
    HoldsSplit(s, k, "THEN", r2);
    HoldsSplit(s, k + 4, y, "\n" + r3);
    HoldsSplit(s, e, "\n", r3);
    HoldsAt(s, e, "\n", 0);
    HoldsSplit(s, e + 1, n, "END IF;");
  }

  lemma {:induction false} IfParts(s: string, i: nat, c: string, yes: Stmts, no: Stmts, k: nat, e: nat, b: nat)
    requires FitsStmts(yes) && FitsStmts(no) && Trimmed(c) && Quiet(c, 0, false, false) && Edge(s, i)
    requires Holds(s, i, "IF") && Holds(s, i + 2, Condition(c, ' ')) && k == i + 2 + |Condition(c, ' ')|
    requires Holds(s, k, "THEN") && Holds(s, k + 4, PrintStmts(yes)) && e == k + 4 + |PrintStmts(yes)| < |s|
    requires s[e] == '\n' && Holds(s, e + 1, PrintElse(no)) && b == e + 1 + |PrintElse(no)| && Holds(s, b, "END IF;")
    ensures Opens(s, i) && ParseStatement(s, i) == Ok(If(c, yes, no), b + 7)
    decreases If(c, yes, no), 1
  {
    hide WordAt, ParseStatement, ParseStatements, ParseElse, PrintStmts, PrintElse, Opens, EndBlock, UntilWord, TrimOuter;
    NewlineFirst(s, k + 4, yes, e);
    IfHead(s, i, c, k);
    IfTail(s, If(c, yes, no), e + 1, no, b);
    ElseRound(s, e + 1, no, b);
    IfThen(s, k + 4, yes, no, e);
    IfAssemble(s, i, c, yes, no, k, e + 1, b);
  }

  lemma {:induction false} IfThen(s: string, i: nat, yes: Stmts, no: Stmts, e: nat)
    requires FitsStmts(yes) && Holds(s, i, PrintStmts(yes)) && e == i + |PrintStmts(yes)| < |s| && s[e] == '\n'
    requires Closes(s, e + 1, if no == Done then "END" else "ELSE")
    ensures ParseStatements(s, i, ["ELSE", "END"]) == Ok(List(yes, if no == Done then "END" else "ELSE"), e + 1)
    decreases yes, 2
  {
    ListRound(s, i, yes, ["ELSE", "END"], if no == Done then 1 else 0, e);
  }

  /** The word IF, the condition and THEN. */
  lemma IfHead(s: string, i: nat, c: string, k: nat)
    requires Trimmed(c) && Quiet(c, 0, false, false) && Edge(s, i) && Holds(s, i, "IF")
    requires Holds(s, i + 2, Condition(c, ' ')) && k == i + 2 + |Condition(c, ' ')|
    requires Holds(s, k, "THEN") && k + 4 < |s| && s[k + 4] == '\n'
    ensures Opens(s, i) && SkipFrom(s, i) == i && WordAt(s, i, "IF") && !WordAt(s, i, "CASE")
    ensures UntilWord(s, i + 2, 0, false, "THEN") == k - 1 && SkipFrom(s, k - 1) == k && TrimOuter(s[i + 2..k]) == c
  {
    hide WordAt, UntilWord, TrimOuter, SkipFrom, Quiet;
    Keywords();
    ConditionMarks(s, i + 2, c, ' ');
    KeywordHere(s, i, "IF");
    HoldsAt(s, i, "IF", 0);
    Openers(s, i, "IF");
    KeywordHere(s, k, "THEN");
    ConditionRead(s, i + 2, c, ' ', "THEN", k);
  }

  lemma IfTail(s: string, st: Stmt, a: nat, no: Stmts, b: nat)
    requires Holds(s, a, PrintElse(no)) && Edge(s, a) && b == a + |PrintElse(no)| && Holds(s, b, "END IF;")
    ensures Closes(s, b, "END") && EndBlock(s, b, "IF", st, NoEndIf) == Ok(st, b + 7)
  {
    Keywords();
    ElseEdge(s, a, no);
    EndIfText(s, b);
    BlockEnd(s, b, "IF", st, NoEndIf);
  }

  lemma IsIf(s: string, i: nat)
    requires i + 2 <= |s| && SkipFrom(s, i) == i && WordAt(s, i, "IF") && !WordAt(s, i, "CASE")
    ensures ParseStatement(s, i) == ParseIf(s, i + 2)
  {
    hide WordAt, SkipFrom, ParseIf, ParseCase, ParseLet, ParseReturn, ParsePlain;
  }

  lemma IfAssemble(s: string, i: nat, c: string, yes: Stmts, no: Stmts, k: nat, a: nat, b: nat)
    requires i + 2 <= k && k + 4 <= |s| && SkipFrom(s, i) == i && WordAt(s, i, "IF") && !WordAt(s, i, "CASE")
    requires UntilWord(s, i + 2, 0, false, "THEN") == k - 1 && SkipFrom(s, k - 1) == k
    requires TrimOuter(s[i + 2..k]) == c && a <= |s| && b <= |s|
    requires ParseStatements(s, k + 4, ["ELSE", "END"]) == Ok(List(yes, if no == Done then "END" else "ELSE"), a)
    requires ParseElse(s, a) == Ok(no, b)
    requires EndBlock(s, b, "IF", If(c, yes, no), NoEndIf) == Ok(If(c, yes, no), b + 7)
    ensures ParseStatement(s, i) == Ok(If(c, yes, no), b + 7)
  {
    hide WordAt, ParseStatement, ParseStatements, ParseElse, EndBlock, UntilWord, TrimOuter;
    IsIf(s, i);
  }

  // ------------------------------------------------------------- CASE

  lemma {:induction false} CaseRound(s: string, i: nat, c: string, bs: Branches, no: Stmts)
    requires FitsStmt(Case(c, bs, no)) && Holds(s, i, PrintStmt(Case(c, bs, no))) && Edge(s, i)
    ensures Opens(s, i) && ParseStatement(s, i) == Ok(Case(c, bs, no), i + |PrintStmt(Case(c, bs, no))|)
    decreases Case(c, bs, no), 2
  {
    var cond, p, n := Condition(c, '\n'), PrintBranches(bs), PrintElse(no);
    var k := i + 4 + |cond|;
    CaseText(s, i, cond, p, n, k);
    CaseParts(s, i, c, bs, no, k, k + |p|, k + |p| + |n|);
  }

  lemma CaseText(s: string, i: nat, cond: string, p: string, n: string, k: nat)
    requires Holds(s, i, "CASE" + (cond + (p + (n + "END CASE;")))) && k == i + 4 + |cond|
    ensures Holds(s, i, "CASE") && Holds(s, i + 4, cond) && Holds(s, k, p)
    ensures Holds(s, k + |p|, n) && Holds(s, k + |p| + |n|, "END CASE;")
  {
    HoldsSplit(s, i, "CASE", cond + (p + (n + "END CASE;")));
    HoldsSplit(s, i + 4, cond, p + (n + "END CASE;"));
    HoldsSplit(s, k, p, n + "END CASE;");
    HoldsSplit(s, k + |p|, n, "END CASE;");
  }

  lemma {:induction false} CaseParts(s: string, i: nat, c: string, bs: Branches, no: Stmts, k: nat, a: nat, b: nat)
    requires FitsBranches(bs) && bs != NoBranch && FitsStmts(no)
    requires Trimmed(c) && Quiet(c, 0, false, false) && Edge(s, i)
    requires Holds(s, i, "CASE") && Holds(s, i + 4, Condition(c, '\n')) && k == i + 4 + |Condition(c, '\n')|
    requires Holds(s, k, PrintBranches(bs)) && a == k + |PrintBranches(bs)|
    requires Holds(s, a, PrintElse(no)) && b == a + |PrintElse(no)| && Holds(s, b, "END CASE;")
    ensures Opens(s, i) && ParseStatement(s, i) == Ok(Case(c, bs, no), b + 9)
    decreases Case(c, bs, no), 1
  {
    hide PrintBranches, PrintElse, WordAt, SkipFrom, UntilWord, ParseStatement, ParseBranches, ParseElse, EndBlock, TrimOuter;
    hide Trimmed, Quiet, Condition, FitsStmts, FitsBranches, Upper;
    CaseStart(s, i, c, k);
    BranchEdge(s, k, bs);
    CaseTail(s, Case(c, bs, no), a, no, b);
    ElseRound(s, a, no, b);
    BranchesRound(s, k, bs, if no == Done then "END" else "ELSE", a);
    CaseHead(s, i, c, k);
    CaseAssemble(s, i, c, bs, no, k, a, b);
  }

  lemma CaseStart(s: string, i: nat, c: string, k: nat)
    requires Edge(s, i) && Holds(s, i, "CASE") && Holds(s, i + 4, Condition(c, '\n')) && k == i + 4 + |Condition(c, '\n')|
    ensures Opens(s, i) && SkipFrom(s, i) == i && WordAt(s, i, "CASE") && Edge(s, k) && i + 4 < k
  {
    Keywords();
    ConditionMarks(s, i + 4, c, '\n');
    KeywordHere(s, i, "CASE");
    HoldsAt(s, i, "CASE", 0);
    Openers(s, i, "CASE");
  }

  lemma CaseHead(s: string, i: nat, c: string, k: nat)
    requires Trimmed(c) && Quiet(c, 0, false, false)
    requires Holds(s, i + 4, Condition(c, '\n')) && k == i + 4 + |Condition(c, '\n')| < |s|
    requires SkipFrom(s, k) == k && WordAt(s, k, "WHEN")
    ensures UntilWord(s, i + 4, 0, false, "WHEN") == k - 1 && SkipFrom(s, k - 1) == k && TrimOuter(s[i + 4..k]) == c
  {
    hide WordAt, UntilWord, SkipFrom, Quiet, TrimOuter, Holds;
    Keywords();
    ConditionRead(s, i + 4, c, '\n', "WHEN", k);
  }

  lemma CaseTail(s: string, st: Stmt, a: nat, no: Stmts, b: nat)
    requires Holds(s, a, PrintElse(no)) && Edge(s, a) && b == a + |PrintElse(no)| && Holds(s, b, "END CASE;")
    ensures Closes(s, b, "END") && EndBlock(s, b, "CASE", st, NoEndCase) == Ok(st, b + 9)
  {
    Keywords();
    ElseEdge(s, a, no);
    EndCaseText(s, b);
    BlockEnd(s, b, "CASE", st, NoEndCase);
  }

  lemma IsCase(s: string, i: nat)
    requires i + 4 <= |s| && SkipFrom(s, i) == i && WordAt(s, i, "CASE")
    ensures ParseStatement(s, i) == ParseCase(s, i + 4)
  {
    hide WordAt, SkipFrom, ParseIf, ParseCase, ParseLet, ParseReturn, ParsePlain;
  }

  lemma CaseAssemble(s: string, i: nat, c: string, bs: Branches, no: Stmts, k: nat, a: nat, b: nat)
    requires i + 4 <= k < |s| && SkipFrom(s, i) == i && WordAt(s, i, "CASE")
    requires var at := UntilWord(s, i + 4, 0, false, "WHEN"); at < |s| && SkipFrom(s, at) == k
    requires TrimOuter(s[i + 4..k]) == c && a <= |s| && b <= |s|
    requires ParseBranches(s, k) == Ok(bs, a) && ParseElse(s, a) == Ok(no, b)
    requires EndBlock(s, b, "CASE", Case(c, bs, no), NoEndCase) == Ok(Case(c, bs, no), b + 9)
    ensures ParseStatement(s, i) == Ok(Case(c, bs, no), b + 9)
  {
    hide WordAt, ParseStatement, ParseBranches, ParseElse, EndBlock, UntilWord, TrimOuter;
    IsCase(s, i);
  }

  // ------------------------------------------------------------- branches

  /** The parts of a printed branch: value at k + 5, THEN at m, body at m + 4, newline at e. */
  lemma BranchText(s: string, k: nat, v: string, y: string, others: string, m: nat, e: nat)
    requires Holds(s, k, "WHEN" + (" " + (v + (" " + ("THEN" + (y + ("\n" + others)))))))
    requires m == k + 5 + |v| + 1 && e == m + 4 + |y|
    ensures Holds(s, k, "WHEN") && s[k + 4] == ' ' && Holds(s, k + 5, v) && s[m - 1] == ' ' && Holds(s, m, "THEN")
    ensures Holds(s, m + 4, y) && e < |s| && s[e] == '\n' && Holds(s, e + 1, others)
  {
    hide Holds;
    var body := "THEN" + (y + ("\n" + others));
    WordSpaced(s, k, "WHEN", v, " " + body);
    HoldsSplit(s, m - 1, " ", body);
    HoldsAt(s, m - 1, " ", 0);
    BranchBodyText(s, m, y, others);
  }

  /** A word, a space, a text and what follows it. */
  lemma WordSpaced(s: string, k: nat, word: string, v: string, rest: string)
    requires Holds(s, k, word + (" " + (v + rest)))
    ensures var i := k + |word|; Holds(s, k, word) && i < |s| && s[i] == ' ' && Holds(s, i + 1, v) && Holds(s, i + 1 + |v|, rest)
  {
    hide Holds;
    var i := k + |word|;
    HoldsSplit(s, k, word, " " + (v + rest));
    HoldsSplit(s, i, " ", v + rest);
    SpaceHeld(s, i);
    HoldsSplit(s, i + 1, v, rest);
  }

  lemma SpaceHeld(s: string, i: nat)
    requires Holds(s, i, " ")
    ensures i < |s| && s[i] == ' '
  {
    HoldsAt(s, i, " ", 0);
  }

  lemma BranchBodyText(s: string, m: nat, y: string, others: string)
    requires Holds(s, m, "THEN" + (y + ("\n" + others)))
    ensures var e := m + 4 + |y|; Holds(s, m, "THEN") && Holds(s, m + 4, y) && e < |s| && s[e] == '\n' && Holds(s, e + 1, others)
  {
    var e := m + 4 + |y|;
    HoldsSplit(s, m, "THEN", y + ("\n" + others));
    HoldsSplit(s, m + 4, y, "\n" + others);
    HoldsSplit(s, e, "\n", others);
    HoldsAt(s, e, "\n", 0);
  }

  lemma BranchShape(v: string, body: Stmts, others: Branches)
    ensures PrintBranches(Branch(v, body, others))
         == "WHEN" + (" " + (v + (" " + ("THEN" + (PrintStmts(body) + ("\n" + PrintBranches(others)))))))
  {
  }

  lemma BranchSize(v: string, body: Stmts, others: Branches)
    ensures |PrintBranches(Branch(v, body, others))|
         == 4 + 1 + |v| + 1 + 4 + |PrintStmts(body)| + 1 + |PrintBranches(others)|
  {
  }

  lemma {:induction false} BranchEdge(s: string, k: nat, bs: Branches)
    requires Holds(s, k, PrintBranches(bs)) && Edge(s, k)
    ensures Edge(s, k + |PrintBranches(bs)|)
    decreases bs
  {
    if bs.Branch? {
      var m := k + 5 + |bs.value| + 1;
      var e := m + 4 + |PrintStmts(bs.body)|;
      BranchText(s, k, bs.value, PrintStmts(bs.body), PrintBranches(bs.others), m, e);
      BranchSize(bs.value, bs.body, bs.others);
      hide PrintBranches, PrintStmts, Holds;
      BranchEdge(s, e + 1, bs.others);
    }
  }

  /** Printed branches, up to ELSE or END at a. */
  lemma {:induction false} BranchesRound(s: string, i: nat, bs: Branches, t: string, a: nat)
    requires FitsBranches(bs) && bs != NoBranch && Holds(s, i, PrintBranches(bs)) && Edge(s, i)
    requires (t == "ELSE" || t == "END") && a == i + |PrintBranches(bs)| && Closes(s, a, t)
    ensures ParseBranches(s, i) == Ok(bs, a)
    ensures Closes(s, i, "WHEN")
    decreases bs, 1
  {
    hide *;
    var m := i + 5 + |bs.value| + 1;
    var e := m + 4 + |PrintStmts(bs.body)|;
    BranchStart(s, i, bs, m, e, a);
    if bs.others == NoBranch {
      NoMoreBranches(s, e + 1, a);
      BranchBody(s, m + 4, bs.body, t, e);
      LastBranch(s, i, bs.value, bs.body, t, m, a);
    } else {
      BranchesRound(s, e + 1, bs.others, t, a);
      BranchBody(s, m + 4, bs.body, "WHEN", e);
      NextBranch(s, i, bs.value, bs.body, bs.others, m, e + 1, a);
    }
  }

  lemma NoMoreBranches(s: string, e: nat, a: nat)
    requires a == e + |PrintBranches(NoBranch)|
    ensures a == e
  {
  }

  lemma BranchStart(s: string, i: nat, bs: Branches, m: nat, e: nat, a: nat)
    requires FitsBranches(bs) && bs.Branch? && Holds(s, i, PrintBranches(bs)) && Edge(s, i)
    requires m == i + 5 + |bs.value| + 1 && e == m + 4 + |PrintStmts(bs.body)| && a == i + |PrintBranches(bs)|
    ensures FitsStmts(bs.body) && FitsBranches(bs.others)
    ensures Holds(s, m + 4, PrintStmts(bs.body)) && m + 4 <= e < |s| && s[e] == '\n'
    ensures Holds(s, e + 1, PrintBranches(bs.others)) && Edge(s, e + 1) && a == e + 1 + |PrintBranches(bs.others)| <= |s|
    ensures Closes(s, i, "WHEN") && NextWord(s, i, "WHEN") && AfterWord(s, i, "WHEN") == i + 4
    ensures Trim(s[i + 4..m]) == bs.value
    ensures var at := UntilWord(s, i + 4, 0, false, "THEN"); at < |s| && SkipFrom(s, at) == m
  {
    hide WordAt, PrintStmts, PrintBranches, Quiet, WordFree, UntilWord, SkipFrom, Trim, Closes, NextWord, AfterWord;
    var y, rest := PrintStmts(bs.body), PrintBranches(bs.others);
    BranchShape(bs.value, bs.body, bs.others);
    BranchText(s, i, bs.value, y, rest, m, e);
    BranchSize(bs.value, bs.body, bs.others);
    NewlineFirst(s, m + 4, bs.body, e);
    BranchHead(s, i, bs.value, m);
  }

  lemma {:induction false} BranchBody(s: string, i: nat, body: Stmts, t: string, e: nat)
    requires FitsStmts(body) && Holds(s, i, PrintStmts(body)) && e == i + |PrintStmts(body)| < |s| && s[e] == '\n'
    requires (t == "WHEN" || t == "ELSE" || t == "END") && Closes(s, e + 1, t)
    ensures ParseStatements(s, i, ["WHEN", "ELSE", "END"]) == Ok(List(body, t), e + 1)
    decreases body, 2
  {
    ListRound(s, i, body, ["WHEN", "ELSE", "END"], if t == "WHEN" then 0 else if t == "ELSE" then 1 else 2, e);
  }

  /** WHEN, the value and THEN. */
  lemma BranchHead(s: string, i: nat, v: string, m: nat)
    requires Trimmed(v) && Quiet(v, 0, false, false) && WordFree(v, ' ', 0, false, "THEN") && Edge(s, i)
    requires Holds(s, i, "WHEN") && i + 5 <= |s| && s[i + 4] == ' ' && Holds(s, i + 5, v) && m == i + 5 + |v| + 1
    requires m + 4 < |s| && s[m - 1] == ' ' && Holds(s, m, "THEN") && s[m + 4] == '\n'
    ensures Closes(s, i, "WHEN") && NextWord(s, i, "WHEN") && AfterWord(s, i, "WHEN") == i + 4
    ensures Trim(s[i + 4..m]) == v
    ensures var at := UntilWord(s, i + 4, 0, false, "THEN"); at < |s| && SkipFrom(s, at) == m
  {
    hide WordAt, UntilWord, SkipFrom, Quiet, WordFree;
    Keywords();
    KeywordHere(s, i, "WHEN");
    KeywordHere(s, m, "THEN");
    BranchValue(s, i + 4, v, m);
    BranchScan(s, i + 4, v, m, "THEN");
  }

  lemma BranchValue(s: string, i: nat, v: string, m: nat)
    requires Trimmed(v) && i + 1 + |v| + 1 == m <= |s| && s[i] == ' ' && Holds(s, i + 1, v) && s[m - 1] == ' '
    ensures Trim(s[i..m]) == v
  {
    hide Trim, Trimmed;
    TrimRight(v);
    SliceOfSlice(s, i, m, i + 1, m - 1);
    var x := s[i..m];
    assert x[0] == ' ' && x[1..|v| + 1] == v && x[|v| + 1] == ' ';
    assert x == " " + v + " ";
  }

  lemma BranchScan(s: string, i: nat, v: string, m: nat, kw: string)
    requires Trimmed(v) && Quiet(v, 0, false, false) && WordFree(v, ' ', 0, false, kw) && Keyword(kw)
    requires i + 1 + |v| + 1 == m < |s| && s[i] == ' ' && Holds(s, i + 1, v) && s[m - 1] == ' '
    requires SkipFrom(s, m) == m && WordAt(s, m, kw)
    ensures var at := UntilWord(s, i, 0, false, kw); at < |s| && SkipFrom(s, at) == m
  {
    hide WordAt, Quiet, WordFree;
    FreeOver(s, i + 1, v, ' ', 0, false, kw);
    WordHit(s, m - 1, kw);
    if !NextWord(s, i, kw) {
      WordStep(s, i, 0, kw);
    } else {
      EmptyValue(s, i, v, m, kw);
    }
  }

  /** The keyword right after the space: the value is empty. */
  lemma EmptyValue(s: string, i: nat, v: string, m: nat, kw: string)
    requires Trimmed(v) && WordFree(v, ' ', 0, false, kw) && Keyword(kw)
    requires i + 1 + |v| + 1 == m < |s| && s[i] == ' ' && Holds(s, i + 1, v) && s[m - 1] == ' '
    requires SkipFrom(s, m) == m && NextWord(s, i, kw)
    ensures SkipFrom(s, i) == m
  {
    assert SkipFrom(s, i) == SkipFrom(s, i + 1);
    if v != "" {
      NotNext(s, i + 1, v, ' ', kw);
    } else {
      assert SkipFrom(s, i + 1) == SkipFrom(s, m);
    }
  }

  lemma LastBranch(s: string, i: nat, v: string, body: Stmts, t: string, m: nat, a: nat)
    requires m + 4 <= |s| && i + 4 <= m && NextWord(s, i, "WHEN") && AfterWord(s, i, "WHEN") == i + 4
    requires Trim(s[i + 4..m]) == v && t != "WHEN"
    requires var at := UntilWord(s, i + 4, 0, false, "THEN"); at < |s| && SkipFrom(s, at) == m
    requires ParseStatements(s, m + 4, ["WHEN", "ELSE", "END"]) == Ok(List(body, t), a)
    ensures ParseBranches(s, i) == Ok(Branch(v, body, NoBranch), a)
  {
    hide WordAt, ParseStatements, UntilWord, SkipFrom, Trim;
  }

  lemma NextBranch(s: string, i: nat, v: string, body: Stmts, others: Branches, m: nat, e: nat, a: nat)
    requires m + 4 <= |s| && e <= |s| && i + 4 <= m && NextWord(s, i, "WHEN") && AfterWord(s, i, "WHEN") == i + 4
    requires Trim(s[i + 4..m]) == v
    requires var at := UntilWord(s, i + 4, 0, false, "THEN"); at < |s| && SkipFrom(s, at) == m
    requires ParseStatements(s, m + 4, ["WHEN", "ELSE", "END"]) == Ok(List(body, "WHEN"), e)
    requires ParseBranches(s, e) == Ok(others, a)
    ensures ParseBranches(s, i) == Ok(Branch(v, body, others), a)
  {
    hide WordAt, ParseStatements, UntilWord, SkipFrom, Trim;
  }
}
