/** Printed scripts with their keywords in any spelling, each occurrence in its own. */
module ScriptSpelling {
  import opened Cases
  import opened Scanner
  import opened Text
  import opened Script
  import opened ScriptPrinting
  import opened ScriptCases
  import opened ScriptWhole

  // ------------------------------------------------------------- which scripts are printed is no matter of case

  lemma AfterAlike(x: string, z: string, depth: int, quoted: bool)
    requires Alike(x, z) && x != ""
    ensures z != "" && Alike(After(x, quoted), After(z, quoted))
    ensures DepthAfter(z, 0, depth, quoted) == DepthAfter(x, 0, depth, quoted)
    ensures QuotedAfter(z, 0, quoted) == QuotedAfter(x, 0, quoted) && Looks(z, 0, depth, quoted) == Looks(x, 0, depth, quoted)
  {
    StepAlike(x, z, 0, depth, quoted);
    hide QuotedAfter, DepthAfter, Looks;
    var n := Stride(x, 0, quoted);
    SliceAlike(x, z, n, |x|);
    assert x[n..] == x[n..|x|] && z[n..] == z[n..|z|];
  }

  lemma {:induction false} QuietAlike(x: string, z: string, depth: nat, quoted: bool, bare: bool)
    requires Alike(x, z) && Quiet(x, depth, quoted, bare)
    ensures Quiet(z, depth, quoted, bare)
    decreases |x|
  {
    hide Alike, After, DepthAfter, QuotedAfter;
    SameLength(x, z);
    if x != "" {
      SignAlike(x, z, 0, ';');
      AfterAlike(x, z, depth, quoted);
      QuietAlike(After(x, quoted), After(z, quoted), Deeper(x, depth, quoted), QuotedAfter(x, 0, quoted), bare);
    }
  }

  lemma StartsAlike(x: string, z: string, kw: string)
    requires Alike(x, z)
    ensures StartsWord(z, kw) == StartsWord(x, kw)
  {
    if |kw| <= |x| {
      SliceAlike(x, z, 0, |kw|);
      assert x[..|kw|] == x[0..|kw|] && z[..|kw|] == z[0..|kw|];
      if |kw| < |x| { IdentChars(x[|kw|], z[|kw|]); }
    }
  }

  lemma {:induction false} WordFreeAlike(x: string, z: string, prev: char, before: char, depth: nat, quoted: bool, kw: string)
    requires Alike(x, z) && Up(prev) == Up(before) && WordFree(x, prev, depth, quoted, kw)
    ensures WordFree(z, before, depth, quoted, kw)
    decreases |x|
  {
    hide Alike, After, DepthAfter, QuotedAfter, Looks, StartsWord;
    SameLength(x, z);
    if x != "" {
      AfterAlike(x, z, depth, quoted);
      StartsAlike(x, z, kw);
      IdentChars(prev, before);
      MarksAlike(x, z, 0, '-', '-');
      FirstUp(x, z);
      WordFreeAlike(After(x, quoted), After(z, quoted), x[0], z[0], Deeper(x, depth, quoted), QuotedAfter(x, 0, quoted), kw);
    }
  }

  lemma FirstUp(x: string, z: string)
    requires Alike(x, z) && x != ""
    ensures z != "" && Up(x[0]) == Up(z[0])
  {
  }

  lemma TrimmedAlike(x: string, z: string)
    requires Alike(x, z) && Trimmed(x)
    ensures Trimmed(z)
  {
    if x != "" {
      CharAlike(x[0], z[0]);
      CharAlike(x[|x| - 1], z[|x| - 1]);
    }
  }

  lemma EndedAlike(x: string, z: string)
    requires Alike(x, z) && Ended(x)
    ensures Ended(z)
  {
    TrimmedAlike(x, z);
    QuietAlike(x, z, 0, false, true);
  }

  lemma AssignedAlike(x: string, z: string)
    requires Alike(x, z)
    ensures LooksAssigned(z) == LooksAssigned(x)
  {
    hide Alike, IdentAt, Lead, PairAt;
    IdentAtAlike(x, z, 0);
    var n := IdentAt(x, 0);
    LeadAlike(x, z, n, |x|);
    MarksAlike(x, z, Lead(x, n, |x|), ':', '=');
    MarksAlike(x, z, Lead(x, n, |x|), '-', '-');
  }

  lemma SqlAlike(x: string, z: string)
    requires Alike(x, z) && SqlText(x)
    ensures SqlText(z)
  {
    hide Alike, Ended, PairAt, LooksAssigned, StartsWord;
    EndedAlike(x, z);
    MarksAlike(x, z, 0, '-', '-');
    AssignedAlike(x, z);
    forall k | 0 <= k < |RESERVED|
      ensures !StartsWord(z, RESERVED[k])
    {
      StartsAlike(x, z, RESERVED[k]);
    }
  }

  lemma {:induction false} FitsAlike(x: Stmt, y: Stmt, z: Stmt)
    requires MixedStmt(x, y, z) && FitsStmt(y)
    ensures FitsStmt(z)
    decreases y
  {
    hide Mixed, Alike, SqlText, Ended, Trimmed, Quiet, TypeText, AssignFree, Name;
    match y
    case Sql(a) =>
      MixedAlike(x.sql, a, z.sql);
      SqlAlike(a, z.sql);
    case Assign(_, e) =>
      MixedAlike(x.expression, e, z.expression);
      EndedAlike(e, z.expression);
    case Return(e) =>
      MixedAlike(x.expression, e, z.expression);
      EndedAlike(e, z.expression);
    case Let(_, _, e) =>
      MixedAlike(x.expression, e, z.expression);
      EndedAlike(e, z.expression);
      SameLength(e, z.expression);
    case If(c, yes, no) =>
      MixedAlike(x.condition, c, z.condition);
      TrimmedAlike(c, z.condition);
      QuietAlike(c, z.condition, 0, false, false);
      FitsListAlike(x.thenBranch, yes, z.thenBranch);
      FitsListAlike(x.elseBranch, no, z.elseBranch);
    case Case(e, bs, no) =>
      MixedAlike(x.subject, e, z.subject);
      TrimmedAlike(e, z.subject);
      QuietAlike(e, z.subject, 0, false, false);
      FitsBranchesAlike(x.branches, bs, z.branches);
      FitsListAlike(x.elseBranch, no, z.elseBranch);
  }

  lemma {:induction false} FitsListAlike(x: Stmts, y: Stmts, z: Stmts)
    requires MixedStmts(x, y, z) && FitsStmts(y)
    ensures FitsStmts(z)
    decreases y
  {
    if y.Then? {
      FitsAlike(x.first, y.first, z.first);
      FitsListAlike(x.rest, y.rest, z.rest);
    }
  }

  lemma {:induction false} FitsBranchesAlike(x: Branches, y: Branches, z: Branches)
    requires MixedBranches(x, y, z) && FitsBranches(y)
    ensures FitsBranches(z)
    decreases y
  {
    hide Mixed, Alike, Trimmed, Quiet, WordFree;
    if y.Branch? {
      MixedAlike(x.value, y.value, z.value);
      TrimmedAlike(y.value, z.value);
      QuietAlike(y.value, z.value, 0, false, false);
      WordFreeAlike(y.value, z.value, ' ', ' ', 0, false, "THEN");
      FitsListAlike(x.body, y.body, z.body);
      FitsBranchesAlike(x.others, y.others, z.others);
    }
  }

  lemma FitsScriptAlike(x: Script, y: Script, z: Script)
    requires MixedScript(x, y, z) && FitsScript(y)
    ensures FitsScript(z)
  {
    FitsListAlike(x.body, y.body, z.body);
    FitsListAlike(x.handler, y.handler, z.handler);
    hide MixedStmts, FitsStmts, Mixed, Ended, Name, TypeText;
    forall k | 0 <= k < |z.declarations|
      ensures FitsDeclaration(z.declarations[k])
    {
      var a, b, c := x.declarations[k], y.declarations[k], z.declarations[k];
      assert MixedDeclaration(a, b, c) && FitsDeclaration(b);
      MixedAlike(a.defaultSql, b.defaultSql, c.defaultSql);
      EndedAlike(b.defaultSql, c.defaultSql);
    }
  }

  // ------------------------------------------------------------- printing in any spelling

  /** How a keyword is written at its occurrence; the path to the occurrence tells it from others. */
  type Speller = (string, seq<nat>) -> string

  ghost predicate Spells(sp: Speller) {
    forall kw: string, at: seq<nat> :: Upper(kw) == kw ==> Upper(sp(kw, at)) == kw
  }

  function SpellEnd(sp: Speller, at: seq<nat>, kw: string): string {
    sp("END", at + [0]) + (" " + (sp(kw, at + [1]) + ";"))
  }

  function SpellStmt(sp: Speller, at: seq<nat>, st: Stmt): string
    decreases st
  {
    match st
    case Sql(_) => PrintStmt(st)
    case Assign(_, _) => PrintStmt(st)
    case Return(e) => sp("RETURN", at) + (" " + (e + ";"))
    case Let(n, t, e) => sp("LET", at) + (" " + (LetBody(n, t, e) + ";"))
    case If(c, yes, no) =>
      sp("IF", at + [0]) + (Condition(c, ' ') + (sp("THEN", at + [1]) + (SpellStmts(sp, at + [2], yes)
      + ("\n" + (SpellElse(sp, at + [3], no) + SpellEnd(sp, at + [4], "IF"))))))
    case Case(e, bs, no) =>
      sp("CASE", at + [0]) + (Condition(e, '\n') + (SpellBranches(sp, at + [1], bs) + (SpellElse(sp, at + [2], no) + SpellEnd(sp, at + [3], "CASE"))))
  }

  function SpellStmts(sp: Speller, at: seq<nat>, ss: Stmts): string
    decreases ss, 0
  {
    match ss
    case Done => ""
    case Then(st, r) => "\n" + (SpellStmt(sp, at + [0], st) + SpellStmts(sp, at + [1], r))
  }

  function SpellElse(sp: Speller, at: seq<nat>, ss: Stmts): string
    decreases ss, 1
  {
    if ss == Done then "" else sp("ELSE", at + [0]) + (SpellStmts(sp, at + [1], ss) + "\n")
  }

  function SpellBranches(sp: Speller, at: seq<nat>, bs: Branches): string
    decreases bs
  {
    match bs
    case NoBranch => ""
    case Branch(v, body, others) =>
      sp("WHEN", at + [0]) + (" " + (v + (" " + (sp("THEN", at + [1]) + (SpellStmts(sp, at + [2], body)
      + ("\n" + SpellBranches(sp, at + [3], others)))))))
  }

  function SpellDefault(sp: Speller, at: seq<nat>, d: string): string {
    if d == "" then "" else " " + (sp("DEFAULT", at) + (" " + d))
  }

  function SpellDeclarations(sp: Speller, at: seq<nat>, ds: seq<Declaration>): string
    decreases |ds|
  {
    if ds == [] then ""
    else "\n" + ((ds[0].name + (" " + ds[0].dataType + SpellDefault(sp, at + [0], ds[0].defaultSql)) + ";") + SpellDeclarations(sp, at + [1], ds[1..]))
  }

  function SpellHandler(sp: Speller, at: seq<nat>, ss: Stmts): string {
    if ss == Done then ""
    else sp("EXCEPTION", at + [0]) + (" " + (sp("WHEN", at + [1]) + (" " + (sp("OTHER", at + [2]) + (" " + (sp("THEN", at + [3])
         + (SpellStmts(sp, at + [4], ss) + "\n")))))))
  }

  function SpellScript(sp: Speller, p: Script): string {
    (if p.declarations == [] then "" else sp("DECLARE", [0]) + (SpellDeclarations(sp, [1], p.declarations) + "\n"))
    + (sp("BEGIN", [2]) + (SpellStmts(sp, [3], p.body) + ("\n" + (SpellHandler(sp, [4], p.handler) + (sp("END", [5]) + ";")))))
  }

  // ------------------------------------------------------------- printed texts are mixed

  lemma MixedThen(t: string, s: string, u: string, x: string, y: string, z: string)
    requires Mixed(t, s, u) && Mixed(x, y, z)
    ensures Mixed(t + x, s + y, u + z)
  {
  }

  lemma MixedCopy(x: string)
    ensures Mixed(x, x, x)
  {
  }

  lemma MixedLeaf(y: string, x: string)
    requires Mixed(y, y, x)
    ensures Mixed(x, y, y)
  {
  }

  /** A keyword, and what follows. */
  lemma MixedKeyword(sp: Speller, at: seq<nat>, kw: string, x: string, y: string, z: string)
    requires Spells(sp) && Upper(kw) == kw && Mixed(x, y, z)
    ensures Mixed(kw + x, kw + y, sp(kw, at) + z)
  {
    var w := sp(kw, at);
    assert Upper(w) == kw && |Upper(w)| == |w|;
    forall k | 0 <= k < |kw|
      ensures Up(w[k]) == kw[k] && Up(kw[k]) == kw[k]
    {
      assert Upper(w)[k] == Up(w[k]) && Upper(kw)[k] == Up(kw[k]);
    }
    assert Mixed(kw, kw, w);
    MixedThen(kw, kw, w, x, y, z);
  }

  /** A text that is copied, and what follows. */
  lemma MixedText(c: string, x: string, y: string, z: string)
    requires Mixed(x, y, z)
    ensures Mixed(c + x, c + y, c + z)
  {
    MixedCopy(c);
    MixedThen(c, c, c, x, y, z);
  }

  lemma MixedLeafText(b: string, a: string, c: string)
    requires Mixed(a, a, b)
    ensures Mixed(b + c, a + c, a + c)
  {
    MixedLeaf(a, b);
    MixedCopy(c);
    MixedThen(b, a, a, c, c, c);
  }

  lemma MixedCondition(x: string, y: string, sep: char)
    requires Mixed(y, y, x)
    ensures Mixed(Condition(x, sep), Condition(y, sep), Condition(y, sep))
  {
    MixedLeaf(y, x);
    MixedCopy(" (");
    MixedCopy(")");
    MixedCopy([sep]);
    hide Mixed;
    MixedThen(" (", " (", " (", x, y, y);
    MixedThen(" (" + x, " (" + y, " (" + y, ")", ")", ")");
    MixedThen(" (" + x + ")", " (" + y + ")", " (" + y + ")", [sep], [sep], [sep]);
  }

  lemma MixedEnd(sp: Speller, at: seq<nat>, kw: string, x: string)
    requires Spells(sp) && Upper(kw) == kw && x == "END" + (" " + (kw + ";"))
    ensures Mixed(x, x, SpellEnd(sp, at, kw))
  {
    MixedCopy(";");
    assert Upper("END") == "END";
    hide Mixed, Spells, Upper;
    MixedKeyword(sp, at + [1], kw, ";", ";", ";");
    MixedText(" ", kw + ";", kw + ";", sp(kw, at + [1]) + ";");
    MixedKeyword(sp, at + [0], "END", " " + (kw + ";"), " " + (kw + ";"), " " + (sp(kw, at + [1]) + ";"));
  }

  /** The keyword with the space after it that is printed in one piece. */
  lemma SpacedKeyword(w: string, kw: string, r: string)
    requires w == kw + " "
    ensures w + r == kw + (" " + r)
  {
    ConcatAssociates(kw, " ", r);
  }

  lemma {:induction false} MixedPrint(sp: Speller, at: seq<nat>, x: Stmt, y: Stmt)
    requires Spells(sp) && MixedStmt(y, y, x)
    ensures Mixed(PrintStmt(x), PrintStmt(y), SpellStmt(sp, at, y))
    decreases y
  {
    hide Mixed, Spells, Upper, LetBody, Condition, SpellEnd;
    Uppers();
    match y
    case Sql(a) => MixedLeafText(x.sql, a, ";");
    case Assign(n, e) =>
      MixedLeafText(x.expression, e, ";");
      MixedText(n + " := ", x.expression + ";", e + ";", e + ";");
    case Return(e) =>
      MixedLeafText(x.expression, e, ";");
      MixedText(" ", x.expression + ";", e + ";", e + ";");
      MixedKeyword(sp, at, "RETURN", " " + (x.expression + ";"), " " + (e + ";"), " " + (e + ";"));
      SpacedKeyword("RETURN ", "RETURN", x.expression + ";");
      SpacedKeyword("RETURN ", "RETURN", e + ";");
    case Let(n, d, e) =>
      MixedLet(n, d, x.expression, e);
      var a, b := LetBody(n, d, x.expression) + ";", LetBody(n, d, e) + ";";
      MixedText(" ", a, b, b);
      MixedKeyword(sp, at, "LET", " " + a, " " + b, " " + b);
      SpacedKeyword("LET ", "LET", a);
      SpacedKeyword("LET ", "LET", b);
    case If(_, _, _) => MixedIf(sp, at, x, y);
    case Case(_, _, _) => MixedCase(sp, at, x, y);
  }

  lemma Uppers()
    ensures Upper("RETURN") == "RETURN" && Upper("LET") == "LET" && Upper("IF") == "IF" && Upper("THEN") == "THEN"
    ensures Upper("CASE") == "CASE" && Upper("ELSE") == "ELSE" && Upper("WHEN") == "WHEN" && Upper("END") == "END"
  {
  }

  lemma MixedLet(n: string, d: string, x: string, y: string)
    requires Mixed(y, y, x)
    ensures Mixed(LetBody(n, d, x) + ";", LetBody(n, d, y) + ";", LetBody(n, d, y) + ";")
  {
    hide Mixed, LetType;
    MixedLeaf(y, x);
    var c := LetType(d) + " := ";
    MixedText(c, x, y, y);
    MixedText(n, c + x, c + y, c + y);
    MixedCopy(";");
    MixedThen(LetBody(n, d, x), LetBody(n, d, y), LetBody(n, d, y), ";", ";", ";");
  }

  lemma {:induction false} MixedIf(sp: Speller, at: seq<nat>, x: Stmt, y: Stmt)
    requires Spells(sp) && MixedStmt(y, y, x) && y.If?
    ensures Mixed(PrintStmt(x), PrintStmt(y), SpellStmt(sp, at, y))
    decreases y, 0
  {
    hide Mixed, Spells, Upper, Condition, SpellEnd, PrintStmts, PrintElse, SpellStmts, SpellElse, MixedStmts;
    Uppers();
    EndIf();
    MixedEnd(sp, at + [4], "IF", "END IF;");
    MixedElse(sp, at + [3], x.elseBranch, y.elseBranch);
    MixedList(sp, at + [2], x.thenBranch, y.thenBranch);
    MixedCondition(x.condition, y.condition, ' ');
    IfPieces(sp, at, Condition(x.condition, ' '), Condition(y.condition, ' '),
             PrintStmts(x.thenBranch), PrintStmts(y.thenBranch), SpellStmts(sp, at + [2], y.thenBranch),
             PrintElse(x.elseBranch), PrintElse(y.elseBranch), SpellElse(sp, at + [3], y.elseBranch), SpellEnd(sp, at + [4], "IF"));
  }

  lemma EndIf()
    ensures "END IF;" == "END" + (" " + ("IF" + ";")) && "END CASE;" == "END" + (" " + ("CASE" + ";"))
  {
  }

  lemma IfPieces(sp: Speller, at: seq<nat>, xc: string, yc: string, x: string, y: string, z: string, a: string, b: string, c: string, end: string)
    requires Spells(sp) && Mixed(xc, yc, yc) && Mixed(x, y, z) && Mixed(a, b, c) && Mixed("END IF;", "END IF;", end)
    ensures Mixed("IF" + (xc + ("THEN" + (x + ("\n" + (a + "END IF;"))))), "IF" + (yc + ("THEN" + (y + ("\n" + (b + "END IF;"))))),
                  sp("IF", at + [0]) + (yc + (sp("THEN", at + [1]) + (z + ("\n" + (c + end))))))
  {
    hide Mixed, Spells, Upper;
    Uppers();
    MixedThen(a, b, c, "END IF;", "END IF;", end);
    MixedText("\n", a + "END IF;", b + "END IF;", c + end);
    var t, s, u := "\n" + (a + "END IF;"), "\n" + (b + "END IF;"), "\n" + (c + end);
    MixedThen(x, y, z, t, s, u);
    MixedKeyword(sp, at + [1], "THEN", x + t, y + s, z + u);
    MixedThen(xc, yc, yc, "THEN" + (x + t), "THEN" + (y + s), sp("THEN", at + [1]) + (z + u));
    MixedKeyword(sp, at + [0], "IF", xc + ("THEN" + (x + t)), yc + ("THEN" + (y + s)), yc + (sp("THEN", at + [1]) + (z + u)));
  }

  lemma {:induction false} MixedCase(sp: Speller, at: seq<nat>, x: Stmt, y: Stmt)
    requires Spells(sp) && MixedStmt(y, y, x) && y.Case?
    ensures Mixed(PrintStmt(x), PrintStmt(y), SpellStmt(sp, at, y))
    decreases y, 0
  {
    hide Mixed, Spells, Upper, Condition, SpellEnd, PrintBranches, PrintElse, SpellBranches, SpellElse, MixedStmts, MixedBranches;
    Uppers();
    EndIf();
    MixedEnd(sp, at + [3], "CASE", "END CASE;");
    MixedElse(sp, at + [2], x.elseBranch, y.elseBranch);
    MixedCases(sp, at + [1], x.branches, y.branches);
    MixedCondition(x.subject, y.subject, '\n');
    CasePieces(sp, at, Condition(x.subject, '\n'), Condition(y.subject, '\n'),
               PrintBranches(x.branches), PrintBranches(y.branches), SpellBranches(sp, at + [1], y.branches),
               PrintElse(x.elseBranch), PrintElse(y.elseBranch), SpellElse(sp, at + [2], y.elseBranch), SpellEnd(sp, at + [3], "CASE"));
  }

  lemma CasePieces(sp: Speller, at: seq<nat>, xc: string, yc: string, x: string, y: string, z: string, a: string, b: string, c: string, end: string)
    requires Spells(sp) && Mixed(xc, yc, yc) && Mixed(x, y, z) && Mixed(a, b, c) && Mixed("END CASE;", "END CASE;", end)
    ensures Mixed("CASE" + (xc + (x + (a + "END CASE;"))), "CASE" + (yc + (y + (b + "END CASE;"))), sp("CASE", at + [0]) + (yc + (z + (c + end))))
  {
    hide Mixed, Spells, Upper;
    Uppers();
    MixedThen(a, b, c, "END CASE;", "END CASE;", end);
    MixedThen(x, y, z, a + "END CASE;", b + "END CASE;", c + end);
    MixedThen(xc, yc, yc, x + (a + "END CASE;"), y + (b + "END CASE;"), z + (c + end));
    MixedKeyword(sp, at + [0], "CASE", xc + (x + (a + "END CASE;")), yc + (y + (b + "END CASE;")), yc + (z + (c + end)));
  }

  lemma {:induction false} MixedList(sp: Speller, at: seq<nat>, x: Stmts, y: Stmts)
    requires Spells(sp) && MixedStmts(y, y, x)
    ensures Mixed(PrintStmts(x), PrintStmts(y), SpellStmts(sp, at, y))
    decreases y, 0
  {
    hide Mixed, Spells, PrintStmt, SpellStmt, MixedStmt;
    if y.Done? {
      MixedCopy("");
    } else {
      MixedPrint(sp, at + [0], x.first, y.first);
      MixedList(sp, at + [1], x.rest, y.rest);
      var t, s, u := PrintStmt(x.first), PrintStmt(y.first), SpellStmt(sp, at + [0], y.first);
      var a, b, c := PrintStmts(x.rest), PrintStmts(y.rest), SpellStmts(sp, at + [1], y.rest);
      MixedThen(t, s, u, a, b, c);
      MixedText("\n", t + a, s + b, u + c);
    }
  }

  lemma {:induction false} MixedElse(sp: Speller, at: seq<nat>, x: Stmts, y: Stmts)
    requires Spells(sp) && MixedStmts(y, y, x)
    ensures Mixed(PrintElse(x), PrintElse(y), SpellElse(sp, at, y))
    decreases y, 1
  {
    assert x == Done <==> y == Done;
    hide Mixed, Spells, PrintStmts, SpellStmts, MixedStmts, Upper;
    Uppers();
    MixedCopy("");
    if y != Done {
      MixedList(sp, at + [1], x, y);
      MixedCopy("\n");
      var t, s, u := PrintStmts(x), PrintStmts(y), SpellStmts(sp, at + [1], y);
      MixedThen(t, s, u, "\n", "\n", "\n");
      MixedKeyword(sp, at + [0], "ELSE", t + "\n", s + "\n", u + "\n");
    }
  }

  lemma {:induction false} MixedCases(sp: Speller, at: seq<nat>, x: Branches, y: Branches)
    requires Spells(sp) && MixedBranches(y, y, x)
    ensures Mixed(PrintBranches(x), PrintBranches(y), SpellBranches(sp, at, y))
    decreases y
  {
    hide Mixed, Spells, PrintStmts, SpellStmts, MixedStmts;
    if y.NoBranch? {
      MixedCopy("");
    } else {
      MixedList(sp, at + [2], x.body, y.body);
      MixedCases(sp, at + [3], x.others, y.others);
      MixedLeaf(y.value, x.value);
      BranchPieces(sp, at, x.value, y.value, PrintStmts(x.body), PrintStmts(y.body), SpellStmts(sp, at + [2], y.body),
                   PrintBranches(x.others), PrintBranches(y.others), SpellBranches(sp, at + [3], y.others));
    }
  }

  lemma BranchPieces(sp: Speller, at: seq<nat>, xv: string, yv: string, x: string, y: string, z: string, a: string, b: string, c: string)
    requires Spells(sp) && Mixed(xv, yv, yv) && Mixed(x, y, z) && Mixed(a, b, c)
    ensures Mixed("WHEN" + (" " + (xv + (" " + ("THEN" + (x + ("\n" + a)))))), "WHEN" + (" " + (yv + (" " + ("THEN" + (y + ("\n" + b)))))),
                  sp("WHEN", at + [0]) + (" " + (yv + (" " + (sp("THEN", at + [1]) + (z + ("\n" + c)))))))
  {
    hide Mixed, Spells, Upper;
    Uppers();
    MixedText("\n", a, b, c);
    MixedThen(x, y, z, "\n" + a, "\n" + b, "\n" + c);
    MixedKeyword(sp, at + [1], "THEN", x + ("\n" + a), y + ("\n" + b), z + ("\n" + c));
    var t, s, u := "THEN" + (x + ("\n" + a)), "THEN" + (y + ("\n" + b)), sp("THEN", at + [1]) + (z + ("\n" + c));
    MixedText(" ", t, s, u);
    MixedThen(xv, yv, yv, " " + t, " " + s, " " + u);
    MixedText(" ", xv + (" " + t), yv + (" " + s), yv + (" " + u));
    MixedKeyword(sp, at + [0], "WHEN", " " + (xv + (" " + t)), " " + (yv + (" " + s)), " " + (yv + (" " + u)));
  }

  lemma MixedDefault(sp: Speller, at: seq<nat>, x: string, y: string)
    requires Spells(sp) && Mixed(y, y, x)
    ensures Mixed(DefaultPart(x), DefaultPart(y), SpellDefault(sp, at, y))
  {
    assert |x| == |y|;
    hide Mixed, Spells, Upper;
    OuterUppers();
    MixedCopy("");
    MixedLeaf(y, x);
    MixedText(" ", x, y, y);
    MixedKeyword(sp, at, "DEFAULT", " " + x, " " + y, " " + y);
    MixedText(" ", "DEFAULT" + (" " + x), "DEFAULT" + (" " + y), sp("DEFAULT", at) + (" " + y));
    DefaultText(x);
    DefaultText(y);
  }

  lemma DefaultText(x: string)
    ensures " DEFAULT " + x == " " + ("DEFAULT" + (" " + x))
  {
    ConcatAssociates("DEFAULT", " ", x);
    ConcatAssociates(" ", "DEFAULT" + " ", x);
  }

  lemma OuterUppers()
    ensures Upper("DEFAULT") == "DEFAULT" && Upper("DECLARE") == "DECLARE" && Upper("BEGIN") == "BEGIN" && Upper("END") == "END"
    ensures Upper("EXCEPTION") == "EXCEPTION" && Upper("WHEN") == "WHEN" && Upper("OTHER") == "OTHER" && Upper("THEN") == "THEN"
  {
  }

  lemma {:induction false} MixedDeclared(sp: Speller, at: seq<nat>, x: seq<Declaration>, y: seq<Declaration>)
    requires Spells(sp) && MixedDeclarations(y, y, x)
    ensures Mixed(PrintDeclarations(x), PrintDeclarations(y), SpellDeclarations(sp, at, y))
    decreases |y|
  {
    hide Mixed, Spells, DefaultPart, SpellDefault;
    if y == [] {
      MixedCopy("");
    } else {
      assert MixedDeclaration(y[0], y[0], x[0]);
      forall k | 0 <= k < |y| - 1
        ensures MixedDeclaration(y[1..][k], y[1..][k], x[1..][k])
      {
        assert MixedDeclaration(y[k + 1], y[k + 1], x[k + 1]);
      }
      MixedDeclared(sp, at + [1], x[1..], y[1..]);
      MixedDefault(sp, at + [0], x[0].defaultSql, y[0].defaultSql);
      DeclarationPieces(y[0].name, " " + y[0].dataType, DefaultPart(x[0].defaultSql), DefaultPart(y[0].defaultSql),
                        SpellDefault(sp, at + [0], y[0].defaultSql), PrintDeclarations(x[1..]), PrintDeclarations(y[1..]),
                        SpellDeclarations(sp, at + [1], y[1..]));
    }
  }

  lemma DeclarationPieces(n: string, d: string, x: string, y: string, z: string, a: string, b: string, c: string)
    requires Mixed(x, y, z) && Mixed(a, b, c)
    ensures Mixed("\n" + ((n + (d + x) + ";") + a), "\n" + ((n + (d + y) + ";") + b), "\n" + ((n + (d + z) + ";") + c))
  {
    hide Mixed;
    MixedText(d, x, y, z);
    MixedText(n, d + x, d + y, d + z);
    MixedCopy(";");
    MixedThen(n + (d + x), n + (d + y), n + (d + z), ";", ";", ";");
    MixedThen(n + (d + x) + ";", n + (d + y) + ";", n + (d + z) + ";", a, b, c);
    MixedText("\n", n + (d + x) + ";" + a, n + (d + y) + ";" + b, n + (d + z) + ";" + c);
  }

  lemma HandlerText(r: string)
    ensures " WHEN OTHER THEN" + r == " " + ("WHEN" + (" " + ("OTHER" + (" " + ("THEN" + r)))))
  {
    assert " WHEN OTHER THEN" == " " + ("WHEN" + (" " + ("OTHER" + (" " + "THEN"))));
    ConcatAssociates(" ", "THEN", r);
    ConcatAssociates("OTHER", " " + "THEN", r);
    ConcatAssociates(" ", "OTHER" + (" " + "THEN"), r);
    ConcatAssociates("WHEN", " " + ("OTHER" + (" " + "THEN")), r);
    ConcatAssociates(" ", "WHEN" + (" " + ("OTHER" + (" " + "THEN"))), r);
  }

  lemma MixedHandler(sp: Speller, at: seq<nat>, x: Stmts, y: Stmts)
    requires Spells(sp) && MixedStmts(y, y, x)
    ensures Mixed(PrintHandler(x), PrintHandler(y), SpellHandler(sp, at, y))
  {
    assert x == Done <==> y == Done;
    hide Mixed, Spells, PrintStmts, SpellStmts, MixedStmts;
    MixedCopy("");
    if y != Done {
      MixedList(sp, at + [4], x, y);
      MixedCopy("\n");
      var t, s, u := PrintStmts(x), PrintStmts(y), SpellStmts(sp, at + [4], y);
      MixedThen(t, s, u, "\n", "\n", "\n");
      HandlerPieces(sp, at, t + "\n", s + "\n", u + "\n");
      HandlerText(t + "\n");
      HandlerText(s + "\n");
    }
  }

  lemma HandlerPieces(sp: Speller, at: seq<nat>, x: string, y: string, z: string)
    requires Spells(sp) && Mixed(x, y, z)
    ensures Mixed("EXCEPTION" + (" " + ("WHEN" + (" " + ("OTHER" + (" " + ("THEN" + x)))))),
                  "EXCEPTION" + (" " + ("WHEN" + (" " + ("OTHER" + (" " + ("THEN" + y)))))),
                  sp("EXCEPTION", at + [0]) + (" " + (sp("WHEN", at + [1]) + (" " + (sp("OTHER", at + [2]) + (" " + (sp("THEN", at + [3]) + z)))))))
  {
    hide Mixed, Spells, Upper;
    OuterUppers();
    MixedKeyword(sp, at + [3], "THEN", x, y, z);
    var a, b, c := "THEN" + x, "THEN" + y, sp("THEN", at + [3]) + z;
    MixedText(" ", a, b, c);
    MixedKeyword(sp, at + [2], "OTHER", " " + a, " " + b, " " + c);
    a, b, c := "OTHER" + (" " + a), "OTHER" + (" " + b), sp("OTHER", at + [2]) + (" " + c);
    MixedText(" ", a, b, c);
    MixedKeyword(sp, at + [1], "WHEN", " " + a, " " + b, " " + c);
    a, b, c := "WHEN" + (" " + a), "WHEN" + (" " + b), sp("WHEN", at + [1]) + (" " + c);
    MixedText(" ", a, b, c);
    MixedKeyword(sp, at + [0], "EXCEPTION", " " + a, " " + b, " " + c);
  }

  lemma MixedWhole(sp: Speller, x: Script, y: Script)
    requires Spells(sp) && MixedScript(y, y, x)
    ensures Mixed(PrintScript(x), PrintScript(y), SpellScript(sp, y))
  {
    assert x.declarations == [] <==> y.declarations == [];
    hide Mixed, Spells, Upper, PrintStmts, SpellStmts, PrintDeclarations, SpellDeclarations, PrintHandler, SpellHandler, MixedStmts, MixedDeclarations;
    OuterUppers();
    MixedDeclared(sp, [1], x.declarations, y.declarations);
    MixedList(sp, [3], x.body, y.body);
    MixedHandler(sp, [4], x.handler, y.handler);
    MixedCopy("");
    HeadPieces(sp, PrintDeclarations(x.declarations), PrintDeclarations(y.declarations), SpellDeclarations(sp, [1], y.declarations));
    BodyPieces(sp, PrintStmts(x.body), PrintStmts(y.body), SpellStmts(sp, [3], y.body),
               PrintHandler(x.handler), PrintHandler(y.handler), SpellHandler(sp, [4], y.handler));
    var a, b, c := if y.declarations == [] then "" else "DECLARE" + (PrintDeclarations(x.declarations) + "\n"),
                   if y.declarations == [] then "" else "DECLARE" + (PrintDeclarations(y.declarations) + "\n"),
                   if y.declarations == [] then "" else sp("DECLARE", [0]) + (SpellDeclarations(sp, [1], y.declarations) + "\n");
    MixedThen(a, b, c, "BEGIN" + (PrintStmts(x.body) + ("\n" + (PrintHandler(x.handler) + "END;"))),
              "BEGIN" + (PrintStmts(y.body) + ("\n" + (PrintHandler(y.handler) + "END;"))),
              sp("BEGIN", [2]) + (SpellStmts(sp, [3], y.body) + ("\n" + (SpellHandler(sp, [4], y.handler) + (sp("END", [5]) + ";")))));
  }

  lemma HeadPieces(sp: Speller, x: string, y: string, z: string)
    requires Spells(sp) && Mixed(x, y, z)
    ensures Mixed("DECLARE" + (x + "\n"), "DECLARE" + (y + "\n"), sp("DECLARE", [0]) + (z + "\n"))
  {
    hide Mixed, Spells, Upper;
    OuterUppers();
    MixedCopy("\n");
    MixedThen(x, y, z, "\n", "\n", "\n");
    MixedKeyword(sp, [0], "DECLARE", x + "\n", y + "\n", z + "\n");
  }

  lemma BodyPieces(sp: Speller, x: string, y: string, z: string, a: string, b: string, c: string)
    requires Spells(sp) && Mixed(x, y, z) && Mixed(a, b, c)
    ensures Mixed("BEGIN" + (x + ("\n" + (a + "END;"))), "BEGIN" + (y + ("\n" + (b + "END;"))),
                  sp("BEGIN", [2]) + (z + ("\n" + (c + (sp("END", [5]) + ";")))))
  {
    hide Mixed, Spells, Upper;
    OuterUppers();
    MixedCopy(";");
    MixedKeyword(sp, [5], "END", ";", ";", ";");
    assert "END" + ";" == "END;";
    var end := sp("END", [5]) + ";";
    MixedThen(a, b, c, "END;", "END;", end);
    MixedText("\n", a + "END;", b + "END;", c + end);
    MixedThen(x, y, z, "\n" + (a + "END;"), "\n" + (b + "END;"), "\n" + (c + end));
    MixedKeyword(sp, [2], "BEGIN", x + ("\n" + (a + "END;")), y + ("\n" + (b + "END;")), z + ("\n" + (c + end)));
  }

  // ------------------------------------------------------------- the main result

  lemma GoodReadings(a: Reading<Script>, p: Script, c: Reading<Script>)
    requires ScriptReadings(a, Good(p), c)
    ensures a.Good? && c.Good? && MixedScript(a.value, p, c.value)
  {
    hide MixedScript;
  }

  /** Whatever the spelling of each of its keywords, the printed script parses back to itself: what
      is not a keyword comes back letter by letter. */
  lemma SpelledRound(sp: Speller, p: Script)
    requires Spells(sp) && FitsScript(p)
    ensures ParseScript(SpellScript(sp, p)) == Good(p)
  {
    var s, u := PrintScript(p), SpellScript(sp, p);
    hide *;
    ScriptRound(p);
    MixedCopy(s);
    ScriptMixed(s, s, s);
    GoodReadings(Good(p), p, Good(p));
    MixedWhole(sp, p, p);
    ScriptMixed(s, s, u);
    GoodReadings(Good(p), p, ParseScript(u));
    var q := ParseScript(u).value;
    FitsScriptAlike(p, p, q);
    ScriptRound(q);
    MixedWhole(sp, q, p);
    ScriptMixed(PrintScript(q), s, u);
    GoodReadings(Good(q), p, Good(q));
    SameScript(q, p);
  }

  // ------------------------------------------------------------- a script in lower case

  function Low(c: char): char { if 'A' <= c <= 'Z' then (c as int + 32) as char else c }

  function Lower(s: string): (t: string)
    ensures |t| == |s| && forall i :: 0 <= i < |s| ==> t[i] == Low(s[i])
  {
    seq(|s|, i requires 0 <= i < |s| => Low(s[i]))
  }

  function InLower(kw: string, at: seq<nat>): string { Lower(kw) }

  lemma LowerSpells()
    ensures Spells(InLower)
  {
    forall kw: string, at: seq<nat> | Upper(kw) == kw
      ensures Upper(InLower(kw, at)) == kw
    {
      forall i | 0 <= i < |kw|
        ensures Upper(Lower(kw))[i] == kw[i]
      {
        assert Upper(kw)[i] == Up(kw[i]);
      }
    }
  }

  /** A script in lower case. */
  lemma LowerCaseScript()
    ensures ParseScript("begin\nreturn 1;\nend;") == Good(Script([], Then(Return("1"), Done), Done))
  {
    var p := Script([], Then(Return("1"), Done), Done);
    LowerSpells();
    OneEnded();
    assert FitsScript(p) by { hide Ended; }
    LowerText();
    hide *;
    SpelledRound(InLower, p);
  }

  lemma OneEnded()
    ensures Ended("1")
  {
    assert After("1", false) == "" && Deeper("1", 0, false) == 0;
  }

  lemma LowerText()
    ensures SpellScript(InLower, Script([], Then(Return("1"), Done), Done)) == "begin\nreturn 1;\nend;"
  {
    var ss := Then(Return("1"), Done);
    assert Lower("BEGIN") == "begin" && Lower("RETURN") == "return" && Lower("END") == "end";
    assert SpellStmts(InLower, [3], ss) == "\nreturn 1;";
  }
}
