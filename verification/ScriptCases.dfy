/** The script parser does not see the case of letters, except in what it copies. */
module ScriptCases {
  import opened Cases
  import opened Scanner
  import opened Text
  import opened Script

  // ------------------------------------------------------------- scans

  lemma IdentChars(c: char, d: char)
    requires Up(c) == Up(d)
    ensures Letter(c) == Letter(d) && IdentChar(c) == IdentChar(d)
  {
  }

  lemma {:induction false} SkipAlike(s: string, u: string, i: nat)
    requires Alike(s, u) && i <= |s|
    ensures SkipFrom(u, i) == SkipFrom(s, i)
    decreases |s| - i
  {
    SameLength(s, u);
    if i < |s| {
      CharAlike(s[i], u[i]);
      MarksAlike(s, u, i, '-', '-');
      if IsSpace(s[i]) {
        SkipAlike(s, u, i + 1);
      } else if PairAt(s, i, '-', '-') {
        LineAlike(s, u, i + 2);
        hide Alike;
        SkipAlike(s, u, LineEnd(s, i + 2));
      }
    }
  }

  lemma WordAlike(s: string, u: string, j: nat, kw: string)
    requires Alike(s, u)
    ensures WordAt(u, j, kw) == WordAt(s, j, kw)
  {
    if j + |kw| <= |s| {
      SliceAlike(s, u, j, j + |kw|);
      if j > 0 { IdentChars(s[j - 1], u[j - 1]); }
      if j + |kw| < |s| { IdentChars(s[j + |kw|], u[j + |kw|]); }
    }
  }

  lemma NextAlike(s: string, u: string, i: nat, kw: string)
    requires Alike(s, u) && i <= |s|
    ensures |u| == |s| && NextWord(u, i, kw) == NextWord(s, i, kw)
    ensures NextWord(s, i, kw) ==> AfterWord(u, i, kw) == AfterWord(s, i, kw)
  {
    SameLength(s, u);
    SkipAlike(s, u, i);
    WordAlike(s, u, SkipFrom(s, i), kw);
    hide WordAt, SkipFrom, Alike;
  }

  lemma {:induction false} FirstAlike(s: string, u: string, i: nat, words: seq<string>)
    requires Alike(s, u) && i <= |s|
    ensures |u| == |s| && FirstWord(u, i, words) == FirstWord(s, i, words)
    decreases |words|
  {
    SameLength(s, u);
    if words != [] {
      NextAlike(s, u, i, words[0]);
      hide NextWord, Alike;
      FirstAlike(s, u, i, words[1..]);
    }
  }

  lemma SemicolonAlike(s: string, u: string, i: nat)
    requires Alike(s, u) && i <= |s|
    ensures |u| == |s| && AfterSemicolon(u, i) == AfterSemicolon(s, i)
  {
    SameLength(s, u);
    SkipAlike(s, u, i);
    var k := SkipFrom(s, i);
    if k < |s| { SignAlike(s, u, k, ';'); }
  }

  lemma {:induction false} RunAlike(s: string, u: string, i: nat)
    requires Alike(s, u) && i <= |s|
    ensures IdentRun(u, i) == IdentRun(s, i)
    decreases |s| - i
  {
    if i < |s| {
      IdentChars(s[i], u[i]);
      if IdentChar(s[i]) { RunAlike(s, u, i + 1); }
    }
  }

  lemma IdentAtAlike(s: string, u: string, i: nat)
    requires Alike(s, u) && i <= |s|
    ensures |u| == |s| && IdentAt(u, i) == IdentAt(s, i)
  {
    SameLength(s, u);
    if i < |s| {
      IdentChars(s[i], u[i]);
      SignAlike(s, u, i, '_');
      RunAlike(s, u, i + 1);
    }
  }

  /** One step of a scan. */
  lemma StepAlike(s: string, u: string, i: nat, depth: int, quoted: bool)
    requires Alike(s, u) && i < |s|
    ensures |u| == |s| && Stride(u, i, quoted) == Stride(s, i, quoted) && QuotedAfter(u, i, quoted) == QuotedAfter(s, i, quoted)
    ensures DepthAfter(u, i, depth, quoted) == DepthAfter(s, i, depth, quoted) && Looks(u, i, depth, quoted) == Looks(s, i, depth, quoted)
    ensures NextQuoted(u, i, quoted) == NextQuoted(s, i, quoted)
  {
    CharAlike(s[i], u[i]);
    if i + 1 < |s| { CharAlike(s[i + 1], u[i + 1]); }
  }

  lemma {:induction false} UntilSemicolonAlike(s: string, u: string, i: nat, depth: int, quoted: bool)
    requires Alike(s, u) && i <= |s|
    ensures |u| == |s| && UntilSemicolon(u, i, depth, quoted) == UntilSemicolon(s, i, depth, quoted)
    decreases |s| - i
  {
    hide Alike, Stride, QuotedAfter, DepthAfter;
    SameLength(s, u);
    if i < |s| {
      SignAlike(s, u, i, ';');
      StepAlike(s, u, i, depth, quoted);
      UntilSemicolonAlike(s, u, i + Stride(s, i, quoted), DepthAfter(s, i, depth, quoted), QuotedAfter(s, i, quoted));
    }
  }

  lemma {:induction false} UntilWordAlike(s: string, u: string, i: nat, depth: int, quoted: bool, kw: string)
    requires Alike(s, u) && i <= |s|
    ensures |u| == |s| && UntilWord(u, i, depth, quoted, kw) == UntilWord(s, i, depth, quoted, kw)
    decreases |s| - i
  {
    hide Alike, Stride, QuotedAfter, DepthAfter, Looks, NextWord;
    SameLength(s, u);
    if i < |s| {
      NextAlike(s, u, i, kw);
      StepAlike(s, u, i, depth, quoted);
      UntilWordAlike(s, u, i + Stride(s, i, quoted), DepthAfter(s, i, depth, quoted), QuotedAfter(s, i, quoted), kw);
    }
  }

  lemma {:induction false} TopAssignAlike(s: string, u: string, i: nat, depth: int, quoted: bool)
    requires Alike(s, u)
    ensures TopAssign(u, i, depth, quoted) == TopAssign(s, i, depth, quoted)
    decreases |s| - i
  {
    hide Alike, DepthAfter, NextQuoted, PairAt;
    SameLength(s, u);
    if i + 2 <= |s| {
      StepAlike(s, u, i, depth, quoted);
      MarksAlike(s, u, i, ':', '=');
      StepAlike(s, u, i, depth, NextQuoted(s, i, quoted));
      TopAssignAlike(s, u, i + 1, DepthAfter(s, i, depth, quoted), NextQuoted(s, i, quoted));
    }
  }

  lemma {:induction false} TopWordAlike(s: string, u: string, i: nat, depth: int, quoted: bool, kw: string)
    requires Alike(s, u)
    ensures TopWord(u, i, depth, quoted, kw) == TopWord(s, i, depth, quoted, kw)
    decreases |s| - i
  {
    hide Alike, DepthAfter, NextQuoted, WordAt;
    SameLength(s, u);
    if i + |kw| <= |s| && i < |s| {
      StepAlike(s, u, i, depth, quoted);
      WordAlike(s, u, i, kw);
      TopWordAlike(s, u, i + 1, DepthAfter(s, i, depth, quoted), NextQuoted(s, i, quoted), kw);
    }
  }

  // ------------------------------------------------------------- mixed texts

  /** Three spellings of one text; where the second and the third differ, the first is as the
      second. */
  predicate Mixed(t: string, s: string, u: string) {
    |t| == |s| == |u|
    && forall k :: 0 <= k < |s| ==> Up(t[k]) == Up(s[k]) == Up(u[k]) && (s[k] != u[k] ==> t[k] == s[k])
  }

  lemma MixedAlike(t: string, s: string, u: string)
    requires Mixed(t, s, u)
    ensures Alike(s, t) && Alike(s, u) && |t| == |s| == |u|
  {
  }

  lemma MixedSame(t: string, s: string, u: string)
    requires Mixed(t, s, u) && t == u
    ensures s == u
  {
  }

  lemma MixedSlice(t: string, s: string, u: string, a: nat, b: nat)
    requires Mixed(t, s, u) && a <= b <= |s|
    ensures Mixed(t[a..b], s[a..b], u[a..b])
  {
  }

  lemma MixedTrim(t: string, s: string, u: string)
    requires Mixed(t, s, u)
    ensures Mixed(Trim(t), Trim(s), Trim(u))
  {
    MixedAlike(t, s, u);
    TrimAlike(s, t);
    TrimAlike(s, u);
    hide Mixed, Trim;
    var a := Lead(s, 0, |s|);
    MixedSlice(t, s, u, a, Tail(s, a, |s|));
  }

  lemma MixedOuter(t: string, s: string, u: string)
    requires Mixed(t, s, u)
    ensures Mixed(TrimOuter(t), TrimOuter(s), TrimOuter(u))
  {
    hide Trim, Mixed, Alike;
    MixedTrim(t, s, u);
    var a, b, c := Trim(t), Trim(s), Trim(u);
    MixedAlike(a, b, c);
    if |b| >= 2 {
      SignAlike(b, a, 0, '(');
      SignAlike(b, c, 0, '(');
      SignAlike(b, a, |b| - 1, ')');
      SignAlike(b, c, |b| - 1, ')');
      MixedSlice(a, b, c, 1, |b| - 1);
      MixedTrim(a[1..|b| - 1], b[1..|b| - 1], c[1..|b| - 1]);
    }
  }

  lemma MixedUpper(t: string, s: string, u: string)
    requires Mixed(t, s, u)
    ensures Upper(t) == Upper(s) == Upper(u)
  {
    MixedAlike(t, s, u);
    AlikeIffUpper(s, t);
    AlikeIffUpper(s, u);
  }

  // ------------------------------------------------------------- mixed scripts

  /** Names and types are read in upper case; everything else is mixed. */
  predicate MixedStmt(x: Stmt, y: Stmt, z: Stmt) {
    match y
    case Sql(a) => x.Sql? && z.Sql? && Mixed(x.sql, a, z.sql)
    case Assign(n, e) => x.Assign? && z.Assign? && x.name == n == z.name && Mixed(x.expression, e, z.expression)
    case Return(e) => x.Return? && z.Return? && Mixed(x.expression, e, z.expression)
    case Let(n, d, e) =>
      x.Let? && z.Let? && x.name == n == z.name && x.dataType == d == z.dataType && Mixed(x.expression, e, z.expression)
    case If(c, yes, no) =>
      x.If? && z.If? && Mixed(x.condition, c, z.condition)
      && MixedStmts(x.thenBranch, yes, z.thenBranch) && MixedStmts(x.elseBranch, no, z.elseBranch)
    case Case(e, bs, no) =>
      x.Case? && z.Case? && Mixed(x.subject, e, z.subject)
      && MixedBranches(x.branches, bs, z.branches) && MixedStmts(x.elseBranch, no, z.elseBranch)
  }

  predicate MixedStmts(x: Stmts, y: Stmts, z: Stmts) {
    match y
    case Done => x.Done? && z.Done?
    case Then(first, rest) => x.Then? && z.Then? && MixedStmt(x.first, first, z.first) && MixedStmts(x.rest, rest, z.rest)
  }

  predicate MixedBranches(x: Branches, y: Branches, z: Branches) {
    match y
    case NoBranch => x.NoBranch? && z.NoBranch?
    case Branch(v, body, others) =>
      x.Branch? && z.Branch? && Mixed(x.value, v, z.value) && MixedStmts(x.body, body, z.body) && MixedBranches(x.others, others, z.others)
  }

  predicate MixedDeclaration(x: Declaration, y: Declaration, z: Declaration) {
    x.name == y.name == z.name && x.dataType == y.dataType == z.dataType && Mixed(x.defaultSql, y.defaultSql, z.defaultSql)
  }

  predicate MixedDeclarations(x: seq<Declaration>, y: seq<Declaration>, z: seq<Declaration>) {
    |x| == |y| == |z| && forall k :: 0 <= k < |y| ==> MixedDeclaration(x[k], y[k], z[k])
  }

  predicate MixedScript(x: Script, y: Script, z: Script) {
    MixedDeclarations(x.declarations, y.declarations, z.declarations)
    && MixedStmts(x.body, y.body, z.body) && MixedStmts(x.handler, y.handler, z.handler)
  }

  /** If the first script is the third, the second is too. */
  lemma {:induction false} SameStmt(x: Stmt, y: Stmt)
    requires MixedStmt(x, y, x)
    ensures x == y
    decreases y
  {
    hide Mixed;
    match y
    case Sql(a) => MixedSame(x.sql, a, x.sql);
    case Assign(_, e) => MixedSame(x.expression, e, x.expression);
    case Return(e) => MixedSame(x.expression, e, x.expression);
    case Let(_, _, e) => MixedSame(x.expression, e, x.expression);
    case If(c, yes, no) =>
      MixedSame(x.condition, c, x.condition);
      SameStmts(x.thenBranch, yes);
      SameStmts(x.elseBranch, no);
    case Case(e, bs, no) =>
      MixedSame(x.subject, e, x.subject);
      SameBranches(x.branches, bs);
      SameStmts(x.elseBranch, no);
  }

  lemma {:induction false} SameStmts(x: Stmts, y: Stmts)
    requires MixedStmts(x, y, x)
    ensures x == y
    decreases y
  {
    if y.Then? {
      SameStmt(x.first, y.first);
      SameStmts(x.rest, y.rest);
    }
  }

  lemma {:induction false} SameBranches(x: Branches, y: Branches)
    requires MixedBranches(x, y, x)
    ensures x == y
    decreases y
  {
    if y.Branch? {
      MixedSame(x.value, y.value, x.value);
      SameStmts(x.body, y.body);
      SameBranches(x.others, y.others);
    }
  }

  lemma SameScript(x: Script, y: Script)
    requires MixedScript(x, y, x)
    ensures x == y
  {
    SameStmts(x.body, y.body);
    SameStmts(x.handler, y.handler);
    hide MixedStmts, Mixed;
    forall k | 0 <= k < |y.declarations|
      ensures x.declarations[k] == y.declarations[k]
    {
      assert MixedDeclaration(x.declarations[k], y.declarations[k], x.declarations[k]);
      MixedSame(x.declarations[k].defaultSql, y.declarations[k].defaultSql, x.declarations[k].defaultSql);
    }
  }

  // ------------------------------------------------------------- mixed texts read as mixed scripts

  /** Three steps of the parser end alike. */
  predicate SameEnd<T>(a: Step<T>, b: Step<T>, c: Step<T>) {
    match b
    case Err(f) => a.Err? && c.Err? && a.fault == f == c.fault
    case Ok(_, k) => a.Ok? && c.Ok? && a.pos == k == c.pos
  }

  predicate StmtSteps(a: Step<Stmt>, b: Step<Stmt>, c: Step<Stmt>) {
    SameEnd(a, b, c) && (b.Ok? ==> MixedStmt(a.value, b.value, c.value))
  }

  predicate StmtsSteps(a: Step<Stmts>, b: Step<Stmts>, c: Step<Stmts>) {
    SameEnd(a, b, c) && (b.Ok? ==> MixedStmts(a.value, b.value, c.value))
  }

  predicate BranchesSteps(a: Step<Branches>, b: Step<Branches>, c: Step<Branches>) {
    SameEnd(a, b, c) && (b.Ok? ==> MixedBranches(a.value, b.value, c.value))
  }

  predicate ListSteps(a: Step<List>, b: Step<List>, c: Step<List>) {
    SameEnd(a, b, c)
    && (b.Ok? ==> MixedStmts(a.value.stmts, b.value.stmts, c.value.stmts)
                  && a.value.terminator == b.value.terminator == c.value.terminator)
  }

  lemma MixedName(t: string, s: string, u: string, n: nat)
    requires Mixed(t, s, u) && n <= |s|
    ensures Upper(t[..n]) == Upper(s[..n]) == Upper(u[..n]) && Mixed(t[n..], s[n..], u[n..])
  {
    MixedSlice(t, s, u, 0, n);
    MixedUpper(t[0..n], s[0..n], u[0..n]);
    MixedSlice(t, s, u, n, |s|);
    assert t[..n] == t[0..n] && s[..n] == s[0..n] && u[..n] == u[0..n];
    assert t[n..] == t[n..|s|] && s[n..] == s[n..|s|] && u[n..] == u[n..|s|];
  }

  lemma MixedTrimUpper(t: string, s: string, u: string)
    requires Mixed(t, s, u)
    ensures Upper(Trim(t)) == Upper(Trim(s)) == Upper(Trim(u))
  {
    MixedTrim(t, s, u);
    MixedUpper(Trim(t), Trim(s), Trim(u));
  }

  /** Around a separator. */
  lemma MixedCut(t: string, s: string, u: string, a: nat, b: nat)
    requires Mixed(t, s, u) && a <= b <= |s|
    ensures |t| == |s| == |u| && Upper(Trim(t[..a])) == Upper(Trim(s[..a])) == Upper(Trim(u[..a]))
    ensures Mixed(Trim(t[b..]), Trim(s[b..]), Trim(u[b..])) && |Trim(t[..a])| == |Trim(s[..a])| == |Trim(u[..a])|
    ensures |Trim(t[b..])| == |Trim(s[b..])| == |Trim(u[b..])|
  {
    hide Upper, Trim;
    MixedSlice(t, s, u, 0, a);
    assert t[..a] == t[0..a] && s[..a] == s[0..a] && u[..a] == u[0..a];
    MixedTrimUpper(t[..a], s[..a], u[..a]);
    MixedTrim(t[..a], s[..a], u[..a]);
    MixedSlice(t, s, u, b, |s|);
    assert t[b..] == t[b..|s|] && s[b..] == s[b..|s|] && u[b..] == u[b..|s|];
    MixedTrim(t[b..], s[b..], u[b..]);
  }

  /** The separator after the name of a LET: where it is, or -1, and how wide. */
  function LetSeparator(rest: string): (r: (int, nat))
    ensures r.0 < 0 || r.0 + r.1 <= |rest|
  {
    var assign, default := TopAssign(rest, 0, 0, false), TopWord(rest, 0, 0, false, "DEFAULT");
    if default >= 0 && (assign < 0 || default < assign) then (default, 7) else (assign, 2)
  }

  lemma LetIs(text: string, n: nat, rest: string)
    requires n == IdentRun(Trim(text), 0) && rest == Trim(text)[n..]
    ensures var (at, width) := LetSeparator(rest);
            ReadLet(text) == (if n == 0 then Bad(NoName) else if at < 0 then Bad(NoSeparator)
                              else if Trim(rest[at + width..]) == "" then Bad(NoExpression)
                              else Good(Let(Upper(Trim(text)[..n]), Upper(Trim(rest[..at])), Trim(rest[at + width..]))))
  {
    hide Trim, Upper, IdentRun, TopAssign, TopWord;
  }

  lemma DeclarationIs(text: string, n: nat, rest: string)
    requires n == IdentRun(Trim(text), 0) && rest == Trim(text)[n..]
    ensures var at := TopWord(rest, 0, 0, false, "DEFAULT");
            ReadDeclaration(text) == (if n == 0 then Bad(NoName)
                                      else if at < 0 && Trim(rest) == "" then Bad(NoType)
                                      else if at < 0 then Good(Declaration(Upper(Trim(text)[..n]), Upper(Trim(rest)), ""))
                                      else if Trim(rest[..at]) == "" then Bad(NoType)
                                      else if Trim(rest[at + 7..]) == "" then Bad(NoDefault)
                                      else Good(Declaration(Upper(Trim(text)[..n]), Upper(Trim(rest[..at])), Trim(rest[at + 7..]))))
  {
    hide Trim, Upper, IdentRun, TopWord;
  }

  lemma SeparatorsAlike(t: string, s: string, u: string)
    requires Mixed(t, s, u)
    ensures |t| == |s| == |u| && LetSeparator(t) == LetSeparator(s) == LetSeparator(u)
    ensures TopWord(t, 0, 0, false, "DEFAULT") == TopWord(s, 0, 0, false, "DEFAULT") == TopWord(u, 0, 0, false, "DEFAULT")
  {
    MixedAlike(t, s, u);
    TopAssignAlike(s, t, 0, 0, false);
    TopAssignAlike(s, u, 0, 0, false);
    TopWordAlike(s, t, 0, 0, false, "DEFAULT");
    TopWordAlike(s, u, 0, 0, false, "DEFAULT");
  }

  /** The name at the beginning of a declaration or a LET. */
  lemma NameMixed(t: string, s: string, u: string)
    requires Mixed(t, s, u)
    ensures var a, b, c := Trim(t), Trim(s), Trim(u);
            var n := IdentRun(b, 0);
            && n <= |a| == |c| && IdentRun(a, 0) == n == IdentRun(c, 0) && Upper(a[..n]) == Upper(b[..n]) == Upper(c[..n])
            && Mixed(a[n..], b[n..], c[n..])
  {
    hide Trim, Upper, IdentRun, Mixed, Alike;
    MixedTrim(t, s, u);
    var a, b, c := Trim(t), Trim(s), Trim(u);
    MixedAlike(a, b, c);
    RunAlike(b, a, 0);
    RunAlike(b, c, 0);
    MixedName(a, b, c, IdentRun(b, 0));
  }

  lemma LetMixed(t: string, s: string, u: string)
    requires Mixed(t, s, u)
    ensures match ReadLet(s)
            case Bad(f) => ReadLet(t) == ReadLet(s) == ReadLet(u)
            case Good(y) => ReadLet(t).Good? && ReadLet(u).Good? && MixedStmt(ReadLet(t).value, y, ReadLet(u).value)
  {
    hide Trim, Upper, IdentRun, Mixed, ReadLet, LetSeparator;
    NameMixed(t, s, u);
    var n := IdentRun(Trim(s), 0);
    var x, y, z := Trim(t)[n..], Trim(s)[n..], Trim(u)[n..];
    LetPieces(x, y, z);
    LetIs(t, n, x);
    LetIs(s, n, y);
    LetIs(u, n, z);
  }

  lemma LetPieces(t: string, s: string, u: string)
    requires Mixed(t, s, u)
    ensures |t| == |s| == |u| && LetSeparator(t) == LetSeparator(s) == LetSeparator(u)
    ensures var (at, width) := LetSeparator(s);
            at >= 0 ==>
              && Upper(Trim(t[..at])) == Upper(Trim(s[..at])) == Upper(Trim(u[..at]))
              && Mixed(Trim(t[at + width..]), Trim(s[at + width..]), Trim(u[at + width..]))
              && |Trim(t[at + width..])| == |Trim(s[at + width..])| == |Trim(u[at + width..])|
  {
    hide Trim, Upper, Mixed, LetSeparator;
    SeparatorsAlike(t, s, u);
    var r := LetSeparator(s);
    if r.0 >= 0 { MixedCut(t, s, u, r.0, r.0 + r.1); }
  }

  lemma MixedEmpty(t: string, s: string, u: string)
    requires Mixed(t, s, u)
    ensures (t == "") == (s == "") == (u == "")
  {
  }

  lemma DeclarationMixed(t: string, s: string, u: string)
    requires Mixed(t, s, u)
    ensures match ReadDeclaration(s)
            case Bad(f) => ReadDeclaration(t) == ReadDeclaration(s) == ReadDeclaration(u)
            case Good(y) => ReadDeclaration(t).Good? && ReadDeclaration(u).Good?
                            && MixedDeclaration(ReadDeclaration(t).value, y, ReadDeclaration(u).value)
  {
    hide Trim, Upper, IdentRun, Mixed, ReadDeclaration, TopWord, LetSeparator;
    NameMixed(t, s, u);
    var n := IdentRun(Trim(s), 0);
    var x, y, z := Trim(t)[n..], Trim(s)[n..], Trim(u)[n..];
    DeclarationIs(t, n, x);
    DeclarationIs(s, n, y);
    DeclarationIs(u, n, z);
    SeparatorsAlike(x, y, z);
    var at := TopWord(y, 0, 0, false, "DEFAULT");
    if at >= 0 {
      MixedCut(x, y, z, at, at + 7);
    } else {
      MixedTrim(x, y, z);
      MixedTrimUpper(x, y, z);
      MixedEmpty(Trim(x), Trim(y), Trim(z));
      NothingMixed();
    }
  }

  lemma NothingMixed()
    ensures Mixed("", "", "")
  {
  }

  // ------------------------------------------------------------- statements of mixed texts

  lemma NextMixed(t: string, s: string, u: string, i: nat, kw: string)
    requires Mixed(t, s, u) && i <= |s|
    ensures |t| == |s| == |u| && SkipFrom(t, i) == SkipFrom(s, i) == SkipFrom(u, i)
    ensures NextWord(t, i, kw) == NextWord(s, i, kw) == NextWord(u, i, kw)
    ensures NextWord(s, i, kw) ==> AfterWord(t, i, kw) == AfterWord(s, i, kw) == AfterWord(u, i, kw)
  {
    hide Mixed, Alike, SkipFrom, WordAt, NextWord;
    MixedAlike(t, s, u);
    SkipAlike(s, t, i);
    SkipAlike(s, u, i);
    NextAlike(s, t, i, kw);
    NextAlike(s, u, i, kw);
  }

  lemma FirstMixed(t: string, s: string, u: string, i: nat, words: seq<string>)
    requires Mixed(t, s, u) && i <= |s|
    ensures |t| == |s| == |u| && SkipFrom(t, i) == SkipFrom(s, i) == SkipFrom(u, i)
    ensures forall j :: 0 <= j <= |s| ==> FirstWord(t, j, words) == FirstWord(s, j, words) == FirstWord(u, j, words)
  {
    hide Mixed, Alike, SkipFrom, FirstWord;
    MixedAlike(t, s, u);
    SkipAlike(s, t, i);
    SkipAlike(s, u, i);
    forall j | 0 <= j <= |s|
      ensures FirstWord(t, j, words) == FirstWord(s, j, words) == FirstWord(u, j, words)
    {
      FirstAlike(s, t, j, words);
      FirstAlike(s, u, j, words);
    }
  }

  lemma SemicolonMixed(t: string, s: string, u: string, i: nat)
    requires Mixed(t, s, u) && i <= |s|
    ensures |t| == |s| == |u| && UntilSemicolon(t, i, 0, false) == UntilSemicolon(s, i, 0, false) == UntilSemicolon(u, i, 0, false)
    ensures AfterSemicolon(t, i) == AfterSemicolon(s, i) == AfterSemicolon(u, i)
  {
    hide Mixed, Alike, UntilSemicolon, AfterSemicolon;
    MixedAlike(t, s, u);
    UntilSemicolonAlike(s, t, i, 0, false);
    UntilSemicolonAlike(s, u, i, 0, false);
    SemicolonAlike(s, t, i);
    SemicolonAlike(s, u, i);
  }

  lemma UntilWordMixed(t: string, s: string, u: string, i: nat, kw: string)
    requires Mixed(t, s, u) && i <= |s|
    ensures |t| == |s| == |u| && UntilWord(t, i, 0, false, kw) == UntilWord(s, i, 0, false, kw) == UntilWord(u, i, 0, false, kw)
    ensures var at := UntilWord(s, i, 0, false, kw); SkipFrom(t, at) == SkipFrom(s, at) == SkipFrom(u, at)
  {
    hide Mixed, Alike, UntilWord, SkipFrom;
    MixedAlike(t, s, u);
    UntilWordAlike(s, t, i, 0, false, kw);
    UntilWordAlike(s, u, i, 0, false, kw);
    SkipAlike(s, t, UntilWord(s, i, 0, false, kw));
    SkipAlike(s, u, UntilWord(s, i, 0, false, kw));
  }

  lemma ParseLetMixed(t: string, s: string, u: string, i: nat)
    requires Mixed(t, s, u) && i <= |s|
    ensures |t| == |s| == |u| && StmtSteps(ParseLet(t, i), ParseLet(s, i), ParseLet(u, i))
  {
    hide Mixed, UntilSemicolon, ReadLet, MixedStmt;
    SemicolonMixed(t, s, u, i);
    var e := UntilSemicolon(s, i, 0, false);
    MixedSlice(t, s, u, i, e);
    LetMixed(t[i..e], s[i..e], u[i..e]);
  }

  lemma ParseReturnMixed(t: string, s: string, u: string, i: nat)
    requires Mixed(t, s, u) && i <= |s|
    ensures |t| == |s| == |u| && StmtSteps(ParseReturn(t, i), ParseReturn(s, i), ParseReturn(u, i))
  {
    hide Mixed, UntilSemicolon, Trim;
    SemicolonMixed(t, s, u, i);
    var e := UntilSemicolon(s, i, 0, false);
    MixedSlice(t, s, u, i, e);
    MixedTrim(t[i..e], s[i..e], u[i..e]);
  }

  /** Where a plain statement is cut. */
  lemma PlainCuts(t: string, s: string, u: string, i: nat)
    requires Mixed(t, s, u) && i <= |s|
    ensures |t| == |s| == |u| && IdentAt(t, i) == IdentAt(s, i) == IdentAt(u, i)
    ensures var k := SkipFrom(s, IdentAt(s, i));
            && SkipFrom(t, IdentAt(s, i)) == k == SkipFrom(u, IdentAt(s, i))
            && PairAt(t, k, ':', '=') == PairAt(s, k, ':', '=') == PairAt(u, k, ':', '=')
  {
    hide Mixed, Alike, IdentAt, SkipFrom, PairAt;
    MixedAlike(t, s, u);
    IdentAtAlike(s, t, i);
    IdentAtAlike(s, u, i);
    var n := IdentAt(s, i);
    SkipAlike(s, t, n);
    SkipAlike(s, u, n);
    MarksAlike(s, t, SkipFrom(s, n), ':', '=');
    MarksAlike(s, u, SkipFrom(s, n), ':', '=');
  }

  lemma ParsePlainMixed(t: string, s: string, u: string, i: nat)
    requires Mixed(t, s, u) && i <= |s|
    ensures |t| == |s| == |u| && StmtSteps(ParsePlain(t, i), ParsePlain(s, i), ParsePlain(u, i))
  {
    hide Mixed, UntilSemicolon, Trim, Upper, IdentAt, SkipFrom, PairAt;
    PlainCuts(t, s, u, i);
    var n := IdentAt(s, i);
    var k := SkipFrom(s, n);
    if n > i && PairAt(s, k, ':', '=') {
      PairFits(s, k);
      AssignedMixed(t, s, u, i, n, k);
    } else {
      SemicolonMixed(t, s, u, i);
      var e := UntilSemicolon(s, i, 0, false);
      MixedSlice(t, s, u, i, e);
      MixedTrim(t[i..e], s[i..e], u[i..e]);
    }
  }

  lemma AssignedMixed(t: string, s: string, u: string, i: nat, n: nat, k: nat)
    requires Mixed(t, s, u) && i <= n <= k && k + 2 <= |s|
    ensures |t| == |s| == |u| && Upper(t[i..n]) == Upper(s[i..n]) == Upper(u[i..n])
    ensures var e := UntilSemicolon(s, k + 2, 0, false);
            && UntilSemicolon(t, k + 2, 0, false) == e == UntilSemicolon(u, k + 2, 0, false)
            && Mixed(Trim(t[k + 2..e]), Trim(s[k + 2..e]), Trim(u[k + 2..e]))
  {
    hide Mixed, UntilSemicolon, Trim, Upper;
    SemicolonMixed(t, s, u, k + 2);
    var e := UntilSemicolon(s, k + 2, 0, false);
    MixedSlice(t, s, u, i, n);
    MixedUpper(t[i..n], s[i..n], u[i..n]);
    MixedSlice(t, s, u, k + 2, e);
    MixedTrim(t[k + 2..e], s[k + 2..e], u[k + 2..e]);
  }

  lemma {:induction false} StatementsMixed(t: string, s: string, u: string, i: nat, terminators: seq<string>)
    requires Mixed(t, s, u) && i <= |s|
    ensures |t| == |s| == |u|
    ensures ListSteps(ParseStatements(t, i, terminators), ParseStatements(s, i, terminators), ParseStatements(u, i, terminators))
    decreases |s| - i, 1
  {
    hide Mixed, SkipFrom, FirstWord, ParseStatement, MixedStmt;
    FirstMixed(t, s, u, i, terminators);
    var j := SkipFrom(s, i);
    if FirstWord(s, j, terminators) >= |terminators| && j < |s| {
      StatementMixed(t, s, u, j);
      var a := ParseStatement(s, j);
      if a.Ok? { StatementsMixed(t, s, u, a.pos, terminators); }
    }
  }

  lemma {:induction false} StatementMixed(t: string, s: string, u: string, i: nat)
    requires Mixed(t, s, u) && i <= |s|
    ensures |t| == |s| == |u| && StmtSteps(ParseStatement(t, i), ParseStatement(s, i), ParseStatement(u, i))
    decreases |s| - i, 0
  {
    hide Mixed, SkipFrom, NextWord, AfterWord, ParseCase, ParseIf, ParseLet, ParseReturn, ParsePlain, StmtSteps;
    NextMixed(t, s, u, i, "CASE");
    var j := SkipFrom(s, i);
    NextMixed(t, s, u, j, "CASE");
    NextMixed(t, s, u, j, "IF");
    NextMixed(t, s, u, j, "LET");
    NextMixed(t, s, u, j, "RETURN");
    if NextWord(s, j, "CASE") { ParseCaseMixed(t, s, u, AfterWord(s, j, "CASE")); }
    else if NextWord(s, j, "IF") { ParseIfMixed(t, s, u, AfterWord(s, j, "IF")); }
    else if NextWord(s, j, "LET") { ParseLetMixed(t, s, u, AfterWord(s, j, "LET")); }
    else if NextWord(s, j, "RETURN") { ParseReturnMixed(t, s, u, AfterWord(s, j, "RETURN")); }
    else { ParsePlainMixed(t, s, u, j); }
  }

  lemma {:induction false} ParseElseMixed(t: string, s: string, u: string, i: nat)
    requires Mixed(t, s, u) && i <= |s|
    ensures |t| == |s| == |u| && StmtsSteps(ParseElse(t, i), ParseElse(s, i), ParseElse(u, i))
    decreases |s| - i, 2
  {
    hide Mixed, NextWord, AfterWord, ParseStatements;
    NextMixed(t, s, u, i, "ELSE");
    if NextWord(s, i, "ELSE") { StatementsMixed(t, s, u, AfterWord(s, i, "ELSE"), ["END"]); }
  }

  lemma EndBlockAlike(s: string, u: string, i: nat, kw: string, y: Stmt, z: Stmt, fault: Fault)
    requires Alike(s, u) && i <= |s|
    ensures |u| == |s|
    ensures match EndBlock(s, i, kw, y, fault)
            case Err(f) => f == fault && EndBlock(u, i, kw, z, fault) == Err(fault)
            case Ok(v, k) => v == y && EndBlock(u, i, kw, z, fault) == Ok(z, k)
  {
    hide Alike, NextWord, AfterWord, AfterSemicolon;
    NextAlike(s, u, i, "END");
    if NextWord(s, i, "END") {
      var j := AfterWord(s, i, "END");
      NextAlike(s, u, j, kw);
      if NextWord(s, j, kw) { SemicolonAlike(s, u, AfterWord(s, j, kw)); }
    }
  }

  lemma EndBlockMixed(t: string, s: string, u: string, i: nat, kw: string, x: Stmt, y: Stmt, z: Stmt, fault: Fault)
    requires Mixed(t, s, u) && i <= |s| && MixedStmt(x, y, z)
    ensures |t| == |s| == |u| && StmtSteps(EndBlock(t, i, kw, x, fault), EndBlock(s, i, kw, y, fault), EndBlock(u, i, kw, z, fault))
  {
    hide Mixed, EndBlock, MixedStmt, Alike;
    MixedAlike(t, s, u);
    EndBlockAlike(s, t, i, kw, y, x, fault);
    EndBlockAlike(s, u, i, kw, y, z, fault);
  }

  lemma SameFault(f: Fault)
    ensures StmtSteps(Err(f), Err(f), Err(f))
  {
  }

  lemma WordRoom(s: string, i: nat, kw: string)
    requires i <= |s| && NextWord(s, i, kw)
    ensures SkipFrom(s, i) + |kw| <= |s|
  {
  }

  lemma {:induction false} ParseIfMixed(t: string, s: string, u: string, i: nat)
    requires Mixed(t, s, u) && i <= |s|
    ensures |t| == |s| == |u| && StmtSteps(ParseIf(t, i), ParseIf(s, i), ParseIf(u, i))
    decreases |s| - i, 3
  {
    hide Mixed, UntilWord, SkipFrom, ParseStatements, ParseElse, EndBlock, TrimOuter, StmtSteps, MixedStmts;
    UntilWordMixed(t, s, u, i, "THEN");
    var at := UntilWord(s, i, 0, false, "THEN");
    SameFault(NoKeyword);
    if at < |s| {
      var k := SkipFrom(s, at);
      MixedSlice(t, s, u, i, k);
      MixedOuter(t[i..k], s[i..k], u[i..k]);
      StatementsMixed(t, s, u, k + 4, ["ELSE", "END"]);
      var yes := ParseStatements(s, k + 4, ["ELSE", "END"]);
      if yes.Err? {
        SameFault(yes.fault);
      } else {
        ParseElseMixed(t, s, u, yes.pos);
        var no := ParseElse(s, yes.pos);
        if no.Err? {
          SameFault(no.fault);
        } else {
          EndBlockMixed(t, s, u, no.pos, "IF",
                        If(TrimOuter(t[i..k]), ParseStatements(t, k + 4, ["ELSE", "END"]).value.stmts, ParseElse(t, yes.pos).value),
                        If(TrimOuter(s[i..k]), yes.value.stmts, no.value),
                        If(TrimOuter(u[i..k]), ParseStatements(u, k + 4, ["ELSE", "END"]).value.stmts, ParseElse(u, yes.pos).value), NoEndIf);
        }
      }
    }
  }

  lemma {:induction false} ParseCaseMixed(t: string, s: string, u: string, i: nat)
    requires Mixed(t, s, u) && i <= |s|
    ensures |t| == |s| == |u| && StmtSteps(ParseCase(t, i), ParseCase(s, i), ParseCase(u, i))
    decreases |s| - i, 3
  {
    hide Mixed, UntilWord, SkipFrom, ParseBranches, ParseElse, EndBlock, TrimOuter, StmtSteps, MixedStmts, MixedBranches;
    UntilWordMixed(t, s, u, i, "WHEN");
    var at := UntilWord(s, i, 0, false, "WHEN");
    SameFault(NoKeyword);
    if at < |s| {
      var k := SkipFrom(s, at);
      MixedSlice(t, s, u, i, k);
      MixedOuter(t[i..k], s[i..k], u[i..k]);
      ParseBranchesMixed(t, s, u, k);
      var bs := ParseBranches(s, k);
      if bs.Err? {
        SameFault(bs.fault);
      } else {
        ParseElseMixed(t, s, u, bs.pos);
        var no := ParseElse(s, bs.pos);
        if no.Err? {
          SameFault(no.fault);
        } else {
          EndBlockMixed(t, s, u, no.pos, "CASE",
                        Case(TrimOuter(t[i..k]), ParseBranches(t, k).value, ParseElse(t, bs.pos).value),
                        Case(TrimOuter(s[i..k]), bs.value, no.value),
                        Case(TrimOuter(u[i..k]), ParseBranches(u, k).value, ParseElse(u, bs.pos).value), NoEndCase);
        }
      }
    }
  }

  lemma {:induction false} ParseBranchesMixed(t: string, s: string, u: string, i: nat)
    requires Mixed(t, s, u) && i <= |s|
    ensures |t| == |s| == |u| && BranchesSteps(ParseBranches(t, i), ParseBranches(s, i), ParseBranches(u, i))
    decreases |s| - i, 1
  {
    hide Mixed, NextWord, AfterWord, UntilWord, SkipFrom, ParseStatements, Trim, ListSteps, BranchesSteps;
    NextMixed(t, s, u, i, "WHEN");
    NoBranches(i);
    if NextWord(s, i, "WHEN") {
      var start := AfterWord(s, i, "WHEN");
      var k := BranchMixed(t, s, u, start);
      if k >= 0 {
        StatementsMixed(t, s, u, k + 4, ["WHEN", "ELSE", "END"]);
        var a, b, c := ParseStatements(t, k + 4, ["WHEN", "ELSE", "END"]), ParseStatements(s, k + 4, ["WHEN", "ELSE", "END"]),
                       ParseStatements(u, k + 4, ["WHEN", "ELSE", "END"]);
        ListEnds(a, b, c);
        if b.Ok? { ParseBranchesMixed(t, s, u, b.pos); }
        var none: Step<Branches> := Err(NoKeyword);
        RestMixed(Trim(t[start..k]), Trim(s[start..k]), Trim(u[start..k]), a, b, c,
                  if b.Ok? then ParseBranches(t, b.pos) else none, if b.Ok? then ParseBranches(s, b.pos) else none,
                  if b.Ok? then ParseBranches(u, b.pos) else none);
      }
    }
  }

  lemma NoBranches(i: nat)
    ensures BranchesSteps(Ok(NoBranch, i), Ok(NoBranch, i), Ok(NoBranch, i)) && BranchesSteps(Err(NoKeyword), Err(NoKeyword), Err(NoKeyword))
  {
  }

  lemma ListEnds(a: Step<List>, b: Step<List>, c: Step<List>)
    requires ListSteps(a, b, c)
    ensures SameEnd(a, b, c)
  {
  }

  /** A branch from its value, its statements and the branches after it. */
  function BranchFrom(v: string, body: Step<List>, others: Step<Branches>): Step<Branches> {
    match body
    case Err(f) => Err(f)
    case Ok(list, a) =>
      if list.terminator != "WHEN" then Ok(Branch(v, list.stmts, NoBranch), a)
      else match others
        case Err(f) => Err(f)
        case Ok(bs, b) => Ok(Branch(v, list.stmts, bs), b)
  }

  lemma RestMixed(x: string, y: string, z: string, a: Step<List>, b: Step<List>, c: Step<List>,
                  d: Step<Branches>, e: Step<Branches>, f: Step<Branches>)
    requires Mixed(x, y, z) && ListSteps(a, b, c) && (b.Ok? ==> BranchesSteps(d, e, f))
    ensures BranchesSteps(BranchFrom(x, a, d), BranchFrom(y, b, e), BranchFrom(z, c, f))
  {
    hide Mixed, MixedStmts;
    assert MixedBranches(NoBranch, NoBranch, NoBranch);
  }

  /** Where the value of a branch ends, or -1. */
  lemma BranchMixed(t: string, s: string, u: string, start: nat) returns (k: int)
    requires Mixed(t, s, u) && start <= |s|
    ensures |t| == |s| == |u|
    ensures var at := UntilWord(s, start, 0, false, "THEN");
            && UntilWord(t, start, 0, false, "THEN") == at == UntilWord(u, start, 0, false, "THEN")
            && if at == |s| then k == -1
               else k == SkipFrom(s, at) == SkipFrom(t, at) == SkipFrom(u, at) && start <= k && k + 4 <= |s|
                    && Mixed(Trim(t[start..k]), Trim(s[start..k]), Trim(u[start..k]))
  {
    hide Mixed, UntilWord, SkipFrom, Trim, NextWord;
    UntilWordMixed(t, s, u, start, "THEN");
    var at := UntilWord(s, start, 0, false, "THEN");
    k := -1;
    if at < |s| {
      WordRoom(s, at, "THEN");
      k := SkipFrom(s, at);
      MixedSlice(t, s, u, start, k);
      MixedTrim(t[start..k], s[start..k], u[start..k]);
    }
  }

  // ------------------------------------------------------------- scripts of mixed texts

  predicate ScriptReadings(a: Reading<Script>, b: Reading<Script>, c: Reading<Script>) {
    match b
    case Bad(f) => a == b == c
    case Good(y) => a.Good? && c.Good? && MixedScript(a.value, y, c.value)
  }

  predicate DeclarationsSteps(a: Step<seq<Declaration>>, b: Step<seq<Declaration>>, c: Step<seq<Declaration>>) {
    SameEnd(a, b, c) && (b.Ok? ==> MixedDeclarations(a.value, b.value, c.value))
  }

  lemma DeclarationStep(t: string, s: string, u: string, i: nat)
    requires Mixed(t, s, u) && i <= |s|
    ensures |t| == |s| == |u|
    ensures var a, b, c := ParseDeclaration(t, i), ParseDeclaration(s, i), ParseDeclaration(u, i);
            SameEnd(a, b, c) && (b.Ok? ==> MixedDeclaration(a.value, b.value, c.value))
  {
    hide Mixed, UntilSemicolon, ReadDeclaration, MixedDeclaration;
    SemicolonMixed(t, s, u, i);
    var e := UntilSemicolon(s, i, 0, false);
    MixedSlice(t, s, u, i, e);
    DeclarationMixed(t[i..e], s[i..e], u[i..e]);
  }

  lemma MixedFirst(x: Declaration, y: Declaration, z: Declaration, a: seq<Declaration>, b: seq<Declaration>, c: seq<Declaration>)
    requires MixedDeclaration(x, y, z) && MixedDeclarations(a, b, c)
    ensures MixedDeclarations([x] + a, [y] + b, [z] + c)
  {
    hide MixedDeclaration;
  }

  lemma {:induction false} DeclarationsMixed(t: string, s: string, u: string, i: nat)
    requires Mixed(t, s, u) && i <= |s|
    ensures |t| == |s| == |u| && DeclarationsSteps(ParseDeclarations(t, i), ParseDeclarations(s, i), ParseDeclarations(u, i))
    decreases |s| - i
  {
    hide Mixed, NextWord, SkipFrom, ParseDeclaration, MixedDeclaration, MixedDeclarations;
    NextMixed(t, s, u, i, "BEGIN");
    var j := SkipFrom(s, i);
    NextMixed(t, s, u, j, "BEGIN");
    NoDeclarations();
    if !NextWord(s, j, "BEGIN") {
      DeclarationStep(t, s, u, j);
      var d := ParseDeclaration(s, j);
      if d.Ok? {
        DeclarationsMixed(t, s, u, d.pos);
        var ds := ParseDeclarations(s, d.pos);
        if ds.Ok? {
          MixedFirst(ParseDeclaration(t, j).value, d.value, ParseDeclaration(u, j).value,
                     ParseDeclarations(t, d.pos).value, ds.value, ParseDeclarations(u, d.pos).value);
        }
      }
    }
  }

  lemma NoDeclarations()
    ensures MixedDeclarations([], [], [])
  {
  }

  lemma EndAlike(s: string, u: string, i: nat, y: Script, z: Script)
    requires Alike(s, u) && i <= |s| && NextWord(s, i, "END")
    ensures |u| == |s| && NextWord(u, i, "END")
    ensures match EndScript(s, i, y) case Bad(f) => EndScript(u, i, z) == Bad(f) case Good(v) => v == y && EndScript(u, i, z) == Good(z)
  {
    hide Alike, NextWord, AfterWord, AfterSemicolon, SkipFrom;
    NextAlike(s, u, i, "END");
    SemicolonAlike(s, u, AfterWord(s, i, "END"));
    SkipAlike(s, u, AfterSemicolon(s, AfterWord(s, i, "END")));
  }

  lemma EndMixed(t: string, s: string, u: string, i: nat, x: Script, y: Script, z: Script)
    requires Mixed(t, s, u) && i <= |s| && NextWord(s, i, "END") && MixedScript(x, y, z)
    ensures |t| == |s| == |u| && NextWord(t, i, "END") && NextWord(u, i, "END")
    ensures ScriptReadings(EndScript(t, i, x), EndScript(s, i, y), EndScript(u, i, z))
  {
    hide Mixed, EndScript, NextWord, MixedScript, Alike;
    MixedAlike(t, s, u);
    EndAlike(s, t, i, y, x);
    EndAlike(s, u, i, y, z);
  }

  lemma HandlerMixed(t: string, s: string, u: string, i: nat, d: seq<Declaration>, e: seq<Declaration>, f: seq<Declaration>,
                     x: Stmts, y: Stmts, z: Stmts)
    requires Mixed(t, s, u) && i <= |s| && MixedDeclarations(d, e, f) && MixedStmts(x, y, z)
    ensures |t| == |s| == |u| && ScriptReadings(ParseHandler(t, i, d, x), ParseHandler(s, i, e, y), ParseHandler(u, i, f, z))
  {
    hide Mixed, NextWord, AfterWord, ParseStatements, EndScript, MixedDeclarations, MixedStmts, SkipFrom;
    NextMixed(t, s, u, i, "WHEN");
    if NextWord(s, i, "WHEN") {
      var j := AfterWord(s, i, "WHEN");
      NextMixed(t, s, u, j, "OTHER");
      if NextWord(s, j, "OTHER") {
        var k := AfterWord(s, j, "OTHER");
        NextMixed(t, s, u, k, "THEN");
        if NextWord(s, k, "THEN") { HandlerRest(t, s, u, AfterWord(s, k, "THEN"), d, e, f, x, y, z); }
      }
    }
  }

  lemma HandlerRest(t: string, s: string, u: string, i: nat, d: seq<Declaration>, e: seq<Declaration>, f: seq<Declaration>,
                    x: Stmts, y: Stmts, z: Stmts)
    requires Mixed(t, s, u) && i <= |s| && MixedDeclarations(d, e, f) && MixedStmts(x, y, z)
    ensures |t| == |s| == |u|
    ensures var a, b, c := ParseStatements(t, i, ["END"]), ParseStatements(s, i, ["END"]), ParseStatements(u, i, ["END"]);
            && SameEnd(a, b, c)
            && (b.Ok? ==> ScriptReadings(EndScript(t, b.pos, Script(d, x, a.value.stmts)), EndScript(s, b.pos, Script(e, y, b.value.stmts)),
                                         EndScript(u, b.pos, Script(f, z, c.value.stmts))))
  {
    hide Mixed, NextWord, ParseStatements, EndScript, MixedDeclarations, MixedStmts, SkipFrom;
    StatementsMixed(t, s, u, i, ["END"]);
    var a, b, c := ParseStatements(t, i, ["END"]), ParseStatements(s, i, ["END"]), ParseStatements(u, i, ["END"]);
    if b.Ok? {
      EndMixed(t, s, u, b.pos, Script(d, x, a.value.stmts), Script(e, y, b.value.stmts), Script(f, z, c.value.stmts));
    }
  }

  lemma BodyMixed(t: string, s: string, u: string, i: nat, d: seq<Declaration>, e: seq<Declaration>, f: seq<Declaration>)
    requires Mixed(t, s, u) && i <= |s| && MixedDeclarations(d, e, f)
    ensures |t| == |s| == |u| && ScriptReadings(ParseBody(t, i, d), ParseBody(s, i, e), ParseBody(u, i, f))
  {
    hide Mixed, NextWord, AfterWord, ParseStatements, EndScript, ParseHandler, MixedDeclarations, MixedStmts, SkipFrom, ScriptReadings;
    NextMixed(t, s, u, i, "BEGIN");
    SameBad(NoBegin);
    if NextWord(s, i, "BEGIN") {
      var j := AfterWord(s, i, "BEGIN");
      StatementsMixed(t, s, u, j, ["EXCEPTION", "END"]);
      var a, b, c := ParseStatements(t, j, ["EXCEPTION", "END"]), ParseStatements(s, j, ["EXCEPTION", "END"]), ParseStatements(u, j, ["EXCEPTION", "END"]);
      if b.Err? {
        SameBad(b.fault);
      } else if b.value.terminator == "EXCEPTION" {
        NextMixed(t, s, u, b.pos, "EXCEPTION");
        HandlerMixed(t, s, u, AfterWord(s, b.pos, "EXCEPTION"), d, e, f, a.value.stmts, b.value.stmts, c.value.stmts);
      } else {
        NothingHandled();
        EndMixed(t, s, u, b.pos, Script(d, a.value.stmts, Done), Script(e, b.value.stmts, Done), Script(f, c.value.stmts, Done));
      }
    }
  }

  lemma SameBad(f: Fault)
    ensures ScriptReadings(Bad(f), Bad(f), Bad(f))
  {
  }

  lemma NothingHandled()
    ensures MixedStmts(Done, Done, Done)
  {
  }

  /** Three mixed texts are refused with the same fault, or read as three mixed scripts. */
  lemma ScriptMixed(t: string, s: string, u: string)
    requires Mixed(t, s, u)
    ensures ScriptReadings(ParseScript(t), ParseScript(s), ParseScript(u))
  {
    hide Mixed, Trim, NextWord, AfterWord, SkipFrom, ParseDeclarations, ParseBody, MixedDeclarations, ScriptReadings;
    MixedTrim(t, s, u);
    var a, b, c := Trim(t), Trim(s), Trim(u);
    NextMixed(a, b, c, 0, "DECLARE");
    var i := SkipFrom(b, 0);
    NextMixed(a, b, c, i, "DECLARE");
    if NextWord(b, i, "DECLARE") {
      var j := AfterWord(b, i, "DECLARE");
      DeclarationsMixed(a, b, c, j);
      var x, y, z := ParseDeclarations(a, j), ParseDeclarations(b, j), ParseDeclarations(c, j);
      if y.Err? { SameBad(y.fault); } else { BodyMixed(a, b, c, y.pos, x.value, y.value, z.value); }
    } else {
      NoDeclarations();
      BodyMixed(a, b, c, i, [], [], []);
    }
  }

  /** Texts that differ only in the case of letters are refused with the same fault, or read as
      scripts that differ only in the case of their SQL, expressions, conditions and values. */
  lemma CaseIsIgnored(s: string, u: string)
    requires Upper(s) == Upper(u)
    ensures match ParseScript(s)
            case Bad(f) => ParseScript(u) == Bad(f)
            case Good(p) => ParseScript(u).Good? && MixedScript(p, p, ParseScript(u).value)
  {
    AlikeIffUpper(s, u);
    assert Mixed(s, s, u);
    hide Mixed, ParseScript, MixedScript, Upper;
    ScriptMixed(s, s, u);
  }
}
