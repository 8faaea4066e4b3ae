/** A printer for procedure scripts, which scripts it fits, and how the parser's scans read
    what it prints. */
module ScriptPrinting {
  import opened Scanner
  import opened Text
  import opened Script

  // ------------------------------------------------------------- embedded texts

  /** The rest of a text after one step of a scan. */
  function After(x: string, quoted: bool): (r: string)
    requires x != ""
    ensures |r| < |x|
  {
    x[Stride(x, 0, quoted)..]
  }

  function Deeper(x: string, depth: nat, quoted: bool): int
    requires x != ""
  {
    DepthAfter(x, 0, depth, quoted)
  }

  /** Quotes close and parentheses match; with `bare`, no semicolon stands outside both. */
  predicate Quiet(x: string, depth: nat, quoted: bool, bare: bool)
    decreases |x|
  {
    if x == "" then depth == 0 && !quoted
    else
      && !(bare && !quoted && depth == 0 && x[0] == ';')
      && Deeper(x, depth, quoted) >= 0
      && Quiet(After(x, quoted), Deeper(x, depth, quoted), QuotedAfter(x, 0, quoted), bare)
  }

  /** The text starts with the keyword as a whole word. */
  predicate StartsWord(x: string, kw: string) {
    |kw| <= |x| && Upper(x[..|kw|]) == kw && (|kw| == |x| || !IdentChar(x[|kw|]))
  }

  /** Outside quotes and parentheses, the keyword is no word of the text and no comment starts;
      `prev` is the character before it. */
  predicate WordFree(x: string, prev: char, depth: nat, quoted: bool, kw: string)
    decreases |x|
  {
    x == "" || (
      && (Looks(x, 0, depth, quoted) ==> !(StartsWord(x, kw) && !IdentChar(prev)) && !PairAt(x, 0, '-', '-'))
      && Deeper(x, depth, quoted) >= 0
      && WordFree(After(x, quoted), x[0], Deeper(x, depth, quoted), QuotedAfter(x, 0, quoted), kw))
  }

  /** Outside quotes and parentheses, the text has no ":=". */
  predicate AssignFree(x: string, depth: nat, quoted: bool)
    decreases |x|
  {
    x == "" || (
      && (Looks(x, 0, depth, quoted) ==> !PairAt(x, 0, ':', '='))
      && Deeper(x, depth, quoted) >= 0
      && AssignFree(After(x, quoted), Deeper(x, depth, quoted), QuotedAfter(x, 0, quoted)))
  }

  const RESERVED: seq<string> := ["CASE", "IF", "LET", "RETURN", "EXCEPTION", "END", "ELSE", "WHEN"]

  /** A text that a semicolon can end. */
  predicate Ended(x: string) { Trimmed(x) && Quiet(x, 0, false, true) }

  predicate Name(x: string) {
    x != "" && Upper(x) == x && forall k :: 0 <= k < |x| ==> IdentChar(x[k])
  }

  /** The text reads as "name :=", or has a comment where ":=" would stand. */
  predicate LooksAssigned(x: string) {
    var n := IdentAt(x, 0);
    var k := Lead(x, n, |x|);
    n > 0 && (PairAt(x, k, ':', '=') || PairAt(x, k, '-', '-'))
  }

  predicate SqlText(x: string) {
    && Ended(x) && !PairAt(x, 0, '-', '-') && !LooksAssigned(x)
    && forall k :: 0 <= k < |RESERVED| ==> !StartsWord(x, RESERVED[k])
  }

  predicate TypeText(x: string) {
    Ended(x) && Upper(x) == x && WordFree(x, ' ', 0, false, "DEFAULT")
  }

  predicate FitsStmt(st: Stmt) {
    match st
    case Sql(x) => SqlText(x)
    case Assign(n, e) => Name(n) && (Letter(n[0]) || n[0] == '_') && n !in RESERVED && Ended(e)
    case Return(e) => Ended(e)
    case Let(n, t, e) => Name(n) && TypeText(t) && AssignFree(t, 0, false) && Ended(e) && e != ""
    case If(c, yes, no) => Trimmed(c) && Quiet(c, 0, false, false) && FitsStmts(yes) && FitsStmts(no)
    case Case(e, bs, no) =>
      Trimmed(e) && Quiet(e, 0, false, false) && bs != NoBranch && FitsBranches(bs) && FitsStmts(no)
  }

  predicate FitsStmts(ss: Stmts) {
    match ss
    case Done => true
    case Then(st, r) => FitsStmt(st) && FitsStmts(r)
  }

  predicate FitsBranches(bs: Branches) {
    match bs
    case NoBranch => true
    case Branch(v, body, others) =>
      && Trimmed(v) && Quiet(v, 0, false, false) && WordFree(v, ' ', 0, false, "THEN")
      && FitsStmts(body) && FitsBranches(others)
  }

  predicate FitsDeclaration(d: Declaration) {
    Name(d.name) && d.name != "BEGIN" && TypeText(d.dataType) && d.dataType != "" && Ended(d.defaultSql)
  }

  predicate FitsScript(p: Script) {
    (forall k :: 0 <= k < |p.declarations| ==> FitsDeclaration(p.declarations[k]))
    && FitsStmts(p.body) && FitsStmts(p.handler)
  }

  // ------------------------------------------------------------- printing

  function PrintStmt(st: Stmt): string {
    match st
    case Sql(x) => x + ";"
    case Assign(n, e) => n + " := " + (e + ";")
    case Return(e) => "RETURN " + (e + ";")
    case Let(n, t, e) => "LET " + (LetBody(n, t, e) + ";")
    case If(c, yes, no) => "IF" + (Condition(c, ' ') + ("THEN" + (PrintStmts(yes) + ("\n" + (PrintElse(no) + "END IF;")))))
    case Case(e, bs, no) => "CASE" + (Condition(e, '\n') + (PrintBranches(bs) + (PrintElse(no) + "END CASE;")))
  }

  function LetType(t: string): string { if t == "" then "" else " " + t }

  /** What follows the word LET: a name, a type and a value. */
  function LetBody(n: string, t: string, e: string): string { n + (LetType(t) + " := " + e) }

  /** A condition is printed in parentheses, which the parser takes off again. */
  function Condition(c: string, sep: char): string { " (" + c + ")" + [sep] }

  function PrintStmts(ss: Stmts): string
    decreases ss, 0
  {
    match ss
    case Done => ""
    case Then(st, r) => "\n" + (PrintStmt(st) + PrintStmts(r))
  }

  function PrintElse(ss: Stmts): string
    decreases ss, 1
  {
    if ss == Done then "" else "ELSE" + (PrintStmts(ss) + "\n")
  }

  function PrintBranches(bs: Branches): string {
    match bs
    case NoBranch => ""
    case Branch(v, body, others) =>
      "WHEN" + (" " + (v + (" " + ("THEN" + (PrintStmts(body) + ("\n" + PrintBranches(others)))))))
  }

  function DefaultPart(d: string): string { if d == "" then "" else " DEFAULT " + d }

  function DeclarationBody(d: Declaration): string { d.name + (" " + d.dataType + DefaultPart(d.defaultSql)) }

  function PrintDeclarations(ds: seq<Declaration>): string {
    if ds == [] then "" else "\n" + ((DeclarationBody(ds[0]) + ";") + PrintDeclarations(ds[1..]))
  }

  function PrintHandler(ss: Stmts): string {
    if ss == Done then "" else "EXCEPTION" + (" WHEN OTHER THEN" + (PrintStmts(ss) + "\n"))
  }

  function PrintScript(p: Script): string {
    (if p.declarations == [] then "" else "DECLARE" + (PrintDeclarations(p.declarations) + "\n"))
    + ("BEGIN" + (PrintStmts(p.body) + ("\n" + (PrintHandler(p.handler) + "END;"))))
  }

  // ------------------------------------------------------------- reading printed text

  /** One step of a scan inside a text is the same step wherever the text stands, unless a
      quote character follows it. */
  lemma StepSame(s: string, i: nat, x: string, quoted: bool)
    requires Holds(s, i, x) && x != "" && (i + |x| < |s| ==> s[i + |x|] != '\'')
    ensures s[i] == x[0] && Stride(s, i, quoted) == Stride(x, 0, quoted)
    ensures QuotedAfter(s, i, quoted) == QuotedAfter(x, 0, quoted)
    ensures forall d: int :: DepthAfter(s, i, d, quoted) == DepthAfter(x, 0, d, quoted)
    ensures Holds(s, i + Stride(x, 0, quoted), After(x, quoted))
  {
    HoldsAt(s, i, x, 0);
    if |x| > 1 { HoldsAt(s, i, x, 1); }
    var n := Stride(x, 0, quoted);
    assert x == x[..n] + x[n..];
    HoldsSplit(s, i, x[..n], x[n..]);
  }

  /** The scan for a semicolon passes over quiet text. */
  lemma {:induction false} SemicolonOver(s: string, i: nat, x: string, depth: nat, quoted: bool)
    requires Holds(s, i, x) && Quiet(x, depth, quoted, true)
    requires i + |x| < |s| && s[i + |x|] != '\''
    ensures UntilSemicolon(s, i, depth, quoted) == UntilSemicolon(s, i + |x|, 0, false)
    decreases |x|
  {
    hide Holds;
    if x != "" {
      StepSame(s, i, x, quoted);
      SemicolonOver(s, i + Stride(x, 0, quoted), After(x, quoted), Deeper(x, depth, quoted), QuotedAfter(x, 0, quoted));
    }
  }

  /** So does the scan for a keyword, inside parentheses. */
  lemma {:induction false} WordOver(s: string, i: nat, x: string, depth: nat, quoted: bool, kw: string)
    requires Holds(s, i, x) && Quiet(x, depth, quoted, false)
    requires i + |x| < |s| && s[i + |x|] != '\''
    ensures UntilWord(s, i, depth + 1, quoted, kw) == UntilWord(s, i + |x|, 1, false, kw)
    decreases |x|
  {
    hide Holds, NextWord;
    if x != "" {
      StepSame(s, i, x, quoted);
      WordOver(s, i + Stride(x, 0, quoted), After(x, quoted), Deeper(x, depth, quoted), QuotedAfter(x, 0, quoted), kw);
    }
  }

  /** At the top level of a text free of the keyword, the keyword is never next. */
  lemma {:induction false} NotNext(s: string, i: nat, x: string, prev: char, kw: string)
    requires Holds(s, i, x) && x != "" && !IsSpace(x[|x| - 1])
    requires i + |x| < |s| && s[i + |x|] == ' '
    requires i > 0 && s[i - 1] == prev && WordFree(x, prev, 0, false, kw)
    requires kw != "" && forall k :: 0 <= k < |kw| ==> Letter(kw[k])
    ensures !NextWord(s, i, kw)
    decreases |x|
  {
    HoldsHead(s, i, x);
    if IsSpace(x[0]) {
      assert After(x, false) == x[1..] && Deeper(x, 0, false) == 0 && !QuotedAfter(x, 0, false);
      SpacedSkips(s, i, kw);
      hide WordFree, NextWord, Holds;
      NotNext(s, i + 1, x[1..], x[0], kw);
    } else {
      if |x| > 1 { HoldsHead(s, i + 1, x[1..]); }
      assert SkipFrom(s, i) == i;
      WordHere(s, i, x, kw);
    }
  }

  lemma SpacedSkips(s: string, i: nat, kw: string)
    requires i < |s| && IsSpace(s[i])
    ensures NextWord(s, i, kw) == NextWord(s, i + 1, kw)
  {
  }

  /** A word standing where the text x is followed by no identifier character lies inside x. */
  lemma WordHere(s: string, i: nat, x: string, kw: string)
    requires Holds(s, i, x) && (i + |x| < |s| ==> !IdentChar(s[i + |x|]))
    requires kw != "" && forall k :: 0 <= k < |kw| ==> Letter(kw[k])
    ensures WordAt(s, i, kw) ==> StartsWord(x, kw) && Letter(x[0])
  {
    if i + |kw| <= |s| {
      var u := Upper(s[i..i + |kw|]);
      assert u[0] == Up(s[i]);
      if |kw| > |x| {
        assert u[|x|] == Up(s[i + |x|]);
      } else {
        assert s[i..i + |kw|] == s[i..i + |x|][..|kw|];
        if |kw| < |x| { HoldsAt(s, i, x, |kw|); }
        if x != "" { HoldsAt(s, i, x, 0); }
      }
    }
  }

  /** The scan for a keyword passes over text free of it. */
  lemma {:induction false} FreeOver(s: string, i: nat, x: string, prev: char, depth: nat, quoted: bool, kw: string)
    requires Holds(s, i, x) && (x != "" ==> !IsSpace(x[|x| - 1]))
    requires i + |x| < |s| && s[i + |x|] == ' ' && i > 0 && s[i - 1] == prev
    requires Quiet(x, depth, quoted, false) && WordFree(x, prev, depth, quoted, kw)
    requires kw != "" && forall k :: 0 <= k < |kw| ==> Letter(kw[k])
    ensures UntilWord(s, i, depth, quoted, kw) == UntilWord(s, i + |x|, 0, false, kw)
    decreases |x|
  {
    hide Holds, NextWord;
    if x != "" {
      StepSame(s, i, x, quoted);
      if Looks(x, 0, depth, quoted) { NotNext(s, i, x, prev, kw); }
      var n := Stride(x, 0, quoted);
      HoldsAt(s, i, x, n - 1);
      FreeOver(s, i + n, After(x, quoted), x[0], Deeper(x, depth, quoted), QuotedAfter(x, 0, quoted), kw);
    }
  }

  // ------------------------------------------------------------- words

  /** The parser's keywords, in the case it compares them in. */
  predicate Keyword(kw: string) {
    kw != "" && Upper(kw) == kw && forall k :: 0 <= k < |kw| ==> Letter(kw[k])
  }

  lemma Keywords()
    ensures Keyword("CASE") && Keyword("IF") && Keyword("LET") && Keyword("RETURN")
    ensures Keyword("END") && Keyword("ELSE") && Keyword("WHEN") && Keyword("THEN")
  {
  }

  lemma OuterKeywords()
    ensures Keyword("EXCEPTION") && Keyword("OTHER") && Keyword("DECLARE") && Keyword("BEGIN") && Keyword("DEFAULT")
  {
  }

  predicate Edge(s: string, i: nat) { i == 0 || i > |s| || !IdentChar(s[i - 1]) }

  /** Nothing to skip at i. */
  predicate Solid(s: string, i: nat) { i < |s| && !IsSpace(s[i]) && !PairAt(s, i, '-', '-') }

  /** A printed keyword is read as that keyword. */
  lemma KeywordHere(s: string, i: nat, kw: string)
    requires Keyword(kw) && Holds(s, i, kw) && Edge(s, i)
    requires i + |kw| < |s| ==> !IdentChar(s[i + |kw|])
    ensures SkipFrom(s, i) == i && WordAt(s, i, kw) && NextWord(s, i, kw) && AfterWord(s, i, kw) == i + |kw|
  {
    HoldsAt(s, i, kw, 0);
  }

  /** And as no other. */
  lemma OneKeyword(s: string, i: nat, kw: string, other: string)
    requires Keyword(kw) && Keyword(other) && kw != other && WordAt(s, i, kw)
    ensures !WordAt(s, i, other)
  {
    var m, n := |kw|, |other|;
    if i + n <= |s| {
      var u, v := Upper(s[i..i + m]), Upper(s[i..i + n]);
      if m < n {
        assert v[m] == Up(s[i + m]);
      } else if n < m {
        assert u[n] == Up(s[i + n]);
      } else {
        assert u == v;
      }
    }
  }

  lemma OtherStart(s: string, i: nat, kw: string)
    requires Keyword(kw) && i < |s| && Up(s[i]) != kw[0]
    ensures !WordAt(s, i, kw)
  {
    if i + |kw| <= |s| {
      assert Upper(s[i..i + |kw|])[0] == Up(s[i]);
    }
  }

  lemma TrimOf(before: string, x: string, after: string)
    requires Trimmed(x) && AllSpace(before, 0, |before|) && AllSpace(after, 0, |after|)
    ensures Trim(before + x + after) == x
  {
    TrimPadded(before, x, after);
  }

  /** The text up to a printed semicolon. */
  lemma UntilPrinted(s: string, i: nat, x: string)
    requires Ended(x) && Holds(s, i, x + ";")
    ensures UntilSemicolon(s, i, 0, false) == i + |x| < |s| && s[i..i + |x|] == x
  {
    HoldsSplit(s, i, x, ";");
    HoldsAt(s, i + |x|, ";", 0);
    SemicolonOver(s, i, x, 0, false);
  }

  /** The same after a space. */
  lemma UntilPadded(s: string, i: nat, x: string)
    requires Ended(x) && Holds(s, i, " " + (x + ";"))
    ensures var e := UntilSemicolon(s, i, 0, false); e == i + 1 + |x| < |s| && Trim(s[i..e]) == x
  {
    HoldsSplit(s, i, " ", x + ";");
    HoldsAt(s, i, " ", 0);
    SpacePassed(s, i);
    hide UntilSemicolon, Trim, Quiet;
    UntilPrinted(s, i + 1, x);
    SpaceTrimmed(s[i + 1..i + 1 + |x|]);
    assert s[i..i + 1 + |x|] == " " + s[i + 1..i + 1 + |x|];
  }

  lemma SpacePassed(s: string, i: nat)
    requires i < |s| && s[i] == ' '
    ensures UntilSemicolon(s, i, 0, false) == UntilSemicolon(s, i + 1, 0, false)
  {
  }

  lemma SpaceTrimmed(x: string)
    requires Trimmed(x)
    ensures Trim(" " + x) == x
  {
    TrimOf(" ", x, "");
    assert " " + x + "" == " " + x;
  }

  // ------------------------------------------------------------- simple statements

  lemma IdentRunIs(s: string, i: nat, n: string)
    requires Holds(s, i, n) && (forall k :: 0 <= k < |n| ==> IdentChar(n[k]))
    requires i + |n| < |s| ==> !IdentChar(s[i + |n|])
    ensures IdentRun(s, i) == i + |n|
    decreases |n|
  {
    if n != "" {
      HoldsHead(s, i, n);
      IdentRunIs(s, i + 1, n[1..]);
    }
  }

  lemma {:induction false} SkipSpaces(s: string, i: nat, k: nat)
    requires i <= k <= |s| && AllSpace(s, i, k)
    ensures SkipFrom(s, i) == SkipFrom(s, k)
    decreases k - i
  {
    if i < k {
      assert IsSpace(s[i]);
      SkipSpaces(s, i + 1, k);
    }
  }

  /** A printed statement starts with no space, no comment and no word that ends a list. */
  predicate Opens(s: string, i: nat) {
    && Solid(s, i)
    && !WordAt(s, i, "EXCEPTION") && !WordAt(s, i, "END") && !WordAt(s, i, "ELSE") && !WordAt(s, i, "WHEN")
  }

  lemma PlainStatement(s: string, i: nat)
    requires Solid(s, i)
    requires !WordAt(s, i, "CASE") && !WordAt(s, i, "IF") && !WordAt(s, i, "LET") && !WordAt(s, i, "RETURN")
    ensures ParseStatement(s, i) == ParsePlain(s, i)
  {
    assert SkipFrom(s, i) == i;
  }

  lemma SqlRound(s: string, i: nat, x: string)
    requires SqlText(x) && Holds(s, i, PrintStmt(Sql(x))) && Edge(s, i)
    ensures Opens(s, i) && ParseStatement(s, i) == Ok(Sql(x), i + |x| + 1)
  {
    HoldsSplit(s, i, x, ";");
    HoldsAt(s, i + |x|, ";", 0);
    SqlSolid(s, i, x);
    SqlWords(s, i, x);
    PlainStatement(s, i);
    SqlPlain(s, i, x);
  }

  lemma SqlSolid(s: string, i: nat, x: string)
    requires SqlText(x) && Holds(s, i, x) && i + |x| < |s| && s[i + |x|] == ';'
    ensures Solid(s, i)
  {
    if x != "" { HoldsAt(s, i, x, 0); }
    if |x| > 1 { HoldsAt(s, i, x, 1); }
  }

  lemma SqlPlain(s: string, i: nat, x: string)
    requires SqlText(x) && Holds(s, i, x + ";")
    ensures ParsePlain(s, i) == Ok(Sql(x), i + |x| + 1)
  {
    UntilPrinted(s, i, x);
    HoldsSplit(s, i, x, ";");
    HoldsAt(s, i + |x|, ";", 0);
    SqlNotAssigned(s, i, x);
    TrimSame(x);
    PlainSql(s, i);
  }

  lemma TrimSame(x: string)
    requires Trimmed(x)
    ensures Trim(x) == x
  {
    TrimOf("", x, "");
    assert "" + x + "" == x;
  }

  lemma PlainSql(s: string, i: nat)
    requires i <= |s| && (IdentAt(s, i) > i ==> !PairAt(s, SkipFrom(s, IdentAt(s, i)), ':', '='))
    ensures var e := UntilSemicolon(s, i, 0, false);
            ParsePlain(s, i) == if e == |s| then Err(NoSemicolon) else Ok(Sql(Trim(s[i..e])), e + 1)
  {
  }

  lemma SqlWords(s: string, i: nat, x: string)
    requires SqlText(x) && Holds(s, i, x) && i + |x| < |s| && s[i + |x|] == ';'
    ensures forall k :: 0 <= k < |RESERVED| ==> !WordAt(s, i, RESERVED[k])
    ensures !WordAt(s, i, "CASE") && !WordAt(s, i, "IF") && !WordAt(s, i, "LET") && !WordAt(s, i, "RETURN")
    ensures !WordAt(s, i, "EXCEPTION") && !WordAt(s, i, "END") && !WordAt(s, i, "ELSE") && !WordAt(s, i, "WHEN")
  {
    Keywords();
    OuterKeywords();
    forall k | 0 <= k < |RESERVED|
      ensures !WordAt(s, i, RESERVED[k])
    {
      WordHere(s, i, x, RESERVED[k]);
    }
    assert RESERVED[0] == "CASE" && RESERVED[1] == "IF" && RESERVED[2] == "LET" && RESERVED[3] == "RETURN";
    assert RESERVED[4] == "EXCEPTION" && RESERVED[5] == "END" && RESERVED[6] == "ELSE" && RESERVED[7] == "WHEN";
  }

  lemma SqlNotAssigned(s: string, i: nat, x: string)
    requires SqlText(x) && Holds(s, i, x) && i + |x| < |s| && s[i + |x|] == ';'
    ensures var n := IdentAt(s, i); n > i ==> !PairAt(s, SkipFrom(s, n), ':', '=')
  {
    if x != "" {
      IdentAtSame(s, i, x);
      var n := IdentAt(x, 0);
      var k := Lead(x, n, |x|);
      if n > 0 { SqlAfterName(s, i, x, n, k); }
    }
  }

  lemma SqlAfterName(s: string, i: nat, x: string, n: nat, k: nat)
    requires Holds(s, i, x) && i + |x| < |s| && s[i + |x|] == ';'
    requires n <= k <= |x| && AllSpace(x, n, k) && (k < |x| ==> !IsSpace(x[k]))
    requires !PairAt(x, k, ':', '=') && !PairAt(x, k, '-', '-')
    ensures !PairAt(s, SkipFrom(s, i + n), ':', '=')
  {
    SpacesSame(s, i, x, n, k);
    SkipSpaces(s, i + n, i + k);
    NoPairAfter(s, i, x, k);
  }

  lemma SpacesSame(s: string, i: nat, x: string, n: nat, k: nat)
    requires Holds(s, i, x) && n <= k <= |x| && AllSpace(x, n, k)
    ensures AllSpace(s, i + n, i + k)
  {
    forall j | i + n <= j < i + k
      ensures IsSpace(s[j])
    {
      HoldsAt(s, i, x, j - i);
    }
  }

  /** Neither ":=" nor a comment at k in x, then neither in s. */
  lemma NoPairAfter(s: string, i: nat, x: string, k: nat)
    requires Holds(s, i, x) && k <= |x| && i + |x| < |s| && s[i + |x|] == ';'
    requires !PairAt(x, k, ':', '=') && !PairAt(x, k, '-', '-') && (k < |x| ==> !IsSpace(x[k]))
    ensures SkipFrom(s, i + k) == i + k && !PairAt(s, i + k, ':', '=')
  {
    if k < |x| { HoldsAt(s, i, x, k); }
    if k + 1 < |x| { HoldsAt(s, i, x, k + 1); }
  }

  lemma IdentAtSame(s: string, i: nat, x: string)
    requires Holds(s, i, x) && x != "" && i + |x| < |s| && s[i + |x|] == ';'
    ensures IdentAt(s, i) == i + IdentAt(x, 0)
  {
    HoldsHead(s, i, x);
    if Letter(x[0]) || x[0] == '_' {
      IdentRunSame(s, i, x, 1);
    }
  }

  lemma {:induction false} IdentRunSame(s: string, i: nat, x: string, k: nat)
    requires Holds(s, i, x) && k <= |x| && i + |x| < |s| && s[i + |x|] == ';'
    ensures IdentRun(s, i + k) == i + IdentRun(x, k)
    decreases |x| - k
  {
    if k < |x| {
      HoldsAt(s, i, x, k);
      if IdentChar(x[k]) { IdentRunSame(s, i, x, k + 1); }
    }
  }

  lemma ReturnRound(s: string, i: nat, e: string)
    requires Ended(e) && Holds(s, i, PrintStmt(Return(e))) && Edge(s, i)
    ensures Opens(s, i) && ParseStatement(s, i) == Ok(Return(e), i + |PrintStmt(Return(e))|)
  {
    hide Holds, Quiet, WordAt, Trim, UntilSemicolon, SkipFrom, AfterWord, ParseCase, ParseIf, ParseLet, ParsePlain;
    assert "RETURN " == "RETURN" + " ";
    ConcatAssociates("RETURN", " ", e + ";");
    WordThenText(s, i, "RETURN", e);
    Openers(s, i, "RETURN");
  }

  /** A statement keyword is none of the others, nor one that ends a list. */
  lemma Openers(s: string, i: nat, kw: string)
    requires kw == "CASE" || kw == "IF" || kw == "LET" || kw == "RETURN"
    requires WordAt(s, i, kw)
    ensures forall other :: other in RESERVED && other != kw ==> !WordAt(s, i, other)
    ensures !WordAt(s, i, "EXCEPTION") && !WordAt(s, i, "END") && !WordAt(s, i, "ELSE") && !WordAt(s, i, "WHEN")
    ensures kw != "CASE" ==> !WordAt(s, i, "CASE")
    ensures kw != "IF" ==> !WordAt(s, i, "IF")
    ensures kw != "LET" ==> !WordAt(s, i, "LET")
  {
    Keywords();
    OuterKeywords();
    forall other | other in RESERVED && other != kw
      ensures !WordAt(s, i, other)
    {
      OneKeyword(s, i, kw, other);
    }
    assert RESERVED[0] == "CASE" && RESERVED[1] == "IF" && RESERVED[2] == "LET";
    assert RESERVED[4] == "EXCEPTION" && RESERVED[5] == "END" && RESERVED[6] == "ELSE" && RESERVED[7] == "WHEN";
  }

  lemma AssignRound(s: string, i: nat, n: string, e: string)
    requires FitsStmt(Assign(n, e)) && Holds(s, i, PrintStmt(Assign(n, e))) && Edge(s, i)
    ensures Opens(s, i) && ParseStatement(s, i) == Ok(Assign(n, e), i + |PrintStmt(Assign(n, e))|)
  {
    hide Trim, Quiet, UntilSemicolon, ParsePlain, ParseStatement;
    var rest := " := " + (e + ";");
    var k := i + |n|;
    ConcatAssociates(n, " := ", e + ";");
    HoldsSplit(s, i, n, rest);
    HoldsAt(s, k, rest, 0);
    HoldsAt(s, i, n, 0);
    if |n| > 1 { HoldsAt(s, i, n, 1); }
    NameWords(s, i, n);
    PlainStatement(s, i);
    IdentRunIs(s, i, n);
    AssignPlain(s, i, n, e);
  }

  lemma AssignPlain(s: string, i: nat, n: string, e: string)
    requires n != "" && Upper(n) == n && Ended(e)
    requires Holds(s, i, n) && IdentAt(s, i) == i + |n| && Holds(s, i + |n|, " := " + (e + ";"))
    ensures ParsePlain(s, i) == Ok(Assign(n, e), i + |n| + 4 + |e| + 1)
  {
    hide Quiet, ParsePlain, UntilSemicolon, Trim;
    var k := i + |n|;
    var tail := " " + (e + ";");
    assert " := " + (e + ";") == " :=" + tail;
    HoldsSplit(s, k, " :=", tail);
    AssignSign(s, k);
    UntilPadded(s, k + 3, e);
    PlainAssign(s, i, k, k + 3, n, e);
  }

  lemma PlainAssign(s: string, i: nat, n: nat, v: nat, name: string, x: string)
    requires i <= |s| && i < n == IdentAt(s, i) && v == SkipFrom(s, n) + 2 && PairAt(s, v - 2, ':', '=')
    requires UntilSemicolon(s, v, 0, false) < |s| && Trim(s[v..UntilSemicolon(s, v, 0, false)]) == x
    requires Upper(s[i..n]) == name
    ensures ParsePlain(s, i) == Ok(Assign(name, x), UntilSemicolon(s, v, 0, false) + 1)
  {
  }

  lemma AssignSign(s: string, k: nat)
    requires Holds(s, k, " :=")
    ensures SkipFrom(s, k) == k + 1 && PairAt(s, k + 1, ':', '=')
  {
    HoldsAt(s, k, " :=", 0);
    HoldsAt(s, k, " :=", 1);
    HoldsAt(s, k, " :=", 2);
    assert SkipFrom(s, k + 1) == k + 1;
  }

  lemma NameWords(s: string, i: nat, n: string)
    requires Name(n) && n !in RESERVED && Holds(s, i, n) && i + |n| < |s| && s[i + |n|] == ' '
    ensures forall other :: other in RESERVED ==> !WordAt(s, i, other)
    ensures !WordAt(s, i, "CASE") && !WordAt(s, i, "IF") && !WordAt(s, i, "LET") && !WordAt(s, i, "RETURN")
    ensures !WordAt(s, i, "EXCEPTION") && !WordAt(s, i, "END") && !WordAt(s, i, "ELSE") && !WordAt(s, i, "WHEN")
  {
    Keywords();
    OuterKeywords();
    forall other | other in RESERVED
      ensures !WordAt(s, i, other)
    {
      WordHere(s, i, n, other);
      if |other| < |n| {
        HoldsAt(s, i, n, |other|);
      } else if |other| == |n| {
        assert n[..|n|] == n;
      }
    }
    assert RESERVED[0] == "CASE" && RESERVED[1] == "IF" && RESERVED[2] == "LET" && RESERVED[3] == "RETURN";
    assert RESERVED[4] == "EXCEPTION" && RESERVED[5] == "END" && RESERVED[6] == "ELSE" && RESERVED[7] == "WHEN";
  }

  // ------------------------------------------------------------- LET and DECLARE

  /** The first ":=" is not in a text without one. */
  lemma {:induction false} AssignOver(r: string, i: nat, x: string, depth: nat, quoted: bool)
    requires Holds(r, i, x) && Quiet(x, depth, quoted, true) && AssignFree(x, depth, quoted)
    requires i + |x| + 2 <= |r| && r[i + |x|] == ' '
    ensures TopAssign(r, i, depth, quoted) == TopAssign(r, i + |x|, 0, false)
    decreases |x|
  {
    if x != "" {
      StepSame(r, i, x, quoted);
      if |x| > 1 { HoldsAt(r, i, x, 1); }
      AssignOver(r, i + Stride(x, 0, quoted), After(x, quoted), Deeper(x, depth, quoted), QuotedAfter(x, 0, quoted));
    }
  }

  /** The first DEFAULT is not in a text without that word. */
  lemma {:induction false} DefaultOver(r: string, i: nat, x: string, prev: char, depth: nat, quoted: bool)
    requires Holds(r, i, x) && Quiet(x, depth, quoted, true) && WordFree(x, prev, depth, quoted, "DEFAULT")
    requires i > 0 && r[i - 1] == prev && (i + |x| < |r| ==> r[i + |x|] == ' ')
    ensures TopWord(r, i, depth, quoted, "DEFAULT") == TopWord(r, i + |x|, 0, false, "DEFAULT")
    decreases |x|
  {
    hide Holds, WordAt, StartsWord, Looks, DepthAfter, QuotedAfter;
    if x != "" && i + 7 <= |r| {
      var n := Stride(x, 0, quoted);
      HoldsAt(r, i, x, n - 1);
      StepSame(r, i, x, quoted);
      DefaultStep(r, i, x, prev, depth, quoted);
      DefaultOver(r, i + n, After(x, quoted), x[0], Deeper(x, depth, quoted), QuotedAfter(x, 0, quoted));
    }
  }

  /** One step of the scan, which looks at every second character of a doubled quote as well. */
  lemma DefaultStep(r: string, i: nat, x: string, prev: char, depth: nat, quoted: bool)
    requires Holds(r, i, x) && x != "" && i + 7 <= |r| && WordFree(x, prev, depth, quoted, "DEFAULT")
    requires i > 0 && r[i - 1] == prev && (i + |x| < |r| ==> r[i + |x|] == ' ')
    ensures var n := Stride(x, 0, quoted);
            TopWord(r, i, depth, quoted, "DEFAULT") == TopWord(r, i + n, Deeper(x, depth, quoted), QuotedAfter(x, 0, quoted), "DEFAULT")
  {
    OuterKeywords();
    StepSame(r, i, x, quoted);
    if |x| > 1 { HoldsAt(r, i, x, 1); }
    NoDefaultHere(r, i, x, prev, depth, quoted);
    if Stride(x, 0, quoted) == 2 { NoWordAtQuote(r, i + 1, "DEFAULT"); }
    hide WordAt, Holds;
  }

  lemma NoWordAtQuote(r: string, i: nat, kw: string)
    requires i < |r| && Keyword(kw) && !Letter(r[i])
    ensures !WordAt(r, i, kw)
  {
    OtherStart(r, i, kw);
  }

  /** The scan sees no DEFAULT at the first character. */
  lemma NoDefaultHere(r: string, i: nat, x: string, prev: char, depth: nat, quoted: bool)
    requires Keyword("DEFAULT") && Holds(r, i, x) && x != "" && i > 0 && r[i - 1] == prev
    requires (i + |x| < |r| ==> r[i + |x|] == ' ') && WordFree(x, prev, depth, quoted, "DEFAULT")
    ensures !quoted && depth == 0 ==> !WordAt(r, i, "DEFAULT")
    ensures !Letter(r[i]) ==> !WordAt(r, i, "DEFAULT")
  {
    HoldsAt(r, i, x, 0);
    WordHere(r, i, x, "DEFAULT");
    if !Letter(r[i]) { NoWordAtQuote(r, i, "DEFAULT"); }
  }

  lemma {:induction false} QuietConcat(x: string, y: string, depth: nat, quoted: bool, bare: bool)
    requires Quiet(x, depth, quoted, bare) && Quiet(y, 0, false, bare)
    requires x != "" && y != "" ==> x[|x| - 1] != '\'' || y[0] != '\''
    ensures Quiet(x + y, depth, quoted, bare)
    decreases |x|
  {
    if x == "" {
      assert x + y == y;
    } else {
      var z := x + y;
      var n := Stride(x, 0, quoted);
      assert Stride(z, 0, quoted) == n;
      assert After(z, quoted) == After(x, quoted) + y;
      if n < |x| { assert After(x, quoted)[|x| - n - 1] == x[|x| - 1]; }
      QuietConcat(After(x, quoted), y, Deeper(x, depth, quoted), QuotedAfter(x, 0, quoted), bare);
    }
  }

  predicate NoMarks(x: string) {
    forall k :: 0 <= k < |x| ==> x[k] != '\'' && x[k] != '(' && x[k] != ')' && x[k] != ';'
  }

  lemma {:induction false} QuietPlain(x: string)
    requires NoMarks(x)
    ensures Quiet(x, 0, false, true)
    decreases |x|
  {
    if x != "" { QuietPlain(x[1..]); }
  }

  lemma LetBodyEnded(n: string, t: string, e: string)
    requires Name(n) && Ended(t) && Ended(e) && e != ""
    ensures Ended(LetBody(n, t, e))
  {
    var head := LetType(t) + " := ";
    LetHeadQuiet(t);
    QuietConcat(head, e, 0, false, true);
    assert head[|head| - 1] == ' ' && head[0] == ' ';
    EndedConcat(n, head + e);
    assert (head + e)[|head + e| - 1] == e[|e| - 1];
  }

  lemma LetHeadQuiet(t: string)
    requires Ended(t)
    ensures var head := LetType(t) + " := "; Quiet(head, 0, false, true) && head[0] == ' ' && head[|head| - 1] == ' '
  {
    QuietPlain(" := ");
    hide Quiet;
    if t == "" {
      assert LetType(t) + " := " == " := ";
    } else {
      LetTypeQuiet(t);
    }
  }

  lemma LetTypeQuiet(t: string)
    requires Ended(t) && Quiet(" := ", 0, false, true)
    ensures var head := " " + t + " := "; Quiet(head, 0, false, true) && head[0] == ' ' && head[|head| - 1] == ' '
  {
    QuietPlain(" ");
    hide Quiet, Trimmed;
    QuietConcat(" ", t, 0, false, true);
    QuietConcat(" " + t, " := ", 0, false, true);
  }

  /** A name followed by a space and a quiet text that ends in no space. */
  lemma EndedConcat(n: string, rest: string)
    requires Name(n) && Quiet(rest, 0, false, true) && rest != ""
    requires rest[0] == ' ' && !IsSpace(rest[|rest| - 1])
    ensures Ended(n + rest)
  {
    assert NoMarks(n);
    QuietPlain(n);
    QuietConcat(n, rest, 0, false, true);
    var body := n + rest;
    assert body[0] == n[0] && IdentChar(n[0]);
    assert body[|body| - 1] == rest[|rest| - 1];
  }

  lemma TrimRight(x: string)
    requires Trimmed(x)
    ensures Trim(x + " ") == x && Trim(" " + x) == x && Trim(" " + x + " ") == x
  {
    TrimOf("", x, " ");
    assert "" + x + " " == x + " ";
    TrimOf(" ", x, "");
    assert " " + x + "" == " " + x;
    TrimOf(" ", x, " ");
  }

  /** Where ":=" and DEFAULT are found after the name. */
  lemma LetRest(t: string, e: string, r: string, k: nat)
    requires TypeText(t) && AssignFree(t, 0, false) && r == LetType(t) + " := " + e && k == |LetType(t)|
    ensures TopAssign(r, 0, 0, false) == k + 1
    ensures TopWord(r, 0, 0, false, "DEFAULT") < 0 || TopWord(r, 0, 0, false, "DEFAULT") >= k + 1
    ensures k + 3 <= |r| && r[0] == ' '
  {
    hide TopAssign, TopWord, AssignFree, TypeText;
    assert r[k..k + 4] == " := ";
    HoldsAt(r, k, " := ", 0);
    HoldsAt(r, k, " := ", 1);
    HoldsAt(r, k, " := ", 2);
    if t != "" {
      assert r[1..1 + |t|] == t && r[0] == ' ';
      LetRestScan(r, t);
    }
    LetRestEnd(r, k);
  }

  lemma LetParts(t: string, e: string, r: string, k: nat)
    requires Trimmed(t) && Trimmed(e) && r == LetType(t) + " := " + e && k == |LetType(t)|
    ensures k + 3 <= |r| && Trim(r[..k + 1]) == t && Trim(r[k + 3..]) == e
  {
    assert r[..k + 1] == LetType(t) + " ";
    assert r[k + 3..] == " " + e;
    TrimRight(t);
    TrimRight(e);
    if t == "" { assert LetType(t) + " " == t + " "; }
  }

  lemma LetRestScan(r: string, t: string)
    requires TypeText(t) && AssignFree(t, 0, false) && t != ""
    requires Holds(r, 1, t) && r[0] == ' ' && |t| + 3 < |r| && r[1 + |t|] == ' '
    ensures TopAssign(r, 0, 0, false) == TopAssign(r, 1 + |t|, 0, false)
    ensures var d := TopWord(r, 0, 0, false, "DEFAULT"); d == TopWord(r, 1 + |t|, 0, false, "DEFAULT")
  {
    AssignOver(r, 1, t, 0, false);
    DefaultOver(r, 1, t, ' ', 0, false);
    OuterKeywords();
    NoWordAtQuote(r, 0, "DEFAULT");
  }

  lemma LetRestEnd(r: string, k: nat)
    requires k + 3 < |r| && r[k] == ' ' && r[k + 1] == ':' && r[k + 2] == '='
    ensures TopAssign(r, k, 0, false) == k + 1
    ensures var d := TopWord(r, k, 0, false, "DEFAULT"); d < 0 || d >= k + 1
  {
    OuterKeywords();
    NoWordAtQuote(r, k, "DEFAULT");
  }

  lemma LetRead(text: string, n: string, t: string, e: string)
    requires Name(n) && TypeText(t) && AssignFree(t, 0, false) && Ended(e) && e != ""
    requires Trim(text) == LetBody(n, t, e)
    ensures ReadLet(text) == Good(Let(n, t, e))
  {
    var r := LetType(t) + " := " + e;
    var k := |LetType(t)|;
    hide Trim, Quiet, AssignFree, ReadLet, TopAssign, TopWord;
    LetRest(t, e, r, k);
    LetParts(t, e, r, k);
    NameRead(n, r, n + r);
    LetAssemble(text, n, r, k + 1, t, e);
  }

  lemma NameRead(n: string, r: string, body: string)
    requires Name(n) && r != "" && r[0] == ' ' && body == n + r
    ensures IdentRun(body, 0) == |n| && body[..|n|] == n && body[|n|..] == r
  {
    assert body[0..|n|] == n;
    IdentRunIs(body, 0, n);
  }

  lemma LetAssemble(text: string, n: string, r: string, at: nat, t: string, e: string)
    requires n != "" && Upper(n) == n && Upper(t) == t && e != ""
    requires var b := Trim(text); IdentRun(b, 0) == |n| && b[..|n|] == n && b[|n|..] == r
    requires TopAssign(r, 0, 0, false) == at && at + 2 <= |r|
    requires TopWord(r, 0, 0, false, "DEFAULT") < 0 || TopWord(r, 0, 0, false, "DEFAULT") >= at
    requires Trim(r[..at]) == t && Trim(r[at + 2..]) == e
    ensures ReadLet(text) == Good(Let(n, t, e))
  {
  }

  lemma LetRound(s: string, i: nat, n: string, t: string, e: string)
    requires FitsStmt(Let(n, t, e)) && Holds(s, i, PrintStmt(Let(n, t, e))) && Edge(s, i)
    ensures Opens(s, i) && ParseStatement(s, i) == Ok(Let(n, t, e), i + |PrintStmt(Let(n, t, e))|)
  {
    LetBodyEnded(n, t, e);
    LetBodyRound(s, i, n, t, e, LetBody(n, t, e));
  }

  lemma LetBodyRound(s: string, i: nat, n: string, t: string, e: string, body: string)
    requires FitsStmt(Let(n, t, e)) && body == LetBody(n, t, e) && Ended(body)
    requires Holds(s, i, "LET " + (body + ";")) && Edge(s, i)
    ensures Opens(s, i) && ParseStatement(s, i) == Ok(Let(n, t, e), i + 4 + |body| + 1)
  {
    hide Holds, Quiet, WordFree, AssignFree, WordAt, ReadLet, ParseStatement, LetBody, Trim, UntilSemicolon, SkipFrom, AfterWord;
    assert "LET " == "LET" + " ";
    ConcatAssociates("LET", " ", body + ";");
    WordThenText(s, i, "LET", body);
    Openers(s, i, "LET");
    LetStatement(s, i, i + 4 + |body|);
    LetRead(s[i + 3..i + 4 + |body|], n, t, e);
  }

  lemma LetStatement(s: string, i: nat, e: nat)
    requires Solid(s, i) && SkipFrom(s, i) == i && WordAt(s, i, "LET")
    requires !WordAt(s, i, "CASE") && !WordAt(s, i, "IF")
    requires e == UntilSemicolon(s, i + 3, 0, false) < |s|
    ensures ParseStatement(s, i) == match ReadLet(s[i + 3..e]) case Bad(f) => Err(f) case Good(st) => Ok(st, e + 1)
  {
    hide ParseCase, ParseIf, ParseReturn, ParsePlain, ReadLet, UntilSemicolon, WordAt, SkipFrom;
  }

  /** A keyword, a space, and a text up to its semicolon. */
  lemma WordThenText(s: string, i: nat, kw: string, x: string)
    requires kw == "LET" || kw == "RETURN"
    requires Ended(x) && Holds(s, i, kw + (" " + (x + ";"))) && Edge(s, i)
    ensures Solid(s, i) && SkipFrom(s, i) == i && WordAt(s, i, kw) && AfterWord(s, i, kw) == i + |kw|
    ensures var j := i + |kw|; var e := UntilSemicolon(s, j, 0, false); e == j + 1 + |x| < |s| && Trim(s[j..e]) == x
  {
    var tail := " " + (x + ";");
    HoldsSplit(s, i, kw, tail);
    HoldsAt(s, i + |kw|, tail, 0);
    HoldsAt(s, i, kw, 0);
    Keywords();
    KeywordHere(s, i, kw);
    UntilPadded(s, i + |kw|, x);
  }

  // ------------------------------------------------------------- lists and blocks

  predicate Terminator(t: string) { t == "EXCEPTION" || t == "END" || t == "ELSE" || t == "WHEN" }

  /** The word that ends a list stands at i. */
  predicate Closes(s: string, i: nat, t: string) {
    i < |s| && Terminator(t) && WordAt(s, i, t) && SkipFrom(s, i) == i
  }

  lemma FirstWordAt(s: string, i: nat, words: seq<string>, k: nat)
    requires k < |words| && Closes(s, i, words[k])
    requires forall j :: 0 <= j < |words| ==> Terminator(words[j])
    requires forall j :: 0 <= j < k ==> words[j] != words[k]
    ensures FirstWord(s, i, words) == k
    decreases k
  {
    Keywords();
    OuterKeywords();
    if k > 0 {
      OneKeyword(s, i, words[k], words[0]);
      FirstWordAt(s, i, words[1..], k - 1);
    }
  }

  lemma {:induction false} NoFirstWord(s: string, i: nat, words: seq<string>)
    requires Opens(s, i) && forall j :: 0 <= j < |words| ==> Terminator(words[j])
    ensures FirstWord(s, i, words) == |words|
  {
    if words != [] { NoFirstWord(s, i, words[1..]); }
  }

  /** A list step: the newline before, then the statement, then the rest of the list. */
  lemma ListStep(s: string, i: nat, words: seq<string>, st: Stmt, k: nat, rest: Step<List>)
    requires i + 1 < |s| && s[i] == '\n' && Opens(s, i + 1)
    requires forall j :: 0 <= j < |words| ==> Terminator(words[j])
    requires ParseStatement(s, i + 1) == Ok(st, k) && i + 1 < k <= |s| && ParseStatements(s, k, words) == rest && rest.Ok?
    ensures ParseStatements(s, i, words)
         == Ok(List(Then(st, rest.value.stmts), rest.value.terminator), rest.pos)
  {
    NoFirstWord(s, i + 1, words);
    assert SkipFrom(s, i + 1) == i + 1;
    assert SkipFrom(s, i) == i + 1;
  }

  lemma ListEnd(s: string, i: nat, words: seq<string>, w: nat)
    requires i + 1 < |s| && s[i] == '\n' && w < |words| && Closes(s, i + 1, words[w])
    requires forall j :: 0 <= j < |words| ==> Terminator(words[j])
    requires forall j :: 0 <= j < w ==> words[j] != words[w]
    ensures ParseStatements(s, i, words) == Ok(List(Done, words[w]), i + 1)
  {
    FirstWordAt(s, i + 1, words, w);
    assert SkipFrom(s, i) == i + 1;
  }

  /** A condition in parentheses, up to the keyword after it. */
  lemma ConditionRead(s: string, i: nat, c: string, sep: char, kw: string, k: nat)
    requires Trimmed(c) && Quiet(c, 0, false, false) && (sep == ' ' || sep == '\n')
    requires Holds(s, i, Condition(c, sep)) && k == i + |Condition(c, sep)| < |s|
    requires Keyword(kw) && SkipFrom(s, k) == k && WordAt(s, k, kw)
    ensures UntilWord(s, i, 0, false, kw) == k - 1 && SkipFrom(s, k - 1) == k && TrimOuter(s[i..k]) == c
  {
    ConditionMarks(s, i, c, sep);
    ConditionScan(s, i, c, kw, k);
    ConditionText(s, i, c, sep, k);
  }

  lemma ConditionMarks(s: string, i: nat, c: string, sep: char)
    requires Holds(s, i, Condition(c, sep))
    ensures var k := i + |Condition(c, sep)|;
            && k == i + 2 + |c| + 2 <= |s| && s[i] == ' ' && s[i + 1] == '(' && Holds(s, i + 2, c)
            && s[k - 2] == ')' && s[k - 1] == sep
  {
    HoldsSplit(s, i, " (" + c + ")", [sep]);
    HoldsSplit(s, i, " (" + c, ")");
    HoldsSplit(s, i, " (", c);
    HoldsAt(s, i, " (", 0);
    HoldsAt(s, i, " (", 1);
    HoldsAt(s, i + 2 + |c|, ")", 0);
    HoldsAt(s, i + 3 + |c|, [sep], 0);
  }

  /** One character of the scan for a keyword that is not next. */
  lemma WordStep(s: string, i: nat, depth: nat, kw: string)
    requires i < |s| && s[i] != '\'' && (depth > 0 || s[i] == '(' || !NextWord(s, i, kw))
    ensures UntilWord(s, i, depth, false, kw) == UntilWord(s, i + 1, DepthAfter(s, i, depth, false), false, kw)
  {
  }

  lemma ConditionScan(s: string, i: nat, c: string, kw: string, k: nat)
    requires Quiet(c, 0, false, false) && Keyword(kw) && k == i + 2 + |c| + 2 < |s|
    requires s[i] == ' ' && s[i + 1] == '(' && Holds(s, i + 2, c) && s[k - 2] == ')' && IsSpace(s[k - 1])
    requires SkipFrom(s, k) == k && WordAt(s, k, kw)
    ensures UntilWord(s, i, 0, false, kw) == k - 1 && SkipFrom(s, k - 1) == k
  {
    hide Holds, Quiet, WordAt, UntilWord;
    OtherStart(s, i + 1, kw);
    assert SkipFrom(s, i) == SkipFrom(s, i + 1) == i + 1;
    hide SkipFrom;
    WordStep(s, i, 0, kw);
    WordStep(s, i + 1, 0, kw);
    WordOver(s, i + 2, c, 0, false, kw);
    WordStep(s, k - 2, 1, kw);
    WordHit(s, k - 1, kw);
  }

  lemma WordHit(s: string, i: nat, kw: string)
    requires i + 1 < |s| && IsSpace(s[i]) && SkipFrom(s, i + 1) == i + 1 && WordAt(s, i + 1, kw)
    ensures SkipFrom(s, i) == i + 1 && UntilWord(s, i, 0, false, kw) == i
  {
  }

  lemma ConditionText(s: string, i: nat, c: string, sep: char, k: nat)
    requires Trimmed(c) && (sep == ' ' || sep == '\n')
    requires Holds(s, i, Condition(c, sep)) && k == i + |Condition(c, sep)|
    ensures TrimOuter(s[i..k]) == c
  {
    var t := "(" + c + ")";
    assert s[i..k] == " " + t + [sep];
    assert Trimmed(t);
    TrimOf(" ", t, [sep]);
    assert t[1..|t| - 1] == c;
    TrimSame(c);
  }

  /** END, the block's word and a semicolon. */
  lemma BlockEnd(s: string, i: nat, kw: string, st: Stmt, fault: Fault)
    requires Keyword(kw) && i + 4 + |kw| < |s| && Edge(s, i)
    requires Holds(s, i, "END") && s[i + 3] == ' ' && Holds(s, i + 4, kw) && s[i + 4 + |kw|] == ';'
    ensures Closes(s, i, "END") && EndBlock(s, i, kw, st, fault) == Ok(st, i + 4 + |kw| + 1)
  {
    Keywords();
    KeywordHere(s, i, "END");
    KeywordHere(s, i + 4, kw);
    EndWords(s, i + 3, i + 4, kw, i + 4 + |kw|);
  }

  lemma EndIfText(s: string, i: nat)
    requires Holds(s, i, "END IF;")
    ensures Holds(s, i, "END") && s[i + 3] == ' ' && Holds(s, i + 4, "IF") && i + 6 < |s| && s[i + 6] == ';'
  {
    assert "END IF;" == "END" + " " + "IF" + ";";
    HoldsSplit(s, i, "END" + " " + "IF", ";");
    HoldsSplit(s, i, "END" + " ", "IF");
    HoldsSplit(s, i, "END", " ");
    HoldsAt(s, i + 3, " ", 0);
    HoldsAt(s, i + 6, ";", 0);
  }

  lemma EndCaseText(s: string, i: nat)
    requires Holds(s, i, "END CASE;")
    ensures Holds(s, i, "END") && s[i + 3] == ' ' && Holds(s, i + 4, "CASE") && i + 8 < |s| && s[i + 8] == ';'
  {
    assert "END CASE;" == "END" + " " + "CASE" + ";";
    HoldsSplit(s, i, "END" + " " + "CASE", ";");
    HoldsSplit(s, i, "END" + " ", "CASE");
    HoldsSplit(s, i, "END", " ");
    HoldsAt(s, i + 3, " ", 0);
    HoldsAt(s, i + 8, ";", 0);
  }

  lemma EndWords(s: string, a: nat, j: nat, kw: string, e: nat)
    requires j == a + 1 && j < e == j + |kw| < |s| && s[a] == ' ' && SkipFrom(s, j) == j && WordAt(s, j, kw) && s[e] == ';'
    ensures NextWord(s, a, kw) && AfterWord(s, a, kw) == e && AfterSemicolon(s, e) == e + 1
  {
    assert SkipFrom(s, e) == e;
  }
}
