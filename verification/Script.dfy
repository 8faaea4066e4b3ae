/** The stored-procedure script parser (pkg/query/procedure_scripting.go). */
module Script {
  import opened Scanner
  import opened Text

  // ------------------------------------------------------------- scripts

  datatype Stmt =
    | Sql(sql: string)
    | Assign(name: string, expression: string)
    | Return(expression: string)
    | Let(name: string, dataType: string, expression: string)
    | If(condition: string, thenBranch: Stmts, elseBranch: Stmts)
    | Case(subject: string, branches: Branches, elseBranch: Stmts)

  datatype Stmts = Done | Then(first: Stmt, rest: Stmts)

  datatype Branches = NoBranch | Branch(value: string, body: Stmts, others: Branches)

  /** An empty default means that there is none. */
  datatype Declaration = Declaration(name: string, dataType: string, defaultSql: string)

  /** An empty handler is no handler: an empty list and an absent one are both nil in the program. */
  datatype Script = Script(declarations: seq<Declaration>, body: Stmts, handler: Stmts)

  datatype Fault =
    | NoBegin | BadHandler | TrailingText | UnexpectedEnd | NoSemicolon | NoKeyword
    | NoEndIf | NoEndCase | NoName | NoType | NoDefault | NoSeparator | NoExpression

  /** What a parse step gives: a value and the position after it, or a fault. */
  datatype Step<T> = Ok(value: T, pos: nat) | Err(fault: Fault)

  datatype Reading<T> = Good(value: T) | Bad(fault: Fault)

  // ------------------------------------------------------------- characters and words

  predicate IdentChar(c: char) { Letter(c) || '0' <= c <= '9' || c == '_' || c == '$' }

  /** Past spaces and line comments. */
  function SkipFrom(s: string, i: nat): (j: nat)
    requires i <= |s|
    ensures i <= j <= |s|
    decreases |s| - i
  {
    if i == |s| then i
    else if IsSpace(s[i]) then SkipFrom(s, i + 1)
    else if PairAt(s, i, '-', '-') then SkipFrom(s, LineEnd(s, i + 2))
    else i
  }

  /** The keyword stands at j as a whole word, in any case. */
  predicate WordAt(s: string, j: nat, kw: string) {
    && j + |kw| <= |s| && Upper(s[j..j + |kw|]) == kw
    && (j == 0 || !IdentChar(s[j - 1]))
    && (j + |kw| == |s| || !IdentChar(s[j + |kw|]))
  }

  /** The keyword is the next thing after spaces and comments. */
  predicate NextWord(s: string, i: nat, kw: string)
    requires i <= |s|
  {
    WordAt(s, SkipFrom(s, i), kw)
  }

  function AfterWord(s: string, i: nat, kw: string): (j: nat)
    requires i <= |s| && NextWord(s, i, kw)
    ensures i + |kw| <= j <= |s|
  {
    SkipFrom(s, i) + |kw|
  }

  function AfterSemicolon(s: string, i: nat): (j: nat)
    requires i <= |s|
    ensures i <= j <= |s|
  {
    var k := SkipFrom(s, i);
    if k < |s| && s[k] == ';' then k + 1 else k
  }

  /** The run of identifier characters from i. */
  function IdentRun(s: string, i: nat): (j: nat)
    requires i <= |s|
    ensures i <= j <= |s|
    decreases |s| - i
  {
    if i < |s| && IdentChar(s[i]) then IdentRun(s, i + 1) else i
  }

  /** Just past the identifier at i, or i when none starts there. */
  function IdentAt(s: string, i: nat): (j: nat)
    requires i <= |s|
    ensures i <= j <= |s|
  {
    if i < |s| && (Letter(s[i]) || s[i] == '_') then IdentRun(s, i + 1) else i
  }

  /** How far one step of a scan goes: a doubled quote inside a literal is one step. */
  function Stride(s: string, i: nat, quoted: bool): (n: nat)
    requires i < |s|
    ensures 1 <= n && i + n <= |s|
  {
    if s[i] == '\'' && quoted && i + 1 < |s| && s[i + 1] == '\'' then 2 else 1
  }

  function QuotedAfter(s: string, i: nat, quoted: bool): bool
    requires i < |s|
  {
    if s[i] == '\'' && Stride(s, i, quoted) == 1 then !quoted else quoted
  }

  function DepthAfter(s: string, i: nat, depth: int, quoted: bool): int
    requires i < |s|
  {
    if quoted then depth else if s[i] == '(' then depth + 1 else if s[i] == ')' then depth - 1 else depth
  }

  /** The first semicolon outside quotes and parentheses, or |s|. */
  function UntilSemicolon(s: string, i: nat, depth: int, quoted: bool): (j: nat)
    requires i <= |s|
    ensures i <= j <= |s| && (j < |s| ==> s[j] == ';')
    decreases |s| - i
  {
    if i == |s| || (!quoted && s[i] == ';' && depth == 0) then i
    else UntilSemicolon(s, i + Stride(s, i, quoted), DepthAfter(s, i, depth, quoted), QuotedAfter(s, i, quoted))
  }

  /** The keyword is looked for here. */
  predicate Looks(s: string, i: nat, depth: int, quoted: bool)
    requires i < |s|
  {
    !quoted && depth == 0 && s[i] != '\'' && s[i] != '(' && s[i] != ')'
  }

  /** The first place outside quotes and parentheses where the keyword is next, or |s|. */
  function UntilWord(s: string, i: nat, depth: int, quoted: bool, kw: string): (j: nat)
    requires i <= |s|
    ensures i <= j <= |s| && (j < |s| ==> NextWord(s, j, kw))
    decreases |s| - i
  {
    if i == |s| || (Looks(s, i, depth, quoted) && NextWord(s, i, kw)) then i
    else UntilWord(s, i + Stride(s, i, quoted), DepthAfter(s, i, depth, quoted), QuotedAfter(s, i, quoted), kw)
  }

  /** One outer pair of parentheses comes off, whether or not they match each other. */
  function TrimOuter(x: string): string {
    var t := Trim(x);
    if |t| >= 2 && t[0] == '(' && t[|t| - 1] == ')' then Trim(t[1..|t| - 1]) else t
  }

  // ------------------------------------------------------------- declarations and LET

  /** Here every quote character opens or closes a literal. */
  function NextQuoted(x: string, i: nat, quoted: bool): bool
    requires i < |x|
  {
    if x[i] == '\'' then !quoted else quoted
  }

  /** The first ":=" outside quotes and parentheses, or -1. */
  function TopAssign(x: string, i: nat, depth: int, quoted: bool): (r: int)
    ensures r == -1 || (i <= r && r + 2 <= |x|)
    decreases |x| - i
  {
    if i + 2 > |x| then -1
    else
      var q := NextQuoted(x, i, quoted);
      var d := DepthAfter(x, i, depth, quoted);
      if !q && d == 0 && PairAt(x, i, ':', '=') then i else TopAssign(x, i + 1, d, q)
  }

  /** The first whole word outside quotes and parentheses that is the keyword, or -1. */
  function TopWord(x: string, i: nat, depth: int, quoted: bool, kw: string): (r: int)
    ensures r == -1 || (i <= r && r + |kw| <= |x|)
    decreases |x| - i
  {
    if i + |kw| > |x| || i == |x| then -1
    else
      var q := NextQuoted(x, i, quoted);
      var d := DepthAfter(x, i, depth, quoted);
      if !q && d == 0 && WordAt(x, i, kw) then i else TopWord(x, i + 1, d, q, kw)
  }

  function ReadDeclaration(text: string): Reading<Declaration> {
    var t := Trim(text);
    var n := IdentRun(t, 0);
    var name, rest := t[..n], t[n..];
    var at := TopWord(rest, 0, 0, false, "DEFAULT");
    var dataType := Trim(if at >= 0 then rest[..at] else rest);
    var defaultSql := if at >= 0 then Trim(rest[at + 7..]) else "";
    if name == "" then Bad(NoName)
    else if dataType == "" then Bad(NoType)
    else if at >= 0 && defaultSql == "" then Bad(NoDefault)
    else Good(Declaration(Upper(name), Upper(dataType), defaultSql))
  }

  function ReadLet(text: string): Reading<Stmt> {
    var t := Trim(text);
    var n := IdentRun(t, 0);
    var name, rest := t[..n], t[n..];
    var assign := TopAssign(rest, 0, 0, false);
    var default := TopWord(rest, 0, 0, false, "DEFAULT");
    var byDefault := default >= 0 && (assign < 0 || default < assign);
    var at := if byDefault then default else assign;
    var width := if byDefault then 7 else 2;
    if name == "" then Bad(NoName)
    else if at < 0 then Bad(NoSeparator)
    else
      var expression := Trim(rest[at + width..]);
      if expression == "" then Bad(NoExpression)
      else Good(Let(Upper(name), Upper(Trim(rest[..at])), expression))
  }

  // ------------------------------------------------------------- statements

  datatype List = List(stmts: Stmts, terminator: string)

  function ParseStatements(s: string, i: nat, terminators: seq<string>): (r: Step<List>)
    requires i <= |s|
    ensures r.Ok? ==> SkipFrom(s, i) <= r.pos <= |s| && r.value.terminator in terminators
                      && NextWord(s, r.pos, r.value.terminator) && SkipFrom(s, r.pos) == r.pos
    decreases |s| - i, 1
  {
    var j := SkipFrom(s, i);
    SkipTwice(s, i);
    var found := FirstWord(s, j, terminators);
    if found < |terminators| then Ok(List(Done, terminators[found]), j)
    else if j == |s| then Err(UnexpectedEnd)
    else match ParseStatement(s, j)
      case Err(f) => Err(f)
      case Ok(stmt, k) =>
        match ParseStatements(s, k, terminators)
        case Err(f) => Err(f)
        case Ok(list, e) => Ok(List(Then(stmt, list.stmts), list.terminator), e)
  }

  lemma SkipTwice(s: string, i: nat)
    requires i <= |s|
    ensures SkipFrom(s, SkipFrom(s, i)) == SkipFrom(s, i)
    decreases |s| - i
  {
    if i < |s| {
      if IsSpace(s[i]) {
        SkipTwice(s, i + 1);
      } else if PairAt(s, i, '-', '-') {
        SkipTwice(s, LineEnd(s, i + 2));
      }
    }
  }

  /** The index of the first of the words that is next, or their number. */
  function FirstWord(s: string, i: nat, words: seq<string>): (k: nat)
    requires i <= |s|
    ensures k <= |words| && (k < |words| ==> NextWord(s, i, words[k]))
    ensures forall j :: 0 <= j < k ==> !NextWord(s, i, words[j])
  {
    if words == [] || NextWord(s, i, words[0]) then 0 else 1 + FirstWord(s, i, words[1..])
  }

  function ParseStatement(s: string, i: nat): (r: Step<Stmt>)
    requires i <= |s|
    ensures r.Ok? ==> i < r.pos <= |s|
    decreases |s| - i, 0
  {
    var j := SkipFrom(s, i);
    if NextWord(s, j, "CASE") then ParseCase(s, AfterWord(s, j, "CASE"))
    else if NextWord(s, j, "IF") then ParseIf(s, AfterWord(s, j, "IF"))
    else if NextWord(s, j, "LET") then ParseLet(s, AfterWord(s, j, "LET"))
    else if NextWord(s, j, "RETURN") then ParseReturn(s, AfterWord(s, j, "RETURN"))
    else ParsePlain(s, j)
  }

  function ParseLet(s: string, i: nat): (r: Step<Stmt>)
    requires i <= |s|
    ensures r.Ok? ==> i < r.pos <= |s|
  {
    var e := UntilSemicolon(s, i, 0, false);
    if e == |s| then Err(NoSemicolon)
    else match ReadLet(s[i..e])
      case Bad(f) => Err(f)
      case Good(stmt) => Ok(stmt, e + 1)
  }

  function ParseReturn(s: string, i: nat): (r: Step<Stmt>)
    requires i <= |s|
    ensures r.Ok? ==> i < r.pos <= |s|
  {
    var e := UntilSemicolon(s, i, 0, false);
    if e == |s| then Err(NoSemicolon) else Ok(Return(Trim(s[i..e])), e + 1)
  }

  /** An assignment or a SQL statement. */
  function ParsePlain(s: string, i: nat): (r: Step<Stmt>)
    requires i <= |s|
    ensures r.Ok? ==> i < r.pos <= |s|
  {
    var n := IdentAt(s, i);
    var k := SkipFrom(s, n);
    if n > i && PairAt(s, k, ':', '=') then
      var e := UntilSemicolon(s, k + 2, 0, false);
      if e == |s| then Err(NoSemicolon) else Ok(Assign(Upper(s[i..n]), Trim(s[k + 2..e])), e + 1)
    else
      var e := UntilSemicolon(s, i, 0, false);
      if e == |s| then Err(NoSemicolon) else Ok(Sql(Trim(s[i..e])), e + 1)
  }

  /** After the word IF. */
  function ParseIf(s: string, i: nat): (r: Step<Stmt>)
    requires i <= |s|
    ensures r.Ok? ==> i < r.pos <= |s|
    decreases |s| - i, 3
  {
    var at := UntilWord(s, i, 0, false, "THEN");
    if at == |s| then Err(NoKeyword)
    else
      var k := SkipFrom(s, at);
      match ParseStatements(s, k + 4, ["ELSE", "END"])
      case Err(f) => Err(f)
      case Ok(yes, a) =>
        match ParseElse(s, a)
        case Err(f) => Err(f)
        case Ok(no, b) => EndBlock(s, b, "IF", If(TrimOuter(s[i..k]), yes.stmts, no), NoEndIf)
  }

  /** The ELSE branch, if there is one. */
  function ParseElse(s: string, i: nat): (r: Step<Stmts>)
    requires i <= |s|
    ensures r.Ok? ==> i <= r.pos <= |s|
    decreases |s| - i, 2
  {
    if !NextWord(s, i, "ELSE") then Ok(Done, i)
    else match ParseStatements(s, AfterWord(s, i, "ELSE"), ["END"])
      case Err(f) => Err(f)
      case Ok(no, b) => Ok(no.stmts, b)
  }

  /** END, the word that names the block, and a semicolon if there is one. */
  function EndBlock(s: string, i: nat, kw: string, stmt: Stmt, fault: Fault): (r: Step<Stmt>)
    requires i <= |s|
    ensures r.Ok? ==> i < r.pos <= |s|
  {
    if !NextWord(s, i, "END") then Err(fault)
    else
      var j := AfterWord(s, i, "END");
      if NextWord(s, j, kw) then Ok(stmt, AfterSemicolon(s, AfterWord(s, j, kw))) else Err(fault)
  }

  /** After the word CASE. */
  function ParseCase(s: string, i: nat): (r: Step<Stmt>)
    requires i <= |s|
    ensures r.Ok? ==> i < r.pos <= |s|
    decreases |s| - i, 3
  {
    var at := UntilWord(s, i, 0, false, "WHEN");
    if at == |s| then Err(NoKeyword)
    else
      var k := SkipFrom(s, at);
      match ParseBranches(s, k)
      case Err(f) => Err(f)
      case Ok(branches, a) =>
        match ParseElse(s, a)
        case Err(f) => Err(f)
        case Ok(no, b) => EndBlock(s, b, "CASE", Case(TrimOuter(s[i..k]), branches, no), NoEndCase)
  }

  /** WHEN value THEN statements, as long as another WHEN is next. */
  function ParseBranches(s: string, i: nat): (r: Step<Branches>)
    requires i <= |s|
    ensures r.Ok? ==> i <= r.pos <= |s|
    decreases |s| - i, 1
  {
    if !NextWord(s, i, "WHEN") then Ok(NoBranch, i)
    else
      var start := AfterWord(s, i, "WHEN");
      var at := UntilWord(s, start, 0, false, "THEN");
      if at == |s| then Err(NoKeyword)
      else
        var k := SkipFrom(s, at);
        match ParseStatements(s, k + 4, ["WHEN", "ELSE", "END"])
        case Err(f) => Err(f)
        case Ok(body, a) =>
          if body.terminator != "WHEN" then Ok(Branch(Trim(s[start..k]), body.stmts, NoBranch), a)
          else match ParseBranches(s, a)
            case Err(f) => Err(f)
            case Ok(others, b) => Ok(Branch(Trim(s[start..k]), body.stmts, others), b)
  }

  // ------------------------------------------------------------- the whole script

  function ParseDeclarations(s: string, i: nat): (r: Step<seq<Declaration>>)
    requires i <= |s|
    ensures r.Ok? ==> i <= r.pos <= |s| && NextWord(s, r.pos, "BEGIN")
    decreases |s| - i
  {
    var j := SkipFrom(s, i);
    SkipTwice(s, i);
    if NextWord(s, j, "BEGIN") then Ok([], j)
    else match ParseDeclaration(s, j)
      case Err(f) => Err(f)
      case Ok(d, e) =>
        match ParseDeclarations(s, e)
        case Err(f) => Err(f)
        case Ok(ds, k) => Ok([d] + ds, k)
  }

  function ParseDeclaration(s: string, i: nat): (r: Step<Declaration>)
    requires i <= |s|
    ensures r.Ok? ==> i < r.pos <= |s|
  {
    var e := UntilSemicolon(s, i, 0, false);
    if e == |s| then Err(NoSemicolon)
    else match ReadDeclaration(s[i..e])
      case Bad(f) => Err(f)
      case Good(d) => Ok(d, e + 1)
  }

  function ParseScript(body: string): Reading<Script> {
    var s := Trim(body);
    var i := SkipFrom(s, 0);
    if NextWord(s, i, "DECLARE") then
      match ParseDeclarations(s, AfterWord(s, i, "DECLARE"))
      case Err(f) => Bad(f)
      case Ok(ds, j) => ParseBody(s, j, ds)
    else ParseBody(s, i, [])
  }

  function ParseBody(s: string, i: nat, ds: seq<Declaration>): Reading<Script>
    requires i <= |s|
  {
    if !NextWord(s, i, "BEGIN") then Bad(NoBegin)
    else match ParseStatements(s, AfterWord(s, i, "BEGIN"), ["EXCEPTION", "END"])
      case Err(f) => Bad(f)
      case Ok(main, a) =>
        if main.terminator == "EXCEPTION" then ParseHandler(s, AfterWord(s, a, "EXCEPTION"), ds, main.stmts)
        else EndScript(s, a, Script(ds, main.stmts, Done))
  }

  /** WHEN OTHER THEN statements, after the word EXCEPTION. */
  function ParseHandler(s: string, i: nat, ds: seq<Declaration>, body: Stmts): Reading<Script>
    requires i <= |s|
  {
    if !NextWord(s, i, "WHEN") then Bad(BadHandler)
    else
      var j := AfterWord(s, i, "WHEN");
      if !NextWord(s, j, "OTHER") then Bad(BadHandler)
      else
        var k := AfterWord(s, j, "OTHER");
        if !NextWord(s, k, "THEN") then Bad(BadHandler)
        else match ParseStatements(s, AfterWord(s, k, "THEN"), ["END"])
          case Err(f) => Bad(f)
          case Ok(handler, e) => EndScript(s, e, Script(ds, body, handler.stmts))
  }

  function EndScript(s: string, i: nat, script: Script): Reading<Script>
    requires i <= |s| && NextWord(s, i, "END")
  {
    var j := SkipFrom(s, AfterSemicolon(s, AfterWord(s, i, "END")));
    if j == |s| then Good(script) else Bad(TrailingText)
  }
}
