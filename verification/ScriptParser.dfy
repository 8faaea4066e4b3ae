/** The parser object of pkg/query/procedure_scripting.go: its methods move one position
    through the text and are proved to compute the functions of Script. */
module ScriptParsing {
  import opened Scanner
  import opened Text
  import opened Script

  /** A list of statements put in front of another. */
  function Chain(done: seq<Stmt>, tail: Stmts): Stmts {
    if done == [] then tail else Then(done[0], Chain(done[1..], tail))
  }

  lemma {:induction false} ChainAdd(done: seq<Stmt>, stmt: Stmt, tail: Stmts)
    ensures Chain(done + [stmt], tail) == Chain(done, Then(stmt, tail))
  {
    if done == [] {
      assert [stmt][1..] == [];
    } else {
      assert (done + [stmt])[1..] == done[1..] + [stmt];
      ChainAdd(done[1..], stmt, tail);
    }
  }

  function Prefixed(done: seq<Stmt>, r: Step<List>): Step<List> {
    match r
    case Err(f) => Err(f)
    case Ok(list, k) => Ok(List(Chain(done, list.stmts), list.terminator), k)
  }

  function ChainBranches(done: seq<(string, Stmts)>, tail: Branches): Branches {
    if done == [] then tail else Branch(done[0].0, done[0].1, ChainBranches(done[1..], tail))
  }

  lemma {:induction false} ChainBranchesAdd(done: seq<(string, Stmts)>, b: (string, Stmts), tail: Branches)
    ensures ChainBranches(done + [b], tail) == ChainBranches(done, Branch(b.0, b.1, tail))
  {
    if done == [] {
      assert [b][1..] == [];
    } else {
      assert (done + [b])[1..] == done[1..] + [b];
      ChainBranchesAdd(done[1..], b, tail);
    }
  }

  function PrefixedBranches(done: seq<(string, Stmts)>, r: Step<Branches>): Step<Branches> {
    match r
    case Err(f) => Err(f)
    case Ok(bs, k) => Ok(ChainBranches(done, bs), k)
  }

  function After(done: seq<Declaration>, r: Step<seq<Declaration>>): Step<seq<Declaration>> {
    match r
    case Err(f) => Err(f)
    case Ok(ds, k) => Ok(done + ds, k)
  }

  lemma AddDeclaration(done: seq<Declaration>, d: Declaration, r: Step<seq<Declaration>>)
    ensures After(done + [d], r)
         == After(done, match r case Err(f) => Err(f) case Ok(ds, k) => Ok([d] + ds, k))
  {
    if r.Ok? {
      assert done + ([d] + r.value) == (done + [d]) + r.value;
    }
  }

  /** A method's answer and new position agree with a step of the specification. */
  predicate Agrees<T(==)>(r: Reading<T>, pos: nat, step: Step<T>) {
    match step
    case Ok(v, k) => r == Good(v) && pos == k
    case Err(f) => r == Bad(f)
  }

  method TopLevelIndexOf(input: string) returns (index: int)
    ensures index == TopAssign(input, 0, 0, false)
  {
    var depth, inQuote := 0, false;
    var i := 0;
    while i + 2 <= |input|
      invariant TopAssign(input, 0, 0, false) == TopAssign(input, i, depth, inQuote)
    {
      if input[i] == '\'' {
        inQuote := !inQuote;
      } else if input[i] == '(' {
        if !inQuote { depth := depth + 1; }
      } else if input[i] == ')' {
        if !inQuote { depth := depth - 1; }
      }
      if !inQuote && depth == 0 && PairAt(input, i, ':', '=') {
        return i;
      }
      i := i + 1;
    }
    return -1;
  }

  method KeywordIndexAtTopLevel(input: string, keyword: string) returns (index: int)
    requires keyword != ""
    ensures index == TopWord(input, 0, 0, false, keyword)
  {
    var depth, inQuote := 0, false;
    var i := 0;
    while i + |keyword| <= |input|
      invariant TopWord(input, 0, 0, false, keyword) == TopWord(input, i, depth, inQuote, keyword)
    {
      if input[i] == '\'' {
        inQuote := !inQuote;
      } else if input[i] == '(' {
        if !inQuote { depth := depth + 1; }
      } else if input[i] == ')' {
        if !inQuote { depth := depth - 1; }
      }
      if !inQuote && depth == 0 && WordAt(input, i, keyword) {
        return i;
      }
      i := i + 1;
    }
    return -1;
  }

  method ConsumeIdentifier(input: string) returns (name: string, rest: string)
    ensures var t := Trim(input); name == t[..IdentRun(t, 0)] && rest == t[IdentRun(t, 0)..]
  {
    var t := Trim(input);
    var end := 0;
    while end < |t| && IdentChar(t[end])
      invariant end <= |t| && IdentRun(t, 0) == IdentRun(t, end)
    {
      end := end + 1;
    }
    return t[..end], t[end..];
  }

  method ParseProcedureDeclaration(text: string) returns (r: Reading<Declaration>)
    ensures r == ReadDeclaration(text)
  {
    TrimAgain(text);
    var name, rest := ConsumeIdentifier(Trim(text));
    var at := KeywordIndexAtTopLevel(rest, "DEFAULT");
    var dataType, defaultSql := Trim(rest), "";
    if at >= 0 {
      dataType := Trim(rest[..at]);
      defaultSql := Trim(rest[at + 7..]);
    }
    if name == "" { return Bad(NoName); }
    if dataType == "" { return Bad(NoType); }
    if at >= 0 && defaultSql == "" { return Bad(NoDefault); }
    return Good(Declaration(Upper(name), Upper(dataType), defaultSql));
  }

  method ParseProcedureLet(text: string) returns (r: Reading<Stmt>)
    ensures r == ReadLet(text)
  {
    hide Trim, TopWord, TopAssign, IdentRun;
    TrimAgain(text);
    var name, rest := ConsumeIdentifier(Trim(text));
    if name == "" { return Bad(NoName); }
    var assignIndex := TopLevelIndexOf(rest);
    var defaultIndex := KeywordIndexAtTopLevel(rest, "DEFAULT");
    var at, width := assignIndex, 2;
    if defaultIndex >= 0 && (assignIndex < 0 || defaultIndex < assignIndex) {
      at, width := defaultIndex, 7;
    }
    if at < 0 { return Bad(NoSeparator); }
    var dataType := Trim(rest[..at]);
    var expression := Trim(rest[at + width..]);
    if expression == "" { return Bad(NoExpression); }
    return Good(Let(Upper(name), Upper(dataType), expression));
  }

  class ScriptParser {
    const input: string
    var pos: nat

    constructor (body: string)
      ensures Valid() && input == Trim(body) && pos == 0
    {
      input := Trim(body);
      pos := 0;
    }

    ghost predicate Valid()
      reads this
    {
      pos <= |input|
    }

    method SkipSpaceAndComments()
      requires Valid()
      modifies this
      ensures Valid() && pos == SkipFrom(input, old(pos))
    {
      while true
        invariant Valid() && SkipFrom(input, pos) == SkipFrom(input, old(pos))
        decreases |input| - pos
      {
        while pos < |input| && IsSpace(input[pos])
          invariant Valid() && SkipFrom(input, pos) == SkipFrom(input, old(pos))
        {
          pos := pos + 1;
        }
        if PairAt(input, pos, '-', '-') {
          var end := IndexPastNewline(input, pos + 2);
          pos := end;
          continue;
        }
        return;
      }
    }

    method PeekKeyword(keyword: string) returns (matches: bool)
      requires Valid()
      modifies this
      ensures Valid() && matches == NextWord(input, old(pos), keyword)
      ensures pos == if matches then SkipFrom(input, old(pos)) else old(pos)
    {
      var originalPosition := pos;
      SkipSpaceAndComments();
      matches := WordAt(input, pos, keyword);
      if !matches {
        pos := originalPosition;
      }
    }

    method ConsumeKeyword(keyword: string) returns (matches: bool)
      requires Valid()
      modifies this
      ensures Valid() && matches == NextWord(input, old(pos), keyword)
      ensures pos == if matches then AfterWord(input, old(pos), keyword) else old(pos)
    {
      matches := PeekKeyword(keyword);
      if matches {
        pos := pos + |keyword|;
      }
    }

    method ConsumeSemicolon()
      requires Valid()
      modifies this
      ensures Valid() && pos == AfterSemicolon(input, old(pos))
    {
      SkipSpaceAndComments();
      if pos < |input| && input[pos] == ';' {
        pos := pos + 1;
      }
    }

    method ReadIdentifier() returns (name: string)
      requires Valid()
      modifies this
      ensures Valid()
      ensures var j := SkipFrom(input, old(pos)); pos == IdentAt(input, j) && name == input[j..pos]
    {
      SkipSpaceAndComments();
      var start := pos;
      if start >= |input| || !(Letter(input[start]) || input[start] == '_') {
        return "";
      }
      pos := pos + 1;
      while pos < |input| && IdentChar(input[pos])
        invariant Valid() && start < pos && IdentRun(input, start + 1) == IdentRun(input, pos)
      {
        pos := pos + 1;
      }
      return input[start..pos];
    }

    method ReadUntilSemicolon() returns (r: Reading<string>)
      requires Valid()
      modifies this
      ensures Valid()
      ensures var e := UntilSemicolon(input, old(pos), 0, false);
              if e == |input| then r == Bad(NoSemicolon) else r == Good(input[old(pos)..e]) && pos == e + 1
    {
      var start := pos;
      var depth, inQuote := 0, false;
      while pos < |input|
        invariant Valid() && start <= pos
        invariant UntilSemicolon(input, start, 0, false) == UntilSemicolon(input, pos, depth, inQuote)
      {
        var current := input[pos];
        if current == '\'' {
          if inQuote && pos + 1 < |input| && input[pos + 1] == '\'' {
            pos := pos + 2;
            continue;
          }
          inQuote := !inQuote;
          pos := pos + 1;
          continue;
        }
        if !inQuote {
          if current == '(' {
            depth := depth + 1;
          } else if current == ')' {
            depth := depth - 1;
          } else if current == ';' && depth == 0 {
            var value := input[start..pos];
            pos := pos + 1;
            return Good(value);
          }
        }
        pos := pos + 1;
      }
      return Bad(NoSemicolon);
    }

    /** Stops at the keyword, past the spaces and comments before it, which are part of what
        was read. */
    method ReadUntilKeyword(keyword: string) returns (r: Reading<string>)
      requires Valid()
      modifies this
      ensures Valid()
      ensures var at := UntilWord(input, old(pos), 0, false, keyword);
              if at == |input| then r == Bad(NoKeyword)
              else pos == SkipFrom(input, at) && r == Good(input[old(pos)..pos])
    {
      hide WordAt, SkipFrom;
      var start := pos;
      var depth, inQuote := 0, false;
      while pos < |input|
        invariant Valid() && start <= pos
        invariant UntilWord(input, start, 0, false, keyword) == UntilWord(input, pos, depth, inQuote, keyword)
      {
        var current := input[pos];
        if current == '\'' {
          if inQuote && pos + 1 < |input| && input[pos + 1] == '\'' {
            pos := pos + 2;
            continue;
          }
          inQuote := !inQuote;
          pos := pos + 1;
          continue;
        }
        if !inQuote {
          if current == '(' {
            depth := depth + 1;
          } else if current == ')' {
            depth := depth - 1;
          } else if depth == 0 {
            var next := PeekKeyword(keyword);
            if next {
              return Good(input[start..pos]);
            }
          }
        }
        pos := pos + 1;
      }
      return Bad(NoKeyword);
    }

    /** Reads up to the keyword and consumes it. */
    method ReadPastKeyword(keyword: string) returns (r: Reading<string>)
      requires Valid()
      modifies this
      ensures Valid()
      ensures var at := UntilWord(input, old(pos), 0, false, keyword);
              if at == |input| then r == Bad(NoKeyword)
              else pos == SkipFrom(input, at) + |keyword| && r == Good(input[old(pos)..SkipFrom(input, at)])
    {
      SkipTwice(input, UntilWord(input, pos, 0, false, keyword));
      r := ReadUntilKeyword(keyword);
      if r.Good? {
        var ok := ConsumeKeyword(keyword);
      }
    }

    method ParseStatementList(terminators: seq<string>) returns (r: Reading<List>)
      requires Valid()
      modifies this
      ensures Valid() && Agrees(r, pos, ParseStatements(input, old(pos), terminators))
      decreases |input| - pos, 1
    {
      ghost var start := pos;
      var stmts: seq<Stmt> := [];
      while true
        invariant Valid() && start <= pos
        invariant ParseStatements(input, start, terminators)
               == Prefixed(stmts, ParseStatements(input, pos, terminators))
        decreases |input| - pos
      {
        ghost var here := pos;
        SkipSpaceAndComments();
        SkipTwice(input, here);
        ghost var j := pos;
        for k := 0 to |terminators|
          invariant Valid() && pos == j
          invariant forall n :: 0 <= n < k ==> !NextWord(input, j, terminators[n])
        {
          var found := PeekKeyword(terminators[k]);
          if found {
            FirstWordIs(input, j, terminators, k);
            return Good(List(Chain(stmts, Done), terminators[k]));
          }
        }
        FirstWordIs(input, j, terminators, |terminators|);
        if pos >= |input| {
          return Bad(UnexpectedEnd);
        }
        var statement := ParseOne();
        if statement.Bad? {
          return Bad(statement.fault);
        }
        PrefixStep(stmts, statement.value, ParseStatements(input, pos, terminators));
        stmts := stmts + [statement.value];
      }
    }

    method ParseOne() returns (r: Reading<Stmt>)
      requires Valid()
      modifies this
      ensures Valid() && Agrees(r, pos, ParseStatement(input, old(pos)))
      decreases |input| - pos, 0
    {
      SkipTwice(input, pos);
      SkipSpaceAndComments();
      var ok := ConsumeKeyword("CASE");
      if ok {
        r := ParseCaseStatement();
        return;
      }
      ok := ConsumeKeyword("IF");
      if ok {
        r := ParseIfStatement();
        return;
      }
      ok := ConsumeKeyword("LET");
      if ok {
        r := ParseLetStatement();
        return;
      }
      ok := ConsumeKeyword("RETURN");
      if ok {
        r := ParseReturnStatement();
        return;
      }
      r := ParsePlainStatement();
    }

    method ParseLetStatement() returns (r: Reading<Stmt>)
      requires Valid()
      modifies this
      ensures Valid() && Agrees(r, pos, ParseLet(input, old(pos)))
    {
      var text := ReadUntilSemicolon();
      if text.Bad? { return Bad(NoSemicolon); }
      r := ParseProcedureLet(text.value);
    }

    method ParseReturnStatement() returns (r: Reading<Stmt>)
      requires Valid()
      modifies this
      ensures Valid() && Agrees(r, pos, ParseReturn(input, old(pos)))
    {
      var text := ReadUntilSemicolon();
      if text.Bad? { return Bad(NoSemicolon); }
      return Good(Return(Trim(text.value)));
    }

    /** Tries an assignment first, and goes back to the start when there is no ":=". */
    method ParsePlainStatement() returns (r: Reading<Stmt>)
      requires Valid() && SkipFrom(input, pos) == pos
      modifies this
      ensures Valid() && Agrees(r, pos, ParsePlain(input, old(pos)))
    {
      hide Trim, Upper, SkipFrom, UntilSemicolon, IdentAt;
      var start := pos;
      var name := ReadIdentifier();
      if name != "" {
        SkipSpaceAndComments();
        if PairAt(input, pos, ':', '=') {
          pos := pos + 2;
          var text := ReadUntilSemicolon();
          if text.Bad? { return Bad(NoSemicolon); }
          return Good(Assign(Upper(name), Trim(text.value)));
        }
      }
      pos := start;
      var sql := ReadUntilSemicolon();
      if sql.Bad? { return Bad(NoSemicolon); }
      return Good(Sql(Trim(sql.value)));
    }

    method ParseElseBranch() returns (r: Reading<Stmts>)
      requires Valid()
      modifies this
      ensures Valid() && Agrees(r, pos, ParseElse(input, old(pos)))
      decreases |input| - pos, 2
    {
      var ok := ConsumeKeyword("ELSE");
      if !ok { return Good(Done); }
      var list := ParseStatementList(["END"]);
      if list.Bad? { return Bad(list.fault); }
      return Good(list.value.stmts);
    }

    /** END, the block's word and an optional semicolon. */
    method ConsumeBlockEnd(keyword: string) returns (ok: bool)
      requires Valid()
      modifies this
      ensures Valid()
      ensures forall stmt, fault :: match EndBlock(input, old(pos), keyword, stmt, fault)
                                    case Ok(v, k) => ok && v == stmt && pos == k
                                    case Err(f) => !ok && f == fault
    {
      ok := ConsumeKeyword("END");
      if ok { ok := ConsumeKeyword(keyword); }
      if ok { ConsumeSemicolon(); }
    }

    method ParseIfStatement() returns (r: Reading<Stmt>)
      requires Valid()
      modifies this
      ensures Valid() && Agrees(r, pos, ParseIf(input, old(pos)))
      decreases |input| - pos, 3
    {
      hide WordAt, SkipFrom, UntilWord, ParseStatements, ParseElse, Trim, TrimOuter;
      var condition := ReadPastKeyword("THEN");
      if condition.Bad? { return Bad(NoKeyword); }
      var yes := ParseStatementList(["ELSE", "END"]);
      if yes.Bad? { return Bad(yes.fault); }
      var no := ParseElseBranch();
      if no.Bad? { return Bad(no.fault); }
      var ok := ConsumeBlockEnd("IF");
      if !ok { return Bad(NoEndIf); }
      return Good(If(TrimOuter(condition.value), yes.value.stmts, no.value));
    }

    method ParseCaseStatement() returns (r: Reading<Stmt>)
      requires Valid()
      modifies this
      ensures Valid() && Agrees(r, pos, ParseCase(input, old(pos)))
      decreases |input| - pos, 3
    {
      hide WordAt, SkipFrom, UntilWord, ParseBranches, ParseElse, Trim, TrimOuter;
      var subject := ReadUntilKeyword("WHEN");
      if subject.Bad? { return Bad(NoKeyword); }
      var branches := ParseBranchList();
      if branches.Bad? { return Bad(branches.fault); }
      var no := ParseElseBranch();
      if no.Bad? { return Bad(no.fault); }
      var ok := ConsumeBlockEnd("CASE");
      if !ok { return Bad(NoEndCase); }
      return Good(Case(TrimOuter(subject.value), branches.value, no.value));
    }

    method ParseBranchList() returns (r: Reading<Branches>)
      requires Valid()
      modifies this
      ensures Valid() && Agrees(r, pos, ParseBranches(input, old(pos)))
      decreases |input| - pos, 1
    {
      hide WordAt, SkipFrom, ParseStatements, UntilWord, Trim, ParseCase, ParseIf, ParseElse;
      var branches: seq<(string, Stmts)> := [];
      ghost var here := pos;
      var more := ConsumeKeyword("WHEN");
      while more
        invariant Valid() && old(pos) <= here <= |input| && old(pos) <= pos
        invariant more ==> NextWord(input, here, "WHEN") && pos == AfterWord(input, here, "WHEN")
        invariant !more ==> pos == here
        invariant ParseBranches(input, old(pos))
               == PrefixedBranches(branches, if more then ParseBranches(input, here) else Ok(NoBranch, here))
        decreases |input| - here, more
      {
        var value := ReadPastKeyword("THEN");
        if value.Bad? { return Bad(NoKeyword); }
        var body := ParseStatementList(["WHEN", "ELSE", "END"]);
        if body.Bad? { return Bad(body.fault); }
        var branch := (Trim(value.value), body.value.stmts);
        ghost var next := pos;
        PrefixBranch(branches, branch,
          if body.value.terminator == "WHEN" then ParseBranches(input, next) else Ok(NoBranch, next));
        branches := branches + [branch];
        if body.value.terminator != "WHEN" {
          more := false;
        } else {
          more := ConsumeKeyword("WHEN");
        }
        here := next;
      }
      return Good(ChainBranches(branches, NoBranch));
    }

    method ParseOneDeclaration() returns (r: Reading<Declaration>)
      requires Valid()
      modifies this
      ensures Valid() && Agrees(r, pos, ParseDeclaration(input, old(pos)))
    {
      var text := ReadUntilSemicolon();
      if text.Bad? { return Bad(NoSemicolon); }
      r := ParseProcedureDeclaration(text.value);
    }

    method ParseDeclarationList() returns (r: Reading<seq<Declaration>>)
      requires Valid()
      modifies this
      ensures Valid() && Agrees(r, pos, ParseDeclarations(input, old(pos)))
    {
      var declarations: seq<Declaration> := [];
      ghost var all := ParseDeclarations(input, pos);
      assert all.Ok? ==> [] + all.value == all.value;
      while true
        invariant Valid() && old(pos) <= pos
        invariant all == After(declarations, ParseDeclarations(input, pos))
        decreases |input| - pos
      {
        SkipTwice(input, pos);
        SkipSpaceAndComments();
        var begins := PeekKeyword("BEGIN");
        if begins {
          assert declarations + [] == declarations;
          assert all == Ok(declarations, pos);
          return Good(declarations);
        }
        var declaration := ParseOneDeclaration();
        if declaration.Bad? { return Bad(declaration.fault); }
        AddDeclaration(declarations, declaration.value, ParseDeclarations(input, pos));
        declarations := declarations + [declaration.value];
      }
    }
  }

  lemma TrimAgain(x: string)
    ensures Trim(Trim(x)) == Trim(x)
  {
    TrimPadded("", Trim(x), "");
    assert "" + Trim(x) + "" == Trim(x);
  }

  lemma {:induction false} FirstWordIs(s: string, i: nat, words: seq<string>, k: nat)
    requires i <= |s| && k <= |words| && (k < |words| ==> NextWord(s, i, words[k]))
    requires forall n :: 0 <= n < k ==> !NextWord(s, i, words[n])
    ensures FirstWord(s, i, words) == k
  {
    if k > 0 {
      FirstWordIs(s, i, words[1..], k - 1);
    }
  }

  lemma PrefixStep(done: seq<Stmt>, stmt: Stmt, r: Step<List>)
    ensures Prefixed(done + [stmt], r)
         == Prefixed(done, match r case Err(f) => Err(f)
                           case Ok(list, k) => Ok(List(Then(stmt, list.stmts), list.terminator), k))
  {
    if r.Ok? { ChainAdd(done, stmt, r.value.stmts); }
  }

  lemma PrefixBranch(done: seq<(string, Stmts)>, b: (string, Stmts), r: Step<Branches>)
    ensures PrefixedBranches(done + [b], r)
         == PrefixedBranches(done, match r case Err(f) => Err(f) case Ok(bs, k) => Ok(Branch(b.0, b.1, bs), k))
  {
    if r.Ok? { ChainBranchesAdd(done, b, r.value); }
  }

  /** The optional handler, from the word EXCEPTION on; a handler with no statements is none. */
  method ParseHandlerOf(p: ScriptParser, ghost ds: seq<Declaration>, ghost body: Stmts)
    returns (r: Reading<Stmts>)
    requires p.Valid() && NextWord(p.input, p.pos, "EXCEPTION")
    modifies p
    ensures p.Valid()
    ensures var start := AfterWord(p.input, old(p.pos), "EXCEPTION");
            match r
            case Good(h) => NextWord(p.input, p.pos, "END")
                            && ParseHandler(p.input, start, ds, body) == EndScript(p.input, p.pos, Script(ds, body, h))
            case Bad(f) => ParseHandler(p.input, start, ds, body) == Bad(f)
  {
    var ok := p.ConsumeKeyword("EXCEPTION");
    ok := p.ConsumeKeyword("WHEN");
    if ok { ok := p.ConsumeKeyword("OTHER"); }
    if ok { ok := p.ConsumeKeyword("THEN"); }
    if !ok { return Bad(BadHandler); }
    var list := p.ParseStatementList(["END"]);
    if list.Bad? { return Bad(list.fault); }
    return Good(list.value.stmts);
  }

  method ParseBodyOf(p: ScriptParser, ds: seq<Declaration>) returns (r: Reading<Script>)
    requires p.Valid()
    modifies p
    ensures p.Valid() && r == ParseBody(p.input, old(p.pos), ds)
  {
    var ok := p.ConsumeKeyword("BEGIN");
    if !ok { return Bad(NoBegin); }
    var main := p.ParseStatementList(["EXCEPTION", "END"]);
    if main.Bad? { return Bad(main.fault); }
    var handler := Done;
    if main.value.terminator == "EXCEPTION" {
      var h := ParseHandlerOf(p, ds, main.value.stmts);
      if h.Bad? { return Bad(h.fault); }
      handler := h.value;
    }
    ok := p.ConsumeKeyword("END");
    p.ConsumeSemicolon();
    p.SkipSpaceAndComments();
    if p.pos < |p.input| { return Bad(TrailingText); }
    return Good(Script(ds, main.value.stmts, handler));
  }

  /** `parseProcedureScript`. */
  method ParseProcedureScript(body: string) returns (r: Reading<Script>)
    ensures r == ParseScript(body)
  {
    var p := new ScriptParser(body);
    p.SkipSpaceAndComments();
    var declarations: seq<Declaration> := [];
    var ok := p.ConsumeKeyword("DECLARE");
    if ok {
      var ds := p.ParseDeclarationList();
      if ds.Bad? { return Bad(ds.fault); }
      declarations := ds.value;
    }
    r := ParseBodyOf(p, declarations);
  }
}
