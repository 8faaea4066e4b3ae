/** The stored-procedure interpreter (pkg/query/procedure_interpreter.go). The database, the
    binding of variables into text and the recognizers of temporary tables are parameters; the
    database may answer by everything it has been told so far. */
module Interpreters {
  import opened Text
  import opened Script

  // ------------------------------------------------------------- values and replies

  datatype Value = Nil | Text(text: string) | Boolean(holds: bool) | Number(number: int) | Other(shown: string, kind: string)

  datatype Option<T> = None | Some(value: T)

  datatype Table = Table(columns: seq<string>, rows: seq<seq<Value>>)

  datatype Reply<T> = Answered(value: T) | Refused(message: string)

  /** What happens: the database is asked (for a scalar, a query, a change, a RETURN or the
      clean-up of a temporary table), or a variable is given a value. */
  datatype Event =
    | Asked(bound: string, text: string, reply: Reply<Table>)
    | Queried(bound: string, text: string, reply: Reply<Table>)
    | Executed(bound: string, text: string, count: Reply<int>)
    | Returned(bound: string, text: string, reply: Reply<Table>)
    | Cleaned(name: string, text: string, count: Reply<int>)
    | Given(name: string, value: Value)

  datatype World = World(
    query: (seq<Event>, string) -> Reply<Table>,
    execute: (seq<Event>, string) -> Reply<int>,
    isQuery: string -> bool,
    bind: (map<string, Value>, string, bool) -> Reply<string>,
    creates: string -> string,
    rewrite: (string, map<string, string>) -> string,
    drops: (string, map<string, string>) -> seq<string>,
    prefix: string,
    procedure: string)

  const ROW_COUNT := "SQLROWCOUNT"

  datatype State = State(vars: map<string, Value>, temps: map<string, string>, log: seq<Event>)

  /** A reply together with the state it leaves. */
  datatype Eval<T> = Eval(reply: Reply<T>, state: State)

  /** What a statement gives: its result, if any, and whether it was a RETURN. */
  datatype Flow = Flow(result: Option<Table>, returned: bool)

  // ------------------------------------------------------------- showing values

  function ShowNat(n: nat): string {
    if n < 10 then [(n + '0' as int) as char] else ShowNat(n / 10) + [(n % 10 + '0' as int) as char]
  }

  function ShowInt(n: int): string { if n < 0 then "-" + ShowNat(-n) else ShowNat(n) }

  function Show(v: Value): string {
    match v
    case Nil => "<nil>"
    case Text(t) => t
    case Boolean(b) => if b then "true" else "false"
    case Number(n) => ShowInt(n)
    case Other(s, _) => s
  }

  function KindOf(v: Value): string {
    match v
    case Nil => "<nil>"
    case Text(_) => "string"
    case Boolean(_) => "bool"
    case Number(_) => "int64"
    case Other(_, k) => k
  }

  /** CASE compares texts; NULL equals only NULL. */
  predicate SameValue(a: Value, b: Value) {
    if a.Nil? || b.Nil? then a.Nil? && b.Nil? else Show(a) == Show(b)
  }

  // ------------------------------------------------------------- temporary tables

  /** A CREATE TEMPORARY TABLE makes its name known, once. */
  function Register(w: World, bound: string, temps: map<string, string>): map<string, string> {
    var name := w.creates(bound);
    if name == "" || name in temps then temps else temps[name := w.prefix + name]
  }

  /** The last of the names that is known, or "". */
  function LastKnown(names: seq<string>, temps: map<string, string>): (name: string)
    ensures name == "" || (name in temps && name in names)
  {
    if names == [] then ""
    else if names[|names| - 1] in temps then names[|names| - 1]
    else LastKnown(names[..|names| - 1], temps)
  }

  function Dropped(w: World, bound: string, temps: map<string, string>): string {
    LastKnown(w.drops(bound, temps), temps)
  }

  function Forget(temps: map<string, string>, name: string): map<string, string> {
    if name == "" then temps else temps - {name}
  }

  // ------------------------------------------------------------- expressions

  function Give(st: State, name: string, v: Value): State {
    State(st.vars[name := v], st.temps, st.log + [Given(name, v)])
  }

  function SelectText(text: string): string {
    var t := Upper(Trim(text));
    if |t| >= 7 && t[..7] == "SELECT " then text else "SELECT " + text + " AS value"
  }

  /** The one value of a one-row, one-column table. */
  function OneValue(t: Table): Reply<Value> {
    if |t.rows| == 1 && |t.rows[0]| == 1 then Answered(t.rows[0][0])
    else Refused("scalar expression returned " + ShowInt(|t.rows|) + " rows and "
                 + ShowInt(if t.rows == [] then |t.columns| else |t.rows[0]|) + " columns")
  }

  function Scalar(w: World, st: State, expression: string, bare: bool): Eval<Value> {
    match w.bind(st.vars, TrimOuter(Trim(expression)), bare)
    case Refused(m) => Eval(Refused(m), st)
    case Answered(bound) =>
      var temps := Register(w, bound, st.temps);
      var text := SelectText(w.rewrite(bound, temps));
      var reply := w.query(st.log, text);
      var after := State(st.vars, temps, st.log + [Asked(bound, text, reply)]);
      match reply
      case Refused(m) => Eval(Refused(m), after)
      case Answered(t) => Eval(OneValue(t), after)
  }

  function Wrap<T>(before: string, r: Eval<T>): Eval<T> {
    if r.reply.Refused? then Eval(Refused(before + r.reply.message), r.state) else r
  }

  function Condition(w: World, st: State, expression: string): Eval<bool> {
    var r := Scalar(w, st, expression, true);
    match r.reply
    case Refused(m) => Eval(Refused(m), r.state)
    case Answered(v) => Eval(Holding(v), r.state)
  }

  /** NULL is false; anything else that is not a boolean is an error. */
  function Holding(v: Value): Reply<bool> {
    match v
    case Nil => Answered(false)
    case Boolean(b) => Answered(b)
    case _ => Refused("condition returned " + KindOf(v) + ", expected BOOLEAN")
  }

  // ------------------------------------------------------------- statements

  const GoOn := Flow(None, false)

  function RunSql(w: World, st: State, sql: string): Eval<Flow> {
    match w.bind(st.vars, sql, false)
    case Refused(m) => Eval(Refused(m), st)
    case Answered(bound) =>
      var temps := Register(w, bound, st.temps);
      var text := w.rewrite(bound, temps);
      if w.isQuery(text) then
        var reply := w.query(st.log, text);
        var after := State(st.vars, temps, st.log + [Queried(bound, text, reply)]);
        match reply
        case Refused(m) => Eval(Refused(m), after)
        case Answered(t) => Eval(Answered(Flow(Some(t), false)), after)
      else
        var count := w.execute(st.log, text);
        var log := st.log + [Executed(bound, text, count)];
        match count
        case Refused(m) => Eval(Refused(m), State(st.vars, temps, log))
        case Answered(n) => Eval(Answered(GoOn), State(st.vars[ROW_COUNT := Number(n)], Forget(temps, Dropped(w, bound, temps)), log))
  }

  function RunReturn(w: World, st: State, expression: string): Eval<Flow> {
    match w.bind(st.vars, expression, true)
    case Refused(m) => Eval(Refused(m), st)
    case Answered(bound) =>
      var temps := Register(w, bound, st.temps);
      var text := "SELECT " + w.rewrite(bound, temps) + " AS " + w.procedure;
      var reply := w.query(st.log, text);
      var after := State(st.vars, temps, st.log + [Returned(bound, text, reply)]);
      match reply
      case Refused(m) => Eval(Refused(m), after)
      case Answered(t) => Eval(Answered(Flow(Some(t), true)), after)
  }

  /** The value of the expression is given to the variable. */
  function RunGive(w: World, st: State, name: string, expression: string, failure: string): Eval<Flow> {
    var r := Wrap(failure, Scalar(w, st, expression, true));
    match r.reply
    case Refused(m) => Eval(Refused(m), r.state)
    case Answered(v) => Eval(Answered(GoOn), Give(r.state, name, v))
  }

  function RunStmt(w: World, s: Stmt, st: State): Eval<Flow>
    decreases s
  {
    match s
    case Sql(sql) => RunSql(w, st, sql)
    case Let(name, _, expression) =>
      if name in st.vars then Eval(Refused("variable " + name + " is already defined"), st)
      else RunGive(w, st, name, expression, "failed to evaluate LET " + name + ": ")
    case Assign(name, expression) =>
      if name !in st.vars then Eval(Refused("variable " + name + " is not declared"), st)
      else RunGive(w, st, name, expression, "failed to assign " + name + ": ")
    case Return(expression) => RunReturn(w, st, expression)
    case If(condition, yes, no) =>
      var c := Wrap("failed to evaluate IF condition: ", Condition(w, st, condition));
      (match c.reply
       case Refused(m) => Eval(Refused(m), c.state)
       case Answered(b) => if b then RunStmts(w, yes, c.state) else RunStmts(w, no, c.state))
    case Case(subject, branches, _) =>
      var v := Wrap("failed to evaluate CASE expression: ", Scalar(w, st, subject, true));
      (match v.reply
       case Refused(m) => Eval(Refused(m), v.state)
       case Answered(x) => RunBranches(w, s, branches, x, v.state))
  }

  ghost predicate Within(branches: Branches, s: Stmt) { s.Case? && (branches == s.branches || branches < s.branches) }

  /** The first branch whose value equals the subject, or the ELSE branch. */
  function RunBranches(w: World, s: Stmt, branches: Branches, x: Value, st: State): Eval<Flow>
    requires Within(branches, s)
    decreases s, branches
  {
    match branches
    case NoBranch => RunStmts(w, s.elseBranch, st)
    case Branch(value, body, others) =>
      var v := Wrap("failed to evaluate CASE branch: ", Scalar(w, st, value, true));
      match v.reply
      case Refused(m) => Eval(Refused(m), v.state)
      case Answered(y) => if SameValue(x, y) then RunStmts(w, body, v.state) else RunBranches(w, s, others, x, v.state)
  }

  /** Statements in order until one fails or returns; the last result is kept. */
  function RunStmts(w: World, ss: Stmts, st: State): Eval<Flow>
    decreases ss
  {
    match ss
    case Done => Eval(Answered(GoOn), st)
    case Then(first, rest) =>
      var a := RunStmt(w, first, st);
      if a.reply.Refused? || a.reply.value.returned then a
      else
        var b := RunStmts(w, rest, a.state);
        if b.reply.Refused? || b.reply.value.returned then b
        else Eval(Answered(Flow(Later(a.reply.value.result, b.reply.value.result), false)), b.state)
  }

  function Later<T>(a: Option<T>, b: Option<T>): Option<T> { if b.Some? then b else a }

  /** What comes after statements that gave this result. */
  function Onward(before: Option<Table>, r: Eval<Flow>): Eval<Flow> {
    if r.reply.Refused? || r.reply.value.returned then r
    else Eval(Answered(Flow(Later(before, r.reply.value.result), false)), r.state)
  }

  // ------------------------------------------------------------- procedures

  /** An argument's name and the text of its value. */
  datatype Argument = Argument(name: string, text: string)

  function BindArguments(w: World, arguments: seq<Argument>, st: State): Eval<()> {
    if arguments == [] then Eval(Answered(()), st)
    else
      var r := Wrap("invalid value for argument " + arguments[0].name + ": ", Scalar(w, st, arguments[0].text, false));
      match r.reply
      case Refused(m) => Eval(Refused(m), r.state)
      case Answered(v) => BindArguments(w, arguments[1..], Give(r.state, Upper(arguments[0].name), v))
  }

  function Declare(w: World, declarations: seq<Declaration>, st: State): Eval<()> {
    if declarations == [] then Eval(Answered(()), st)
    else
      var d := declarations[0];
      if d.name in st.vars then Eval(Refused("variable " + d.name + " is already defined"), st)
      else if d.defaultSql == "" then Declare(w, declarations[1..], Give(st, d.name, Nil))
      else
        var r := Wrap("failed to evaluate DEFAULT for " + d.name + ": ", Scalar(w, st, d.defaultSql, true));
        match r.reply
        case Refused(m) => Eval(Refused(m), r.state)
        case Answered(v) => Declare(w, declarations[1..], Give(r.state, d.name, v))
  }

  /** The handler sees what went wrong. */
  function Raised(st: State, message: string): State {
    Give(Give(Give(st, "SQLCODE", Number(-1)), "SQLSTATE", Text("XX000")), "SQLERRM", Text(message))
  }

  function RunBody(w: World, script: Script, st: State): Eval<Flow> {
    var r := RunStmts(w, script.body, st);
    if r.reply.Answered? || script.handler == Done then r
    else Wrap("procedure exception handler failed: ", RunStmts(w, script.handler, Raised(r.state, r.reply.message)))
  }

  /** A procedure without a result gives one NULL under its own name. */
  function ResultOf(w: World, f: Flow): Table {
    if f.result.Some? then f.result.value else Table([w.procedure], [[Nil]])
  }

  /** Everything up to the clean-up. */
  function Invoke(w: World, script: Script, arguments: seq<Argument>, st: State): Eval<Table> {
    var a := BindArguments(w, arguments, st);
    if a.reply.Refused? then Eval(Refused(a.reply.message), a.state)
    else
      var d := Declare(w, script.declarations, a.state);
      if d.reply.Refused? then Eval(Refused(d.reply.message), d.state)
      else
        var r := RunBody(w, script, d.state);
        match r.reply
        case Refused(m) => Eval(Refused(m), r.state)
        case Answered(f) => Eval(Answered(ResultOf(w, f)), r.state)
  }

  /** Drops the named tables in this order until a drop fails. */
  function CleanUp(w: World, names: seq<string>, st: State): Eval<()> {
    if names == [] then Eval(Answered(()), st)
    else if names[0] !in st.temps then CleanUp(w, names[1..], st)
    else
      var r := DropOne(w, names[0], st);
      if r.reply.Refused? then r else CleanUp(w, names[1..], r.state)
  }

  lemma {:induction false} CleanThen(w: World, a: seq<string>, b: seq<string>, st: State)
    requires CleanUp(w, a, st).reply.Answered?
    ensures CleanUp(w, a + b, st) == CleanUp(w, b, CleanUp(w, a, st).state)
  {
    if a == [] {
      assert a + b == b;
    } else {
      assert (a + b)[0] == a[0] && (a + b)[1..] == a[1..] + b;
      hide DropOne;
      CleanThen(w, a[1..], b, if a[0] in st.temps then DropOne(w, a[0], st).state else st);
    }
  }

  function DropOne(w: World, name: string, st: State): Eval<()>
    requires name in st.temps
  {
    var text := "DROP TABLE IF EXISTS " + st.temps[name];
    var count := w.execute(st.log, text);
    var log := st.log + [Cleaned(name, text, count)];
    match count
    case Refused(m) => Eval(Refused("failed to clean temporary table " + name + ": " + m), State(st.vars, st.temps, log))
    case Answered(_) => Eval(Answered(()), State(st.vars, st.temps - {name}, log))
  }

  /** A failed clean-up takes the place of a result, never of an error. */
  function Final(reply: Reply<Table>, clean: Reply<()>): Reply<Table> {
    if reply.Answered? && clean.Refused? then Refused(clean.message) else reply
  }

  const Fresh := State(map[ROW_COUNT := Number(0)], map[], [])

  // ------------------------------------------------------------- the interpreter's methods

  class Interpreter {
    const world: World
    var variables: map<string, Value>
    var temporaryTables: map<string, string>
    var log: seq<Event>

    constructor (w: World)
      ensures world == w && Now() == Fresh
    {
      world := w;
      variables := map[ROW_COUNT := Number(0)];
      temporaryTables := map[];
      log := [];
    }

    function Now(): State
      reads this
    {
      State(variables, temporaryTables, log)
    }

    /** Registers a table that the text creates and names every temporary table physically. */
    method RewriteTemporaryTableReferences(bound: string) returns (text: string, dropped: string)
      modifies `temporaryTables
      ensures temporaryTables == Register(world, bound, old(temporaryTables))
      ensures text == world.rewrite(bound, temporaryTables) && dropped == Dropped(world, bound, temporaryTables)
    {
      var name := world.creates(bound);
      if name != "" && name !in temporaryTables {
        temporaryTables := temporaryTables[name := world.prefix + name];
      }
      text := world.rewrite(bound, temporaryTables);
      dropped := "";
      var targets := world.drops(bound, temporaryTables);
      for k := 0 to |targets|
        invariant dropped == LastKnown(targets[..k], temporaryTables)
      {
        assert targets[..k + 1][..k] == targets[..k];
        if targets[k] in temporaryTables { dropped := targets[k]; }
      }
      assert targets[..|targets|] == targets;
    }

    method SetVariable(name: string, v: Value)
      modifies `variables, `log
      ensures Now() == Give(old(Now()), name, v)
    {
      variables := variables[name := v];
      log := log + [Given(name, v)];
    }

    method EvaluateScalar(expression: string, bare: bool) returns (r: Reply<Value>)
      modifies `temporaryTables, `log
      ensures Eval(r, Now()) == Scalar(world, old(Now()), expression, bare)
    {
      var binding := world.bind(variables, TrimOuter(Trim(expression)), bare);
      if binding.Refused? { return Refused(binding.message); }
      var rewritten, _ := RewriteTemporaryTableReferences(binding.value);
      var text := SelectText(rewritten);
      var reply := world.query(log, text);
      log := log + [Asked(binding.value, text, reply)];
      if reply.Refused? { return Refused(reply.message); }
      return OneValue(reply.value);
    }

    method EvaluateBoolean(expression: string) returns (r: Reply<bool>)
      modifies `temporaryTables, `log
      ensures Eval(r, Now()) == Condition(world, old(Now()), expression)
    {
      var v := EvaluateScalar(expression, true);
      if v.Refused? { return Refused(v.message); }
      return Holding(v.value);
    }

    method ExecuteSql(sql: string) returns (r: Reply<Flow>)
      modifies `variables, `temporaryTables, `log
      ensures Eval(r, Now()) == RunSql(world, old(Now()), sql)
    {
      var binding := world.bind(variables, sql, false);
      if binding.Refused? { return Refused(binding.message); }
      var text, dropped := RewriteTemporaryTableReferences(binding.value);
      if world.isQuery(text) {
        var reply := world.query(log, text);
        log := log + [Queried(binding.value, text, reply)];
        if reply.Refused? { return Refused(reply.message); }
        return Answered(Flow(Some(reply.value), false));
      }
      var count := world.execute(log, text);
      log := log + [Executed(binding.value, text, count)];
      if count.Refused? { return Refused(count.message); }
      variables := variables[ROW_COUNT := Number(count.value)];
      if dropped != "" { temporaryTables := temporaryTables - {dropped}; }
      return Answered(GoOn);
    }

    method ExecuteReturn(expression: string) returns (r: Reply<Flow>)
      modifies `temporaryTables, `log
      ensures Eval(r, Now()) == RunReturn(world, old(Now()), expression)
    {
      var binding := world.bind(variables, expression, true);
      if binding.Refused? { return Refused(binding.message); }
      var rewritten, _ := RewriteTemporaryTableReferences(binding.value);
      var text := "SELECT " + rewritten + " AS " + world.procedure;
      var reply := world.query(log, text);
      log := log + [Returned(binding.value, text, reply)];
      if reply.Refused? { return Refused(reply.message); }
      return Answered(Flow(Some(reply.value), true));
    }

    method ExecuteGive(name: string, expression: string, failure: string) returns (r: Reply<Flow>)
      modifies `variables, `temporaryTables, `log
      ensures Eval(r, Now()) == RunGive(world, old(Now()), name, expression, failure)
    {
      var v := EvaluateScalar(expression, true);
      if v.Refused? { return Refused(failure + v.message); }
      SetVariable(name, v.value);
      return Answered(GoOn);
    }

    method ExecuteStatement(s: Stmt) returns (r: Reply<Flow>)
      modifies `variables, `temporaryTables, `log
      ensures Eval(r, Now()) == RunStmt(world, s, old(Now()))
      decreases s
    {
      hide RunSql, RunReturn, RunGive, Scalar, Condition;
      match s
      case Sql(sql) => r := ExecuteSql(sql);
      case Let(name, _, expression) =>
        if name in variables { return Refused("variable " + name + " is already defined"); }
        r := ExecuteGive(name, expression, "failed to evaluate LET " + name + ": ");
      case Assign(name, expression) =>
        if name !in variables { return Refused("variable " + name + " is not declared"); }
        r := ExecuteGive(name, expression, "failed to assign " + name + ": ");
      case Return(expression) => r := ExecuteReturn(expression);
      case If(condition, yes, no) =>
        var c := EvaluateBoolean(condition);
        if c.Refused? { return Refused("failed to evaluate IF condition: " + c.message); }
        if c.value { r := ExecuteStatements(yes); } else { r := ExecuteStatements(no); }
      case Case(subject, branches, no) =>
        var x := EvaluateScalar(subject, true);
        if x.Refused? { return Refused("failed to evaluate CASE expression: " + x.message); }
        r := ExecuteBranches(s, x.value);
    }

    method ExecuteBranches(s: Stmt, x: Value) returns (r: Reply<Flow>)
      requires s.Case?
      modifies `variables, `temporaryTables, `log
      ensures Eval(r, Now()) == RunBranches(world, s, s.branches, x, old(Now()))
      decreases s, 0
    {
      var left := s.branches;
      while left.Branch?
        invariant Within(left, s)
        invariant RunBranches(world, s, s.branches, x, old(Now())) == RunBranches(world, s, left, x, Now())
        decreases left
      {
        var y := EvaluateScalar(left.value, true);
        if y.Refused? { return Refused("failed to evaluate CASE branch: " + y.message); }
        if SameValue(x, y.value) {
          r := ExecuteStatements(left.body);
          return;
        }
        left := left.others;
      }
      r := ExecuteStatements(s.elseBranch);
    }

    method ExecuteStatements(ss: Stmts) returns (r: Reply<Flow>)
      modifies `variables, `temporaryTables, `log
      ensures Eval(r, Now()) == RunStmts(world, ss, old(Now()))
      decreases ss
    {
      var result := None;
      var left := ss;
      while left.Then?
        invariant left == ss || left < ss
        invariant RunStmts(world, ss, old(Now())) == Onward(result, RunStmts(world, left, Now()))
        decreases left
      {
        var current := ExecuteStatement(left.first);
        if current.Refused? { return current; }
        if current.value.result.Some? { result := current.value.result; }
        if current.value.returned { return current; }
        left := left.rest;
      }
      return Answered(Flow(result, false));
    }

    method BindAll(arguments: seq<Argument>) returns (r: Reply<()>)
      modifies `variables, `temporaryTables, `log
      ensures Eval(r, Now()) == BindArguments(world, arguments, old(Now()))
    {
      hide Scalar;
      for k := 0 to |arguments|
        invariant BindArguments(world, arguments, old(Now())) == BindArguments(world, arguments[k..], Now())
      {
        var v := EvaluateScalar(arguments[k].text, false);
        assert arguments[k..][1..] == arguments[k + 1..];
        if v.Refused? { return Refused("invalid value for argument " + arguments[k].name + ": " + v.message); }
        SetVariable(Upper(arguments[k].name), v.value);
      }
      return Answered(());
    }

    method DeclareAll(declarations: seq<Declaration>) returns (r: Reply<()>)
      modifies `variables, `temporaryTables, `log
      ensures Eval(r, Now()) == Declare(world, declarations, old(Now()))
    {
      hide Scalar;
      for k := 0 to |declarations|
        invariant Declare(world, declarations, old(Now())) == Declare(world, declarations[k..], Now())
      {
        var d := declarations[k];
        assert declarations[k..][1..] == declarations[k + 1..];
        if d.name in variables { return Refused("variable " + d.name + " is already defined"); }
        var value := Nil;
        if d.defaultSql != "" {
          var v := EvaluateScalar(d.defaultSql, true);
          if v.Refused? { return Refused("failed to evaluate DEFAULT for " + d.name + ": " + v.message); }
          value := v.value;
        }
        SetVariable(d.name, value);
      }
      return Answered(());
    }

    /** Everything up to the clean-up. */
    method Run(script: Script, arguments: seq<Argument>) returns (r: Reply<Table>)
      modifies `variables, `temporaryTables, `log
      ensures Eval(r, Now()) == Invoke(world, script, arguments, old(Now()))
    {
      hide BindArguments, Declare, RunStmts;
      var bound := BindAll(arguments);
      if bound.Refused? { return Refused(bound.message); }
      var declared := DeclareAll(script.declarations);
      if declared.Refused? { return Refused(declared.message); }
      var flow := ExecuteStatements(script.body);
      if flow.Refused? {
        if script.handler == Done { return Refused(flow.message); }
        SetVariable("SQLCODE", Number(-1));
        SetVariable("SQLSTATE", Text("XX000"));
        SetVariable("SQLERRM", Text(flow.message));
        flow := ExecuteStatements(script.handler);
        if flow.Refused? { return Refused("procedure exception handler failed: " + flow.message); }
      }
      return Answered(ResultOf(world, flow.value));
    }

    /** Drops what is left, in whatever order the map gives; `names` is that order. */
    method CleanupTemporaryTables() returns (r: Reply<()>, ghost names: seq<string>)
      modifies `temporaryTables, `log
      ensures Eval(r, Now()) == CleanUp(world, names, old(Now()))
      ensures forall n :: n in names ==> n in old(temporaryTables)
      ensures r.Answered? ==> temporaryTables == map[]
    {
      names := [];
      while temporaryTables != map[]
        invariant temporaryTables.Keys <= old(temporaryTables.Keys)
        invariant forall n :: n in names ==> n in old(temporaryTables)
        invariant CleanUp(world, names, old(Now())) == Eval(Answered(()), Now())
        decreases |temporaryTables|
      {
        var name :| name in temporaryTables;
        CleanThen(world, names, [name], old(Now()));
        var text := "DROP TABLE IF EXISTS " + temporaryTables[name];
        var count := world.execute(log, text);
        log := log + [Cleaned(name, text, count)];
        names := names + [name];
        if count.Refused? {
          return Refused("failed to clean temporary table " + name + ": " + count.message), names;
        }
        temporaryTables := temporaryTables - {name};
      }
      return Answered(()), names;
    }

    /** The clean-up runs on every way out. */
    method Execute(script: Script, arguments: seq<Argument>) returns (reply: Reply<Table>, ghost names: seq<string>)
      modifies this
      ensures var r := Invoke(world, script, arguments, old(Now()));
              var c := CleanUp(world, names, r.state);
              && reply == Final(r.reply, c.reply) && Now() == c.state
              && (forall n :: n in names ==> n in r.state.temps)
              && (c.reply.Answered? ==> temporaryTables == map[])
              && (r.reply.Refused? || c.reply.Answered? ==> reply == r.reply)
              && (r.reply.Answered? && c.reply.Refused? ==> reply == Refused(c.reply.message))
    {
      hide Invoke, CleanUp;
      reply := Run(script, arguments);
      var clean;
      clean, names := CleanupTemporaryTables();
      if reply.Answered? && clean.Refused? { reply := Refused(clean.message); }
    }
  }
}
