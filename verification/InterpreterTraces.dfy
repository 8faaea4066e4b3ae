/** What a procedure may do, as a grammar of its events: which questions a statement asks, what
    the answers decide, and what is given to variables. The grammar speaks of statements and
    events; every run of the interpreter is the one trace that it allows. */
module InterpreterTraces {
  import opened Script
  import opened Text
  import opened Interpreters
  import opened InterpreterRuns

  /** How statements end: after the last one, by a RETURN, or by a failure. */
  datatype Outcome = Over(result: Option<Table>) | Back(result: Option<Table>) | Broken

  // ------------------------------------------------------------- questions and answers

  /** The answer is this one value. */
  predicate Tells1(e: Event, v: Value) { e.Asked? && e.reply.Answered? && e.reply.value.rows == [[v]] }

  predicate TellsValue(e: Event) { e.Asked? && e.reply.Answered? && |e.reply.value.rows| == 1 && |e.reply.value.rows[0]| == 1 }

  function Told(e: Event): (v: Value)
    requires TellsValue(e)
    ensures Tells1(e, v)
  {
    var rows := e.reply.value.rows;
    assert rows[0] == [rows[0][0]] && rows == [rows[0]];
    rows[0][0]
  }

  /** The expression without its outer parentheses, with the variables of this state bound. */
  function Bound(w: World, st: State, expression: string, bare: bool): Reply<string> {
    w.bind(st.vars, TrimOuter(Trim(expression)), bare)
  }

  /** After spaces the text begins with the word SELECT, in any case, a space and something more. */
  predicate IsSelect(x: string) {
    exists a, n :: 0 <= a && a + 7 <= n < |x| && AllSpace(x, 0, a) && Upper(x[a..a + 7]) == "SELECT " && !IsSpace(x[n])
  }

  /** The database is asked for the value of the expression, as it is in this state; a SELECT is
      asked as it is. */
  predicate Asks(w: World, st: State, expression: string, bare: bool, e: Event) {
    && e.Asked? && Bound(w, st, expression, bare) == Answered(e.bound) && e.reply == w.query(st.log, e.text)
    && var x := w.rewrite(e.bound, After(w, st, e).temps);
       e.text == if IsSelect(x) then x else "SELECT " + x + " AS value"
  }

  lemma SelectIff(x: string)
    ensures SelectText(x) == if IsSelect(x) then x else "SELECT " + x + " AS value"
  {
    hide Upper;
    var a := Lead(x, 0, |x|);
    var b := Tail(x, a, |x|);
    var u := Upper(Trim(x));
    assert |u| == b - a && (|u| >= 7 ==> u[..7] == Upper(x[a..a + 7])) by { UpperStart(x, a, b); }
    if IsSelect(x) {
      var k, n :| 0 <= k && k + 7 <= n < |x| && AllSpace(x, 0, k) && Upper(x[k..k + 7]) == "SELECT " && !IsSpace(x[n]);
      LetterFirst(x, k);
      assert k == a && n < b;
    }
    if |u| >= 7 && u[..7] == "SELECT " {
      SpaceSeventh(x, a);
      assert !IsSpace(x[b - 1]) && b - 1 >= a + 7;
    }
  }

  lemma UpperStart(x: string, a: nat, b: nat)
    requires a <= b <= |x|
    ensures |Upper(x[a..b])| == b - a && (b - a >= 7 ==> Upper(x[a..b])[..7] == Upper(x[a..a + 7]))
  {
  }

  lemma LetterFirst(x: string, k: nat)
    requires k + 7 <= |x| && Upper(x[k..k + 7]) == "SELECT "
    ensures !IsSpace(x[k])
  {
    assert Upper(x[k..k + 7])[0] == Up(x[k]);
  }

  lemma SpaceSeventh(x: string, a: nat)
    requires a + 7 <= |x| && Upper(x[a..a + 7]) == "SELECT "
    ensures x[a + 6] == ' '
  {
    assert Upper(x[a..a + 7])[6] == Up(x[a + 6]);
  }

  /** The same value for CASE: the same text, or both NULL. */
  predicate Matches(a: Value, b: Value) { (a == Nil) == (b == Nil) && (a != Nil ==> Show(a) == Show(b)) }

  /** The number that the digits of a text make. */
  function DigitsValue(x: string): int {
    if x == "" then 0 else 10 * DigitsValue(x[..|x| - 1]) + (x[|x| - 1] as int - '0' as int)
  }

  lemma {:induction false} ShownBack(n: nat)
    ensures ShowNat(n) != "" && ShowNat(n)[0] != '-' && DigitsValue(ShowNat(n)) == n
  {
    var x := ShowNat(n);
    if n < 10 {
      assert x[..0] == "";
    } else {
      ShownBack(n / 10);
      assert x[..|x| - 1] == ShowNat(n / 10);
    }
  }

  /** Two numbers are the same value for CASE exactly when they are equal. */
  lemma NumbersMatch(m: int, n: int)
    ensures Matches(Number(m), Number(n)) <==> m == n
  {
    ShownBack(if m < 0 then -m else m);
    ShownBack(if n < 0 then -n else n);
    if m < 0 && n < 0 && ShowInt(m) == ShowInt(n) { assert ShowNat(-m) == ShowInt(m)[1..] == ShowInt(n)[1..] == ShowNat(-n); }
  }

  /** A truth value is the same value for CASE as the text that shows it. */
  lemma TruthMatches(b: bool, c: bool, x: string)
    ensures Matches(Boolean(b), Boolean(c)) <==> b == c
    ensures Matches(Boolean(b), Text(x)) <==> x == if b then "true" else "false"
  {
    assert "true"[0] == 't' && "false"[0] == 'f';
  }

  // ------------------------------------------------------------- temporary tables

  /** The name is the last one in the list that is known. */
  predicate LastOf(names: seq<string>, known: set<string>, x: string) {
    exists i :: 0 <= i < |names| && names[i] == x && x in known && forall j :: i < j < |names| ==> names[j] !in known
  }

  lemma {:induction false} LastKnownIff(names: seq<string>, temps: map<string, string>, x: string)
    requires x != ""
    ensures LastKnown(names, temps) == x <==> LastOf(names, temps.Keys, x)
    decreases |names|
  {
    if names != [] {
      var n := |names| - 1;
      LastKnownIff(names[..n], temps, x);
      if names[n] in temps {
        if LastOf(names, temps.Keys, x) {
          var i :| 0 <= i < |names| && names[i] == x && x in temps.Keys && forall j :: i < j < |names| ==> names[j] !in temps.Keys;
          assert i == n;
        }
        if names[n] == x { assert LastOf(names, temps.Keys, x); }
      } else {
        if LastOf(names, temps.Keys, x) {
          var i :| 0 <= i < |names| && names[i] == x && x in temps.Keys && forall j :: i < j < |names| ==> names[j] !in temps.Keys;
          assert names[..n][i] == x;
        }
        if LastOf(names[..n], temps.Keys, x) {
          var i :| 0 <= i < n && names[..n][i] == x && x in temps.Keys && forall j :: i < j < n ==> names[..n][j] !in temps.Keys;
          assert forall j :: i < j < |names| ==> names[j] !in temps.Keys;
        }
      }
    }
  }

  /** After a change that was made, the tables known before and the one it creates are known, but
      for the last known one of those that it drops; a new one under its physical name. */
  lemma TablesKnown(w: World, st: State, bound: string, text: string, count: int, x: string)
    requires x != ""
    ensures var temps := After(w, st, Asked(bound, text, Refused(""))).temps;
            var v := After(w, st, Executed(bound, text, Answered(count))).temps;
            && (x in temps <==> x in st.temps || x == w.creates(bound))
            && (x in v <==> x in temps && !LastOf(w.drops(bound, temps), temps.Keys, x))
            && (x in temps ==> temps[x] == if x in st.temps then st.temps[x] else w.prefix + x)
            && (x in v ==> v[x] == temps[x])
  {
    var temps := Register(w, bound, st.temps);
    LastKnownIff(w.drops(bound, temps), temps, x);
    hide LastKnown, LastOf;
  }

  // ------------------------------------------------------------- the grammar

  /** An expression whose one value is given to the variable. */
  ghost predicate GiveTrace(w: World, name: string, expression: string, st: State, t: seq<Event>, o: Outcome) {
    if Bound(w, st, expression, true).Refused? then t == [] && o == Broken
    else t != [] && Asks(w, st, expression, true, t[0])
         && if TellsValue(t[0]) then t[1..] == [Given(name, Told(t[0]))] && o == Over(None) else t[1..] == [] && o == Broken
  }

  ghost predicate SqlTrace(w: World, sql: string, st: State, t: seq<Event>, o: Outcome) {
    var b := w.bind(st.vars, sql, false);
    if b.Refused? then t == [] && o == Broken
    else |t| == 1 && match t[0]
      case Queried(bound, text, reply) =>
        bound == b.value && text == w.rewrite(bound, After(w, st, t[0]).temps) && w.isQuery(text)
        && reply == w.query(st.log, text) && o == (if reply.Answered? then Over(Some(reply.value)) else Broken)
      case Executed(bound, text, count) =>
        bound == b.value && text == w.rewrite(bound, Register(w, bound, st.temps)) && !w.isQuery(text)
        && count == w.execute(st.log, text) && o == (if count.Answered? then Over(None) else Broken)
      case _ => false
  }

  ghost predicate ReturnTrace(w: World, expression: string, st: State, t: seq<Event>, o: Outcome) {
    var b := w.bind(st.vars, expression, true);
    if b.Refused? then t == [] && o == Broken
    else |t| == 1 && match t[0]
      case Returned(bound, text, reply) =>
        bound == b.value && text == "SELECT " + w.rewrite(bound, After(w, st, t[0]).temps) + " AS " + w.procedure
        && reply == w.query(st.log, text) && o == (if reply.Answered? then Back(Some(reply.value)) else Broken)
      case _ => false
  }

  /** IF asks its condition: true chooses THEN, false and NULL choose ELSE, and anything else is a
      failure. CASE asks its subject and then the values of its branches. */
  ghost predicate Trace(w: World, s: Stmt, st: State, t: seq<Event>, o: Outcome)
    decreases s
  {
    match s
    case Sql(sql) => SqlTrace(w, sql, st, t, o)
    case Let(name, _, expression) =>
      if name in st.vars then t == [] && o == Broken else GiveTrace(w, name, expression, st, t, o)
    case Assign(name, expression) =>
      if name in st.vars then GiveTrace(w, name, expression, st, t, o) else t == [] && o == Broken
    case Return(expression) => ReturnTrace(w, expression, st, t, o)
    case If(condition, yes, no) =>
      if Bound(w, st, condition, true).Refused? then t == [] && o == Broken
      else t != [] && Asks(w, st, condition, true, t[0])
           && if Tells1(t[0], Boolean(true)) then StmtsTrace(w, yes, After(w, st, t[0]), t[1..], o)
              else if Tells1(t[0], Boolean(false)) || Tells1(t[0], Nil) then StmtsTrace(w, no, After(w, st, t[0]), t[1..], o)
              else t[1..] == [] && o == Broken
    case Case(subject, branches, no) =>
      if Bound(w, st, subject, true).Refused? then t == [] && o == Broken
      else t != [] && Asks(w, st, subject, true, t[0])
           && if TellsValue(t[0]) then BranchesTrace(w, s, branches, Told(t[0]), After(w, st, t[0]), t[1..], o)
              else t[1..] == [] && o == Broken
  }

  /** Branches are asked in order until one matches; then its statements run, or ELSE. */
  ghost predicate BranchesTrace(w: World, s: Stmt, branches: Branches, x: Value, st: State, t: seq<Event>, o: Outcome)
    requires Within(branches, s)
    decreases s, branches
  {
    match branches
    case NoBranch => StmtsTrace(w, s.elseBranch, st, t, o)
    case Branch(value, body, others) =>
      if Bound(w, st, value, true).Refused? then t == [] && o == Broken
      else t != [] && Asks(w, st, value, true, t[0])
           && if !TellsValue(t[0]) then t[1..] == [] && o == Broken
              else if Matches(x, Told(t[0])) then StmtsTrace(w, body, After(w, st, t[0]), t[1..], o)
              else BranchesTrace(w, s, others, x, After(w, st, t[0]), t[1..], o)
  }

  /** Statements follow one another until one returns or fails. */
  ghost predicate StmtsTrace(w: World, ss: Stmts, st: State, t: seq<Event>, o: Outcome)
    decreases ss
  {
    match ss
    case Done => t == [] && o == Over(None)
    case Then(_, _) => exists k: nat, a: Outcome, b: Outcome :: Follows(w, ss, st, t, o, k, a, b)
  }

  /** The first statement accounts for the first k events and ends by a; what follows ends by b. */
  ghost predicate Follows(w: World, ss: Stmts, st: State, t: seq<Event>, o: Outcome, k: nat, a: Outcome, b: Outcome)
    requires ss.Then?
    decreases ss, 0
  {
    k <= |t| && Trace(w, ss.first, st, t[..k], a)
    && if a.Over? then StmtsTrace(w, ss.rest, Replay(w, st, t[..k]), t[k..], b)
                       && o == (if b.Over? then Over(if b.result.Some? then b.result else a.result) else b)
       else k == |t| && o == a
  }

  // ------------------------------------------------------------- every run is a trace

  function Ending(r: Reply<Flow>): Outcome {
    match r
    case Refused(_) => Broken
    case Answered(f) => if f.returned then Back(f.result) else Over(f.result)
  }

  /** A question is asked unless binding fails, and its answer is the value, or a failure. */
  lemma Questions(w: World, st: State, expression: string, bare: bool) returns (t: seq<Event>)
    ensures var r := Scalar(w, st, expression, bare);
            && r.state == Replay(w, st, t)
            && if Bound(w, st, expression, bare).Refused? then t == [] && r.reply.Refused?
               else |t| == 1 && Asks(w, st, expression, bare, t[0]) && r.state == After(w, st, t[0])
                    && if TellsValue(t[0]) then r.reply == Answered(Told(t[0])) else r.reply.Refused?
  {
    match w.bind(st.vars, TrimOuter(Trim(expression)), bare)
    case Refused(_) =>
      t := [];
      ReplayNone(w, st);
    case Answered(bound) =>
      var text := SelectText(w.rewrite(bound, Register(w, bound, st.temps)));
      SelectIff(w.rewrite(bound, Register(w, bound, st.temps)));
      hide SelectText, IsSelect;
      var e := Asked(bound, text, w.query(st.log, text));
      t := [e];
      ReplayOne(w, st, e);
  }

  /** After one question, the events that its answer calls for. */
  lemma AskedThen(w: World, st: State, e: Event, t: seq<Event>)
    ensures ([e] + t)[0] == e && ([e] + t)[1..] == t && [e] + t != []
    ensures Replay(w, st, [e] + t) == Replay(w, After(w, st, e), t)
  {
    hide After;
  }

  lemma SqlRuns(w: World, sql: string, st: State) returns (t: seq<Event>)
    ensures var r := RunSql(w, st, sql); r.state == Replay(w, st, t) && SqlTrace(w, sql, st, t, Ending(r.reply))
  {
    match w.bind(st.vars, sql, false)
    case Refused(_) =>
      t := [];
      ReplayNone(w, st);
    case Answered(bound) =>
      var text := w.rewrite(bound, Register(w, bound, st.temps));
      var e := if w.isQuery(text) then Queried(bound, text, w.query(st.log, text)) else Executed(bound, text, w.execute(st.log, text));
      t := [e];
      ReplayOne(w, st, e);
      hide Register, Forget, Dropped, Replay;
  }

  lemma ReturnRuns(w: World, expression: string, st: State) returns (t: seq<Event>)
    ensures var r := RunReturn(w, st, expression); r.state == Replay(w, st, t) && ReturnTrace(w, expression, st, t, Ending(r.reply))
  {
    match w.bind(st.vars, expression, true)
    case Refused(_) =>
      t := [];
      ReplayNone(w, st);
    case Answered(bound) =>
      var text := "SELECT " + w.rewrite(bound, Register(w, bound, st.temps)) + " AS " + w.procedure;
      var e := Returned(bound, text, w.query(st.log, text));
      t := [e];
      ReplayOne(w, st, e);
      hide Register, Replay;
  }

  lemma GiveRuns(w: World, name: string, expression: string, failure: string, st: State) returns (t: seq<Event>)
    ensures var r := RunGive(w, st, name, expression, failure);
            r.state == Replay(w, st, t) && GiveTrace(w, name, expression, st, t, Ending(r.reply))
  {
    t := Questions(w, st, expression, true);
    var v := Scalar(w, st, expression, true);
    hide Scalar, Replay, Asks, Bound;
    if v.reply.Answered? {
      var e := Given(name, v.reply.value);
      ReplayOne(w, v.state, e);
      AskedThen(w, st, t[0], [e]);
      assert t == [t[0]];
      t := [t[0]] + [e];
    }
  }

  /** The value of a condition decides as the grammar says. */
  lemma HoldingTold(e: Event)
    requires TellsValue(e)
    ensures Holding(Told(e)) == Answered(true) <==> Tells1(e, Boolean(true))
    ensures Holding(Told(e)) == Answered(false) <==> Tells1(e, Boolean(false)) || Tells1(e, Nil)
  {
    var v := Told(e);
    assert forall u :: Tells1(e, u) <==> u == v;
  }

  lemma NotTold(e: Event)
    requires !TellsValue(e)
    ensures forall v :: !Tells1(e, v)
  {
  }

  lemma {:induction false} StmtRuns(w: World, s: Stmt, st: State) returns (t: seq<Event>)
    ensures var r := RunStmt(w, s, st); r.state == Replay(w, st, t) && Trace(w, s, st, t, Ending(r.reply))
    decreases s
  {
    hide Replay, Scalar, RunSql, RunReturn, RunGive, SqlTrace, ReturnTrace, GiveTrace, Bound, Asks, StmtsTrace, BranchesTrace;
    match s
    case Sql(sql) => t := SqlRuns(w, sql, st);
    case Return(expression) => t := ReturnRuns(w, expression, st);
    case Let(name, _, expression) =>
      if name in st.vars {
        t := [];
        ReplayNone(w, st);
      } else {
        t := GiveRuns(w, name, expression, "failed to evaluate LET " + name + ": ", st);
      }
    case Assign(name, expression) =>
      if name in st.vars {
        t := GiveRuns(w, name, expression, "failed to assign " + name + ": ", st);
      } else {
        t := [];
        ReplayNone(w, st);
      }
    case If(_, _, _) => t := IfRuns(w, s, st);
    case Case(subject, branches, _) =>
      t := Questions(w, st, subject, true);
      var v := Scalar(w, st, subject, true);
      if v.reply.Answered? {
        var rest := BranchesRun(w, s, branches, v.reply.value, v.state);
        AskedThen(w, st, t[0], rest);
        t := [t[0]] + rest;
      }
  }

  lemma {:induction false} IfRuns(w: World, s: Stmt, st: State) returns (t: seq<Event>)
    requires s.If?
    ensures var r := RunStmt(w, s, st); r.state == Replay(w, st, t) && Trace(w, s, st, t, Ending(r.reply))
    decreases s, 0
  {
    hide Replay, Scalar, Bound, Asks, StmtsTrace, RunStmts, After, Told, TellsValue, Holding, Tells1;
    t := Questions(w, st, s.condition, true);
    var v := Scalar(w, st, s.condition, true);
    if v.reply.Answered? {
      HoldingTold(t[0]);
      var h := Holding(v.reply.value);
      if h.Answered? {
        var rest := StmtsRun(w, if h.value then s.thenBranch else s.elseBranch, v.state);
        AskedThen(w, st, t[0], rest);
        t := [t[0]] + rest;
      }
    } else if t != [] {
      NotTold(t[0]);
    }
  }

  lemma {:induction false} BranchesRun(w: World, s: Stmt, branches: Branches, x: Value, st: State) returns (t: seq<Event>)
    requires Within(branches, s)
    ensures var r := RunBranches(w, s, branches, x, st); r.state == Replay(w, st, t) && BranchesTrace(w, s, branches, x, st, t, Ending(r.reply))
    decreases s, branches
  {
    hide Replay, Scalar, Bound, Asks, StmtsTrace, RunStmts, After, Told, TellsValue, Show;
    match branches
    case NoBranch => t := StmtsRun(w, s.elseBranch, st);
    case Branch(value, body, others) =>
      t := Questions(w, st, value, true);
      var v := Scalar(w, st, value, true);
      if v.reply.Answered? {
        var rest;
        if SameValue(x, v.reply.value) { rest := StmtsRun(w, body, v.state); }
        else { rest := BranchesRun(w, s, others, x, v.state); }
        AskedThen(w, st, t[0], rest);
        t := [t[0]] + rest;
      }
  }

  lemma {:induction false} StmtsRun(w: World, ss: Stmts, st: State) returns (t: seq<Event>)
    ensures var r := RunStmts(w, ss, st); r.state == Replay(w, st, t) && StmtsTrace(w, ss, st, t, Ending(r.reply))
    decreases ss
  {
    match ss
    case Done =>
      t := [];
      ReplayNone(w, st);
    case Then(first, rest) =>
      hide Replay, RunStmt, Trace, StmtsTrace, Ending;
      var a := RunStmt(w, first, st);
      t := StmtRuns(w, first, st);
      if a.reply.Refused? || a.reply.value.returned {
        StopsThere(w, ss, st, t, a);
      } else {
        var more := StmtsRun(w, rest, a.state);
        GoesOn(w, ss, st, t, a, more, RunStmts(w, rest, a.state));
        t := t + more;
      }
  }

  lemma StopsThere(w: World, ss: Stmts, st: State, t: seq<Event>, a: Eval<Flow>)
    requires ss.Then? && (a.reply.Refused? || a.reply.value.returned) && Trace(w, ss.first, st, t, Ending(a.reply))
    ensures StmtsTrace(w, ss, st, t, Ending(a.reply))
  {
    hide Replay, Trace;
    assert t[..|t|] == t;
    assert Follows(w, ss, st, t, Ending(a.reply), |t|, Ending(a.reply), Broken);
  }

  lemma GoesOn(w: World, ss: Stmts, st: State, t: seq<Event>, a: Eval<Flow>, more: seq<Event>, b: Eval<Flow>)
    requires ss.Then? && a.reply.Answered? && !a.reply.value.returned && a.state == Replay(w, st, t)
    requires Trace(w, ss.first, st, t, Ending(a.reply)) && StmtsTrace(w, ss.rest, a.state, more, Ending(b.reply)) && b.state == Replay(w, a.state, more)
    ensures b.state == Replay(w, st, t + more)
    ensures StmtsTrace(w, ss, st, t + more, Ending(Onward(a.reply.value.result, b).reply))
  {
    hide Replay, Trace;
    ReplayThen(w, st, t, more);
    var all, k := t + more, |t|;
    assert all[..k] == t && all[k..] == more;
    FollowsIs(w, ss, st, all, k, a, b);
  }

  lemma FollowsIs(w: World, ss: Stmts, st: State, all: seq<Event>, k: nat, a: Eval<Flow>, b: Eval<Flow>)
    requires ss.Then? && a.reply.Answered? && !a.reply.value.returned && k <= |all|
    requires Trace(w, ss.first, st, all[..k], Ending(a.reply)) && StmtsTrace(w, ss.rest, Replay(w, st, all[..k]), all[k..], Ending(b.reply))
    ensures StmtsTrace(w, ss, st, all, Ending(Onward(a.reply.value.result, b).reply))
  {
    hide Replay, Trace;
    assert Follows(w, ss, st, all, Ending(Onward(a.reply.value.result, b).reply), k, Ending(a.reply), Ending(b.reply));
  }

  // ------------------------------------------------------------- there is no other trace

  lemma AsksOnce(w: World, st: State, expression: string, bare: bool, e: Event, f: Event)
    requires Asks(w, st, expression, bare, e) && Asks(w, st, expression, bare, f)
    ensures e == f
  {
    hide Bound, IsSelect, Register;
  }

  lemma {:induction false} OneTrace(w: World, s: Stmt, st: State, t: seq<Event>, o: Outcome, u: seq<Event>, p: Outcome)
    requires Trace(w, s, st, t, o) && Trace(w, s, st, u, p)
    ensures t == u && o == p
    decreases s
  {
    hide Bound, Asks, After, Told, TellsValue, Tells1, Replay;
    match s
    case Sql(sql) => OneSql(w, sql, st, t, o, u, p);
    case Return(expression) => OneReturn(w, expression, st, t, o, u, p);
    case Let(name, _, expression) => if name !in st.vars { OneGive(w, name, expression, st, t, o, u, p); }
    case Assign(name, expression) => if name in st.vars { OneGive(w, name, expression, st, t, o, u, p); }
    case If(condition, yes, no) =>
      if Bound(w, st, condition, true).Answered? {
        AsksOnce(w, st, condition, true, t[0], u[0]);
        SameStart(t, u);
        if Tells1(t[0], Boolean(true)) {
          OneRun(w, yes, After(w, st, t[0]), t[1..], o, u[1..], p);
        } else if Tells1(t[0], Boolean(false)) || Tells1(t[0], Nil) {
          OneRun(w, no, After(w, st, t[0]), t[1..], o, u[1..], p);
        }
      }
    case Case(subject, branches, _) =>
      if Bound(w, st, subject, true).Answered? {
        AsksOnce(w, st, subject, true, t[0], u[0]);
        SameStart(t, u);
        if TellsValue(t[0]) { OneBranches(w, s, branches, Told(t[0]), After(w, st, t[0]), t[1..], o, u[1..], p); }
      }
  }

  lemma SameStart(t: seq<Event>, u: seq<Event>)
    requires t != [] && u != [] && t[0] == u[0]
    ensures t[1..] == u[1..] ==> t == u
  {
    assert t == [t[0]] + t[1..] && u == [u[0]] + u[1..];
  }

  lemma OneSql(w: World, sql: string, st: State, t: seq<Event>, o: Outcome, u: seq<Event>, p: Outcome)
    requires SqlTrace(w, sql, st, t, o) && SqlTrace(w, sql, st, u, p)
    ensures t == u && o == p
  {
    hide Register, Forget, Dropped;
    if w.bind(st.vars, sql, false).Answered? { assert t == [t[0]] && u == [u[0]]; }
  }

  lemma OneReturn(w: World, expression: string, st: State, t: seq<Event>, o: Outcome, u: seq<Event>, p: Outcome)
    requires ReturnTrace(w, expression, st, t, o) && ReturnTrace(w, expression, st, u, p)
    ensures t == u && o == p
  {
    hide Register;
    if w.bind(st.vars, expression, true).Answered? { assert t == [t[0]] && u == [u[0]]; }
  }

  lemma OneGive(w: World, name: string, expression: string, st: State, t: seq<Event>, o: Outcome, u: seq<Event>, p: Outcome)
    requires GiveTrace(w, name, expression, st, t, o) && GiveTrace(w, name, expression, st, u, p)
    ensures t == u && o == p
  {
    hide Bound, Asks, Told, TellsValue;
    if Bound(w, st, expression, true).Answered? {
      AsksOnce(w, st, expression, true, t[0], u[0]);
      SameStart(t, u);
    }
  }

  lemma {:induction false} OneBranches(w: World, s: Stmt, branches: Branches, x: Value, st: State,
                                       t: seq<Event>, o: Outcome, u: seq<Event>, p: Outcome)
    requires Within(branches, s) && BranchesTrace(w, s, branches, x, st, t, o) && BranchesTrace(w, s, branches, x, st, u, p)
    ensures t == u && o == p
    decreases s, branches
  {
    hide Bound, Asks, After, Told, TellsValue, Matches;
    match branches
    case NoBranch => OneRun(w, s.elseBranch, st, t, o, u, p);
    case Branch(value, body, others) =>
      if Bound(w, st, value, true).Answered? {
        AsksOnce(w, st, value, true, t[0], u[0]);
        SameStart(t, u);
        if TellsValue(t[0]) {
          if Matches(x, Told(t[0])) { OneRun(w, body, After(w, st, t[0]), t[1..], o, u[1..], p); }
          else { OneBranches(w, s, others, x, After(w, st, t[0]), t[1..], o, u[1..], p); }
        }
      }
  }

  /** Of two traces of the same statements, the first statement accounts for the same events. */
  lemma {:induction false} OneRun(w: World, ss: Stmts, st: State, t: seq<Event>, o: Outcome, u: seq<Event>, p: Outcome)
    requires StmtsTrace(w, ss, st, t, o) && StmtsTrace(w, ss, st, u, p)
    ensures t == u && o == p
    decreases ss
  {
    if ss.Then? {
      var k: nat, a: Outcome, b: Outcome :| Follows(w, ss, st, t, o, k, a, b);
      var m: nat, c: Outcome, d: Outcome :| Follows(w, ss, st, u, p, m, c, d);
      hide Trace, StmtsTrace, Replay;
      OneTrace(w, ss.first, st, t[..k], a, u[..m], c);
      assert k == m by { assert |t[..k]| == k && |u[..m]| == m; }
      if a.Over? { OneRun(w, ss.rest, Replay(w, st, t[..k]), t[k..], b, u[k..], d); }
      SamePieces(t, u, k);
    }
  }

  lemma SamePieces(t: seq<Event>, u: seq<Event>, k: nat)
    requires k <= |t| && k <= |u| && t[..k] == u[..k]
    ensures t[k..] == u[k..] ==> t == u
    ensures k == |t| == |u| ==> t == u
  {
    assert t == t[..k] + t[k..] && u == u[..k] + u[k..];
  }

  /** The events that a run adds are the one trace of its statements from that state, ending as
      the reply says; and the state it leaves is what these events make of it. */
  lemma RunIsTheTrace(w: World, ss: Stmts, st: State, t: seq<Event>, o: Outcome)
    ensures var r := RunStmts(w, ss, st);
            && (StmtsTrace(w, ss, st, t, o) <==> t == New(st, r.state) && o == Ending(r.reply))
            && r.state == Replay(w, st, New(st, r.state))
  {
    hide RunStmts, StmtsTrace, Replay, Ending;
    var r := RunStmts(w, ss, st);
    var run := StmtsRun(w, ss, st);
    NewIs(w, st, r.state, run);
    if StmtsTrace(w, ss, st, t, o) { OneRun(w, ss, st, t, o, run, Ending(r.reply)); }
  }

  /** What IF does is told by its answer alone: THEN after the one value TRUE, ELSE after FALSE or
      NULL, and nothing but a failure after anything else. */
  lemma IfFollowsTheAnswer(w: World, s: Stmt, st: State)
    requires s.If?
    ensures var r := RunStmt(w, s, st);
            var t := New(st, r.state);
            && (t == [] ==> r.reply.Refused?)
            && (t != [] ==> t[0].Asked?)
            && (t != [] && Tells1(t[0], Boolean(true)) ==>
                  StmtsTrace(w, s.thenBranch, After(w, st, t[0]), t[1..], Ending(r.reply)))
            && (t != [] && (Tells1(t[0], Boolean(false)) || Tells1(t[0], Nil)) ==>
                  StmtsTrace(w, s.elseBranch, After(w, st, t[0]), t[1..], Ending(r.reply)))
            && (t != [] && !Tells1(t[0], Boolean(true)) && !Tells1(t[0], Boolean(false)) && !Tells1(t[0], Nil) ==>
                  r.reply.Refused? && |t| == 1)
  {
    hide RunStmt, Replay, StmtsTrace, After, Bound;
    var t := StmtRuns(w, s, st);
    NewIs(w, st, RunStmt(w, s, st).state, t);
    if t != [] { OneValueOnly(t[0]); }
  }

  lemma OneValueOnly(e: Event)
    ensures !(Tells1(e, Boolean(true)) && (Tells1(e, Boolean(false)) || Tells1(e, Nil)))
  {
  }

  // ------------------------------------------------------------- arguments, declarations, handler

  /** Each argument is asked for and given, up to the first failure. */
  ghost predicate ArgumentsTrace(w: World, arguments: seq<Argument>, st: State, t: seq<Event>, ok: bool)
    decreases |arguments|
  {
    if arguments == [] then t == [] && ok
    else if Bound(w, st, arguments[0].text, false).Refused? then t == [] && !ok
    else t != [] && Asks(w, st, arguments[0].text, false, t[0])
         && if !TellsValue(t[0]) then t[1..] == [] && !ok
            else |t| >= 2 && t[1] == Given(Upper(arguments[0].name), Told(t[0]))
                 && ArgumentsTrace(w, arguments[1..], After(w, After(w, st, t[0]), t[1]), t[2..], ok)
  }

  /** Each variable is given its DEFAULT, asked for at that moment, or NULL. */
  ghost predicate DeclaredTrace(w: World, ds: seq<Declaration>, st: State, t: seq<Event>, ok: bool)
    decreases |ds|
  {
    if ds == [] then t == [] && ok
    else if ds[0].name in st.vars then t == [] && !ok
    else if ds[0].defaultSql == "" then
      t != [] && t[0] == Given(ds[0].name, Nil) && DeclaredTrace(w, ds[1..], After(w, st, t[0]), t[1..], ok)
    else if Bound(w, st, ds[0].defaultSql, true).Refused? then t == [] && !ok
    else t != [] && Asks(w, st, ds[0].defaultSql, true, t[0])
         && if !TellsValue(t[0]) then t[1..] == [] && !ok
            else |t| >= 2 && t[1] == Given(ds[0].name, Told(t[0]))
                 && DeclaredTrace(w, ds[1..], After(w, After(w, st, t[0]), t[1]), t[2..], ok)
  }

  /** What the handler is told of a failure. */
  function Report(message: string): seq<Event> {
    [Given("SQLCODE", Number(-1)), Given("SQLSTATE", Text("XX000")), Given("SQLERRM", Text(message))]
  }

  /** The body runs; only when it fails, its failure is reported and the handler runs, if there
      is one. */
  ghost predicate BodyTrace(w: World, script: Script, st: State, t: seq<Event>, o: Outcome) {
    || (StmtsTrace(w, script.body, st, t, o) && (o == Broken ==> script.handler == Done))
    || (script.handler != Done && exists k: nat, message: string :: Handled(w, script, st, t, o, k, message))
  }

  ghost predicate Handled(w: World, script: Script, st: State, t: seq<Event>, o: Outcome, k: nat, message: string) {
    && k + 3 <= |t| && StmtsTrace(w, script.body, st, t[..k], Broken) && t[k..k + 3] == Report(message)
    && StmtsTrace(w, script.handler, Replay(w, st, t[..k + 3]), t[k + 3..], o)
  }

  /** The result of a procedure: that of its RETURN or last query, or one NULL. */
  predicate Results(w: World, o: Outcome, reply: Reply<Table>) {
    if o == Broken then reply.Refused?
    else reply == Answered(if o.result.Some? then o.result.value else Table([w.procedure], [[Nil]]))
  }

  /** Arguments, then declarations, then the body, each only if the one before got through. */
  ghost predicate InvokeTrace(w: World, script: Script, arguments: seq<Argument>, st: State,
                              a: seq<Event>, d: seq<Event>, b: seq<Event>, reply: Reply<Table>) {
    || (ArgumentsTrace(w, arguments, st, a, false) && d == [] && b == [] && reply.Refused?)
    || (ArgumentsTrace(w, arguments, st, a, true)
        && (|| (DeclaredTrace(w, script.declarations, Replay(w, st, a), d, false) && b == [] && reply.Refused?)
            || (DeclaredTrace(w, script.declarations, Replay(w, st, a), d, true)
                && exists o :: BodyTrace(w, script, Replay(w, Replay(w, st, a), d), b, o) && Results(w, o, reply))))
  }

  lemma GivenAfter(w: World, st: State, name: string, v: Value)
    ensures Give(st, name, v) == After(w, st, Given(name, v))
  {
  }

  /** After two events. */
  lemma TwoThen(w: World, st: State, e: Event, f: Event, t: seq<Event>)
    ensures var u := [e, f] + t; u[0] == e && u[1] == f && u[2..] == t && Replay(w, st, u) == Replay(w, After(w, After(w, st, e), f), t)
  {
    var u := [e, f] + t;
    assert u[1..] == [f] + t && u[1..][1..] == t && u[2..] == t;
    hide After;
  }

  lemma {:induction false} ArgumentsRun(w: World, arguments: seq<Argument>, st: State) returns (t: seq<Event>)
    ensures var r := BindArguments(w, arguments, st);
            r.state == Replay(w, st, t) && ArgumentsTrace(w, arguments, st, t, r.reply.Answered?)
    decreases |arguments|
  {
    hide Scalar, Replay, Asks, Bound, Told, TellsValue, After, Upper;
    if arguments == [] {
      t := [];
      ReplayNone(w, st);
    } else {
      t := Questions(w, st, arguments[0].text, false);
      var v := Scalar(w, st, arguments[0].text, false);
      if v.reply.Answered? {
        var name := Upper(arguments[0].name);
        GivenAfter(w, v.state, name, v.reply.value);
        var more := ArgumentsRun(w, arguments[1..], Give(v.state, name, v.reply.value));
        TwoThen(w, st, t[0], Given(name, v.reply.value), more);
        t := [t[0], Given(name, v.reply.value)] + more;
      }
    }
  }

  lemma {:induction false} DeclaredRun(w: World, ds: seq<Declaration>, st: State) returns (t: seq<Event>)
    ensures var r := Declare(w, ds, st);
            r.state == Replay(w, st, t) && DeclaredTrace(w, ds, st, t, r.reply.Answered?)
    decreases |ds|
  {
    hide Scalar, Replay, Asks, Bound, Told, TellsValue, After;
    if ds == [] || ds[0].name in st.vars {
      t := [];
      ReplayNone(w, st);
    } else if ds[0].defaultSql == "" {
      GivenAfter(w, st, ds[0].name, Nil);
      var more := DeclaredRun(w, ds[1..], Give(st, ds[0].name, Nil));
      AskedThen(w, st, Given(ds[0].name, Nil), more);
      t := [Given(ds[0].name, Nil)] + more;
    } else {
      t := Questions(w, st, ds[0].defaultSql, true);
      var v := Scalar(w, st, ds[0].defaultSql, true);
      if v.reply.Answered? {
        GivenAfter(w, v.state, ds[0].name, v.reply.value);
        var more := DeclaredRun(w, ds[1..], Give(v.state, ds[0].name, v.reply.value));
        TwoThen(w, st, t[0], Given(ds[0].name, v.reply.value), more);
        t := [t[0], Given(ds[0].name, v.reply.value)] + more;
      }
    }
  }

  lemma ReportIs(w: World, st: State, message: string)
    ensures Raised(st, message) == Replay(w, st, Report(message))
  {
    var x := Give(st, "SQLCODE", Number(-1));
    var y := Give(x, "SQLSTATE", Text("XX000"));
    GivenAfter(w, st, "SQLCODE", Number(-1));
    GivenAfter(w, x, "SQLSTATE", Text("XX000"));
    GivenAfter(w, y, "SQLERRM", Text(message));
    hide Give, After, Replay;
    TwoThen(w, st, Given("SQLCODE", Number(-1)), Given("SQLSTATE", Text("XX000")), [Given("SQLERRM", Text(message))]);
    ReplayOne(w, y, Given("SQLERRM", Text(message)));
    assert Report(message) == [Given("SQLCODE", Number(-1)), Given("SQLSTATE", Text("XX000"))] + [Given("SQLERRM", Text(message))];
  }

  lemma BodyRuns(w: World, script: Script, st: State) returns (t: seq<Event>)
    ensures var r := RunBody(w, script, st); r.state == Replay(w, st, t) && BodyTrace(w, script, st, t, Ending(r.reply))
  {
    hide RunStmts, StmtsTrace, Replay, Raised;
    t := StmtsRun(w, script.body, st);
    var r := RunStmts(w, script.body, st);
    if r.reply.Refused? && script.handler != Done {
      var message := r.reply.message;
      var raised := Raised(r.state, message);
      ReportIs(w, r.state, message);
      var h := StmtsRun(w, script.handler, raised);
      t := HandledRun(w, script, st, t, message, h, Ending(RunStmts(w, script.handler, raised).reply));
    }
  }

  lemma HandledRun(w: World, script: Script, st: State, b: seq<Event>, message: string, h: seq<Event>, o: Outcome) returns (t: seq<Event>)
    requires script.handler != Done && StmtsTrace(w, script.body, st, b, Broken)
    requires StmtsTrace(w, script.handler, Replay(w, Replay(w, st, b), Report(message)), h, o)
    ensures BodyTrace(w, script, st, t, o)
    ensures Replay(w, st, t) == Replay(w, Replay(w, Replay(w, st, b), Report(message)), h)
  {
    hide StmtsTrace, Replay;
    var k, report := |b|, Report(message);
    t := b + report + h;
    ReplayThen(w, st, b + report, h);
    ReplayThen(w, st, b, report);
    assert t[..k] == b && t[k..k + 3] == report && t[..k + 3] == b + report && t[k + 3..] == h;
    assert Handled(w, script, st, t, o, k, message);
  }

  /** Every invocation is a trace of the procedure: its arguments, its declarations, its body and
      its handler. */
  lemma InvokeIsATrace(w: World, script: Script, arguments: seq<Argument>, st: State) returns (a: seq<Event>, d: seq<Event>, b: seq<Event>)
    ensures var r := Invoke(w, script, arguments, st);
            New(st, r.state) == a + d + b && InvokeTrace(w, script, arguments, st, a, d, b, r.reply)
  {
    hide BindArguments, Declare, RunBody, Replay, ArgumentsTrace, DeclaredTrace, BodyTrace;
    d, b := [], [];
    a := ArgumentsRun(w, arguments, st);
    var x := BindArguments(w, arguments, st);
    ReplayNone(w, x.state);
    if x.reply.Answered? {
      d := DeclaredRun(w, script.declarations, x.state);
      var y := Declare(w, script.declarations, x.state);
      ReplayNone(w, y.state);
      if y.reply.Answered? {
        b := BodyRuns(w, script, y.state);
        assert Results(w, Ending(RunBody(w, script, y.state).reply), Invoke(w, script, arguments, st).reply);
      }
    }
    ThreePieces(w, st, a, d, b);
    NewIs(w, st, Invoke(w, script, arguments, st).state, a + d + b);
  }

  lemma ThreePieces(w: World, st: State, a: seq<Event>, d: seq<Event>, b: seq<Event>)
    ensures Replay(w, st, a + d + b) == Replay(w, Replay(w, Replay(w, st, a), d), b)
  {
    hide Replay;
    ReplayThen(w, st, a + d, b);
    ReplayThen(w, st, a, d);
  }
}
