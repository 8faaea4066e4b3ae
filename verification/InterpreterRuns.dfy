/** What every run of a procedure keeps: the log of events decides the result, the variables
    and the temporary tables, and code after a certain RETURN is dead. */
module InterpreterRuns {
  import opened Script
  import opened Text
  import opened Interpreters

  // ------------------------------------------------------------- replaying the log

  /** What one event does to the variables and the temporary tables. */
  function After(w: World, st: State, e: Event): State {
    var log := st.log + [e];
    match e
    case Given(name, v) => State(st.vars[name := v], st.temps, log)
    case Cleaned(name, _, count) => State(st.vars, if count.Answered? then st.temps - {name} else st.temps, log)
    case Executed(bound, _, count) =>
      var temps := Register(w, bound, st.temps);
      if count.Refused? then State(st.vars, temps, log)
      else State(st.vars[ROW_COUNT := Number(count.value)], Forget(temps, Dropped(w, bound, temps)), log)
    case Asked(bound, _, _) => State(st.vars, Register(w, bound, st.temps), log)
    case Queried(bound, _, _) => State(st.vars, Register(w, bound, st.temps), log)
    case Returned(bound, _, _) => State(st.vars, Register(w, bound, st.temps), log)
  }

  function Replay(w: World, st: State, events: seq<Event>): State
    decreases |events|
  {
    if events == [] then st else Replay(w, After(w, st, events[0]), events[1..])
  }

  lemma {:induction false} ReplayThen(w: World, st: State, a: seq<Event>, b: seq<Event>)
    ensures Replay(w, st, a + b) == Replay(w, Replay(w, st, a), b)
    decreases |a|
  {
    hide After;
    if a == [] {
      assert a + b == b;
    } else {
      assert (a + b)[0] == a[0] && (a + b)[1..] == a[1..] + b;
      ReplayThen(w, After(w, st, a[0]), a[1..], b);
    }
  }

  lemma {:induction false} ReplayLog(w: World, st: State, events: seq<Event>)
    ensures Replay(w, st, events).log == st.log + events
    decreases |events|
  {
    if events == [] {
      assert st.log + events == st.log;
    } else {
      ReplayLog(w, After(w, st, events[0]), events[1..]);
      assert After(w, st, events[0]).log == st.log + [events[0]];
      hide After;
      assert events == [events[0]] + events[1..];
    }
  }

  lemma ReplayOne(w: World, st: State, e: Event)
    ensures Replay(w, st, [e]) == After(w, st, e)
  {
    hide After;
    assert [e][1..] == [];
  }

  lemma ReplayNone(w: World, st: State)
    ensures Replay(w, st, []) == st
  {
  }

  // ------------------------------------------------------------- what a log means

  /** The run goes on after this event. */
  predicate Goes(e: Event) {
    match e
    case Given(_, _) => true
    case Asked(_, _, reply) => reply.Answered?
    case Queried(_, _, reply) => reply.Answered?
    case Executed(_, _, count) => count.Answered?
    case Returned(_, _, _) => false
    case Cleaned(_, _, _) => false
  }

  predicate AllGo(events: seq<Event>) { forall k :: 0 <= k < |events| ==> Goes(events[k]) }

  predicate AnsweredReturn(e: Event) { e.Returned? && e.reply.Answered? }

  /** The table of the last query that was answered. */
  function LastTable(events: seq<Event>): Option<Table> {
    if events == [] then None
    else
      var e := events[|events| - 1];
      if e.Queried? && e.reply.Answered? then Some(e.reply.value) else LastTable(events[..|events| - 1])
  }

  /** The run goes on up to its last event. A RETURN that was answered is the last event and
      gives the result; without one the result is that of the last query. */
  predicate Explained(reply: Reply<Flow>, events: seq<Event>) {
    && (forall k :: 0 <= k < |events| - 1 ==> Goes(events[k])) && (events != [] ==> !events[|events| - 1].Cleaned?)
    && match reply
       case Refused(_) => events == [] || !AnsweredReturn(events[|events| - 1])
       case Answered(f) =>
         if f.returned then
           events != [] && AnsweredReturn(events[|events| - 1]) && f.result == Some(events[|events| - 1].reply.value)
         else AllGo(events) && f.result == LastTable(events)
  }

  /** Only these variables, or new ones, are given values. */
  predicate GivesOnly(events: seq<Event>, names: set<string>, known: set<string>) {
    forall k :: 0 <= k < |events| && events[k].Given? ==> events[k].name in names || events[k].name !in known
  }

  /** The names that the statements assign to. */
  function Assigned(ss: Stmts): set<string> {
    match ss case Done => {} case Then(s, rest) => AssignedBy(s) + Assigned(rest)
  }

  function AssignedBy(s: Stmt): set<string> {
    match s
    case Assign(name, _) => {name}
    case If(_, yes, no) => Assigned(yes) + Assigned(no)
    case Case(_, branches, no) => AssignedIn(branches) + Assigned(no)
    case _ => {}
  }

  function AssignedIn(branches: Branches): set<string> {
    match branches case NoBranch => {} case Branch(_, body, others) => Assigned(body) + AssignedIn(others)
  }

  /** The events lead from one state to the other and explain the reply. */
  predicate Tells(w: World, st: State, r: Eval<Flow>, events: seq<Event>, names: set<string>) {
    r.state == Replay(w, st, events) && Explained(r.reply, events) && GivesOnly(events, names, st.vars.Keys)
  }

  // ------------------------------------------------------------- putting logs together

  lemma {:induction false} LastTableThen(a: seq<Event>, b: seq<Event>)
    ensures LastTable(a + b) == Later(LastTable(a), LastTable(b))
    decreases |b|
  {
    if b == [] {
      assert a + b == a;
    } else {
      var n := |b| - 1;
      assert (a + b)[|a + b| - 1] == b[n] && (a + b)[..|a + b| - 1] == a + b[..n];
      LastTableThen(a, b[..n]);
    }
  }

  lemma GoesThen(a: seq<Event>, b: seq<Event>)
    requires AllGo(a)
    ensures forall k :: 0 <= k < |a + b| - 1 && (k >= |a| ==> Goes(b[k - |a|])) ==> Goes((a + b)[k])
    ensures AllGo(b) ==> AllGo(a + b)
  {
  }

  /** Statements that went on with this result, then others. */
  lemma ExplainedThen(before: Option<Table>, a: seq<Event>, reply: Reply<Flow>, b: seq<Event>)
    requires AllGo(a) && before == LastTable(a) && Explained(reply, b)
    ensures Explained(if reply.Refused? || reply.value.returned then reply
                      else Answered(Flow(Later(before, reply.value.result), false)), a + b)
  {
    var c := a + b;
    LastTableThen(a, b);
    GoesThen(a, b);
    hide Goes, LastTable;
    if b == [] { assert c == a; } else { assert c[|c| - 1] == b[|b| - 1]; }
  }

  lemma {:induction false} VarsGrow(w: World, st: State, events: seq<Event>)
    ensures st.vars.Keys <= Replay(w, st, events).vars.Keys
    decreases |events|
  {
    if events != [] { VarsGrow(w, After(w, st, events[0]), events[1..]); }
  }

  lemma GivesThen(a: seq<Event>, b: seq<Event>, names: set<string>, more: set<string>, known: set<string>, later: set<string>)
    requires GivesOnly(a, names, known) && GivesOnly(b, more, later) && known <= later
    ensures GivesOnly(a + b, names + more, known)
  {
  }

  lemma TellsThen(w: World, st: State, before: Option<Table>, a: seq<Event>, mid: State, r: Eval<Flow>, b: seq<Event>,
                  names: set<string>, more: set<string>)
    requires mid == Replay(w, st, a) && AllGo(a) && before == LastTable(a) && GivesOnly(a, names, st.vars.Keys)
    requires Tells(w, mid, r, b, more)
    ensures Tells(w, st, Onward(before, r), a + b, names + more)
  {
    ReplayThen(w, st, a, b);
    VarsGrow(w, st, a);
    hide Explained, GivesOnly, AllGo, LastTable, Replay;
    ExplainedThen(before, a, r.reply, b);
    GivesThen(a, b, names, more, st.vars.Keys, mid.vars.Keys);
  }

  lemma TellsMore(w: World, st: State, r: Eval<Flow>, events: seq<Event>, names: set<string>, more: set<string>)
    requires Tells(w, st, r, events, names) && names <= more
    ensures Tells(w, st, r, events, more)
  {
  }

  // ------------------------------------------------------------- every statement tells

  /** An expression asks the database at most once, and not again after a refusal. */
  lemma ScalarTells(w: World, st: State, expression: string, bare: bool) returns (events: seq<Event>)
    ensures var r := Scalar(w, st, expression, bare);
            && r.state == Replay(w, st, events) && |events| <= 1 && (forall k :: 0 <= k < |events| ==> events[k].Asked?)
            && (r.reply.Answered? ==> AllGo(events))
  {
    match w.bind(st.vars, TrimOuter(Trim(expression)), bare)
    case Refused(_) =>
      events := [];
      ReplayNone(w, st);
    case Answered(bound) =>
      var text := SelectText(w.rewrite(bound, Register(w, bound, st.temps)));
      var e := Asked(bound, text, w.query(st.log, text));
      events := [e];
      ReplayOne(w, st, e);
  }

  /** A statement of no more than one event. */
  lemma OneTells(w: World, st: State, r: Eval<Flow>, events: seq<Event>)
    requires |events| <= 1 && r.state == Replay(w, st, events) && (forall k :: 0 <= k < |events| ==> !events[k].Given? && !events[k].Cleaned?)
    requires r.reply.Refused? ==> events == [] || !AnsweredReturn(events[0])
    requires r.reply.Answered? ==> events != [] && match events[0]
                                   case Returned(_, _, a) => a.Answered? && r.reply.value == Flow(Some(a.value), true)
                                   case Queried(_, _, a) => a.Answered? && r.reply.value == Flow(Some(a.value), false)
                                   case Executed(_, _, _) => Goes(events[0]) && r.reply.value == GoOn
                                   case _ => false
    ensures Tells(w, st, r, events, {})
  {
    hide Replay;
    if events != [] { assert events[..0] == [] && LastTable([]) == None; }
  }

  lemma SqlTells(w: World, st: State, sql: string) returns (events: seq<Event>)
    ensures Tells(w, st, RunSql(w, st, sql), events, {})
  {
    hide Tells;
    match w.bind(st.vars, sql, false) {
    case Refused(_) =>
      events := [];
      ReplayNone(w, st);
    case Answered(bound) =>
      var text := w.rewrite(bound, Register(w, bound, st.temps));
      var e := if w.isQuery(text) then Queried(bound, text, w.query(st.log, text)) else Executed(bound, text, w.execute(st.log, text));
      events := [e];
      ReplayOne(w, st, e);
    }
    hide Replay, Register, Forget, Dropped;
    OneTells(w, st, RunSql(w, st, sql), events);
  }

  lemma ReturnTells(w: World, st: State, expression: string) returns (events: seq<Event>)
    ensures Tells(w, st, RunReturn(w, st, expression), events, {})
  {
    hide Tells;
    match w.bind(st.vars, expression, true) {
    case Refused(_) =>
      events := [];
      ReplayNone(w, st);
    case Answered(bound) =>
      var text := "SELECT " + w.rewrite(bound, Register(w, bound, st.temps)) + " AS " + w.procedure;
      var e := Returned(bound, text, w.query(st.log, text));
      events := [e];
      ReplayOne(w, st, e);
    }
    hide Replay, Register, Forget, Dropped;
    OneTells(w, st, RunReturn(w, st, expression), events);
  }

  lemma FailedTells(w: World, st: State, r: Eval<Flow>, events: seq<Event>)
    requires r.reply.Refused? && r.state == Replay(w, st, events) && |events| <= 1
    requires forall k :: 0 <= k < |events| ==> events[k].Asked?
    ensures Tells(w, st, r, events, {})
  {
    hide Replay;
  }

  lemma AskedQuietly(events: seq<Event>, known: set<string>)
    requires |events| <= 1 && (forall k :: 0 <= k < |events| ==> events[k].Asked?)
    ensures LastTable(events) == None && GivesOnly(events, {}, known)
  {
    if events != [] { assert events[..0] == [] && LastTable([]) == None; }
  }

  lemma GiveTells(w: World, st: State, name: string, expression: string, failure: string) returns (events: seq<Event>)
    ensures Tells(w, st, RunGive(w, st, name, expression, failure), events, {name})
  {
    var asked := ScalarTells(w, st, expression, true);
    var v := Scalar(w, st, expression, true);
    var r := RunGive(w, st, name, expression, failure);
    hide Scalar, Replay;
    if v.reply.Refused? {
      events := asked;
      hide Tells;
      FailedTells(w, st, r, events);
      TellsMore(w, st, r, events, {}, {name});
    } else {
      var e := Given(name, v.reply.value);
      events := asked + [e];
      AskedQuietly(asked, st.vars.Keys);
      ReplayOne(w, v.state, e);
      GivenTells(w, v.state, Eval(Answered(GoOn), Give(v.state, name, v.reply.value)), e);
      TellsThen(w, st, None, asked, v.state, Eval(Answered(GoOn), Give(v.state, name, v.reply.value)), [e], {}, {name});
      assert {} + {name} == {name};
    }
  }

  lemma GivenTells(w: World, st: State, r: Eval<Flow>, e: Event)
    requires e.Given? && r.reply == Answered(GoOn) && r.state == Replay(w, st, [e])
    ensures Tells(w, st, r, [e], {e.name})
  {
    hide Replay;
    assert [e][..0] == [] && LastTable([]) == None;
  }

  /** After a condition or a subject, the statements chosen. */
  lemma AskThen(w: World, st: State, asked: seq<Event>, mid: State, r: Eval<Flow>, events: seq<Event>, names: set<string>)
    requires mid == Replay(w, st, asked) && |asked| <= 1 && (forall k :: 0 <= k < |asked| ==> asked[k].Asked?) && AllGo(asked)
    requires Tells(w, mid, r, events, names)
    ensures Tells(w, st, r, asked + events, names)
  {
    hide Replay, Tells;
    AskedQuietly(asked, st.vars.Keys);
    TellsThen(w, st, None, asked, mid, r, events, {}, names);
    assert {} + names == names;
    OnwardNone(r);
  }

  lemma OnwardNone(r: Eval<Flow>)
    ensures Onward(None, r) == r
  {
  }

  lemma {:induction false} StmtTells(w: World, s: Stmt, st: State) returns (events: seq<Event>)
    ensures Tells(w, st, RunStmt(w, s, st), events, AssignedBy(s))
    decreases s
  {
    hide Tells, Replay, Scalar, RunSql, RunReturn, RunGive;
    var r := RunStmt(w, s, st);
    match s
    case Sql(sql) => events := SqlTells(w, st, sql);
    case Return(expression) => events := ReturnTells(w, st, expression);
    case Let(name, _, expression) =>
      if name in st.vars {
        events := [];
        EmptyTells(w, st, r);
      } else {
        events := GiveTells(w, st, name, expression, "failed to evaluate LET " + name + ": ");
        NewVariable(w, st, r, events, name);
      }
    case Assign(name, expression) =>
      if name !in st.vars {
        events := [];
        EmptyTells(w, st, r);
        TellsMore(w, st, r, events, {}, {name});
      } else {
        events := GiveTells(w, st, name, expression, "failed to assign " + name + ": ");
      }
    case If(condition, yes, no) =>
      events := IfTells(w, s, st);
    case Case(subject, branches, no) =>
      var asked := ScalarTells(w, st, subject, true);
      var v := Scalar(w, st, subject, true);
      if v.reply.Refused? {
        events := asked;
        FailedTells(w, st, r, events);
        TellsMore(w, st, r, events, {}, AssignedBy(s));
      } else {
        var rest := BranchesTell(w, s, branches, v.reply.value, v.state);
        events := asked + rest;
        AskThen(w, st, asked, v.state, r, rest, AssignedBy(s));
      }
  }

  lemma EmptyTells(w: World, st: State, r: Eval<Flow>)
    requires r.reply.Refused? && r.state == st
    ensures Tells(w, st, r, [], {})
  {
    ReplayNone(w, st);
  }

  lemma NewVariable(w: World, st: State, r: Eval<Flow>, events: seq<Event>, name: string)
    requires name !in st.vars && Tells(w, st, r, events, {name})
    ensures Tells(w, st, r, events, {})
  {
  }

  lemma {:induction false} IfTells(w: World, s: Stmt, st: State) returns (events: seq<Event>)
    requires s.If?
    ensures Tells(w, st, RunStmt(w, s, st), events, AssignedBy(s))
    decreases s, 0
  {
    hide Tells, Replay, Scalar;
    var r := RunStmt(w, s, st);
    var asked := ScalarTells(w, st, s.condition, true);
    var v := Scalar(w, st, s.condition, true);
    if v.reply.Refused? || Holding(v.reply.value).Refused? {
      events := asked;
      FailedTells(w, st, r, events);
      TellsMore(w, st, r, events, {}, AssignedBy(s));
    } else {
      var chosen := if Holding(v.reply.value).value then s.thenBranch else s.elseBranch;
      var rest := StmtsTell(w, chosen, v.state);
      events := asked + rest;
      AskThen(w, st, asked, v.state, r, rest, Assigned(chosen));
      TellsMore(w, st, r, events, Assigned(chosen), AssignedBy(s));
    }
  }

  lemma {:induction false} BranchesTell(w: World, s: Stmt, branches: Branches, x: Value, st: State) returns (events: seq<Event>)
    requires Within(branches, s)
    ensures Tells(w, st, RunBranches(w, s, branches, x, st), events, AssignedIn(branches) + Assigned(s.elseBranch))
    decreases s, branches
  {
    hide Tells, Replay, Scalar;
    var r := RunBranches(w, s, branches, x, st);
    var all := AssignedIn(branches) + Assigned(s.elseBranch);
    match branches
    case NoBranch =>
      events := StmtsTell(w, s.elseBranch, st);
      TellsMore(w, st, r, events, Assigned(s.elseBranch), all);
    case Branch(value, body, others) =>
      var asked := ScalarTells(w, st, value, true);
      var v := Scalar(w, st, value, true);
      if v.reply.Refused? {
        events := asked;
        FailedTells(w, st, r, events);
        TellsMore(w, st, r, events, {}, all);
      } else {
        var rest;
        var names := if SameValue(x, v.reply.value) then Assigned(body) else AssignedIn(others) + Assigned(s.elseBranch);
        if SameValue(x, v.reply.value) { rest := StmtsTell(w, body, v.state); }
        else { rest := BranchesTell(w, s, others, x, v.state); }
        events := asked + rest;
        AskThen(w, st, asked, v.state, r, rest, names);
        TellsMore(w, st, r, events, names, all);
      }
  }

  lemma {:induction false} StmtsTell(w: World, ss: Stmts, st: State) returns (events: seq<Event>)
    ensures Tells(w, st, RunStmts(w, ss, st), events, Assigned(ss))
    decreases ss
  {
    match ss
    case Done =>
      events := [];
      ReplayNone(w, st);
    case Then(first, rest) =>
      hide Replay, Goes, LastTable, GivesOnly, AllGo, RunStmt;
      var a := RunStmt(w, first, st);
      var x := StmtTells(w, first, st);
      if a.reply.Refused? || a.reply.value.returned {
        events := x;
        TellsMore(w, st, a, x, AssignedBy(first), Assigned(ss));
      } else {
        var y := StmtsTell(w, rest, a.state);
        events := x + y;
        TellsThen(w, st, a.reply.value.result, x, a.state, RunStmts(w, rest, a.state), y, AssignedBy(first), Assigned(rest));
      }
  }

  // ------------------------------------------------------------- the log decides

  /** What a run added to the log. */
  function New(st: State, r: State): seq<Event> {
    if |st.log| <= |r.log| then r.log[|st.log|..] else []
  }

  lemma NewIs(w: World, st: State, r: State, events: seq<Event>)
    requires r == Replay(w, st, events)
    ensures st.log <= r.log && New(st, r) == events
  {
    ReplayLog(w, st, events);
  }

  /** Nothing happens after the first RETURN or the first failure, however deep it is nested;
      the result is that RETURN's, or that of the last query; and the variables and temporary
      tables are what the events alone make of them. */
  lemma NothingAfterReturn(w: World, ss: Stmts, st: State)
    ensures var r := RunStmts(w, ss, st);
            var added := New(st, r.state);
            && st.log <= r.state.log && r.state == Replay(w, st, added)
            && (forall k :: 0 <= k < |added| && (added[k].Returned? || !Goes(added[k])) ==> k == |added| - 1)
            && Explained(r.reply, added)
  {
    var events := StmtsTell(w, ss, st);
    NewIs(w, st, RunStmts(w, ss, st).state, events);
  }

  // ------------------------------------------------------------- dead code

  /** Every way through these statements ends in a RETURN or a failure. */
  predicate Ends(ss: Stmts) {
    match ss case Done => false case Then(s, rest) => EndsAt(s) || Ends(rest)
  }

  predicate EndsAt(s: Stmt) {
    match s
    case Return(_) => true
    case If(_, yes, no) => Ends(yes) && Ends(no)
    case Case(_, branches, no) => EndsIn(branches) && Ends(no)
    case _ => false
  }

  predicate EndsIn(branches: Branches) {
    match branches case NoBranch => true case Branch(_, body, others) => Ends(body) && EndsIn(others)
  }

  /** The statements without what follows a statement that always ends them. */
  function Prune(ss: Stmts): Stmts {
    match ss
    case Done => Done
    case Then(s, rest) => Then(PruneAt(s), if EndsAt(s) then Done else Prune(rest))
  }

  function PruneAt(s: Stmt): Stmt {
    match s
    case If(c, yes, no) => If(c, Prune(yes), Prune(no))
    case Case(x, branches, no) => Case(x, PruneIn(branches), Prune(no))
    case _ => s
  }

  function PruneIn(branches: Branches): Branches {
    match branches case NoBranch => NoBranch case Branch(v, body, others) => Branch(v, Prune(body), PruneIn(others))
  }

  /** The run stops there. */
  predicate Stopped(r: Eval<Flow>) { r.reply.Refused? || r.reply.value.returned }

  lemma {:induction false} EndsStop(w: World, ss: Stmts, st: State)
    requires Ends(ss)
    ensures Stopped(RunStmts(w, ss, st))
    decreases ss
  {
    match ss
    case Then(s, rest) =>
      if EndsAt(s) { EndsAtStops(w, s, st); } else { EndsStop(w, rest, RunStmt(w, s, st).state); }
  }

  lemma {:induction false} EndsAtStops(w: World, s: Stmt, st: State)
    requires EndsAt(s)
    ensures Stopped(RunStmt(w, s, st))
    decreases s
  {
    hide Scalar, Holding;
    match s
    case Return(_) => {}
    case If(condition, yes, no) =>
      var c := Condition(w, st, condition);
      if c.reply.Answered? { EndsStop(w, if c.reply.value then yes else no, c.state); }
    case Case(subject, branches, _) =>
      var v := Scalar(w, st, subject, true);
      if v.reply.Answered? { EndsInStops(w, s, branches, v.reply.value, v.state); }
  }

  lemma {:induction false} EndsInStops(w: World, s: Stmt, branches: Branches, x: Value, st: State)
    requires Within(branches, s) && EndsIn(branches) && Ends(s.elseBranch)
    ensures Stopped(RunBranches(w, s, branches, x, st))
    decreases s, branches
  {
    hide Scalar, SameValue;
    match branches
    case NoBranch => EndsStop(w, s.elseBranch, st);
    case Branch(value, body, others) =>
      var v := Scalar(w, st, value, true);
      if v.reply.Answered? {
        if SameValue(x, v.reply.value) { EndsStop(w, body, v.state); }
        else { EndsInStops(w, s, others, x, v.state); }
      }
  }

  /** Taking dead code out changes nothing: neither the reply, nor the variables, nor what the
      database is asked. */
  lemma {:induction false} DeadCodeIsDead(w: World, ss: Stmts, st: State)
    ensures RunStmts(w, Prune(ss), st) == RunStmts(w, ss, st)
    decreases ss
  {
    match ss
    case Done =>
    case Then(s, rest) =>
      DeadCodeAt(w, s, st);
      hide RunStmt, PruneAt, EndsAt;
      var a := RunStmt(w, s, st);
      if EndsAt(s) { EndsAtStops(w, s, st); } else { DeadCodeIsDead(w, rest, a.state); }
  }

  lemma {:induction false} DeadCodeAt(w: World, s: Stmt, st: State)
    ensures RunStmt(w, PruneAt(s), st) == RunStmt(w, s, st)
    decreases s
  {
    hide Scalar, Holding, RunSql, RunReturn, RunGive;
    match s
    case If(condition, yes, no) =>
      var c := Condition(w, st, condition);
      if c.reply.Answered? { DeadCodeIsDead(w, if c.reply.value then yes else no, c.state); }
    case Case(subject, branches, no) =>
      var v := Scalar(w, st, subject, true);
      if v.reply.Answered? { DeadCodeIn(w, s, branches, v.reply.value, v.state); }
    case _ =>
  }

  lemma {:induction false} DeadCodeIn(w: World, s: Stmt, branches: Branches, x: Value, st: State)
    requires Within(branches, s) && Within(PruneIn(branches), PruneAt(s))
    ensures RunBranches(w, PruneAt(s), PruneIn(branches), x, st) == RunBranches(w, s, branches, x, st)
    decreases s, branches
  {
    hide Scalar, SameValue;
    match branches
    case NoBranch => DeadCodeIsDead(w, s.elseBranch, st);
    case Branch(value, body, others) =>
      var v := Scalar(w, st, value, true);
      if v.reply.Answered? {
        if SameValue(x, v.reply.value) { DeadCodeIsDead(w, body, v.state); }
        else { DeadCodeIn(w, s, others, x, v.state); }
      }
  }

  // ------------------------------------------------------------- SQLROWCOUNT

  /** The count of the last change that was carried out, 0 when there is none. */
  function LastCount(events: seq<Event>): int {
    if events == [] then 0
    else
      var e := events[|events| - 1];
      if e.Executed? && e.count.Answered? then e.count.value else LastCount(events[..|events| - 1])
  }

  /** SQLROWCOUNT holds the count of the last successful change. */
  predicate CountsRight(st: State) { ROW_COUNT in st.vars && st.vars[ROW_COUNT] == Number(LastCount(st.log)) }

  lemma CountAfter(w: World, st: State, e: Event)
    requires CountsRight(st) && !(e.Given? && e.name == ROW_COUNT)
    ensures CountsRight(After(w, st, e))
  {
    hide Register, Forget, Dropped;
    LastAppended(st.log, e);
    hide LastCount;
  }

  lemma LastAppended(log: seq<Event>, e: Event)
    ensures LastCount(log + [e]) == if e.Executed? && e.count.Answered? then e.count.value else LastCount(log)
  {
    assert (log + [e])[..|log|] == log;
  }

  lemma {:induction false} CountReplays(w: World, st: State, events: seq<Event>, names: set<string>, known: set<string>)
    requires CountsRight(st) && GivesOnly(events, names, known) && ROW_COUNT !in names && ROW_COUNT in known
    ensures CountsRight(Replay(w, st, events))
    decreases |events|
  {
    if events != [] {
      CountAfter(w, st, events[0]);
      hide CountsRight, After;
      CountReplays(w, After(w, st, events[0]), events[1..], names, known);
    }
  }

  /** Statements that do not assign to SQLROWCOUNT keep it right, however they end: LET and
      DECLARE cannot touch it because it is always there. */
  lemma RowCountKept(w: World, ss: Stmts, st: State)
    requires CountsRight(st) && ROW_COUNT !in Assigned(ss)
    ensures CountsRight(RunStmts(w, ss, st).state)
  {
    var events := StmtsTell(w, ss, st);
    hide RunStmts, CountsRight, Explained;
    assert CountsRight(st) ==> ROW_COUNT in st.vars by { RightThere(st); }
    CountReplays(w, st, events, Assigned(ss), st.vars.Keys);
  }

  lemma RightThere(st: State)
    ensures CountsRight(st) ==> ROW_COUNT in st.vars
  {
  }

  lemma CountScalar(w: World, st: State, expression: string, bare: bool)
    requires CountsRight(st)
    ensures CountsRight(Scalar(w, st, expression, bare).state)
  {
    var events := ScalarTells(w, st, expression, bare);
    RightThere(st);
    hide CountsRight, Scalar;
    CountReplays(w, st, events, {}, {ROW_COUNT});
  }

  lemma CountGive(st: State, name: string, v: Value)
    requires CountsRight(st) && name != ROW_COUNT
    ensures CountsRight(Give(st, name, v))
  {
    assert (st.log + [Given(name, v)])[..|st.log|] == st.log;
  }

  lemma {:induction false} CountArguments(w: World, arguments: seq<Argument>, st: State)
    requires CountsRight(st) && (forall k :: 0 <= k < |arguments| ==> Upper(arguments[k].name) != ROW_COUNT)
    ensures CountsRight(BindArguments(w, arguments, st).state)
    decreases |arguments|
  {
    hide CountsRight, Scalar, Upper, Give;
    if arguments != [] {
      CountScalar(w, st, arguments[0].text, false);
      var r := Scalar(w, st, arguments[0].text, false);
      if r.reply.Answered? {
        CountGive(r.state, Upper(arguments[0].name), r.reply.value);
        CountArguments(w, arguments[1..], Give(r.state, Upper(arguments[0].name), r.reply.value));
      }
    }
  }

  lemma {:induction false} CountDeclares(w: World, ds: seq<Declaration>, st: State)
    requires CountsRight(st)
    ensures CountsRight(Declare(w, ds, st).state)
    decreases |ds|
  {
    RightThere(st);
    hide CountsRight, Scalar, Give;
    if ds != [] && ds[0].name !in st.vars {
      if ds[0].defaultSql == "" {
        CountGive(st, ds[0].name, Nil);
        CountDeclares(w, ds[1..], Give(st, ds[0].name, Nil));
      } else {
        var r := Scalar(w, st, ds[0].defaultSql, true);
        CountScalar(w, st, ds[0].defaultSql, true);
        if r.reply.Answered? {
          CountGive(r.state, ds[0].name, r.reply.value);
          CountDeclares(w, ds[1..], Give(r.state, ds[0].name, r.reply.value));
        }
      }
    }
  }

  lemma CountRaised(st: State, message: string)
    requires CountsRight(st)
    ensures CountsRight(Raised(st, message))
  {
    hide CountsRight, Give;
    CountGive(st, "SQLCODE", Number(-1));
    var a := Give(st, "SQLCODE", Number(-1));
    CountGive(a, "SQLSTATE", Text("XX000"));
    CountGive(Give(a, "SQLSTATE", Text("XX000")), "SQLERRM", Text(message));
  }

  /** The handler sees the count of the last change that succeeded before the failure, and
      the count is right at the end of every invocation, unless the script assigns to
      SQLROWCOUNT or has an argument of that name. */
  lemma RowCountIsLastChange(w: World, script: Script, arguments: seq<Argument>)
    requires ROW_COUNT !in Assigned(script.body) + Assigned(script.handler)
    requires forall k :: 0 <= k < |arguments| ==> Upper(arguments[k].name) != ROW_COUNT
    ensures CountsRight(Invoke(w, script, arguments, Fresh).state)
    ensures var a := BindArguments(w, arguments, Fresh); var d := Declare(w, script.declarations, a.state);
            var r := RunStmts(w, script.body, d.state);
            CountsRight(r.state) && (r.reply.Refused? ==> CountsRight(Raised(r.state, r.reply.message)))
  {
    hide CountsRight, RunStmts, BindArguments, Declare, Upper;
    CountsFresh();
    CountArguments(w, arguments, Fresh);
    var a := BindArguments(w, arguments, Fresh);
    CountDeclares(w, script.declarations, a.state);
    var d := Declare(w, script.declarations, a.state);
    RowCountKept(w, script.body, d.state);
    var r := RunStmts(w, script.body, d.state);
    if r.reply.Refused? {
      hide Raised;
      CountRaised(r.state, r.reply.message);
      RowCountKept(w, script.handler, Raised(r.state, r.reply.message));
    }
  }

  lemma CountsFresh()
    ensures CountsRight(Fresh)
  {
  }

  // ------------------------------------------------------------- temporary tables

  /** The temporary table that the event's text creates, or "". */
  function CreatedBy(w: World, e: Event): string {
    match e
    case Given(_, _) => ""
    case Cleaned(_, _, _) => ""
    case Asked(bound, _, _) => w.creates(bound)
    case Queried(bound, _, _) => w.creates(bound)
    case Executed(bound, _, _) => w.creates(bound)
    case Returned(bound, _, _) => w.creates(bound)
  }

  /** The database carried out a drop of the table: the clean-up's or the script's own. */
  predicate Drops(w: World, temps: map<string, string>, e: Event, name: string) {
    match e
    case Cleaned(n, text, count) => n == name && count.Answered? && text == "DROP TABLE IF EXISTS " + w.prefix + name
    case Executed(bound, _, count) => count.Answered? && Dropped(w, bound, Register(w, bound, temps)) == name
    case _ => false
  }

  /** The tables known before the event at k. */
  function KnownAt(w: World, log: seq<Event>, k: nat): map<string, string>
    requires k <= |log|
  {
    Replay(w, Fresh, log[..k]).temps
  }

  /** Every clean-up drops the physical table of its name. */
  predicate CleansRight(w: World, e: Event) {
    e.Cleaned? ==> e.text == "DROP TABLE IF EXISTS " + w.prefix + e.name
  }

  /** A table is known from when its text is seen until it is dropped. */
  lemma KnownUntilDropped(w: World, st: State, e: Event, name: string)
    requires name != "" && (name in st.temps || CreatedBy(w, e) == name) && CleansRight(w, e)
    ensures name in After(w, st, e).temps || Drops(w, st.temps, e, name)
  {
    if e.Executed? && e.count.Answered? {
      var temps := Register(w, e.bound, st.temps);
      assert name in temps;
      if Dropped(w, e.bound, temps) != name { assert name in Forget(temps, Dropped(w, e.bound, temps)); }
    }
  }

  lemma {:induction false} DroppedLater(w: World, log: seq<Event>, k: nat, name: string) returns (m: nat)
    requires k < |log| && name != "" && (name in KnownAt(w, log, k) || CreatedBy(w, log[k]) == name)
    requires KnownAt(w, log, |log|) == map[] && (forall i :: 0 <= i < |log| ==> CleansRight(w, log[i]))
    ensures k <= m < |log| && Drops(w, KnownAt(w, log, m), log[m], name)
    decreases |log| - k
  {
    var st := Replay(w, Fresh, log[..k]);
    KnownUntilDropped(w, st, log[k], name);
    hide Drops, CreatedBy;
    m := k;
    if !Drops(w, KnownAt(w, log, k), log[k], name) {
      assert log[..k + 1] == log[..k] + [log[k]];
      ReplayThen(w, Fresh, log[..k], [log[k]]);
      ReplayOne(w, st, log[k]);
      assert name in KnownAt(w, log, k + 1);
      m := DroppedLater(w, log, k + 1, name);
    }
  }

  /** Every name in the map has its own physical table. */
  predicate Physical(w: World, temps: map<string, string>) {
    forall n :: n in temps ==> temps[n] == w.prefix + n
  }

  lemma {:induction false} PhysicalKept(w: World, st: State, events: seq<Event>)
    requires Physical(w, st.temps)
    ensures Physical(w, Replay(w, st, events).temps)
    decreases |events|
  {
    if events != [] {
      var e := events[0];
      assert Physical(w, After(w, st, e).temps) by { PhysicalAfter(w, st, e); }
      hide After, Physical;
      PhysicalKept(w, After(w, st, e), events[1..]);
    }
  }

  lemma PhysicalAfter(w: World, st: State, e: Event)
    requires Physical(w, st.temps)
    ensures Physical(w, After(w, st, e).temps)
  {
  }

  /** The clean-up only cleans, each name by its physical table. */
  lemma {:induction false} CleanTells(w: World, names: seq<string>, st: State) returns (events: seq<Event>)
    requires Physical(w, st.temps)
    ensures CleanUp(w, names, st).state == Replay(w, st, events)
    ensures forall k :: 0 <= k < |events| ==> events[k].Cleaned? && CleansRight(w, events[k])
    decreases |names|
  {
    if names == [] {
      events := [];
      ReplayNone(w, st);
    } else if names[0] !in st.temps {
      events := CleanTells(w, names[1..], st);
    } else {
      var r := DropOne(w, names[0], st);
      var text := "DROP TABLE IF EXISTS " + st.temps[names[0]];
      var e := Cleaned(names[0], text, w.execute(st.log, text));
      ReplayOne(w, st, e);
      assert text == "DROP TABLE IF EXISTS " + w.prefix + names[0] by { TextAssociates("DROP TABLE IF EXISTS ", w.prefix, names[0]); }
      assert r.state == After(w, st, e) && CleansRight(w, e) && Physical(w, r.state.temps);
      hide After, Replay, Physical, CleansRight, DropOne;
      if r.reply.Refused? {
        events := [e];
      } else {
        var more := CleanTells(w, names[1..], r.state);
        events := [e] + more;
        ReplayThen(w, st, [e], more);
      }
    }
  }

  lemma TextAssociates(a: string, b: string, c: string)
    ensures a + (b + c) == a + b + c
  {
  }

  /** An invocation up to the clean-up, as events that are no clean-ups. */
  lemma {:induction false} ArgumentsTell(w: World, arguments: seq<Argument>, st: State) returns (events: seq<Event>)
    ensures BindArguments(w, arguments, st).state == Replay(w, st, events) && NoClean(events)
    decreases |arguments|
  {
    hide Scalar, Replay, Upper, NoClean;
    events := [];
    ReplayNone(w, st);
    NoneClean();
    if arguments != [] {
      var asked := ScalarTells(w, st, arguments[0].text, false);
      var r := Scalar(w, st, arguments[0].text, false);
      QuietClean(asked);
      events := asked;
      if r.reply.Answered? {
        var e := Given(Upper(arguments[0].name), r.reply.value);
        GiveReplays(w, st, asked, r.state, e);
        var more := ArgumentsTell(w, arguments[1..], Give(r.state, e.name, e.value));
        ReplayThen(w, st, asked + [e], more);
        CleanThenClean(asked + [e], more);
        events := asked + [e] + more;
      }
    }
  }

  predicate NoClean(events: seq<Event>) { forall k :: 0 <= k < |events| ==> !events[k].Cleaned? }

  lemma NoneClean()
    ensures NoClean([])
  {
  }

  lemma QuietClean(events: seq<Event>)
    requires forall k :: 0 <= k < |events| ==> events[k].Asked?
    ensures NoClean(events)
  {
  }

  lemma CleanThenClean(a: seq<Event>, b: seq<Event>)
    requires NoClean(a) && NoClean(b)
    ensures NoClean(a + b)
  {
  }

  lemma GiveReplays(w: World, st: State, asked: seq<Event>, mid: State, e: Event)
    requires mid == Replay(w, st, asked) && e.Given? && NoClean(asked)
    ensures Give(mid, e.name, e.value) == Replay(w, st, asked + [e]) && NoClean(asked + [e])
  {
    hide Replay;
    ReplayThen(w, st, asked, [e]);
    ReplayOne(w, mid, e);
  }

  lemma {:induction false} DeclaresTell(w: World, ds: seq<Declaration>, st: State) returns (events: seq<Event>)
    ensures Declare(w, ds, st).state == Replay(w, st, events) && NoClean(events)
    decreases |ds|
  {
    hide Scalar, Replay, NoClean;
    events := [];
    ReplayNone(w, st);
    NoneClean();
    if ds != [] && ds[0].name !in st.vars {
      var asked, v, mid := [], Nil, st;
      if ds[0].defaultSql != "" {
        asked := ScalarTells(w, st, ds[0].defaultSql, true);
        QuietClean(asked);
        mid := Scalar(w, st, ds[0].defaultSql, true).state;
        if Scalar(w, st, ds[0].defaultSql, true).reply.Refused? { return asked; }
        v := Scalar(w, st, ds[0].defaultSql, true).reply.value;
      }
      var e := Given(ds[0].name, v);
      GiveReplays(w, st, asked, mid, e);
      var more := DeclaresTell(w, ds[1..], Give(mid, e.name, e.value));
      ReplayThen(w, st, asked + [e], more);
      CleanThenClean(asked + [e], more);
      events := asked + [e] + more;
    }
  }

  lemma ExplainedClean(reply: Reply<Flow>, events: seq<Event>)
    requires Explained(reply, events)
    ensures NoClean(events)
  {
  }

  lemma StmtsReplay(w: World, ss: Stmts, st: State) returns (events: seq<Event>)
    ensures RunStmts(w, ss, st).state == Replay(w, st, events) && NoClean(events)
  {
    events := StmtsTell(w, ss, st);
    hide Replay, RunStmts;
    ExplainedClean(RunStmts(w, ss, st).reply, events);
  }

  lemma RaisedReplays(w: World, st: State, message: string) returns (events: seq<Event>)
    ensures Raised(st, message) == Replay(w, st, events) && NoClean(events)
  {
    hide Replay, Give, NoClean;
    ReplayNone(w, st);
    NoneClean();
    var a, b, c := Given("SQLCODE", Number(-1)), Given("SQLSTATE", Text("XX000")), Given("SQLERRM", Text(message));
    GiveReplays(w, st, [], st, a);
    var x := Give(st, a.name, a.value);
    GiveReplays(w, st, [] + [a], x, b);
    GiveReplays(w, st, [] + [a] + [b], Give(x, b.name, b.value), c);
    events := [] + [a] + [b] + [c];
  }

  lemma Chain(w: World, st: State, a: seq<Event>, mid: State, b: seq<Event>, end: State) returns (events: seq<Event>)
    requires mid == Replay(w, st, a) && end == Replay(w, mid, b) && NoClean(a) && NoClean(b)
    ensures end == Replay(w, st, events) && NoClean(events)
  {
    ReplayThen(w, st, a, b);
    CleanThenClean(a, b);
    events := a + b;
  }

  lemma BodyReplays(w: World, script: Script, st: State) returns (events: seq<Event>)
    ensures RunBody(w, script, st).state == Replay(w, st, events) && NoClean(events)
  {
    hide RunStmts, Replay, NoClean, Raised;
    events := StmtsReplay(w, script.body, st);
    var r := RunStmts(w, script.body, st);
    if r.reply.Refused? && script.handler != Done {
      var raised := Raised(r.state, r.reply.message);
      var more := RaisedReplays(w, r.state, r.reply.message);
      events := Chain(w, st, events, r.state, more, raised);
      more := StmtsReplay(w, script.handler, raised);
      events := Chain(w, st, events, raised, more, RunStmts(w, script.handler, raised).state);
    }
  }

  lemma InvokeReplays(w: World, script: Script, arguments: seq<Argument>, st: State) returns (events: seq<Event>)
    ensures Invoke(w, script, arguments, st).state == Replay(w, st, events) && NoClean(events)
  {
    hide BindArguments, Declare, RunBody, Replay, NoClean;
    events := ArgumentsTell(w, arguments, st);
    var a := BindArguments(w, arguments, st);
    if a.reply.Answered? {
      var more := DeclaresTell(w, script.declarations, a.state);
      var d := Declare(w, script.declarations, a.state);
      events := Chain(w, st, events, a.state, more, d.state);
      if d.reply.Answered? {
        more := BodyReplays(w, script, d.state);
        events := Chain(w, st, events, d.state, more, RunBody(w, script, d.state).state);
      }
    }
  }

  /** A whole execution, as Execute performs it: the invocation, then the clean-up. */
  function WholeRun(w: World, script: Script, arguments: seq<Argument>, names: seq<string>): Eval<()> {
    CleanUp(w, names, Invoke(w, script, arguments, Fresh).state)
  }

  /** When the clean-up gets through, every temporary table that any text of the run created
      was dropped at that point or later, on every way out of the procedure. */
  lemma EveryTemporaryIsDropped(w: World, script: Script, arguments: seq<Argument>, names: seq<string>, k: nat)
    requires var end := WholeRun(w, script, arguments, names).state;
             end.temps == map[] && k < |end.log| && CreatedBy(w, end.log[k]) != ""
    ensures var end := WholeRun(w, script, arguments, names).state;
            var name := CreatedBy(w, end.log[k]);
            exists m :: k <= m < |end.log| && Drops(w, KnownAt(w, end.log, m), end.log[m], name)
  {
    hide Invoke, CleanUp, Replay, CreatedBy, Drops, Physical, CleansRight;
    var mid := Invoke(w, script, arguments, Fresh).state;
    var a := InvokeReplays(w, script, arguments, Fresh);
    FreshPhysical(w);
    PhysicalKept(w, Fresh, a);
    var b := CleanTells(w, names, mid);
    var end := CleanUp(w, names, mid).state;
    ReplayThen(w, Fresh, a, b);
    ReplayLog(w, Fresh, a + b);
    assert end.log == a + b;
    RightBefore(w, a);
    assert end.log[..|end.log|] == end.log;
    var m := DroppedLater(w, end.log, k, CreatedBy(w, end.log[k]));
  }

  lemma FreshPhysical(w: World)
    ensures Physical(w, Fresh.temps)
  {
  }

  lemma RightBefore(w: World, a: seq<Event>)
    requires NoClean(a)
    ensures forall k :: 0 <= k < |a| ==> CleansRight(w, a[k])
  {
  }

  // ------------------------------------------------------------- which branch

  function BranchCount(branches: Branches): nat {
    match branches case NoBranch => 0 case Branch(_, _, others) => 1 + BranchCount(others)
  }

  function BranchAt(branches: Branches, k: nat): Branches
    requires k <= BranchCount(branches)
    ensures BranchAt(branches, k).Branch? <==> k < BranchCount(branches)
  {
    if k == 0 then branches else BranchAt(branches.others, k - 1)
  }

  /** The values of the first n branches, evaluated one after the other. */
  function BranchValues(w: World, branches: Branches, n: nat, st: State): Eval<seq<Value>>
    requires n <= BranchCount(branches)
    decreases n
  {
    if n == 0 then Eval(Answered([]), st)
    else
      var before := BranchValues(w, branches, n - 1, st);
      if before.reply.Refused? then before
      else
        var v := Scalar(w, before.state, BranchAt(branches, n - 1).value, true);
        match v.reply
        case Refused(m) => Eval(Refused(m), v.state)
        case Answered(x) => Eval(Answered(before.reply.value + [x]), v.state)
  }

  predicate NoneEquals(x: Value, values: seq<Value>) { forall k :: 0 <= k < |values| ==> !SameValue(x, values[k]) }

  /** CASE runs the first branch whose value equals the subject, having evaluated the values up
      to it and no others. */
  lemma CaseTakesFirstMatch(w: World, s: Stmt, x: Value, n: nat, st: State)
    requires s.Case? && n < BranchCount(s.branches)
    requires var vs := BranchValues(w, s.branches, n, st); vs.reply.Answered? && NoneEquals(x, vs.reply.value)
    ensures var v := Scalar(w, BranchValues(w, s.branches, n, st).state, BranchAt(s.branches, n).value, true);
            var r := RunBranches(w, s, s.branches, x, st);
            && (v.reply.Refused? ==> r.reply.Refused? && r.state == v.state)
            && (v.reply.Answered? && SameValue(x, v.reply.value) ==> r == RunStmts(w, BranchAt(s.branches, n).body, v.state))
  {
    BranchesPassed(w, s, x, n, st);
    hide *;
    OneBranch(w, s, BranchAt(s.branches, n), x, BranchValues(w, s.branches, n, st).state);
  }

  /** With no such branch it runs the ELSE branch, after all the values. */
  lemma CaseWithoutMatch(w: World, s: Stmt, x: Value, st: State)
    requires s.Case?
    requires var vs := BranchValues(w, s.branches, BranchCount(s.branches), st); vs.reply.Answered? && NoneEquals(x, vs.reply.value)
    ensures RunBranches(w, s, s.branches, x, st)
            == RunStmts(w, s.elseBranch, BranchValues(w, s.branches, BranchCount(s.branches), st).state)
  {
    BranchesPassed(w, s, x, BranchCount(s.branches), st);
    hide Scalar, RunStmts, BranchValues, SameValue, NoneEquals;
  }

  /** Branches whose values differ are passed over. */
  lemma {:induction false} BranchesPassed(w: World, s: Stmt, x: Value, n: nat, st: State)
    requires s.Case? && n <= BranchCount(s.branches)
    requires var vs := BranchValues(w, s.branches, n, st); vs.reply.Answered? && NoneEquals(x, vs.reply.value)
    ensures |BranchValues(w, s.branches, n, st).reply.value| == n && Within(BranchAt(s.branches, n), s)
    ensures RunBranches(w, s, s.branches, x, st) == RunBranches(w, s, BranchAt(s.branches, n), x, BranchValues(w, s.branches, n, st).state)
    decreases n
  {
    hide Scalar, RunStmts, SameValue, Wrap;
    if n > 0 {
      var before, vs := BranchValues(w, s.branches, n - 1, st), BranchValues(w, s.branches, n, st);
      var here := BranchAt(s.branches, n - 1);
      var v := Scalar(w, before.state, here.value, true);
      LastValue(w, s.branches, n, st);
      assert vs.reply.value == before.reply.value + [v.reply.value] && vs.state == v.state;
      NoneBefore(x, before.reply.value, vs.reply.value);
      BranchNext(s.branches, n - 1);
      hide BranchValues, BranchAt;
      BranchesPassed(w, s, x, n - 1, st);
      assert !SameValue(x, vs.reply.value[n - 1]);
      OneBranch(w, s, here, x, before.state);
    }
  }

  lemma LastValue(w: World, branches: Branches, n: nat, st: State)
    requires 0 < n <= BranchCount(branches) && BranchValues(w, branches, n, st).reply.Answered?
    ensures var before := BranchValues(w, branches, n - 1, st);
            && before.reply.Answered?
            && var v := Scalar(w, before.state, BranchAt(branches, n - 1).value, true);
               v.reply.Answered? && BranchValues(w, branches, n, st) == Eval(Answered(before.reply.value + [v.reply.value]), v.state)
  {
    hide Scalar;
  }

  /** One branch of a CASE. */
  lemma OneBranch(w: World, s: Stmt, here: Branches, x: Value, st: State)
    requires Within(here, s) && here.Branch?
    ensures Within(here.others, s)
    ensures var v := Scalar(w, st, here.value, true); var r := RunBranches(w, s, here, x, st);
            if v.reply.Refused? then r.reply.Refused? && r.state == v.state
            else if SameValue(x, v.reply.value) then r == RunStmts(w, here.body, v.state)
            else r == RunBranches(w, s, here.others, x, v.state)
  {
    hide Scalar, RunStmts, SameValue;
  }

  lemma NoneBefore(x: Value, a: seq<Value>, b: seq<Value>)
    requires a <= b && NoneEquals(x, b)
    ensures NoneEquals(x, a)
  {
  }

  lemma {:induction false} BranchNext(branches: Branches, k: nat)
    requires k < BranchCount(branches)
    ensures BranchAt(branches, k + 1) == BranchAt(branches, k).others
    decreases k
  {
    if k > 0 { BranchNext(branches.others, k - 1); }
  }
}
