/** How long a session is handed out, and under which token: to its clients the two indexes, the
    sessions being created and the stored rows are one record for each session. */
module SessionLives {
  import opened Sessions
  import opened SessionSafety

  /** A live session: what memory shows of it, and when its row was last touched. */
  datatype Life = Life(info: Info, stored: int)

  function Row(l: Life): Info { l.info.(lastAccess := l.stored) }

  predicate Lives(w: World, k: Token, l: Life) {
    && k != "" && l.info.token != "" && l.info.master == k && k !in w.pending
    && k in w.masters && w.masters[k] == l.info
    && l.info.token in w.sessions && w.sessions[l.info.token] == l.info
    && l.info.token in w.rows && w.rows[l.info.token] == Row(l)
  }

  // ------------------------------------------------------------- one record for each session

  /** The event neither closes the session nor reads a clock past the end of its token or of its
      master token. */
  predicate Calm(l: Life, e: Event) {
    match e
    case Inspect(t, now) => t == l.info.token ==> now <= l.info.expiresAt
    case Finish(t, now, later) => t == l.info.token ==> later <= l.info.expiresAt
    case Heartbeat(t, now, _) => t == l.info.token ==> now <= l.info.expiresAt
    case Close(t, _) => t != l.info.token
    case Cleanup(now) => now <= l.info.expiresAt
    case Restart(now) => now <= l.info.expiresAt
    case Renew(m, t, now, _, _) => m == l.info.master ==> t != "" && now <= l.info.createdAt + l.info.masterValidity
    case _ => true
  }

  function Next(l: Life, e: Event): Life {
    var i := l.info;
    match e
    case Touch(t, now) => if t == i.token then Life(i, now) else l
    case Finish(t, now, _) => if t == i.token && now > i.lastAccess then Life(i.(lastAccess := now), l.stored) else l
    case UpdateContext(t, database, schema, now, ok) =>
      if t == i.token && ok then
        Life(i.(database := if database == "" then i.database else database,
                schema := if schema == "" then i.schema else schema, lastAccess := now), now)
      else l
    case SetWarehouse(t, warehouse, ok) =>
      if t == i.token && ok then Life(i.(warehouse := warehouse), i.lastAccess) else l
    case Renew(m, t, now, timeout, ok) =>
      if m == i.master && ok then Life(i.(token := t, lastAccess := now, expiresAt := now + timeout), now) else l
    case Heartbeat(t, now, ok) => if t == i.token && ok then Life(i.(lastAccess := now), now) else l
    case Restart(_) => Life(Row(l), l.stored)
    case _ => l
  }

  /** The event hands the session out, or acts for it. */
  predicate Served(l: Life, e: Event) {
    match e
    case Inspect(t, _) => t == l.info.token
    case Finish(t, _, _) => t == l.info.token
    case UpdateContext(t, _, _, _, ok) => t == l.info.token && ok
    case SetWarehouse(t, _, ok) => t == l.info.token && ok
    case Heartbeat(t, _, ok) => t == l.info.token && ok
    case Renew(m, _, _, _, ok) => m == l.info.master && ok
    case _ => false
  }

  /** One step does to the record what the event says, and answers for it accordingly. */
  ghost predicate Agrees(w: World, e: Event, k: Token, l: Life) {
    var r := Step(w, e);
    Lives(r.0, k, Next(l, e)) && (r.1 == Yields(k) <==> Served(l, e))
  }

  // ------------------------------------------------------------- every step agrees

  /** No other session in memory has this session's master token. */
  lemma Others(w: World, k: Token, l: Life)
    requires Inv(w) && Lives(w, k, l)
    ensures forall t :: t in w.sessions && w.sessions[t].master == k ==> t == l.info.token
    ensures forall m :: m in w.masters && m != k ==> w.masters[m].token != l.info.token
    ensures forall m :: m in w.masters ==> w.masters[m].master == m
    ensures forall m :: m in w.pending ==> w.pending[m].token != l.info.token && w.pending[m].master == m
    ensures forall t :: t in w.sessions ==> w.sessions[t].token == t
  {
  }

  lemma ChangeElsewhere(w: World, info: Info, k: Token, l: Life)
    requires Lives(w, k, l) && info.master != k && info.token != l.info.token
    ensures Lives(Change(w, info), k, l) && Lives(Change(w, info).(rows := w.rows[info.token := info]), k, l)
  {
  }

  lemma TouchAgrees(w: World, token: Token, now: int, k: Token, l: Life)
    requires Lives(w, k, l)
    ensures Lives(w.(rows := TouchRow(w.rows, token, now)), k, Next(l, Touch(token, now)))
  {
  }

  lemma EvictElsewhere(w: World, gone: set<Token>, k: Token, l: Life)
    requires Lives(w, k, l) && l.info.token !in gone
    ensures Lives(w.(sessions := w.sessions - gone), k, l)
  {
  }

  lemma ArrivalAgrees(w: World, e: Event, k: Token, l: Life)
    requires Inv(w) && Allowed(w, e) && Lives(w, k, l) && (e.Publish? || e.Stored?)
    ensures Agrees(w, e, k, l)
  {
    Others(w, k, l);
    hide Inv;
  }

  lemma InspectAgrees(w: World, token: Token, now: int, k: Token, l: Life)
    requires Inv(w) && Lives(w, k, l) && Calm(l, Inspect(token, now))
    ensures Agrees(w, Inspect(token, now), k, l)
  {
    Others(w, k, l);
    hide Inv;
    if token != l.info.token { EvictElsewhere(w, {token}, k, l); }
  }

  lemma FinishAgrees(w: World, token: Token, now: int, later: int, k: Token, l: Life)
    requires Inv(w) && Lives(w, k, l) && Calm(l, Finish(token, now, later))
    ensures Agrees(w, Finish(token, now, later), k, l)
  {
    Others(w, k, l);
    hide Inv, Change;
    if token == l.info.token {
      AccessHere(w, now, k, l);
    } else if token in w.sessions {
      ChangeElsewhere(w, w.sessions[token].(lastAccess := now), k, l);
    }
  }

  /** The session itself is used, in memory only. */
  lemma AccessHere(w: World, now: int, k: Token, l: Life)
    requires Lives(w, k, l)
    ensures Lives(Change(w, l.info.(lastAccess := now)), k, Life(l.info.(lastAccess := now), l.stored))
  {
  }

  /** The session itself changes, and its row with it. */
  lemma ChangeHere(w: World, info: Info, k: Token, l: Life)
    requires Lives(w, k, l) && info.token == l.info.token && info.master == k
    ensures Lives(Change(w, info).(rows := w.rows[info.token := info]), k, Life(info, info.lastAccess))
  {
  }

  lemma SaveAgrees(w: World, e: Event, k: Token, l: Life)
    requires Inv(w) && Lives(w, k, l) && (e.UpdateContext? || e.SetWarehouse?)
    ensures Agrees(w, e, k, l)
  {
    Others(w, k, l);
    hide Inv, Change;
    if e.token in w.sessions {
      var was := w.sessions[e.token];
      var info := match e
        case UpdateContext(_, database, schema, now, _) =>
          was.(database := if database != "" then database else was.database,
               schema := if schema != "" then schema else was.schema, lastAccess := now)
        case SetWarehouse(_, warehouse, _) => was.(warehouse := warehouse);
      if e.token == l.info.token { ChangeHere(w, info, k, l); } else { ChangeElsewhere(w, info, k, l); }
    }
  }

  lemma HeartbeatAgrees(w: World, token: Token, now: int, ok: bool, k: Token, l: Life)
    requires Inv(w) && Lives(w, k, l) && Calm(l, Heartbeat(token, now, ok))
    ensures Agrees(w, Heartbeat(token, now, ok), k, l)
  {
    Others(w, k, l);
    hide Inv, Change, TouchRow;
    if token in w.sessions {
      var info := w.sessions[token].(lastAccess := now);
      if token == l.info.token {
        AccessHere(w, now, k, l);
        ChangeRows(w, info);
        TouchAgrees(Change(w, info), token, now, k, Life(info, l.stored));
      } else {
        EvictElsewhere(w, {token}, k, l);
        ChangeElsewhere(w, info, k, l);
        ChangeRows(w, info);
        TouchAgrees(Change(w, info), token, now, k, l);
      }
    }
  }

  lemma CloseAgrees(w: World, token: Token, ok: bool, k: Token, l: Life)
    requires Inv(w) && Lives(w, k, l) && token != l.info.token
    ensures Agrees(w, Close(token, ok), k, l)
  {
    Others(w, k, l);
    assert token in w.sessions ==> w.sessions[token].master != k;
    hide Inv;
    CloseElsewhere(w, token, ok, k, l);
    hide Lives;
  }

  lemma CloseElsewhere(w: World, token: Token, ok: bool, k: Token, l: Life)
    requires Lives(w, k, l) && token != l.info.token && (token in w.sessions ==> w.sessions[token].master != k)
    ensures Lives(CloseStep(w, token, ok).0, k, l)
  {
  }

  lemma CleanupAgrees(w: World, now: int, k: Token, l: Life)
    requires Lives(w, k, l) && now <= l.info.expiresAt
    ensures Agrees(w, Cleanup(now), k, l)
  {
  }

  lemma RenewAgrees(w: World, m: Token, token: Token, now: int, timeout: int, ok: bool, k: Token, l: Life)
    requires Inv(w) && Lives(w, k, l) && NewToken(w, token) && Calm(l, Renew(m, token, now, timeout, ok))
    ensures Agrees(w, Renew(m, token, now, timeout, ok), k, l)
  {
    if m == k {
      RenewHere(w, token, now, timeout, ok, k, l);
    } else {
      Others(w, k, l);
      RenewElsewhere(w, m, token, now, timeout, ok, k, l);
    }
    hide Inv, Lives, RenewStep, NewToken;
  }

  lemma RenewHere(w: World, token: Token, now: int, timeout: int, ok: bool, k: Token, l: Life)
    requires Lives(w, k, l) && NewToken(w, token) && Calm(l, Renew(k, token, now, timeout, ok))
    ensures var e, r := Renew(k, token, now, timeout, ok), RenewStep(w, k, token, now, timeout, ok);
            Lives(r.0, k, Next(l, e)) && (r.1 == Yields(k) <==> ok)
  {
  }

  lemma RenewElsewhere(w: World, m: Token, token: Token, now: int, timeout: int, ok: bool, k: Token, l: Life)
    requires Lives(w, k, l) && NewToken(w, token) && m != k
    requires m in w.masters ==> w.masters[m].token != l.info.token && w.masters[m].master == m
    ensures var r := RenewStep(w, m, token, now, timeout, ok); Lives(r.0, k, l) && r.1 != Yields(k)
  {
  }

  lemma RestartAgrees(w: World, now: int, k: Token, l: Life)
    requires Inv(w) && Lives(w, k, l) && now <= l.info.expiresAt
    ensures Agrees(w, Restart(now), k, l)
  {
    var live := Live(w.rows, now);
    assert live[l.info.token] == Row(l);
    assert k in Masters(live);
    assert RowOf(live, k) == Row(l);
  }

  /** One step of the two indexes, the sessions being created and the rows is one step of the
      record. */
  lemma StepAgrees(w: World, e: Event, k: Token, l: Life)
    requires Inv(w) && Allowed(w, e) && Lives(w, k, l) && Calm(l, e)
    ensures Agrees(w, e, k, l)
  {
    hide Inv, Lives, RestartStep, RenewStep, CloseStep, TouchRow;
    match e
    case Publish(_) => ArrivalAgrees(w, e, k, l);
    case Stored(_, _) => ArrivalAgrees(w, e, k, l);
    case Inspect(token, now) => InspectAgrees(w, token, now, k, l);
    case Touch(token, now) => TouchAgrees(w, token, now, k, l);
    case Finish(token, now, later) => FinishAgrees(w, token, now, later, k, l);
    case Close(token, ok) => CloseAgrees(w, token, ok, k, l);
    case UpdateContext(_, _, _, _, _) => SaveAgrees(w, e, k, l);
    case SetWarehouse(_, _, _) => SaveAgrees(w, e, k, l);
    case Cleanup(now) => CleanupAgrees(w, now, k, l);
    case Renew(m, token, now, timeout, ok) => RenewAgrees(w, m, token, now, timeout, ok, k, l);
    case Heartbeat(token, now, ok) => HeartbeatAgrees(w, token, now, ok, k, l);
    case Restart(now) => RestartAgrees(w, now, k, l);
  }

  // ------------------------------------------------------------- over runs

  ghost function After(w: World, es: seq<Event>): World
    decreases |es|
  {
    if es == [] then w else After(Step(w, es[0]).0, es[1..])
  }

  function LifeAfter(l: Life, es: seq<Event>): Life
    decreases |es|
  {
    if es == [] then l else LifeAfter(Next(l, es[0]), es[1..])
  }

  /** Where in the run the session is handed out. */
  function ServedAt(l: Life, es: seq<Event>): (r: seq<bool>)
    ensures |r| == |es|
    decreases |es|
  {
    if es == [] then [] else [Served(l, es[0])] + ServedAt(Next(l, es[0]), es[1..])
  }

  predicate AllCalm(l: Life, es: seq<Event>)
    decreases |es|
  {
    es == [] || (Calm(l, es[0]) && AllCalm(Next(l, es[0]), es[1..]))
  }

  /** What clients do, without assumptions about one session. */
  ghost predicate Clients(w: World, es: seq<Event>)
    decreases |es|
  {
    es == [] || (Allowed(w, es[0]) && Clients(Step(w, es[0]).0, es[1..]))
  }

  /** As long as the session is neither closed nor asked for too late, every run does to it what
      the same run does to the record: token, end, context and accesses, through renewals and
      restarts. Exactly the events that the record serves are answered with the session. */
  lemma {:induction false} RunAgrees(w: World, es: seq<Event>, k: Token, l: Life)
    requires Inv(w) && Lives(w, k, l) && Clients(w, es) && AllCalm(l, es)
    ensures Inv(After(w, es)) && Lives(After(w, es), k, LifeAfter(l, es))
    ensures forall i :: 0 <= i < |es| ==> (Replies(w, es)[i] == Yields(k) <==> ServedAt(l, es)[i])
    decreases |es|
  {
    hide Inv, Lives, Step, Allowed, Calm, Next, Served;
    if es != [] {
      StepAgrees(w, es[0], k, l);
      StepKeeps(w, es[0]);
      RunAgrees(Step(w, es[0]).0, es[1..], k, Next(l, es[0]));
    }
  }

  // ------------------------------------------------------------- after a renewal

  /** The event issues the token. */
  predicate Issues(e: Event, token: Token) {
    match e
    case Publish(info) => info.token == token
    case Renew(_, t, _, _, _) => t == token
    case _ => false
  }

  predicate Issued(es: seq<Event>, token: Token) { exists i :: 0 <= i < |es| && Issues(es[i], token) }

  /** The event neither closes the token nor renews the session. */
  predicate Undisturbing(e: Event, k: Token, token: Token) {
    match e
    case Close(t, _) => t != token
    case Renew(m, _, _, _, _) => m != k
    case _ => true
  }

  /** The latest clock that the event reads to see whether sessions have expired. */
  predicate ReadBy(e: Event, at: int) {
    match e
    case Inspect(_, now) => now <= at
    case Finish(_, _, later) => later <= at
    case Heartbeat(_, now, _) => now <= at
    case Cleanup(now) => now <= at
    case Restart(now) => now <= at
    case _ => true
  }

  lemma NextKeeps(l: Life, e: Event)
    requires Undisturbing(e, l.info.master, l.info.token)
    ensures var n := Next(l, e).info;
            n.token == l.info.token && n.master == l.info.master && n.expiresAt == l.info.expiresAt
  {
  }

  /** Nothing but a close or a renewal cuts a session short. */
  lemma {:induction false} Lasts(w: World, es: seq<Event>, k: Token, l: Life, at: int)
    requires Inv(w) && Lives(w, k, l) && Clients(w, es) && at <= l.info.expiresAt
    requires forall i :: 0 <= i < |es| ==> Undisturbing(es[i], k, l.info.token) && ReadBy(es[i], at)
    ensures var v := After(w, es);
            Step(v, Inspect(l.info.token, at)).1 == Yields(k) && forall now :: Step(v, Finish(l.info.token, now, at)).1 == Yields(k)
    decreases |es|
  {
    if es != [] {
      assert l.info.master == k;
      assert Undisturbing(es[0], k, l.info.token) && ReadBy(es[0], at) && Calm(l, es[0]);
      NextKeeps(l, es[0]);
      hide Inv, Lives, Step, Allowed, Calm, Next, Undisturbing, ReadBy;
      StepAgrees(w, es[0], k, l);
      StepKeeps(w, es[0]);
      Lasts(Step(w, es[0]).0, es[1..], k, Next(l, es[0]), at);
    }
  }

  lemma RenewedStarts(w: World, k: Token, token: Token, now: int, timeout: int)
    requires Inv(w) && Allowed(w, Renew(k, token, now, timeout, true)) && token != ""
    requires Step(w, Renew(k, token, now, timeout, true)).1 == Yields(k)
    ensures var info := w.masters[k].(token := token, lastAccess := now, expiresAt := now + timeout);
            Lives(Step(w, Renew(k, token, now, timeout, true)).0, k, Life(info, now))
  {
    assert k in w.masters && w.masters[k].master == k;
    assert w.masters[k].token != token;
    hide Inv;
  }

  /** A renewal at `now` is good until `now` plus the timeout: through every run without a close
      or another renewal of the session, restarts included, its new token is answered with the
      session at every time up to then. */
  lemma RenewedLives(w: World, k: Token, token: Token, now: int, timeout: int, es: seq<Event>, at: int)
    requires Inv(w) && Allowed(w, Renew(k, token, now, timeout, true)) && token != ""
    requires Step(w, Renew(k, token, now, timeout, true)).1 == Yields(k)
    requires Clients(Step(w, Renew(k, token, now, timeout, true)).0, es)
    requires forall i :: 0 <= i < |es| ==> Undisturbing(es[i], k, token) && ReadBy(es[i], at)
    requires at <= now + timeout
    ensures var v := After(Step(w, Renew(k, token, now, timeout, true)).0, es);
            Step(v, Inspect(token, at)).1 == Yields(k) && forall n :: Step(v, Finish(token, n, at)).1 == Yields(k)
  {
    hide Inv, Lives, Allowed, Clients, Undisturbing, ReadBy;
    RenewedStarts(w, k, token, now, timeout);
    StepKeeps(w, Renew(k, token, now, timeout, true));
    var info := w.masters[k].(token := token, lastAccess := now, expiresAt := now + timeout);
    hide Step;
    Lasts(Step(w, Renew(k, token, now, timeout, true)).0, es, k, Life(info, now), at);
  }

  /** Wherever the token still is, it ends at the same time. */
  predicate Ends(w: World, token: Token, d: int) {
    && (token in w.sessions ==> w.sessions[token].expiresAt == d)
    && (forall m :: m in w.masters && w.masters[m].token == token ==> w.masters[m].expiresAt == d)
    && (token in w.rows ==> w.rows[token].expiresAt == d)
  }

  /** Events of a client with an access token: at most the session of that token changes, keeping
      its tokens and its end, or leaves the access index. */
  predicate OwnEvent(e: Event) { e.Inspect? || e.Finish? || e.UpdateContext? || e.SetWarehouse? || e.Heartbeat? }

  lemma OwnShape(w: World, e: Event) returns (info: Info, now: int)
    requires OwnEvent(e) && e.token in w.sessions && w.sessions[e.token].token == e.token
    ensures var was := w.sessions[e.token];
            info.token == e.token && info.master == was.master && info.expiresAt == was.expiresAt
    ensures var v, u := Step(w, e).0, Change(w, info);
            || v == w || v == w.(sessions := w.sessions - {e.token}) || v == u
            || v == u.(rows := w.rows[info.token := info]) || v == u.(rows := TouchRow(u.rows, e.token, now))
  {
    hide TouchRow;
    var was := w.sessions[e.token];
    now := 0;
    match e
    case UpdateContext(_, database, schema, at, _) =>
      info := was.(database := if database != "" then database else was.database,
                   schema := if schema != "" then schema else was.schema, lastAccess := at);
    case SetWarehouse(_, warehouse, _) => info := was.(warehouse := warehouse);
    case Finish(_, at, _) => info := was.(lastAccess := at);
    case Inspect(_, _) => info := was;
    case Heartbeat(_, at, _) => info, now := was.(lastAccess := at), at;
  }

  lemma OwnUnheard(w: World, e: Event)
    requires OwnEvent(e) && e.token !in w.sessions
    ensures Step(w, e) == (w, Failed)
  {
  }

  /** Taking entries away. */
  lemma FewerEnds(w: World, v: World, token: Token, d: int)
    requires Ends(w, token, d) && Part(v.sessions, w.sessions) && Part(v.masters, w.masters) && Part(v.rows, w.rows)
    ensures Ends(v, token, d)
  {
  }

  /** A session that keeps its token and its end changes, in memory or in its row too. */
  lemma ChangeEnds(w: World, info: Info, token: Token, d: int)
    requires Ends(w, token, d) && (info.token == token ==> info.expiresAt == d)
    ensures Ends(Change(w, info), token, d) && Ends(Change(w, info).(rows := w.rows[info.token := info]), token, d)
  {
  }

  lemma TouchEnds(w: World, t: Token, now: int, token: Token, d: int)
    requires Ends(w, token, d)
    ensures Ends(w.(rows := TouchRow(w.rows, t, now)), token, d)
  {
  }

  lemma ArrivalEnds(w: World, e: Event, token: Token, d: int)
    requires Inv(w) && Ends(w, token, d) && !Issues(e, token) && (e.Publish? || e.Stored?)
    ensures Ends(Step(w, e).0, token, d)
  {
    assert forall k :: k in w.pending ==> k in w.masters && w.masters[k] == w.pending[k];
    hide Inv;
  }

  lemma OwnEnds(w: World, e: Event, token: Token, d: int)
    requires Inv(w) && Ends(w, token, d) && OwnEvent(e)
    ensures Ends(Step(w, e).0, token, d)
  {
    if e.token in w.sessions {
      assert w.sessions[e.token].token == e.token;
      SessionEnds(w, e.token, token, d);
      hide Inv, Change, Ends, TouchRow, Step;
      var info, now := OwnShape(w, e);
      var u := Change(w, info);
      FewerEnds(w, w.(sessions := w.sessions - {e.token}), token, d);
      ChangeEnds(w, info, token, d);
      TouchEnds(u, e.token, now, token, d);
    } else {
      OwnUnheard(w, e);
    }
  }

  lemma SessionEnds(w: World, t: Token, token: Token, d: int)
    requires Ends(w, token, d) && t in w.sessions
    ensures t == token ==> w.sessions[t].expiresAt == d
  {
  }

  lemma RenewEnds(w: World, k: Token, t: Token, now: int, timeout: int, ok: bool, token: Token, d: int)
    requires Ends(w, token, d) && t != token
    ensures Ends(RenewStep(w, k, t, now, timeout, ok).0, token, d)
  {
  }

  lemma RestartEnds(w: World, now: int, token: Token, d: int)
    requires RowsOk(w) && Ends(w, token, d)
    ensures Ends(RestartStep(w, now), token, d)
  {
    RestartMasters(w, now);
    LiveFacts(w.rows, now);
    hide RowsOk, Live, RestartStep;
  }

  lemma CloseEnds(w: World, t: Token, ok: bool, token: Token, d: int)
    requires Ends(w, token, d)
    ensures Ends(CloseStep(w, t, ok).0, token, d)
  {
  }

  /** A token that is not issued again never gets another end. */
  lemma StepEnds(w: World, e: Event, token: Token, d: int)
    requires Inv(w) && Ends(w, token, d) && !Issues(e, token)
    ensures Ends(Step(w, e).0, token, d)
  {
    assert RowsOk(w);
    hide Inv, Ends, RestartStep, RenewStep, CloseStep, TouchRow, RowsOk;
    match e
    case Publish(_) => ArrivalEnds(w, e, token, d);
    case Stored(_, _) => ArrivalEnds(w, e, token, d);
    case Touch(t, now) => TouchEnds(w, t, now, token, d);
    case Close(t, ok) => CloseEnds(w, t, ok, token, d);
    case Cleanup(now) => FewerEnds(w, CleanupStep(w, now), token, d);
    case Renew(k, t, now, timeout, ok) => RenewEnds(w, k, t, now, timeout, ok, token, d);
    case Restart(now) => RestartEnds(w, now, token, d);
    case _ => OwnEnds(w, e, token, d);
  }

  lemma {:induction false} RunEnds(w: World, es: seq<Event>, token: Token, d: int)
    requires Inv(w) && Ends(w, token, d) && Clients(w, es) && !Issued(es, token)
    ensures Ends(After(w, es), token, d)
    decreases |es|
  {
    hide Inv, Ends, Step, Allowed;
    if es != [] {
      assert !Issues(es[0], token);
      assert forall i :: 0 <= i < |es[1..]| ==> es[1..][i] == es[i + 1];
      StepEnds(w, es[0], token, d);
      StepKeeps(w, es[0]);
      RunEnds(Step(w, es[0]).0, es[1..], token, d);
    }
  }

  /** And not a moment longer: whatever happens afterwards, restarts and failed closes included,
      the token is refused later than `now` plus the timeout. */
  lemma RenewedEnds(w: World, k: Token, token: Token, now: int, timeout: int, es: seq<Event>, at: int)
    requires Inv(w) && Allowed(w, Renew(k, token, now, timeout, true)) && token != ""
    requires Step(w, Renew(k, token, now, timeout, true)).1 == Yields(k)
    requires Clients(Step(w, Renew(k, token, now, timeout, true)).0, es) && !Issued(es, token)
    requires at > now + timeout
    ensures var v := After(Step(w, Renew(k, token, now, timeout, true)).0, es);
            && Step(v, Inspect(token, at)).1 == Failed
            && (forall n :: Step(v, Finish(token, n, at)).1 == Failed)
            && forall ok :: Step(v, Heartbeat(token, at, ok)).1 == Failed
  {
    hide Inv, Lives, Allowed, Clients, Issued;
    RenewedStarts(w, k, token, now, timeout);
    StepKeeps(w, Renew(k, token, now, timeout, true));
    var v := Step(w, Renew(k, token, now, timeout, true)).0;
    var info := w.masters[k].(token := token, lastAccess := now, expiresAt := now + timeout);
    hide Step;
    LifeEnds(v, k, Life(info, now));
    RunEnds(v, es, token, now + timeout);
    RefusedLate(After(v, es), token, now + timeout, at);
  }

  lemma LifeEnds(w: World, k: Token, l: Life)
    requires Inv(w) && Lives(w, k, l)
    ensures Ends(w, l.info.token, l.info.expiresAt)
  {
    Others(w, k, l);
    hide Inv;
  }

  lemma RefusedLate(w: World, token: Token, d: int, at: int)
    requires Ends(w, token, d) && at > d
    ensures Step(w, Inspect(token, at)).1 == Failed
    ensures forall n :: Step(w, Finish(token, n, at)).1 == Failed
    ensures forall ok :: Step(w, Heartbeat(token, at, ok)).1 == Failed
  {
  }

  // ------------------------------------------------------------- the replaced token

  lemma FewerUnknown(w: World, v: World, token: Token)
    requires NewToken(w, token) && Part(v.sessions, w.sessions) && Part(v.masters, w.masters) && Part(v.rows, w.rows)
    ensures NewToken(v, token)
  {
  }

  lemma ChangeUnknown(w: World, info: Info, token: Token)
    requires NewToken(w, token) && info.token != token
    ensures NewToken(Change(w, info), token) && NewToken(Change(w, info).(rows := w.rows[info.token := info]), token)
  {
  }

  lemma TouchUnknown(w: World, t: Token, now: int, token: Token)
    requires NewToken(w, token)
    ensures NewToken(w.(rows := TouchRow(w.rows, t, now)), token)
  {
  }

  lemma ArrivalUnknown(w: World, e: Event, token: Token)
    requires Inv(w) && NewToken(w, token) && !Issues(e, token) && (e.Publish? || e.Stored?)
    ensures NewToken(Step(w, e).0, token)
  {
    assert forall k :: k in w.pending ==> w.pending[k].token != token;
    hide Inv;
  }

  lemma OwnUnknown(w: World, e: Event, token: Token)
    requires Inv(w) && NewToken(w, token) && OwnEvent(e)
    ensures NewToken(Step(w, e).0, token) && (e.token == token ==> Step(w, e).1 == Failed)
  {
    assert token !in w.sessions;
    if e.token in w.sessions {
      assert w.sessions[e.token].token == e.token;
      hide Inv, Change, NewToken, TouchRow, Step;
      var info, now := OwnShape(w, e);
      var u := Change(w, info);
      FewerUnknown(w, w.(sessions := w.sessions - {e.token}), token);
      ChangeUnknown(w, info, token);
      TouchUnknown(u, e.token, now, token);
    } else {
      OwnUnheard(w, e);
    }
  }

  lemma RenewUnknown(w: World, k: Token, t: Token, now: int, timeout: int, ok: bool, token: Token)
    requires NewToken(w, token) && t != token
    ensures NewToken(RenewStep(w, k, t, now, timeout, ok).0, token)
  {
  }

  lemma CloseUnknown(w: World, t: Token, ok: bool, token: Token)
    requires NewToken(w, token)
    ensures NewToken(CloseStep(w, t, ok).0, token)
  {
  }

  /** A token that nobody has stays unknown until it is issued. */
  lemma StepUnknown(w: World, e: Event, token: Token)
    requires Inv(w) && NewToken(w, token) && !Issues(e, token)
    ensures NewToken(Step(w, e).0, token) && (OwnEvent(e) && e.token == token ==> Step(w, e).1 == Failed)
  {
    assert RowsOk(w) && token !in w.rows;
    hide Inv, NewToken, RestartStep, RenewStep, CloseStep, TouchRow, RowsOk;
    match e
    case Publish(_) => ArrivalUnknown(w, e, token);
    case Stored(_, _) => ArrivalUnknown(w, e, token);
    case Touch(t, now) => TouchUnknown(w, t, now, token);
    case Close(t, ok) => CloseUnknown(w, t, ok, token);
    case Cleanup(now) => FewerUnknown(w, CleanupStep(w, now), token);
    case Renew(k, t, now, timeout, ok) => RenewUnknown(w, k, t, now, timeout, ok, token);
    case Restart(now) => RestartUnknown(w, now, token);
    case _ => OwnUnknown(w, e, token);
  }

  lemma RestartUnknown(w: World, now: int, token: Token)
    requires RowsOk(w) && token !in w.rows
    ensures NewToken(RestartStep(w, now), token)
  {
    RestartMasters(w, now);
    LiveFacts(w.rows, now);
  }

  ghost predicate Unanswered(w: World, es: seq<Event>, token: Token) {
    forall i :: 0 <= i < |es| && OwnEvent(es[i]) && es[i].token == token ==> Replies(w, es)[i] == Failed
  }

  lemma {:induction false} StaysUnknown(w: World, es: seq<Event>, token: Token)
    requires Inv(w) && NewToken(w, token) && Clients(w, es) && !Issued(es, token)
    ensures Unanswered(w, es, token)
    decreases |es|
  {
    hide Inv, NewToken, Step, Allowed;
    if es != [] {
      assert !Issues(es[0], token);
      assert forall i :: 0 <= i < |es[1..]| ==> es[1..][i] == es[i + 1];
      StepUnknown(w, es[0], token);
      StepKeeps(w, es[0]);
      StaysUnknown(Step(w, es[0]).0, es[1..], token);
    }
  }

  /** The token that was answered before the renewal is answered with nothing after it, whatever
      happens, unless chance issues it again. */
  lemma ReplacedTokenIsDead(w: World, k: Token, was: Token, before: int, token: Token, now: int, timeout: int, es: seq<Event>)
    requires Inv(w) && Allowed(w, Renew(k, token, now, timeout, true))
    requires Step(w, Inspect(was, before)).1 == Yields(k) && Step(w, Renew(k, token, now, timeout, true)).1 == Yields(k)
    requires Clients(Step(w, Renew(k, token, now, timeout, true)).0, es) && !Issued(es, was)
    ensures Unanswered(Step(w, Renew(k, token, now, timeout, true)).0, es, was)
  {
    assert NewToken(Step(w, Renew(k, token, now, timeout, true)).0, was) by { hide Issued, Clients; Replaced(w, k, was, before, token, now, timeout); }
    StepKeeps(w, Renew(k, token, now, timeout, true));
    hide Inv, NewToken, Step, Allowed, Clients, Issued, Unanswered;
    StaysUnknown(Step(w, Renew(k, token, now, timeout, true)).0, es, was);
  }

  lemma Replaced(w: World, k: Token, was: Token, before: int, token: Token, now: int, timeout: int)
    requires Inv(w) && Allowed(w, Renew(k, token, now, timeout, true))
    requires Step(w, Inspect(was, before)).1 == Yields(k) && Step(w, Renew(k, token, now, timeout, true)).1 == Yields(k)
    ensures NewToken(Step(w, Renew(k, token, now, timeout, true)).0, was)
  {
    assert w.masters[k].token == was && was != token;
  }

  // ------------------------------------------------------------- the master token's end

  /** A renewal after the master token's end takes the session out of memory: its token and its
      master token are refused. Its row stays: if the token itself has not expired, a restart
      brings the session back under it. */
  lemma RenewedTooLate(w: World, k: Token, l: Life, token: Token, now: int, timeout: int, ok: bool)
    requires Inv(w) && Lives(w, k, l) && now > l.info.createdAt + l.info.masterValidity
    ensures var e := Renew(k, token, now, timeout, ok);
            && Step(w, e).1 == Failed
            && (forall at :: Step(Step(w, e).0, Inspect(l.info.token, at)).1 == Failed)
            && (forall t, at, more, saved :: Step(Step(w, e).0, Renew(k, t, at, more, saved)).1 == Failed)
    ensures var v := Step(w, Renew(k, token, now, timeout, ok)).0;
            forall at :: at <= l.info.expiresAt ==> Step(Step(v, Restart(at)).0, Inspect(l.info.token, at)).1 == Yields(k)
  {
    hide Inv;
  }

  // ------------------------------------------------------------- after a creation

  /** The session is in memory and its creation is not answered yet. */
  predicate Arriving(w: World, info: Info) {
    var k := info.master;
    && k in w.pending && w.pending[k] == info && k in w.masters && w.masters[k] == info
    && info.token in w.sessions && w.sessions[info.token] == info
  }

  /** The creation is not answered or lost, and the session does not expire meanwhile. */
  predicate Meanwhile(info: Info, e: Event) {
    match e
    case Stored(k, _) => k != info.master
    case Cleanup(now) => now <= info.expiresAt
    case Restart(_) => false
    case _ => true
  }

  /** No other session has the tokens of the one that arrives, and nobody knows them yet. */
  lemma Apart(w: World, info: Info)
    requires Inv(w) && Arriving(w, info)
    ensures forall t :: t in w.sessions && t != info.token ==> w.sessions[t].master != info.master && w.sessions[t].token == t
    ensures forall m :: m in w.masters && m != info.master ==> w.masters[m].token != info.token && w.masters[m].master == m
    ensures forall m :: m in w.pending && m != info.master ==> w.pending[m].token != info.token
    ensures !Untold(w, info.token)
  {
  }

  lemma ChangeArriving(w: World, other: Info, info: Info)
    requires Arriving(w, info) && other.master != info.master && other.token != info.token
    ensures Arriving(Change(w, other), info) && Arriving(Change(w, other).(rows := w.rows[other.token := other]), info)
  {
  }

  lemma EvictArriving(w: World, gone: set<Token>, info: Info)
    requires Arriving(w, info) && info.token !in gone
    ensures Arriving(w.(sessions := w.sessions - gone), info)
  {
  }

  lemma RowsArriving(w: World, rows: map<Token, Info>, info: Info)
    requires Arriving(w, info)
    ensures Arriving(w.(rows := rows), info)
  {
  }

  lemma OwnArriving(w: World, e: Event, info: Info)
    requires Inv(w) && Arriving(w, info) && Secret(w, e) && OwnEvent(e)
    ensures Arriving(Step(w, e).0, info)
  {
    Apart(w, info);
    if e.token in w.sessions {
      assert w.sessions[e.token].token == e.token && w.sessions[e.token].master != info.master && e.token != info.token;
      hide Inv, Change, Arriving, TouchRow, Secret, Step;
      var other, now := OwnShape(w, e);
      var u := Change(w, other);
      EvictArriving(w, {e.token}, info);
      ChangeArriving(w, other, info);
      RowsArriving(u, TouchRow(u.rows, e.token, now), info);
    } else {
      OwnUnheard(w, e);
    }
  }

  lemma OthersArriving(w: World, e: Event, info: Info)
    requires Inv(w) && Arriving(w, info) && Allowed(w, e) && Meanwhile(info, e)
    requires e.Publish? || e.Stored? || e.Cleanup?
    ensures Arriving(Step(w, e).0, info)
  {
    Apart(w, info);
    hide Inv, Untold, NoRow;
  }

  lemma RenewArriving(w: World, m: Token, token: Token, now: int, timeout: int, ok: bool, info: Info)
    requires Inv(w) && Arriving(w, info) && NewToken(w, token) && m !in w.pending
    ensures Arriving(RenewStep(w, m, token, now, timeout, ok).0, info)
  {
    Apart(w, info);
    hide Inv, Untold;
  }

  lemma CloseArriving(w: World, token: Token, ok: bool, info: Info)
    requires Inv(w) && Arriving(w, info) && Untold(w, token)
    ensures Arriving(CloseStep(w, token, ok).0, info)
  {
    Apart(w, info);
    assert token != info.token;
    ClosedMasters(w, token, ok);
    assert token in w.sessions ==> w.sessions[token].master != info.master;
    hide Inv, Untold;
  }

  lemma StepArriving(w: World, e: Event, info: Info)
    requires Inv(w) && Arriving(w, info) && Allowed(w, e) && Meanwhile(info, e)
    ensures Arriving(Step(w, e).0, info)
  {
    hide Inv, Arriving, RestartStep, RenewStep, CloseStep, TouchRow, NewToken, Untold;
    match e
    case Touch(t, now) => RowsArriving(w, TouchRow(w.rows, t, now), info);
    case Close(t, ok) => CloseArriving(w, t, ok, info);
    case Publish(_) => OthersArriving(w, e, info);
    case Stored(_, _) => OthersArriving(w, e, info);
    case Renew(m, t, now, timeout, ok) => RenewArriving(w, m, t, now, timeout, ok, info);
    case Cleanup(_) => OthersArriving(w, e, info);
    case _ => OwnArriving(w, e, info);
  }

  lemma {:induction false} RunArriving(w: World, es: seq<Event>, info: Info)
    requires Inv(w) && Arriving(w, info) && Clients(w, es) && forall i :: 0 <= i < |es| ==> Meanwhile(info, es[i])
    ensures Inv(After(w, es)) && Arriving(After(w, es), info)
    decreases |es|
  {
    hide Inv, Arriving, Step, Allowed, Meanwhile;
    if es != [] {
      StepArriving(w, es[0], info);
      StepKeeps(w, es[0]);
      RunArriving(Step(w, es[0]).0, es[1..], info);
    }
  }

  /** A session whose creation is stored lives from then on as it was published, whatever
      happened between the two parts of the creation. */
  lemma CreatedLives(w: World, info: Info, es: seq<Event>)
    requires Inv(w) && Allowed(w, Publish(info)) && info.token != "" && info.master != ""
    requires Clients(Step(w, Publish(info)).0, es) && forall i :: 0 <= i < |es| ==> Meanwhile(info, es[i])
    ensures var r := Step(After(Step(w, Publish(info)).0, es), Stored(info.master, true));
            Inv(r.0) && r.1 == Yields(info.master) && Lives(r.0, info.master, Life(info, info.lastAccess))
  {
    var v := Step(w, Publish(info)).0;
    assert Arriving(v, info);
    StepKeeps(w, Publish(info));
    assert v == PublishStep(w, info);
    hide Inv, Arriving, Allowed, Clients, Meanwhile, Step;
    RunArriving(v, es, info);
    StoredLives(After(v, es), info);
  }

  lemma StoredLives(w: World, info: Info)
    requires Inv(w) && Arriving(w, info) && info.token != "" && info.master != ""
    ensures var r := Step(w, Stored(info.master, true));
            Inv(r.0) && r.1 == Yields(info.master) && Lives(r.0, info.master, Life(info, info.lastAccess))
  {
    StepKeeps(w, Stored(info.master, true));
    hide Inv;
  }

  /** A creation that the store refuses leaves nothing to hand out. */
  lemma RefusedNeverYields(w: World, k: Token, es: seq<Event>)
    requires Inv(w) && k in w.pending && AllAllowed(Step(w, Stored(k, false)).0, es, k)
    ensures Step(w, Stored(k, false)).1 == Failed && Yields(k) !in Replies(Step(w, Stored(k, false)).0, es)
  {
    assert Gone(Step(w, Stored(k, false)).0, k);
    StepKeeps(w, Stored(k, false));
    hide Inv, Gone, AllAllowed;
    GoneForGood(Step(w, Stored(k, false)).0, es, k);
  }
}
