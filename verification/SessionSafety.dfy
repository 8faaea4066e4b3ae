/** A session that was closed is never handed out again. */
module SessionSafety {
  import opened Sessions

  // ------------------------------------------------------------- the invariant

  /** Access tokens in use: each belongs to one session, in memory and in the store. */
  predicate OneOwner(w: World) {
    && (forall m, n :: m in w.masters && n in w.masters && w.masters[m].token == w.masters[n].token ==> m == n)
    && (forall m :: m in w.masters && w.masters[m].token in w.rows ==> w.rows[w.masters[m].token].master == m)
  }

  predicate RowsOk(w: World) {
    && OneRowEach(w.rows) && (forall t :: t in w.rows ==> w.rows[t].token == t)
    && (forall t :: t in w.rows && w.rows[t].master in w.masters ==> w.masters[w.rows[t].master].token == t)
  }

  /** A session in the access index is also in the master index. */
  predicate Indexed(w: World) {
    forall t :: t in w.sessions ==> w.sessions[t].master in w.masters && w.masters[w.sessions[t].master] == w.sessions[t]
  }

  predicate NoRow(w: World, k: Token) { forall t :: t in w.rows ==> w.rows[t].master != k }

  /** A session that is still being created is in memory and has no row. */
  predicate PendingOk(w: World) {
    forall k :: k in w.pending ==> k in w.masters && w.masters[k] == w.pending[k] && NoRow(w, k)
  }

  predicate Inv(w: World) { Filed(w) && OneOwner(w) && RowsOk(w) && Indexed(w) && PendingOk(w) }

  // ------------------------------------------------------------- what the clients do

  predicate NewToken(w: World, t: Token) {
    && t !in w.sessions && t !in w.rows
    && (forall m :: m in w.masters ==> w.masters[m].token != t)
  }

  /** Tokens are random: no new one is in use. */
  predicate Fresh(w: World, e: Event) {
    match e
    case Publish(info) => NewToken(w, info.token) && info.master !in w.masters && info.master !in w.pending && NoRow(w, info.master)
    case Renew(_, token, _, _, _) => NewToken(w, token)
    case _ => true
  }

  predicate Untold(w: World, t: Token) { forall k :: k in w.pending ==> w.pending[k].token != t }

  /** Nobody knows the tokens of a session before its creation is answered. */
  predicate Secret(w: World, e: Event) {
    match e
    case Inspect(t, _) => Untold(w, t)
    case Touch(t, _) => Untold(w, t)
    case Finish(t, _, _) => Untold(w, t)
    case Close(t, _) => Untold(w, t)
    case UpdateContext(t, _, _, _, _) => Untold(w, t)
    case SetWarehouse(t, _, _) => Untold(w, t)
    case Heartbeat(t, _, _) => Untold(w, t)
    case Renew(k, _, _, _, _) => k !in w.pending
    case _ => true
  }

  predicate Allowed(w: World, e: Event) { Fresh(w, e) && Secret(w, e) }

  // ------------------------------------------------------------- changes that keep the invariant

  /** The session with that access token is not being created. */
  lemma NotPending(w: World, t: Token)
    requires Inv(w) && t in w.sessions && Untold(w, t)
    ensures w.sessions[t].master !in w.pending
  {
  }

  lemma EvictKeeps(w: World, gone: set<Token>)
    requires Inv(w)
    ensures Inv(w.(sessions := w.sessions - gone))
  {
  }

  /** A session in memory changes anything but its tokens. */
  lemma ChangeKeeps(w: World, info: Info)
    requires Inv(w) && info.token in w.sessions && w.sessions[info.token].master == info.master && info.master !in w.pending
    ensures Inv(Change(w, info))
  {
    assert info.master in w.masters && w.masters[info.master].token == info.token;
    FiledChange(w, info);
    ChangeTokens(w, info);
    ChangeIndexed(w, info);
    ChangePending(w, info);
    hide Filed, OneOwner, RowsOk, Indexed, PendingOk, Change;
  }

  lemma ChangeTokens(w: World, info: Info)
    requires OneOwner(w) && RowsOk(w) && info.master in w.masters && w.masters[info.master].token == info.token
    ensures OneOwner(Change(w, info)) && RowsOk(Change(w, info))
  {
    var v := Change(w, info);
    assert v.masters.Keys == w.masters.Keys && forall m :: m in w.masters ==> v.masters[m].token == w.masters[m].token;
    hide Change, Seen;
  }

  lemma ChangeIndexed(w: World, info: Info)
    requires Indexed(w) && Filed(w) && info.token in w.sessions && w.sessions[info.token].master == info.master
    ensures Indexed(Change(w, info))
  {
    var v := Change(w, info);
    forall t | t in v.sessions
      ensures v.sessions[t].master in v.masters && v.masters[v.sessions[t].master] == v.sessions[t]
    {
      assert t in w.sessions && w.sessions[t].token == t;
    }
  }

  lemma ChangePending(w: World, info: Info)
    requires PendingOk(w) && info.master !in w.pending
    ensures PendingOk(Change(w, info))
  {
  }

  lemma RowKeeps(w: World, info: Info)
    requires Inv(w) && info.master in w.masters && w.masters[info.master].token == info.token && info.master !in w.pending
    ensures Inv(w.(rows := w.rows[info.token := info]))
  {
    var v := w.(rows := w.rows[info.token := info]);
    assert RowsOk(v);
    assert OneOwner(v);
    assert PendingOk(v);
  }

  lemma TouchKeeps(w: World, t: Token, now: int)
    requires Inv(w)
    ensures Inv(w.(rows := TouchRow(w.rows, t, now)))
  {
    var v := w.(rows := TouchRow(w.rows, t, now));
    assert RowsOk(v);
    assert OneOwner(v);
    assert PendingOk(v);
  }

  lemma PublishKeeps(w: World, info: Info)
    requires Inv(w) && Fresh(w, Publish(info))
    ensures Inv(PublishStep(w, info))
  {
    PublishFiled(w, info);
    PublishTokens(w, info);
    PublishIndexed(w, info);
    PublishPending(w, info);
    hide Filed, OneOwner, RowsOk, Indexed, PendingOk, PublishStep;
  }

  lemma PublishFiled(w: World, info: Info)
    requires Filed(w)
    ensures Filed(PublishStep(w, info))
  {
  }

  lemma PublishTokens(w: World, info: Info)
    requires OneOwner(w) && RowsOk(w) && NewToken(w, info.token) && info.master !in w.masters && NoRow(w, info.master)
    ensures OneOwner(PublishStep(w, info)) && RowsOk(PublishStep(w, info))
  {
  }

  lemma PublishIndexed(w: World, info: Info)
    requires Indexed(w) && info.master !in w.masters
    ensures Indexed(PublishStep(w, info))
  {
  }

  lemma PublishPending(w: World, info: Info)
    requires PendingOk(w) && info.master !in w.masters && NoRow(w, info.master)
    ensures PendingOk(PublishStep(w, info))
  {
  }

  lemma StoredKeeps(w: World, k: Token, ok: bool)
    requires Inv(w)
    ensures Inv(StoredStep(w, k, ok).0)
  {
    if k in w.pending {
      var info := w.pending[k];
      var v := w.(pending := w.pending - {k});
      assert Inv(v);
      if ok {
        RowKeeps(v, info);
      } else {
        var u := v.(sessions := v.sessions - {info.token}, masters := v.masters - {k});
        assert Indexed(u);
        assert PendingOk(u);
      }
    }
  }

  predicate Part(a: map<Token, Info>, b: map<Token, Info>) { a.Keys <= b.Keys && forall t :: t in a ==> a[t] == b[t] }

  /** Taking sessions and rows away, as long as what stays in the access index stays in memory. */
  lemma FewerKeeps(w: World, v: World)
    requires Inv(w) && Part(v.sessions, w.sessions) && Part(v.masters, w.masters) && Part(v.rows, w.rows) && v.pending == w.pending
    requires (forall t :: t in v.sessions ==> v.sessions[t].master in v.masters) && forall k :: k in v.pending ==> k in v.masters
    ensures Inv(v)
  {
    assert OneOwner(v) by { hide Indexed, PendingOk, RowsOk; }
    assert RowsOk(v) by { hide Indexed, PendingOk, OneOwner; }
    assert Indexed(v) by { hide RowsOk, PendingOk, OneOwner; }
    assert PendingOk(v) by { hide RowsOk, Indexed, OneOwner; }
    assert Filed(v) by { hide RowsOk, Indexed, OneOwner, PendingOk; }
  }

  lemma CloseParts(w: World, token: Token, ok: bool)
    requires forall t :: t in w.sessions ==> w.sessions[t].master in w.masters && w.masters[w.sessions[t].master].token == t
    ensures var v := CloseStep(w, token, ok).0;
            && Part(v.sessions, w.sessions) && Part(v.masters, w.masters) && Part(v.rows, w.rows) && v.pending == w.pending
            && v.sessions == w.sessions - {token} && forall m :: m in v.masters <==> m in w.masters && w.masters[m].token != token
  {
  }

  lemma CloseKeeps(w: World, token: Token, ok: bool)
    requires Inv(w) && Untold(w, token)
    ensures Inv(CloseStep(w, token, ok).0)
  {
    assert forall t :: t in w.sessions ==> w.sessions[t].master in w.masters && w.masters[w.sessions[t].master].token == t by { hide OneOwner, RowsOk; }
    CloseParts(w, token, ok);
    hide OneOwner, RowsOk, Part, CloseStep, Filed;
    FewerKeeps(w, CloseStep(w, token, ok).0);
  }

  lemma RenewKeeps(w: World, k: Token, token: Token, now: int, timeout: int, ok: bool)
    requires Inv(w) && NewToken(w, token) && k !in w.pending
    ensures Inv(RenewStep(w, k, token, now, timeout, ok).0)
  {
    assert k in w.masters ==> w.masters[k].master == k;
    hide Inv;
    if k != "" && k in w.masters {
      var before := w.masters[k];
      if now > before.createdAt + before.masterValidity {
        ExpiredKeeps(w, k);
      } else if ok {
        RenewedKeeps(w, before.(token := token, lastAccess := now, expiresAt := now + timeout));
      }
    }
  }

  lemma ExpiredKeeps(w: World, k: Token)
    requires Inv(w) && k in w.masters && k !in w.pending
    ensures Inv(w.(masters := w.masters - {k}, sessions := w.sessions - {w.masters[k].token}))
  {
    var v := w.(masters := w.masters - {k}, sessions := w.sessions - {w.masters[k].token});
    assert OneOwner(v) && RowsOk(v);
    assert Indexed(v);
  }

  function Renewed(w: World, info: Info): World
    requires info.master in w.masters
  {
    var before := w.masters[info.master].token;
    World((w.sessions - {before})[info.token := info], w.masters[info.master := info], Seen(w.pending, info),
          w.rows[info.token := info] - {before})
  }

  lemma RenewedKeeps(w: World, info: Info)
    requires Inv(w) && info.master in w.masters && info.master !in w.pending && NewToken(w, info.token)
    ensures Inv(Renewed(w, info))
  {
    assert w.masters[info.master].master == info.master;
    RenewedFiled(w, info);
    RenewedOwner(w, info);
    RenewedRows(w, info);
    RenewedIndexed(w, info);
    RenewedPending(w, info);
    hide Filed, OneOwner, RowsOk, Indexed, PendingOk, Renewed;
  }

  lemma RenewedFiled(w: World, info: Info)
    requires Filed(w) && info.master in w.masters
    ensures Filed(Renewed(w, info))
  {
  }

  lemma RenewedOwner(w: World, info: Info)
    requires OneOwner(w) && info.master in w.masters && NewToken(w, info.token)
    ensures OneOwner(Renewed(w, info))
  {
  }

  lemma RenewedRows(w: World, info: Info)
    requires RowsOk(w) && info.master in w.masters && NewToken(w, info.token)
    ensures RowsOk(Renewed(w, info))
  {
  }

  lemma RenewedIndexed(w: World, info: Info)
    requires Indexed(w) && Filed(w) && info.master in w.masters && NewToken(w, info.token)
    ensures Indexed(Renewed(w, info))
  {
    var v := Renewed(w, info);
    forall t | t in v.sessions
      ensures v.sessions[t].master in v.masters && v.masters[v.sessions[t].master] == v.sessions[t]
    {
      if t != info.token { assert w.sessions[t].token == t && w.masters[w.sessions[t].master] == w.sessions[t]; }
    }
  }

  lemma RenewedPending(w: World, info: Info)
    requires PendingOk(w) && info.master in w.masters && info.master !in w.pending
    ensures PendingOk(Renewed(w, info))
  {
    var v := Renewed(w, info);
    assert v.pending == w.pending;
    forall k | k in v.pending
      ensures k in v.masters && v.masters[k] == v.pending[k] && NoRow(v, k)
    {
      assert NoRow(w, k);
    }
  }

  /** After a restart every session in memory is a stored row. */
  lemma RestartMasters(w: World, now: int)
    requires RowsOk(w)
    ensures var v, live := RestartStep(w, now), Live(w.rows, now);
            && (forall m :: m in v.masters ==> v.masters[m].token in live && live[v.masters[m].token] == v.masters[m] && v.masters[m].master == m)
            && (forall t :: t in live ==> live[t].master in v.masters)
  {
    var live := Live(w.rows, now);
    forall m | m in Masters(live)
      ensures RowOf(live, m).token in live && live[RowOf(live, m).token] == RowOf(live, m) && RowOf(live, m).master == m
    {
      var t :| t in live && live[t].master == m && RowOf(live, m) == live[t];
    }
    assert forall t :: t in live ==> live[t].master in Masters(live);
  }

  lemma RestartKeeps(w: World, now: int)
    requires Inv(w)
    ensures Inv(RestartStep(w, now))
  {
    RestartMasters(w, now);
    LiveFacts(w.rows, now);
    MemoryIsRows(w, RestartStep(w, now), Live(w.rows, now));
  }

  lemma LiveFacts(rows: map<Token, Info>, now: int)
    ensures forall t :: t in Live(rows, now) ==> t in rows && Live(rows, now)[t] == rows[t]
  {
  }

  /** Memory that holds some of the rows, by token and by master token. */
  lemma MemoryIsRows(w: World, v: World, live: map<Token, Info>)
    requires RowsOk(w) && v.rows == w.rows && v.pending == map[] && v.sessions == live
    requires forall t :: t in live ==> t in w.rows && live[t] == w.rows[t] && live[t].master in v.masters
    requires forall m :: m in v.masters ==> v.masters[m].token in live && live[v.masters[m].token] == v.masters[m] && v.masters[m].master == m
    ensures Inv(v)
  {
    assert OneOwner(v) by { hide OneRowEach; }
    assert Filed(v) && PendingOk(v) by { hide OneRowEach; }
    assert Indexed(v);
    assert RowsOk(v);
  }

  /** A change that is stored or undone. */
  lemma SaveKeeps(w: World, info: Info, ok: bool)
    requires Inv(w) && info.token in w.sessions && w.sessions[info.token].master == info.master && info.master !in w.pending
    ensures Inv(SaveStep(w, info, ok).0)
  {
    if ok {
      ChangeKeeps(w, info);
      assert info.master in w.masters;
      RowKeeps(Change(w, info), info);
    }
  }

  lemma HeartbeatKeeps(w: World, token: Token, now: int, ok: bool)
    requires Inv(w) && Untold(w, token)
    ensures Inv(HeartbeatStep(w, token, now, ok).0)
  {
    if token != "" && token in w.sessions {
      NotPending(w, token);
      if now > w.sessions[token].expiresAt {
        EvictKeeps(w, {token});
      } else if ok {
        var info := w.sessions[token].(lastAccess := now);
        assert info.token == token;
        hide Inv;
        ChangeKeeps(w, info);
        TouchKeeps(Change(w, info), token, now);
      }
    }
  }

  lemma SessionSteps(w: World, e: Event)
    requires Inv(w) && Allowed(w, e) && (e.UpdateContext? || e.SetWarehouse? || e.Finish? || e.Inspect?)
    ensures Inv(Step(w, e).0)
  {
    var token := e.token;
    if token in w.sessions {
      NotPending(w, token);
      assert w.sessions[token].token == token;
      hide Inv;
      var info := w.sessions[token];
      match e
      case UpdateContext(_, database, schema, now, ok) =>
        SaveKeeps(w, info.(database := if database != "" then database else info.database,
                           schema := if schema != "" then schema else info.schema, lastAccess := now), ok);
      case SetWarehouse(_, warehouse, ok) => SaveKeeps(w, info.(warehouse := warehouse), ok);
      case Finish(_, now, later) => ChangeKeeps(w, info.(lastAccess := now));
      case Inspect(_, now) => EvictKeeps(w, {token});
    }
  }

  lemma CleanupKeeps(w: World, now: int)
    requires Inv(w)
    ensures Inv(CleanupStep(w, now))
  {
    var gone := set t | t in w.sessions && now > w.sessions[t].expiresAt;
    assert CleanupStep(w, now).sessions == w.sessions - gone;
    EvictKeeps(w, gone);
  }

  lemma StepKeeps(w: World, e: Event)
    requires Inv(w) && Allowed(w, e)
    ensures Inv(Step(w, e).0)
  {
    hide Inv, RestartStep, RenewStep, CloseStep;
    match e
    case Publish(info) => PublishKeeps(w, info);
    case Stored(k, ok) => StoredKeeps(w, k, ok);
    case Inspect(_, _) => SessionSteps(w, e);
    case Touch(token, now) => TouchKeeps(w, token, now);
    case Finish(_, _, _) => SessionSteps(w, e);
    case Close(token, ok) => CloseKeeps(w, token, ok);
    case UpdateContext(_, _, _, _, _) => SessionSteps(w, e);
    case SetWarehouse(_, _, _) => SessionSteps(w, e);
    case Cleanup(now) => CleanupKeeps(w, now);
    case Renew(k, token, now, timeout, ok) => RenewKeeps(w, k, token, now, timeout, ok);
    case Heartbeat(token, now, ok) => HeartbeatKeeps(w, token, now, ok);
    case Restart(now) => RestartKeeps(w, now);
  }

  // ------------------------------------------------------------- closed for good

  /** No trace of the session: neither in memory nor in the store. */
  predicate Gone(w: World, k: Token) { k !in w.masters && k !in w.pending && NoRow(w, k) }

  /** The token is the one the session has now; if it is not in memory any more, the one its row
      has. */
  predicate Current(w: World, token: Token, k: Token) {
    if k in w.masters then w.masters[k].token == token else token in w.rows && w.rows[token].master == k
  }

  /** The session is not made anew. */
  predicate NotAgain(e: Event, k: Token) { e.Publish? ==> e.info.master != k }

  lemma GoneStays(w: World, e: Event, k: Token)
    requires Inv(w) && Allowed(w, e) && NotAgain(e, k) && Gone(w, k)
    ensures Gone(Step(w, e).0, k) && Step(w, e).1 != Yields(k)
  {
    NoSession(w, k);
    hide Inv, RestartStep, Allowed, Change, TouchRow, Gone, RenewStep, CloseStep, StoredStep, PublishStep;
    match e
    case Publish(info) => PublishGone(w, info, k);
    case Stored(m, ok) => StoredGone(w, m, ok, k);
    case Restart(now) => RestartGone(w, now, k);
    case Close(token, ok) => CloseGone(w, token, ok, k);
    case Renew(m, token, now, timeout, ok) => RenewGone(w, m, token, now, timeout, ok, k);
    case Touch(token, now) => TouchGone(w, token, now, k);
    case Inspect(token, _) => EvictGone(w, {token}, k);
    case Cleanup(now) => CleanupGone(w, now, k);
    case _ => SavedStays(w, e, k);
  }

  /** The steps that save a changed session. */
  lemma SavedStays(w: World, e: Event, k: Token)
    requires Inv(w) && Gone(w, k) && (e.UpdateContext? || e.SetWarehouse? || e.Finish? || e.Heartbeat?)
    ensures Gone(Step(w, e).0, k) && Step(w, e).1 != Yields(k)
  {
    NoSession(w, k);
    hide Inv, Gone, UpdateContextStep, SetWarehouseStep, FinishStep, HeartbeatStep;
    match e
    case UpdateContext(token, database, schema, now, ok) => ContextStays(w, token, database, schema, now, ok, k);
    case SetWarehouse(token, warehouse, ok) => WarehouseStays(w, token, warehouse, ok, k);
    case Finish(token, now, later) => FinishStays(w, token, now, later, k);
    case Heartbeat(token, now, ok) => HeartbeatStays(w, token, now, ok, k);
  }

  /** No session of the memory has this master token. */
  predicate NotOf(w: World, k: Token) { forall t :: t in w.sessions ==> w.sessions[t].master != k }

  lemma ContextStays(w: World, token: Token, database: string, schema: string, now: int, ok: bool, k: Token)
    requires Gone(w, k) && NotOf(w, k)
    ensures var r := UpdateContextStep(w, token, database, schema, now, ok); Gone(r.0, k) && r.1 != Yields(k)
  {
    hide Change, Gone;
    if token in w.sessions {
      var info := w.sessions[token];
      SaveGone(w, info.(database := if database != "" then database else info.database,
                        schema := if schema != "" then schema else info.schema, lastAccess := now), k);
    }
  }

  lemma WarehouseStays(w: World, token: Token, warehouse: string, ok: bool, k: Token)
    requires Gone(w, k) && NotOf(w, k)
    ensures var r := SetWarehouseStep(w, token, warehouse, ok); Gone(r.0, k) && r.1 != Yields(k)
  {
    hide Change, Gone;
    if token in w.sessions { SaveGone(w, w.sessions[token].(warehouse := warehouse), k); }
  }

  lemma FinishStays(w: World, token: Token, now: int, later: int, k: Token)
    requires Gone(w, k) && NotOf(w, k)
    ensures var r := FinishStep(w, token, now, later); Gone(r.0, k) && r.1 != Yields(k)
  {
    hide Change, Gone;
    if token in w.sessions { SaveGone(w, w.sessions[token].(lastAccess := now), k); }
  }

  lemma HeartbeatStays(w: World, token: Token, now: int, ok: bool, k: Token)
    requires Gone(w, k) && NotOf(w, k)
    ensures var r := HeartbeatStep(w, token, now, ok); Gone(r.0, k) && r.1 != Yields(k)
  {
    hide Change, Gone, TouchRow;
    EvictGone(w, {token}, k);
    if token in w.sessions {
      SaveGone(w, w.sessions[token].(lastAccess := now), k);
      ChangeRows(w, w.sessions[token].(lastAccess := now));
      TouchGone(Change(w, w.sessions[token].(lastAccess := now)), token, now, k);
    }
  }

  lemma PublishGone(w: World, info: Info, k: Token)
    requires Gone(w, k) && info.master != k
    ensures Gone(PublishStep(w, info), k)
  {
  }

  lemma StoredGone(w: World, m: Token, ok: bool, k: Token)
    requires Gone(w, k) && Inv(w)
    ensures Gone(StoredStep(w, m, ok).0, k) && StoredStep(w, m, ok).1 != Yields(k)
  {
    assert m in w.pending ==> w.pending[m].master == m;
    hide OneOwner, RowsOk, Indexed, PendingOk, Filed;
  }

  lemma TouchGone(w: World, t: Token, now: int, k: Token)
    requires Gone(w, k)
    ensures Gone(w.(rows := TouchRow(w.rows, t, now)), k)
  {
  }

  lemma SaveGone(w: World, info: Info, k: Token)
    requires Gone(w, k) && info.master != k
    ensures Gone(Change(w, info), k) && Gone(Change(w, info).(rows := w.rows[info.token := info]), k)
  {
  }

  lemma ChangeRows(w: World, info: Info)
    ensures Change(w, info).rows == w.rows
  {
  }

  lemma EvictGone(w: World, gone: set<Token>, k: Token)
    requires Gone(w, k)
    ensures Gone(w.(sessions := w.sessions - gone), k)
  {
  }

  lemma CleanupGone(w: World, now: int, k: Token)
    requires Gone(w, k)
    ensures Gone(CleanupStep(w, now), k)
  {
  }

  lemma NoSession(w: World, k: Token)
    requires Inv(w) && Gone(w, k)
    ensures forall t :: t in w.sessions ==> w.sessions[t].master != k
  {
  }

  lemma CloseGone(w: World, token: Token, ok: bool, k: Token)
    requires Gone(w, k)
    ensures Gone(CloseStep(w, token, ok).0, k)
  {
  }

  lemma RenewGone(w: World, m: Token, token: Token, now: int, timeout: int, ok: bool, k: Token)
    requires Gone(w, k) && Inv(w)
    ensures Gone(RenewStep(w, m, token, now, timeout, ok).0, k) && RenewStep(w, m, token, now, timeout, ok).1 != Yields(k)
  {
    assert m in w.masters ==> w.masters[m].master == m;
    hide OneOwner, RowsOk, Indexed, PendingOk, Filed;
  }

  lemma RestartGone(w: World, now: int, k: Token)
    requires Gone(w, k)
    ensures Gone(RestartStep(w, now), k)
  {
    assert k !in Masters(Live(w.rows, now));
  }

  ghost predicate AllAllowed(w: World, es: seq<Event>, k: Token)
    decreases |es|
  {
    es == [] || (Allowed(w, es[0]) && NotAgain(es[0], k) && AllAllowed(Step(w, es[0]).0, es[1..], k))
  }

  ghost function Replies(w: World, es: seq<Event>): (r: seq<Reply>)
    ensures |r| == |es|
    decreases |es|
  {
    if es == [] then [] else [Step(w, es[0]).1] + Replies(Step(w, es[0]).0, es[1..])
  }

  lemma {:induction false} GoneForGood(w: World, es: seq<Event>, k: Token)
    requires Inv(w) && Gone(w, k) && AllAllowed(w, es, k)
    ensures Yields(k) !in Replies(w, es)
    decreases |es|
  {
    hide Inv, Step, Gone, Allowed;
    if es != [] {
      GoneStays(w, es[0], k);
      StepKeeps(w, es[0]);
      GoneForGood(Step(w, es[0]).0, es[1..], k);
    }
  }

  /** Closing without error ends exactly the session whose present token was given. */
  lemma CloseEndsExactly(w: World, token: Token, k: Token)
    requires Inv(w) && Allowed(w, Close(token, true)) && !Gone(w, k)
    ensures Gone(CloseStep(w, token, true).0, k) <==> Current(w, token, k)
  {
    var v := CloseStep(w, token, true).0;
    assert forall m :: m in v.masters <==> m in w.masters && w.masters[m].token != token by { ClosedMasters(w, token, true); }
    if k in w.masters {
      assert k in w.pending ==> w.pending[k].token != token;
    } else if token in w.rows && w.rows[token].master == k {
      assert NoRow(v, k);
    } else {
      RowRemains(w, v, token, k);
    }
  }

  lemma ClosedMasters(w: World, token: Token, ok: bool)
    requires Inv(w)
    ensures forall m :: m in CloseStep(w, token, ok).0.masters <==> m in w.masters && w.masters[m].token != token
  {
  }

  lemma RowRemains(w: World, v: World, token: Token, k: Token)
    requires !NoRow(w, k) && v.rows == w.rows - {token} && !(token in w.rows && w.rows[token].master == k)
    ensures !NoRow(v, k)
  {
    var t :| t in w.rows && w.rows[t].master == k;
    assert t in v.rows;
  }

  /** Once closing with its present token succeeds, no sequence of validation, renewal,
      heartbeat, cleanup, expiry or restart hands the session out again. */
  lemma ClosedNeverYields(w: World, token: Token, k: Token, es: seq<Event>)
    requires Inv(w) && Allowed(w, Close(token, true)) && Current(w, token, k)
    requires AllAllowed(CloseStep(w, token, true).0, es, k)
    ensures Yields(k) !in Replies(CloseStep(w, token, true).0, es)
  {
    hide Inv, Allowed, Current, Gone, CloseStep, Replies, AllAllowed;
    ClosedWell(w, token, k);
    GoneForGood(CloseStep(w, token, true).0, es, k);
  }

  lemma ClosedWell(w: World, token: Token, k: Token)
    requires Inv(w) && Allowed(w, Close(token, true)) && Current(w, token, k)
    ensures Inv(CloseStep(w, token, true).0) && Gone(CloseStep(w, token, true).0, k)
  {
    hide Inv, Allowed, Current, Gone, CloseStep, Step;
    CurrentIsAlive(w, token, k);
    CloseEndsExactly(w, token, k);
    StepKeeps(w, Close(token, true));
    CloseIs(w, token, true);
  }

  lemma CloseIs(w: World, token: Token, ok: bool)
    ensures Step(w, Close(token, ok)) == CloseStep(w, token, ok)
  {
    hide CloseStep;
  }

  lemma CurrentIsAlive(w: World, token: Token, k: Token)
    requires Current(w, token, k)
    ensures !Gone(w, k)
  {
  }

  /** When the store refuses, the row survives: after a restart before it expires, the session is
      back under the same token. */
  lemma FailedCloseComesBack(w: World, token: Token, now: int)
    requires Inv(w) && token != "" && token in w.rows && now <= w.rows[token].expiresAt
    ensures var v := RestartStep(CloseStep(w, token, false).0, now);
            CloseStep(w, token, false).1 == Failed && InspectStep(v, token, now).1 == Yields(w.rows[token].master)
  {
  }

  /** And a session closed with a token that was already replaced stays: closing reports success
      and changes nothing of it. */
  lemma StaleTokenCloses(w: World, token: Token, k: Token)
    requires Inv(w) && k in w.masters && w.masters[k].token != token
    ensures var v := CloseStep(w, token, true); v.1 == Fine && k in v.0.masters && v.0.masters[k] == w.masters[k]
  {
    ClosedMasters(w, token, true);
  }

  /** A store in which every row is under its own token, one for each session, starts well. */
  lemma StartsWell(rows: map<Token, Info>)
    requires OneRowEach(rows) && forall t :: t in rows ==> rows[t].token == t
    ensures Inv(World(map[], map[], map[], rows))
  {
  }
}
