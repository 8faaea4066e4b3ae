/** Login sessions: two indexes in memory that share the session objects, and the stored rows
    (pkg/session/manager.go, pkg/session/store.go).

    A session is known by its master token, which never changes; its access token changes with
    every renewal. Tokens of new sessions and renewals come from the caller. */
module Sessions {

  type Token = string

  datatype Info = Info(
    token: Token, master: Token, database: string, schema: string, warehouse: string,
    createdAt: int, lastAccess: int, expiresAt: int, masterValidity: int)

  /** What the manager holds: the sessions by access token and by master token, the sessions that
      are not stored yet, and the stored rows. */
  datatype World = World(
    sessions: map<Token, Info>, masters: map<Token, Info>, pending: map<Token, Info>, rows: map<Token, Info>)

  /** `Yields` hands out, or acts for, the session with that master token. */
  datatype Reply = Fine | Yields(master: Token) | Failed

  // ------------------------------------------------------------- steps

  datatype Event =
    | Publish(info: Info)
    | Stored(master: Token, ok: bool)
    | Inspect(token: Token, now: int)
    | Touch(token: Token, now: int)
    | Finish(token: Token, now: int, later: int)
    | Close(token: Token, ok: bool)
    | UpdateContext(token: Token, database: string, schema: string, now: int, ok: bool)
    | SetWarehouse(token: Token, warehouse: string, ok: bool)
    | Cleanup(now: int)
    | Renew(master: Token, token: Token, now: int, timeout: int, ok: bool)
    | Heartbeat(token: Token, now: int, ok: bool)
    | Restart(now: int)

  /** The objects behind an index, after the session with that master token changed. */
  function Seen(index: map<Token, Info>, info: Info): map<Token, Info> {
    if info.master in index then index[info.master := info] else index
  }

  function TouchRow(rows: map<Token, Info>, token: Token, now: int): map<Token, Info> {
    if token in rows then rows[token := rows[token].(lastAccess := now)] else rows
  }

  /** The session changes, and keeps its access token. */
  function Change(w: World, info: Info): World {
    w.(sessions := w.sessions[info.token := info], masters := Seen(w.masters, info), pending := Seen(w.pending, info))
  }

  /** The first part of creating a session: it is in memory before it is stored. */
  function PublishStep(w: World, info: Info): World {
    World(w.sessions[info.token := info], w.masters[info.master := info], w.pending[info.master := info], w.rows)
  }

  /** The second part: the row is written, or the session is taken back. */
  function StoredStep(w: World, k: Token, ok: bool): (World, Reply) {
    if k !in w.pending then (w, Fine)
    else
      var info := w.pending[k];
      if ok then (w.(rows := w.rows[info.token := info], pending := w.pending - {k}), Yields(k))
      else (w.(sessions := w.sessions - {info.token}, masters := w.masters - {k}, pending := w.pending - {k}), Failed)
  }

  function InspectStep(w: World, token: Token, now: int): (World, Reply) {
    if token == "" || token !in w.sessions then (w, Failed)
    else if now > w.sessions[token].expiresAt then (w.(sessions := w.sessions - {token}), Failed)
    else (w, Yields(w.sessions[token].master))
  }

  /** The last part of validating: the session is looked up again, after the row was touched. */
  function FinishStep(w: World, token: Token, now: int, later: int): (World, Reply) {
    if token !in w.sessions || later > w.sessions[token].expiresAt then (w, Failed)
    else
      var info := w.sessions[token];
      (if now > info.lastAccess then Change(w, info.(lastAccess := now)) else w, Yields(info.master))
  }

  function CloseStep(w: World, token: Token, ok: bool): (World, Reply) {
    var masters := if token in w.sessions then w.masters - {w.sessions[token].master} else w.masters;
    var left := map m | m in masters && masters[m].token != token :: masters[m];
    (w.(sessions := w.sessions - {token}, masters := left, rows := if ok then w.rows - {token} else w.rows),
     if ok then Fine else Failed)
  }

  /** A change that is stored as a whole row, or undone. */
  function SaveStep(w: World, info: Info, ok: bool): (World, Reply) {
    if ok then (Change(w, info).(rows := w.rows[info.token := info]), Yields(info.master)) else (w, Failed)
  }

  function UpdateContextStep(w: World, token: Token, database: string, schema: string, now: int, ok: bool): (World, Reply) {
    if token !in w.sessions then (w, Failed)
    else
      var info := w.sessions[token];
      SaveStep(w, info.(database := if database != "" then database else info.database,
                        schema := if schema != "" then schema else info.schema, lastAccess := now), ok)
  }

  function SetWarehouseStep(w: World, token: Token, warehouse: string, ok: bool): (World, Reply) {
    if token !in w.sessions then (w, Failed) else SaveStep(w, w.sessions[token].(warehouse := warehouse), ok)
  }

  function CleanupStep(w: World, now: int): World {
    w.(sessions := map t | t in w.sessions && now <= w.sessions[t].expiresAt :: w.sessions[t])
  }

  /** The new access token replaces the old one in the store first, then in memory. */
  function RenewStep(w: World, k: Token, token: Token, now: int, timeout: int, ok: bool): (World, Reply) {
    if k == "" || k !in w.masters then (w, Failed)
    else
      var was := w.masters[k];
      if now > was.createdAt + was.masterValidity then
        (w.(masters := w.masters - {k}, sessions := w.sessions - {was.token}), Failed)
      else if !ok then (w, Failed)
      else
        var info := was.(token := token, lastAccess := now, expiresAt := now + timeout);
        (World((w.sessions - {was.token})[token := info], w.masters[k := info], Seen(w.pending, info),
               w.rows[token := info] - {was.token}),
         Yields(k))
  }

  function HeartbeatStep(w: World, token: Token, now: int, ok: bool): (World, Reply) {
    if token == "" || token !in w.sessions then (w, Failed)
    else if now > w.sessions[token].expiresAt then (w.(sessions := w.sessions - {token}), Failed)
    else if !ok then (w, Failed)
    else
      var info := w.sessions[token].(lastAccess := now);
      (Change(w, info).(rows := TouchRow(w.rows, token, now)), Yields(info.master))
  }

  predicate OneRowEach(rows: map<Token, Info>) {
    forall s, t :: s in rows && t in rows && rows[s].master == rows[t].master ==> s == t
  }

  /** The row with that master token. */
  ghost function RowOf(rows: map<Token, Info>, m: Token): Info
    requires m in Masters(rows)
  {
    var t :| t in rows && rows[t].master == m;
    rows[t]
  }

  function Masters(rows: map<Token, Info>): set<Token> { set t | t in rows :: rows[t].master }

  function Live(rows: map<Token, Info>, now: int): map<Token, Info> {
    map t | t in rows && now <= rows[t].expiresAt :: rows[t]
  }

  /** Rows that have not expired come back; what was not stored is lost. */
  ghost function RestartStep(w: World, now: int): World {
    var live := Live(w.rows, now);
    World(live, map m | m in Masters(live) :: RowOf(live, m), map[], w.rows)
  }

  ghost function Step(w: World, e: Event): (World, Reply) {
    match e
    case Publish(info) => (PublishStep(w, info), Fine)
    case Stored(k, ok) => StoredStep(w, k, ok)
    case Inspect(token, now) => InspectStep(w, token, now)
    case Touch(token, now) => (w.(rows := TouchRow(w.rows, token, now)), Fine)
    case Finish(token, now, later) => FinishStep(w, token, now, later)
    case Close(token, ok) => CloseStep(w, token, ok)
    case UpdateContext(token, database, schema, now, ok) => UpdateContextStep(w, token, database, schema, now, ok)
    case SetWarehouse(token, warehouse, ok) => SetWarehouseStep(w, token, warehouse, ok)
    case Cleanup(now) => (CleanupStep(w, now), Fine)
    case Renew(k, token, now, timeout, ok) => RenewStep(w, k, token, now, timeout, ok)
    case Heartbeat(token, now, ok) => HeartbeatStep(w, token, now, ok)
    case Restart(now) => (RestartStep(w, now), Fine)
  }

  // ------------------------------------------------------------- the program's objects

  /** A session object; both indexes may hold it. */
  class Session {
    var info: Info

    constructor (info: Info)
      ensures this.info == info
    {
      this.info := info;
    }
  }

  function Restored(rows: map<Token, Info>, unseen: set<Token>, now: int): map<Token, Info> {
    map t | t in rows && t !in unseen && now <= rows[t].expiresAt :: rows[t]
  }

  /** One more row comes back, with a master token that no earlier one has. */
  lemma OneMoreRow(rows: map<Token, Info>, live: map<Token, Info>, t: Token)
    requires OneRowEach(rows) && t in rows && t !in live && forall u :: u in live ==> u in rows && live[u] == rows[u]
    ensures rows[t].master !in Masters(live) && Masters(live[t := rows[t]]) == Masters(live) + {rows[t].master}
    ensures RowOf(live[t := rows[t]], rows[t].master) == rows[t]
    ensures forall m :: m in Masters(live) ==> RowOf(live[t := rows[t]], m) == RowOf(live, m)
  {
    var more := live[t := rows[t]];
    assert more[t].master in Masters(more);
    forall m | m in Masters(live)
      ensures m in Masters(more)
    {
      var u :| u in live && live[u].master == m;
      assert more[u].master == m;
    }
    assert Masters(more) == Masters(live) + {rows[t].master};
    forall m | m in Masters(live)
      ensures RowOf(more, m) == RowOf(live, m)
    {
      var u :| u in live && live[u].master == m;
      assert more[u].master == m;
    }
  }

  lemma RestoredNext(rows: map<Token, Info>, unseen: set<Token>, t: Token, now: int)
    requires t in rows && t in unseen
    ensures Restored(rows, unseen - {t}, now)
         == if now <= rows[t].expiresAt then Restored(rows, unseen, now)[t := rows[t]] else Restored(rows, unseen, now)
  {
  }

  lemma NotYet(rows: map<Token, Info>, unseen: set<Token>, t: Token, now: int)
    requires t in unseen
    ensures t !in Restored(rows, unseen, now)
    ensures forall u :: u in Restored(rows, unseen, now) ==> u in rows && Restored(rows, unseen, now)[u] == rows[u]
  {
  }

  lemma RestoredEnds(rows: map<Token, Info>, now: int)
    ensures Restored(rows, rows.Keys, now) == map[] && Restored(rows, {}, now) == Live(rows, now)
  {
  }

  lemma NoMaster(rows: map<Token, Info>, m: Token)
    requires m !in Masters(rows)
    ensures forall t :: t in rows ==> rows[t].master != m
  {
  }

  /** Part of the rows has come back. */
  ghost predicate Halfway(w: World, rows: map<Token, Info>, unseen: set<Token>, now: int) {
    && w.sessions == Restored(rows, unseen, now) && w.pending == map[] && w.rows == rows
    && w.masters.Keys == Masters(w.sessions) && forall m :: m in w.masters ==> w.masters[m] == RowOf(w.sessions, m)
  }

  lemma HalfwayStarts(rows: map<Token, Info>, now: int)
    ensures Halfway(World(map[], map[], map[], rows), rows, rows.Keys, now)
  {
    RestoredEnds(rows, now);
    assert Masters(map[]) == {};
  }

  lemma HalfwayEnds(w: World, rows: map<Token, Info>, now: int)
    requires Halfway(w, rows, {}, now)
    ensures w == RestartStep(World(map[], map[], map[], rows), now)
  {
    RestoredEnds(rows, now);
    hide Restored, RowOf;
    assert w.masters == map m | m in Masters(w.sessions) :: RowOf(w.sessions, m);
  }

  lemma HalfwayNext(w: World, rows: map<Token, Info>, unseen: set<Token>, t: Token, now: int)
    requires Halfway(w, rows, unseen, now) && OneRowEach(rows) && t in rows && t in unseen && rows[t].token == t
    ensures now > rows[t].expiresAt ==> Halfway(w, rows, unseen - {t}, now)
    ensures now <= rows[t].expiresAt ==>
      && t !in w.sessions && rows[t].master !in w.masters && rows[t].master !in w.pending
      && (forall u :: u in w.sessions ==> w.sessions[u].master != rows[t].master)
      && Halfway(w.(sessions := w.sessions[t := rows[t]], masters := w.masters[rows[t].master := rows[t]]), rows, unseen - {t}, now)
  {
    RestoredNext(rows, unseen, t, now);
    NotYet(rows, unseen, t, now);
    hide Restored, RowOf;
    OneMoreRow(rows, w.sessions, t);
    NoMaster(w.sessions, rows[t].master);
    hide Masters;
  }

  /** Entries are under their own tokens. */
  predicate Filed(w: World) {
    && (forall t :: t in w.sessions ==> w.sessions[t].token == t)
    && (forall m :: m in w.masters ==> w.masters[m].master == m)
    && (forall m :: m in w.pending ==> w.pending[m].master == m)
  }

  class Manager {
    var sessions: map<Token, Session>
    var masters: map<Token, Session>
    var pending: map<Token, Session>
    var rows: map<Token, Info>
    ghost var Repr: set<Session>
    ghost var model: World

    /** A manager without sessions, over the stored rows. */
    constructor (rows: map<Token, Info>)
      ensures Valid() && model == World(map[], map[], map[], rows) && Repr == {}
    {
      sessions, masters, pending := map[], map[], map[];
      this.rows := rows;
      Repr := {};
      model := World(map[], map[], map[], rows);
    }

    /** After a restart: unexpired rows come back, each as one object under both its tokens. */
    constructor Restore(rows: map<Token, Info>, now: int)
      requires OneRowEach(rows) && forall t :: t in rows ==> rows[t].token == t
      ensures Valid() && model == RestartStep(World(map[], map[], map[], rows), now) && fresh(Repr)
    {
      sessions, masters, pending := map[], map[], map[];
      this.rows := rows;
      Repr := {};
      model := World(map[], map[], map[], rows);
      new;
      var unseen := rows.Keys;
      HalfwayStarts(rows, now);
      assert Valid();
      hide Valid, Halfway, OneRowEach, RestartStep;
      while unseen != {}
        invariant Valid() && fresh(Repr) && unseen <= rows.Keys && Halfway(model, rows, unseen, now)
        decreases |unseen|
      {
        var t :| t in unseen;
        HalfwayNext(model, rows, unseen, t, now);
        unseen := unseen - {t};
        if now <= rows[t].expiresAt {
          FileNew(rows[t]);
        }
      }
      HalfwayEnds(model, rows, now);
    }

    method FileNew(info: Info)
      requires Valid() && info.token !in model.sessions && info.master !in model.masters && info.master !in model.pending
      requires forall t :: t in model.sessions ==> model.sessions[t].master != info.master
      modifies this`Repr, this`sessions, this`masters, this`model
      ensures Valid() && fresh(Repr - old(Repr))
      ensures model == old(model).(sessions := old(model).sessions[info.token := info],
                                   masters := old(model).masters[info.master := info])
    {
      var s := new Session(info);
      Repr := Repr + {s};
      FileSession(s);
      FileMaster(s);
    }

    /** The index holds objects with these fields. */
    ghost predicate Tracks(index: map<Token, Session>, infos: map<Token, Info>)
      reads this, Repr
    {
      index.Keys == infos.Keys && forall t :: t in index ==> index[t] in Repr && index[t].info == infos[t]
    }

    /** Every object is filed under its own tokens, and one session is one object; `model` is what
        the objects and rows amount to. */
    ghost predicate Valid()
      reads this, Repr
    {
      && Tracks(sessions, model.sessions) && Tracks(masters, model.masters) && Tracks(pending, model.pending)
      && rows == model.rows && Filed(model) && Aligned(sessions, masters, pending, model.sessions)
    }

    static ghost predicate Aligned(
      sessions: map<Token, Session>, masters: map<Token, Session>, pending: map<Token, Session>, infos: map<Token, Info>)
    {
      && (forall t :: t in sessions && t in infos && infos[t].master in masters ==> masters[infos[t].master] == sessions[t])
      && (forall t :: t in sessions && t in infos && infos[t].master in pending ==> pending[infos[t].master] == sessions[t])
      && (forall m :: m in masters && m in pending ==> masters[m] == pending[m])
    }

    // ----------------------------------------------------------- one index, one object

    method Evict(token: Token)
      requires Valid()
      modifies this`sessions, this`model
      ensures Valid() && model == old(model).(sessions := old(model).sessions - {token})
      ensures sessions == old(sessions) - {token}
    {
      sessions := sessions - {token};
      model := model.(sessions := model.sessions - {token});
    }

    method DropMaster(m: Token)
      requires Valid()
      modifies this`masters, this`model
      ensures Valid() && model == old(model).(masters := old(model).masters - {m}) && masters == old(masters) - {m}
    {
      masters := masters - {m};
      model := model.(masters := model.masters - {m});
    }

    method DropPending(k: Token)
      requires Valid()
      modifies this`pending, this`model
      ensures Valid() && model == old(model).(pending := old(model).pending - {k})
    {
      pending := pending - {k};
      model := model.(pending := model.pending - {k});
    }

    /** The object is the one the other indexes have for its master token, if they have one. */
    ghost predicate Fits(s: Session)
      reads this, s
    {
      && s in Repr
      && (s.info.master in masters ==> masters[s.info.master] == s)
      && (s.info.master in pending ==> pending[s.info.master] == s)
    }

    method FileSession(s: Session)
      requires Valid() && Fits(s)
      modifies this`sessions, this`model
      ensures Valid() && model == old(model).(sessions := old(model).sessions[s.info.token := s.info])
      ensures sessions == old(sessions)[s.info.token := s]
    {
      sessions := sessions[s.info.token := s];
      model := model.(sessions := model.sessions[s.info.token := s.info]);
    }

    method FileMaster(s: Session)
      requires Valid() && Fits(s) && s.info.master !in masters
      requires forall t :: t in sessions && model.sessions[t].master == s.info.master ==> sessions[t] == s
      modifies this`masters, this`model
      ensures Valid() && model == old(model).(masters := old(model).masters[s.info.master := s.info])
      ensures masters == old(masters)[s.info.master := s]
    {
      masters := masters[s.info.master := s];
      model := model.(masters := model.masters[s.info.master := s.info]);
    }

    method FilePending(s: Session)
      requires Valid() && Fits(s) && s.info.master !in pending
      requires forall t :: t in sessions && model.sessions[t].master == s.info.master ==> sessions[t] == s
      modifies this`pending, this`model
      ensures Valid() && model == old(model).(pending := old(model).pending[s.info.master := s.info])
    {
      pending := pending[s.info.master := s];
      model := model.(pending := model.pending[s.info.master := s.info]);
    }

    method SetRows(r: map<Token, Info>)
      requires Valid()
      modifies this`rows, this`model
      ensures Valid() && model == old(model).(rows := r) && rows == r
    {
      rows := r;
      model := model.(rows := r);
    }

    /** The fields of a filed session change in place, where every index sees it. */
    method SetInfo(s: Session, info: Info)
      requires Valid() && Fits(s) && s.info.token in sessions && sessions[s.info.token] == s
      requires info.token == s.info.token && info.master == s.info.master
      modifies this`model, s
      ensures Valid() && Fits(s) && model == Change(old(model), info) && s.info == info
    {
      hide Filed;
      Elsewhere(s);
      ghost var w := model;
      s.info := info;
      model := Change(w, info);
      FiledChange(w, info);
      TracksChange(s, sessions, w.sessions, info.token, info);
      TracksSeen(s, masters, w.masters, info);
      TracksSeen(s, pending, w.pending, info);
      AlignedChange(sessions, masters, pending, w.sessions, info);
      hide Filed, Tracks, Seen, Aligned;
    }

    static lemma AlignedChange(sessions: map<Token, Session>, masters: map<Token, Session>, pending: map<Token, Session>,
                               infos: map<Token, Info>, info: Info)
      requires Aligned(sessions, masters, pending, infos) && info.token in infos && infos[info.token].master == info.master
      ensures Aligned(sessions, masters, pending, infos[info.token := info])
    {
    }

    /** One entry of an index changed, and no other entry is that object. */
    lemma TracksChange(s: Session, index: map<Token, Session>, infos: map<Token, Info>, t: Token, info: Info)
      requires index.Keys == infos.Keys && t in index && index[t] == s && s in Repr && s.info == info
      requires forall u :: u in index && u != t ==> index[u] in Repr && index[u] != s && index[u].info == infos[u]
      ensures Tracks(index, infos[t := info])
    {
    }

    lemma TracksSeen(s: Session, index: map<Token, Session>, infos: map<Token, Info>, info: Info)
      requires index.Keys == infos.Keys && s in Repr && s.info == info && (info.master in index ==> index[info.master] == s)
      requires forall u :: u in index && u != info.master ==> index[u] in Repr && index[u] != s && index[u].info == infos[u]
      ensures Tracks(index, Seen(infos, info))
    {
    }

    /** So do those of a session that has no access token just now. */
    method SetLoose(s: Session, info: Info)
      requires Valid() && Fits(s) && info.master == s.info.master
      requires s.info.token in sessions ==> sessions[s.info.token] != s
      modifies this`model, s
      ensures Valid() && Fits(s) && s.info == info
      ensures model == old(model).(masters := Seen(old(model).masters, info), pending := Seen(old(model).pending, info))
    {
      Elsewhere(s);
      ghost var w := model;
      s.info := info;
      model := w.(masters := Seen(w.masters, info), pending := Seen(w.pending, info));
      TracksSeen(s, masters, w.masters, info);
      TracksSeen(s, pending, w.pending, info);
    }

    /** What the indexes hold is what the model says. */
    lemma Known()
      requires Valid()
      ensures sessions.Keys == model.sessions.Keys && forall t :: t in sessions ==> sessions[t] in Repr && sessions[t].info == model.sessions[t]
      ensures masters.Keys == model.masters.Keys && forall m :: m in masters ==> masters[m] in Repr && masters[m].info == model.masters[m]
      ensures rows == model.rows && Filed(model)
    {
    }

    lemma KnownMaster(m: Token)
      requires Valid()
      ensures m in masters <==> m in model.masters
      ensures m in masters ==> masters[m].info == model.masters[m]
    {
    }

    lemma KnownSession(t: Token)
      requires Valid()
      ensures t in sessions <==> t in model.sessions
      ensures t in sessions ==> sessions[t].info == model.sessions[t]
    {
    }

    lemma MasterFits(m: Token)
      requires Valid() && m in masters
      ensures Fits(masters[m]) && masters[m].info.master == m
      ensures forall t :: t in sessions && t != masters[m].info.token ==> sessions[t] != masters[m]
    {
    }

    lemma Elsewhere(s: Session)
      requires Valid()
      ensures forall t :: t in sessions && t != s.info.token ==> sessions[t] != s
      ensures forall m :: m in masters && m != s.info.master ==> masters[m] != s
      ensures forall m :: m in pending && m != s.info.master ==> pending[m] != s
    {
    }

    // ----------------------------------------------------------- operations

    method Publish(info: Info) returns (s: Session)
      requires Valid() && info.token !in sessions && info.master !in masters && info.master !in pending
      requires forall t :: t in sessions ==> model.sessions[t].master != info.master
      modifies this
      ensures Valid() && model == PublishStep(old(model), info) && fresh(Repr - old(Repr))
    {
      s := new Session(info);
      Repr := Repr + {s};
      FileSession(s);
      FileMaster(s);
      FilePending(s);
    }

    /** The outcome of storing a new session. */
    method FinishPublish(k: Token, ok: bool) returns (r: Reply)
      requires Valid()
      modifies this
      ensures Valid() && (model, r) == StoredStep(old(model), k, ok) && Repr == old(Repr)
    {
      if k !in pending { return Fine; }
      var info := pending[k].info;
      DropPending(k);
      if ok {
        SetRows(rows[info.token := info]);
        return Yields(k);
      }
      Evict(info.token);
      DropMaster(k);
      return Failed;
    }

    method InspectSession(token: Token, now: int) returns (r: Reply)
      requires Valid()
      modifies this
      ensures Valid() && (model, r) == InspectStep(old(model), token, now) && Repr == old(Repr)
    {
      if token == "" || token !in sessions { return Failed; }
      if now > sessions[token].info.expiresAt {
        Evict(token);
        return Failed;
      }
      return Yields(sessions[token].info.master);
    }

    method FinishValidation(token: Token, now: int, later: int) returns (r: Reply)
      requires Valid()
      modifies this, Repr
      ensures Valid() && (model, r) == FinishStep(old(model), token, now, later) && Repr == old(Repr)
    {
      if token !in sessions { return Failed; }
      var s := sessions[token];
      if later > s.info.expiresAt { return Failed; }
      if now > s.info.lastAccess {
        SetInfo(s, s.info.(lastAccess := now));
      }
      return Yields(s.info.master);
    }

    method CloseSession(token: Token, ok: bool) returns (r: Reply)
      requires Valid()
      modifies this
      ensures Valid() && (model, r) == CloseStep(old(model), token, ok) && Repr == old(Repr)
    {
      hide Valid;
      Known();
      if token in sessions {
        var master := sessions[token].info.master;
        Evict(token);
        DropMaster(master);
      }
      assert old(model).sessions - {token} == model.sessions;
      RevokeMasters(token);
      Known();
      if !ok { return Failed; }
      SetRows(rows - {token});
      return Fine;
    }

    /** The master tokens that still belong to the access token go as well. */
    method RevokeMasters(token: Token)
      requires Valid()
      modifies this`masters, this`model
      ensures Valid() && model == old(model).(masters := map m | m in old(model).masters
        && old(model).masters[m].token != token :: old(model).masters[m])
    {
      hide Valid;
      Known();
      ghost var start := model;
      var unseen := masters.Keys;
      while unseen != {}
        invariant Valid() && unseen <= start.masters.Keys && model == start.(masters := model.masters)
        invariant forall m :: m in model.masters <==> m in start.masters && (m in unseen || start.masters[m].token != token)
        invariant forall m :: m in model.masters ==> model.masters[m] == start.masters[m]
        decreases |unseen|
      {
        var m :| m in unseen;
        unseen := unseen - {m};
        KnownMaster(m);
        if masters[m].info.token == token {
          DropMaster(m);
        }
      }
      assert model.masters == map m | m in start.masters && start.masters[m].token != token :: start.masters[m];
    }

    method Save(s: Session, info: Info, ok: bool) returns (r: Reply)
      requires Valid() && Fits(s) && s.info.token in sessions && sessions[s.info.token] == s
      requires info.token == s.info.token && info.master == s.info.master
      modifies this`rows, this`model, s
      ensures Valid() && (model, r) == SaveStep(old(model), info, ok)
    {
      var before := s.info;
      SetInfo(s, info);
      if !ok {
        SetInfo(s, before);
        UndoChange(old(model), info, before);
        return Failed;
      }
      SetRows(rows[info.token := info]);
      return Yields(info.master);
    }

    method UpdateSessionContext(token: Token, database: string, schema: string, now: int, ok: bool) returns (r: Reply)
      requires Valid()
      modifies this, Repr
      ensures Valid() && (model, r) == UpdateContextStep(old(model), token, database, schema, now, ok) && Repr == old(Repr)
    {
      if token !in sessions { return Failed; }
      var s := sessions[token];
      var info := s.info;
      if database != "" { info := info.(database := database); }
      if schema != "" { info := info.(schema := schema); }
      r := Save(s, info.(lastAccess := now), ok);
    }

    method SetWarehouse(token: Token, warehouse: string, ok: bool) returns (r: Reply)
      requires Valid()
      modifies this, Repr
      ensures Valid() && (model, r) == SetWarehouseStep(old(model), token, warehouse, ok) && Repr == old(Repr)
    {
      if token !in sessions { return Failed; }
      r := Save(sessions[token], sessions[token].info.(warehouse := warehouse), ok);
    }

    method CleanupExpiredSessions(now: int) returns (count: nat)
      requires Valid()
      modifies this
      ensures Valid() && model == CleanupStep(old(model), now) && Repr == old(Repr)
      ensures count == |old(model).sessions| - |model.sessions|
    {
      hide Valid, Swept;
      Known();
      count := 0;
      ghost var start := model;
      var unseen := sessions.Keys;
      SweptEnds(start.sessions, now);
      while unseen != {}
        invariant Valid() && unseen <= start.sessions.Keys && Repr == old(Repr)
        invariant count + |model.sessions| == |start.sessions| && model == start.(sessions := Swept(start.sessions, unseen, now))
        decreases |unseen|
      {
        var t :| t in unseen;
        KnownSession(t);
        SweptNext(start.sessions, unseen, t, now);
        unseen := unseen - {t};
        if now > sessions[t].info.expiresAt {
          OneFewer(model.sessions, t);
          Evict(t);
          count := count + 1;
        }
      }
    }

    method RenewToken(k: Token, token: Token, now: int, timeout: int, ok: bool) returns (r: Reply)
      requires Valid() && token !in sessions
      modifies this, Repr
      ensures Valid() && (model, r) == RenewStep(old(model), k, token, now, timeout, ok) && Repr == old(Repr)
    {
      hide Valid;
      Known();
      if k == "" || k !in masters { return Failed; }
      var s := masters[k];
      MasterFits(k);
      if now > s.info.createdAt + s.info.masterValidity {
        DropMaster(k);
        Evict(s.info.token);
        return Failed;
      }
      if !ok { return Failed; }
      var oldToken := s.info.token;
      var replacement := s.info.(token := token, lastAccess := now, expiresAt := now + timeout);
      SetRows(rows[token := replacement] - {oldToken});
      Evict(oldToken);
      SetLoose(s, replacement);
      FileSession(s);
      return Yields(k);
    }

    method UpdateLastAccessed(token: Token, now: int, ok: bool) returns (r: Reply)
      requires Valid()
      modifies this, Repr
      ensures Valid() && (model, r) == HeartbeatStep(old(model), token, now, ok) && Repr == old(Repr)
    {
      if token == "" || token !in sessions { return Failed; }
      var s := sessions[token];
      if now > s.info.expiresAt {
        Evict(token);
        return Failed;
      }
      if !ok { return Failed; }
      SetRows(TouchRow(rows, token, now));
      SetInfo(s, s.info.(lastAccess := now));
      return Yields(s.info.master);
    }
  }

  lemma FiledChange(w: World, info: Info)
    requires Filed(w)
    ensures Filed(Change(w, info))
  {
  }

  /** Expired sessions are gone, except those not looked at yet. */
  function Swept(sessions: map<Token, Info>, unseen: set<Token>, now: int): map<Token, Info> {
    map t | t in sessions && (t in unseen || now <= sessions[t].expiresAt) :: sessions[t]
  }

  lemma SweptNext(sessions: map<Token, Info>, unseen: set<Token>, t: Token, now: int)
    requires t in sessions && t in unseen
    ensures var m := Swept(sessions, unseen, now);
            t in m && m[t] == sessions[t]
            && Swept(sessions, unseen - {t}, now) == if now > sessions[t].expiresAt then m - {t} else m
  {
  }

  lemma SweptEnds(sessions: map<Token, Info>, now: int)
    ensures Swept(sessions, sessions.Keys, now) == sessions
    ensures Swept(sessions, {}, now) == map t | t in sessions && now <= sessions[t].expiresAt :: sessions[t]
  {
  }

  lemma OneFewer(m: map<Token, Info>, t: Token)
    requires t in m
    ensures |m - {t}| == |m| - 1
  {
    assert m.Keys == (m - {t}).Keys + {t};
  }

  lemma UndoChange(w: World, info: Info, before: Info)
    requires info.token in w.sessions && w.sessions[info.token] == before && info.token == before.token && info.master == before.master
    requires before.master in w.masters ==> w.masters[before.master] == before
    requires before.master in w.pending ==> w.pending[before.master] == before
    ensures Change(Change(w, info), before) == w
  {
    assert w.sessions[info.token := info][before.token := before] == w.sessions;
    assert Seen(Seen(w.masters, info), before) == w.masters;
    assert Seen(Seen(w.pending, info), before) == w.pending;
  }
}
