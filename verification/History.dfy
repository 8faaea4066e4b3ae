/** The statement manager and the recorded statement history (pkg/query/statement_manager.go,
    pkg/metadata/statement_history.go): status changes, recording outside the lock, and the
    listing that merges memory with the store. */
module Histories {

  datatype Option<T> = None | Some(value: T)

  datatype Status = Pending | Queued | Running | Success | Failed | Canceled

  datatype Details = Details(sqlText: string, database: string, schema: string, warehouse: string, userId: string,
                             username: string, warehouseSize: string)

  datatype Error = Error(code: string, message: string)

  /** A statement in memory; `rows` is the length of its result set, if it has one. */
  datatype Statement = Statement(handle: string, status: Status, details: Details, createdOn: int, queuedOn: Option<int>,
                                 startedOn: Option<int>, completedOn: Option<int>, rows: Option<nat>,
                                 rowsAffected: Option<int>, error: Option<Error>)

  datatype Summary = Summary(handle: string, status: Status, details: Details, createdOn: int, queuedOn: Option<int>,
                             startedOn: Option<int>, completedOn: Option<int>, rowCount: nat, errorCode: string,
                             errorMessage: string)

  function Summarize(s: Statement): Summary {
    Summary(s.handle, s.status, s.details, s.createdOn, s.queuedOn, s.startedOn, s.completedOn,
            if s.rows.Some? then s.rows.value else 0,
            if s.error.Some? then s.error.value.code else "", if s.error.Some? then s.error.value.message else "")
  }

  // ------------------------------------------------------------- the store

  /** Where the handle's row is, or |rows|. */
  function RowOf(rows: seq<Summary>, handle: string): (k: nat)
    ensures k <= |rows| && (k < |rows| ==> rows[k].handle == handle) && (forall i :: 0 <= i < k ==> rows[i].handle != handle)
  {
    if rows == [] || rows[0].handle == handle then 0 else 1 + RowOf(rows[1..], handle)
  }

  /** Recording a statement again updates its row; a statement without a handle is refused. */
  function Recorded(rows: seq<Summary>, x: Summary): seq<Summary> {
    var k := RowOf(rows, x.handle);
    if x.handle == "" then rows else if k < |rows| then rows[k := x] else rows + [x]
  }

  /** Rows that did not finish before this time. */
  function Pruned(rows: seq<Summary>, before: int): seq<Summary> {
    if rows == [] then []
    else (if rows[0].completedOn.Some? && rows[0].completedOn.value < before then [] else [rows[0]]) + Pruned(rows[1..], before)
  }

  function Insert(x: Summary, l: seq<Summary>): seq<Summary> {
    if l == [] || x.createdOn > l[0].createdOn then [x] + l else [l[0]] + Insert(x, l[1..])
  }

  /** Newest first. What order equal times come in is not said by the program; only lists of
      distinct times are reasoned about. */
  function Newest(s: seq<Summary>): seq<Summary> {
    if s == [] then [] else Insert(s[0], Newest(s[1..]))
  }

  function Take(s: seq<Summary>, limit: int): seq<Summary> {
    if 0 < limit < |s| then s[..limit] else s
  }

  function WithHandles(rows: seq<Summary>): seq<Summary> {
    if rows == [] then [] else (if rows[0].handle == "" then [] else [rows[0]]) + WithHandles(rows[1..])
  }

  function Fetched(rows: seq<Summary>, limit: int): seq<Summary> { Take(Newest(WithHandles(rows)), limit) }

  // ------------------------------------------------------------- the listing

  function Handles(s: seq<Summary>): set<string> { set x | x in s :: x.handle }

  /** The rows whose handles are not among these. */
  function Unseen(rows: seq<Summary>, seen: set<string>): seq<Summary> {
    if rows == [] then [] else (if rows[0].handle in seen then [] else [rows[0]]) + Unseen(rows[1..], seen)
  }

  /** Memory first, then what the store has beyond it. */
  function Merged(mem: seq<Summary>, records: seq<Summary>): seq<Summary> {
    Newest(mem + Unseen(records, Handles(mem)))
  }

  function Listing(mem: seq<Summary>, rows: seq<Summary>, limit: int): seq<Summary> {
    Take(Merged(mem, Fetched(rows, if limit > 0 then limit + |mem| else 0)), limit)
  }

  function ForUser(s: seq<Summary>, user: string): seq<Summary> {
    if s == [] then [] else (if s[0].details.userId == user then [s[0]] else []) + ForUser(s[1..], user)
  }

  // ------------------------------------------------------------- the machine

  /** What is in memory, what is being recorded (the lock is given up first), what is stored,
      and every handle given out with its creation time. */
  datatype State = State(memory: map<string, Statement>, inflight: seq<Summary>, rows: seq<Summary>, born: map<string, int>)

  datatype Change =
    | Update(status: Status)
    | SetResult(rows: nat)
    | SetExecResult(affected: int)
    | SetError(error: Error)
    | Cancel

  datatype Step =
    | Create(handle: string, details: Details, now: int)
    | Change(handle: string, change: Change, now: int)
    | Describe(handle: string, username: string, warehouseSize: string)
    | Delete(handle: string)
    | Expire(now: int, ttl: int)
    | Write(index: nat)
    | Lose(index: nat)
    | Prune(before: int)

  predicate Final(status: Status) { status in {Success, Failed, Canceled} }

  /** The change is made under the lock only when this holds. */
  predicate Allowed(status: Status, c: Change) {
    if c.Cancel? then status in {Running, Pending, Queued} else status != Canceled
  }

  function Changed(s: Statement, c: Change, now: int): Statement {
    match c
    case Update(status) =>
      s.(status := status,
         queuedOn := if status == Queued && s.queuedOn.None? then Some(now) else s.queuedOn,
         startedOn := if status == Running && s.startedOn.None? then Some(now) else s.startedOn,
         completedOn := if Final(status) then Some(now) else s.completedOn)
    case SetResult(rows) => s.(rows := Some(rows), status := Success, completedOn := Some(now))
    case SetExecResult(affected) => s.(rowsAffected := Some(affected), status := Success, completedOn := Some(now))
    case SetError(error) => s.(error := Some(error), status := Failed, completedOn := Some(now))
    case Cancel => s.(status := Canceled, completedOn := Some(now))
  }

  predicate Stale(s: Statement, now: int, ttl: int) { s.completedOn.Some? && now - s.completedOn.value > ttl }

  function Born(handle: string, details: Details, now: int): Statement {
    Statement(handle, Pending, details, now, None, None, None, None, None, None)
  }

  /** A new handle is one that was never given out. */
  predicate Enabled(s: State, step: Step) {
    match step
    case Create(handle, _, now) => handle != "" && handle !in s.born && now !in s.born.Values
    case Write(k) => k < |s.inflight|
    case Lose(k) => k < |s.inflight|
    case _ => true
  }

  function Next(s: State, step: Step): State
    requires Enabled(s, step)
  {
    match step
    case Create(handle, details, now) => s.(memory := s.memory[handle := Born(handle, details, now)], born := s.born[handle := now])
    case Change(handle, change, now) =>
      if handle in s.memory && Allowed(s.memory[handle].status, change) then
        var changed := Changed(s.memory[handle], change, now);
        s.(memory := s.memory[handle := changed], inflight := s.inflight + [Summarize(changed)])
      else s
    case Describe(handle, username, size) =>
      if handle in s.memory then
        var was := s.memory[handle];
        s.(memory := s.memory[handle := was.(details := was.details.(username := username, warehouseSize := size))])
      else s
    case Delete(handle) => s.(memory := s.memory - {handle})
    case Expire(now, ttl) => s.(memory := map h | h in s.memory && !Stale(s.memory[h], now, ttl) :: s.memory[h])
    case Write(k) => s.(inflight := s.inflight[..k] + s.inflight[k + 1..], rows := Recorded(s.rows, s.inflight[k]))
    case Lose(k) => s.(inflight := s.inflight[..k] + s.inflight[k + 1..])
    case Prune(before) => s.(rows := Pruned(s.rows, before))
  }

  const Start := State(map[], [], [], map[])

  /** A change and, straight after it, its recording. */
  function Whole(s: State, step: Step, works: bool): State
    requires Enabled(s, step)
  {
    var t := Next(s, step);
    if |t.inflight| == |s.inflight| then t
    else if |t.inflight| == 0 then t
    else if works then Next(t, Write(|t.inflight| - 1)) else Next(t, Lose(|t.inflight| - 1))
  }

  /** What that leaves when nothing else is being recorded. */
  lemma WholeChange(s: State, handle: string, change: Change, now: int, works: bool)
    requires s.inflight == []
    ensures Whole(s, Change(handle, change, now), works)
         == if handle in s.memory && Allowed(s.memory[handle].status, change) then
              var changed := Changed(s.memory[handle], change, now);
              s.(memory := s.memory[handle := changed], rows := if works then Recorded(s.rows, Summarize(changed)) else s.rows)
            else s
  {
    hide Recorded, Changed, Summarize, Allowed;
    if handle in s.memory && Allowed(s.memory[handle].status, change) {
      var x := Summarize(Changed(s.memory[handle], change, now));
      assert Next(s, Change(handle, change, now)).inflight == [x];
      assert [x][..0] + [x][1..] == [];
    }
  }

  // ------------------------------------------------------------- the program's classes

  class Repository {
    var rows: seq<Summary>

    constructor ()
      ensures rows == []
    {
      rows := [];
    }

    /** Fails for a statement without a handle, or when the database does. */
    method RecordStatement(record: Summary, works: bool) returns (ok: bool)
      modifies this
      ensures ok <==> works && record.handle != ""
      ensures rows == if works then Recorded(old(rows), record) else old(rows)
    {
      if record.handle == "" || !works { return false; }
      var k := 0;
      while k < |rows| && rows[k].handle != record.handle
        invariant k <= |rows| && rows == old(rows) && RowOf(rows, record.handle) == k + RowOf(rows[k..], record.handle)
      {
        assert rows[k..][1..] == rows[k + 1..];
        k := k + 1;
      }
      if k < |rows| { rows := rows[k := record]; } else { rows := rows + [record]; }
      return true;
    }

    method ListStatementHistory(limit: int) returns (records: seq<Summary>)
      ensures records == Fetched(rows, limit)
    {
      records := Newest(WithHandles(rows));
      if 0 < limit < |records| { records := records[..limit]; }
    }

    method PruneStatementHistory(before: int)
      modifies this
      ensures rows == Pruned(old(rows), before)
    {
      rows := Pruned(rows, before);
    }
  }

  lemma ForUserAt(s: seq<Summary>, user: string, k: nat)
    requires k < |s|
    ensures ForUser(s[k..], user) == (if s[k].details.userId == user then [s[k]] else []) + ForUser(s[k + 1..], user)
  {
    assert s[k..][1..] == s[k + 1..];
  }

  /** These statements of the memory, each once, in some order. */
  ghost predicate Enumerates(order: seq<Summary>, memory: map<string, Statement>, seen: set<string>) {
    && seen <= memory.Keys && seen == Handles(order) && |seen| == |order|
    && (forall k :: 0 <= k < |order| ==> order[k].handle in seen && order[k] == Summarize(memory[order[k].handle]))
    && (forall i, j :: 0 <= i < j < |order| ==> order[i].handle != order[j].handle)
  }

  lemma EnumeratesMore(order: seq<Summary>, memory: map<string, Statement>, seen: set<string>, h: string)
    requires Enumerates(order, memory, seen) && h in memory && h !in seen && memory[h].handle == h
    ensures Enumerates(order + [Summarize(memory[h])], memory, seen + {h})
  {
    var x := Summarize(memory[h]);
    HandlesMore(order, x);
    assert x.handle == h;
    hide Handles, Summarize;
    DistinctMore(order, x);
    SummariesMore(order, memory, seen, h);
  }

  lemma SummariesMore(order: seq<Summary>, memory: map<string, Statement>, seen: set<string>, h: string)
    requires h in memory && seen <= memory.Keys && Summarize(memory[h]).handle == h
    requires forall k :: 0 <= k < |order| ==> order[k].handle in seen && order[k] == Summarize(memory[order[k].handle])
    ensures var more, all := order + [Summarize(memory[h])], seen + {h};
            forall k :: 0 <= k < |more| ==> more[k].handle in all && more[k] == Summarize(memory[more[k].handle])
  {
    hide Summarize;
  }

  lemma DistinctMore(order: seq<Summary>, x: Summary)
    requires forall i, j :: 0 <= i < j < |order| ==> order[i].handle != order[j].handle
    requires forall i :: 0 <= i < |order| ==> order[i].handle != x.handle
    ensures var more := order + [x]; forall i, j :: 0 <= i < j < |more| ==> more[i].handle != more[j].handle
  {
  }

  lemma HandlesMore(s: seq<Summary>, x: Summary)
    ensures Handles(s + [x]) == Handles(s) + {x.handle}
  {
    assert forall y :: y in s + [x] <==> y in s || y == x;
  }

  lemma UnseenAt(records: seq<Summary>, seen: set<string>, k: nat)
    requires k < |records|
    ensures Unseen(records[k..], seen) == (if records[k].handle in seen then [] else [records[k]]) + Unseen(records[k + 1..], seen)
  {
    assert records[k..][1..] == records[k + 1..];
  }

  lemma ListingIs(mem: seq<Summary>, rows: seq<Summary>, limit: int, recorded: seq<Summary>)
    requires recorded == Unseen(Fetched(rows, if limit > 0 then limit + |mem| else 0), Handles(mem))
    ensures var all := Newest(mem + recorded); Listing(mem, rows, limit) == if limit > 0 && |all| > limit then all[..limit] else all
  {
    hide Newest, Unseen, Fetched, Handles;
  }

  lemma NoRows(seen: set<string>, limit: int)
    ensures Unseen(Fetched([], limit), seen) == []
  {
  }

  /** The user's statements, until there are enough. */
  method UpTo(every: seq<Summary>, user: string, limit: int) returns (filtered: seq<Summary>)
    ensures filtered == Take(ForUser(every, user), limit)
  {
    filtered := [];
    for k := 0 to |every|
      invariant ForUser(every, user) == filtered + ForUser(every[k..], user)
      invariant limit > 0 ==> |filtered| < limit
    {
      ForUserAt(every, user, k);
      hide ForUser;
      if every[k].details.userId == user {
        filtered := filtered + [every[k]];
        if limit > 0 && |filtered| == limit { return; }
      }
    }
  }

  class StatementManager {
    var statements: map<string, Statement>
    var history: Repository?
    ghost var born: map<string, int>

    constructor ()
      ensures history == null && Now() == Start
    {
      statements := map[];
      history := null;
      born := map[];
    }

    function Rows(): seq<Summary>
      reads this, history
    {
      if history == null then [] else history.rows
    }

    ghost function Now(): State
      reads this, history
    {
      State(statements, [], Rows(), born)
    }

    method CreateStatement(handle: string, details: Details, now: int) returns (created: Statement)
      requires Enabled(Now(), Create(handle, details, now))
      modifies `statements, `born
      ensures Now() == Next(old(Now()), Create(handle, details, now)) && created == statements[handle]
    {
      created := Born(handle, details, now);
      statements := statements[handle := created];
      born := born[handle := now];
    }

    /** Whether the manager's store takes the record. */
    method Record(summary: Summary, works: bool)
      modifies history
      ensures history == old(history) && Rows() == if works && history != null then Recorded(old(Rows()), summary) else old(Rows())
    {
      if history != null {
        var ok := history.RecordStatement(summary, works);
      }
    }

    method UpdateStatus(handle: string, status: Status, now: int, works: bool) returns (ok: bool)
      modifies this, history
      ensures history == old(history) && Now() == Whole(old(Now()), Change(handle, Update(status), now), works && history != null)
      ensures ok <==> handle in old(statements) && old(statements)[handle].status != Canceled
    {
      WholeChange(Now(), handle, Update(status), now, works && history != null);
      hide Whole, Next, Recorded, Summarize;
      if handle !in statements { return false; }
      var s := statements[handle];
      if s.status == Canceled { return false; }
      s := s.(status := status);
      if status == Queued && s.queuedOn == None { s := s.(queuedOn := Some(now)); }
      if status == Running && s.startedOn == None { s := s.(startedOn := Some(now)); }
      if status == Success || status == Failed || status == Canceled { s := s.(completedOn := Some(now)); }
      assert s == Changed(statements[handle], Update(status), now);
      hide Changed;
      statements := statements[handle := s];
      Record(Summarize(s), works);
      return true;
    }

    method SetStatementResult(handle: string, rows: nat, now: int, works: bool) returns (ok: bool)
      modifies this, history
      ensures history == old(history) && Now() == Whole(old(Now()), Change(handle, SetResult(rows), now), works && history != null)
      ensures ok <==> handle in old(statements) && old(statements)[handle].status != Canceled
    {
      WholeChange(Now(), handle, SetResult(rows), now, works && history != null);
      hide Whole, Next, Recorded, Summarize;
      if handle !in statements || statements[handle].status == Canceled { return false; }
      var s := statements[handle].(rows := Some(rows), status := Success, completedOn := Some(now));
      statements := statements[handle := s];
      Record(Summarize(s), works);
      return true;
    }

    method SetStatementExecResult(handle: string, affected: int, now: int, works: bool) returns (ok: bool)
      modifies this, history
      ensures history == old(history) && Now() == Whole(old(Now()), Change(handle, SetExecResult(affected), now), works && history != null)
      ensures ok <==> handle in old(statements) && old(statements)[handle].status != Canceled
    {
      WholeChange(Now(), handle, SetExecResult(affected), now, works && history != null);
      hide Whole, Next, Recorded, Summarize;
      if handle !in statements || statements[handle].status == Canceled { return false; }
      var s := statements[handle].(rowsAffected := Some(affected), status := Success, completedOn := Some(now));
      statements := statements[handle := s];
      Record(Summarize(s), works);
      return true;
    }

    method SetStatementError(handle: string, error: Error, now: int, works: bool) returns (ok: bool)
      modifies this, history
      ensures history == old(history) && Now() == Whole(old(Now()), Change(handle, SetError(error), now), works && history != null)
      ensures ok <==> handle in old(statements) && old(statements)[handle].status != Canceled
    {
      WholeChange(Now(), handle, SetError(error), now, works && history != null);
      hide Whole, Next, Recorded, Summarize;
      if handle !in statements || statements[handle].status == Canceled { return false; }
      var s := statements[handle].(error := Some(error), status := Failed, completedOn := Some(now));
      statements := statements[handle := s];
      Record(Summarize(s), works);
      return true;
    }

    /** Only a statement that has not ended can be cancelled. */
    method CancelStatement(handle: string, now: int, works: bool) returns (ok: bool)
      modifies this, history
      ensures history == old(history) && Now() == Whole(old(Now()), Change(handle, Cancel, now), works && history != null)
      ensures ok <==> handle in old(statements) && old(statements)[handle].status in {Pending, Queued, Running}
    {
      WholeChange(Now(), handle, Cancel, now, works && history != null);
      hide Whole, Next, Recorded, Summarize;
      if handle !in statements { return false; }
      var s := statements[handle];
      if s.status != Running && s.status != Pending && s.status != Queued { return false; }
      s := s.(status := Canceled, completedOn := Some(now));
      statements := statements[handle := s];
      Record(Summarize(s), works);
      return true;
    }

    method DeleteStatement(handle: string)
      modifies `statements
      ensures Now() == Next(old(Now()), Delete(handle))
    {
      statements := statements - {handle};
    }

    /** Drops the statements that ended longer ago than they are kept. */
    method Cleanup(now: int, ttl: int)
      modifies `statements
      ensures Now() == Next(old(Now()), Expire(now, ttl))
    {
      var left := statements.Keys;
      while left != {}
        invariant left <= old(statements.Keys)
        invariant statements == map h | h in old(statements) && (h in left || !Stale(old(statements)[h], now, ttl)) :: old(statements)[h]
        decreases |left|
      {
        var h :| h in left;
        left := left - {h};
        if Stale(statements[h], now, ttl) { statements := statements - {h}; }
      }
    }

    method SetExecutionMetadata(handle: string, username: string, warehouseSize: string)
      modifies `statements
      ensures Now() == Next(old(Now()), Describe(handle, username, warehouseSize))
    {
      if handle in statements {
        var s := statements[handle];
        statements := statements[handle := s.(details := s.details.(username := username, warehouseSize := warehouseSize))];
      }
    }

    /** The store's rows that memory does not cover; none when the store cannot be read. */
    method RecordedStatements(limit: int, seen: set<string>, works: bool) returns (summaries: seq<Summary>)
      ensures summaries == if works && history != null
                           then Unseen(Fetched(Rows(), if limit > 0 then limit + |seen| else 0), seen) else []
    {
      if history == null || !works { return []; }
      hide Fetched, Newest, Take, WithHandles, Enumerates;
      var fetch := 0;
      if limit > 0 { fetch := limit + |seen|; }
      var records := history.ListStatementHistory(fetch);
      summaries := [];
      for k := 0 to |records|
        invariant Unseen(records, seen) == summaries + Unseen(records[k..], seen)
      {
        UnseenAt(records, seen, k);
        hide Unseen;
        if records[k].handle !in seen { summaries := summaries + [records[k]]; }
      }
    }

    /** What the listing reads under the lock. */
    method SummarizeAll() returns (summaries: seq<Summary>, seen: set<string>)
      requires forall h :: h in statements ==> statements[h].handle == h
      ensures Enumerates(summaries, statements, seen) && seen == statements.Keys
    {
      summaries := [];
      seen := {};
      while seen != statements.Keys
        invariant Enumerates(summaries, statements, seen)
        decreases |statements.Keys - seen|
      {
        var h :| h in statements.Keys - seen;
        EnumeratesMore(summaries, statements, seen, h);
        summaries := summaries + [Summarize(statements[h])];
        seen := seen + {h};
      }
    }

    /** Most recent first; `order` is the order in which the map gave its statements. */
    method ListStatementsWithContext(limit: int, works: bool) returns (summaries: seq<Summary>, ghost order: seq<Summary>)
      requires forall h :: h in statements ==> statements[h].handle == h
      ensures Enumerates(order, statements, statements.Keys)
      ensures summaries == Listing(order, if works then Rows() else [], limit)
    {
      hide Unseen, Newest, Fetched, Listing;
      var seen;
      summaries, seen := SummarizeAll();
      order := summaries;
      assert seen == Handles(order) && |seen| == |order|;
      hide Enumerates, Handles;
      ghost var rows, fetch := if works then Rows() else [], if limit > 0 then limit + |seen| else 0;
      NoRows(seen, fetch);
      var recorded := RecordedStatements(limit, seen, works);
      assert recorded == Unseen(Fetched(rows, fetch), seen);
      ListingIs(order, rows, limit, recorded);
      summaries := Newest(summaries + recorded);
      if limit > 0 && |summaries| > limit { summaries := summaries[..limit]; }
    }

    /** Filters before it limits. */
    method ListStatementsForUser(user: string, limit: int, works: bool) returns (filtered: seq<Summary>, ghost order: seq<Summary>)
      requires forall h :: h in statements ==> statements[h].handle == h
      ensures Enumerates(order, statements, statements.Keys)
      ensures filtered == Take(ForUser(Listing(order, if works then Rows() else [], 0), user), limit)
    {
      var every;
      every, order := ListStatementsWithContext(0, works);
      filtered := UpTo(every, user, limit);
    }
  }
}
