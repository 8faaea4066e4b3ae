/** What the manager shows of a statement, told by the changes that were asked for and nothing
    else: the last word on its status, the first time it ran, the last time it ended. */
module HistoryTold {
  import opened Histories
  import opened HistorySafety

  /** A change that was made, and when. */
  datatype Made = Made(change: Change, at: int)

  /** The status that a change gives. */
  function StatusOf(c: Change): Status {
    match c
    case Update(status) => status
    case SetResult(_) => Success
    case SetExecResult(_) => Success
    case SetError(_) => Failed
    case Cancel => Canceled
  }

  predicate Ends(c: Change) { StatusOf(c) == Success || StatusOf(c) == Failed || StatusOf(c) == Canceled }

  function Last(cs: seq<Made>): Made
    requires cs != []
  {
    cs[|cs| - 1]
  }

  function LastStatus(cs: seq<Made>): Status { if cs == [] then Pending else StatusOf(Last(cs).change) }

  /** A statement is cancelled only before it ends, and a cancelled one does not change any more. */
  predicate MayMake(cs: seq<Made>, c: Change) {
    if c == Cancel then LastStatus(cs) == Pending || LastStatus(cs) == Queued || LastStatus(cs) == Running
    else LastStatus(cs) != Canceled
  }

  /** The time of the first such change. */
  function FirstTime(cs: seq<Made>, c: Change): Option<int> {
    if cs == [] then None else if cs[0].change == c then Some(cs[0].at) else FirstTime(cs[1..], c)
  }

  /** The last change for which p holds. */
  function LastOf(cs: seq<Made>, p: Change -> bool): Option<Made> {
    if cs == [] then None else if p(Last(cs).change) then Some(Last(cs)) else LastOf(cs[..|cs| - 1], p)
  }

  function EndTime(cs: seq<Made>): Option<int> {
    var e := LastOf(cs, c => Ends(c));
    if e.Some? then Some(e.value.at) else None
  }

  function RowsOf(cs: seq<Made>): Option<nat> {
    var e := LastOf(cs, (c: Change) => c.SetResult?);
    if e.Some? && e.value.change.SetResult? then Some(e.value.change.rows) else None
  }

  function AffectedOf(cs: seq<Made>): Option<int> {
    var e := LastOf(cs, (c: Change) => c.SetExecResult?);
    if e.Some? && e.value.change.SetExecResult? then Some(e.value.change.affected) else None
  }

  function ErrorOf(cs: seq<Made>): Option<Error> {
    var e := LastOf(cs, (c: Change) => c.SetError?);
    if e.Some? && e.value.change.SetError? then Some(e.value.change.error) else None
  }

  /** A statement as its changes tell it. */
  function Told(handle: string, details: Details, born: int, cs: seq<Made>): Statement {
    Statement(handle, LastStatus(cs), details, born, FirstTime(cs, Update(Queued)), FirstTime(cs, Update(Running)),
              EndTime(cs), RowsOf(cs), AffectedOf(cs), ErrorOf(cs))
  }

  // ------------------------------------------------------------- which changes are made

  /** The changes of this statement that are made, after those made before. */
  function Making(steps: seq<Step>, handle: string, cs: seq<Made>): seq<Made>
    decreases |steps|
  {
    if steps == [] then cs
    else Making(steps[1..], handle, match steps[0]
      case Change(h, c, now) => if h == handle && MayMake(cs, c) then cs + [Made(c, now)] else cs
      case _ => cs)
  }

  /** The last description of the statement. */
  function Describing(steps: seq<Step>, handle: string, d: Details): Details
    decreases |steps|
  {
    if steps == [] then d
    else Describing(steps[1..], handle, match steps[0]
      case Describe(h, username, size) => if h == handle then d.(username := username, warehouseSize := size) else d
      case _ => d)
  }

  /** The statement is neither deleted nor out of date at a clean-up: those are told apart by the
      time since it ended. */
  predicate Stays(steps: seq<Step>, handle: string, cs: seq<Made>)
    decreases |steps|
  {
    steps == [] || match steps[0]
      case Change(h, c, now) => Stays(steps[1..], handle, if h == handle && MayMake(cs, c) then cs + [Made(c, now)] else cs)
      case Delete(h) => h != handle && Stays(steps[1..], handle, cs)
      case Expire(now, ttl) => (EndTime(cs).Some? ==> now <= EndTime(cs).value + ttl) && Stays(steps[1..], handle, cs)
      case _ => Stays(steps[1..], handle, cs)
  }

  // ------------------------------------------------------------- one more change

  lemma {:induction false} FirstMore(cs: seq<Made>, m: Made, c: Change)
    ensures FirstTime(cs + [m], c) == if FirstTime(cs, c).Some? then FirstTime(cs, c) else if m.change == c then Some(m.at) else None
  {
    if cs == [] {
      assert cs + [m] == [m];
    } else {
      assert (cs + [m])[1..] == cs[1..] + [m];
      FirstMore(cs[1..], m, c);
    }
  }

  lemma LastMore(cs: seq<Made>, m: Made, p: Change -> bool)
    ensures LastOf(cs + [m], p) == if p(m.change) then Some(m) else LastOf(cs, p)
  {
    assert (cs + [m])[..|cs|] == cs;
  }

  /** A change that may be made is made as told. */
  lemma OneMore(handle: string, d: Details, born: int, cs: seq<Made>, c: Change, now: int)
    ensures Allowed(Told(handle, d, born, cs).status, c) == MayMake(cs, c)
    ensures Changed(Told(handle, d, born, cs), c, now) == Told(handle, d, born, cs + [Made(c, now)])
  {
    var m := Made(c, now);
    FirstMore(cs, m, Update(Queued));
    FirstMore(cs, m, Update(Running));
    LastMore(cs, m, c => Ends(c));
    LastMore(cs, m, (c: Change) => c.SetResult?);
    LastMore(cs, m, (c: Change) => c.SetExecResult?);
    LastMore(cs, m, (c: Change) => c.SetError?);
    hide FirstTime, LastOf;
  }

  // ------------------------------------------------------------- over runs

  lemma {:induction false} RunTold(s: State, steps: seq<Step>, h: string, d: Details, born: int, cs: seq<Made>)
    requires Runs(s, steps) && h in s.born && h in s.memory && s.memory[h] == Told(h, d, born, cs) && Stays(steps, h, cs)
    ensures var e := End(s, steps); h in e.memory && e.memory[h] == Told(h, Describing(steps, h, d), born, Making(steps, h, cs))
    decreases |steps|
  {
    if steps != [] {
      var t := Next(s, steps[0]);
      hide Told, Changed, Allowed, MayMake, EndTime, Summarize, Recorded, Pruned;
      match steps[0]
      case Change(k, c, now) =>
        OneMore(h, d, born, cs, c, now);
        RunTold(t, steps[1..], h, d, born, if k == h && MayMake(cs, c) then cs + [Made(c, now)] else cs);
      case Describe(k, username, size) =>
        Described(h, d, born, cs, username, size);
        RunTold(t, steps[1..], h, if k == h then d.(username := username, warehouseSize := size) else d, born, cs);
      case Expire(now, ttl) =>
        NotStale(h, d, born, cs, now, ttl);
        RunTold(t, steps[1..], h, d, born, cs);
      case _ => RunTold(t, steps[1..], h, d, born, cs);
    }
  }

  lemma Described(h: string, d: Details, born: int, cs: seq<Made>, username: string, size: string)
    ensures var was := Told(h, d, born, cs);
            was.(details := was.details.(username := username, warehouseSize := size))
            == Told(h, d.(username := username, warehouseSize := size), born, cs)
  {
    hide LastStatus, FirstTime, EndTime, RowsOf, AffectedOf, ErrorOf;
  }

  lemma NotStale(h: string, d: Details, born: int, cs: seq<Made>, now: int, ttl: int)
    ensures Stale(Told(h, d, born, cs), now, ttl) <==> EndTime(cs).Some? && now > EndTime(cs).value + ttl
  {
    hide LastStatus, FirstTime, EndTime, RowsOf, AffectedOf, ErrorOf;
  }

  /** Whatever happens to other statements, and however recording is interleaved: as long as it is
      neither deleted nor out of date, a statement in memory is what the changes asked for make of
      it. Its status is the last one given, its times are the first of being queued and of
      running and the last of ending, and result, count and error are the last ones set. */
  lemma StatementAsTold(s: State, h: string, d: Details, now: int, steps: seq<Step>)
    requires Enabled(s, Create(h, d, now)) && Runs(Next(s, Create(h, d, now)), steps) && Stays(steps, h, [])
    ensures var e := End(Next(s, Create(h, d, now)), steps);
            h in e.memory && e.memory[h] == Told(h, Describing(steps, h, d), now, Making(steps, h, []))
  {
    NothingTold(h, d, now);
    RunTold(Next(s, Create(h, d, now)), steps, h, d, now, []);
  }

  lemma NothingTold(h: string, d: Details, now: int)
    ensures Born(h, d, now) == Told(h, d, now, [])
  {
  }

  /** And so is its line in a listing. */
  lemma SummaryAsTold(h: string, d: Details, born: int, cs: seq<Made>)
    ensures var x, r, e := Summarize(Told(h, d, born, cs)), RowsOf(cs), ErrorOf(cs);
            && x.handle == h && x.details == d && x.createdOn == born && x.status == LastStatus(cs)
            && x.queuedOn == FirstTime(cs, Update(Queued)) && x.startedOn == FirstTime(cs, Update(Running)) && x.completedOn == EndTime(cs)
            && x.rowCount == (if r.Some? then r.value else 0)
            && (e == None ==> x.errorCode == x.errorMessage == "")
            && (e.Some? ==> x.errorCode == e.value.code && x.errorMessage == e.value.message)
  {
    hide LastStatus, FirstTime, EndTime, RowsOf, AffectedOf, ErrorOf;
  }

  /** A clean-up takes a told statement out of memory exactly when it ended longer ago than its time
      to live. */
  lemma ExpiredIff(s: State, h: string, d: Details, born: int, cs: seq<Made>, now: int, ttl: int)
    requires h in s.memory && s.memory[h] == Told(h, d, born, cs)
    ensures h in Next(s, Expire(now, ttl)).memory <==> (EndTime(cs).Some? ==> now <= EndTime(cs).value + ttl)
  {
    hide Told, EndTime;
    NotStale(h, d, born, cs, now, ttl);
  }

  /** Pruning keeps exactly the rows that did not end before the given time, in their order. */
  lemma {:induction false} PrunedIff(rows: seq<Summary>, before: int)
    ensures forall x :: x in Pruned(rows, before) <==> x in rows && (x.completedOn.Some? ==> x.completedOn.value >= before)
    ensures (forall x :: x in rows && x.completedOn.Some? ==> x.completedOn.value >= before) ==> Pruned(rows, before) == rows
    decreases |rows|
  {
    if rows != [] {
      PrunedIff(rows[1..], before);
      assert rows == [rows[0]] + rows[1..];
    }
  }
}
