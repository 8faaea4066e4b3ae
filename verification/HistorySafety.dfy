/** What every run of the statement manager keeps, however the recording of changes is
    interleaved with them: listings stay consistent, cancellation is final. */
module HistorySafety {
  import opened Histories
  import opened HistoryListing

  // ------------------------------------------------------------- runs

  predicate Runs(s: State, steps: seq<Step>)
    decreases |steps|
  {
    steps == [] || (Enabled(s, steps[0]) && Runs(Next(s, steps[0]), steps[1..]))
  }

  function End(s: State, steps: seq<Step>): State
    requires Runs(s, steps)
    decreases |steps|
  {
    if steps == [] then s else End(Next(s, steps[0]), steps[1..])
  }

  /** The summary is of a statement that was created at that time. */
  predicate Known(born: map<string, int>, x: Summary) { x.handle in born && x.createdOn == born[x.handle] }

  predicate AllKnown(born: map<string, int>, s: seq<Summary>) { forall k :: 0 <= k < |s| ==> Known(born, s[k]) }

  predicate OneEach(born: map<string, int>) {
    "" !in born && forall a, b :: a in born && b in born && born[a] == born[b] ==> a == b
  }

  predicate MemoryKnown(born: map<string, int>, memory: map<string, Statement>) {
    forall h :: h in memory ==> memory[h].handle == h && h in born && memory[h].createdOn == born[h]
  }

  predicate Inv(s: State) {
    && OneEach(s.born) && MemoryKnown(s.born, s.memory) && AllKnown(s.born, s.inflight) && AllKnown(s.born, s.rows)
    && UniqueHandles(s.rows)
  }

  lemma RecordedUnique(rows: seq<Summary>, x: Summary)
    requires UniqueHandles(rows)
    ensures UniqueHandles(Recorded(rows, x))
  {
    var k := RowOf(rows, x.handle);
    if k == |rows| { assert forall i :: 0 <= i < |rows| ==> rows[i].handle != x.handle; }
  }

  lemma RecordedKnown(born: map<string, int>, rows: seq<Summary>, x: Summary)
    requires AllKnown(born, rows) && Known(born, x)
    ensures AllKnown(born, Recorded(rows, x))
  {
  }

  lemma {:induction false} PrunedHas(rows: seq<Summary>, before: int)
    ensures forall x :: x in Pruned(rows, before) ==> x in rows
    decreases |rows|
  {
    if rows != [] { PrunedHas(rows[1..], before); }
  }

  lemma {:induction false} PrunedUnique(rows: seq<Summary>, before: int)
    requires UniqueHandles(rows)
    ensures UniqueHandles(Pruned(rows, before))
    decreases |rows|
  {
    if rows != [] {
      PrunedUnique(rows[1..], before);
      PrunedHas(rows[1..], before);
      assert forall x :: x in rows[1..] ==> x.handle != rows[0].handle;
    }
  }

  lemma PartKnown(born: map<string, int>, s: seq<Summary>, part: seq<Summary>)
    requires AllKnown(born, s) && forall x :: x in part ==> x in s
    ensures AllKnown(born, part)
  {
    forall k | 0 <= k < |part|
      ensures Known(born, part[k])
    {
      assert part[k] in part;
    }
  }

  lemma WithoutIn(s: seq<Summary>, k: nat)
    requires k < |s|
    ensures forall x :: x in s[..k] + s[k + 1..] ==> x in s
  {
  }

  lemma CreateKeeps(s: State, step: Step)
    requires Inv(s) && step.Create? && Enabled(s, step)
    ensures Inv(Next(s, step))
  {
    var t := Next(s, step);
    assert forall h :: h in s.born ==> s.born[h] in s.born.Values;
    assert OneEach(t.born);
    assert AllKnown(t.born, s.inflight) && AllKnown(t.born, s.rows);
  }

  lemma ChangeKeeps(s: State, step: Step)
    requires Inv(s) && (step.Change? || step.Describe? || step.Delete? || step.Expire?)
    ensures Inv(Next(s, step))
  {
    hide UniqueHandles;
  }

  lemma RecordingKeeps(s: State, step: Step)
    requires Inv(s) && (step.Write? || step.Lose? || step.Prune?) && Enabled(s, step)
    ensures Inv(Next(s, step))
  {
    match step
    case Write(k) =>
      WithoutIn(s.inflight, k);
      PartKnown(s.born, s.inflight, s.inflight[..k] + s.inflight[k + 1..]);
      RecordedUnique(s.rows, s.inflight[k]);
      RecordedKnown(s.born, s.rows, s.inflight[k]);
    case Lose(k) =>
      WithoutIn(s.inflight, k);
      PartKnown(s.born, s.inflight, s.inflight[..k] + s.inflight[k + 1..]);
    case Prune(before) =>
      PrunedHas(s.rows, before);
      PartKnown(s.born, s.rows, Pruned(s.rows, before));
      PrunedUnique(s.rows, before);
  }

  lemma StepKeeps(s: State, step: Step)
    requires Inv(s) && Enabled(s, step)
    ensures Inv(Next(s, step))
  {
    hide Inv, Next;
    if step.Create? { CreateKeeps(s, step); }
    else if step.Write? || step.Lose? || step.Prune? { RecordingKeeps(s, step); }
    else { ChangeKeeps(s, step); }
  }

  lemma {:induction false} RunKeeps(s: State, steps: seq<Step>)
    requires Inv(s) && Runs(s, steps)
    ensures Inv(End(s, steps))
    decreases |steps|
  {
    hide Inv, Next;
    if steps != [] {
      StepKeeps(s, steps[0]);
      RunKeeps(Next(s, steps[0]), steps[1..]);
    }
  }

  // ------------------------------------------------------------- listings in every reachable state

  lemma {:induction false} WithHandlesAll(rows: seq<Summary>)
    requires forall k :: 0 <= k < |rows| ==> rows[k].handle != ""
    ensures WithHandles(rows) == rows
    decreases |rows|
  {
    if rows != [] { WithHandlesAll(rows[1..]); }
  }

  lemma KnownSpread(born: map<string, int>, s: seq<Summary>)
    requires OneEach(born) && AllKnown(born, s) && UniqueHandles(s)
    ensures Spread(s)
  {
    forall i, j | 0 <= i < j < |s|
      ensures s[i].createdOn != s[j].createdOn
    {
      assert Known(born, s[i]) && Known(born, s[j]) && s[i].handle != s[j].handle;
    }
  }

  lemma KnownApart(born: map<string, int>, a: seq<Summary>, b: seq<Summary>)
    requires OneEach(born) && AllKnown(born, a) && AllKnown(born, b)
    ensures forall x, y :: x in a && y in b && y.handle !in Handles(a) ==> x.createdOn != y.createdOn
    ensures TimesAgree(a, b)
  {
    forall x, y | x in a && y in b
      ensures y.handle !in Handles(a) ==> x.createdOn != y.createdOn
      ensures x.handle == y.handle ==> x.createdOn == y.createdOn
    {
      assert Known(born, x) && Known(born, y);
    }
  }

  lemma OrderKnown(s: State, order: seq<Summary>)
    requires Inv(s) && Enumerates(order, s.memory, s.memory.Keys)
    ensures AllKnown(s.born, order) && UniqueHandles(order)
  {
    forall k | 0 <= k < |order|
      ensures Known(s.born, order[k])
    {
      assert order[k] == Summarize(s.memory[order[k].handle]);
    }
  }

  lemma RowsHaveHandles(s: State)
    requires Inv(s)
    ensures WithHandles(s.rows) == s.rows
  {
    forall k | 0 <= k < |s.rows|
      ensures s.rows[k].handle != ""
    {
      assert Known(s.born, s.rows[k]);
    }
    WithHandlesAll(s.rows);
  }

  /** Handles and creation times that were given out stay so. */
  predicate Grown(a: map<string, int>, b: map<string, int>) { forall h :: h in a ==> h in b && b[h] == a[h] }

  lemma {:induction false} BornGrows(s: State, steps: seq<Step>)
    requires Runs(s, steps)
    ensures Grown(s.born, End(s, steps).born)
    decreases |steps|
  {
    if steps != [] {
      BornStep(s, steps[0]);
      hide Next, Enabled;
      BornGrows(Next(s, steps[0]), steps[1..]);
    }
  }

  lemma BornStep(s: State, step: Step)
    requires Enabled(s, step)
    ensures Grown(s.born, Next(s, step).born)
  {
    hide Recorded, Pruned, Changed, Summarize;
  }

  /** What memory had in state s, and the rows of a later state t. */
  lemma AlwaysReady(s: State, t: State, order: seq<Summary>)
    requires Inv(s) && Inv(t) && Grown(s.born, t.born) && Enumerates(order, s.memory, s.memory.Keys)
    ensures Ready(order, WithHandles(t.rows)) && TimesAgree(order, WithHandles(t.rows))
  {
    OrderKnown(s, order);
    assert AllKnown(t.born, order);
    RowsHaveHandles(t);
    hide Handles, Known, AllKnown, OneEach, UniqueHandles, Spread, Enumerates, TimesAgree;
    KnownSpread(t.born, t.rows);
    KnownSpread(t.born, order);
    KnownApart(t.born, order, t.rows);
  }

  /** A listing reads memory under the lock and the store later. Whatever happens before and
      between, and whatever order the map gives its statements in: no handle is listed twice, and a
      limited listing is the beginning of the unlimited one, which does not depend on that order. */
  lemma ListingsAgree(steps: seq<Step>, between: seq<Step>, order: seq<Summary>, other: seq<Summary>, limit: nat)
    requires Runs(Start, steps) && Runs(End(Start, steps), between) && limit > 0
    requires var s := End(Start, steps);
             Enumerates(order, s.memory, s.memory.Keys) && Enumerates(other, s.memory, s.memory.Keys)
    ensures var rows := End(End(Start, steps), between).rows;
            && UniqueHandles(Listing(order, rows, limit))
            && Listing(order, rows, limit) == Take(Listing(other, rows, 0), limit)
            && Listing(order, rows, limit) == Take(Merged(order, Fetched(rows, limit)), limit)
  {
    var s := End(Start, steps);
    var t := End(s, between);
    assert Inv(Start);
    hide Inv, Listing, Merged, Fetched, Enumerates, Take, UniqueHandles, Spread, Strict, WithHandles, Handles, TimesAgree, Runs, End, Grown;
    RunKeeps(Start, steps);
    RunKeeps(s, between);
    BornGrows(s, between);
    AlwaysReady(s, t, order);
    AlwaysReady(s, t, other);
    SameStatements(order, other, s.memory);
    LimitedIsPrefix(order, t.rows, limit);
    OrderDoesNotMatter(order, other, t.rows, 0);
    PlainLimitIsEnough(order, t.rows, limit);
    NoHandleTwice(order, t.rows, limit);
  }

  lemma SameStatements(a: seq<Summary>, b: seq<Summary>, memory: map<string, Statement>)
    requires Enumerates(a, memory, memory.Keys) && Enumerates(b, memory, memory.Keys)
    ensures forall x :: x in a <==> x in b
  {
    InOther(a, b, memory);
    InOther(b, a, memory);
  }

  lemma InOther(a: seq<Summary>, b: seq<Summary>, memory: map<string, Statement>)
    requires Enumerates(a, memory, memory.Keys) && Enumerates(b, memory, memory.Keys)
    ensures forall x :: x in a ==> x in b
  {
    forall x | x in a
      ensures x in b
    {
      assert x.handle in Handles(b);
      var y :| y in b && y.handle == x.handle;
    }
  }

  // ------------------------------------------------------------- cancellation

  /** The statement is cancelled, or no longer in memory. */
  predicate CanceledOrGone(s: State, h: string) {
    h in s.born && (h in s.memory ==> s.memory[h].status == Canceled)
  }

  lemma CanceledStep(s: State, step: Step, h: string)
    requires CanceledOrGone(s, h) && Enabled(s, step)
    ensures CanceledOrGone(Next(s, step), h)
    ensures h in s.memory && h in Next(s, step).memory ==> Next(s, step).memory[h].completedOn == s.memory[h].completedOn
    ensures h !in s.memory ==> h !in Next(s, step).memory
  {
  }

  /** Once a statement is cancelled nothing makes it anything else: no later result, error or
      status is taken, and it does not come back after it has left memory. */
  lemma {:induction false} CancelIsFinal(s: State, steps: seq<Step>, h: string)
    requires CanceledOrGone(s, h) && Runs(s, steps)
    ensures CanceledOrGone(End(s, steps), h)
    ensures h !in s.memory ==> h !in End(s, steps).memory
    decreases |steps|
  {
    hide CanceledOrGone, Next;
    if steps != [] {
      CanceledStep(s, steps[0], h);
      CancelIsFinal(Next(s, steps[0]), steps[1..], h);
    }
  }

  // ------------------------------------------------------------- what the store says

  /** The newest summary of the handle that is still being recorded, or its row. */
  function Latest(inflight: seq<Summary>, rows: seq<Summary>, h: string): Option<Summary> {
    if inflight == [] then
      var k := RowOf(rows, h);
      if k < |rows| then Some(rows[k]) else None
    else if inflight[|inflight| - 1].handle == h then Some(inflight[|inflight| - 1])
    else Latest(inflight[..|inflight| - 1], rows, h)
  }

  function LatestOf(s: State, h: string): Option<Summary> { Latest(s.inflight, s.rows, h) }

  /** Recordings of one statement are carried out in the order of its changes, and none is lost. */
  predicate InOrder(s: State, step: Step) {
    !step.Lose? && (step.Write? ==> forall j :: 0 <= j < step.index && step.index < |s.inflight| ==> s.inflight[j].handle != s.inflight[step.index].handle)
  }

  predicate RunsInOrder(s: State, steps: seq<Step>)
    decreases |steps|
  {
    steps == [] || (Enabled(s, steps[0]) && InOrder(s, steps[0]) && RunsInOrder(Next(s, steps[0]), steps[1..]))
  }

  lemma {:induction false} InOrderRuns(s: State, steps: seq<Step>)
    requires RunsInOrder(s, steps)
    ensures Runs(s, steps)
    decreases |steps|
  {
    if steps != [] { InOrderRuns(Next(s, steps[0]), steps[1..]); }
  }

  /** What is recorded of a statement in memory has its status and its end. */
  predicate Agrees(s: State, h: string) {
    h in s.memory && LatestOf(s, h).Some? ==>
      LatestOf(s, h).value.status == s.memory[h].status && LatestOf(s, h).value.completedOn == s.memory[h].completedOn
  }

  lemma {:induction false} RowOfAfter(rows: seq<Summary>, x: Summary, h: string)
    requires x.handle != ""
    ensures var t := Recorded(rows, x); var k := RowOf(t, h);
            && (h == x.handle ==> k < |t| && t[k] == x)
            && (h != x.handle ==> (k < |t| <==> RowOf(rows, h) < |rows|) && (k < |t| ==> t[k] == rows[RowOf(rows, h)]))
  {
    var t := Recorded(rows, x);
    var i, k := RowOf(rows, x.handle), RowOf(t, h);
    assert forall j :: 0 <= j < |rows| && j != i ==> t[j] == rows[j];
    if h == x.handle {
      assert t[i] == x && forall j :: 0 <= j < i ==> t[j].handle != h;
    } else {
      var r := RowOf(rows, h);
      if r < |rows| { assert t[r] == rows[r]; }
      if k < |t| { assert t[k] != x; assert rows[k].handle == h; }
    }
  }

  /** A recording in order leaves the newest summary of every handle what it was. */
  lemma {:induction false} WriteKeepsLatest(inflight: seq<Summary>, rows: seq<Summary>, k: nat, h: string)
    requires k < |inflight| && inflight[k].handle != "" && forall j :: 0 <= j < k ==> inflight[j].handle != inflight[k].handle
    ensures Latest(inflight[..k] + inflight[k + 1..], Recorded(rows, inflight[k]), h) == Latest(inflight, rows, h)
    decreases |inflight|
  {
    var n := |inflight| - 1;
    var rest := inflight[..k] + inflight[k + 1..];
    if k == n {
      assert rest == inflight[..n];
      LatestWithout(inflight[..n], rows, inflight[n], h);
    } else {
      var less := inflight[..n];
      assert rest[|rest| - 1] == inflight[n] && rest[..|rest| - 1] == less[..k] + less[k + 1..];
      if inflight[n].handle != h { WriteKeepsLatest(less, rows, k, h); }
    }
  }

  lemma {:induction false} LatestWithout(inflight: seq<Summary>, rows: seq<Summary>, x: Summary, h: string)
    requires x.handle != "" && forall j :: 0 <= j < |inflight| ==> inflight[j].handle != x.handle
    ensures Latest(inflight, Recorded(rows, x), h) == if x.handle == h then Some(x) else Latest(inflight, rows, h)
    decreases |inflight|
  {
    if inflight == [] { RowOfAfter(rows, x, h); } else { LatestWithout(inflight[..|inflight| - 1], rows, x, h); }
  }

  lemma {:induction false} PruneLatest(inflight: seq<Summary>, rows: seq<Summary>, before: int, h: string)
    requires UniqueHandles(rows)
    ensures var l := Latest(inflight, Pruned(rows, before), h); l.Some? ==> l == Latest(inflight, rows, h)
    decreases |inflight|
  {
    if inflight == [] {
      PrunedHas(rows, before);
      var k := RowOf(Pruned(rows, before), h);
      if k < |Pruned(rows, before)| {
        var x := Pruned(rows, before)[k];
        assert x in rows;
        var i :| 0 <= i < |rows| && rows[i] == x;
        assert RowOf(rows, h) <= i;
      }
    } else {
      PruneLatest(inflight[..|inflight| - 1], rows, before, h);
    }
  }

  /** A step in order keeps the newest summary, replaces it by a newer one of a statement in
      memory, or prunes it. */
  lemma LatestStep(s: State, step: Step, h: string)
    requires Inv(s) && Enabled(s, step) && InOrder(s, step)
    ensures var t := Next(s, step);
            || LatestOf(t, h) == LatestOf(s, h)
            || LatestOf(t, h).None?
            || (step.Change? && step.handle == h && h in s.memory && Allowed(s.memory[h].status, step.change)
                && LatestOf(t, h) == Some(Summarize(t.memory[h])))
  {
    match step
    case Write(k) =>
      assert Known(s.born, s.inflight[k]);
      hide Latest, Recorded, Inv;
      WriteKeepsLatest(s.inflight, s.rows, k, h);
    case Prune(before) =>
      hide Latest, Pruned;
      PruneLatest(s.inflight, s.rows, before, h);
    case Change(_, _, _) => ChangeLatest(s, step, h);
    case _ => hide Latest, Inv;
  }

  lemma ChangeLatest(s: State, step: Step, h: string)
    requires Inv(s) && step.Change?
    ensures var t := Next(s, step);
            || LatestOf(t, h) == LatestOf(s, h)
            || (step.handle == h && h in s.memory && Allowed(s.memory[h].status, step.change) && LatestOf(t, h) == Some(Summarize(t.memory[h])))
  {
    if step.handle in s.memory && Allowed(s.memory[step.handle].status, step.change) {
      var x := Summarize(Changed(s.memory[step.handle], step.change, step.now));
      var l := s.inflight + [x];
      assert l[|l| - 1] == x && l[..|l| - 1] == s.inflight && x.handle == step.handle;
      hide Inv, Summarize, Changed;
    }
  }

  lemma AgreesStep(s: State, step: Step, h: string)
    requires Inv(s) && Agrees(s, h) && h in s.born && Enabled(s, step) && InOrder(s, step)
    ensures Agrees(Next(s, step), h)
  {
    LatestStep(s, step, h);
    hide Inv, Latest, Summarize;
    var t := Next(s, step);
    if h in t.memory {
      SameOrChanged(s, step, h);
      SummaryStatus(t.memory[h]);
    }
  }

  lemma SummaryStatus(m: Statement)
    ensures Summarize(m).status == m.status && Summarize(m).completedOn == m.completedOn
  {
  }

  /** Only a change touches the status. */
  lemma SameOrChanged(s: State, step: Step, h: string)
    requires Inv(s) && h in s.born && Enabled(s, step) && h in Next(s, step).memory
    ensures h in s.memory
    ensures var t := Next(s, step);
            || (t.memory[h].status == s.memory[h].status && t.memory[h].completedOn == s.memory[h].completedOn)
            || (step.Change? && step.handle == h && Allowed(s.memory[h].status, step.change)
                && LatestOf(t, h) == Some(Summarize(t.memory[h])))
  {
    hide Summarize, Recorded, Pruned, Latest;
    if step.Change? && step.handle == h {
      if h in s.memory && Allowed(s.memory[h].status, step.change) { ChangedLatest(s, step); }
    }
  }

  lemma ChangedLatest(s: State, step: Step)
    requires Inv(s) && step.Change? && step.handle in s.memory && Allowed(s.memory[step.handle].status, step.change)
    ensures var t := Next(s, step); step.handle in t.memory && LatestOf(t, step.handle) == Some(Summarize(t.memory[step.handle]))
  {
    var t := Next(s, step);
    var x := Summarize(t.memory[step.handle]);
    assert t.inflight == s.inflight + [x] && x.handle == step.handle;
    hide Summarize, Next, Inv;
    assert t.inflight[|t.inflight| - 1] == x;
  }

  /** What the store will say of a statement once nothing of it is being recorded. */
  predicate Idle(s: State, h: string) { forall k :: 0 <= k < |s.inflight| ==> s.inflight[k].handle != h }

  lemma {:induction false} IdleLatest(inflight: seq<Summary>, rows: seq<Summary>, h: string)
    requires forall k :: 0 <= k < |inflight| ==> inflight[k].handle != h
    ensures Latest(inflight, rows, h) == Latest([], rows, h)
    decreases |inflight|
  {
    if inflight != [] { IdleLatest(inflight[..|inflight| - 1], rows, h); }
  }

  lemma {:induction false} RunAgrees(s: State, steps: seq<Step>, h: string)
    requires Inv(s) && RunsInOrder(s, steps) && (h in s.born ==> Agrees(s, h)) && (h !in s.born ==> LatestOf(s, h).None?)
    ensures Runs(s, steps)
    ensures h in End(s, steps).born ==> Agrees(End(s, steps), h)
    decreases |steps|
  {
    InOrderRuns(s, steps);
    if steps != [] {
      var t := Next(s, steps[0]);
      StepKeeps(s, steps[0]);
      if h in s.born { AgreesStep(s, steps[0], h); } else { UnbornStep(s, steps[0], h); }
      hide Inv, Next, Agrees, LatestOf, InOrder;
      RunAgrees(t, steps[1..], h);
    }
  }

  /** Nothing is recorded of a handle that was not given out. */
  lemma UnbornStep(s: State, step: Step, h: string)
    requires Inv(s) && Enabled(s, step) && InOrder(s, step) && h !in s.born && LatestOf(s, h).None?
    ensures var t := Next(s, step); LatestOf(t, h).None? && (h in t.born ==> Agrees(t, h))
  {
    LatestStep(s, step, h);
    hide Latest;
  }

  /** As long as recordings keep the order of the changes, the stored row of a statement in
      memory has its status whenever nothing of it is still being recorded. */
  lemma StoreAgrees(steps: seq<Step>, h: string, k: nat)
    requires RunsInOrder(Start, steps)
    requires Runs(Start, steps) ==> var s := End(Start, steps); k < |s.rows| && s.rows[k].handle == h && h in s.memory && Idle(s, h)
    ensures Runs(Start, steps)
    ensures var s := End(Start, steps); s.rows[k].status == s.memory[h].status && s.rows[k].completedOn == s.memory[h].completedOn
  {
    RunAgrees(Start, steps, h);
    RunKeeps(Start, steps);
    var s := End(Start, steps);
    IdleLatest(s.inflight, s.rows, h);
    OnlyRow(s.rows, h, k);
  }

  lemma OnlyRow(rows: seq<Summary>, h: string, k: nat)
    requires UniqueHandles(rows) && k < |rows| && rows[k].handle == h
    ensures RowOf(rows, h) == k
  {
  }

  // ------------------------------------------------------------- whether a cancellation lasts

  predicate Says(x: Summary, h: string, canceled: bool) { x.handle == h && (x.status == Canceled) == canceled }

  /** No recording of the statement with another status is under way. */
  predicate OnlyCanceled(s: State, h: string) {
    forall k :: 0 <= k < |s.inflight| ==> !Says(s.inflight[k], h, false)
  }

  predicate RowCanceled(s: State, h: string) {
    var k := RowOf(s.rows, h); k < |s.rows| ==> s.rows[k].status == Canceled
  }

  /** The step does not lose a recording that the statement is cancelled. */
  predicate Retains(s: State, step: Step, h: string) {
    step.Lose? && step.index < |s.inflight| ==> !Says(s.inflight[step.index], h, true)
  }

  predicate RunsRetaining(s: State, steps: seq<Step>, h: string)
    ensures RunsRetaining(s, steps, h) ==> Runs(s, steps)
    decreases |steps|
  {
    steps == [] || (Enabled(s, steps[0]) && Retains(s, steps[0], h) && RunsRetaining(Next(s, steps[0]), steps[1..], h))
  }

  /** Whatever order the map gives its statements in, no listing shows the statement as anything
      but cancelled. */
  ghost predicate ListedCanceled(s: State, h: string) {
    forall order: seq<Summary>, x: Summary ::
      Enumerates(order, s.memory, s.memory.Keys) && x in Listing(order, s.rows, 0) && x.handle == h ==> x.status == Canceled
  }

  /** Whatever happens, in whatever order recordings are carried out: once none of the statement is
      under way, and unless one that it is cancelled was lost, it is listed as cancelled. */
  ghost predicate Lasts(s: State, h: string) {
    forall steps :: RunsRetaining(s, steps, h) && Idle(End(s, steps), h) ==> ListedCanceled(End(s, steps), h)
  }

  lemma CanceledListed(t: State, h: string)
    requires Inv(t) && CanceledOrGone(t, h) && RowCanceled(t, h)
    ensures ListedCanceled(t, h)
  {
    forall order: seq<Summary>, x: Summary | Enumerates(order, t.memory, t.memory.Keys) && x in Listing(order, t.rows, 0) && x.handle == h
      ensures x.status == Canceled
    {
      ListingHas(order, t.rows);
      if x in order {
        var k :| 0 <= k < |order| && order[k] == x;
        assert x == Summarize(t.memory[order[k].handle]);
      } else {
        RowsHaveHandles(t);
        var k :| 0 <= k < |t.rows| && t.rows[k] == x;
        OnlyRow(t.rows, h, k);
      }
    }
  }

  /** A cancelled statement of which nothing else is being recorded, and of which the cancellation
      is recorded or being recorded. */
  predicate Sealed(s: State, h: string) {
    CanceledOrGone(s, h) && OnlyCanceled(s, h) && (RowCanceled(s, h) || !Idle(s, h))
  }

  lemma WithoutKeeps(s: State, k: nat, h: string)
    requires OnlyCanceled(s, h) && k < |s.inflight|
    ensures var rest := s.inflight[..k] + s.inflight[k + 1..];
            && (forall i :: 0 <= i < |rest| ==> !Says(rest[i], h, false))
            && (Idle(s, h) ==> forall i :: 0 <= i < |rest| ==> rest[i].handle != h)
            && (!Idle(s, h) && s.inflight[k].handle != h ==> exists i :: 0 <= i < |rest| && rest[i].handle == h)
  {
    var rest := s.inflight[..k] + s.inflight[k + 1..];
    if !Idle(s, h) && s.inflight[k].handle != h {
      var i :| 0 <= i < |s.inflight| && s.inflight[i].handle == h;
      assert rest[if i < k then i else i - 1].handle == h;
    }
  }

  lemma WriteSeals(s: State, k: nat, h: string)
    requires Inv(s) && Sealed(s, h) && k < |s.inflight|
    ensures Sealed(Next(s, Write(k)), h)
  {
    var x := s.inflight[k];
    assert Known(s.born, x);
    hide Inv, Recorded;
    WithoutKeeps(s, k, h);
    RowOfAfter(s.rows, x, h);
    if x.handle == h { assert !Says(x, h, false); }
  }

  lemma LoseSeals(s: State, k: nat, h: string)
    requires Sealed(s, h) && k < |s.inflight| && Retains(s, Lose(k), h)
    ensures Sealed(Next(s, Lose(k)), h)
  {
    WithoutKeeps(s, k, h);
    assert !Says(s.inflight[k], h, false);
  }

  lemma PruneSeals(s: State, before: int, h: string)
    requires Inv(s) && Sealed(s, h)
    ensures Sealed(Next(s, Prune(before)), h)
  {
    PruneLatest([], s.rows, before, h);
    hide Pruned;
  }

  lemma StepSeals(s: State, step: Step, h: string)
    requires Inv(s) && Sealed(s, h) && Enabled(s, step) && Retains(s, step, h)
    ensures Sealed(Next(s, step), h)
  {
    match step
    case Write(k) => WriteSeals(s, k, h);
    case Lose(k) => LoseSeals(s, k, h);
    case Prune(before) => PruneSeals(s, before, h);
    case _ => QuietSeals(s, step, h);
  }

  /** The rest records nothing of a cancelled statement. */
  lemma QuietSeals(s: State, step: Step, h: string)
    requires Inv(s) && Sealed(s, h) && Enabled(s, step) && !step.Write? && !step.Lose? && !step.Prune?
    ensures Sealed(Next(s, step), h)
  {
    CanceledStep(s, step, h);
    var t := Next(s, step);
    if step.Change? && t.inflight != s.inflight {
      QuietHandle(s, step, h);
      assert t.rows == s.rows;
      assert forall k :: 0 <= k < |s.inflight| ==> t.inflight[k] == s.inflight[k];
    }
  }

  lemma QuietHandle(s: State, step: Step, h: string)
    requires Inv(s) && CanceledOrGone(s, h) && step.Change? && Next(s, step).inflight != s.inflight
    ensures var t := Next(s, step);
            step.handle in t.memory && t.inflight == s.inflight + [Summarize(t.memory[step.handle])] && t.memory[step.handle].handle != h
  {
  }

  lemma {:induction false} RunSeals(s: State, steps: seq<Step>, h: string)
    requires Inv(s) && Sealed(s, h) && RunsRetaining(s, steps, h)
    ensures Inv(End(s, steps)) && Sealed(End(s, steps), h)
    decreases |steps|
  {
    hide Inv, Sealed, Retains, Next;
    if steps != [] {
      StepKeeps(s, steps[0]);
      StepSeals(s, steps[0], h);
      RunSeals(Next(s, steps[0]), steps[1..], h);
    }
  }

  lemma SealedLasts(s: State, h: string)
    requires Inv(s) && Sealed(s, h)
    ensures Lasts(s, h)
  {
    forall steps | RunsRetaining(s, steps, h) && Idle(End(s, steps), h)
      ensures ListedCanceled(End(s, steps), h)
    {
      RunSeals(s, steps, h);
      CanceledListed(End(s, steps), h);
    }
  }

  // ------------------------------------------------------------- the runs that undo it

  /** All n recordings under way are carried out, the one at k last; then h leaves memory. */
  function LastOfAll(n: nat, k: nat, h: string): seq<Step>
    requires k < n
  {
    if n == 1 then [Write(0), Delete(h)]
    else if k > 0 then [Write(0)] + LastOfAll(n - 1, k - 1, h)
    else [Write(1)] + LastOfAll(n - 1, 0, h)
  }

  /** The row of the handle is x, and memory has no statement of it. */
  predicate LeftAs(t: State, h: string, x: Summary) {
    var r := RowOf(t.rows, h); h !in t.memory && t.inflight == [] && r < |t.rows| && t.rows[r] == x
  }

  lemma {:induction false} LastStays(s: State, k: nat, h: string)
    requires k < |s.inflight| && s.inflight[k].handle == h && h != ""
    ensures var steps := LastOfAll(|s.inflight|, k, h);
            RunsRetaining(s, steps, h) && LeftAs(End(s, steps), h, s.inflight[k])
    decreases |s.inflight|
  {
    var n := |s.inflight|;
    var steps := LastOfAll(n, k, h);
    if n == 1 {
      LastOne(s, h);
    } else {
      var i, l := if k > 0 then 0 else 1, if k > 0 then k - 1 else 0;
      var a := Next(s, Write(i));
      WriteLeaves(s, i, k);
      assert steps == [Write(i)] + LastOfAll(n - 1, l, h);
      hide Next, LastOfAll, LeftAs;
      LastStays(a, l, h);
      OneStep(s, steps, h);
    }
  }

  lemma WriteLeaves(s: State, i: nat, k: nat)
    requires i < |s.inflight| && k < |s.inflight| && i != k
    ensures var a := Next(s, Write(i)); |a.inflight| == |s.inflight| - 1 && a.inflight[if i < k then k - 1 else k] == s.inflight[k]
  {
    hide Recorded;
  }

  lemma LastOne(s: State, h: string)
    requires |s.inflight| == 1 && s.inflight[0].handle == h && h != ""
    ensures var steps := [Write(0), Delete(h)]; RunsRetaining(s, steps, h) && LeftAs(End(s, steps), h, s.inflight[0])
  {
    var steps := [Write(0), Delete(h)];
    var a := Next(s, Write(0));
    RowOfAfter(s.rows, s.inflight[0], h);
    assert a.inflight == [] && LeftAs(Next(a, Delete(h)), h, s.inflight[0]);
    assert steps[1..] == [Delete(h)] && steps[1..][1..] == [];
    hide Next, LeftAs;
    OneStep(a, [Delete(h)], h);
    OneStep(s, steps, h);
  }

  lemma OneStep(s: State, steps: seq<Step>, h: string)
    requires steps != [] && Enabled(s, steps[0]) && Retains(s, steps[0], h) && RunsRetaining(Next(s, steps[0]), steps[1..], h)
    ensures RunsRetaining(s, steps, h) && End(s, steps) == End(Next(s, steps[0]), steps[1..])
  {
  }

  /** The handle's row is listed once memory has no statement of it. */
  lemma RowListed(t: State, h: string)
    requires Inv(t) && h !in t.memory && RowOf(t.rows, h) < |t.rows| && t.rows[RowOf(t.rows, h)].status != Canceled
    ensures !ListedCanceled(t, h)
  {
    var order := SomeOrder(t.memory, t.memory.Keys, t.born);
    var x := t.rows[RowOf(t.rows, h)];
    ListingHas(order, t.rows);
    RowsHaveHandles(t);
    assert x in Listing(order, t.rows, 0);
  }

  lemma {:induction false} SomeOrder(memory: map<string, Statement>, seen: set<string>, born: map<string, int>) returns (order: seq<Summary>)
    requires MemoryKnown(born, memory) && seen <= memory.Keys
    ensures Enumerates(order, memory, seen)
    decreases |seen|
  {
    if seen == {} {
      order := [];
    } else {
      var h :| h in seen;
      var rest := SomeOrder(memory, seen - {h}, born);
      EnumeratesMore(rest, memory, seen - {h}, h);
      assert seen - {h} + {h} == seen;
      order := rest + [Summarize(memory[h])];
    }
  }

  lemma OtherUndoes(s: State, k: nat, h: string)
    requires Inv(s) && k < |s.inflight| && Says(s.inflight[k], h, false)
    ensures !Lasts(s, h)
  {
    assert Known(s.born, s.inflight[k]);
    LastStays(s, k, h);
    var steps := LastOfAll(|s.inflight|, k, h);
    hide Inv, LastOfAll, ListedCanceled;
    RunKeeps(s, steps);
    RowListed(End(s, steps), h);
    assert Idle(End(s, steps), h);
  }

  /** Recordings are made after the lock is given up, so they can be carried out in any order. A
      cancellation lasts exactly when no recording of the statement with another status is under
      way as it is cancelled. */
  lemma CancelLasts(s: State, h: string, now: int)
    requires Inv(s) && h in s.memory && Allowed(s.memory[h].status, Cancel)
    ensures Lasts(Next(s, Change(h, Cancel, now)), h) <==> OnlyCanceled(s, h)
  {
    var c := Change(h, Cancel, now);
    var t := Next(s, c);
    StepKeeps(s, c);
    assert t.inflight == s.inflight + [Summarize(t.memory[h])] && t.memory[h].handle == h && h in s.born;
    var n := |s.inflight|;
    assert Says(t.inflight[n], h, true);
    hide Inv, Lasts, Next;
    if OnlyCanceled(s, h) {
      assert Sealed(t, h) by { assert t.inflight[n].handle == h && t.memory[h].status == Canceled; }
      SealedLasts(t, h);
    } else {
      var k :| 0 <= k < |s.inflight| && Says(s.inflight[k], h, false);
      assert t.inflight[k] == s.inflight[k];
      OtherUndoes(t, k, h);
    }
  }

  /** A recording that fails is only logged. When that of the cancellation itself does, and no
      other is under way, the cancellation lasts, whatever happens then, exactly when no row of
      the statement says anything else. */
  lemma LostCancelLasts(s: State, h: string, now: int)
    requires Inv(s) && h in s.memory && Allowed(s.memory[h].status, Cancel) && Idle(s, h)
    ensures var t := Next(Next(s, Change(h, Cancel, now)), Lose(|s.inflight|));
            (forall steps :: Runs(t, steps) ==> ListedCanceled(End(t, steps), h)) <==> RowCanceled(s, h)
  {
    CancelLost(s, h, now);
    var t := Next(Next(s, Change(h, Cancel, now)), Lose(|s.inflight|));
    hide Inv, Next, CanceledOrGone, ListedCanceled, Runs, End;
    if RowCanceled(s, h) {
      forall steps | Runs(t, steps)
        ensures ListedCanceled(End(t, steps), h)
      {
        IdleListed(t, steps, h);
      }
    } else {
      DeleteLists(t, h);
    }
  }

  lemma CancelLost(s: State, h: string, now: int)
    requires Inv(s) && h in s.memory && Allowed(s.memory[h].status, Cancel) && Idle(s, h)
    ensures var a := Next(s, Change(h, Cancel, now));
            && Enabled(a, Lose(|s.inflight|))
            && var t := Next(a, Lose(|s.inflight|));
               Inv(t) && t.inflight == s.inflight && t.rows == s.rows && CanceledOrGone(t, h) && Idle(t, h)
  {
    var c := Change(h, Cancel, now);
    StepKeeps(s, c);
    StepKeeps(Next(s, c), Lose(|s.inflight|));
    hide Summarize;
  }

  lemma IdleListed(t: State, steps: seq<Step>, h: string)
    requires Inv(t) && Runs(t, steps) && CanceledOrGone(t, h) && Idle(t, h) && RowCanceled(t, h)
    ensures ListedCanceled(End(t, steps), h)
  {
    hide Inv, Next, CanceledOrGone, ListedCanceled;
    IdleRetains(t, steps, h);
    RunSeals(t, steps, h);
    CanceledListed(End(t, steps), h);
  }

  lemma DeleteLists(t: State, h: string)
    requires Inv(t) && !RowCanceled(t, h)
    ensures Runs(t, [Delete(h)]) && !ListedCanceled(End(t, [Delete(h)]), h)
  {
    hide Inv, ListedCanceled;
    var d := Delete(h);
    StepKeeps(t, d);
    assert [d][1..] == [];
    OneStep(t, [d], h);
    RowListed(Next(t, d), h);
  }

  /** Nothing of the statement is being recorded, so nothing of it can be lost. */
  lemma {:induction false} IdleRetains(s: State, steps: seq<Step>, h: string)
    requires Runs(s, steps) && CanceledOrGone(s, h) && Idle(s, h) && Inv(s)
    ensures RunsRetaining(s, steps, h) && Idle(End(s, steps), h)
    decreases |steps|
  {
    if steps != [] {
      StepKeeps(s, steps[0]);
      CanceledStep(s, steps[0], h);
      IdleStep(s, steps[0], h);
      hide Inv, Next, CanceledOrGone;
      IdleRetains(Next(s, steps[0]), steps[1..], h);
    }
  }

  lemma IdleStep(s: State, step: Step, h: string)
    requires Inv(s) && CanceledOrGone(s, h) && Idle(s, h) && Enabled(s, step)
    ensures Idle(Next(s, step), h) && Retains(s, step, h)
  {
    var t := Next(s, step);
    if step.Change? && t.inflight != s.inflight { QuietHandle(s, step, h); }
  }

  /** A statement can be cancelled while its start is being recorded. */
  lemma StartBeingRecorded(details: Details, now: int)
    ensures var steps := [Create("q", details, 1), Change("q", Update(Running), 2)];
            && Runs(Start, steps)
            && var s := End(Start, steps);
               && Inv(s) && "q" in s.memory && Allowed(s.memory["q"].status, Cancel) && !OnlyCanceled(s, "q")
               && !Lasts(Next(s, Change("q", Cancel, now)), "q")
  {
    var steps := [Create("q", details, 1), Change("q", Update(Running), 2)];
    var a := Next(Start, steps[0]);
    var b := Next(a, steps[1]);
    assert b.inflight == [Summarize(b.memory["q"])];
    assert Says(b.inflight[0], "q", false);
    OneStep(a, [steps[1]], "q");
    OneStep(Start, steps, "q");
    assert Inv(Start);
    hide Next, Inv, Lasts;
    RunKeeps(Start, steps);
    CancelLasts(b, "q", now);
  }

  /** Or when its start has been recorded; then a cancellation that fails to be is forgotten. */
  lemma StartRecorded(details: Details, now: int)
    ensures var steps := [Create("q", details, 1), Change("q", Update(Running), 2), Write(0)];
            && Runs(Start, steps)
            && var s := End(Start, steps);
               && Inv(s) && "q" in s.memory && Allowed(s.memory["q"].status, Cancel) && Idle(s, "q") && !RowCanceled(s, "q")
               && var t := Next(Next(s, Change("q", Cancel, now)), Lose(|s.inflight|));
                  Runs(t, [Delete("q")]) && !ListedCanceled(End(t, [Delete("q")]), "q")
  {
    var steps := [Create("q", details, 1), Change("q", Update(Running), 2), Write(0)];
    StartEnds(details);
    var c := End(Start, steps);
    assert Inv(Start);
    hide Next, Inv, ListedCanceled, Runs, End;
    RunKeeps(Start, steps);
    CancelLost(c, "q", now);
    DeleteLists(Next(Next(c, Change("q", Cancel, now)), Lose(|c.inflight|)), "q");
  }

  lemma StartEnds(details: Details)
    ensures var steps := [Create("q", details, 1), Change("q", Update(Running), 2), Write(0)];
            && Runs(Start, steps)
            && var s := End(Start, steps);
               "q" in s.memory && Allowed(s.memory["q"].status, Cancel) && Idle(s, "q") && !RowCanceled(s, "q")
  {
    var steps := [Create("q", details, 1), Change("q", Update(Running), 2), Write(0)];
    var a := Next(Start, steps[0]);
    var b := Next(a, steps[1]);
    var x := Summarize(b.memory["q"]);
    assert b.inflight == [x];
    var c := Next(b, steps[2]);
    assert [x][..0] + [x][1..] == [];
    assert c.rows == [x] && c.inflight == [] && c.memory == b.memory;
    hide Next, Recorded, Summarize;
    assert steps[2..][1..] == [] && steps[1..][1..] == steps[2..];
    OneStep(b, steps[2..], "q");
    OneStep(a, steps[1..], "q");
    OneStep(Start, steps, "q");
  }
}
