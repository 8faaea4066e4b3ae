/** What holds of streams over every interleaving of inserts, deletes, failures and concurrent
    consumers, and what holds in addition when consumers take turns. */
module StreamSafety {
  import opened Streams

  // ------------------------------------------------------------- the invariant of all runs

  predicate InLog(windows: seq<Window>, id: nat, from: int, upTo: int) {
    exists k :: 0 <= k < |windows| && windows[k].id == id && windows[k].from == from && windows[k].upTo == upTo
  }

  /** Row number r of the stream was in the window of a statement that succeeded. */
  predicate Consumed(windows: seq<Window>, id: nat, r: int) {
    exists k :: 0 <= k < |windows| && windows[k].id == id && windows[k].from < r <= windows[k].upTo
  }

  /** Everything from the start up to the offset was consumed. */
  ghost predicate Covered(w: World, id: nat)
    requires id in w.streams && id in w.starts
  {
    forall r :: w.starts[id] < r <= w.streams[id].offset ==> Consumed(w.windows, id, r)
  }

  /** An offset read earlier: not before the start, and not ahead of what is stored now. */
  predicate ReadBefore(w: World, id: nat, offset: int) {
    && id in w.starts && w.starts[id] <= offset
    && (id in w.streams ==> offset <= w.streams[id].offset)
  }

  /** Below every row number the table will give out. */
  predicate Below(w: World, source: string, upTo: int) {
    source in w.tables && upTo < w.tables[source].next
  }

  predicate FrozenFits(w: World, p: (Seen, Consumption)) {
    p.1.id == p.0.id && p.1.from == p.0.offset && ReadBefore(w, p.0.id, p.0.offset) && Below(w, p.0.source, p.1.upTo)
  }

  predicate JobFits(w: World, job: Job) {
    match job
    case Freezing(pending, frozen) =>
      && (forall k :: 0 <= k < |pending| ==> ReadBefore(w, pending[k].id, pending[k].offset))
      && (forall k :: 0 <= k < |frozen| ==> FrozenFits(w, frozen[k]))
    case Advancing(left) =>
      forall k :: 0 <= k < |left| ==>
        ReadBefore(w, left[k].id, left[k].from) && InLog(w.windows, left[k].id, left[k].from, left[k].upTo)
    case _ => true
  }

  /** A window covers, of the rows still there, exactly those the statement read. */
  predicate WindowFits(w: World, x: Window) {
    && x.id in w.starts && x.job in w.jobs && Below(w, x.source, x.upTo)
    && (forall r :: r in w.tables[x.source].rows && x.from < r <= x.upTo ==> r in x.rows)
    && (forall r :: r in x.rows ==> x.from < r <= x.upTo)
  }

  ghost predicate Inv(w: World) {
    && (forall t :: t in w.tables ==> forall r :: r in w.tables[t].rows ==> r < w.tables[t].next)
    && (forall id :: id in w.streams ==> id in w.starts && w.starts[id] <= w.streams[id].offset && Covered(w, id))
    && (forall j :: j in w.jobs ==> JobFits(w, w.jobs[j]))
    && (forall k :: 0 <= k < |w.windows| ==> WindowFits(w, w.windows[k]))
  }

  /** Nothing a stream relies on went backwards. */
  predicate Onward(w: World, v: World) {
    && (forall t :: t in w.tables ==> t in v.tables && w.tables[t].next <= v.tables[t].next)
    && (forall id :: id in w.starts ==> id in v.starts && v.starts[id] == w.starts[id])
    && (forall id :: id in w.streams && id in v.streams ==>
          v.streams[id].source == w.streams[id].source && w.streams[id].offset <= v.streams[id].offset)
    && (forall id :: id in v.streams && id !in w.streams ==> id !in w.starts)
    && w.windows <= v.windows && w.jobs.Keys <= v.jobs.Keys
  }

  lemma InLogStays(a: seq<Window>, b: seq<Window>, id: nat, from: int, upTo: int)
    requires a <= b && InLog(a, id, from, upTo)
    ensures InLog(b, id, from, upTo)
  {
    var k :| 0 <= k < |a| && a[k].id == id && a[k].from == from && a[k].upTo == upTo;
    assert b[k] == a[k];
  }

  lemma ConsumedStays(a: seq<Window>, b: seq<Window>, id: nat, r: int)
    requires a <= b && Consumed(a, id, r)
    ensures Consumed(b, id, r)
  {
    var k :| 0 <= k < |a| && a[k].id == id && a[k].from < r <= a[k].upTo;
    assert b[k] == a[k];
  }

  lemma ReadBeforeStays(w: World, v: World, id: nat, offset: int)
    requires Onward(w, v) && ReadBefore(w, id, offset)
    ensures ReadBefore(v, id, offset)
  {
  }

  lemma JobStays(w: World, v: World, job: Job)
    requires Onward(w, v) && JobFits(w, job)
    ensures JobFits(v, job)
  {
    hide Onward, InLog;
    match job
    case Freezing(pending, frozen) =>
      forall k | 0 <= k < |pending|
        ensures ReadBefore(v, pending[k].id, pending[k].offset)
      {
        ReadBeforeStays(w, v, pending[k].id, pending[k].offset);
      }
      forall k | 0 <= k < |frozen|
        ensures FrozenFits(v, frozen[k])
      {
        assert FrozenFits(w, frozen[k]);
        FrozenStays(w, v, frozen[k]);
      }
    case Advancing(left) =>
      assert w.windows <= v.windows by { OnwardLog(w, v); }
      forall k | 0 <= k < |left|
        ensures ReadBefore(v, left[k].id, left[k].from) && InLog(v.windows, left[k].id, left[k].from, left[k].upTo)
      {
        ReadBeforeStays(w, v, left[k].id, left[k].from);
        InLogStays(w.windows, v.windows, left[k].id, left[k].from, left[k].upTo);
      }
    case _ =>
  }

  lemma OnwardLog(w: World, v: World)
    requires Onward(w, v)
    ensures w.windows <= v.windows
  {
  }

  lemma FrozenStays(w: World, v: World, p: (Seen, Consumption))
    requires Onward(w, v) && FrozenFits(w, p)
    ensures FrozenFits(v, p)
  {
  }

  /** No row number below the bound comes back: the rows of a window can only become fewer. */
  predicate RowsFit(w: World, v: World) {
    forall t :: t in w.tables && t in v.tables ==>
      forall r :: r in v.tables[t].rows && r < w.tables[t].next ==> r in w.tables[t].rows
  }

  lemma WindowStays(w: World, v: World, x: Window)
    requires Onward(w, v) && RowsFit(w, v) && WindowFits(w, x)
    ensures WindowFits(v, x)
  {
  }

  lemma CoveredStays(w: World, v: World, id: nat)
    requires Onward(w, v) && id in w.streams && id in v.streams && id in w.starts && Covered(w, id)
    requires v.streams[id] == w.streams[id]
    ensures id in v.starts && Covered(v, id)
  {
    forall r | v.starts[id] < r <= v.streams[id].offset
      ensures Consumed(v.windows, id, r)
    {
      ConsumedStays(w.windows, v.windows, id, r);
    }
  }

  /** A step that moves everything onward keeps the invariant if the jobs, windows and streams
      it changes fit. */
  lemma KeepsIf(w: World, v: World, j: nat)
    requires Inv(w) && Onward(w, v) && RowsFit(w, v)
    requires forall t :: t in v.tables ==> forall r :: r in v.tables[t].rows ==> r < v.tables[t].next
    requires forall i :: i in v.jobs && i != j ==> i in w.jobs && v.jobs[i] == w.jobs[i]
    requires j in v.jobs ==> JobFits(v, v.jobs[j])
    requires forall k :: |w.windows| <= k < |v.windows| ==> WindowFits(v, v.windows[k])
    requires forall id :: id in v.streams ==>
      (id in w.streams && v.streams[id] == w.streams[id])
      || (id in v.starts && v.starts[id] <= v.streams[id].offset && Covered(v, id))
    ensures Inv(v)
  {
    forall id | id in v.streams
      ensures id in v.starts && v.starts[id] <= v.streams[id].offset && Covered(v, id)
    {
      if id in w.streams && v.streams[id] == w.streams[id] { CoveredStays(w, v, id); }
    }
    hide Covered;
    assert w.windows <= v.windows by { OnwardLog(w, v); }
    forall k | 0 <= k < |v.windows|
      ensures WindowFits(v, v.windows[k])
    {
      if k < |w.windows| { WindowStays(w, v, w.windows[k]); }
    }
    hide WindowFits;
    forall i | i in v.jobs
      ensures JobFits(v, v.jobs[i])
    {
      if i != j { JobStays(w, v, w.jobs[i]); }
    }
  }

  // ------------------------------------------------------------- every step

  lemma TableSteps(w: World, e: Event)
    requires Inv(w) && (e.Insert? || e.Delete?)
    ensures Inv(Step(w, e)) && Onward(w, Step(w, e))
  {
    var v := Step(w, e);
    hide JobFits, WindowFits, Covered;
    forall j | j in v.jobs
      ensures JobFits(v, v.jobs[j])
    {
      JobStays(w, v, w.jobs[j]);
    }
    KeepsIf(w, v, 0);
  }

  lemma CatalogSteps(w: World, e: Event)
    requires Inv(w) && (e.CreateStream? || e.DropStream?)
    ensures Inv(Step(w, e)) && Onward(w, Step(w, e))
  {
    var v := Step(w, e);
    hide JobFits, WindowFits;
    forall j | j in v.jobs
      ensures JobFits(v, v.jobs[j])
    {
      JobStays(w, v, w.jobs[j]);
    }
    KeepsIf(w, v, 0);
  }

  lemma LookFits(w: World, ids: seq<nat>, k: nat)
    requires Inv(w) && k < |Look(w.streams, ids)|
    ensures var s := Look(w.streams, ids)[k]; ReadBefore(w, s.id, s.offset)
    decreases |ids|
  {
    var first := if ids[0] in w.streams then [Seen(ids[0], w.streams[ids[0]].source, w.streams[ids[0]].offset)] else [];
    if k >= |first| {
      assert Look(w.streams, ids)[k] == Look(w.streams, ids[1..])[k - |first|];
      LookFits(w, ids[1..], k - |first|);
    }
  }

  lemma BeginStep(w: World, j: nat, ids: seq<nat>)
    requires Inv(w)
    ensures Inv(Step(w, Begin(j, ids))) && Onward(w, Step(w, Begin(j, ids)))
  {
    var v := Step(w, Begin(j, ids));
    if j !in w.jobs {
      forall k | 0 <= k < |Look(w.streams, ids)|
        ensures ReadBefore(v, Look(w.streams, ids)[k].id, Look(w.streams, ids)[k].offset)
      {
        LookFits(w, ids, k);
      }
      hide WindowFits, Covered;
      KeepsIf(w, v, j);
    }
  }

  lemma FreezeKeeps(w: World, j: nat)
    requires Inv(w)
    ensures Inv(FreezeStep(w, j)) && Onward(w, FreezeStep(w, j))
  {
    var v := FreezeStep(w, j);
    if v != w {
      assert JobFits(w, w.jobs[j]);
      FreezeFits(w, v, j);
      hide JobFits, WindowFits, Covered;
      KeepsIf(w, v, j);
    }
  }

  lemma FreezeFits(w: World, v: World, j: nat)
    requires j in w.jobs && w.jobs[j].Freezing? && w.jobs[j].pending != [] && v == FreezeStep(w, j) && JobFits(w, w.jobs[j])
    ensures JobFits(v, v.jobs[j])
  {
    var s := w.jobs[j].pending[0];
    if s.source in w.tables {
      var c := Freeze(s, w.tables);
      assert FrozenFits(v, (s, c));
      hide Freeze;
      forall k | 0 <= k < |w.jobs[j].frozen|
        ensures FrozenFits(v, w.jobs[j].frozen[k])
      {
        assert FrozenFits(w, w.jobs[j].frozen[k]);
      }
      forall k | 0 <= k < |w.jobs[j].pending[1..]|
        ensures ReadBefore(v, w.jobs[j].pending[1..][k].id, w.jobs[j].pending[1..][k].offset)
      {
        assert w.jobs[j].pending[1..][k] == w.jobs[j].pending[k + 1];
      }
    }
  }

  /** The windows a statement adds to the log. */
  lemma {:induction false} LoggedIs(windows: seq<Window>, j: nat, frozen: seq<(Seen, Consumption)>, tables: map<string, Table>)
    requires AllPresent(frozen, tables)
    ensures var x := Logged(windows, j, frozen, tables);
            && windows <= x && |x| == |windows| + |frozen|
            && forall k :: 0 <= k < |frozen| ==> x[|windows| + k] == Read(j, frozen[k].0, frozen[k].1, tables)
    decreases |frozen|
  {
    if frozen != [] {
      var more := windows + [Read(j, frozen[0].0, frozen[0].1, tables)];
      LoggedIs(more, j, frozen[1..], tables);
      var x := Logged(windows, j, frozen, tables);
      assert x[|windows|] == more[|windows|];
      forall k | 0 <= k < |frozen|
        ensures x[|windows| + k] == Read(j, frozen[k].0, frozen[k].1, tables)
      {
        if k > 0 { assert frozen[k] == frozen[1..][k - 1]; }
      }
    }
  }

  lemma {:induction false} ConsumptionsAre(frozen: seq<(Seen, Consumption)>)
    ensures |Consumptions(frozen)| == |frozen| && forall k :: 0 <= k < |frozen| ==> Consumptions(frozen)[k] == frozen[k].1
    decreases |frozen|
  {
    if frozen != [] { ConsumptionsAre(frozen[1..]); }
  }

  lemma ExecuteKeeps(w: World, j: nat, ok: bool)
    requires Inv(w)
    ensures Inv(ExecuteStep(w, j, ok)) && Onward(w, ExecuteStep(w, j, ok))
  {
    var v := ExecuteStep(w, j, ok);
    if v != w {
      var frozen := w.jobs[j].frozen;
      if ok && AllPresent(frozen, w.tables) {
        assert JobFits(w, w.jobs[j]);
        LoggedIs(w.windows, j, frozen, w.tables);
        ConsumptionsAre(frozen);
        ExecuteFits(w, v, j, frozen, Consumptions(frozen));
      }
      hide JobFits, WindowFits, Covered, Logged;
      KeepsIf(w, v, j);
    }
  }

  lemma ExecuteFits(w: World, v: World, j: nat, frozen: seq<(Seen, Consumption)>, left: seq<Consumption>)
    requires AllPresent(frozen, w.tables) && v.tables == w.tables && v.starts == w.starts && v.streams == w.streams && j in v.jobs
    requires forall k :: 0 <= k < |frozen| ==> FrozenFits(w, frozen[k])
    requires |left| == |frozen| && forall k :: 0 <= k < |frozen| ==> left[k] == frozen[k].1
    requires |v.windows| == |w.windows| + |frozen|
    requires forall k :: 0 <= k < |frozen| ==> v.windows[|w.windows| + k] == Read(j, frozen[k].0, frozen[k].1, w.tables)
    ensures JobFits(v, Advancing(left))
    ensures forall k :: |w.windows| <= k < |v.windows| ==> WindowFits(v, v.windows[k])
  {
    var n := |w.windows|;
    forall k | 0 <= k < |left|
      ensures ReadBefore(v, left[k].id, left[k].from) && InLog(v.windows, left[k].id, left[k].from, left[k].upTo)
    {
      assert FrozenFits(w, frozen[k]);
      assert v.windows[n + k] == Read(j, frozen[k].0, frozen[k].1, w.tables);
    }
    forall k | n <= k < |v.windows|
      ensures WindowFits(v, v.windows[k])
    {
      assert FrozenFits(w, frozen[k - n]);
      assert v.windows[n + (k - n)] == Read(j, frozen[k - n].0, frozen[k - n].1, w.tables);
    }
  }

  lemma AdvanceKeeps(w: World, j: nat, ok: bool)
    requires Inv(w)
    ensures Inv(AdvanceStep(w, j, ok)) && Onward(w, AdvanceStep(w, j, ok))
  {
    var v := AdvanceStep(w, j, ok);
    if j in w.jobs && w.jobs[j].Advancing? {
      assert JobFits(w, w.jobs[j]);
      var left := w.jobs[j].left;
      if left != [] {
        AdvanceFits(w, v, left);
        if v.streams != w.streams { AdvanceCovers(w, v, left[0]); }
      }
      hide JobFits, WindowFits, Covered;
      if left == [] { DoneFits(v); }
      KeepsIf(w, v, j);
    }
  }

  lemma DoneFits(w: World)
    ensures JobFits(w, Finished) && JobFits(w, Broken)
  {
  }

  lemma AdvanceFits(w: World, v: World, left: seq<Consumption>)
    requires JobFits(w, Advancing(left)) && left != [] && v.starts == w.starts && v.windows == w.windows
    requires v.streams == w.streams || v.streams == Update(w.streams, left[0].id, left[0].upTo)
    ensures JobFits(v, Advancing(left[1..])) && JobFits(v, Broken)
  {
    forall k | 0 <= k < |left[1..]|
      ensures ReadBefore(v, left[1..][k].id, left[1..][k].from)
      ensures InLog(v.windows, left[1..][k].id, left[1..][k].from, left[1..][k].upTo)
    {
      assert left[1..][k] == left[k + 1];
      assert ReadBefore(w, left[k + 1].id, left[k + 1].from);
    }
  }

  /** The rows an advance passes over were in the statement's own window. */
  lemma AdvanceCovers(w: World, v: World, c: Consumption)
    requires Inv(w) && v.windows == w.windows && v.starts == w.starts && c.id in w.streams
    requires ReadBefore(w, c.id, c.from) && InLog(w.windows, c.id, c.from, c.upTo)
    requires w.streams[c.id].offset < c.upTo && v.streams == Update(w.streams, c.id, c.upTo)
    ensures c.id in v.starts && v.starts[c.id] <= v.streams[c.id].offset && Covered(v, c.id)
  {
    assert Covered(w, c.id);
    var i :| 0 <= i < |w.windows| && w.windows[i].id == c.id && w.windows[i].from == c.from && w.windows[i].upTo == c.upTo;
    forall r | v.starts[c.id] < r <= v.streams[c.id].offset
      ensures Consumed(v.windows, c.id, r)
    {
      if r > w.streams[c.id].offset { assert v.windows[i].from < r <= v.windows[i].upTo; }
    }
  }

  /** Every step keeps the invariant, and no offset goes down. */
  lemma StepKeeps(w: World, e: Event)
    requires Inv(w)
    ensures Inv(Step(w, e)) && Onward(w, Step(w, e))
  {
    hide Inv, Onward, FreezeStep, ExecuteStep, AdvanceStep;
    match e
    case Insert(t, r) => TableSteps(w, e);
    case Delete(t, r) => TableSteps(w, e);
    case CreateStream(id, source, offset) => CatalogSteps(w, e);
    case DropStream(id) => CatalogSteps(w, e);
    case Begin(j, ids) => BeginStep(w, j, ids);
    case FreezeNext(j) => FreezeKeeps(w, j);
    case Execute(j, ok) => ExecuteKeeps(w, j, ok);
    case AdvanceNext(j, ok) => AdvanceKeeps(w, j, ok);
  }

  lemma {:induction false} RunKeeps(w: World, es: seq<Event>)
    requires Inv(w)
    ensures Inv(Run(w, es))
    decreases |es|
  {
    hide Inv, Step;
    if es != [] {
      StepKeeps(w, es[0]);
      RunKeeps(Step(w, es[0]), es[1..]);
    }
  }

  // ------------------------------------------------------------- what a stream promises

  /** While a stream exists its offset never goes down, over any run. */
  lemma {:induction false} OffsetsNeverGoDown(w: World, es: seq<Event>, id: nat)
    requires Inv(w) && id in w.streams && id in Run(w, es).streams
    ensures w.streams[id].offset <= Run(w, es).streams[id].offset
    decreases |es|
  {
    hide Step, Covered, JobFits, WindowFits;
    if es != [] {
      var v := Step(w, es[0]);
      StepKeeps(w, es[0]);
      if id in v.streams {
        OffsetsNeverGoDown(v, es[1..], id);
      } else {
        GoneStays(v, es[1..], id);
      }
    }
  }

  lemma {:induction false} GoneStays(w: World, es: seq<Event>, id: nat)
    requires Inv(w) && id in w.starts && id !in w.streams
    ensures id !in Run(w, es).streams
    decreases |es|
  {
    hide Inv, Step;
    if es != [] {
      StepKeeps(w, es[0]);
      GoneStays(Step(w, es[0]), es[1..], id);
    }
  }

  /** In every reachable state, a row of the source that is still there and lies between a
      stream's first offset and its present one was read by a statement that succeeded. */
  lemma EveryRowWasRead(w: World, es: seq<Event>, id: nat, r: nat)
    requires Inv(w)
    requires var v := Run(w, es); id in v.streams && id in v.starts && v.starts[id] < r <= v.streams[id].offset
    ensures Consumed(Run(w, es).windows, id, r)
    ensures var v := Run(w, es);
            forall k :: 0 <= k < |v.windows| && v.windows[k].id == id && v.windows[k].from < r <= v.windows[k].upTo ==>
              v.windows[k].source in v.tables && (r in v.tables[v.windows[k].source].rows ==> r in v.windows[k].rows)
  {
    RunKeeps(w, es);
    var v := Run(w, es);
    hide Run;
    assert Covered(v, id);
    forall k | 0 <= k < |v.windows| && v.windows[k].id == id && v.windows[k].from < r <= v.windows[k].upTo
      ensures v.windows[k].source in v.tables && (r in v.tables[v.windows[k].source].rows ==> r in v.windows[k].rows)
    {
      assert WindowFits(v, v.windows[k]);
    }
  }
}
