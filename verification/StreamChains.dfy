/** When the windows of a stream follow on from each other, so that every row is consumed once:
    exactly when no statement succeeds that began while the stored offset lagged behind what had
    been consumed. */
module StreamChains {
  import opened Streams
  import opened StreamSafety
  import opened StreamTurns

  // ------------------------------------------------------------- chains of windows

  function Max(a: int, b: int): int { if a < b then b else a }

  function Min(a: int, b: int): int { if a < b then a else b }

  /** How far the windows of a stream reach. */
  function Reach(ws: seq<Window>, id: nat, start: int): int
    decreases |ws|
  {
    if ws == [] then start
    else
      var before := Reach(ws[..|ws| - 1], id, start);
      var x := ws[|ws| - 1];
      if x.id == id then Max(before, x.upTo) else before
  }

  /** Every window of the stream begins where the earlier ones end. */
  predicate Chained(ws: seq<Window>, id: nat, start: int)
    decreases |ws|
  {
    ws == [] || (
      && Chained(ws[..|ws| - 1], id, start)
      && (ws[|ws| - 1].id == id ==> ws[|ws| - 1].from == Reach(ws[..|ws| - 1], id, start)))
  }

  /** No window of the stream begins beyond where the earlier ones end. */
  predicate GapFree(ws: seq<Window>, id: nat, start: int)
    decreases |ws|
  {
    ws == [] || (
      && GapFree(ws[..|ws| - 1], id, start)
      && (ws[|ws| - 1].id == id ==> start <= ws[|ws| - 1].from <= Reach(ws[..|ws| - 1], id, start)))
  }

  lemma Appended(ws: seq<Window>, x: Window, id: nat, start: int)
    ensures Reach(ws + [x], id, start) == if x.id == id then Max(Reach(ws, id, start), x.upTo) else Reach(ws, id, start)
    ensures Chained(ws + [x], id, start) <==> Chained(ws, id, start) && (x.id == id ==> x.from == Reach(ws, id, start))
    ensures GapFree(ws + [x], id, start)
       <==> GapFree(ws, id, start) && (x.id == id ==> start <= x.from <= Reach(ws, id, start))
  {
    assert (ws + [x])[..|ws + [x]| - 1] == ws;
  }

  lemma {:induction false} WithinReach(ws: seq<Window>, id: nat, start: int, k: nat)
    requires k < |ws| && ws[k].id == id
    ensures ws[k].upTo <= Reach(ws, id, start)
    decreases |ws|
  {
    if k < |ws| - 1 { WithinReach(ws[..|ws| - 1], id, start, k); }
  }

  /** In a chain no row lies in two windows. */
  lemma {:induction false} ChainDisjoint(ws: seq<Window>, id: nat, start: int, j: nat, k: nat, r: int)
    requires Chained(ws, id, start) && j < k < |ws| && ws[j].id == id && ws[k].id == id
    requires ws[j].from < r <= ws[j].upTo
    ensures !(ws[k].from < r <= ws[k].upTo)
    decreases |ws|
  {
    var front := ws[..|ws| - 1];
    if k < |ws| - 1 {
      ChainDisjoint(front, id, start, j, k, r);
    } else {
      WithinReach(front, id, start, j);
    }
  }

  predicate Takes(x: Window, id: nat, r: int) { x.id == id && x.from < r <= x.upTo }

  /** Exactly one window takes the row. */
  predicate TakenOnce(ws: seq<Window>, id: nat, r: int) {
    && (exists k :: 0 <= k < |ws| && Takes(ws[k], id, r))
    && (forall j, k :: 0 <= j < k < |ws| && Takes(ws[j], id, r) ==> !Takes(ws[k], id, r))
  }

  /** Without gaps every row number up to the reach is taken. */
  lemma {:induction false} ReachTaken(ws: seq<Window>, id: nat, start: int, r: int) returns (k: nat)
    requires GapFree(ws, id, start) && start < r <= Reach(ws, id, start)
    ensures k < |ws| && Takes(ws[k], id, r)
    decreases |ws|
  {
    k := |ws| - 1;
    if !Takes(ws[k], id, r) { k := ReachTaken(ws[..|ws| - 1], id, start, r); }
  }

  lemma {:induction false} ReachFromStart(ws: seq<Window>, id: nat, start: int)
    ensures Reach(ws, id, start) >= start
    decreases |ws|
  {
    if ws != [] { ReachFromStart(ws[..|ws| - 1], id, start); }
  }

  // ------------------------------------------------------------- what is stored and what was consumed

  function Reached(w: World, id: nat): int
    requires id in w.starts
  {
    Reach(w.windows, id, w.starts[id])
  }

  /** A stream's offset never runs ahead of what was consumed. */
  lemma StoredWithinReach(w: World, id: nat)
    requires Inv(w) && id in w.streams
    ensures id in w.starts && w.starts[id] <= w.streams[id].offset <= Reached(w, id)
  {
    hide JobFits, WindowFits;
    var start, offset := w.starts[id], w.streams[id].offset;
    ReachFromStart(w.windows, id, start);
    if offset > start {
      assert Covered(w, id);
      assert Consumed(w.windows, id, offset);
      var k :| 0 <= k < |w.windows| && w.windows[k].id == id && w.windows[k].from < offset <= w.windows[k].upTo;
      WithinReach(w.windows, id, start, k);
    }
  }

  /** The stored offset is all that was consumed: no successful statement failed to store it. */
  predicate InStep(w: World, id: nat) {
    id in w.streams && id in w.starts && w.streams[id].offset == Reached(w, id)
  }

  /** Statement j has the stream under way and has not run yet. */
  predicate Waits(w: World, j: nat, id: nat) {
    j in w.jobs && w.jobs[j].Freezing? && id in JobIds(w.jobs[j])
  }

  /** The statement runs, and succeeds. */
  predicate Succeeds(w: World, e: Event) {
    && e.Execute? && e.ok && e.job in w.jobs && w.jobs[e.job].Freezing? && w.jobs[e.job].pending == []
    && AllPresent(w.jobs[e.job].frozen, w.tables)
  }

  /** The statements that began on the stream while its offset lagged. */
  function Behind(w: World, e: Event, id: nat, behind: set<nat>): set<nat> {
    if e.Begin? && e.job !in w.jobs && id in e.ids && id in w.streams && !InStep(w, id) then behind + {e.job} else behind
  }

  /** In this run no statement on the stream succeeds that began while its offset lagged. */
  predicate LevelBegins(w: World, es: seq<Event>, id: nat, behind: set<nat>)
    decreases |es|
  {
    es == [] || (
      && !(Succeeds(w, es[0]) && es[0].job in behind)
      && LevelBegins(Step(w, es[0]), es[1..], id, Behind(w, es[0], id, behind)))
  }

  /** Of the statements that wait on the stream, exactly those behind will not follow on. */
  ghost predicate Tracked(w: World, id: nat, behind: set<nat>) {
    && (forall j :: j in behind ==> j in w.jobs && (w.jobs[j].Freezing? ==> id in JobIds(w.jobs[j])))
    && (forall j :: Waits(w, j, id) ==> id in w.streams && (j in behind <==> !InStep(w, id)))
  }

  // ------------------------------------------------------------- one step

  /** A statement's windows extend the chain of a stream it reads, if they follow on, and no other. */
  lemma {:induction false} LoggedChain(ws: seq<Window>, j: nat, frozen: seq<(Seen, Consumption)>, tables: map<string, Table>,
                                       id: nat, start: int, from: int)
    requires AllPresent(frozen, tables) && NoTwice(FrozenIds(frozen))
    requires forall k :: 0 <= k < |frozen| ==> frozen[k].1.id == frozen[k].0.id && (frozen[k].0.id == id ==> frozen[k].1.from == from)
    ensures var more := Logged(ws, j, frozen, tables);
            && (id !in FrozenIds(frozen) ==>
                  Reach(more, id, start) == Reach(ws, id, start)
                  && (Chained(more, id, start) <==> Chained(ws, id, start)) && (GapFree(more, id, start) <==> GapFree(ws, id, start)))
            && (id in FrozenIds(frozen) ==>
                  (Chained(more, id, start) <==> Chained(ws, id, start) && from == Reach(ws, id, start))
                  && (GapFree(more, id, start) <==> GapFree(ws, id, start) && start <= from <= Reach(ws, id, start)))
            && (forall k :: 0 <= k < |frozen| && frozen[k].0.id == id ==>
                  Reach(more, id, start) == Max(Reach(ws, id, start), frozen[k].1.upTo))
    decreases |frozen|
  {
    if frozen != [] {
      var x := Read(j, frozen[0].0, frozen[0].1, tables);
      var rest := frozen[1..];
      assert FrozenIds(frozen) == [frozen[0].0.id] + FrozenIds(rest);
      FirstNotLater(FrozenIds(frozen));
      assert FrozenIds(frozen)[1..] == FrozenIds(rest);
      Appended(ws, x, id, start);
      hide Chained, GapFree, Reach, Read, InWindow, NoTwice;
      LoggedChain(ws + [x], j, rest, tables, id, start, from);
      forall k | 0 <= k < |frozen| && frozen[k].0.id == id
        ensures Reach(Logged(ws, j, frozen, tables), id, start) == Max(Reach(ws, id, start), frozen[k].1.upTo)
      {
        if k > 0 { assert frozen[k] == rest[k - 1] && FrozenIds(rest)[k - 1] == id; }
      }
    }
  }

  /** Before and after a step the stream has the same offset and the same reach. */
  predicate Untouched(w: World, v: World, id: nat) {
    && id in w.starts && id in v.starts && Reached(v, id) == Reached(w, id)
    && (id in v.streams <==> id in w.streams) && (id in w.streams ==> v.streams[id] == w.streams[id])
  }

  lemma TrackedStays(w: World, v: World, id: nat, behind: set<nat>)
    requires Tracked(w, id, behind) && id in w.starts && w.jobs.Keys <= v.jobs.Keys
    requires forall j :: Waits(v, j, id) ==> Waits(w, j, id) && Untouched(w, v, id)
    requires forall j :: j in behind && v.jobs[j].Freezing? ==> Waits(v, j, id)
    ensures Tracked(v, id, behind)
  {
    hide Reach, JobIds;
  }

  /** What a step does to the chain of the stream. */
  predicate ChainStep(w: World, v: World, id: nat, broken: bool) {
    && id in w.starts && id in v.starts && v.starts[id] == w.starts[id]
    && (Chained(v.windows, id, v.starts[id]) <==> Chained(w.windows, id, w.starts[id]) && !broken)
    && (GapFree(w.windows, id, w.starts[id]) ==> GapFree(v.windows, id, v.starts[id]))
  }

  lemma FrozenFrom(w: World, job: Job, id: nat)
    requires job.Freezing? && job.pending == [] && JobInTurn(w, job) && id in w.streams
    ensures forall k :: 0 <= k < |job.frozen| ==>
              job.frozen[k].1.id == job.frozen[k].0.id && (job.frozen[k].0.id == id ==> job.frozen[k].1.from == w.streams[id].offset)
    ensures NoTwice(FrozenIds(job.frozen)) && JobIds(job) == FrozenIds(job.frozen)
  {
    assert JobIds(job) == FrozenIds(job.frozen);
    forall k | 0 <= k < |job.frozen|
      ensures job.frozen[k].1.id == job.frozen[k].0.id && (job.frozen[k].0.id == id ==> job.frozen[k].1.from == w.streams[id].offset)
    {
      assert FrozenInTurn(w, job.frozen[k]);
    }
  }

  lemma ExecuteChain(w: World, j: nat, ok: bool, id: nat, behind: set<nat>)
    requires Inv(w) && Turns(w) && id in w.starts && Tracked(w, id, behind)
    ensures var e := Execute(j, ok);
            ChainStep(w, Step(w, e), id, Succeeds(w, e) && j in behind) && Tracked(Step(w, e), id, behind)
  {
    var e := Execute(j, ok);
    var v := Step(w, e);
    if Succeeds(w, e) {
      LogChains(w, j, id, behind);
      ExecuteGives(w, v, j);
      hide Inv, Logged, Chained, GapFree, Reach, JobInTurn, JobIds, Succeeds, Step, Turns;
      OnlyOneWaits(w, v, j, id);
      TrackedStays(w, v, id, behind);
    } else {
      hide Inv, Logged, Chained, GapFree, Reach, JobInTurn;
      TrackedStays(w, v, id, behind);
    }
  }

  lemma ExecuteGives(w: World, v: World, j: nat)
    requires Succeeds(w, Execute(j, true)) && v == Step(w, Execute(j, true))
    ensures j in v.jobs && v.jobs[j].Advancing? && v.jobs == w.jobs[j := v.jobs[j]]
    ensures v.starts == w.starts && v.streams == w.streams && v.windows == Logged(w.windows, j, w.jobs[j].frozen, w.tables)
  {
    hide Logged, Consumptions;
  }

  /** The log after statement j has run. */
  lemma LogChains(w: World, j: nat, id: nat, behind: set<nat>)
    requires Inv(w) && Turns(w) && id in w.starts && Tracked(w, id, behind)
    requires j in w.jobs && w.jobs[j].Freezing? && w.jobs[j].pending == [] && AllPresent(w.jobs[j].frozen, w.tables)
    ensures var more, start := Logged(w.windows, j, w.jobs[j].frozen, w.tables), w.starts[id];
            && (Chained(more, id, start) <==> Chained(w.windows, id, start) && j !in behind)
            && (GapFree(w.windows, id, start) ==> GapFree(more, id, start))
            && (id !in JobIds(w.jobs[j]) ==> Reach(more, id, start) == Reached(w, id))
  {
    assert JobInTurn(w, w.jobs[j]);
    if id in w.streams {
      StoredWithinReach(w, id);
      FrozenFrom(w, w.jobs[j], id);
      hide Inv, Turns, JobInTurn, Logged, Chained, GapFree, Reach;
      LoggedChain(w.windows, j, w.jobs[j].frozen, w.tables, id, w.starts[id], w.streams[id].offset);
    } else {
      GoneFrozen(w, w.jobs[j], id);
      hide Inv, Turns, JobInTurn, Logged, Chained, GapFree, Reach;
      LoggedChain(w.windows, j, w.jobs[j].frozen, w.tables, id, w.starts[id], 0);
    }
  }

  lemma GoneFrozen(w: World, job: Job, id: nat)
    requires job.Freezing? && job.pending == [] && JobInTurn(w, job) && id !in w.streams
    ensures forall k :: 0 <= k < |job.frozen| ==> job.frozen[k].1.id == job.frozen[k].0.id && job.frozen[k].0.id != id
    ensures NoTwice(FrozenIds(job.frozen)) && JobIds(job) == FrozenIds(job.frozen)
  {
    assert JobIds(job) == FrozenIds(job.frozen);
    forall k | 0 <= k < |job.frozen|
      ensures job.frozen[k].1.id == job.frozen[k].0.id && job.frozen[k].0.id != id
    {
      assert FrozenInTurn(w, job.frozen[k]);
    }
  }

  /** After statement j has run, a statement that waits on the stream waited before, and then the
      stream was none of j's. */
  lemma OnlyOneWaits(w: World, v: World, j: nat, id: nat)
    requires Turns(w) && j in w.jobs && j in v.jobs && v.jobs == w.jobs[j := v.jobs[j]] && !v.jobs[j].Freezing?
    ensures forall i :: Waits(v, i, id) ==> Waits(w, i, id) && id !in JobIds(w.jobs[j])
  {
    hide JobInTurn, JobIds;
    forall i | Waits(v, i, id)
      ensures Waits(w, i, id) && id !in JobIds(w.jobs[j])
    {
      assert i != j && Apart(JobIds(w.jobs[i]), JobIds(w.jobs[j]));
    }
  }

  lemma AdvanceChain(w: World, j: nat, ok: bool, id: nat, behind: set<nat>)
    requires Turns(w) && id in w.starts && Tracked(w, id, behind)
    ensures var v := Step(w, AdvanceNext(j, ok)); ChainStep(w, v, id, false) && Tracked(v, id, behind)
  {
    var v := Step(w, AdvanceNext(j, ok));
    if j in w.jobs && w.jobs[j].Advancing? {
      assert JobInTurn(w, w.jobs[j]);
      if w.jobs[j].left != [] { AdvanceInTurn(w, v, j, ok); } else { JobsOnly(w, v); }
      hide Chained, GapFree, Reach, JobInTurn, JobIds;
      OnlyOneWaits(w, v, j, id);
      TrackedStays(w, v, id, behind);
    }
  }

  lemma FreezeChain(w: World, j: nat, id: nat, behind: set<nat>)
    requires Turns(w) && id in w.starts && Tracked(w, id, behind)
    ensures var v := Step(w, FreezeNext(j)); ChainStep(w, v, id, false) && Tracked(v, id, behind)
  {
    var v := Step(w, FreezeNext(j));
    if v != w {
      assert JobInTurn(w, w.jobs[j]);
      FreezeInTurn(w, v, j);
      hide Chained, GapFree, Reach, JobInTurn, JobIds, Freeze;
      TrackedStays(w, v, id, behind);
    }
  }

  lemma BeginChain(w: World, j: nat, ids: seq<nat>, id: nat, behind: set<nat>)
    requires id in w.starts && Tracked(w, id, behind)
    ensures var v := Step(w, Begin(j, ids)); ChainStep(w, v, id, false) && Tracked(v, id, Behind(w, Begin(j, ids), id, behind))
  {
    var v := Step(w, Begin(j, ids));
    if j !in w.jobs {
      BeginIds(w, v, j, ids, id);
      hide Chained, GapFree, Reach, JobIds, Look, Step;
      BeginTracked(w, v, j, ids, id, behind);
    } else {
      hide Chained, GapFree, Reach, JobIds, Look;
    }
  }

  /** The new statement is behind exactly when the offset it read lags. */
  lemma BeginTracked(w: World, v: World, j: nat, ids: seq<nat>, id: nat, behind: set<nat>)
    requires id in w.starts && Tracked(w, id, behind) && j !in w.jobs && j in v.jobs && v == w.(jobs := w.jobs[j := v.jobs[j]])
    requires v.jobs[j].Freezing? && (id in JobIds(v.jobs[j]) <==> id in ids && id in w.streams)
    ensures Tracked(v, id, Behind(w, Begin(j, ids), id, behind))
  {
    hide Reach, JobIds;
    assert InStep(v, id) == InStep(w, id);
    assert j !in behind;
    forall i | Waits(v, i, id)
      ensures id in v.streams && (i in Behind(w, Begin(j, ids), id, behind) <==> !InStep(v, id))
    {
      if i != j { assert Waits(w, i, id); }
    }
  }

  lemma BeginIds(w: World, v: World, j: nat, ids: seq<nat>, id: nat)
    requires j !in w.jobs && v == Step(w, Begin(j, ids))
    ensures j in v.jobs && v == w.(jobs := w.jobs[j := v.jobs[j]])
    ensures v.jobs[j].Freezing? && (id in JobIds(v.jobs[j]) <==> id in ids && id in w.streams)
  {
    var seen := Look(w.streams, ids);
    LookIn(w.streams, ids);
    assert JobIds(v.jobs[j]) == SeenIds(seen);
    if id in ids && id in w.streams {
      var k := LookFinds(w.streams, ids, id);
      assert SeenIds(seen)[k] == id;
    }
    forall k | 0 <= k < |seen|
      ensures SeenIds(seen)[k] in ids && SeenIds(seen)[k] in w.streams
    {
      assert seen[k] in seen;
    }
  }

  lemma {:induction false} LookFinds(streams: map<nat, Stream>, ids: seq<nat>, id: nat) returns (k: nat)
    requires id in ids && id in streams
    ensures k < |Look(streams, ids)| && Look(streams, ids)[k].id == id
    decreases |ids|
  {
    if ids[0] == id {
      k := 0;
    } else {
      assert ids == [ids[0]] + ids[1..];
      k := LookFinds(streams, ids[1..], id);
      if ids[0] in streams { k := k + 1; }
    }
  }

  lemma CatalogChain(w: World, e: Event, id: nat, behind: set<nat>)
    requires Inv(w) && Turns(w) && TakesTurn(w, e) && id in w.starts && Tracked(w, id, behind)
    requires e.Insert? || e.Delete? || e.CreateStream? || e.DropStream?
    ensures ChainStep(w, Step(w, e), id, false) && Tracked(Step(w, e), id, behind)
  {
    var v := Step(w, e);
    hide Inv, Chained, GapFree, Reach, JobIds, JobInTurn;
    TrackedStays(w, v, id, behind);
  }

  lemma StepChain(w: World, e: Event, id: nat, behind: set<nat>)
    requires Inv(w) && Turns(w) && TakesTurn(w, e) && id in w.starts && Tracked(w, id, behind)
    ensures ChainStep(w, Step(w, e), id, Succeeds(w, e) && e.job in behind) && Tracked(Step(w, e), id, Behind(w, e, id, behind))
  {
    hide Inv, Turns, TakesTurn, Tracked, ChainStep, Step;
    match e
    case Begin(j, ids) => BeginChain(w, j, ids, id, behind);
    case FreezeNext(j) => FreezeChain(w, j, id, behind);
    case Execute(j, ok) => ExecuteChain(w, j, ok, id, behind);
    case AdvanceNext(j, ok) => AdvanceChain(w, j, ok, id, behind);
    case _ => CatalogChain(w, e, id, behind);
  }

  // ------------------------------------------------------------- whole runs

  /** While consumers take turns, a statement's window follows on from the earlier ones exactly
      when the stored offset was all that had been consumed as the statement began; and there is
      never a gap. */
  lemma {:induction false} ChainedIffLevel(w: World, es: seq<Event>, id: nat, behind: set<nat>)
    requires Inv(w) && Turns(w) && AllTakeTurns(w, es) && id in w.starts && Tracked(w, id, behind)
    requires Chained(w.windows, id, w.starts[id]) && GapFree(w.windows, id, w.starts[id])
    ensures var v := Run(w, es);
            && id in v.starts && v.starts[id] == w.starts[id] && GapFree(v.windows, id, v.starts[id])
            && (Chained(v.windows, id, v.starts[id]) <==> LevelBegins(w, es, id, behind))
    decreases |es|
  {
    hide Inv, Turns, Step, TakesTurn, Tracked, Chained, GapFree, Succeeds, Behind;
    if es != [] {
      var v := Step(w, es[0]);
      StepChain(w, es[0], id, behind);
      StepTurns(w, es[0]);
      StepKeeps(w, es[0]);
      if Chained(v.windows, id, v.starts[id]) {
        ChainedIffLevel(v, es[1..], id, Behind(w, es[0], id, behind));
      } else {
        StaysBroken(v, es[1..], id, Behind(w, es[0], id, behind));
      }
    }
  }

  /** A chain that is broken stays so. */
  lemma {:induction false} StaysBroken(w: World, es: seq<Event>, id: nat, behind: set<nat>)
    requires Inv(w) && Turns(w) && AllTakeTurns(w, es) && id in w.starts && Tracked(w, id, behind)
    requires !Chained(w.windows, id, w.starts[id]) && GapFree(w.windows, id, w.starts[id])
    ensures var v := Run(w, es);
            && id in v.starts && v.starts[id] == w.starts[id] && GapFree(v.windows, id, v.starts[id])
            && !Chained(v.windows, id, v.starts[id])
    decreases |es|
  {
    hide Inv, Turns, Step, TakesTurn, Tracked, Chained, GapFree, Succeeds, Behind;
    if es != [] {
      StepChain(w, es[0], id, behind);
      StepTurns(w, es[0]);
      StepKeeps(w, es[0]);
      StaysBroken(Step(w, es[0]), es[1..], id, Behind(w, es[0], id, behind));
    }
  }

  /** Nobody has the stream under way. */
  lemma NobodyWaits(w: World, id: nat)
    requires Free(w, id)
    ensures Tracked(w, id, {})
  {
    hide Reach;
  }

  /** When consumers take turns, each row up to what was consumed is taken by exactly one
      successful statement, if no statement succeeds that began while the stored offset lagged;
      and otherwise some window goes back, and its first row is taken twice unless it is empty. */
  lemma ExactlyOnceIffLevel(w: World, es: seq<Event>, id: nat)
    requires Inv(w) && Turns(w) && AllTakeTurns(w, es) && id in w.starts && Free(w, id)
    requires Chained(w.windows, id, w.starts[id]) && GapFree(w.windows, id, w.starts[id])
    ensures id in Run(w, es).starts
    ensures var v := Run(w, es);
            LevelBegins(w, es, id, {}) ==>
              forall r :: v.starts[id] < r <= Reached(v, id) ==> TakenOnce(v.windows, id, r)
    ensures var v := Run(w, es);
            !LevelBegins(w, es, id, {}) ==>
              exists k :: 0 <= k < |v.windows| && GoesBack(v.windows, k, id, v.starts[id])
  {
    NobodyWaits(w, id);
    ChainedIffLevel(w, es, id, {});
    var v := Run(w, es);
    hide Run, Inv, Turns, AllTakeTurns, LevelBegins, Free, Tracked;
    if LevelBegins(w, es, id, {}) {
      forall r | v.starts[id] < r <= Reached(v, id)
        ensures TakenOnce(v.windows, id, r)
      {
        OnceIn(v.windows, id, v.starts[id], r);
      }
    } else {
      var k := BrokenAt(v.windows, id, v.starts[id]);
    }
  }

  lemma OnceIn(ws: seq<Window>, id: nat, start: int, r: int)
    requires Chained(ws, id, start) && GapFree(ws, id, start) && start < r <= Reach(ws, id, start)
    ensures TakenOnce(ws, id, r)
  {
    var k := ReachTaken(ws, id, start, r);
    hide Chained, GapFree, Reach;
    forall j, n | 0 <= j < n < |ws| && Takes(ws[j], id, r)
      ensures !Takes(ws[n], id, r)
    {
      if ws[n].id == id { ChainDisjoint(ws, id, start, j, n, r); }
    }
  }

  /** The window begins before the end of the earlier ones: its first row was taken already. */
  ghost predicate GoesBack(ws: seq<Window>, k: nat, id: nat, start: int)
    requires k < |ws|
  {
    && ws[k].id == id && ws[k].from < Reach(ws[..k], id, start)
    && (ws[k].from < ws[k].upTo ==> exists j :: 0 <= j < k && Takes(ws[j], id, ws[k].from + 1) && Takes(ws[k], id, ws[k].from + 1))
  }

  lemma {:induction false} BrokenAt(ws: seq<Window>, id: nat, start: int) returns (k: nat)
    requires !Chained(ws, id, start) && GapFree(ws, id, start)
    ensures k < |ws| && GoesBack(ws, k, id, start)
    decreases |ws|
  {
    var front := ws[..|ws| - 1];
    if !Chained(front, id, start) {
      k := BrokenAt(front, id, start);
      assert front[..k] == ws[..k];
    } else {
      k := |ws| - 1;
      var r := ws[k].from + 1;
      var j := ReachTaken(front, id, start, r);
      assert ws[j] == front[j];
    }
  }

  // ------------------------------------------------------------- runs in which every store succeeds

  /** Statement j has consumed beyond the stored offset and is about to store how far. */
  predicate Owes(w: World, id: nat, j: nat, k: nat) {
    && id in w.starts && j in w.jobs && w.jobs[j].Advancing? && k < |w.jobs[j].left| && w.jobs[j].left[k].id == id
    && Reached(w, id) == Max(w.jobs[j].left[k].from, w.jobs[j].left[k].upTo)
  }

  ghost predicate Owed(w: World, id: nat) { exists j, k :: Owes(w, id, j, k) }

  ghost predicate Settled(w: World, id: nat) { id in w.streams ==> InStep(w, id) || Owed(w, id) }

  predicate AllStored(es: seq<Event>) { forall k :: 0 <= k < |es| && es[k].AdvanceNext? ==> es[k].ok }

  /** A waiting statement leaves no room for one that owes. */
  lemma WaitsInStep(w: World, id: nat, j: nat)
    requires Turns(w) && Settled(w, id) && id in w.streams && j in w.jobs && w.jobs[j].Freezing? && id in JobIds(w.jobs[j])
    ensures InStep(w, id)
  {
    hide Reach, JobInTurn;
    if Owed(w, id) {
      var i: nat, k: nat :| Owes(w, id, i, k);
      OweApart(w, id, i, k, j);
    }
  }

  lemma OweApart(w: World, id: nat, i: nat, k: nat, j: nat)
    requires Turns(w) && i in w.jobs && w.jobs[i].Advancing? && k < |w.jobs[i].left| && w.jobs[i].left[k].id == id
    requires j in w.jobs && j != i
    ensures id !in JobIds(w.jobs[j])
  {
    hide JobInTurn;
    assert JobIds(w.jobs[i])[k] == id;
    assert Apart(JobIds(w.jobs[i]), JobIds(w.jobs[j]));
  }

  lemma FreeInStep(w: World, id: nat)
    requires Settled(w, id) && id in w.streams && Free(w, id)
    ensures InStep(w, id)
  {
    hide Reach;
    if Owed(w, id) {
      var i: nat, k: nat :| Owes(w, id, i, k);
      UnderWay(w, id, i, k);
    }
  }

  lemma UnderWay(w: World, id: nat, j: nat, k: nat)
    requires Owes(w, id, j, k)
    ensures id in JobIds(w.jobs[j])
  {
    hide Reach;
    assert JobIds(w.jobs[j])[k] == id;
  }

  /** What is owed stays owed as long as its statement does not move. */
  lemma SettledStays(w: World, v: World, id: nat)
    requires Settled(w, id) && id in w.starts && Untouched(w, v, id)
    requires forall j :: j in w.jobs && w.jobs[j].Advancing? && id in JobIds(w.jobs[j]) ==> j in v.jobs && v.jobs[j] == w.jobs[j]
    ensures Settled(v, id)
  {
    hide Reach;
    if id in w.streams && Owed(w, id) {
      var i: nat, k: nat :| Owes(w, id, i, k);
      UnderWay(w, id, i, k);
      assert Owes(v, id, i, k);
    }
  }

  lemma ExecuteSettled(w: World, j: nat, ok: bool, id: nat)
    requires Inv(w) && Turns(w) && id in w.starts && Settled(w, id)
    ensures Settled(Step(w, Execute(j, ok)), id)
  {
    var e := Execute(j, ok);
    var v := Step(w, e);
    if Succeeds(w, e) {
      var job := w.jobs[j];
      assert JobInTurn(w, job);
      if id in w.streams && id in JobIds(job) {
        WaitsInStep(w, id, j);
        FrozenFrom(w, job, id);
        LoggedChain(w.windows, j, job.frozen, w.tables, id, w.starts[id], w.streams[id].offset);
        ConsumptionsAre(job.frozen);
        hide Inv, Turns, Logged, Chained, GapFree, Reach;
        var k :| 0 <= k < |job.frozen| && FrozenIds(job.frozen)[k] == id;
        assert job.frozen[k].0.id == id && v.jobs[j].left[k] == job.frozen[k].1;
        assert Owes(v, id, j, k);
      } else if id in w.streams {
        FrozenFrom(w, job, id);
        LoggedChain(w.windows, j, job.frozen, w.tables, id, w.starts[id], w.streams[id].offset);
        hide Inv, Turns, Logged, Chained, GapFree, Reach, JobIds;
        SettledStays(w, v, id);
      }
    } else {
      hide Inv, Turns, Reach, JobIds;
      SettledStays(w, v, id);
    }
  }

  lemma AdvanceSettled(w: World, j: nat, id: nat)
    requires Inv(w) && Turns(w) && id in w.starts && Settled(w, id)
    ensures Settled(Step(w, AdvanceNext(j, true)), id)
  {
    var v := Step(w, AdvanceNext(j, true));
    hide Reach;
    if v != w && id in w.streams {
      assert JobInTurn(w, w.jobs[j]);
      var left := w.jobs[j].left;
      if left != [] && id in JobIds(w.jobs[j]) {
        AdvanceInTurn(w, v, j, true);
        AdvanceOwn(w, v, j, id);
      } else if left != [] {
        AdvanceInTurn(w, v, j, true);
        hide JobIds;
        SettledStays(w, v, id);
      } else {
        SettledStays(w, v, id);
      }
    }
  }

  /** The statement that owes the stream its offset stores it, or one before it. */
  lemma AdvanceOwn(w: World, v: World, j: nat, id: nat)
    requires Inv(w) && Turns(w) && id in w.starts && Settled(w, id) && id in w.streams && v == Step(w, AdvanceNext(j, true))
    requires j in w.jobs && w.jobs[j].Advancing? && w.jobs[j].left != [] && id in JobIds(w.jobs[j])
    ensures Settled(v, id)
  {
    hide Inv, Turns, Reach, JobInTurn, JobIds, Settled, Step;
    var left := w.jobs[j].left;
    FirstLevel(w, j);
    LeftWithinReach(w, j, left[0]);
    OwnPlace(w, id, j);
    AdvanceGives(w, v, j);
    if left[0].id == id {
      assert InStep(w, id) || Owes(w, id, j, 0);
      assert InStep(v, id);
    } else if !InStep(w, id) {
      var k :| 0 < k < |left| && Owes(w, id, j, k);
      assert left[1..][k - 1] == left[k];
      assert Owes(v, id, j, k - 1);
    }
    assert InStep(v, id) || Owed(v, id);
    SettledIf(v, id);
  }

  lemma FirstLevel(w: World, j: nat)
    requires Turns(w) && j in w.jobs && w.jobs[j].Advancing? && w.jobs[j].left != []
    ensures Level(w, w.jobs[j].left[0].id, w.jobs[j].left[0].from)
  {
    assert JobInTurn(w, w.jobs[j]);
    hide Apart, NoTwice;
  }

  lemma AdvanceGives(w: World, v: World, j: nat)
    requires j in w.jobs && w.jobs[j].Advancing? && w.jobs[j].left != [] && v == Step(w, AdvanceNext(j, true))
    requires w.jobs[j].left[0].id in w.streams
    ensures var c := w.jobs[j].left[0];
            && j in v.jobs && v.jobs[j] == Advancing(w.jobs[j].left[1..]) && v.windows == w.windows && v.starts == w.starts
            && v.streams == if c.upTo <= c.from then w.streams else Update(w.streams, c.id, c.upTo)
  {
  }

  lemma SettledIf(w: World, id: nat)
    requires InStep(w, id) || Owed(w, id)
    ensures Settled(w, id)
  {
    hide Reach;
  }

  /** If something is owed for a stream of statement j, j owes it. */
  lemma OwnPlace(w: World, id: nat, j: nat)
    requires Turns(w) && Settled(w, id) && id in w.streams && j in w.jobs && w.jobs[j].Advancing? && id in JobIds(w.jobs[j])
    ensures var left := w.jobs[j].left;
            InStep(w, id) || exists k :: 0 <= k < |left| && Owes(w, id, j, k) && (left[0].id == id ==> k == 0)
  {
    hide Reach;
    if !InStep(w, id) {
      var left := w.jobs[j].left;
      assert JobInTurn(w, w.jobs[j]);
      var i: nat, k: nat :| Owes(w, id, i, k);
      if i != j { OweApart(w, id, i, k, j); }
      LeftOnce(left, k);
    }
  }

  /** What a statement has to store was consumed. */
  lemma LeftWithinReach(w: World, j: nat, c: Consumption)
    requires Inv(w) && j in w.jobs && w.jobs[j].Advancing? && c in w.jobs[j].left
    ensures c.id in w.starts && c.upTo <= Reached(w, c.id)
  {
    hide WindowFits, Covered;
    assert JobFits(w, w.jobs[j]);
    var n :| 0 <= n < |w.jobs[j].left| && w.jobs[j].left[n] == c;
    assert InLog(w.windows, c.id, c.from, c.upTo);
    var k :| 0 <= k < |w.windows| && w.windows[k].id == c.id && w.windows[k].from == c.from && w.windows[k].upTo == c.upTo;
    WithinReach(w.windows, c.id, w.starts[c.id], k);
  }

  lemma LeftOnce(left: seq<Consumption>, n: nat)
    requires NoTwice(LeftIds(left)) && n < |left|
    ensures forall i :: 0 <= i < |left| && left[i].id == left[n].id ==> i == n
  {
    forall i | 0 <= i < |left| && left[i].id == left[n].id
      ensures i == n
    {
      assert LeftIds(left)[i] == LeftIds(left)[n];
    }
  }

  lemma BeginSettled(w: World, j: nat, ids: seq<nat>, id: nat)
    requires id in w.starts && Settled(w, id)
    ensures Settled(Step(w, Begin(j, ids)), id)
  {
    hide Reach, JobIds, Look, Settled;
    SettledStays(w, Step(w, Begin(j, ids)), id);
  }

  lemma FreezeSettled(w: World, j: nat, id: nat)
    requires id in w.starts && Settled(w, id)
    ensures Settled(Step(w, FreezeNext(j)), id)
  {
    hide Reach, JobIds, Freeze, Settled;
    SettledStays(w, Step(w, FreezeNext(j)), id);
  }

  lemma CatalogSettled(w: World, e: Event, id: nat)
    requires id in w.starts && Settled(w, id) && (e.Insert? || e.Delete? || e.CreateStream? || e.DropStream?)
    ensures Settled(Step(w, e), id)
  {
    hide Reach, JobIds;
    if e == DropStream(id) {
      assert id !in Step(w, e).streams;
    } else {
      hide Settled;
      SettledStays(w, Step(w, e), id);
    }
  }

  lemma StepSettled(w: World, e: Event, id: nat)
    requires Inv(w) && Turns(w) && (e.AdvanceNext? ==> e.ok) && id in w.starts && Settled(w, id)
    ensures Settled(Step(w, e), id)
  {
    hide Inv, Turns, Settled, Step;
    match e
    case Execute(j, ok) => ExecuteSettled(w, j, ok, id);
    case AdvanceNext(j, ok) => AdvanceSettled(w, j, id);
    case FreezeNext(j) => FreezeSettled(w, j, id);
    case Begin(j, ids) => BeginSettled(w, j, ids, id);
    case _ => CatalogSettled(w, e, id);
  }

  /** As long as every offset is stored, every statement begins with all that was consumed. */
  lemma {:induction false} StoredLevel(w: World, es: seq<Event>, id: nat)
    requires Inv(w) && Turns(w) && AllTakeTurns(w, es) && AllStored(es) && id in w.starts && Settled(w, id)
    ensures LevelBegins(w, es, id, {})
    decreases |es|
  {
    if es != [] {
      var e := es[0];
      StepSettled(w, e, id);
      StepTurns(w, e);
      StepKeeps(w, e);
      if e.Begin? && id in e.ids && id in w.streams {
        var k :| 0 <= k < |e.ids| && e.ids[k] == id;
        assert Free(w, e.ids[k]);
        FreeInStep(w, id);
      }
      assert AllStored(es[1..]) by { assert forall k :: 0 <= k < |es[1..]| ==> es[1..][k] == es[k + 1]; }
      assert id in Step(w, e).starts;
      hide Inv, Turns, Step, Settled, TakesTurn, InStep, AllStored;
      StoredLevel(Step(w, e), es[1..], id);
    }
  }

  /** When consumers take turns and every offset is stored, every row that was consumed was
      consumed by exactly one successful statement. */
  lemma ExactlyOnce(w: World, es: seq<Event>, id: nat, r: int)
    requires Inv(w) && Turns(w) && AllTakeTurns(w, es) && AllStored(es) && id in w.starts && Free(w, id) && Settled(w, id)
    requires Chained(w.windows, id, w.starts[id]) && GapFree(w.windows, id, w.starts[id])
    requires var v := Run(w, es); id in v.starts ==> v.starts[id] < r <= Reached(v, id)
    ensures var v := Run(w, es);
            id in v.starts && TakenOnce(v.windows, id, r)
  {
    StoredLevel(w, es, id);
    ExactlyOnceIffLevel(w, es, id);
  }

  lemma {:induction false} RunSettled(w: World, es: seq<Event>, id: nat)
    requires Inv(w) && Turns(w) && AllTakeTurns(w, es) && AllStored(es) && id in w.starts && Settled(w, id)
    ensures Settled(Run(w, es), id)
    decreases |es|
  {
    if es != [] {
      StepSettled(w, es[0], id);
      StepTurns(w, es[0]);
      StepKeeps(w, es[0]);
      assert AllStored(es[1..]) by { assert forall k :: 0 <= k < |es[1..]| ==> es[1..][k] == es[k + 1]; }
      assert id in Step(w, es[0]).starts;
      hide Inv, Turns, Step, Settled, TakesTurn, AllStored;
      RunSettled(Step(w, es[0]), es[1..], id);
    }
  }

  /** And nothing beyond the offset of a stream that no statement has under way was consumed. */
  lemma NothingAhead(w: World, es: seq<Event>, id: nat, k: nat)
    requires Inv(w) && Turns(w) && AllTakeTurns(w, es) && AllStored(es) && id in w.starts && Settled(w, id)
    requires var v := Run(w, es); id in v.streams && Free(v, id) && k < |v.windows| && v.windows[k].id == id
    ensures Run(w, es).windows[k].upTo <= Run(w, es).streams[id].offset
  {
    RunSettled(w, es, id);
    var v := Run(w, es);
    hide Run, Inv, Turns, AllTakeTurns;
    FreeInStep(v, id);
    WithinReach(v.windows, id, v.starts[id], k);
  }
}
