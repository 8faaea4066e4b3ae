/** Consumers of a stream that take turns: the offset a statement read is the stored one until
    it stores its own. */
module StreamTurns {
  import opened Streams
  import opened StreamSafety

  // ------------------------------------------------------------- taking turns

  function SeenIds(seen: seq<Seen>): seq<nat> { seq(|seen|, i requires 0 <= i < |seen| => seen[i].id) }

  function FrozenIds(frozen: seq<(Seen, Consumption)>): seq<nat> {
    seq(|frozen|, i requires 0 <= i < |frozen| => frozen[i].0.id)
  }

  function LeftIds(left: seq<Consumption>): seq<nat> { seq(|left|, i requires 0 <= i < |left| => left[i].id) }

  /** The streams a statement has under way. */
  function JobIds(job: Job): seq<nat> {
    match job
    case Freezing(pending, frozen) => FrozenIds(frozen) + SeenIds(pending)
    case Advancing(left) => LeftIds(left)
    case _ => []
  }

  predicate NoTwice(ids: seq<nat>) { forall i, j :: 0 <= i < j < |ids| ==> ids[i] != ids[j] }

  predicate Free(w: World, id: nat) { forall j :: j in w.jobs ==> id !in JobIds(w.jobs[j]) }

  /** Statements begin, and streams are dropped, only when no other statement has the same
      stream under way. Storing an offset may fail. */
  predicate TakesTurn(w: World, e: Event) {
    match e
    case Begin(j, ids) => NoTwice(ids) && forall k :: 0 <= k < |ids| ==> Free(w, ids[k])
    case DropStream(id) => Free(w, id)
    case _ => true
  }

  /** The stored offset. */
  predicate Level(w: World, id: nat, offset: int) {
    id in w.streams && id in w.starts && w.streams[id].offset == offset
  }

  predicate FrozenInTurn(w: World, p: (Seen, Consumption)) {
    p.1.id == p.0.id && p.1.from == p.0.offset && Level(w, p.0.id, p.0.offset)
  }

  predicate JobInTurn(w: World, job: Job) {
    && NoTwice(JobIds(job))
    && match job
       case Freezing(pending, frozen) =>
         && (forall k :: 0 <= k < |pending| ==> Level(w, pending[k].id, pending[k].offset))
         && (forall k :: 0 <= k < |frozen| ==> FrozenInTurn(w, frozen[k]))
       case Advancing(left) => forall k :: 0 <= k < |left| ==> Level(w, left[k].id, left[k].from)
       case _ => true
  }

  predicate Apart(a: seq<nat>, b: seq<nat>) { forall i, j :: 0 <= i < |a| && 0 <= j < |b| ==> a[i] != b[j] }

  ghost predicate Turns(w: World) {
    && (forall j :: j in w.jobs ==> JobInTurn(w, w.jobs[j]))
    && (forall i, j :: i in w.jobs && j in w.jobs && i != j ==> Apart(JobIds(w.jobs[i]), JobIds(w.jobs[j])))
    && (forall id :: id in w.streams ==> id in w.starts)
  }

  // ------------------------------------------------------------- changes that concern one statement

  /** Of this stream, the two states say the same. */
  predicate SameStream(w: World, v: World, id: nat) {
    && (id in v.streams <==> id in w.streams) && (id in w.streams ==> v.streams[id] == w.streams[id])
    && (id in v.starts <==> id in w.starts) && (id in w.starts ==> v.starts[id] == w.starts[id])
  }

  lemma JobInTurnStays(w: World, v: World, job: Job)
    requires JobInTurn(w, job) && forall k :: 0 <= k < |JobIds(job)| ==> SameStream(w, v, JobIds(job)[k])
    ensures JobInTurn(v, job)
  {
    hide NoTwice;
    match job
    case Freezing(pending, frozen) =>
      forall k | 0 <= k < |pending|
        ensures Level(v, pending[k].id, pending[k].offset)
      {
        assert JobIds(job)[|frozen| + k] == pending[k].id;
      }
      forall k | 0 <= k < |frozen|
        ensures FrozenInTurn(v, frozen[k])
      {
        assert FrozenInTurn(w, frozen[k]);
        assert JobIds(job)[k] == frozen[k].0.id;
      }
    case Advancing(left) =>
      forall k | 0 <= k < |left|
        ensures Level(v, left[k].id, left[k].from)
      {
        assert JobIds(job)[k] == left[k].id;
      }
    case _ =>
  }

  /** Only statement j changed, to one with fewer streams under way, and with them only what is
      known of the streams it had. */
  lemma TurnsIf(w: World, v: World, j: nat)
    requires Turns(w) && j in w.jobs && j in v.jobs && v.jobs == w.jobs[j := v.jobs[j]] && JobInTurn(v, v.jobs[j])
    requires forall id :: id in JobIds(v.jobs[j]) ==> id in JobIds(w.jobs[j])
    requires forall id :: id !in JobIds(w.jobs[j]) ==> SameStream(w, v, id)
    requires forall id :: id in v.streams ==> id in v.starts
    ensures Turns(v)
  {
    forall i | i in v.jobs
      ensures JobInTurn(v, v.jobs[i])
    {
      if i != j { OthersInTurn(w, v, i, j); }
    }
    forall i, k | i in v.jobs && k in v.jobs && i != k
      ensures Apart(JobIds(v.jobs[i]), JobIds(v.jobs[k]))
    {
      StillApart(w, v, i, k, j);
    }
  }

  lemma OthersInTurn(w: World, v: World, i: nat, j: nat)
    requires Turns(w) && i in w.jobs && j in w.jobs && i != j
    requires forall id :: id !in JobIds(w.jobs[j]) ==> SameStream(w, v, id)
    ensures JobInTurn(v, w.jobs[i])
  {
    hide JobIds, SameStream;
    assert Apart(JobIds(w.jobs[i]), JobIds(w.jobs[j]));
    forall k | 0 <= k < |JobIds(w.jobs[i])|
      ensures SameStream(w, v, JobIds(w.jobs[i])[k])
    {
      assert JobIds(w.jobs[i])[k] !in JobIds(w.jobs[j]);
    }
    JobInTurnStays(w, v, w.jobs[i]);
  }

  lemma StillApart(w: World, v: World, i: nat, k: nat, j: nat)
    requires Turns(w) && i in w.jobs && k in w.jobs && i != k && j in w.jobs && j in v.jobs
    requires v.jobs == w.jobs[j := v.jobs[j]] && forall id :: id in JobIds(v.jobs[j]) ==> id in JobIds(w.jobs[j])
    ensures Apart(JobIds(v.jobs[i]), JobIds(v.jobs[k]))
  {
    hide JobIds;
    assert Apart(JobIds(w.jobs[i]), JobIds(w.jobs[k]));
    var a, b := JobIds(v.jobs[i]), JobIds(v.jobs[k]);
    forall x, y | 0 <= x < |a| && 0 <= y < |b|
      ensures a[x] != b[y]
    {
      assert a[x] in a && b[y] in b;
      assert a[x] in JobIds(w.jobs[i]) && b[y] in JobIds(w.jobs[k]);
    }
  }

  // ------------------------------------------------------------- the steps of a statement

  lemma FreezeTurns(w: World, j: nat)
    requires Turns(w)
    ensures Turns(FreezeStep(w, j))
  {
    var v := FreezeStep(w, j);
    if v != w {
      assert JobInTurn(w, w.jobs[j]);
      FreezeInTurn(w, v, j);
      JobsOnly(w, v);
      hide JobInTurn, Apart, SameStream, Level, JobIds;
      TurnsIf(w, v, j);
    }
  }

  lemma JobsOnly(w: World, v: World)
    requires v == w.(jobs := v.jobs)
    ensures forall id :: SameStream(w, v, id)
  {
  }

  lemma FreezeInTurn(w: World, v: World, j: nat)
    requires j in w.jobs && w.jobs[j].Freezing? && w.jobs[j].pending != [] && v == FreezeStep(w, j) && JobInTurn(w, w.jobs[j])
    ensures JobInTurn(v, v.jobs[j])
    ensures forall id :: id in JobIds(v.jobs[j]) ==> id in JobIds(w.jobs[j])
    ensures v.jobs[j].Freezing? ==> JobIds(v.jobs[j]) == JobIds(w.jobs[j])
  {
    hide HighWater;
    var pending, frozen := w.jobs[j].pending, w.jobs[j].frozen;
    var s := pending[0];
    if s.source in w.tables {
      var now := frozen + [(s, Freeze(s, w.tables))];
      assert FrozenIds(now) == FrozenIds(frozen) + [s.id];
      assert SeenIds(pending) == [s.id] + SeenIds(pending[1..]);
      assert JobIds(v.jobs[j]) == JobIds(w.jobs[j]);
    }
  }

  lemma FreezingLevel(w: World, job: Job, id: nat)
    requires job.Freezing? && JobInTurn(w, job) && id in JobIds(job)
    ensures id in w.streams && Level(w, id, w.streams[id].offset)
  {
    hide NoTwice;
    var k :| 0 <= k < |JobIds(job)| && JobIds(job)[k] == id;
    if k < |job.frozen| {
      assert FrozenInTurn(w, job.frozen[k]) && job.frozen[k].0.id == id;
    } else {
      assert job.pending[k - |job.frozen|].id == id;
    }
  }

  lemma ExecuteTurns(w: World, j: nat, ok: bool)
    requires Turns(w)
    ensures Turns(ExecuteStep(w, j, ok))
  {
    var v := ExecuteStep(w, j, ok);
    if v != w {
      assert JobInTurn(w, w.jobs[j]);
      if ok && AllPresent(w.jobs[j].frozen, w.tables) {
        ExecuteInTurn(w, v, j);
      }
      hide JobInTurn, Apart, Logged;
      TurnsIf(w, v, j);
    }
  }

  lemma ExecuteInTurn(w: World, v: World, j: nat)
    requires Turns(w) && j in w.jobs && w.jobs[j].Freezing? && w.jobs[j].pending == [] && JobInTurn(w, w.jobs[j])
    requires AllPresent(w.jobs[j].frozen, w.tables) && v == ExecuteStep(w, j, true)
    ensures JobInTurn(v, v.jobs[j]) && JobIds(v.jobs[j]) == JobIds(w.jobs[j])
    ensures forall id :: SameStream(w, v, id)
  {
    var frozen := w.jobs[j].frozen;
    ConsumptionsAre(frozen);
    var left := Consumptions(frozen);
    assert JobIds(w.jobs[j]) == FrozenIds(frozen);
    assert LeftIds(left) == FrozenIds(frozen);
    hide Logged, NoTwice, Apart, Consumptions, Read;
    forall k | 0 <= k < |left|
      ensures Level(v, left[k].id, left[k].from)
    {
      assert FrozenInTurn(w, frozen[k]);
    }
  }

  lemma AdvanceTurns(w: World, j: nat, ok: bool)
    requires Turns(w)
    ensures Turns(AdvanceStep(w, j, ok))
  {
    var v := AdvanceStep(w, j, ok);
    if j in w.jobs && w.jobs[j].Advancing? {
      assert JobInTurn(w, w.jobs[j]);
      if w.jobs[j].left != [] { AdvanceInTurn(w, v, j, ok); } else { JobsOnly(w, v); }
      NothingInTurn(v);
      hide JobInTurn, Apart, Level, SameStream, LeftIds;
      TurnsIf(w, v, j);
    }
  }

  lemma NothingInTurn(w: World)
    ensures JobInTurn(w, Finished) && JobIds(Finished) == []
  {
  }

  lemma AdvanceInTurn(w: World, v: World, j: nat, ok: bool)
    requires j in w.jobs && w.jobs[j].Advancing? && w.jobs[j].left != [] && JobInTurn(w, w.jobs[j]) && v == AdvanceStep(w, j, ok)
    ensures JobInTurn(v, v.jobs[j])
    ensures forall id :: id in JobIds(v.jobs[j]) ==> id in JobIds(w.jobs[j])
    ensures forall id :: id !in JobIds(w.jobs[j]) ==> SameStream(w, v, id)
    ensures v.streams.Keys == w.streams.Keys && v.starts == w.starts
  {
    var left := w.jobs[j].left;
    var c := left[0];
    assert Level(w, c.id, c.from);
    assert LeftIds(left) == [c.id] + LeftIds(left[1..]);
    assert LeftIds(left)[0] == c.id && c.id in JobIds(w.jobs[j]);
    assert LeftIds(left[1..]) == LeftIds(left)[1..];
    if v.jobs[j] == Advancing(left[1..]) {
      forall k | 0 <= k < |left[1..]|
        ensures Level(v, left[1..][k].id, left[1..][k].from)
      {
        assert left[1..][k] == left[k + 1] && LeftIds(left)[k + 1] == left[k + 1].id && LeftIds(left)[0] == c.id;
        assert Level(w, left[k + 1].id, left[k + 1].from);
      }
    }
  }

  lemma BeginTurns(w: World, j: nat, ids: seq<nat>)
    requires Turns(w) && TakesTurn(w, Begin(j, ids))
    ensures Turns(Step(w, Begin(j, ids)))
  {
    var v := Step(w, Begin(j, ids));
    if j !in w.jobs {
      var seen := Look(w.streams, ids);
      LevelIfFree(w, ids);
      LookIs(w, ids);
      assert JobIds(v.jobs[j]) == SeenIds(seen);
      hide Look;
      forall i | i in v.jobs
        ensures JobInTurn(v, v.jobs[i])
      {
        if i != j { JobInTurnStays(w, v, w.jobs[i]); }
      }
      hide JobInTurn;
      forall i, k | i in v.jobs && k in v.jobs && i != k
        ensures Apart(JobIds(v.jobs[i]), JobIds(v.jobs[k]))
      {
        BeginApart(w, v, i, k, j, seen, ids);
      }
    }
  }

  lemma LevelIfFree(w: World, ids: seq<nat>)
    requires Turns(w) && forall k :: 0 <= k < |ids| ==> Free(w, ids[k])
    ensures forall k :: 0 <= k < |ids| && ids[k] in w.streams ==> Level(w, ids[k], w.streams[ids[k]].offset)
  {
    hide Free, JobInTurn, Apart;
  }

  lemma BeginApart(w: World, v: World, i: nat, k: nat, j: nat, seen: seq<Seen>, ids: seq<nat>)
    requires Turns(w) && j !in w.jobs && j in v.jobs && v.jobs == w.jobs[j := v.jobs[j]]
    requires i in v.jobs && k in v.jobs && i != k && JobIds(v.jobs[j]) == SeenIds(seen)
    requires forall n :: 0 <= n < |seen| ==> seen[n].id in ids
    requires forall n :: 0 <= n < |ids| ==> Free(w, ids[n])
    ensures Apart(JobIds(v.jobs[i]), JobIds(v.jobs[k]))
  {
    hide JobIds, JobInTurn, Level;
    var a, b := JobIds(v.jobs[i]), JobIds(v.jobs[k]);
    forall x, y | 0 <= x < |a| && 0 <= y < |b|
      ensures a[x] != b[y]
    {
      if i == j {
        assert a[x] == seen[x].id && Free(w, a[x]) && b[y] in JobIds(w.jobs[k]);
      } else if k == j {
        assert b[y] == seen[y].id && Free(w, b[y]) && a[x] in JobIds(w.jobs[i]);
      } else {
        assert Apart(JobIds(w.jobs[i]), JobIds(w.jobs[k]));
      }
    }
  }

  lemma FirstNotLater(ids: seq<nat>)
    requires NoTwice(ids) && ids != []
    ensures ids[0] !in ids[1..] && NoTwice(ids[1..])
  {
  }

  lemma NoTwiceCons(x: nat, xs: seq<nat>)
    requires NoTwice(xs) && forall k :: 0 <= k < |xs| ==> xs[k] != x
    ensures NoTwice([x] + xs)
  {
  }

  /** The catalog listing names each stream once, with its stored offset. */
  lemma {:induction false} LookIn(streams: map<nat, Stream>, ids: seq<nat>)
    ensures var seen := Look(streams, ids);
            forall x :: x in seen ==> x.id in ids && x.id in streams && x.offset == streams[x.id].offset
    decreases |ids|
  {
    if ids != [] {
      LookIn(streams, ids[1..]);
      var rest, seen := Look(streams, ids[1..]), Look(streams, ids);
      assert ids == [ids[0]] + ids[1..];
      if ids[0] in streams { assert seen == [Seen(ids[0], streams[ids[0]].source, streams[ids[0]].offset)] + rest; }
      else { assert seen == rest; }
    }
  }

  lemma {:induction false} LookOnce(streams: map<nat, Stream>, ids: seq<nat>)
    requires NoTwice(ids)
    ensures NoTwice(SeenIds(Look(streams, ids)))
    decreases |ids|
  {
    if ids != [] {
      var rest := Look(streams, ids[1..]);
      FirstNotLater(ids);
      LookIn(streams, ids[1..]);
      LookOnce(streams, ids[1..]);
      if ids[0] in streams {
        var first := Seen(ids[0], streams[ids[0]].source, streams[ids[0]].offset);
        SeenFirst(first, rest, ids[1..]);
        assert Look(streams, ids) == [first] + rest;
      } else {
        assert Look(streams, ids) == rest;
      }
    }
  }

  lemma LookIs(w: World, ids: seq<nat>)
    requires NoTwice(ids) && forall k :: 0 <= k < |ids| && ids[k] in w.streams ==> Level(w, ids[k], w.streams[ids[k]].offset)
    ensures var seen := Look(w.streams, ids);
            && NoTwice(SeenIds(seen))
            && (forall k :: 0 <= k < |seen| ==> seen[k].id in ids && Level(w, seen[k].id, seen[k].offset))
  {
    LookIn(w.streams, ids);
    LookOnce(w.streams, ids);
    hide Look, Level;
  }

  lemma SeenFirst(first: Seen, rest: seq<Seen>, ids: seq<nat>)
    requires NoTwice(SeenIds(rest)) && first.id !in ids && forall k :: 0 <= k < |rest| ==> rest[k].id in ids
    ensures NoTwice(SeenIds([first] + rest))
  {
    assert forall k :: 0 <= k < |rest| ==> SeenIds(rest)[k] != first.id;
    assert SeenIds([first] + rest) == [first.id] + SeenIds(rest);
    hide NoTwice;
    NoTwiceCons(first.id, SeenIds(rest));
  }

  lemma CreateTurns(w: World, id: nat, source: string, offset: int)
    requires Inv(w) && Turns(w)
    ensures Turns(Step(w, CreateStream(id, source, offset)))
  {
    var v := Step(w, CreateStream(id, source, offset));
    if v != w {
      NewStream(w, id);
      hide Inv;
      forall i | i in v.jobs
        ensures JobInTurn(v, v.jobs[i])
      {
        InTurnKnown(w, i);
        JobInTurnStays(w, v, w.jobs[i]);
      }
    }
  }

  lemma DropTurns(w: World, id: nat)
    requires Turns(w) && Free(w, id)
    ensures Turns(Step(w, DropStream(id)))
  {
    var v := Step(w, DropStream(id));
    hide JobInTurn, JobIds, Apart;
    forall i | i in v.jobs
      ensures JobInTurn(v, v.jobs[i])
    {
      DropStays(w, v, id, w.jobs[i]);
    }
  }

  lemma DropStays(w: World, v: World, id: nat, job: Job)
    requires JobInTurn(w, job) && id !in JobIds(job) && v == Step(w, DropStream(id))
    ensures JobInTurn(v, job)
  {
    hide JobInTurn, JobIds;
    JobInTurnStays(w, v, job);
  }

  /** A statement in turn has only streams of the catalog under way. */
  lemma InTurnKnown(w: World, j: nat)
    requires Turns(w) && j in w.jobs
    ensures forall k :: 0 <= k < |JobIds(w.jobs[j])| ==> JobIds(w.jobs[j])[k] in w.streams
  {
    assert JobInTurn(w, w.jobs[j]);
    hide NoTwice, Apart;
    forall k | 0 <= k < |JobIds(w.jobs[j])|
      ensures JobIds(w.jobs[j])[k] in w.streams
    {
      if w.jobs[j].Freezing? {
        FreezingLevel(w, w.jobs[j], JobIds(w.jobs[j])[k]);
      } else if w.jobs[j].Advancing? {
        assert Level(w, w.jobs[j].left[k].id, w.jobs[j].left[k].from);
      }
    }
  }

  /** No window is logged for an identifier that was never given out. */
  lemma NewStream(w: World, id: nat)
    requires Inv(w) && id !in w.starts
    ensures id !in w.streams && forall k :: 0 <= k < |w.windows| ==> w.windows[k].id != id
  {
    hide Covered, JobFits;
    forall k | 0 <= k < |w.windows|
      ensures w.windows[k].id != id
    {
      assert WindowFits(w, w.windows[k]);
    }
  }

  lemma TableTurns(w: World, e: Event)
    requires Turns(w) && (e.Insert? || e.Delete?)
    ensures Turns(Step(w, e))
  {
    var v := Step(w, e);
    forall i | i in v.jobs
      ensures JobInTurn(v, v.jobs[i])
    {
      JobInTurnStays(w, v, w.jobs[i]);
    }
  }

  lemma StepTurns(w: World, e: Event)
    requires Inv(w) && Turns(w) && TakesTurn(w, e)
    ensures Turns(Step(w, e))
  {
    hide Inv, Turns, FreezeStep, ExecuteStep, AdvanceStep, Free;
    match e
    case Insert(t, r) => TableTurns(w, e);
    case Delete(t, r) => TableTurns(w, e);
    case CreateStream(id, source, offset) => CreateTurns(w, id, source, offset);
    case DropStream(id) => DropTurns(w, id);
    case Begin(j, ids) => BeginTurns(w, j, ids);
    case FreezeNext(j) => FreezeTurns(w, j);
    case Execute(j, ok) => ExecuteTurns(w, j, ok);
    case AdvanceNext(j, ok) => AdvanceTurns(w, j, ok);
  }

  predicate AllTakeTurns(w: World, es: seq<Event>)
    decreases |es|
  {
    es == [] || (TakesTurn(w, es[0]) && AllTakeTurns(Step(w, es[0]), es[1..]))
  }

  /** The catalog before any statement: no stream, no log. */
  predicate Fresh(w: World) {
    && w.streams == map[] && w.starts == map[] && w.jobs == map[] && w.windows == []
    && forall t :: t in w.tables ==> forall r :: r in w.tables[t].rows ==> r < w.tables[t].next
  }

  lemma FreshStarts(w: World)
    requires Fresh(w)
    ensures Inv(w) && Turns(w)
  {
  }
}
