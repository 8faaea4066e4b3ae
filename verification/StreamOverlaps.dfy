/** Rows that are consumed twice: by statements that overlap, and after a failure to store an
    offset. */
module StreamOverlaps {
  import opened Streams
  import opened StreamSafety
  import opened StreamTurns
  import opened StreamChains

  // ------------------------------------------------------------- statements that overlap

  /** Whatever statement j reads of the stream, or has read, begins after f. */
  predicate Claims(w: World, j: nat, id: nat, f: int) {
    && j in w.jobs
    && (w.jobs[j].Freezing? ==>
          && (forall k :: 0 <= k < |w.jobs[j].pending| && w.jobs[j].pending[k].id == id ==> w.jobs[j].pending[k].offset == f)
          && (forall k :: 0 <= k < |w.jobs[j].frozen| && w.jobs[j].frozen[k].1.id == id ==> w.jobs[j].frozen[k].1.from == f))
    && (forall k :: 0 <= k < |w.windows| && w.windows[k].job == j && w.windows[k].id == id ==> w.windows[k].from == f)
  }

  lemma BeginClaims(w: World, j: nat, ids: seq<nat>, id: nat)
    requires Inv(w) && j !in w.jobs && id in w.streams
    ensures Claims(Step(w, Begin(j, ids)), j, id, w.streams[id].offset)
  {
    var v := Step(w, Begin(j, ids));
    LookIn(w.streams, ids);
    hide Look, Covered, JobFits;
    forall k | 0 <= k < |v.windows|
      ensures v.windows[k].job != j
    {
      assert WindowFits(w, w.windows[k]);
    }
    forall k | 0 <= k < |v.jobs[j].pending| && v.jobs[j].pending[k].id == id
      ensures v.jobs[j].pending[k].offset == w.streams[id].offset
    {
      assert v.jobs[j].pending[k] in v.jobs[j].pending;
    }
  }

  lemma ExecuteClaims(w: World, i: nat, ok: bool, j: nat, id: nat, f: int)
    requires Claims(w, j, id, f)
    ensures Claims(ExecuteStep(w, i, ok), j, id, f)
  {
    var v := ExecuteStep(w, i, ok);
    if v.windows != w.windows {
      var frozen := w.jobs[i].frozen;
      LoggedIs(w.windows, i, frozen, w.tables);
      hide Logged, Consumptions;
      forall k | 0 <= k < |v.windows| && v.windows[k].job == j && v.windows[k].id == id
        ensures v.windows[k].from == f
      {
        if k >= |w.windows| {
          var n := k - |w.windows|;
          assert v.windows[|w.windows| + n] == Read(i, frozen[n].0, frozen[n].1, w.tables);
        } else {
          assert v.windows[k] == w.windows[k];
        }
      }
    }
  }

  lemma FreezeClaims(w: World, i: nat, j: nat, id: nat, f: int)
    requires Claims(w, j, id, f)
    ensures Claims(FreezeStep(w, i), j, id, f)
  {
    hide HighWater;
  }

  lemma StepClaims(w: World, e: Event, j: nat, id: nat, f: int)
    requires Claims(w, j, id, f)
    ensures Claims(Step(w, e), j, id, f)
  {
    match e
    case Execute(i, ok) => ExecuteClaims(w, i, ok, j, id, f);
    case FreezeNext(i) => FreezeClaims(w, i, j, id, f);
    case _ => hide Look;
  }

  lemma {:induction false} RunClaims(w: World, es: seq<Event>, j: nat, id: nat, f: int)
    requires Claims(w, j, id, f)
    ensures Claims(Run(w, es), j, id, f)
    decreases |es|
  {
    hide Claims, Step;
    if es != [] {
      StepClaims(w, es[0], j, id, f);
      RunClaims(Step(w, es[0]), es[1..], j, id, f);
    }
  }

  /** Statement a begins, anything happens, statement b begins, anything happens: if both succeed,
      the rows of the stream that both consume are exactly those beyond the offset that was stored
      as b began and within what both froze. So if a had not stored its offset by then, every row
      that was new to both is consumed by both; if it had, none of a's is consumed again. */
  lemma OverlapReadsTwice(u: World, a: nat, ids: seq<nat>, es: seq<Event>, b: nat, others: seq<nat>, more: seq<Event>,
                          id: nat, k: nat, l: nat)
    requires Inv(u) && a !in u.jobs && id in u.streams
    requires var w := Run(Step(u, Begin(a, ids)), es);
             && b !in w.jobs && id in w.streams
             && var v := Run(Step(w, Begin(b, others)), more);
                && k < |v.windows| && v.windows[k].job == a && v.windows[k].id == id
                && l < |v.windows| && v.windows[l].job == b && v.windows[l].id == id
    ensures var w := Run(Step(u, Begin(a, ids)), es);
            var v := Run(Step(w, Begin(b, others)), more);
            var x, y := v.windows[k], v.windows[l];
            && x.from == u.streams[id].offset <= w.streams[id].offset == y.from
            && (forall r :: Takes(x, id, r) && Takes(y, id, r) <==> w.streams[id].offset < r <= Min(x.upTo, y.upTo))
            && (w.streams[id].offset == u.streams[id].offset ==> forall r :: r <= Min(x.upTo, y.upTo) ==> (Takes(x, id, r) <==> Takes(y, id, r)))
  {
    hide Inv, Run, Step, Claims;
    var u1 := Step(u, Begin(a, ids));
    StepKeeps(u, Begin(a, ids));
    RunKeeps(u1, es);
    var w := Run(u1, es);
    BeginClaims(u, a, ids, id);
    RunClaims(u1, es, a, id, u.streams[id].offset);
    StepClaims(w, Begin(b, others), a, id, u.streams[id].offset);
    BeginClaims(w, b, others, id);
    var w1 := Step(w, Begin(b, others));
    RunClaims(w1, more, a, id, u.streams[id].offset);
    RunClaims(w1, more, b, id, w.streams[id].offset);
    var v := Run(w1, more);
    ClaimedFrom(v, a, id, u.streams[id].offset, k);
    ClaimedFrom(v, b, id, w.streams[id].offset, l);
    BeginSame(u, a, ids, id);
    OffsetsNeverGoDown(u1, es, id);
  }

  lemma ClaimedFrom(w: World, j: nat, id: nat, f: int, k: nat)
    requires Claims(w, j, id, f) && k < |w.windows| && w.windows[k].job == j && w.windows[k].id == id
    ensures w.windows[k].from == f
  {
  }

  lemma BeginSame(w: World, j: nat, ids: seq<nat>, id: nat)
    requires id in w.streams
    ensures var v := Step(w, Begin(j, ids)); id in v.streams && v.streams[id] == w.streams[id]
  {
  }

  // ------------------------------------------------------------- one table, one row, one stream

  /** One table with row 0, and one stream that has consumed nothing. */
  function Small(): World {
    World(map["T" := Table({0}, 1)], map[7 := Stream("T", -1)], map[7 := -1], map[], [])
  }

  lemma SmallStarts()
    ensures Inv(Small()) && Turns(Small())
  {
  }

  lemma HighWaterOfSmall()
    ensures HighWater(Table({0}, 1)) == 0
  {
    assert MaxRow({0}, 1) == 0;
  }

  const MINE := Seen(7, "T", -1)
  const ALL := Consumption(7, -1, 0)

  function With(jobs: map<nat, Job>, windows: seq<Window>): World { Small().(jobs := jobs, windows := windows) }

  lemma BeginSmall(jobs: map<nat, Job>, windows: seq<Window>, j: nat)
    requires j !in jobs
    ensures Step(With(jobs, windows), Begin(j, [7])) == With(jobs[j := Freezing([MINE], [])], windows)
  {
    assert [7][1..] == [];
    assert Look(Small().streams, [7]) == [MINE] + Look(Small().streams, []) == [MINE];
  }

  lemma FreezeSmall(jobs: map<nat, Job>, windows: seq<Window>, j: nat)
    requires j in jobs && jobs[j] == Freezing([MINE], [])
    ensures Step(With(jobs, windows), FreezeNext(j)) == With(jobs[j := Freezing([], [(MINE, ALL)])], windows)
  {
    HighWaterOfSmall();
    hide MaxRow;
    assert [MINE][1..] == [];
    assert Freeze(MINE, Small().tables) == ALL;
    var none: seq<(Seen, Consumption)> := [];
    assert none + [(MINE, ALL)] == [(MINE, ALL)];
  }

  /** What the statement reads: row 0. */
  function Mine(j: nat): Window { Read(j, MINE, ALL, Small().tables) }

  lemma ExecuteSmall(jobs: map<nat, Job>, windows: seq<Window>, j: nat)
    requires j in jobs && jobs[j] == Freezing([], [(MINE, ALL)])
    ensures Step(With(jobs, windows), Execute(j, true)) == With(jobs[j := Advancing([ALL])], windows + [Mine(j)])
    ensures Takes(Mine(j), 7, 0)
  {
    hide Read;
    var frozen := [(MINE, ALL)];
    assert frozen[1..] == [];
    assert Consumptions(frozen) == [ALL] + Consumptions(frozen[1..]) == [ALL];
    assert AllPresent(frozen, Small().tables);
    hide Consumptions;
    LogOne(windows, j, frozen, Small().tables);
    assert Takes(Mine(j), 7, 0) by { MineTakes(j); }
  }

  lemma MineTakes(j: nat)
    ensures Takes(Mine(j), 7, 0)
  {
  }

  lemma LogOne(ws: seq<Window>, j: nat, frozen: seq<(Seen, Consumption)>, tables: map<string, Table>)
    requires AllPresent(frozen, tables) && |frozen| == 1
    ensures Logged(ws, j, frozen, tables) == ws + [Read(j, frozen[0].0, frozen[0].1, tables)]
  {
    assert frozen[1..] == [];
  }

  lemma FailSmall(jobs: map<nat, Job>, windows: seq<Window>, j: nat)
    requires j in jobs && jobs[j] == Advancing([ALL])
    ensures Step(With(jobs, windows), AdvanceNext(j, false)) == With(jobs[j := Broken], windows)
  {
  }

  /** The run from w is in turn and leads to v. */
  predicate LeadsTo(w: World, es: seq<Event>, v: World) { AllTakeTurns(w, es) && Run(w, es) == v }

  lemma LeadsOn(w: World, e: Event, es: seq<Event>, v: World)
    requires TakesTurn(w, e) && LeadsTo(Step(w, e), es, v)
    ensures LeadsTo(w, [e] + es, v)
  {
    assert ([e] + es)[1..] == es;
  }

  /** Statement j begins, freezes and runs while nobody has the stream under way. */
  lemma WholeTurn(jobs: map<nat, Job>, windows: seq<Window>, j: nat, es: seq<Event>, v: World)
    requires j !in jobs && (forall i :: i in jobs ==> jobs[i] == Broken)
    requires LeadsTo(With(jobs[j := Advancing([ALL])], windows + [Mine(j)]), es, v)
    ensures LeadsTo(With(jobs, windows), [Begin(j, [7])] + ([FreezeNext(j)] + ([Execute(j, true)] + es)), v)
  {
    var f, g := Freezing([MINE], []), Freezing([], [(MINE, ALL)]);
    var w0 := With(jobs, windows);
    var w1, w2 := With(jobs[j := f], windows), With(jobs[j := g], windows);
    BeginSmall(jobs, windows, j);
    FreezeSmall(jobs[j := f], windows, j);
    assert jobs[j := f][j := g] == jobs[j := g];
    ExecuteSmall(jobs[j := g], windows, j);
    assert jobs[j := g][j := Advancing([ALL])] == jobs[j := Advancing([ALL])];
    assert TakesTurn(w0, Begin(j, [7])) by { NobodyHas(w0); }
    hide Step, With, Mine, LeadsTo;
    LeadsOn(w2, Execute(j, true), es, v);
    LeadsOn(w1, FreezeNext(j), [Execute(j, true)] + es, v);
    LeadsOn(w0, Begin(j, [7]), [FreezeNext(j)] + ([Execute(j, true)] + es), v);
  }

  lemma NobodyHas(w: World)
    requires forall i :: i in w.jobs ==> w.jobs[i] == Broken
    ensures Free(w, 7)
  {
  }

  const RETRY := [Begin(0, [7]), FreezeNext(0), Execute(0, true), AdvanceNext(0, false), Begin(1, [7]), FreezeNext(1), Execute(1, true)]

  /** Consumers that take turns: the first reads row 0 but fails to store its offset, and the
      second reads row 0 again. */
  lemma FailedStoreReadsTwice()
    ensures Inv(Small()) && Turns(Small()) && AllTakeTurns(Small(), RETRY)
    ensures Run(Small(), RETRY).windows == [Mine(0), Mine(1)] && Takes(Mine(0), 7, 0) && Takes(Mine(1), 7, 0)
  {
    SmallStarts();
    MineTakes(0);
    MineTakes(1);
    var v := With(map[0 := Broken, 1 := Advancing([ALL])], [Mine(0), Mine(1)]);
    assert LeadsTo(v, [], v);
    SecondTurn(v);
    FirstTurn(v);
    SameRetry();
    assert With(map[], []) == Small();
    hide Step, Mine, With;
  }

  lemma SecondTurn(v: World)
    requires v == With(map[0 := Broken, 1 := Advancing([ALL])], [Mine(0), Mine(1)]) && LeadsTo(v, [], v)
    ensures LeadsTo(With(map[0 := Broken], [Mine(0)]), [Begin(1, [7])] + ([FreezeNext(1)] + ([Execute(1, true)] + [])), v)
  {
    hide Mine, LeadsTo;
    assert map[0 := Broken][1 := Advancing([ALL])] == map[0 := Broken, 1 := Advancing([ALL])];
    assert [Mine(0)] + [Mine(1)] == [Mine(0), Mine(1)];
    WholeTurn(map[0 := Broken], [Mine(0)], 1, [], v);
  }

  lemma FirstTurn(v: World)
    requires LeadsTo(With(map[0 := Broken], [Mine(0)]), [Begin(1, [7])] + ([FreezeNext(1)] + ([Execute(1, true)] + [])), v)
    ensures LeadsTo(With(map[], []), [Begin(0, [7])] + ([FreezeNext(0)] + ([Execute(0, true)] + ([AdvanceNext(0, false)]
              + ([Begin(1, [7])] + ([FreezeNext(1)] + ([Execute(1, true)] + [])))))), v)
  {
    hide Mine, LeadsTo;
    var later := [Begin(1, [7])] + ([FreezeNext(1)] + ([Execute(1, true)] + []));
    var t := With(map[0 := Advancing([ALL])], [Mine(0)]);
    FailSmall(map[0 := Advancing([ALL])], [Mine(0)], 0);
    assert map[0 := Advancing([ALL])][0 := Broken] == map[0 := Broken];
    LeadsOn(t, AdvanceNext(0, false), later, v);
    assert map[][0 := Advancing([ALL])] == map[0 := Advancing([ALL])];
    assert [] + [Mine(0)] == [Mine(0)];
    WholeTurn(map[], [], 0, [AdvanceNext(0, false)] + later, v);
  }

  lemma SameRetry()
    ensures RETRY == [Begin(0, [7])] + ([FreezeNext(0)] + ([Execute(0, true)] + ([AdvanceNext(0, false)]
                       + ([Begin(1, [7])] + ([FreezeNext(1)] + ([Execute(1, true)] + []))))))
  {
  }

  lemma RunSix(w: World, a: Event, b: Event, c: Event, d: Event, e: Event, f: Event)
    ensures Run(w, [a, b, c, d, e, f]) == Step(Step(Step(Step(Step(Step(w, a), b), c), d), e), f)
  {
    hide Step;
    assert [a, b, c, d, e, f] == [a] + ([b] + ([c] + ([d] + ([e] + ([f] + [])))));
    RunCons(w, a, [b] + ([c] + ([d] + ([e] + ([f] + [])))));
    RunCons(Step(w, a), b, [c] + ([d] + ([e] + ([f] + []))));
    RunCons(Step(Step(w, a), b), c, [d] + ([e] + ([f] + [])));
    RunCons(Step(Step(Step(w, a), b), c), d, [e] + ([f] + []));
    RunCons(Step(Step(Step(Step(w, a), b), c), d), e, [f] + []);
    RunCons(Step(Step(Step(Step(Step(w, a), b), c), d), e), f, []);
  }

  lemma RunCons(w: World, e: Event, es: seq<Event>)
    ensures Run(w, [e] + es) == Run(Step(w, e), es)
  {
    assert ([e] + es)[1..] == es;
  }

  /** Two statements that begin before either has stored its offset both consume row 0. */
  lemma ConcurrentConsumersReadTwice()
    ensures Run(Small(), [Begin(0, [7]), Begin(1, [7]), FreezeNext(0), FreezeNext(1), Execute(0, true), Execute(1, true)]).windows
         == [Mine(0), Mine(1)]
    ensures Takes(Mine(0), 7, 0) && Takes(Mine(1), 7, 0)
  {
    var f, g, t := Freezing([MINE], []), Freezing([], [(MINE, ALL)]), Advancing([ALL]);
    MineTakes(0);
    MineTakes(1);
    assert With(map[], []) == Small();
    hide Step, With, Mine;
    RunSix(Small(), Begin(0, [7]), Begin(1, [7]), FreezeNext(0), FreezeNext(1), Execute(0, true), Execute(1, true));
    BeginSmall(map[], [], 0);
    BeginSmall(map[0 := f], [], 1);
    FreezeSmall(map[0 := f, 1 := f], [], 0);
    FreezeSmall(map[0 := g, 1 := f], [], 1);
    ExecuteSmall(map[0 := g, 1 := g], [], 0);
    assert [] + [Mine(0)] == [Mine(0)];
    ExecuteSmall(map[0 := t, 1 := g], [Mine(0)], 1);
    SameMaps(f, g, t);
    BothWindows([Mine(0)], Mine(1), map[0 := t, 1 := t]);
  }

  lemma SameMaps(f: Job, g: Job, t: Job)
    ensures map[][0 := f] == map[0 := f] && map[0 := f][1 := f] == map[0 := f, 1 := f]
    ensures map[0 := f, 1 := f][0 := g] == map[0 := g, 1 := f] && map[0 := g, 1 := f][1 := g] == map[0 := g, 1 := g]
    ensures map[0 := g, 1 := g][0 := t] == map[0 := t, 1 := g] && map[0 := t, 1 := g][1 := t] == map[0 := t, 1 := t]
  {
  }

  lemma BothWindows(a: seq<Window>, x: Window, jobs: map<nat, Job>)
    ensures With(jobs, a + [x]).windows == a + [x]
  {
  }
}
