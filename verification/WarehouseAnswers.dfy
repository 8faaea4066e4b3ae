/** What the manager answers, told by the tickets and the settings: who is let in, refused or
    resumed, and what every operation leaves behind. */
module WarehouseAnswers {
  import opened Text
  import opened Warehouses
  import opened WarehouseSafety

  /** Somebody waits for the warehouse. */
  ghost predicate AnyWaits(w: World, n: string) {
    exists t :: t in w.tickets && w.tickets[t].warehouse == n && w.tickets[t].phase == Waiting
  }

  /** Nobody runs on the warehouse, is let in or waits. */
  ghost predicate Unused(w: World, n: string) { Holders(w.tickets, n) == {} && !AnyWaits(w, n) }

  predicate Answered(r: Reply) { r.Granted? || r.Queued? }

  /** A statement is let in by an active warehouse, and by a suspended one that may resume. */
  predicate Admits(it: Item) { it.state == Active || (it.state == Suspended && it.autoResume) }

  // ------------------------------------------------------------- counters are tickets

  lemma QueueIsTickets(w: World, n: string)
    requires Inv(w) && n in w.warehouses
    ensures w.warehouses[n].queue == [] <==> !AnyWaits(w, n)
    ensures w.warehouses[n].running == |Holders(w.tickets, n)| && w.warehouses[n].queued == |w.warehouses[n].queue|
    ensures w.warehouses[n].running == 0 <==> Holders(w.tickets, n) == {}
  {
    assert Sound(w, n);
    var q := w.warehouses[n].queue;
    if q != [] { assert q[0] in w.tickets; }
    if AnyWaits(w, n) {
      var t :| t in w.tickets && w.tickets[t].warehouse == n && w.tickets[t].phase == Waiting;
      assert Placed(w, t);
    }
  }

  lemma NextIsNew(w: World)
    requires Inv(w)
    ensures w.next !in w.tickets
  {
    assert forall t :: t in w.tickets ==> Placed(w, t);
  }

  // ------------------------------------------------------------- asking for a warehouse

  /** Exactly the active warehouses and the suspended ones that may resume let a statement in;
      they are active afterwards. A refusal says why and changes nothing. */
  lemma AcquireAnswers(w: World, name: string, now: int)
    requires Inv(w)
    ensures var n, v, a := Name(name), Step(w, Acquire(name, now, true)), AcquireStep(w, name, now, true).1;
            && (Answered(a) <==> n in w.warehouses && Admits(w.warehouses[n]))
            && (Answered(a) ==> n in v.warehouses && v.warehouses[n].state == Active)
            && (a.Failed? ==> v == w)
            && (a == Failed(NotFound) <==> n !in w.warehouses)
            && (a == Failed(ResumeDisabled) <==> n in w.warehouses && w.warehouses[n].state == Suspended && !w.warehouses[n].autoResume)
            && (a == Failed(NotAccepting) <==> n in w.warehouses && w.warehouses[n].state == Suspending)
  {
    if Name(name) in w.warehouses { assert Settled(w.warehouses[Name(name)]); }
    hide Inv, Name, Capacity;
  }

  /** A statement that is let in runs at once exactly when nobody waits and fewer than the capacity
      run, and waits otherwise, under a new ticket; one that resumes the warehouse always runs. */
  lemma AcquireRunsOrWaits(w: World, name: string, now: int)
    requires Inv(w) && Answered(AcquireStep(w, name, now, true).1)
    ensures var n, v, a := Name(name), Step(w, Acquire(name, now, true)), AcquireStep(w, name, now, true).1;
            && n in w.warehouses && a.ticket !in w.tickets
            && (a.Granted? <==> !AnyWaits(w, n) && |Holders(w.tickets, n)| < Capacity(w.warehouses[n].size))
            && (w.warehouses[n].state == Suspended ==> a.Granted?)
            && v.tickets == w.tickets[a.ticket := if a.Granted? then Ticket(n, w.warehouses[n].size, Leased) else Ticket(n, "", Waiting)]
  {
    var n := Name(name);
    NextIsNew(w);
    assert n in w.warehouses by { hide Inv; }
    QueueIsTickets(w, n);
    assert Settled(w.warehouses[n]);
    hide Inv, Name, Capacity, Holders, AnyWaits;
    var v := if w.warehouses[n].state == Suspended then Put(w, n, Resumed(w.warehouses[n], now)) else w;
    assert AcquireStep(w, name, now, true) == Enter(v, n);
  }

  // ------------------------------------------------------------- the other operations

  /** A new warehouse is suspended, empty and set as asked; a taken name is refused. */
  lemma CreateAnswers(w: World, name: string, s: Settings, saved: bool)
    requires Inv(w)
    ensures var n, size, r := Name(name), SizeName(s.size), CreateStep(w, name, s, saved);
            && (r.1 == Fine <==> n != "" && n !in w.warehouses && size in SIZES && s.autoSuspend >= 0 && saved)
            && (r.1 != Fine ==> r.0 == w)
            && (r.1 == Fine ==> r.0.warehouses.Keys == w.warehouses.Keys + {n} && r.0.tickets == w.tickets
                                && forall m :: m in w.warehouses ==> r.0.warehouses[m] == w.warehouses[m])
            && (r.1 == Fine ==> var it := r.0.warehouses[n];
                  it.state == Suspended && it.autoResume == s.autoResume && it.autoSuspend == s.autoSuspend
                  && it.size == (if Trim(s.size) == "" then "X-SMALL" else Upper(Trim(s.size))) && Unused(r.0, n))
  {
    var n, size, r := Name(name), SizeName(s.size), CreateStep(w, name, s, saved);
    SizesListed(size, 0);
    BlankUpper(Trim(s.size));
    if r.1 == Fine {
      assert Inv(r.0) by { StepKeeps(w, Create(name, s, saved)); }
      QueueIsTickets(r.0, n);
    }
    hide Inv, Name, Unused, Upper, Trim;
  }

  lemma BlankUpper(x: string)
    ensures Upper(x) == "" <==> x == ""
  {
    assert |Upper(x)| == |x|;
  }

  lemma {:induction false} SizesListed(size: string, i: nat)
    requires i <= |SIZES|
    ensures SizeAt(size, i) < |SIZES| <==> size in SIZES[i..]
    decreases |SIZES| - i
  {
    if i < |SIZES| {
      FirstOrRest(SIZES, i, size);
      SizesListed(size, i + 1);
    }
  }

  lemma FirstOrRest(xs: seq<string>, i: nat, x: string)
    requires i < |xs|
    ensures x in xs[i..] <==> x == xs[i] || x in xs[i + 1..]
  {
    assert xs[i..] == [xs[i]] + xs[i + 1..];
  }

  /** A dropped warehouse is gone, alone; one in use stays. */
  lemma DropAnswers(w: World, name: string, saved: bool)
    requires Inv(w)
    ensures var n, r := Name(name), DropStep(w, name, saved);
            && (r.1 == Failed(NotFound) <==> n !in w.warehouses)
            && (r.1 == Failed(InUse) <==> n in w.warehouses && !Unused(w, n))
            && (r.1 == Fine <==> n in w.warehouses && Unused(w, n) && saved)
            && (r.1 != Fine ==> r.0 == w)
            && (r.1 == Fine ==> r.0.tickets == w.tickets && r.0.warehouses.Keys == w.warehouses.Keys - {n}
                                && forall m :: m in w.warehouses && m != n ==> r.0.warehouses[m] == w.warehouses[m])
  {
    var n := Name(name);
    if n in w.warehouses { QueueIsTickets(w, n); }
    hide Inv, Name, Holders, AnyWaits;
  }

  /** Only the state and the time of the last activity of this warehouse may differ. */
  predicate OnlyState(w: World, v: World, n: string)
    requires n in w.warehouses
  {
    && v.tickets == w.tickets && v.warehouses.Keys == w.warehouses.Keys
    && (forall m :: m in w.warehouses && m != n ==> v.warehouses[m] == w.warehouses[m])
    && v.warehouses[n] == w.warehouses[n].(state := v.warehouses[n].state, lastActivity := v.warehouses[n].lastActivity)
  }

  /** A warehouse that is suspended or active is active afterwards; while statements still run on
      a suspended one, it cannot be resumed. */
  lemma ResumeAnswers(w: World, name: string, now: int, saved: bool)
    requires Inv(w)
    ensures var n, r := Name(name), ResumeStep(w, name, now, saved);
            && (r.1 == Failed(NotFound) <==> n !in w.warehouses)
            && (r.1 == Failed(CannotResume) <==> n in w.warehouses && w.warehouses[n].state == Suspending)
            && (r.1 == Fine ==> n in w.warehouses && r.0.warehouses[n].state == Active)
            && (n in w.warehouses ==> OnlyState(w, r.0, n))
            && (n in w.warehouses && w.warehouses[n].state == Active ==> r == (w, Fine))
            && (n in w.warehouses && w.warehouses[n].state == Suspended ==>
                  r.1 == Saved(saved) && r.0.warehouses[n].state == Active && r.0.warehouses[n].lastActivity == Some(now))
  {
    if Name(name) in w.warehouses { assert Settled(w.warehouses[Name(name)]); }
    hide Inv, Name;
  }

  /** A suspended warehouse takes nobody in any more: who waited is thrown out, who runs may
      finish, and until then it is on its way. */
  lemma SuspendAnswers(w: World, name: string, saved: bool)
    requires Inv(w) && Name(name) in w.warehouses
    ensures var n, r := Name(name), SuspendStep(w, name, saved);
            && r.0.warehouses.Keys == w.warehouses.Keys
            && (forall m :: m in w.warehouses && m != n ==> r.0.warehouses[m] == w.warehouses[m])
            && r.0.warehouses[n].state == (if Holders(w.tickets, n) == {} then Suspended else Suspending)
            && (w.warehouses[n].state == Suspended ==> r == (w, Fine))
            && (w.warehouses[n].state != Suspended ==> r.1 == Saved(saved))
            && r.0.tickets.Keys == w.tickets.Keys
            && forall t :: t in w.tickets ==>
                 r.0.tickets[t] == if w.tickets[t].warehouse == n && w.tickets[t].phase == Waiting
                                   then Ticket(n, "", Rejected) else w.tickets[t]
  {
    var n, q := Name(name), w.warehouses[Name(name)].queue;
    QueueIsTickets(w, n);
    assert Settled(w.warehouses[n]);
    RejectionsIs(w.tickets, q, n);
    Waiters(w, n);
    hide Inv, Name, Holders, AnyWaits, Rejections;
  }

  /** The queue is exactly the tickets that wait for the warehouse. */
  lemma Waiters(w: World, n: string)
    requires Inv(w) && n in w.warehouses
    ensures forall t :: t in w.warehouses[n].queue <==> t in w.tickets && w.tickets[t].warehouse == n && w.tickets[t].phase == Waiting
  {
    assert Sound(w, n);
    assert forall t :: t in w.tickets ==> Placed(w, t);
  }

  /** The new settings hold, and nothing else of the warehouse but who was let in changes. */
  lemma AlterAnswers(w: World, name: string, s: Settings, saved: bool)
    requires Inv(w)
    ensures var n, size, r := Name(name), SizeName(s.size), AlterStep(w, name, s, saved);
            && (r.1 == Saved(saved) || r.0 == w)
            && (n in w.warehouses && size in SIZES && s.autoSuspend >= 0 ==>
                  r.1 == Saved(saved) && n in r.0.warehouses
                  && var o, i := w.warehouses[n], r.0.warehouses[n];
                     i.size == size && i.autoResume == s.autoResume && i.autoSuspend == s.autoSuspend
                     && i.state == o.state && i.lastActivity == o.lastActivity)
            && (n !in w.warehouses ==> r.1 == Failed(NotFound))
            && (n in w.warehouses && size !in SIZES ==> r.1 == Failed(BadSize))
            && (n in w.warehouses && size in SIZES && s.autoSuspend < 0 ==> r.1 == Failed(BadAutoSuspend))
  {
    var n, size := Name(name), SizeName(s.size);
    SizesListed(size, 0);
    if n in w.warehouses && ValidSize(size) && s.autoSuspend >= 0 {
      AdmitSets(Put(w, n, w.warehouses[n].(size := size, autoResume := s.autoResume, autoSuspend := s.autoSuspend)), n);
    }
    hide Inv, Name, SizeName, Admit;
  }

  /** What admitting leaves as it is. */
  predicate SameSettings(a: Item, b: Item) {
    a.state == b.state && a.size == b.size && a.autoResume == b.autoResume && a.autoSuspend == b.autoSuspend
    && a.lastActivity == b.lastActivity
  }

  lemma {:induction false} AdmitSets(w: World, n: string)
    requires n in w.warehouses
    ensures var v := Admit(w, n);
            v.warehouses.Keys == w.warehouses.Keys && forall m :: m in w.warehouses ==> SameSettings(v.warehouses[m], w.warehouses[m])
    decreases |w.warehouses[n].queue|
  {
    hide Capacity;
    if CanAdmit(w.warehouses[n]) { AdmitSets(AdmitOne(w, n), n); }
  }

  /** An idle warehouse is one that nobody uses and that has been without activity for as long as
      it is set to; exactly the idle ones that were looked at are suspended. */
  lemma AutoSuspendAnswers(w: World, names: set<string>, now: int, n: string)
    requires Inv(w) && n in w.warehouses
    ensures var o, v := w.warehouses[n], Step(w, AutoSuspend(names, now));
            var idle := o.state == Active && Unused(w, n) && o.autoSuspend > 0 && o.lastActivity.Some?
                        && o.lastActivity.value + o.autoSuspend <= now;
            n in v.warehouses && v.tickets == w.tickets
            && v.warehouses[n] == (if n in names && idle then o.(state := Suspended) else o)
  {
    QueueIsTickets(w, n);
    hide Inv, Holders, AnyWaits;
  }

  // ------------------------------------------------------------- the end of a statement

  /** Ending a statement that holds a slot notes the time; the last one to end on a warehouse on
      its way to be suspended suspends it. */
  lemma EndAnswers(w: World, t: nat, now: int, e: Event)
    requires Inv(w) && t in w.tickets && Holding(w.tickets[t].phase) && w.tickets[t].warehouse in w.warehouses
    requires e == if w.tickets[t].phase == Leased then Release(t, now) else Cancel(t, now)
    ensures var n, v := w.tickets[t].warehouse, Step(w, e);
            && v.warehouses.Keys == w.warehouses.Keys && v.warehouses[n].lastActivity == Some(now)
            && v.warehouses[n].state == (if w.warehouses[n].state == Suspending && Holders(w.tickets, n) == {t} then Suspended
                                         else w.warehouses[n].state)
            && t in v.tickets && v.tickets[t].phase == Ended
  {
    var n := w.tickets[t].warehouse;
    EndIsFreed(w, t, now, e);
    SlotsLeft(w, t);
    AdmitEnds(w, t, now);
    hide Inv, Freed, Holders, AnyWaits, Step;
    FreedState(SetPhase(w, t, Ended), n, now);
  }

  lemma EndIsFreed(w: World, t: nat, now: int, e: Event)
    requires Inv(w) && t in w.tickets && Holding(w.tickets[t].phase) && w.tickets[t].warehouse in w.warehouses
    requires e == if w.tickets[t].phase == Leased then Release(t, now) else Cancel(t, now)
    ensures Step(w, e) == Freed(SetPhase(w, t, Ended), w.tickets[t].warehouse, now)
  {
    NotQueued(w, t);
    SlotsLeft(w, t);
    hide Inv, Freed, Holders, AnyWaits, IndexOf;
  }

  lemma SlotsLeft(w: World, t: nat)
    requires Inv(w) && t in w.tickets && Holding(w.tickets[t].phase) && w.tickets[t].warehouse in w.warehouses
    ensures var n := w.tickets[t].warehouse;
            w.warehouses[n].running >= 1 && (w.warehouses[n].running == 1 <==> Holders(w.tickets, n) == {t})
  {
    var n := w.tickets[t].warehouse;
    QueueIsTickets(w, n);
    assert t in Holders(w.tickets, n);
    OneHolder(Holders(w.tickets, n), t);
  }

  lemma FreedState(w: World, n: string, now: int)
    requires n in w.warehouses
    ensures var o, v := w.warehouses[n], Freed(w, n, now);
            && v.warehouses.Keys == w.warehouses.Keys && v.warehouses[n].lastActivity == Some(now)
            && v.warehouses[n].state == if o.state == Suspending && o.running == 1 then Suspended else o.state
  {
    var it := w.warehouses[n].(running := w.warehouses[n].running - 1, lastActivity := Some(now));
    AdmitSets(Put(w, n, it), n);
    hide Admit;
  }

  /** Nobody is let in under a ticket that ended. */
  lemma AdmitEnds(w: World, t: nat, now: int)
    requires Inv(w) && t in w.tickets && Holding(w.tickets[t].phase) && w.tickets[t].warehouse in w.warehouses
    ensures var v := Freed(SetPhase(w, t, Ended), w.tickets[t].warehouse, now); t in v.tickets && v.tickets[t].phase == Ended
  {
    var n := w.tickets[t].warehouse;
    assert Sound(w, n);
    assert t !in w.warehouses[n].queue;
    var it := w.warehouses[n].(running := w.warehouses[n].running - 1, lastActivity := Some(now));
    hide Inv;
    AdmitLeaves(Put(SetPhase(w, t, Ended), n, it), n, t);
  }

  lemma {:induction false} AdmitLeaves(w: World, n: string, t: nat)
    requires n in w.warehouses && t in w.tickets && t !in w.warehouses[n].queue
    ensures t in Admit(w, n).tickets && Admit(w, n).tickets[t] == w.tickets[t]
    decreases |w.warehouses[n].queue|
  {
    hide Capacity;
    if CanAdmit(w.warehouses[n]) { AdmitLeaves(AdmitOne(w, n), n, t); }
  }

  lemma OneHolder(s: set<nat>, t: nat)
    requires t in s
    ensures |s| == 1 <==> s == {t}
  {
    assert |s - {t}| == |s| - 1;
    if |s| == 1 { assert s - {t} == {}; assert s == {t}; }
  }

  /** A waiter collects what happened to it, once. */
  lemma CollectAnswers(w: World, t: nat)
    requires t in w.tickets
    ensures var r, p := CollectStep(w, t), w.tickets[t].phase;
            && r.0 == w.(tickets := r.0.tickets) && r.0.tickets.Keys == w.tickets.Keys
            && (forall u :: u in w.tickets && u != t ==> r.0.tickets[u] == w.tickets[u])
            && (r.1 == Granted(t) <==> p == Admitted) && (r.1 == Failed(WasSuspended) <==> p == Rejected)
            && r.0.tickets[t].phase == (if p == Admitted then Leased else if p == Rejected then Ended else p)
            && CollectStep(r.0, t) == (r.0, Fine)
  {
  }

  // ------------------------------------------------------------- over runs

  /** The event names the warehouse. */
  predicate Names(e: Event, n: string) {
    match e
    case Create(name, _, _) => Name(name) == n
    case Resume(name, _, _) => Name(name) == n
    case Suspend(name, _) => Name(name) == n
    case Alter(name, _, _) => Name(name) == n
    case Drop(name, _) => Name(name) == n
    case Acquire(name, _, _) => Name(name) == n
    case AutoSuspend(names, _) => n in names
    case _ => false
  }

  /** Nobody suspends or drops the warehouse. */
  predicate LeavesAwake(e: Event, n: string) { Names(e, n) ==> !e.Suspend? && !e.Drop? && !e.AutoSuspend? }

  /** Nobody resumes, drops or alters the warehouse. */
  predicate LeavesAsleep(e: Event, n: string) { Names(e, n) ==> !e.Resume? && !e.Drop? && !e.Alter? }

  predicate Awake(w: World, n: string) { n in w.warehouses && w.warehouses[n].state == Active }

  predicate Asleep(w: World, n: string) {
    n in w.warehouses && !w.warehouses[n].autoResume && (w.warehouses[n].state == Suspended || w.warehouses[n].state == Suspending)
  }

  lemma FreedSets(w: World, n: string, now: int, m: string)
    requires n in w.warehouses && m in w.warehouses
    ensures var v := Freed(w, n, now);
            && m in v.warehouses && v.warehouses[m].autoResume == w.warehouses[m].autoResume
            && (v.warehouses[m].state == w.warehouses[m].state
                || (w.warehouses[m].state == Suspending && v.warehouses[m].state == Suspended))
  {
    var it := w.warehouses[n].(running := w.warehouses[n].running - 1, lastActivity := Some(now));
    AdmitSets(Put(w, n, it), n);
    hide Admit;
  }

  /** Events of single statements neither wake a warehouse up nor put an active one to sleep. */
  lemma StatementsLeave(w: World, e: Event, n: string)
    requires n in w.warehouses && (e.Collect? || e.Cancel? || e.Release?)
    ensures (Awake(w, n) ==> Awake(Step(w, e), n)) && (Asleep(w, n) ==> Asleep(Step(w, e), n))
  {
    hide Freed, IndexOf;
    var t := e.ticket;
    if t in w.tickets && w.tickets[t].warehouse in w.warehouses {
      FreedSets(SetPhase(w, t, Ended), w.tickets[t].warehouse, if e.Collect? then 0 else e.now, n);
    }
  }

  lemma StepAwake(w: World, e: Event, n: string)
    requires Awake(w, n) && LeavesAwake(e, n)
    ensures Awake(Step(w, e), n)
  {
    hide Name, SizeName, ValidSize, Capacity, Admit, Rejections;
    match e
    case Alter(name, s, saved) => AlterSets(w, name, s, saved, n);
    case Collect(_) => StatementsLeave(w, e, n);
    case Cancel(_, _) => StatementsLeave(w, e, n);
    case Release(_, _) => StatementsLeave(w, e, n);
    case _ =>
  }

  lemma AlterSets(w: World, name: string, s: Settings, saved: bool, n: string)
    requires n in w.warehouses
    ensures var v := AlterStep(w, name, s, saved).0;
            && n in v.warehouses && v.warehouses[n].state == w.warehouses[n].state
            && (Name(name) != n ==> v.warehouses[n].autoResume == w.warehouses[n].autoResume)
  {
    var m, size := Name(name), SizeName(s.size);
    if m in w.warehouses {
      AdmitSets(Put(w, m, w.warehouses[m].(size := size, autoResume := s.autoResume, autoSuspend := s.autoSuspend)), m);
    }
    hide Name, SizeName, ValidSize, Admit;
  }

  lemma StepAsleep(w: World, e: Event, n: string)
    requires Asleep(w, n) && LeavesAsleep(e, n)
    ensures Asleep(Step(w, e), n)
  {
    hide Name, SizeName, ValidSize, Capacity, Admit, Rejections;
    match e
    case Alter(name, s, saved) => AlterSets(w, name, s, saved, n);
    case Collect(_) => StatementsLeave(w, e, n);
    case Cancel(_, _) => StatementsLeave(w, e, n);
    case Release(_, _) => StatementsLeave(w, e, n);
    case _ =>
  }

  lemma {:induction false} RunAwake(w: World, es: seq<Event>, n: string)
    requires Awake(w, n) && forall i :: 0 <= i < |es| ==> LeavesAwake(es[i], n)
    ensures Awake(Run(w, es), n)
    decreases |es|
  {
    hide Awake, LeavesAwake, Step;
    if es != [] {
      StepAwake(w, es[0], n);
      RunAwake(Step(w, es[0]), es[1..], n);
    }
  }

  lemma {:induction false} RunAsleep(w: World, es: seq<Event>, n: string)
    requires Asleep(w, n) && forall i :: 0 <= i < |es| ==> LeavesAsleep(es[i], n)
    ensures Asleep(Run(w, es), n)
    decreases |es|
  {
    hide Asleep, LeavesAsleep, Step;
    if es != [] {
      StepAsleep(w, es[0], n);
      RunAsleep(Step(w, es[0]), es[1..], n);
    }
  }

  /** Once a statement was let in, so is every later one, over every run in which nobody suspends
      or drops the warehouse. */
  lemma OnceInAlwaysIn(w: World, name: string, now: int, saved: bool, es: seq<Event>, other: string, later: int, kept: bool)
    requires Answered(AcquireStep(w, name, now, saved).1) && Upper(Trim(other)) == Upper(Trim(name))
    requires forall i :: 0 <= i < |es| ==> LeavesAwake(es[i], Name(name))
    ensures Answered(AcquireStep(Run(Step(w, Acquire(name, now, saved)), es), other, later, kept).1)
  {
    InMeansAwake(w, name, now, saved);
    hide Step, Run, Name, LeavesAwake, Awake, AcquireStep;
    RunAwake(Step(w, Acquire(name, now, saved)), es, Name(name));
    AwakeMeansIn(Run(Step(w, Acquire(name, now, saved)), es), other, later, kept);
  }

  lemma InMeansAwake(w: World, name: string, now: int, saved: bool)
    requires Answered(AcquireStep(w, name, now, saved).1)
    ensures Awake(Step(w, Acquire(name, now, saved)), Name(name))
  {
    hide Name, Capacity;
  }

  lemma AwakeMeansIn(w: World, name: string, now: int, saved: bool)
    requires Awake(w, Name(name))
    ensures Answered(AcquireStep(w, name, now, saved).1)
  {
    hide Name, Capacity;
  }

  /** Once a warehouse without AUTO_RESUME was suspended, nobody is let in, over every run in which
      nobody resumes, alters or drops it. */
  lemma SuspendedRefuses(w: World, name: string, saved: bool, es: seq<Event>, other: string, later: int, kept: bool)
    requires Name(name) in w.warehouses && !w.warehouses[Name(name)].autoResume && Upper(Trim(other)) == Upper(Trim(name))
    requires forall i :: 0 <= i < |es| ==> LeavesAsleep(es[i], Name(name))
    ensures AcquireStep(Run(Step(w, Suspend(name, saved)), es), other, later, kept).1.Failed?
  {
    SuspendSleeps(w, name, saved);
    hide Step, Run, Name, LeavesAsleep, Asleep, AcquireStep;
    RunAsleep(Step(w, Suspend(name, saved)), es, Name(name));
    AsleepRefuses(Run(Step(w, Suspend(name, saved)), es), other, later, kept);
  }

  lemma SuspendSleeps(w: World, name: string, saved: bool)
    requires Name(name) in w.warehouses && !w.warehouses[Name(name)].autoResume
    ensures Asleep(Step(w, Suspend(name, saved)), Name(name))
  {
    hide Name, Rejections;
  }

  lemma AsleepRefuses(w: World, name: string, now: int, saved: bool)
    requires Asleep(w, Name(name))
    ensures AcquireStep(w, name, now, saved).1.Failed?
  {
    hide Name, Capacity;
  }

  /** The first statement of a new warehouse: with AUTO_RESUME it runs at once, without it it is
      refused, until the warehouse is resumed. */
  lemma FirstStatement(w: World, name: string, s: Settings, now: int, later: int)
    requires Inv(w) && CreateStep(w, name, s, true).1 == Fine
    ensures var v := Step(w, Create(name, s, true));
            && AcquireStep(v, name, now, true).1 == (if s.autoResume then Granted(w.next) else Failed(ResumeDisabled))
            && AcquireStep(Step(v, Resume(name, now, true)), name, later, true).1 == Granted(w.next)
  {
    hide Name, SizeName, Capacity;
  }

  /** A resume that cannot be saved refuses the statement and still leaves the warehouse active, so
      that the next statement is let in. */
  lemma UnsavedResumeCounts(w: World, name: string, now: int, later: int, kept: bool)
    requires Name(name) in w.warehouses && w.warehouses[Name(name)].state == Suspended && w.warehouses[Name(name)].autoResume
    ensures AcquireStep(w, name, now, false).1 == Failed(NotSaved)
    ensures Answered(AcquireStep(Step(w, Acquire(name, now, false)), name, later, kept).1)
  {
    hide Name, Capacity;
  }

  /** After a start every stored warehouse is there, suspended and as it was set. */
  lemma StartAnswers(records: map<string, Settings>, name: string, now: int)
    requires Name(name) in records
    ensures var s, a := records[Name(name)], AcquireStep(Start(records), name, now, true).1;
            && (a == Granted(0) <==> s.autoResume) && (a == Failed(ResumeDisabled) <==> !s.autoResume)
            && Start(records).warehouses[Name(name)].size == s.size && Start(records).warehouses[Name(name)].autoSuspend == s.autoSuspend
  {
    hide Name, Capacity;
  }

  // ------------------------------------------------------------- capacities

  /** The smallest size runs one statement at a time and every size runs twice as many as the one
      before it; an unknown size runs one. */
  lemma Capacities(k: nat)
    requires k < |SIZES|
    ensures Capacity(SIZES[k]) == if k == 0 then 1 else 2 * Capacity(SIZES[k - 1])
    ensures forall size :: size !in SIZES ==> Capacity(size) == 1
  {
    SizeHere(k);
    if k > 0 { SizeHere(k - 1); }
    forall size | size !in SIZES
      ensures Capacity(size) == 1
    {
      SizesListed(size, 0);
    }
    hide SizeAt;
  }

  lemma SizeHere(k: nat)
    requires k < |SIZES|
    ensures SizeAt(SIZES[k], 0) == k
  {
    SizeFrom(SIZES[k], 0, k);
  }

  lemma {:induction false} SizeFrom(size: string, i: nat, k: nat)
    requires i <= k < |SIZES| && SIZES[k] == size
    ensures SizeAt(size, i) == k
    decreases k - i
  {
    SizesDiffer();
    if i < k { SizeFrom(size, i + 1, k); }
  }

  lemma SizesDiffer()
    ensures forall i, j :: 0 <= i < j < |SIZES| ==> SIZES[i] != SIZES[j]
  {
    assert |SIZES[0]| == 7 && |SIZES[1]| == 5 && |SIZES[2]| == 6 && |SIZES[3]| == 5 && |SIZES[4]| == 7;
    assert forall i :: 5 <= i < 10 ==> |SIZES[i]| == 8;
    assert SIZES[1][0] == 'S' && SIZES[3][0] == 'L' && SIZES[0][2] == 'S' && SIZES[4][2] == 'L';
    assert SIZES[5][0] == '2' && SIZES[6][0] == '3' && SIZES[7][0] == '4' && SIZES[8][0] == '5' && SIZES[9][0] == '6';
  }
}
