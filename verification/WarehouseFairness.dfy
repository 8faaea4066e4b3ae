/** Who is admitted, and when: capacity, order of arrival, and the exact release that lets a
    waiter in. */
module WarehouseFairness {
  import opened Warehouses
  import opened WarehouseSafety

  // ------------------------------------------------------------- what one step touches

  lemma {:induction false} AdmitTouches(w: World, n: string)
    requires n in w.warehouses && AllWaiting(w.tickets, w.warehouses[n].queue, n)
    requires Increasing(w.warehouses[n].queue)
    ensures var v := Admit(w, n);
            && v.warehouses.Keys == w.warehouses.Keys
            && (forall m :: m in w.warehouses && m != n ==> v.warehouses[m] == w.warehouses[m])
            && (forall t :: t in w.tickets && w.tickets[t].warehouse != n ==> t in v.tickets && v.tickets[t] == w.tickets[t])
    ensures var o, i := w.warehouses[n], Admit(w, n).warehouses[n];
            && i.size == o.size && i.running >= o.running
            && (i.running > o.running ==> i.running <= Capacity(i.size))
    decreases |w.warehouses[n].queue|
  {
    hide Capacity;
    if CanAdmit(w.warehouses[n]) {
      AdmitOneWaits(w, n);
      AdmitTouches(AdmitOne(w, n), n);
    }
  }

  lemma FreedTouches(w: World, n: string, now: int)
    requires n in w.warehouses && AllWaiting(w.tickets, w.warehouses[n].queue, n)
    requires Increasing(w.warehouses[n].queue)
    ensures var v := Freed(w, n, now);
            && v.warehouses.Keys == w.warehouses.Keys
            && (forall m :: m in w.warehouses && m != n ==> v.warehouses[m] == w.warehouses[m])
            && (forall t :: t in w.tickets && w.tickets[t].warehouse != n ==> t in v.tickets && v.tickets[t] == w.tickets[t])
    ensures var o, i := w.warehouses[n], Freed(w, n, now).warehouses[n];
            i.running >= o.running ==> i.running <= Capacity(i.size)
  {
    hide Capacity, Admit;
    var it := w.warehouses[n].(running := w.warehouses[n].running - 1, lastActivity := Some(now));
    if !(it.state == Suspending && it.running == 0) { AdmitTouches(Put(w, n, it), n); }
  }

  /** After the ticket's phase is set, its old warehouse's queue still waits. */
  lemma EndedTouches(w: World, t: nat, now: int)
    requires Inv(w) && t in w.tickets && Holding(w.tickets[t].phase)
    ensures var n := w.tickets[t].warehouse; n in w.warehouses && w.warehouses[n].running > 0
    ensures var n, u := w.tickets[t].warehouse, SetPhase(w, t, Ended);
            AllWaiting(u.tickets, u.warehouses[n].queue, n) && Increasing(u.warehouses[n].queue)
  {
    FreedSettles(w, t, now);
    var n := w.tickets[t].warehouse;
    assert Sound(w, n);
    StillWaiting(w, t, SetPhase(w, t, Ended).tickets[t], n);
  }

  // ------------------------------------------------------------- capacity

  /** What one step does to a warehouse: if it raises the number of running statements, it
      leaves it within the capacity. */
  predicate RaisedWithin(w: World, v: World, n: string) {
    n in w.warehouses && n in v.warehouses && v.warehouses[n].running > w.warehouses[n].running ==>
      v.warehouses[n].running <= Capacity(v.warehouses[n].size)
  }

  /** A step that lets a statement run leaves the warehouse within its capacity; only a smaller
      size can leave more running than fit. */
  lemma StepRaisesWithin(w: World, e: Event, n: string)
    requires Inv(w)
    ensures RaisedWithin(w, Step(w, e), n)
    ensures n !in w.warehouses && n in Step(w, e).warehouses ==> Step(w, e).warehouses[n].running == 0
  {
    hide Inv, Capacity, Name, SizeName, ValidSize;
    match e
    case Release(t, now) => ReleaseRaises(w, t, now, n);
    case Cancel(t, now) => CancelRaises(w, t, now, n);
    case Alter(name, s, saved) => AlterRaises(w, name, s, saved, n);
    case _ =>
  }

  lemma ReleaseRaises(w: World, t: nat, now: int, n: string)
    requires Inv(w)
    ensures RaisedWithin(w, ReleaseStep(w, t, now).0, n) && ReleaseStep(w, t, now).0.warehouses.Keys == w.warehouses.Keys
  {
    hide Inv, Capacity, Freed;
    if t in w.tickets && w.tickets[t].phase == Leased {
      EndedTouches(w, t, now);
      FreedTouches(SetPhase(w, t, Ended), w.tickets[t].warehouse, now);
    }
  }

  lemma CancelRaises(w: World, t: nat, now: int, n: string)
    requires Inv(w)
    ensures RaisedWithin(w, CancelStep(w, t, now).0, n) && CancelStep(w, t, now).0.warehouses.Keys == w.warehouses.Keys
  {
    hide Inv, Capacity, Freed, IndexOf;
    if t in w.tickets && w.tickets[t].phase == Admitted {
      EndedTouches(w, t, now);
      FreedTouches(SetPhase(w, t, Ended), w.tickets[t].warehouse, now);
    }
  }

  lemma AlterRaises(w: World, name: string, s: Settings, saved: bool, n: string)
    requires Inv(w)
    ensures RaisedWithin(w, AlterStep(w, name, s, saved).0, n) && AlterStep(w, name, s, saved).0.warehouses.Keys == w.warehouses.Keys
  {
    hide Inv, Capacity, Admit, ValidSize, Name, SizeName, Sound;
    var m, size := Name(name), SizeName(s.size);
    if m in w.warehouses {
      var it := w.warehouses[m].(size := size, autoResume := s.autoResume, autoSuspend := s.autoSuspend);
      QueueWaits(w, m);
      AdmitTouches(Put(w, m, it), m);
    }
  }

  lemma QueueWaits(w: World, n: string)
    requires Inv(w) && n in w.warehouses
    ensures AllWaiting(w.tickets, w.warehouses[n].queue, n) && Increasing(w.warehouses[n].queue)
  {
    assert Sound(w, n);
  }

  // ------------------------------------------------------------- order of arrival

  /** Whoever was admitted to the warehouse came before those who wait for it. */
  lemma LoggedBefore(w: World, n: string, t: nat)
    requires Inv(w) && t in w.tickets && w.tickets[t].phase == Waiting && w.tickets[t].warehouse == n
    ensures forall i :: 0 <= i < |w.log| && w.log[i].warehouse == n ==> w.log[i].ticket < t
  {
    assert Placed(w, t) && Sound(w, n);
    var k :| 0 <= k < |w.warehouses[n].queue| && w.warehouses[n].queue[k] == t;
  }

  lemma HolderLogged(w: World, t: nat)
    requires Inv(w) && t in w.tickets && Holding(w.tickets[t].phase)
    ensures InOrder(w.log) && Admission(w.tickets[t].warehouse, t) in w.log
  {
    assert Placed(w, t);
  }

  lemma ServedInOrder(w: World, n: string, t1: nat, t2: nat)
    requires Inv(w) && t1 < t2 && t1 in w.tickets && w.tickets[t1].warehouse == n && Admission(n, t2) in w.log
    ensures w.tickets[t1].phase != Waiting
    ensures Holding(w.tickets[t1].phase) ==>
      exists i, j :: 0 <= i < j < |w.log| && w.log[i] == Admission(n, t1) && w.log[j] == Admission(n, t2)
  {
    hide Inv;
    var j :| 0 <= j < |w.log| && w.log[j] == Admission(n, t2);
    if w.tickets[t1].phase == Waiting { LoggedBefore(w, n, t1); }
    if Holding(w.tickets[t1].phase) {
      HolderLogged(w, t1);
      var i :| 0 <= i < |w.log| && w.log[i] == Admission(n, t1);
      assert i < j;
    }
  }

  /** If a later ticket of the warehouse was admitted, an earlier one no longer waits, and if it
      holds a slot it was admitted before. */
  lemma FirstComeFirstServed(w: World, es: seq<Event>, n: string, t1: nat, t2: nat)
    requires Inv(w) && t1 < t2
    requires var v := Run(w, es); t1 in v.tickets && v.tickets[t1].warehouse == n && Admission(n, t2) in v.log
    ensures var v := Run(w, es); v.tickets[t1].phase != Waiting
    ensures var v := Run(w, es); Holding(v.tickets[t1].phase) ==>
      exists i, j :: 0 <= i < j < |v.log| && v.log[i] == Admission(n, t1) && v.log[j] == Admission(n, t2)
  {
    hide Inv, Run;
    RunKeeps(w, es);
    ServedInOrder(Run(w, es), n, t1, t2);
  }

  /** A newcomer runs at once only when nobody waits for that warehouse. */
  lemma FastPathOnlyWhenNobodyWaits(w: World, name: string, now: int, saved: bool, t: nat)
    requires Inv(w) && AcquireStep(w, name, now, saved).1 == Granted(t)
    ensures forall u :: u in w.tickets && w.tickets[u].phase == Waiting ==> w.tickets[u].warehouse != Name(name)
  {
    var n := Name(name);
    forall u | u in w.tickets && w.tickets[u].phase == Waiting
      ensures w.tickets[u].warehouse != n
    {
      assert Placed(w, u);
      assert w.warehouses[n].queue == [];
    }
  }

  /** A lease that is given back while its warehouse has no statement running, or is gone, does
      not exist: the guards of the release never refuse a live lease. */
  lemma ReleaseAlwaysCounts(w: World, t: nat)
    requires Inv(w) && t in w.tickets && Holding(w.tickets[t].phase)
    ensures w.tickets[t].warehouse in w.warehouses && w.warehouses[w.tickets[t].warehouse].running > 0
  {
    FreedSettles(w, t, 0);
  }

  // ------------------------------------------------------------- the release that lets a waiter in

  ghost predicate Waits(w: World, n: string, t: nat) {
    && t in w.tickets && w.tickets[t].phase == Waiting && w.tickets[t].warehouse == n
    && n in w.warehouses && t in w.warehouses[n].queue
  }

  /** How many releases a waiting ticket is away from running: one for each statement over the
      capacity, one for each ticket before it, and one for itself. */
  function Distance(w: World, n: string, t: nat): int
    requires n in w.warehouses
  {
    var it := w.warehouses[n];
    it.running - Capacity(it.size) + IndexOf(it.queue, t) + 1
  }

  /** The step gives a slot of the warehouse back. */
  predicate Frees(w: World, e: Event, n: string) {
    || (e.Release? && e.ticket in w.tickets && w.tickets[e.ticket] == w.tickets[e.ticket].(warehouse := n, phase := Leased))
    || (e.Cancel? && e.ticket in w.tickets && w.tickets[e.ticket] == w.tickets[e.ticket].(warehouse := n, phase := Admitted))
  }

  /** Neither a suspension nor a resize of the warehouse, nor a waiter of it that gives up. */
  predicate Quiet(w: World, e: Event, n: string) {
    && !(e.Suspend? && Name(e.name) == n) && !(e.Alter? && Name(e.name) == n)
    && !(e.Cancel? && e.ticket in w.tickets && w.tickets[e.ticket] == w.tickets[e.ticket].(warehouse := n, phase := Waiting))
  }

  /** As quiet, except that others may give up and the warehouse may grow. */
  predicate Harmless(w: World, e: Event, n: string, t: nat) {
    && !(e.Suspend? && Name(e.name) == n) && !(e.Cancel? && e.ticket == t)
    && (e.Alter? && Name(e.name) == n && n in w.warehouses ==>
          Capacity(SizeName(e.settings.size)) >= Capacity(w.warehouses[n].size))
  }

  predicate Let(w: World, n: string, t: nat) { Admission(n, t) in w.log }

  /** The ticket was let in or its distance went down by at least `drop`. */
  ghost predicate Closer(w: World, v: World, n: string, t: nat, drop: nat)
    requires n in w.warehouses
  {
    Let(v, n, t) || (Waits(v, n, t) && Distance(v, n, t) <= Distance(w, n, t) - drop)
  }

  /** The ticket was let in, which happens exactly when the distance was at most `drop`; if not,
      the distance went down by exactly `drop`. */
  ghost predicate Exactly(w: World, v: World, n: string, t: nat, drop: nat)
    requires n in w.warehouses
  {
    if Distance(w, n, t) <= drop then Let(v, n, t) && !Waits(v, n, t)
    else Waits(v, n, t) && Distance(v, n, t) == Distance(w, n, t) - drop
  }

  lemma Waiter(w: World, n: string, t: nat)
    requires Inv(w) && Waits(w, n, t)
    ensures Distance(w, n, t) >= 1 && w.warehouses[n].state == Active && w.warehouses[n].queued > 0
    ensures w.warehouses[n].running > 0 && IndexOf(w.warehouses[n].queue, t) < |w.warehouses[n].queue|
    ensures Sound(w, n) && !Let(w, n, t)
  {
    hide Capacity;
    assert Sound(w, n);
    Found(w.warehouses[n].queue, t);
    LoggedBefore(w, n, t);
  }

  /** Nothing about the ticket and its line changed. */
  lemma SameLine(w: World, v: World, n: string, t: nat)
    requires Inv(w) && Waits(w, n, t) && n in v.warehouses
    requires v.warehouses[n] == w.warehouses[n] && t in v.tickets && v.tickets[t] == w.tickets[t]
    ensures Exactly(w, v, n, t, 0)
  {
    Waiter(w, n, t);
    hide Inv, Capacity;
  }

  lemma IndexAfterFirst(q: seq<nat>, t: nat)
    requires q != [] && q[0] != t
    ensures IndexOf(q[1..], t) == IndexOf(q, t) - 1
  {
  }

  /** Admitting moves everybody up: positions and running statements trade one for one. */
  lemma {:induction false} AdmitMoves(w: World, n: string, t: nat)
    requires n in w.warehouses && t in w.warehouses[n].queue && w.warehouses[n].state == Active
    requires AllWaiting(w.tickets, w.warehouses[n].queue, n) && Increasing(w.warehouses[n].queue)
    ensures Exactly(w, Admit(w, n), n, t, 0)
    decreases |w.warehouses[n].queue|
  {
    hide Capacity, IndexOf, Exactly, Distance, Waits, Let, AllWaiting, Increasing;
    if CanAdmit(w.warehouses[n]) {
      AdmitOneWaits(w, n);
      if w.warehouses[n].queue[0] == t {
        FirstLetIn(w, n, t);
        ExactlyIn(w, Admit(w, n), n, t);
      } else {
        AdmitOneMoves(w, n, t);
        AdmitMoves(AdmitOne(w, n), n, t);
        ExactlySame(w, AdmitOne(w, n), Admit(AdmitOne(w, n), n), n, t);
      }
    } else {
      Unmoved(w, n, t);
    }
  }

  lemma AdmitOneWaits(w: World, n: string)
    requires n in w.warehouses && w.warehouses[n].queue != []
    requires AllWaiting(w.tickets, w.warehouses[n].queue, n) && Increasing(w.warehouses[n].queue)
    ensures var v := AdmitOne(w, n);
            n in v.warehouses && AllWaiting(v.tickets, v.warehouses[n].queue, n) && Increasing(v.warehouses[n].queue)
  {
    hide AllWaiting, Increasing;
    var q := w.warehouses[n].queue;
    assert q[..0] + q[1..] == q[1..];
    AheadOfNone(q, n);
    RestWaits(w.tickets, [], q, n, 0, Ticket(n, w.warehouses[n].size, Admitted));
  }

  lemma AheadOfNone(q: seq<nat>, n: string)
    ensures Ahead([], q, n)
  {
  }

  lemma ExactlyIn(w: World, v: World, n: string, t: nat)
    requires n in w.warehouses && Distance(w, n, t) <= 0 && Let(v, n, t) && !Waits(v, n, t)
    ensures Exactly(w, v, n, t, 0)
  {
    hide Distance;
  }

  lemma ExactlySame(w: World, v: World, x: World, n: string, t: nat)
    requires n in w.warehouses && n in v.warehouses && Distance(w, n, t) == Distance(v, n, t) && Exactly(v, x, n, t, 0)
    ensures Exactly(w, x, n, t, 0)
  {
    hide Distance;
  }

  lemma Unmoved(w: World, n: string, t: nat)
    requires n in w.warehouses && t in w.warehouses[n].queue && w.warehouses[n].state == Active
    requires AllWaiting(w.tickets, w.warehouses[n].queue, n) && !CanAdmit(w.warehouses[n])
    ensures Exactly(w, w, n, t, 0)
  {
    hide Capacity;
    Found(w.warehouses[n].queue, t);
  }

  lemma AdmitOneMoves(w: World, n: string, t: nat)
    requires n in w.warehouses && t in w.warehouses[n].queue && w.warehouses[n].queue[0] != t
    ensures var v := AdmitOne(w, n);
            && n in v.warehouses && t in v.warehouses[n].queue && v.warehouses[n].state == w.warehouses[n].state
            && v.warehouses[n].queue == w.warehouses[n].queue[1..] && |v.warehouses[n].queue| < |w.warehouses[n].queue|
            && Distance(v, n, t) == Distance(w, n, t)
  {
    hide Capacity;
    IndexAfterFirst(w.warehouses[n].queue, t);
  }

  lemma FirstLetIn(w: World, n: string, t: nat)
    requires n in w.warehouses && w.warehouses[n].queue != [] && w.warehouses[n].queue[0] == t
    requires Increasing(w.warehouses[n].queue) && CanAdmit(w.warehouses[n])
    ensures var v := Admit(w, n); Let(v, n, t) && !Waits(v, n, t)
    ensures Distance(w, n, t) <= 0
  {
    var v := AdmitOne(w, n);
    assert v.log[|w.log|] == Admission(n, t);
    LetStays(v, n, t);
  }

  /** Once let in, a ticket stays so while others are admitted. */
  lemma {:induction false} LetStays(w: World, n: string, t: nat)
    requires n in w.warehouses && Let(w, n, t) && t in w.tickets && w.tickets[t].phase == Admitted
    requires t !in w.warehouses[n].queue
    ensures var v := Admit(w, n); Let(v, n, t) && !Waits(v, n, t)
    decreases |w.warehouses[n].queue|
  {
    if CanAdmit(w.warehouses[n]) {
      var v := AdmitOne(w, n);
      assert Let(v, n, t) by {
        var i :| 0 <= i < |w.log| && w.log[i] == Admission(n, t);
        assert v.log[i] == Admission(n, t);
      }
      LetStays(v, n, t);
    }
  }

  /** A freed slot: the line moves up by one. */
  lemma FreedMoves(w: World, u: nat, now: int, n: string, t: nat)
    requires Inv(w) && Waits(w, n, t) && u in w.tickets && Holding(w.tickets[u].phase) && w.tickets[u].warehouse == n
    ensures Exactly(w, Freed(SetPhase(w, u, Ended), n, now), n, t, 1)
  {
    Waiter(w, n, t);
    EndedTouches(w, u, now);
    hide Inv, Capacity, Admit;
    var it := w.warehouses[n].(running := w.warehouses[n].running - 1, lastActivity := Some(now));
    AdmitMoves(Put(SetPhase(w, u, Ended), n, it), n, t);
  }

  lemma FreedElsewhere(w: World, u: nat, now: int, n: string, t: nat)
    requires Inv(w) && Waits(w, n, t) && u in w.tickets && Holding(w.tickets[u].phase) && w.tickets[u].warehouse != n
    ensures Exactly(w, Freed(SetPhase(w, u, Ended), w.tickets[u].warehouse, now), n, t, 0)
  {
    EndedTouches(w, u, now);
    hide Inv, Freed;
    FreedTouches(SetPhase(w, u, Ended), w.tickets[u].warehouse, now);
    SameLine(w, Freed(SetPhase(w, u, Ended), w.tickets[u].warehouse, now), n, t);
  }

  function Drop1(w: World, e: Event, n: string): nat { if Frees(w, e, n) then 1 else 0 }

  lemma ReleaseMoves(w: World, u: nat, now: int, n: string, t: nat)
    requires Inv(w) && Waits(w, n, t)
    ensures Exactly(w, ReleaseStep(w, u, now).0, n, t, Drop1(w, Release(u, now), n))
  {
    hide Inv, Freed, Exactly, Distance;
    if u in w.tickets && w.tickets[u].phase == Leased {
      ReleaseAlwaysCounts(w, u);
      if w.tickets[u].warehouse == n { FreedMoves(w, u, now, n, t); } else { FreedElsewhere(w, u, now, n, t); }
    } else {
      SameLine(w, w, n, t);
    }
  }

  lemma CancelMoves(w: World, u: nat, now: int, n: string, t: nat)
    requires Inv(w) && Waits(w, n, t) && Quiet(w, Cancel(u, now), n)
    ensures Exactly(w, CancelStep(w, u, now).0, n, t, Drop1(w, Cancel(u, now), n))
  {
    hide Inv, Freed, Exactly, Distance, IndexOf;
    var v := CancelStep(w, u, now).0;
    if u !in w.tickets || w.tickets[u].phase == Leased || w.tickets[u].phase == Ended {
      SameLine(w, w, n, t);
    } else if w.tickets[u].phase == Admitted {
      NotQueued(w, u);
      ReleaseAlwaysCounts(w, u);
      if w.tickets[u].warehouse == n { FreedMoves(w, u, now, n, t); } else { FreedElsewhere(w, u, now, n, t); }
    } else {
      if w.tickets[u].phase == Rejected { NotQueued(w, u); }
      SameLine(w, v, n, t);
    }
  }

  lemma AcquireMoves(w: World, name: string, now: int, saved: bool, n: string, t: nat)
    requires Inv(w) && Waits(w, n, t)
    ensures Exactly(w, AcquireStep(w, name, now, saved).0, n, t, 0)
  {
    Waiter(w, n, t);
    NotYetIssued(w, t);
    hide Inv, Capacity, Name, IndexOf, Sound, Exactly, Enter;
    if Name(name) == n {
      EnterMoves(w, n, t);
    } else {
      EnterTouches(w, Name(name));
      EnterTouches(Put(w, Name(name), Resumed(if Name(name) in w.warehouses then w.warehouses[Name(name)] else w.warehouses[n], now)), Name(name));
      SameLine(w, AcquireStep(w, name, now, saved).0, n, t);
    }
  }

  lemma NotYetIssued(w: World, t: nat)
    requires Inv(w) && t in w.tickets
    ensures t < w.next
  {
    assert Placed(w, t);
  }

  lemma EnterTouches(w: World, m: string)
    ensures m in w.warehouses ==>
      var v := Enter(w, m).0;
      && (forall n :: n in w.warehouses && n != m ==> n in v.warehouses && v.warehouses[n] == w.warehouses[n])
      && (forall t :: t in w.tickets && t != w.next ==> t in v.tickets && v.tickets[t] == w.tickets[t])
  {
    hide Capacity;
  }

  /** A newcomer joins behind those who wait. */
  lemma EnterMoves(w: World, n: string, t: nat)
    requires Waits(w, n, t) && t < w.next && Distance(w, n, t) >= 1
    ensures Exactly(w, Enter(w, n).0, n, t, 0)
  {
    hide Capacity, IndexOf;
    IndexBeforeLast(w.warehouses[n].queue, w.next, t);
  }

  lemma IndexBeforeLast(q: seq<nat>, u: nat, t: nat)
    requires t in q
    ensures IndexOf(q + [u], t) == IndexOf(q, t)
    decreases |q|
  {
    if q[0] != t {
      assert (q + [u])[1..] == q[1..] + [u];
      IndexBeforeLast(q[1..], u, t);
    }
  }

  /** A quiet step changes the distance by what it frees, and by nothing else. */
  lemma QuietStep(w: World, e: Event, n: string, t: nat)
    requires Inv(w) && Waits(w, n, t) && Quiet(w, e, n)
    ensures Exactly(w, Step(w, e), n, t, Drop1(w, e, n))
  {
    hide Inv, Exactly, Distance, Capacity, Name, SizeName, ValidSize, Freed, Enter;
    Waiter(w, n, t);
    match e
    case Release(u, now) => ReleaseMoves(w, u, now, n, t);
    case Cancel(u, now) => CancelMoves(w, u, now, n, t);
    case Acquire(name, now, saved) => AcquireMoves(w, name, now, saved, n, t);
    case Alter(name, s, saved) => AlterElsewhere(w, name, s, saved, n, t);
    case Suspend(name, saved) => SuspendElsewhere(w, name, saved, n, t);
    case _ => SameLine(w, Step(w, e), n, t);
  }

  lemma AlterElsewhere(w: World, name: string, s: Settings, saved: bool, n: string, t: nat)
    requires Inv(w) && Waits(w, n, t) && Name(name) != n
    ensures Exactly(w, AlterStep(w, name, s, saved).0, n, t, 0)
  {
    var m, size := Name(name), SizeName(s.size);
    if m in w.warehouses { assert Sound(w, m); }
    hide Inv, Capacity, Admit, ValidSize, Name, SizeName, Exactly;
    if m in w.warehouses {
      var it := w.warehouses[m].(size := size, autoResume := s.autoResume, autoSuspend := s.autoSuspend);
      AdmitTouches(Put(w, m, it), m);
    }
    SameLine(w, AlterStep(w, name, s, saved).0, n, t);
  }

  lemma SuspendElsewhere(w: World, name: string, saved: bool, n: string, t: nat)
    requires Inv(w) && Waits(w, n, t) && Name(name) != n
    ensures Exactly(w, SuspendStep(w, name, saved).0, n, t, 0)
  {
    var m := Name(name);
    if m in w.warehouses {
      assert Sound(w, m);
      RejectionsIs(w.tickets, w.warehouses[m].queue, m);
      assert t !in w.warehouses[m].queue;
    }
    hide Inv, Exactly, Name, Rejections;
    SameLine(w, SuspendStep(w, name, saved).0, n, t);
  }

  predicate AllQuiet(w: World, es: seq<Event>, n: string)
    decreases |es|
  {
    es == [] || (Quiet(w, es[0], n) && AllQuiet(Step(w, es[0]), es[1..], n))
  }

  /** The number of slots of the warehouse given back during a run. */
  function FreedDuring(w: World, es: seq<Event>, n: string): nat
    decreases |es|
  {
    if es == [] then 0 else Drop1(w, es[0], n) + FreedDuring(Step(w, es[0]), es[1..], n)
  }

  /** Without suspension, resize or waiters giving up, the waiter at position p of a warehouse
      with R running and capacity C is let in by exactly the (R - C + p + 1)-th release. */
  lemma {:induction false} ExactRelease(w: World, es: seq<Event>, n: string, t: nat)
    requires Inv(w) && Waits(w, n, t) && AllQuiet(w, es, n)
    ensures var k, d := FreedDuring(w, es, n), Distance(w, n, t);
            if k < d then Waits(Run(w, es), n, t) && Distance(Run(w, es), n, t) == d - k
            else Let(Run(w, es), n, t)
    decreases |es|
  {
    hide Inv, Step, Quiet, Distance, Drop1;
    if es == [] {
      Waiter(w, n, t);
    } else {
      var v := Step(w, es[0]);
      QuietStep(w, es[0], n, t);
      StepKeeps(w, es[0]);
      if Distance(w, n, t) > Drop1(w, es[0], n) {
        ExactRelease(v, es[1..], n, t);
      } else {
        LogOnlyGrows(v, es[1..], Admission(n, t));
      }
    }
  }

  // ------------------------------------------------------------- the log

  lemma {:induction false} AdmitLogs(w: World, n: string)
    requires n in w.warehouses
    ensures w.log <= Admit(w, n).log
    decreases |w.warehouses[n].queue|
  {
    if CanAdmit(w.warehouses[n]) { AdmitLogs(AdmitOne(w, n), n); }
  }

  lemma FreedLogs(w: World, n: string, now: int)
    requires n in w.warehouses
    ensures w.log <= Freed(w, n, now).log
  {
    hide Admit;
    var it := w.warehouses[n].(running := w.warehouses[n].running - 1, lastActivity := Some(now));
    if !(it.state == Suspending && it.running == 0) { AdmitLogs(Put(w, n, it), n); }
  }

  lemma StepLogs(w: World, e: Event)
    ensures w.log <= Step(w, e).log
  {
    hide Freed, Admit, IndexOf, Name, SizeName, ValidSize, Capacity, Rejections;
    match e
    case Release(t, now) =>
      if t in w.tickets && w.tickets[t].warehouse in w.warehouses {
        FreedLogs(SetPhase(w, t, Ended), w.tickets[t].warehouse, now);
      }
    case Cancel(t, now) =>
      if t in w.tickets && w.tickets[t].warehouse in w.warehouses {
        FreedLogs(SetPhase(w, t, Ended), w.tickets[t].warehouse, now);
      }
    case Alter(name, s, saved) =>
      if Name(name) in w.warehouses {
        var n := Name(name);
        var it := w.warehouses[n].(size := SizeName(s.size), autoResume := s.autoResume, autoSuspend := s.autoSuspend);
        AdmitLogs(Put(w, n, it), n);
      }
    case _ =>
  }

  lemma {:induction false} LogOnlyGrows(w: World, es: seq<Event>, a: Admission)
    requires a in w.log
    ensures a in Run(w, es).log
    decreases |es|
  {
    hide Step;
    if es != [] {
      StepLogs(w, es[0]);
      var i :| 0 <= i < |w.log| && w.log[i] == a;
      assert Step(w, es[0]).log[i] == a;
      LogOnlyGrows(Step(w, es[0]), es[1..], a);
    }
  }

  // ------------------------------------------------------------- growth and cancellation only help

  lemma IndexAtMost(q: seq<nat>, k: nat, t: nat)
    requires k < |q| && q[k] == t
    ensures IndexOf(q, t) <= k
    decreases k
  {
    if k > 0 && q[0] != t { IndexAtMost(q[1..], k - 1, t); }
  }

  lemma IndexWithout(q: seq<nat>, i: nat, t: nat)
    requires i < |q| && t in q && q[i] != t
    ensures t in q[..i] + q[i + 1..] && IndexOf(q[..i] + q[i + 1..], t) <= IndexOf(q, t)
  {
    Found(q, t);
    hide IndexOf;
    var k := IndexOf(q, t);
    RestAt(q, i, k);
    IndexAtMost(q[..i] + q[i + 1..], if k < i then k else k - 1, t);
  }

  lemma RestAt(q: seq<nat>, i: nat, k: nat)
    requires i < |q| && k < |q| && k != i
    ensures var r, p := q[..i] + q[i + 1..], if k < i then k else k - 1; p < |r| && r[p] == q[k]
  {
  }

  lemma OtherGivesUp(w: World, u: nat, now: int, n: string, t: nat)
    requires Inv(w) && Waits(w, n, t) && u != t
    requires u in w.tickets && w.tickets[u].phase == Waiting && w.tickets[u].warehouse == n
    ensures Closer(w, CancelStep(w, u, now).0, n, t, 0)
  {
    Waiter(w, n, t);
    assert Placed(w, u);
    var q := w.warehouses[n].queue;
    Found(q, u);
    hide Inv, Capacity, IndexOf, Sound;
    var i := IndexOf(q, u);
    IndexWithout(q, i, t);
    CancelIsLeft(w, u, now, i);
    hide CancelStep;
    LeftCloser(w, u, i, n, t);
  }

  lemma CancelIsLeft(w: World, u: nat, now: int, i: nat)
    requires u in w.tickets && w.tickets[u].phase == Waiting && w.tickets[u].warehouse in w.warehouses
    requires var q := w.warehouses[w.tickets[u].warehouse].queue; i == IndexOf(q, u) < |q|
    ensures CancelStep(w, u, now).0 == Left(w, u, i)
  {
    hide IndexOf, Freed;
  }

  lemma LeftCloser(w: World, u: nat, i: nat, n: string, t: nat)
    requires Waits(w, n, t) && u != t && u in w.tickets && w.tickets[u].warehouse == n && i < |w.warehouses[n].queue|
    requires var q := w.warehouses[n].queue; var r := q[..i] + q[i + 1..]; t in r && IndexOf(r, t) <= IndexOf(q, t)
    ensures Closer(w, Left(w, u, i), n, t, 0)
  {
    hide IndexOf, Capacity;
  }

  lemma Grows(w: World, name: string, s: Settings, saved: bool, n: string, t: nat)
    requires Inv(w) && Waits(w, n, t) && Name(name) == n && Capacity(SizeName(s.size)) >= Capacity(w.warehouses[n].size)
    ensures Closer(w, AlterStep(w, name, s, saved).0, n, t, 0)
  {
    Waiter(w, n, t);
    hide Inv, Capacity, Admit, Name, SizeName, ValidSize;
    if ValidSize(SizeName(s.size)) && s.autoSuspend >= 0 {
      var it := w.warehouses[n].(size := SizeName(s.size), autoResume := s.autoResume, autoSuspend := s.autoSuspend);
      AdmitMoves(Put(w, n, it), n, t);
    }
  }

  lemma HarmlessStep(w: World, e: Event, n: string, t: nat)
    requires Inv(w) && Waits(w, n, t) && Harmless(w, e, n, t)
    ensures Closer(w, Step(w, e), n, t, Drop1(w, e, n))
  {
    if Quiet(w, e, n) {
      hide Inv, Step, Quiet, Harmless, Distance;
      QuietStep(w, e, n, t);
    } else if e.Alter? {
      hide Inv, Capacity, AlterStep, Closer;
      Grows(w, e.name, e.settings, e.saved, n, t);
    } else {
      hide Inv, Capacity, CancelStep, Closer;
      OtherGivesUp(w, e.ticket, e.now, n, t);
    }
  }

  predicate AllHarmless(w: World, es: seq<Event>, n: string, t: nat)
    decreases |es|
  {
    es == [] || (Harmless(w, es[0], n, t) && AllHarmless(Step(w, es[0]), es[1..], n, t))
  }

  /** Waiters that give up and a warehouse that grows only bring the admission forward, and
      later arrivals never delay it: R - C + p + 1 releases always suffice. */
  lemma {:induction false} EnoughReleases(w: World, es: seq<Event>, n: string, t: nat)
    requires Inv(w) && Waits(w, n, t) && AllHarmless(w, es, n, t)
    ensures FreedDuring(w, es, n) >= Distance(w, n, t) ==> Let(Run(w, es), n, t)
    decreases |es|
  {
    hide Inv, Step, Harmless, Distance, Drop1;
    if es == [] {
      Waiter(w, n, t);
    } else {
      var v := Step(w, es[0]);
      HarmlessStep(w, es[0], n, t);
      StepKeeps(w, es[0]);
      if Let(v, n, t) {
        LogOnlyGrows(v, es[1..], Admission(n, t));
      } else {
        EnoughReleases(v, es[1..], n, t);
      }
    }
  }
}
