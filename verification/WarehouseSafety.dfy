/** What holds in every reachable state of the warehouses. */
module WarehouseSafety {
  import opened Warehouses

  // ------------------------------------------------------------- the invariant

  predicate Holding(p: Phase) { p == Admitted || p == Leased }

  /** The tickets that occupy a slot of the warehouse: live leases and admitted waiters that
      have not noticed yet. */
  ghost function Holders(ts: map<nat, Ticket>, n: string): set<nat> {
    set t | t in ts && ts[t].warehouse == n && Holding(ts[t].phase)
  }

  predicate Increasing(q: seq<nat>) { forall i, j :: 0 <= i < j < |q| ==> q[i] < q[j] }

  /** The tickets of the queue wait for this warehouse. */
  predicate AllWaiting(ts: map<nat, Ticket>, q: seq<nat>, n: string) {
    forall k :: 0 <= k < |q| ==> q[k] in ts && ts[q[k]].warehouse == n && ts[q[k]].phase == Waiting
  }

  /** Every admission to the warehouse so far was of a ticket before those in the queue. */
  predicate Ahead(log: seq<Admission>, q: seq<nat>, n: string) {
    forall i, k :: 0 <= i < |log| && 0 <= k < |q| && log[i].warehouse == n ==> log[i].ticket < q[k]
  }

  /** Counters, queue and slots of one warehouse agree. */
  ghost predicate Sound(w: World, n: string)
    requires n in w.warehouses
  {
    var it := w.warehouses[n];
    && it.queued == |it.queue| && it.running == |Holders(w.tickets, n)|
    && Increasing(it.queue) && AllWaiting(w.tickets, it.queue, n) && Ahead(w.log, it.queue, n)
  }

  /** A waiting ticket is in its queue; one that holds a slot was admitted by the log. */
  predicate Placed(w: World, t: nat)
    requires t in w.tickets
  {
    var k := w.tickets[t];
    && t < w.next
    && (k.phase == Waiting ==> k.warehouse in w.warehouses && t in w.warehouses[k.warehouse].queue)
    && (Holding(k.phase) ==> k.warehouse in w.warehouses && Admission(k.warehouse, t) in w.log)
  }

  predicate LogBelow(log: seq<Admission>, next: nat) { forall i :: 0 <= i < |log| ==> log[i].ticket < next }

  /** Each warehouse admits in the order of arrival. */
  predicate InOrder(log: seq<Admission>) {
    forall i, j :: 0 <= i < j < |log| && log[i].warehouse == log[j].warehouse ==> log[i].ticket < log[j].ticket
  }

  ghost predicate Base(w: World) {
    && LogBelow(w.log, w.next) && InOrder(w.log)
    && (forall n :: n in w.warehouses ==> Sound(w, n))
    && (forall t :: t in w.tickets ==> Placed(w, t))
  }

  /** The state of a warehouse fits its counters. */
  predicate StateFits(it: Item) {
    && it.state != Resuming
    && (it.queue != [] ==> it.state == Active)
    && (it.state == Suspended ==> it.running == 0)
    && (it.state == Suspending ==> it.running > 0)
  }

  /** Nobody waits while there is room. */
  predicate NoRoom(it: Item) { it.queue != [] ==> it.running >= Capacity(it.size) }

  predicate Settled(it: Item) { StateFits(it) && NoRoom(it) }

  ghost predicate Inv(w: World) {
    Base(w) && forall n :: n in w.warehouses ==> Settled(w.warehouses[n])
  }

  // ------------------------------------------------------------- slots

  lemma HoldersPut(ts: map<nat, Ticket>, t: nat, x: Ticket, n: string)
    ensures Holders(ts[t := x], n)
         == if x.warehouse == n && Holding(x.phase) then Holders(ts, n) + {t} else Holders(ts, n) - {t}
  {
  }

  // ------------------------------------------------------------- elementary changes keep the base

  /** A change of state or settings. */
  lemma BaseItem(w: World, n: string, it: Item)
    requires Base(w) && n in w.warehouses
    requires var o := w.warehouses[n]; it.queue == o.queue && it.queued == o.queued && it.running == o.running
    ensures Base(Put(w, n, it))
  {
    var v := Put(w, n, it);
    forall m | m in v.warehouses
      ensures Sound(v, m)
    {
      assert Sound(w, m);
    }
    forall t | t in v.tickets
      ensures Placed(v, t)
    {
      assert Placed(w, t);
    }
  }

  lemma BaseCreate(w: World, n: string, it: Item)
    requires Base(w) && n !in w.warehouses && it.queue == [] && it.queued == 0 && it.running == 0
    ensures Base(Put(w, n, it))
  {
    var v := Put(w, n, it);
    forall t | t in w.tickets
      ensures t !in Holders(w.tickets, n)
    {
      assert Placed(w, t);
    }
    assert Holders(w.tickets, n) == {};
    forall m | m in v.warehouses
      ensures Sound(v, m)
    {
      if m != n { assert Sound(w, m); }
    }
    forall t | t in v.tickets
      ensures Placed(v, t)
    {
      assert Placed(w, t);
    }
  }

  /** A dropped warehouse leaves no ticket behind that waits or holds a slot. */
  lemma BaseDrop(w: World, n: string)
    requires Base(w) && n in w.warehouses && w.warehouses[n].running <= 0 && w.warehouses[n].queued <= 0
    ensures Base(w.(warehouses := w.warehouses - {n}))
  {
    var v := w.(warehouses := w.warehouses - {n});
    assert Sound(w, n);
    forall m | m in v.warehouses
      ensures Sound(v, m)
    {
      assert Sound(w, m);
    }
    forall t | t in v.tickets
      ensures Placed(v, t)
    {
      assert Placed(w, t);
      assert t in Holders(w.tickets, n) <==> w.tickets[t].warehouse == n && Holding(w.tickets[t].phase);
    }
  }

  /** A ticket of one queue is in no other. */
  lemma OthersWait(w: World, n: string, m: string, k: nat, x: Ticket)
    requires n in w.warehouses && Sound(w, n) && k < |w.warehouses[n].queue|
    requires m in w.warehouses && Sound(w, m) && m != n
    ensures AllWaiting(w.tickets[w.warehouses[n].queue[k] := x], w.warehouses[m].queue, m)
  {
    hide Holders, Ahead;
  }

  /** Without its k-th ticket, a queue is still in order. */
  lemma RestWaits(ts: map<nat, Ticket>, log: seq<Admission>, q: seq<nat>, n: string, k: nat, x: Ticket)
    requires Increasing(q) && AllWaiting(ts, q, n) && Ahead(log, q, n) && k < |q|
    ensures var r := q[..k] + q[k + 1..];
            Increasing(r) && AllWaiting(ts[q[k] := x], r, n) && Ahead(log, r, n)
  {
    var r := q[..k] + q[k + 1..];
    assert forall i :: 0 <= i < |r| ==> r[i] == q[if i < k then i else i + 1];
  }

  lemma BaseAdmitOne(w: World, n: string)
    requires Base(w) && n in w.warehouses && w.warehouses[n].queue != []
    ensures Base(AdmitOne(w, n))
  {
    var v := AdmitOne(w, n);
    assert Sound(w, n);
    assert Placed(w, w.warehouses[n].queue[0]);
    assert LogBelow(v.log, v.next) && InOrder(v.log);
    hide LogBelow, InOrder, Increasing, AllWaiting, Ahead, AdmitOne, Sound, Placed;
    forall m | m in v.warehouses
      ensures Sound(v, m)
    {
      assert m in w.warehouses && Sound(w, m);
      if m == n { SoundAdmitted(w, n); } else { SoundElsewhere(w, n, m); }
    }
    forall u | u in v.tickets
      ensures Placed(v, u)
    {
      PlacedAdmitted(w, n, u);
    }
  }

  lemma SoundAdmitted(w: World, n: string)
    requires n in w.warehouses && w.warehouses[n].queue != [] && Sound(w, n)
    ensures Sound(AdmitOne(w, n), n)
  {
    var it := w.warehouses[n];
    var q := it.queue;
    assert q[..0] + q[1..] == q[1..];
    RestWaits(w.tickets, w.log, q, n, 0, Ticket(n, it.size, Admitted));
    HoldersPut(w.tickets, q[0], Ticket(n, it.size, Admitted), n);
    assert q[0] !in Holders(w.tickets, n);
    hide Holders, AllWaiting;
    var log := w.log + [Admission(n, q[0])];
    assert Ahead(log, q[1..], n) by { assert forall k :: 0 <= k < |q[1..]| ==> q[1..][k] == q[k + 1]; }
  }

  lemma SoundElsewhere(w: World, n: string, m: string)
    requires n in w.warehouses && w.warehouses[n].queue != [] && Sound(w, n)
    requires m in w.warehouses && Sound(w, m) && m != n
    ensures Sound(AdmitOne(w, n), m)
  {
    var it := w.warehouses[n];
    OthersWait(w, n, m, 0, Ticket(n, it.size, Admitted));
    HoldersPut(w.tickets, it.queue[0], Ticket(n, it.size, Admitted), m);
    assert it.queue[0] !in Holders(w.tickets, m);
    hide Holders, AllWaiting;
  }

  lemma PlacedAdmitted(w: World, n: string, u: nat)
    requires Base(w) && n in w.warehouses && w.warehouses[n].queue != [] && u in AdmitOne(w, n).tickets
    ensures Placed(AdmitOne(w, n), u)
  {
    var v := AdmitOne(w, n);
    var q := w.warehouses[n].queue;
    assert Sound(w, n) && Placed(w, q[0]);
    assert v.log[|w.log|] == Admission(n, q[0]);
    hide Sound, InOrder, LogBelow, Increasing, AllWaiting, Ahead;
    if u != q[0] {
      assert Placed(w, u);
      if u in q { InRest(q, 0, u); }
      assert q[..0] + q[1..] == q[1..];
    }
  }

  lemma InRest(q: seq<nat>, i: nat, u: nat)
    requires i < |q| && u in q && u != q[i]
    ensures u in q[..i] + q[i + 1..]
  {
    var k :| 0 <= k < |q| && q[k] == u;
    assert (q[..i] + q[i + 1..])[if k < i then k else k - 1] == u;
  }

  lemma BaseEnter(w: World, n: string)
    requires Base(w) && n in w.warehouses
    ensures Base(Enter(w, n).0)
  {
    var v, t := Enter(w, n).0, w.next;
    forall u | u in w.tickets
      ensures u != t
    {
      assert Placed(w, u);
    }
    assert LogBelow(v.log, v.next) && InOrder(v.log);
    hide LogBelow, InOrder, Increasing, AllWaiting, Ahead, Enter, Sound, Placed;
    forall m | m in v.warehouses
      ensures Sound(v, m)
    {
      assert m in w.warehouses && Sound(w, m);
      BelowNext(w, m);
      SoundEntered(w, n, m);
    }
    forall u | u in v.tickets
      ensures Placed(v, u)
    {
      if u != t { assert Placed(w, u); }
      PlacedEntered(w, n, u);
    }
  }

  lemma SoundEntered(w: World, n: string, m: string)
    requires n in w.warehouses && m in w.warehouses && Sound(w, m) && w.next !in w.tickets && LogBelow(w.log, w.next)
    requires forall k :: 0 <= k < |w.warehouses[m].queue| ==> w.warehouses[m].queue[k] < w.next
    ensures Sound(Enter(w, n).0, m)
  {
    var v, t := Enter(w, n).0, w.next;
    HoldersPut(w.tickets, t, v.tickets[t], m);
    assert t !in Holders(w.tickets, m);
    var q := w.warehouses[m].queue;
    NewWaits(w.tickets, w.log, q, m, t, v.tickets[t]);
    hide Holders, AllWaiting, Increasing, Ahead, Capacity, LogBelow;
    if m != n || q == [] { NewAdmission(w.log, q, m, Admission(n, t)); }
  }

  /** A new ticket may stand at the end of the queue. */
  lemma NewWaits(ts: map<nat, Ticket>, log: seq<Admission>, q: seq<nat>, m: string, t: nat, x: Ticket)
    requires Increasing(q) && AllWaiting(ts, q, m) && Ahead(log, q, m) && t !in ts && LogBelow(log, t)
    requires forall k :: 0 <= k < |q| ==> q[k] < t
    ensures AllWaiting(ts[t := x], q, m)
    ensures x.warehouse == m && x.phase == Waiting ==>
      Increasing(q + [t]) && AllWaiting(ts[t := x], q + [t], m) && Ahead(log, q + [t], m)
  {
  }

  lemma NewAdmission(log: seq<Admission>, q: seq<nat>, m: string, a: Admission)
    requires Ahead(log, q, m) && (a.warehouse == m ==> q == [])
    ensures Ahead(log + [a], q, m)
  {
  }

  lemma PlacedEntered(w: World, n: string, u: nat)
    requires n in w.warehouses && u in Enter(w, n).0.tickets && (u != w.next ==> u in w.tickets && Placed(w, u))
    ensures Placed(Enter(w, n).0, u)
  {
    var v := Enter(w, n).0;
    if |v.log| > |w.log| {
      assert v.log[|w.log|] == Admission(n, w.next);
    } else {
      var q := v.warehouses[n].queue;
      assert q[|q| - 1] == w.next;
    }
  }

  lemma BelowNext(w: World, m: string)
    requires Base(w) && m in w.warehouses
    ensures forall k :: 0 <= k < |w.warehouses[m].queue| ==> w.warehouses[m].queue[k] < w.next
  {
    assert Sound(w, m);
    forall k | 0 <= k < |w.warehouses[m].queue|
      ensures w.warehouses[m].queue[k] < w.next
    {
      assert Placed(w, w.warehouses[m].queue[k]);
    }
  }

  /** A ticket that ends or changes its phase is in no queue afterwards. */
  lemma StillWaiting(w: World, t: nat, x: Ticket, m: string)
    requires t in w.tickets && m in w.warehouses && Sound(w, m)
    requires w.tickets[t].warehouse != m || w.tickets[t].phase != Waiting
    ensures AllWaiting(w.tickets[t := x], w.warehouses[m].queue, m)
  {
    hide Holders, Ahead, Increasing;
  }

  /** A phase that stays holding, or stays out of queue and slots. */
  lemma BasePhase(w: World, t: nat, p: Phase)
    requires Base(w) && t in w.tickets && w.tickets[t].phase != Waiting && p != Waiting
    requires Holding(p) == Holding(w.tickets[t].phase)
    ensures Base(SetPhase(w, t, p))
  {
    var v := SetPhase(w, t, p);
    hide LogBelow, InOrder, Increasing, AllWaiting, Ahead;
    forall m | m in v.warehouses
      ensures Sound(v, m)
    {
      assert Sound(w, m);
      HoldersPut(w.tickets, t, v.tickets[t], m);
      assert Holders(v.tickets, m) == Holders(w.tickets, m);
      StillWaiting(w, t, v.tickets[t], m);
    }
    forall u | u in v.tickets
      ensures Placed(v, u)
    {
      assert Placed(w, u);
    }
  }

  /** A ticket gives up its slot. */
  lemma BaseFree(w: World, t: nat, now: int)
    requires Base(w) && t in w.tickets && Holding(w.tickets[t].phase)
    ensures var n := w.tickets[t].warehouse; n in w.warehouses && w.warehouses[n].running > 0
    ensures var n := w.tickets[t].warehouse; var it := w.warehouses[n];
            Base(Put(SetPhase(w, t, Ended), n, it.(running := it.running - 1, lastActivity := Some(now))))
  {
    assert Placed(w, t);
    var n := w.tickets[t].warehouse;
    var it := w.warehouses[n];
    assert Sound(w, n) && t in Holders(w.tickets, n);
    var v := Put(SetPhase(w, t, Ended), n, it.(running := it.running - 1, lastActivity := Some(now)));
    hide LogBelow, InOrder, Increasing, AllWaiting, Ahead;
    forall m | m in v.warehouses
      ensures Sound(v, m)
    {
      assert Sound(w, m);
      HoldersPut(w.tickets, t, v.tickets[t], m);
      assert t in Holders(w.tickets, m) <==> m == n;
      StillWaiting(w, t, v.tickets[t], m);
      SoundFreed(w, t, m, v);
    }
    forall u | u in v.tickets
      ensures Placed(v, u)
    {
      assert Placed(w, u);
    }
  }

  lemma SoundFreed(w: World, t: nat, m: string, v: World)
    requires m in w.warehouses && Sound(w, m) && m in v.warehouses && v.log == w.log
    requires v.warehouses[m].queue == w.warehouses[m].queue && v.warehouses[m].queued == w.warehouses[m].queued
    requires v.warehouses[m].running == w.warehouses[m].running - if t in Holders(w.tickets, m) then 1 else 0
    requires Holders(v.tickets, m) == Holders(w.tickets, m) - {t} && AllWaiting(v.tickets, v.warehouses[m].queue, m)
    ensures Sound(v, m)
  {
    hide Holders, AllWaiting, Ahead, Increasing;
  }

  function Left(w: World, t: nat, i: nat): World
    requires t in w.tickets && w.tickets[t].warehouse in w.warehouses
    requires i < |w.warehouses[w.tickets[t].warehouse].queue|
  {
    var n := w.tickets[t].warehouse;
    var it := w.warehouses[n];
    Put(SetPhase(w, t, Ended), n, it.(queue := it.queue[..i] + it.queue[i + 1..], queued := it.queued - 1))
  }

  /** A waiting ticket leaves the queue. */
  lemma BaseLeave(w: World, t: nat)
    requires Base(w) && t in w.tickets && w.tickets[t].phase == Waiting
    ensures w.tickets[t].warehouse in w.warehouses
    ensures var q := w.warehouses[w.tickets[t].warehouse].queue; IndexOf(q, t) < |q| && Base(Left(w, t, IndexOf(q, t)))
  {
    assert Placed(w, t);
    var q := w.warehouses[w.tickets[t].warehouse].queue;
    Found(q, t);
    var i := IndexOf(q, t);
    hide IndexOf, Base;
    BaseLeft(w, t, i);
  }

  lemma BaseLeft(w: World, t: nat, i: nat)
    requires Base(w) && t in w.tickets && w.tickets[t].phase == Waiting && w.tickets[t].warehouse in w.warehouses
    requires i < |w.warehouses[w.tickets[t].warehouse].queue| && w.warehouses[w.tickets[t].warehouse].queue[i] == t
    ensures Base(Left(w, t, i))
  {
    var n, v := w.tickets[t].warehouse, Left(w, t, i);
    var q := w.warehouses[n].queue;
    assert Sound(w, n);
    RestWaits(w.tickets, w.log, q, n, i, v.tickets[t]);
    LeftTickets(w, v, t, i);
    hide LogBelow, InOrder, Increasing, AllWaiting, Ahead, Placed, Holders;
    forall m | m in v.warehouses
      ensures Sound(v, m)
    {
      assert Sound(w, m);
      SoundLeft(w, v, t, m, q[..i] + q[i + 1..]);
    }
  }

  lemma Found(q: seq<nat>, t: nat)
    requires t in q
    ensures IndexOf(q, t) < |q|
  {
    assert q == q[..IndexOf(q, t)] + q[IndexOf(q, t)..];
  }

  lemma LeftTickets(w: World, v: World, t: nat, i: nat)
    requires Base(w) && t in w.tickets && v.tickets == w.tickets[t := w.tickets[t].(phase := Ended)]
    requires var n := w.tickets[t].warehouse; n in w.warehouses && i < |w.warehouses[n].queue| && w.warehouses[n].queue[i] == t
    requires v.warehouses.Keys == w.warehouses.Keys && v.next == w.next && v.log == w.log
    requires forall m :: m in w.warehouses && m != w.tickets[t].warehouse ==> v.warehouses[m] == w.warehouses[m]
    requires var n := w.tickets[t].warehouse; var q := w.warehouses[n].queue; v.warehouses[n].queue == q[..i] + q[i + 1..]
    ensures forall u :: u in v.tickets ==> Placed(v, u)
  {
    hide Sound, LogBelow, InOrder;
    var q := w.warehouses[w.tickets[t].warehouse].queue;
    forall u | u in v.tickets
      ensures Placed(v, u)
    {
      assert Placed(w, u);
      if u != t && u in q { InRest(q, i, u); }
    }
  }

  lemma SoundLeft(w: World, v: World, t: nat, m: string, q: seq<nat>)
    requires m in w.warehouses && Sound(w, m) && t in w.tickets && w.tickets[t].phase == Waiting
    requires v.tickets == w.tickets[t := w.tickets[t].(phase := Ended)] && v.log == w.log && m in v.warehouses
    requires v.warehouses[m].running == w.warehouses[m].running
    requires if w.tickets[t].warehouse == m
      then v.warehouses[m].queue == q && v.warehouses[m].queued == |q| && Increasing(q) && AllWaiting(v.tickets, q, m) && Ahead(w.log, q, m)
      else v.warehouses[m] == w.warehouses[m]
    ensures Sound(v, m)
  {
    HoldersPut(w.tickets, t, v.tickets[t], m);
    assert t !in Holders(w.tickets, m);
    hide Holders, Increasing, AllWaiting, Ahead;
    if w.tickets[t].warehouse != m { StillWaiting(w, t, v.tickets[t], m); }
  }

  // ------------------------------------------------------------- suspending

  lemma {:induction false} RejectionsIs(ts: map<nat, Ticket>, q: seq<nat>, n: string)
    ensures var r := Rejections(ts, q, n);
            && (forall t :: t in r <==> t in ts || t in q)
            && (forall t :: t in q ==> t in r && r[t] == Ticket(n, "", Rejected))
            && (forall t :: t in ts && t !in q ==> t in r && r[t] == ts[t])
    decreases |q|
  {
    if q != [] {
      RejectionsIs(ts[q[0] := Ticket(n, "", Rejected)], q[1..], n);
      assert forall t :: t in q <==> t == q[0] || t in q[1..];
    }
  }

  lemma BaseSuspend(w: World, n: string)
    requires Base(w) && n in w.warehouses
    ensures Base(Put(w, n, SuspendedItem(w.warehouses[n])).(tickets := Rejections(w.tickets, w.warehouses[n].queue, n)))
  {
    var it := w.warehouses[n];
    var q := it.queue;
    var r := Rejections(w.tickets, q, n);
    var v := Put(w, n, SuspendedItem(it)).(tickets := r);
    RejectionsIs(w.tickets, q, n);
    assert Sound(w, n);
    hide LogBelow, InOrder, Rejections, AllWaiting, Ahead, Increasing;
    forall m | m in v.warehouses
      ensures Sound(v, m)
    {
      assert Sound(w, m);
      HoldersRejected(w.tickets, r, q, n, m);
      QueueRejected(w.tickets, r, q, w.warehouses[m].queue, n, m);
      SoundRejected(w, v, n, m);
    }
    hide Sound, SuspendedItem;
    forall t | t in v.tickets
      ensures Placed(v, t)
    {
      assert t in w.tickets && Placed(w, t);
      PlacedRejected(w, v, n, t);
    }
  }

  lemma PlacedRejected(w: World, v: World, n: string, t: nat)
    requires n in w.warehouses && t in w.tickets && t in v.tickets && Placed(w, t) && v.next == w.next && v.log == w.log
    requires v.warehouses == w.warehouses[n := SuspendedItem(w.warehouses[n])]
    requires v.tickets[t] == if t in w.warehouses[n].queue then Ticket(n, "", Rejected) else w.tickets[t]
    ensures Placed(v, t)
  {
  }

  lemma HoldersRejected(ts: map<nat, Ticket>, r: map<nat, Ticket>, q: seq<nat>, n: string, m: string)
    requires AllWaiting(ts, q, n) && r.Keys == ts.Keys
    requires forall t :: t in q ==> t in r && r[t] == Ticket(n, "", Rejected)
    requires forall t :: t in ts && t !in q ==> r[t] == ts[t]
    ensures Holders(r, m) == Holders(ts, m)
  {
    forall t | t in ts
      ensures t in Holders(r, m) <==> t in Holders(ts, m)
    {
      if t in q { var k :| 0 <= k < |q| && q[k] == t; }
    }
  }

  lemma QueueRejected(ts: map<nat, Ticket>, r: map<nat, Ticket>, q: seq<nat>, p: seq<nat>, n: string, m: string)
    requires AllWaiting(ts, q, n) && AllWaiting(ts, p, m) && r.Keys == ts.Keys
    requires forall t :: t in ts && t !in q ==> r[t] == ts[t]
    ensures m != n ==> AllWaiting(r, p, m)
  {
    if m != n {
      forall k | 0 <= k < |p|
        ensures p[k] !in q
      {
      }
    }
  }

  lemma SoundRejected(w: World, v: World, n: string, m: string)
    requires n in w.warehouses && m in w.warehouses && Sound(w, m) && v.log == w.log
    requires v.warehouses == w.warehouses[n := SuspendedItem(w.warehouses[n])]
    requires Holders(v.tickets, m) == Holders(w.tickets, m) && (m != n ==> AllWaiting(v.tickets, w.warehouses[m].queue, m))
    ensures Sound(v, m)
  {
    hide Holders;
  }

  lemma BaseAutoSuspend(w: World, names: set<string>, now: int)
    requires Base(w)
    ensures Base(AutoSuspendStep(w, names, now))
  {
    var v := AutoSuspendStep(w, names, now);
    forall m | m in v.warehouses
      ensures Sound(v, m)
    {
      assert Sound(w, m);
    }
    forall t | t in v.tickets
      ensures Placed(v, t)
    {
      assert Placed(w, t);
    }
  }

  // ------------------------------------------------------------- admitting

  /** Everything but the room for waiters of warehouse n is settled. */
  ghost predicate Unsettled(w: World, n: string) {
    && Base(w) && n in w.warehouses && StateFits(w.warehouses[n])
    && forall m :: m in w.warehouses && m != n ==> Settled(w.warehouses[m])
  }

  lemma {:induction false} AdmitSettles(w: World, n: string)
    requires Unsettled(w, n)
    ensures Inv(Admit(w, n))
    decreases |w.warehouses[n].queue|
  {
    hide Base;
    if CanAdmit(w.warehouses[n]) {
      var v := AdmitOne(w, n);
      BaseAdmitOne(w, n);
      AdmitSettles(v, n);
    }
  }

  // ------------------------------------------------------------- every step keeps the invariant

  lemma FreedSettles(w: World, t: nat, now: int)
    requires Inv(w) && t in w.tickets && Holding(w.tickets[t].phase)
    ensures var n := w.tickets[t].warehouse; n in w.warehouses && w.warehouses[n].running > 0
    ensures Inv(Freed(SetPhase(w, t, Ended), w.tickets[t].warehouse, now))
  {
    hide Base, Admit, Capacity, Holding;
    var n := w.tickets[t].warehouse;
    BaseFree(w, t, now);
    var it := w.warehouses[n].(running := w.warehouses[n].running - 1, lastActivity := Some(now));
    var v := Put(SetPhase(w, t, Ended), n, it);
    if it.state == Suspending && it.running == 0 {
      BaseItem(v, n, it.(state := Suspended));
      assert Put(v, n, it.(state := Suspended)) == Put(SetPhase(w, t, Ended), n, it.(state := Suspended));
    } else {
      AdmitSettles(v, n);
    }
  }

  lemma EnterKeeps(w: World, n: string)
    requires Inv(w) && n in w.warehouses && w.warehouses[n].state == Active
    ensures Inv(Enter(w, n).0)
  {
    BaseEnter(w, n);
    hide Base;
  }

  lemma AcquireKeeps(w: World, name: string, now: int, saved: bool)
    requires Inv(w)
    ensures Inv(AcquireStep(w, name, now, saved).0)
  {
    hide Base, Enter;
    var n := Name(name);
    if n in w.warehouses {
      if w.warehouses[n].state == Suspended && w.warehouses[n].autoResume {
        BaseItem(w, n, Resumed(w.warehouses[n], now));
        var v := Put(w, n, Resumed(w.warehouses[n], now));
        EnterKeeps(v, n);
      } else if w.warehouses[n].state == Active {
        EnterKeeps(w, n);
      }
    }
  }

  lemma CancelKeeps(w: World, t: nat, now: int)
    requires Inv(w)
    ensures Inv(CancelStep(w, t, now).0)
  {
    hide Freed, IndexOf;
    if t in w.tickets && w.tickets[t].phase != Leased && w.tickets[t].phase != Ended {
      if w.tickets[t].phase == Waiting {
        BaseLeave(w, t);
      } else if w.tickets[t].phase == Admitted {
        NotQueued(w, t);
        FreedSettles(w, t, now);
      } else {
        NotQueued(w, t);
        BasePhase(w, t, Ended);
      }
      hide Base;
    }
  }

  lemma NotQueued(w: World, t: nat)
    requires Inv(w) && t in w.tickets && w.tickets[t].phase != Waiting
    ensures forall m :: m in w.warehouses ==> IndexOf(w.warehouses[m].queue, t) == |w.warehouses[m].queue|
  {
    forall m | m in w.warehouses
      ensures IndexOf(w.warehouses[m].queue, t) == |w.warehouses[m].queue|
    {
      assert Sound(w, m);
    }
  }

  lemma SuspendKeeps(w: World, name: string, saved: bool)
    requires Inv(w)
    ensures Inv(SuspendStep(w, name, saved).0)
  {
    hide Rejections, Capacity, Name;
    var n := Name(name);
    if n in w.warehouses && w.warehouses[n].state != Suspended {
      RunningNotNegative(w, n);
      hide Base;
      BaseSuspend(w, n);
    }
  }

  lemma RunningNotNegative(w: World, n: string)
    requires Base(w) && n in w.warehouses
    ensures w.warehouses[n].running >= 0 && w.warehouses[n].queued >= 0
  {
    assert Sound(w, n);
  }

  lemma AlterKeeps(w: World, name: string, s: Settings, saved: bool)
    requires Inv(w)
    ensures Inv(AlterStep(w, name, s, saved).0)
  {
    hide Base, Admit;
    var n, size := Name(name), SizeName(s.size);
    if n in w.warehouses && ValidSize(size) && s.autoSuspend >= 0 {
      var it := w.warehouses[n].(size := size, autoResume := s.autoResume, autoSuspend := s.autoSuspend);
      BaseItem(w, n, it);
      AdmitSettles(Put(w, n, it), n);
    }
  }

  lemma LifeCycleKeeps(w: World, e: Event)
    requires Inv(w) && (e.Create? || e.Resume? || e.Drop?)
    ensures Inv(Step(w, e))
  {
    hide Base, ValidSize, Capacity, Name, SizeName;
    var n := Name(e.name);
    match e
    case Create(name, s, saved) =>
      if n !in w.warehouses {
        BaseCreate(w, n, Item(Suspended, SizeName(s.size), s.autoResume, s.autoSuspend, 0, 0, None, []));
      }
    case Resume(name, now, saved) =>
      if n in w.warehouses { BaseItem(w, n, Resumed(w.warehouses[n], now)); }
    case Drop(name, saved) =>
      if n in w.warehouses && w.warehouses[n].running <= 0 && w.warehouses[n].queued <= 0 { BaseDrop(w, n); }
  }

  lemma CollectKeeps(w: World, t: nat)
    requires Inv(w)
    ensures Inv(CollectStep(w, t).0)
  {
    hide Base;
    if t in w.tickets {
      if w.tickets[t].phase == Admitted {
        BasePhase(w, t, Leased);
      } else if w.tickets[t].phase == Rejected {
        BasePhase(w, t, Ended);
      }
    }
  }

  lemma ReleaseKeeps(w: World, t: nat, now: int)
    requires Inv(w)
    ensures Inv(ReleaseStep(w, t, now).0)
  {
    hide Base, Freed;
    if t in w.tickets && w.tickets[t].phase == Leased { FreedSettles(w, t, now); }
  }

  lemma AutoSuspendKeeps(w: World, names: set<string>, now: int)
    requires Inv(w)
    ensures Inv(AutoSuspendStep(w, names, now))
  {
    BaseAutoSuspend(w, names, now);
    forall n | n in w.warehouses
      ensures Settled(Rested(w.warehouses[n], now))
    {
      assert Sound(w, n);
    }
    hide Base;
  }

  /** Every step keeps the invariant. */
  lemma StepKeeps(w: World, e: Event)
    requires Inv(w)
    ensures Inv(Step(w, e))
  {
    hide Inv, Base;
    match e
    case Create(name, s, saved) => LifeCycleKeeps(w, e);
    case Resume(name, now, saved) => LifeCycleKeeps(w, e);
    case Drop(name, saved) => LifeCycleKeeps(w, e);
    case Suspend(name, saved) => SuspendKeeps(w, name, saved);
    case Alter(name, s, saved) => AlterKeeps(w, name, s, saved);
    case Acquire(name, now, saved) => AcquireKeeps(w, name, now, saved);
    case Collect(t) => CollectKeeps(w, t);
    case Cancel(t, now) => CancelKeeps(w, t, now);
    case Release(t, now) => ReleaseKeeps(w, t, now);
    case AutoSuspend(names, now) => AutoSuspendKeeps(w, names, now);
  }

  lemma StartKeeps(records: map<string, Settings>)
    ensures Inv(Start(records))
  {
    var w := Start(records);
    assert forall n :: Holders(w.tickets, n) == {};
  }

  /** Every reachable state is as the invariant says. */
  lemma {:induction false} RunKeeps(w: World, es: seq<Event>)
    requires Inv(w)
    ensures Inv(Run(w, es))
    decreases |es|
  {
    hide Inv, Step;
    if es != [] {
      StepKeeps(w, es[0]);
      RunKeeps(Step(w, es[0]), es[1..]);
    }
  }
}
