/** Warehouses and the admission of statements to them (pkg/warehouse/manager.go).

    Every section the program runs under its lock is a method of Manager, proved equal to a
    step of a state machine; what holds over all runs is proved about the machine. A statement
    that asks for a warehouse is a ticket: it waits in a queue, is admitted, holds a lease and
    ends. Tickets are numbered in the order of arrival. */
module Warehouses {
  import opened Text

  datatype Option<T> = None | Some(value: T)

  datatype State = Suspended | Resuming | Active | Suspending

  /** A warehouse and its queue of waiting tickets. */
  datatype Item = Item(
    state: State, size: string, autoResume: bool, autoSuspend: int,
    running: int, queued: int, lastActivity: Option<int>, queue: seq<nat>)

  /** Waiting: in the queue. Admitted: let in, the statement has not noticed yet. Rejected: thrown
      out by a suspend. Leased: running. Ended: released, cancelled or told of its rejection. */
  datatype Phase = Waiting | Admitted | Rejected | Leased | Ended

  datatype Ticket = Ticket(warehouse: string, size: string, phase: Phase)

  datatype Admission = Admission(warehouse: string, ticket: nat)

  /** Everything the manager holds, and the log of all admissions so far. */
  datatype World = World(
    warehouses: map<string, Item>, tickets: map<nat, Ticket>, next: nat, log: seq<Admission>)

  datatype Settings = Settings(size: string, autoResume: bool, autoSuspend: int)

  datatype Fault =
    | NoName | Exists | BadSize | BadAutoSuspend | NotFound | CannotResume | InUse
    | ResumeDisabled | NotAccepting | NotSaved | WasSuspended | Cancelled

  datatype Reply = Fine | Failed(fault: Fault) | Granted(ticket: nat) | Queued(ticket: nat)

  // ------------------------------------------------------------- sizes and names

  const SIZES: seq<string> := ["X-SMALL", "SMALL", "MEDIUM", "LARGE", "X-LARGE",
                               "2X-LARGE", "3X-LARGE", "4X-LARGE", "5X-LARGE", "6X-LARGE"]

  function PowerOfTwo(n: nat): (r: nat)
    ensures r >= 1
  {
    if n == 0 then 1 else 2 * PowerOfTwo(n - 1)
  }

  /** The position of the size in the list from i on, or the length of the list. */
  function SizeAt(size: string, i: nat): (k: nat)
    requires i <= |SIZES|
    ensures i <= k <= |SIZES|
    decreases |SIZES| - i
  {
    if i == |SIZES| || SIZES[i] == size then i else SizeAt(size, i + 1)
  }

  /** How many statements a warehouse runs at once: every size doubles the one before. */
  function Capacity(size: string): (c: nat)
    ensures c >= 1
  {
    var k := SizeAt(size, 0);
    if k < |SIZES| then PowerOfTwo(k) else 1
  }

  predicate ValidSize(size: string) { SizeAt(size, 0) < |SIZES| }

  function Name(v: string): string { Upper(Trim(v)) }

  function SizeName(v: string): string {
    if Upper(Trim(v)) == "" then "X-SMALL" else Upper(Trim(v))
  }

  method CapacityOf(size: string) returns (c: nat)
    ensures c == Capacity(size)
  {
    var i, power := 0, 1;
    while i < |SIZES|
      invariant 0 <= i <= |SIZES| && power == PowerOfTwo(i)
      invariant SizeAt(size, 0) == SizeAt(size, i)
    {
      if SIZES[i] == size { return power; }
      i, power := i + 1, 2 * power;
    }
    return 1;
  }

  // ------------------------------------------------------------- the steps on one warehouse

  function Put(w: World, n: string, it: Item): World {
    w.(warehouses := w.warehouses[n := it])
  }

  /** A waiter can be let in. */
  predicate CanAdmit(it: Item) {
    it.state == Active && it.running < Capacity(it.size) && it.queue != []
  }

  function AdmitOne(w: World, n: string): World
    requires n in w.warehouses && w.warehouses[n].queue != []
  {
    var it := w.warehouses[n];
    var t := it.queue[0];
    World(
      w.warehouses[n := it.(queue := it.queue[1..], queued := it.queued - 1, running := it.running + 1)],
      w.tickets[t := Ticket(n, it.size, Admitted)], w.next, w.log + [Admission(n, t)])
  }

  /** Waiters are let in, first come first served, as long as there is room. */
  function Admit(w: World, n: string): World
    requires n in w.warehouses
    decreases |w.warehouses[n].queue|
  {
    if CanAdmit(w.warehouses[n]) then Admit(AdmitOne(w, n), n) else w
  }

  function Freed(w: World, n: string, now: int): World
    requires n in w.warehouses
  {
    var it := w.warehouses[n].(running := w.warehouses[n].running - 1, lastActivity := Some(now));
    if it.state == Suspending && it.running == 0 then Put(w, n, it.(state := Suspended)) else Admit(Put(w, n, it), n)
  }

  function Resumed(it: Item, now: int): Item { it.(state := Active, lastActivity := Some(now)) }

  /** Every waiter of the queue is told of the suspension. */
  function Rejections(ts: map<nat, Ticket>, queue: seq<nat>, n: string): map<nat, Ticket>
    decreases |queue|
  {
    if queue == [] then ts
    else Rejections(ts[queue[0] := Ticket(n, "", Rejected)], queue[1..], n)
  }

  function SuspendedItem(it: Item): Item {
    it.(state := if it.running == 0 then Suspended else Suspending, queue := [], queued := 0)
  }

  // ------------------------------------------------------------- events

  /** `saved` says whether the metadata store accepts the record; `now` is the clock. */
  datatype Event =
    | Create(name: string, settings: Settings, saved: bool)
    | Resume(name: string, now: int, saved: bool)
    | Suspend(name: string, saved: bool)
    | Alter(name: string, settings: Settings, saved: bool)
    | Drop(name: string, saved: bool)
    | Acquire(name: string, now: int, saved: bool)
    | Collect(ticket: nat)
    | Cancel(ticket: nat, now: int)
    | Release(ticket: nat, now: int)
    | AutoSuspend(names: set<string>, now: int)

  function Saved(saved: bool): Reply { if saved then Fine else Failed(NotSaved) }

  function CreateStep(w: World, name: string, s: Settings, saved: bool): (World, Reply) {
    var n, size := Name(name), SizeName(s.size);
    if n == "" then (w, Failed(NoName))
    else if n in w.warehouses then (w, Failed(Exists))
    else if !ValidSize(size) then (w, Failed(BadSize))
    else if s.autoSuspend < 0 then (w, Failed(BadAutoSuspend))
    else if !saved then (w, Failed(NotSaved))
    else (Put(w, n, Item(Suspended, size, s.autoResume, s.autoSuspend, 0, 0, None, [])), Fine)
  }

  function ResumeStep(w: World, name: string, now: int, saved: bool): (World, Reply) {
    var n := Name(name);
    if n !in w.warehouses then (w, Failed(NotFound))
    else if w.warehouses[n].state == Active then (w, Fine)
    else if w.warehouses[n].state != Suspended then (w, Failed(CannotResume))
    else (Put(w, n, Resumed(w.warehouses[n], now)), Saved(saved))
  }

  function SuspendStep(w: World, name: string, saved: bool): (World, Reply) {
    var n := Name(name);
    if n !in w.warehouses then (w, Failed(NotFound))
    else if w.warehouses[n].state == Suspended then (w, Fine)
    else
      var it := w.warehouses[n];
      (Put(w, n, SuspendedItem(it)).(tickets := Rejections(w.tickets, it.queue, n)), Saved(saved))
  }

  function AlterStep(w: World, name: string, s: Settings, saved: bool): (World, Reply) {
    var n, size := Name(name), SizeName(s.size);
    if n !in w.warehouses then (w, Failed(NotFound))
    else if !ValidSize(size) then (w, Failed(BadSize))
    else if s.autoSuspend < 0 then (w, Failed(BadAutoSuspend))
    else
      var it := w.warehouses[n].(size := size, autoResume := s.autoResume, autoSuspend := s.autoSuspend);
      (Admit(Put(w, n, it), n), Saved(saved))
  }

  function DropStep(w: World, name: string, saved: bool): (World, Reply) {
    var n := Name(name);
    if n !in w.warehouses then (w, Failed(NotFound))
    else if w.warehouses[n].running > 0 || w.warehouses[n].queued > 0 then (w, Failed(InUse))
    else if !saved then (w, Failed(NotSaved))
    else (w.(warehouses := w.warehouses - {n}), Fine)
  }

  function AcquireStep(w: World, name: string, now: int, saved: bool): (World, Reply) {
    var n := Name(name);
    if n !in w.warehouses then (w, Failed(NotFound))
    else if w.warehouses[n].state == Suspended && !w.warehouses[n].autoResume then (w, Failed(ResumeDisabled))
    else if w.warehouses[n].state == Suspended then
      var v := Put(w, n, Resumed(w.warehouses[n], now));
      if saved then Enter(v, n) else (v, Failed(NotSaved))
    else if w.warehouses[n].state != Active then (w, Failed(NotAccepting))
    else Enter(w, n)
  }

  /** A newcomer runs at once when nobody waits and there is room, and joins the queue otherwise. */
  function Enter(w: World, n: string): (World, Reply)
    requires n in w.warehouses
  {
    var it, t := w.warehouses[n], w.next;
    if it.queue == [] && it.running < Capacity(it.size) then
      (World(w.warehouses[n := it.(running := it.running + 1)], w.tickets[t := Ticket(n, it.size, Leased)],
             t + 1, w.log + [Admission(n, t)]),
       Granted(t))
    else
      (World(w.warehouses[n := it.(queue := it.queue + [t], queued := it.queued + 1)],
             w.tickets[t := Ticket(n, "", Waiting)], t + 1, w.log),
       Queued(t))
  }

  function SetPhase(w: World, t: nat, p: Phase): World
    requires t in w.tickets
  {
    w.(tickets := w.tickets[t := w.tickets[t].(phase := p)])
  }

  /** The waiter finds its answer. */
  function CollectStep(w: World, t: nat): (World, Reply) {
    if t !in w.tickets then (w, Fine)
    else match w.tickets[t].phase
      case Admitted => (SetPhase(w, t, Leased), Granted(t))
      case Rejected => (SetPhase(w, t, Ended), Failed(WasSuspended))
      case _ => (w, Fine)
  }

  function IndexOf(queue: seq<nat>, t: nat): (i: nat)
    ensures i <= |queue| && (i < |queue| ==> queue[i] == t) && t !in queue[..i]
  {
    if queue == [] || queue[0] == t then 0 else
      var i := 1 + IndexOf(queue[1..], t);
      assert queue[..i] == [queue[0]] + queue[1..][..i - 1];
      i
  }

  /** The waiter's context is done: it leaves the queue, or gives back a slot it was let in to
      at the same moment. */
  function CancelStep(w: World, t: nat, now: int): (World, Reply) {
    if t !in w.tickets || w.tickets[t].phase == Leased || w.tickets[t].phase == Ended then (w, Fine)
    else
      var n, v := w.tickets[t].warehouse, SetPhase(w, t, Ended);
      if n !in w.warehouses then (v, Failed(Cancelled))
      else
        var it := w.warehouses[n];
        var i := IndexOf(it.queue, t);
        if i < |it.queue| then
          (Put(v, n, it.(queue := it.queue[..i] + it.queue[i + 1..], queued := it.queued - 1)), Failed(Cancelled))
        else if w.tickets[t].phase == Admitted && it.running > 0 then (Freed(v, n, now), Failed(Cancelled))
        else (v, Failed(Cancelled))
  }

  /** Giving a lease back counts once. */
  function ReleaseStep(w: World, t: nat, now: int): (World, Reply) {
    if t !in w.tickets || w.tickets[t].phase != Leased then (w, Fine)
    else
      var n, v := w.tickets[t].warehouse, SetPhase(w, t, Ended);
      if n !in w.warehouses || w.warehouses[n].running == 0 then (v, Fine) else (Freed(v, n, now), Fine)
  }

  predicate Idle(it: Item, now: int) {
    && it.state == Active && it.autoSuspend > 0 && it.running == 0 && it.queued == 0
    && it.lastActivity.Some? && now - it.lastActivity.value >= it.autoSuspend
  }

  function Rested(it: Item, now: int): Item { if Idle(it, now) then it.(state := Suspended) else it }

  /** Of the warehouses looked at, the idle ones are suspended. */
  function AutoSuspendStep(w: World, names: set<string>, now: int): World {
    w.(warehouses := map n | n in w.warehouses :: if n in names then Rested(w.warehouses[n], now) else w.warehouses[n])
  }

  function Step(w: World, e: Event): World {
    match e
    case Create(name, s, saved) => CreateStep(w, name, s, saved).0
    case Resume(name, now, saved) => ResumeStep(w, name, now, saved).0
    case Suspend(name, saved) => SuspendStep(w, name, saved).0
    case Alter(name, s, saved) => AlterStep(w, name, s, saved).0
    case Drop(name, saved) => DropStep(w, name, saved).0
    case Acquire(name, now, saved) => AcquireStep(w, name, now, saved).0
    case Collect(t) => CollectStep(w, t).0
    case Cancel(t, now) => CancelStep(w, t, now).0
    case Release(t, now) => ReleaseStep(w, t, now).0
    case AutoSuspend(names, now) => AutoSuspendStep(w, names, now)
  }

  function Run(w: World, es: seq<Event>): World
    decreases |es|
  {
    if es == [] then w else Run(Step(w, es[0]), es[1..])
  }

  // ------------------------------------------------------------- the program's methods

  class Manager {
    var warehouses: map<string, Item>
    var tickets: map<nat, Ticket>
    var next: nat
    ghost var log: seq<Admission>

    /** With the records of a metadata store, or none: every warehouse starts suspended. */
    constructor (records: map<string, Settings>)
      ensures Model() == Start(records)
    {
      warehouses := map n | n in records :: StartItem(records[n]);
      tickets := map[];
      next := 0;
      log := [];
    }

    ghost function Model(): World
      reads this
    {
      World(warehouses, tickets, next, log)
    }

    method CreateWarehouse(name: string, s: Settings, saved: bool) returns (r: Reply)
      modifies this
      ensures (Model(), r) == CreateStep(old(Model()), name, s, saved)
    {
      var n, size := Name(name), SizeName(s.size);
      if n == "" { return Failed(NoName); }
      if n in warehouses { return Failed(Exists); }
      if !ValidSize(size) { return Failed(BadSize); }
      if s.autoSuspend < 0 { return Failed(BadAutoSuspend); }
      if !saved { return Failed(NotSaved); }
      warehouses := warehouses[n := Item(Suspended, size, s.autoResume, s.autoSuspend, 0, 0, None, [])];
      return Fine;
    }

    method ResumeWarehouse(name: string, now: int, saved: bool) returns (r: Reply)
      modifies this
      ensures (Model(), r) == ResumeStep(old(Model()), name, now, saved)
    {
      var n := Name(name);
      if n !in warehouses { return Failed(NotFound); }
      if warehouses[n].state == Active { return Fine; }
      if warehouses[n].state != Suspended { return Failed(CannotResume); }
      SetResumed(n, now);
      return Saved(saved);
    }

    method SetResumed(n: string, now: int)
      requires n in warehouses
      modifies this
      ensures Model() == Put(old(Model()), n, Resumed(old(warehouses)[n], now))
    {
      warehouses := warehouses[n := warehouses[n].(state := Resuming)];
      warehouses := warehouses[n := warehouses[n].(lastActivity := Some(now))];
      warehouses := warehouses[n := warehouses[n].(state := Active)];
      assert warehouses == old(warehouses)[n := Resumed(old(warehouses)[n], now)];
    }

    method SuspendWarehouse(name: string, saved: bool) returns (r: Reply)
      modifies this
      ensures (Model(), r) == SuspendStep(old(Model()), name, saved)
    {
      var n := Name(name);
      if n !in warehouses { return Failed(NotFound); }
      if warehouses[n].state == Suspended { return Fine; }
      var it := warehouses[n].(state := Suspending);
      var i := 0;
      while i < |it.queue|
        invariant 0 <= i <= |it.queue|
        invariant warehouses == old(warehouses) && next == old(next) && log == old(log)
        invariant Rejections(tickets, it.queue[i..], n) == Rejections(old(tickets), it.queue, n)
      {
        tickets := tickets[it.queue[i] := Ticket(n, "", Rejected)];
        assert it.queue[i..][1..] == it.queue[i + 1..];
        i := i + 1;
      }
      it := it.(queue := [], queued := 0);
      if it.running == 0 {
        it := it.(state := Suspended);
      }
      warehouses := warehouses[n := it];
      return Saved(saved);
    }

    method AlterWarehouse(name: string, s: Settings, saved: bool) returns (r: Reply)
      modifies this
      ensures (Model(), r) == AlterStep(old(Model()), name, s, saved)
    {
      var n, size := Name(name), SizeName(s.size);
      if n !in warehouses { return Failed(NotFound); }
      if !ValidSize(size) { return Failed(BadSize); }
      if s.autoSuspend < 0 { return Failed(BadAutoSuspend); }
      warehouses := warehouses[n := warehouses[n].(size := size, autoResume := s.autoResume, autoSuspend := s.autoSuspend)];
      AdmitWaiters(n);
      return Saved(saved);
    }

    method DropWarehouse(name: string, saved: bool) returns (r: Reply)
      modifies this
      ensures (Model(), r) == DropStep(old(Model()), name, saved)
    {
      var n := Name(name);
      if n !in warehouses { return Failed(NotFound); }
      if warehouses[n].running > 0 || warehouses[n].queued > 0 { return Failed(InUse); }
      if !saved { return Failed(NotSaved); }
      warehouses := warehouses - {n};
      return Fine;
    }

    /** The first locked section of Acquire. */
    method AcquireSlot(name: string, now: int, saved: bool) returns (r: Reply)
      modifies this
      ensures (Model(), r) == AcquireStep(old(Model()), name, now, saved)
    {
      hide Capacity, Name;
      var n := Name(name);
      if n !in warehouses { return Failed(NotFound); }
      if warehouses[n].state == Suspended {
        if !warehouses[n].autoResume { return Failed(ResumeDisabled); }
        SetResumed(n, now);
        if !saved { return Failed(NotSaved); }
      }
      if warehouses[n].state != Active { return Failed(NotAccepting); }
      var it, t := warehouses[n], next;
      next := next + 1;
      var c := CapacityOf(it.size);
      if |it.queue| == 0 && it.running < c {
        warehouses := warehouses[n := it.(running := it.running + 1)];
        tickets := tickets[t := Ticket(n, it.size, Leased)];
        log := log + [Admission(n, t)];
        return Granted(t);
      }
      warehouses := warehouses[n := it.(queue := it.queue + [t], queued := it.queued + 1)];
      tickets := tickets[t := Ticket(n, "", Waiting)];
      return Queued(t);
    }

    method CollectAnswer(t: nat) returns (r: Reply)
      modifies this
      ensures (Model(), r) == CollectStep(old(Model()), t)
    {
      if t !in tickets { return Fine; }
      match tickets[t].phase
      case Admitted =>
        tickets := tickets[t := tickets[t].(phase := Leased)];
        return Granted(t);
      case Rejected =>
        tickets := tickets[t := tickets[t].(phase := Ended)];
        return Failed(WasSuspended);
      case _ => return Fine;
    }

    /** The second locked section of Acquire, when the context is done. */
    method CancelTicket(t: nat, now: int) returns (r: Reply)
      modifies this
      ensures (Model(), r) == CancelStep(old(Model()), t, now)
    {
      if t !in tickets || tickets[t].phase == Leased || tickets[t].phase == Ended { return Fine; }
      var w := tickets[t];
      tickets := tickets[t := w.(phase := Ended)];
      if w.warehouse in warehouses {
        var it := warehouses[w.warehouse];
        var i := 0;
        while i < |it.queue|
          invariant 0 <= i <= |it.queue|
          invariant IndexOf(it.queue, t) == i + IndexOf(it.queue[i..], t)
        {
          if it.queue[i] == t {
            warehouses := warehouses[w.warehouse := it.(queue := it.queue[..i] + it.queue[i + 1..], queued := it.queued - 1)];
            return Failed(Cancelled);
          }
          assert it.queue[i..][1..] == it.queue[i + 1..];
          i := i + 1;
        }
        if w.phase == Admitted && it.running > 0 {
          ReleaseLocked(w.warehouse, now);
        }
      }
      return Failed(Cancelled);
    }

    method ReleaseLease(t: nat, now: int)
      modifies this
      ensures Model() == ReleaseStep(old(Model()), t, now).0
    {
      if t in tickets && tickets[t].phase == Leased {
        var n := tickets[t].warehouse;
        tickets := tickets[t := tickets[t].(phase := Ended)];
        if n in warehouses && warehouses[n].running != 0 {
          ReleaseLocked(n, now);
        }
      }
    }

    method ReleaseLocked(n: string, now: int)
      requires n in warehouses
      modifies this
      ensures Model() == Freed(old(Model()), n, now)
    {
      var it := warehouses[n].(running := warehouses[n].running - 1, lastActivity := Some(now));
      if it.state == Suspending && it.running == 0 {
        warehouses := warehouses[n := it.(state := Suspended)];
      } else {
        warehouses := warehouses[n := it];
        AdmitWaiters(n);
      }
    }

    method AdmitWaiters(n: string)
      requires n in warehouses
      modifies this
      ensures Model() == Admit(old(Model()), n)
    {
      var room := CapacityOf(warehouses[n].size);
      while warehouses[n].state == Active && warehouses[n].running < room && |warehouses[n].queue| > 0
        invariant n in warehouses && warehouses[n].size == old(warehouses)[n].size
        invariant Admit(Model(), n) == Admit(old(Model()), n)
        decreases |warehouses[n].queue|
      {
        ghost var before := Model();
        var it := warehouses[n];
        var t := it.queue[0];
        warehouses := warehouses[n := it.(queue := it.queue[1..], queued := it.queued - 1, running := it.running + 1)];
        tickets := tickets[t := Ticket(n, it.size, Admitted)];
        log := log + [Admission(n, t)];
        assert Model() == AdmitOne(before, n);
      }
    }

    /** The periodic check: warehouses are looked at in any order, up to one that is suspended
        but cannot be saved. */
    method CheckAutoSuspend(now: int, unsaved: set<string>) returns (r: Reply, ghost seen: set<string>)
      modifies this
      ensures Model() == AutoSuspendStep(old(Model()), seen, now) && seen <= old(warehouses).Keys
      ensures r == Fine ==> seen == old(warehouses).Keys
      ensures r != Fine ==> r == Failed(NotSaved) && exists n :: n in seen && n in unsaved && Idle(old(warehouses)[n], now)
    {
      hide Idle;
      var left := warehouses.Keys;
      seen := {};
      while left != {}
        invariant left == old(warehouses).Keys - seen && seen <= old(warehouses).Keys
        invariant Model() == AutoSuspendStep(old(Model()), seen, now)
        decreases |left|
      {
        var n :| n in left;
        left, seen := left - {n}, seen + {n};
        assert warehouses[n] == old(warehouses)[n];
        if Idle(warehouses[n], now) {
          warehouses := warehouses[n := warehouses[n].(state := Suspended)];
          if n in unsaved { return Failed(NotSaved), seen; }
        }
      }
      return Fine, seen;
    }
  }

  // ------------------------------------------------------------- the start

  function StartItem(s: Settings): Item { Item(Suspended, s.size, s.autoResume, s.autoSuspend, 0, 0, None, []) }

  function Start(records: map<string, Settings>): World {
    World(map n | n in records :: StartItem(records[n]), map[], 0, [])
  }
}
