/** Append-only streams and the statements that consume them
    (pkg/query/stream_processor.go, pkg/metadata/stream_repository.go).

    A consuming statement works in four kinds of steps that other statements can come between:
    it reads the stored offsets, freezes the high-water mark of each source table, runs, and
    advances the stored offsets one by one. */
module Streams {

  // ------------------------------------------------------------- state

  /** Rows that are present, and a bound above every row number given out so far. */
  datatype Table = Table(rows: set<nat>, next: nat)

  datatype Stream = Stream(source: string, offset: int)

  /** A stream as one statement saw it in the catalog. */
  datatype Seen = Seen(id: nat, source: string, offset: int)

  /** A statement consumes the rows after `from` up to and including `upTo`. */
  datatype Consumption = Consumption(id: nat, from: int, upTo: int)

  /** What a successful statement, number `job`, read of a stream. */
  datatype Window = Window(job: nat, id: nat, source: string, from: int, upTo: int, rows: set<nat>)

  datatype Job =
    | Freezing(pending: seq<Seen>, frozen: seq<(Seen, Consumption)>)
    | Advancing(left: seq<Consumption>)
    | Finished
    | Broken

  /** `starts` remembers the first offset of every stream ever made; `windows` is the log of
      what was consumed. */
  datatype World = World(
    tables: map<string, Table>, streams: map<nat, Stream>, starts: map<nat, int>,
    jobs: map<nat, Job>, windows: seq<Window>)

  // ------------------------------------------------------------- the pieces of a statement

  /** The largest row number below n, or -1. */
  function MaxRow(rows: set<nat>, n: nat): (m: int)
    ensures -1 <= m < n
    ensures forall r :: r in rows && r < n ==> r <= m
    ensures m >= 0 ==> m in rows
  {
    if n == 0 then -1 else if n - 1 in rows then n - 1 else MaxRow(rows, n - 1)
  }

  function HighWater(t: Table): int { MaxRow(t.rows, t.next) }

  function Freeze(s: Seen, tables: map<string, Table>): Consumption
    requires s.source in tables
  {
    Consumption(s.id, s.offset, HighWater(tables[s.source]))
  }

  function InWindow(rows: set<nat>, from: int, upTo: int): set<nat> {
    set r | r in rows && from < r <= upTo
  }

  function Read(j: nat, s: Seen, c: Consumption, tables: map<string, Table>): Window
    requires s.source in tables
  {
    Window(j, c.id, s.source, c.from, c.upTo, InWindow(tables[s.source].rows, c.from, c.upTo))
  }

  /** Offsets only move forward. */
  function Update(streams: map<nat, Stream>, id: nat, offset: int): map<nat, Stream> {
    if id in streams && streams[id].offset < offset then streams[id := streams[id].(offset := offset)] else streams
  }

  // ------------------------------------------------------------- steps

  datatype Event =
    | Insert(table: string, row: nat)
    | Delete(table: string, row: nat)
    | CreateStream(id: nat, source: string, offset: int)
    | DropStream(id: nat)
    | Begin(job: nat, ids: seq<nat>)
    | FreezeNext(job: nat)
    | Execute(job: nat, ok: bool)
    | AdvanceNext(job: nat, ok: bool)

  function Look(streams: map<nat, Stream>, ids: seq<nat>): seq<Seen> {
    if ids == [] then []
    else (if ids[0] in streams then [Seen(ids[0], streams[ids[0]].source, streams[ids[0]].offset)] else [])
         + Look(streams, ids[1..])
  }

  function Consumptions(frozen: seq<(Seen, Consumption)>): seq<Consumption> {
    if frozen == [] then [] else [frozen[0].1] + Consumptions(frozen[1..])
  }

  predicate AllPresent(frozen: seq<(Seen, Consumption)>, tables: map<string, Table>) {
    forall k :: 0 <= k < |frozen| ==> frozen[k].0.source in tables
  }

  /** The log after a statement that consumed these. */
  function Logged(windows: seq<Window>, j: nat, frozen: seq<(Seen, Consumption)>, tables: map<string, Table>): seq<Window>
    requires AllPresent(frozen, tables)
    decreases |frozen|
  {
    if frozen == [] then windows
    else Logged(windows + [Read(j, frozen[0].0, frozen[0].1, tables)], j, frozen[1..], tables)
  }

  function SetJob(w: World, j: nat, job: Job): World { w.(jobs := w.jobs[j := job]) }

  function FreezeStep(w: World, j: nat): World {
    if j !in w.jobs || !w.jobs[j].Freezing? || w.jobs[j].pending == [] then w
    else
      var job := w.jobs[j];
      var s := job.pending[0];
      if s.source !in w.tables then SetJob(w, j, Broken)
      else SetJob(w, j, Freezing(job.pending[1..], job.frozen + [(s, Freeze(s, w.tables))]))
  }

  function ExecuteStep(w: World, j: nat, ok: bool): World {
    if j !in w.jobs || !w.jobs[j].Freezing? || w.jobs[j].pending != [] then w
    else
      var frozen := w.jobs[j].frozen;
      if !ok || !AllPresent(frozen, w.tables) then SetJob(w, j, Broken)
      else SetJob(w, j, Advancing(Consumptions(frozen))).(windows := Logged(w.windows, j, frozen, w.tables))
  }

  /** One turn of the loop that advances the offsets. A stream that is gone is an error, and the
      offsets after it stay as they are. */
  function AdvanceStep(w: World, j: nat, ok: bool): World {
    if j !in w.jobs || !w.jobs[j].Advancing? then w
    else
      var left := w.jobs[j].left;
      if left == [] then SetJob(w, j, Finished)
      else
        var c := left[0];
        if c.upTo <= c.from then SetJob(w, j, Advancing(left[1..]))
        else if !ok || c.id !in w.streams then SetJob(w, j, Broken)
        else SetJob(w, j, Advancing(left[1..])).(streams := Update(w.streams, c.id, c.upTo))
  }

  function Step(w: World, e: Event): World {
    match e
    case Insert(t, r) =>
      if t !in w.tables || r < w.tables[t].next then w
      else w.(tables := w.tables[t := Table(w.tables[t].rows + {r}, r + 1)])
    case Delete(t, r) =>
      if t !in w.tables then w else w.(tables := w.tables[t := w.tables[t].(rows := w.tables[t].rows - {r})])
    case CreateStream(id, source, offset) =>
      if id in w.starts || source !in w.tables || offset >= w.tables[source].next then w
      else w.(streams := w.streams[id := Stream(source, offset)], starts := w.starts[id := offset])
    case DropStream(id) => w.(streams := w.streams - {id})
    case Begin(j, ids) => if j in w.jobs then w else SetJob(w, j, Freezing(Look(w.streams, ids), []))
    case FreezeNext(j) => FreezeStep(w, j)
    case Execute(j, ok) => ExecuteStep(w, j, ok)
    case AdvanceNext(j, ok) => AdvanceStep(w, j, ok)
  }

  function Run(w: World, es: seq<Event>): World
    decreases |es|
  {
    if es == [] then w else Run(Step(w, es[0]), es[1..])
  }

  // ------------------------------------------------------------- the program's loops

  /** The catalog and the loops of a statement; between two turns another statement may run. */
  class StreamProcessor {
    var tables: map<string, Table>
    var streams: map<nat, Stream>

    constructor (tables: map<string, Table>, streams: map<nat, Stream>)
      ensures this.tables == tables && this.streams == streams
    {
      this.tables := tables;
      this.streams := streams;
    }

    /** The loop over the streams a consuming statement mentions; `names` is the catalog's
        listing and `mentioned` tells which of them the text refers to. */
    method RewriteForConsumption(listing: seq<Seen>, mentioned: set<nat>) returns (ok: bool, frozen: seq<(Seen, Consumption)>)
      ensures ok <==> forall k :: 0 <= k < |listing| && listing[k].id in mentioned ==> listing[k].source in tables
      ensures ok ==> frozen == FreezeAll(Mentioned(listing, mentioned), tables)
    {
      frozen := [];
      var i := 0;
      while i < |listing|
        invariant 0 <= i <= |listing|
        invariant forall k :: 0 <= k < i && listing[k].id in mentioned ==> listing[k].source in tables
        invariant frozen + FreezeAll(Mentioned(listing[i..], mentioned), tables)
               == FreezeAll(Mentioned(listing, mentioned), tables)
      {
        var s := listing[i];
        assert listing[i..][1..] == listing[i + 1..];
        if s.id in mentioned {
          if s.source !in tables { return false, []; }
          ghost var rest := FreezeAll(Mentioned(listing[i + 1..], mentioned), tables);
          assert ([s] + Mentioned(listing[i + 1..], mentioned))[1..] == Mentioned(listing[i + 1..], mentioned);
          assert frozen + ([(s, Freeze(s, tables))] + rest) == (frozen + [(s, Freeze(s, tables))]) + rest;
          frozen := frozen + [(s, Freeze(s, tables))];
        }
        i := i + 1;
      }
      assert frozen + [] == frozen;
      return true, frozen;
    }

    method UpdateStreamOffset(id: nat, offset: int) returns (ok: bool)
      modifies this
      ensures tables == old(tables) && streams == Update(old(streams), id, offset) && (ok <==> id in streams)
    {
      if id in streams && streams[id].offset < offset {
        streams := streams[id := streams[id].(offset := offset)];
        return true;
      }
      return id in streams;
    }

    method AdvanceOffsets(consumptions: seq<Consumption>) returns (ok: bool)
      modifies this
      ensures tables == old(tables)
      ensures (streams, ok) == AdvanceAll(old(streams), consumptions)
    {
      var i := 0;
      while i < |consumptions|
        invariant 0 <= i <= |consumptions| && tables == old(tables)
        invariant AdvanceAll(streams, consumptions[i..]) == AdvanceAll(old(streams), consumptions)
      {
        var c := consumptions[i];
        assert consumptions[i..][1..] == consumptions[i + 1..];
        if c.upTo > c.from {
          var found := UpdateStreamOffset(c.id, c.upTo);
          if !found { return false; }
        }
        i := i + 1;
      }
      return true;
    }
  }

  function Mentioned(listing: seq<Seen>, ids: set<nat>): seq<Seen> {
    if listing == [] then []
    else if listing[0].id in ids then [listing[0]] + Mentioned(listing[1..], ids)
    else Mentioned(listing[1..], ids)
  }

  function FreezeAll(seen: seq<Seen>, tables: map<string, Table>): seq<(Seen, Consumption)> {
    if seen == [] || seen[0].source !in tables then []
    else [(seen[0], Freeze(seen[0], tables))] + FreezeAll(seen[1..], tables)
  }

  function AdvanceAll(streams: map<nat, Stream>, left: seq<Consumption>): (map<nat, Stream>, bool)
    decreases |left|
  {
    if left == [] then (streams, true)
    else if left[0].upTo <= left[0].from then AdvanceAll(streams, left[1..])
    else if left[0].id !in streams then (streams, false)
    else AdvanceAll(Update(streams, left[0].id, left[0].upTo), left[1..])
  }

  /** Undisturbed, the freezing steps are the program's loop over the streams. */
  lemma {:induction false} FreezesAre(w: World, j: nat, n: nat)
    requires j in w.jobs && w.jobs[j].Freezing? && n == |w.jobs[j].pending|
    requires forall k :: 0 <= k < n ==> w.jobs[j].pending[k].source in w.tables
    ensures Run(w, seq(n, i => FreezeNext(j)))
         == SetJob(w, j, Freezing([], w.jobs[j].frozen + FreezeAll(w.jobs[j].pending, w.tables)))
    decreases n
  {
    var job := w.jobs[j];
    if n == 0 {
      assert job.frozen + [] == job.frozen;
      assert w.jobs[j := job] == w.jobs;
    } else {
      var v := FreezeStep(w, j);
      var es := seq(n, i => FreezeNext(j));
      assert es[1..] == seq(n - 1, i => FreezeNext(j));
      FreezesAre(v, j, n - 1);
      var s := job.pending[0];
      var rest := FreezeAll(job.pending[1..], w.tables);
      assert (job.frozen + [(s, Freeze(s, w.tables))]) + rest == job.frozen + ([(s, Freeze(s, w.tables))] + rest);
    }
  }

  /** Undisturbed, the advancing steps are the program's loop over the consumptions. */
  lemma {:induction false} AdvancesAre(w: World, j: nat, n: nat)
    requires j in w.jobs && w.jobs[j].Advancing? && n == |w.jobs[j].left|
    ensures var v := Run(w, seq(n + 1, i => AdvanceNext(j, true)));
            var r := AdvanceAll(w.streams, w.jobs[j].left);
            v.streams == r.0 && j in v.jobs && v.jobs[j] == if r.1 then Finished else Broken
    decreases n
  {
    var es := seq(n + 1, i => AdvanceNext(j, true));
    var v := AdvanceStep(w, j, true);
    assert es[0] == AdvanceNext(j, true) && es[1..] == seq(n, i => AdvanceNext(j, true));
    assert Run(w, es) == Run(v, es[1..]);
    if n == 0 {
      assert es[1..] == [];
    } else if v.jobs[j].Advancing? {
      AdvancesAre(v, j, n - 1);
    } else {
      BrokenStays(v, j, es[1..]);
    }
  }

  lemma {:induction false} BrokenStays(w: World, j: nat, es: seq<Event>)
    requires j in w.jobs && w.jobs[j] == Broken && forall k :: 0 <= k < |es| ==> es[k] == AdvanceNext(j, true)
    ensures Run(w, es) == w
    decreases |es|
  {
    if es != [] { BrokenStays(w, j, es[1..]); }
  }
}
