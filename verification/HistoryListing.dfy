/** The merged listing: a limited listing is the beginning of the unlimited one. */
module HistoryListing {
  import opened Histories

  // ------------------------------------------------------------- lists of statements

  predicate UniqueHandles(s: seq<Summary>) { forall i, j :: 0 <= i < j < |s| ==> s[i].handle != s[j].handle }

  /** No two creation times are equal. */
  predicate Spread(s: seq<Summary>) { forall i, j :: 0 <= i < j < |s| ==> s[i].createdOn != s[j].createdOn }

  /** Strictly newest first. */
  predicate Strict(s: seq<Summary>) { forall i, j :: 0 <= i < j < |s| ==> s[i].createdOn > s[j].createdOn }

  /** The statements in memory and the store's rows can be listed in one way only. */
  predicate Ready(mem: seq<Summary>, rows: seq<Summary>) {
    && UniqueHandles(mem) && UniqueHandles(rows) && Spread(mem) && Spread(rows)
    && (forall x, y :: x in mem && y in rows && y.handle !in Handles(mem) ==> x.createdOn != y.createdOn)
  }

  lemma {:induction false} InsertHas(x: Summary, l: seq<Summary>)
    ensures |Insert(x, l)| == |l| + 1 && forall y :: y in Insert(x, l) <==> y == x || y in l
    decreases |l|
  {
    if l != [] && x.createdOn <= l[0].createdOn {
      InsertHas(x, l[1..]);
      assert l == [l[0]] + l[1..];
    }
  }

  /** Sorting only reorders. */
  lemma {:induction false} NewestHas(s: seq<Summary>)
    ensures |Newest(s)| == |s| && forall y :: y in Newest(s) <==> y in s
    decreases |s|
  {
    if s != [] {
      NewestHas(s[1..]);
      InsertHas(s[0], Newest(s[1..]));
      assert s == [s[0]] + s[1..];
    }
  }

  lemma {:induction false} InsertStrict(x: Summary, l: seq<Summary>)
    requires Strict(l) && forall y :: y in l ==> y.createdOn != x.createdOn
    ensures Strict(Insert(x, l))
    decreases |l|
  {
    if l != [] && x.createdOn <= l[0].createdOn {
      InsertStrict(x, l[1..]);
      InsertHas(x, l[1..]);
      StrictCons(l[0], Insert(x, l[1..]));
    } else if l != [] {
      StrictCons(x, l);
    }
  }

  lemma StrictCons(x: Summary, l: seq<Summary>)
    requires Strict(l) && (forall y :: y in l ==> x.createdOn > y.createdOn)
    ensures Strict([x] + l)
  {
  }

  lemma {:induction false} NewestStrict(s: seq<Summary>)
    requires Spread(s)
    ensures Strict(Newest(s))
    decreases |s|
  {
    if s != [] {
      NewestStrict(s[1..]);
      NewestHas(s[1..]);
      InsertStrict(s[0], Newest(s[1..]));
    }
  }

  /** Sorting gives no handle twice that was there once. */
  lemma {:induction false} InsertUnique(x: Summary, l: seq<Summary>)
    requires UniqueHandles(l) && forall y :: y in l ==> y.handle != x.handle
    ensures UniqueHandles(Insert(x, l))
    decreases |l|
  {
    if l != [] && x.createdOn <= l[0].createdOn {
      InsertUnique(x, l[1..]);
      InsertHas(x, l[1..]);
      assert forall y :: y in l[1..] ==> y.handle != l[0].handle;
    }
  }

  lemma {:induction false} NewestUnique(s: seq<Summary>)
    requires UniqueHandles(s)
    ensures UniqueHandles(Newest(s))
    decreases |s|
  {
    if s != [] {
      NewestUnique(s[1..]);
      NewestHas(s[1..]);
      InsertUnique(s[0], Newest(s[1..]));
    }
  }

  lemma {:induction false} UnseenHas(rows: seq<Summary>, seen: set<string>)
    ensures forall y :: y in Unseen(rows, seen) <==> y in rows && y.handle !in seen
    decreases |rows|
  {
    if rows != [] {
      UnseenHas(rows[1..], seen);
      assert rows == [rows[0]] + rows[1..];
    }
  }

  lemma {:induction false} UnseenUnique(rows: seq<Summary>, seen: set<string>)
    requires UniqueHandles(rows)
    ensures UniqueHandles(Unseen(rows, seen))
    decreases |rows|
  {
    if rows != [] {
      UnseenUnique(rows[1..], seen);
      UnseenHas(rows[1..], seen);
      assert forall y :: y in rows[1..] ==> y.handle != rows[0].handle;
    }
  }

  lemma {:induction false} UnseenSpread(rows: seq<Summary>, seen: set<string>)
    requires Spread(rows)
    ensures Spread(Unseen(rows, seen))
    decreases |rows|
  {
    if rows != [] {
      UnseenSpread(rows[1..], seen);
      UnseenHas(rows[1..], seen);
      assert forall y :: y in rows[1..] ==> y.createdOn != rows[0].createdOn;
    }
  }

  // ------------------------------------------------------------- the merged list

  /** Everything the listing is made of, before sorting. */
  function Pool(mem: seq<Summary>, rows: seq<Summary>): seq<Summary> { mem + Unseen(rows, Handles(mem)) }

  lemma PoolHas(mem: seq<Summary>, rows: seq<Summary>)
    ensures forall y :: y in Pool(mem, rows) <==> y in mem || (y in rows && y.handle !in Handles(mem))
  {
    UnseenHas(rows, Handles(mem));
  }

  lemma PoolSpread(mem: seq<Summary>, rows: seq<Summary>)
    requires Ready(mem, rows)
    ensures Spread(Pool(mem, rows))
  {
    UnseenSpread(rows, Handles(mem));
    UnseenHas(rows, Handles(mem));
    hide Unseen, Handles;
  }

  lemma PoolUnique(mem: seq<Summary>, rows: seq<Summary>)
    requires UniqueHandles(mem) && UniqueHandles(rows)
    ensures UniqueHandles(Pool(mem, rows))
  {
    UnseenUnique(rows, Handles(mem));
    UnseenHas(rows, Handles(mem));
    hide Unseen;
  }

  /** Part of the rows, in any order, is as ready as all of them. */
  lemma ReadyPart(mem: seq<Summary>, rows: seq<Summary>, part: seq<Summary>)
    requires Ready(mem, rows) && Strict(part) && (forall y :: y in part ==> y in rows)
    ensures Ready(mem, part)
  {
    assert forall i, j :: 0 <= i < j < |part| ==> part[i].handle != part[j].handle by {
      forall i, j | 0 <= i < j < |part|
        ensures part[i].handle != part[j].handle
      {
        assert part[i] in part && part[j] in part;
        var a :| 0 <= a < |rows| && rows[a] == part[i];
        var b :| 0 <= b < |rows| && rows[b] == part[j];
      }
    }
    hide Handles;
  }

  /** Two strict lists with the same statements are the same list. */
  lemma {:induction false} StrictIsOne(a: seq<Summary>, b: seq<Summary>)
    requires Strict(a) && Strict(b) && forall x :: x in a <==> x in b
    ensures a == b
    decreases |a|
  {
    PrefixOfPart(a, b, |a|);
    if |b| > |a| { PrefixOfPart(b, a, |b|); }
  }

  /** A strict list that has the first n statements of another and nothing beyond it starts
      with them. */
  lemma {:induction false} PrefixOfPart(all: seq<Summary>, part: seq<Summary>, n: nat)
    requires Strict(all) && Strict(part) && n <= |all| && (forall x :: x in part ==> x in all)
    requires forall k :: 0 <= k < n ==> all[k] in part
    ensures |part| >= n && part[..n] == all[..n]
    decreases n
  {
    if n > 0 {
      SameHead(all, part);
      StrictTail(all);
      StrictTail(part);
      hide Strict;
      var a, p := all[1..], part[1..];
      TailIn(all, part);
      HeadsIn(all, part, n);
      PrefixOfPart(a, p, n - 1);
      FirstOf(all, n);
      FirstOf(part, n);
    }
  }

  lemma FirstOf(s: seq<Summary>, n: nat)
    requires 0 < n <= |s|
    ensures s[..n] == [s[0]] + s[1..][..n - 1]
  {
  }

  lemma SameHead(all: seq<Summary>, part: seq<Summary>)
    requires Strict(all) && Strict(part) && all != [] && all[0] in part && (forall x :: x in part ==> x in all)
    ensures part != [] && part[0] == all[0]
  {
    assert part[0] in all;
  }

  lemma StrictTail(s: seq<Summary>)
    requires Strict(s) && s != []
    ensures Strict(s[1..])
  {
  }

  lemma TailIn(all: seq<Summary>, part: seq<Summary>)
    requires all != [] && part != [] && Strict(part) && part[0] == all[0] && (forall x :: x in part ==> x in all)
    ensures forall x :: x in part[1..] ==> x in all[1..]
  {
    forall x | x in part[1..]
      ensures x in all[1..]
    {
      assert x in part && x in all && x.createdOn < part[0].createdOn;
      assert all == [all[0]] + all[1..];
    }
  }

  lemma HeadsIn(all: seq<Summary>, part: seq<Summary>, n: nat)
    requires 0 < n <= |all| && part != [] && Strict(all) && part[0] == all[0] && (forall k :: 0 <= k < n ==> all[k] in part)
    ensures forall k :: 0 <= k < n - 1 ==> all[1..][k] in part[1..]
  {
    forall k | 0 <= k < n - 1
      ensures all[1..][k] in part[1..]
    {
      assert all[k + 1] in part && all[k + 1].createdOn < all[0].createdOn;
      assert part == [part[0]] + part[1..];
    }
  }

  // ------------------------------------------------------------- counting

  function SetOf(s: seq<Summary>): set<Summary> { set x | x in s }

  lemma {:induction false} SizeOfSet(s: seq<Summary>)
    ensures |SetOf(s)| <= |s|
    ensures Strict(s) ==> |SetOf(s)| == |s|
    decreases |s|
  {
    if s != [] {
      SizeOfSet(s[1..]);
      assert SetOf(s) == {s[0]} + SetOf(s[1..]);
    }
  }

  lemma SubsetSize<T>(a: set<T>, b: set<T>)
    requires a <= b
    ensures |a| <= |b|
  {
    assert b == a + (b - a);
  }

  function HandlesOf(s: set<Summary>): set<string> { set x | x in s :: x.handle }

  lemma {:induction false} HandleCount(s: set<Summary>)
    requires forall x, y :: x in s && y in s && x.handle == y.handle ==> x == y
    ensures |HandlesOf(s)| == |s|
    decreases |s|
  {
    if s != {} {
      var x :| x in s;
      HandleCount(s - {x});
      assert HandlesOf(s) == HandlesOf(s - {x}) + {x.handle};
    }
  }

  lemma {:induction false} HandlesSize(mem: seq<Summary>)
    ensures |Handles(mem)| <= |mem|
    decreases |mem|
  {
    if mem != [] {
      HandlesSize(mem[1..]);
      assert mem == [mem[0]] + mem[1..];
      assert Handles(mem) == {mem[0].handle} + Handles(mem[1..]);
    }
  }

  /** Of the first j rows of a strict list, at most as many are hidden by memory as memory has
      statements, and the others come before the j-th in the whole listing. */
  lemma RankInStore(mem: seq<Summary>, sorted: seq<Summary>, all: seq<Summary>, j: nat, k: nat)
    requires Strict(sorted) && Strict(all) && UniqueHandles(sorted) && j < |sorted| && k < |all| && all[k] == sorted[j]
    requires forall x :: x in sorted && x.handle !in Handles(mem) ==> x in all
    ensures j <= k + |mem|
  {
    var before := SetOf(sorted[..j]);
    var hidden := set x | x in before && x.handle in Handles(mem);
    var shown := before - hidden;
    SizeOfSet(sorted[..j]);
    assert |before| == j && before == hidden + shown;
    hide UniqueHandles, Handles;
    assert |shown| <= k by {
      assert shown <= SetOf(all[..k]) by { ShownBefore(mem, sorted, all, j, k); }
      SubsetSize(shown, SetOf(all[..k]));
      SizeOfSet(all[..k]);
    }
    assert forall x :: x in hidden ==> x in sorted && x.handle in Handles(mem);
    HiddenCount(mem, sorted, hidden);
  }

  lemma HiddenCount(mem: seq<Summary>, sorted: seq<Summary>, hidden: set<Summary>)
    requires UniqueHandles(sorted) && forall x :: x in hidden ==> x in sorted && x.handle in Handles(mem)
    ensures |hidden| <= |mem|
  {
    SameHandle(sorted);
    HandleCount(hidden);
    assert HandlesOf(hidden) <= Handles(mem);
    SubsetSize(HandlesOf(hidden), Handles(mem));
    HandlesSize(mem);
  }

  lemma SameHandle(s: seq<Summary>)
    requires UniqueHandles(s)
    ensures forall x, y :: x in s && y in s && x.handle == y.handle ==> x == y
  {
    forall x, y | x in s && y in s && x.handle == y.handle
      ensures x == y
    {
      var i :| 0 <= i < |s| && s[i] == x;
      var j :| 0 <= j < |s| && s[j] == y;
    }
  }

  lemma ShownBefore(mem: seq<Summary>, sorted: seq<Summary>, all: seq<Summary>, j: nat, k: nat)
    requires Strict(sorted) && Strict(all) && j < |sorted| && k < |all| && all[k] == sorted[j]
    requires forall x :: x in sorted && x.handle !in Handles(mem) ==> x in all
    ensures forall x :: x in sorted[..j] && x.handle !in Handles(mem) ==> x in all[..k]
  {
    forall x | x in sorted[..j] && x.handle !in Handles(mem)
      ensures x in all[..k]
    {
      assert x in sorted && x.createdOn > sorted[j].createdOn;
      var i :| 0 <= i < |all| && all[i] == x;
      assert i < k;
      assert all[..k][i] == x;
    }
  }

  // ------------------------------------------------------------- the theorems

  lemma {:induction false} WithHandlesHas(rows: seq<Summary>)
    ensures forall x :: x in WithHandles(rows) <==> x in rows && x.handle != ""
  {
    if rows != [] {
      WithHandlesHas(rows[1..]);
      assert rows == [rows[0]] + rows[1..];
    }
  }

  /** The unlimited listing has every statement of memory and every row whose handle memory
      does not have, and nothing else. */
  lemma ListingHas(mem: seq<Summary>, rows: seq<Summary>)
    ensures forall x :: x in Listing(mem, rows, 0)
                        <==> x in mem || (x in rows && x.handle != "" && x.handle !in Handles(mem))
  {
    var r := WithHandles(rows);
    WithHandlesHas(rows);
    NewestHas(r);
    PoolHas(mem, Newest(r));
    NewestHas(Pool(mem, Newest(r)));
    hide Newest, WithHandles, Handles;
    assert Listing(mem, rows, 0) == Newest(Pool(mem, Newest(r)));
  }

  lemma TakePart(s: seq<Summary>, limit: int)
    requires UniqueHandles(s)
    ensures UniqueHandles(Take(s, limit)) && forall x :: x in Take(s, limit) ==> x in s
  {
  }

  /** No handle is listed twice, whatever the limit, and memory wins over the store. */
  lemma NoHandleTwice(mem: seq<Summary>, rows: seq<Summary>, limit: int)
    requires UniqueHandles(mem) && UniqueHandles(WithHandles(rows))
    ensures UniqueHandles(Listing(mem, rows, limit))
    ensures forall x :: x in Listing(mem, rows, limit) && x.handle in Handles(mem) ==> x in mem
  {
    var r := WithHandles(rows);
    var f := Fetched(rows, if limit > 0 then limit + |mem| else 0);
    NewestUnique(r);
    hide WithHandles, Newest, UniqueHandles, Unseen, Take, Handles;
    TakePart(Newest(r), if limit > 0 then limit + |mem| else 0);
    PoolUnique(mem, f);
    PoolHas(mem, f);
    NewestUnique(Pool(mem, f));
    NewestHas(Pool(mem, f));
    TakePart(Newest(Pool(mem, f)), limit);
  }

  lemma PartsSpread(mem: seq<Summary>, r: seq<Summary>, fetch: nat)
    requires Ready(mem, r)
    ensures Spread(Pool(mem, Newest(r))) && Spread(Pool(mem, Take(Newest(r), fetch)))
    ensures forall y :: y in Take(Newest(r), fetch) ==> y in Newest(r)
  {
    var sorted := Newest(r);
    NewestHas(r);
    NewestStrict(r);
    TakeStrict(sorted, fetch);
    ReadyPart(mem, r, sorted);
    ReadyPart(mem, r, Take(sorted, fetch));
    hide Ready, Take, Newest, Pool;
    PoolSpread(mem, sorted);
    PoolSpread(mem, Take(sorted, fetch));
  }

  /** Whatever part of the newest rows is fetched, as long as it has the rows that belong at
      the top of the whole listing, the limited listing is right. */
  lemma EnoughFetched(mem: seq<Summary>, r: seq<Summary>, limit: nat, fetch: nat)
    requires Ready(mem, r) && limit > 0
    requires var all := Newest(Pool(mem, Newest(r)));
             forall k :: 0 <= k < |all| && k < limit && all[k] !in mem ==> all[k] in Take(Newest(r), fetch)
    ensures Take(Newest(Pool(mem, Take(Newest(r), fetch))), limit) == Take(Newest(Pool(mem, Newest(r))), limit)
  {
    var sorted := Newest(r);
    var part := Take(sorted, fetch);
    var all, some := Newest(Pool(mem, sorted)), Newest(Pool(mem, part));
    PartsSpread(mem, r, fetch);
    hide Ready, Take, Newest, Pool, Spread, Handles;
    NewestStrict(Pool(mem, sorted));
    NewestStrict(Pool(mem, part));
    NewestHas(Pool(mem, sorted));
    NewestHas(Pool(mem, part));
    PoolHas(mem, sorted);
    PoolHas(mem, part);
    var n := if limit < |all| then limit else |all|;
    assert forall k :: 0 <= k < n ==> all[k] in some;
    PrefixOfPart(all, some, n);
    TakePrefix(all, some, limit);
  }

  lemma TakeStrict(s: seq<Summary>, n: int)
    requires Strict(s)
    ensures Strict(Take(s, n)) && forall x :: x in Take(s, n) ==> x in s
  {
  }

  lemma TakePrefix(all: seq<Summary>, some: seq<Summary>, limit: nat)
    requires limit > 0 && Strict(all) && Strict(some) && (forall x :: x in some ==> x in all)
    requires var n := if limit < |all| then limit else |all|; |some| >= n && some[..n] == all[..n]
    ensures Take(some, limit) == Take(all, limit)
  {
    SizeOfSet(all);
    SizeOfSet(some);
    SubsetSize(SetOf(some), SetOf(all));
    hide Strict;
    if limit >= |all| { assert some[..|all|] == some && all[..|all|] == all; }
  }

  /** A limited listing is the beginning of the unlimited one: fetching as many rows again as
      there are statements in memory is always enough. */
  lemma LimitedIsPrefix(mem: seq<Summary>, rows: seq<Summary>, limit: nat)
    requires Ready(mem, WithHandles(rows)) && limit > 0
    ensures Listing(mem, rows, limit) == Take(Listing(mem, rows, 0), limit)
  {
    hide Ready, Newest, Strict, UniqueHandles, Handles, Unseen, WithHandles;
    var r := WithHandles(rows);
    var sorted := Newest(r);
    var all := Newest(Pool(mem, sorted));
    SortedFacts(mem, r);
    forall k | 0 <= k < |all| && k < limit && all[k] !in mem
      ensures all[k] in Take(sorted, limit + |mem|)
    {
      hide Pool, Take;
      assert all[k] in sorted;
      var j :| 0 <= j < |sorted| && sorted[j] == all[k];
      RankInStore(mem, sorted, all, j, k);
      TakeAt(sorted, limit + |mem|, j);
    }
    EnoughFetched(mem, r, limit, limit + |mem|);
  }

  lemma TakeAt(s: seq<Summary>, n: nat, j: nat)
    requires j < |s| && j < n
    ensures s[j] in Take(s, n)
  {
    if 0 < n < |s| { assert s[..n][j] == s[j]; }
  }

  /** What is known of the sorted rows and of the whole listing. */
  lemma SortedFacts(mem: seq<Summary>, r: seq<Summary>)
    requires Ready(mem, r)
    ensures var sorted := Newest(r);
            var all := Newest(Pool(mem, sorted));
            && Strict(sorted) && UniqueHandles(sorted) && Strict(all)
            && (forall x :: x in all <==> x in mem || (x in sorted && x.handle !in Handles(mem)))
  {
    var sorted := Newest(r);
    NewestHas(r);
    NewestStrict(r);
    NewestUnique(r);
    ReadyPart(mem, r, sorted);
    PoolSpread(mem, sorted);
    hide Ready, Newest, Pool, Handles;
    NewestStrict(Pool(mem, sorted));
    NewestHas(Pool(mem, sorted));
    PoolHas(mem, sorted);
  }

  /** The order in which the map gives the statements makes no difference. */
  lemma OrderDoesNotMatter(mem: seq<Summary>, other: seq<Summary>, rows: seq<Summary>, limit: nat)
    requires Ready(mem, WithHandles(rows)) && Ready(other, WithHandles(rows)) && forall x :: x in mem <==> x in other
    ensures Listing(mem, rows, limit) == Listing(other, rows, limit)
  {
    var r := WithHandles(rows);
    SortedFacts(mem, r);
    SortedFacts(other, r);
    assert Handles(mem) == Handles(other);
    hide Ready, Newest, Pool, Strict, UniqueHandles, Handles;
    StrictIsOne(Newest(Pool(mem, Newest(r))), Newest(Pool(other, Newest(r))));
    UnlimitedIs(mem, rows);
    UnlimitedIs(other, rows);
    if limit > 0 {
      LimitedIsPrefix(mem, rows, limit);
      LimitedIsPrefix(other, rows, limit);
    }
  }

  lemma UnlimitedIs(mem: seq<Summary>, rows: seq<Summary>)
    ensures Listing(mem, rows, 0) == Newest(Pool(mem, Newest(WithHandles(rows))))
  {
  }

  // ------------------------------------------------------------- how much must be fetched

  /** The store has the same creation times as memory. */
  predicate TimesAgree(mem: seq<Summary>, rows: seq<Summary>) {
    forall x, y :: x in mem && y in rows && x.handle == y.handle ==> x.createdOn == y.createdOn
  }

  lemma TimesRank(mem: seq<Summary>, sorted: seq<Summary>, all: seq<Summary>, j: nat, k: nat)
    requires Strict(sorted) && Strict(all) && j < |sorted| && k < |all| && all[k] == sorted[j] && TimesAgree(mem, sorted)
    requires forall x :: x in all <==> x in mem || (x in sorted && x.handle !in Handles(mem))
    ensures j <= k
  {
    var times, above := Times(sorted[..j]), Times(all[..k]);
    TimesSize(sorted[..j]);
    TimesSize(all[..k]);
    assert times <= above by {
      forall x | x in sorted[..j]
        ensures x.createdOn in above
      {
        ShownAbove(mem, sorted, all, j, k, x);
      }
    }
    SubsetSize(times, above);
  }

  lemma ShownAbove(mem: seq<Summary>, sorted: seq<Summary>, all: seq<Summary>, j: nat, k: nat, x: Summary)
    requires Strict(sorted) && Strict(all) && j < |sorted| && k < |all| && all[k] == sorted[j] && TimesAgree(mem, sorted)
    requires x in sorted[..j] && forall z :: z in all <==> z in mem || (z in sorted && z.handle !in Handles(mem))
    ensures x.createdOn in Times(all[..k])
  {
    var y := ShownAs(mem, sorted, all, x);
    assert x in sorted && x.createdOn > sorted[j].createdOn;
    hide Handles, TimesAgree;
    var i :| 0 <= i < |all| && all[i] == y;
    assert i < k && all[..k][i] == y;
  }

  /** Each row shows up in the listing as itself or as memory's statement of the same time. */
  lemma ShownAs(mem: seq<Summary>, sorted: seq<Summary>, all: seq<Summary>, x: Summary) returns (y: Summary)
    requires x in sorted && TimesAgree(mem, sorted)
    requires forall z :: z in all <==> z in mem || (z in sorted && z.handle !in Handles(mem))
    ensures y in all && y.createdOn == x.createdOn
  {
    if x.handle in Handles(mem) { y :| y in mem && y.handle == x.handle; } else { y := x; }
  }

  function Times(s: seq<Summary>): set<int> { set x | x in s :: x.createdOn }

  lemma {:induction false} TimesSize(s: seq<Summary>)
    requires Strict(s)
    ensures |Times(s)| == |s|
    decreases |s|
  {
    if s != [] {
      TimesSize(s[1..]);
      assert s == [s[0]] + s[1..];
      assert Times(s) == {s[0].createdOn} + Times(s[1..]);
      assert s[0].createdOn !in Times(s[1..]);
    }
  }

  /** When the store keeps the creation times that memory has, fetching no more than the limit
      would do. */
  lemma PlainLimitIsEnough(mem: seq<Summary>, rows: seq<Summary>, limit: nat)
    requires Ready(mem, WithHandles(rows)) && TimesAgree(mem, WithHandles(rows)) && limit > 0
    ensures Listing(mem, rows, limit) == Take(Merged(mem, Fetched(rows, limit)), limit)
  {
    var r := WithHandles(rows);
    var sorted := Newest(r);
    var all := Newest(Pool(mem, sorted));
    SortedFacts(mem, r);
    NewestHas(r);
    assert TimesAgree(mem, sorted);
    forall k | 0 <= k < |all| && k < limit && all[k] !in mem
      ensures all[k] in Take(sorted, limit)
    {
      hide Ready, Newest, Pool, Strict, UniqueHandles, Handles, TimesAgree;
      assert all[k] in sorted;
      var j :| 0 <= j < |sorted| && sorted[j] == all[k];
      TimesRank(mem, sorted, all, j, k);
      TakeAt(sorted, limit, j);
    }
    hide Newest, Strict, Handles, TimesAgree, Ready;
    EnoughFetched(mem, r, limit, limit);
    LimitedIsPrefix(mem, rows, limit);
    UnlimitedIs(mem, rows);
  }
}
