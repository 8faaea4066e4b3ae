/** When the decomposed MERGE does what MERGE does. */
module MergeRefinement {
  import opened Merge

  // ------------------------------------------------------------- side conditions

  /** The text of the clause is put together as meant: either nothing is appended to ON, or neither
      part has OR at the top level. */
  predicate PlainMatched<T, S>(on: seq<(T, S) -> bool>, w: When<T, S>) {
    w.isMatched && !w.action.Insert? ==> w.condition == [] || (|on| == 1 && |w.condition| == 1)
  }

  predicate Plain<T, S>(stmt: Statement<T, S>) {
    forall i :: 0 <= i < |stmt.whens| ==>
      PlainMatched(stmt.on, stmt.whens[i]) && (Inserting(stmt.whens[i]) ==> |stmt.whens[i].sourceOnly| <= 1)
  }

  predicate On<T, S>(stmt: Statement<T, S>, t: T, s: S) { AnyOf(stmt.on, t, s) }

  /** Each target row matches at most one source row. */
  predicate OneSource<T, S>(stmt: Statement<T, S>, t: T, source: seq<S>) {
    forall i, j :: 0 <= i < j < |source| ==> !(On(stmt, t, source[i]) && On(stmt, t, source[j]))
  }

  /** The columns an UPDATE sets are read neither by ON nor by the condition of a clause. */
  ghost predicate SetUnread<T(!new), S(!new)>(stmt: Statement<T, S>) {
    forall i :: 0 <= i < |stmt.whens| && stmt.whens[i].action.Update? ==>
      forall t, s, s2 ::
        && On(stmt, stmt.whens[i].action.set_(t, s), s2) == On(stmt, t, s2)
        && forall j :: 0 <= j < |stmt.whens| ==>
             Chosen(stmt.whens[j], stmt.whens[i].action.set_(t, s), s2) == Chosen(stmt.whens[j], t, s2)
  }

  /** No clause applies to a pair that an earlier UPDATE applies to. */
  ghost predicate Exclusive<T(!new), S(!new)>(stmt: Statement<T, S>) {
    forall i, j, t, s :: 0 <= i < j < |stmt.whens| && stmt.whens[i].action.Update? && On(stmt, t, s) ==>
      !(Chosen(stmt.whens[i], t, s) && Chosen(stmt.whens[j], t, s))
  }

  predicate Inserting<T, S>(w: When<T, S>) { !w.isMatched && w.action.Insert? }

  predicate OneInsert<T, S>(whens: seq<When<T, S>>) {
    forall i, j :: 0 <= i < j < |whens| ==> !(Inserting(whens[i]) && Inserting(whens[j]))
  }

  ghost predicate Regular<T(!new), S(!new)>(stmt: Statement<T, S>, target: seq<T>, source: seq<S>) {
    && Plain(stmt) && SetUnread(stmt) && Exclusive(stmt) && OneInsert(stmt.whens)
    && forall t :: t in target ==> OneSource(stmt, t, source)
  }

  // ------------------------------------------------------------- texts put together

  lemma AnyOfOne<T, S>(a: seq<(T, S) -> bool>, t: T, s: S)
    requires |a| == 1
    ensures AnyOf(a, t, s) == a[0](t, s) && !AnyOf(a[1..], t, s) && !AnyOf(a[..0], t, s)
  {
    assert a[1..] == [] && a[..0] == [];
  }

  lemma WhereMeans<T, S>(on: seq<(T, S) -> bool>, condition: seq<(T, S) -> bool>, t: T, s: S)
    requires condition == [] || (|on| == 1 && |condition| == 1)
    ensures Where(on, condition, t, s) == (AnyOf(on, t, s) && (condition == [] || AnyOf(condition, t, s)))
  {
    if condition != [] {
      AnyOfOne(on, t, s);
      AnyOfOne(condition, t, s);
    }
  }

  // ------------------------------------------------------------- one target row

  lemma {:induction false} PartnerNone<T, S>(on: seq<(T, S) -> bool>, condition: seq<(T, S) -> bool>, t: T, source: seq<S>)
    requires forall i :: 0 <= i < |source| ==> !Where(on, condition, t, source[i])
    ensures Partner(on, condition, t, source) == |source|
  {
    if source != [] { PartnerNone(on, condition, t, source[1..]); }
  }

  lemma {:induction false} PartnerOnly<T, S>(on: seq<(T, S) -> bool>, condition: seq<(T, S) -> bool>, t: T, source: seq<S>, k: nat)
    requires k < |source| && Where(on, condition, t, source[k])
    requires forall i :: 0 <= i < k ==> !Where(on, condition, t, source[i])
    ensures Partner(on, condition, t, source) == k
    decreases |source|
  {
    if k > 0 { PartnerOnly(on, condition, t, source[1..], k - 1); }
  }

  lemma OneRow<T, S>(on: seq<(T, S) -> bool>, w: When<T, S>, t: T, source: seq<S>)
    ensures TableEffect(on, w, [t], source) == RowEffect(on, w, t, source)
  {
    assert [t][1..] == [];
  }

  /** No clause applies to the row: nothing happens to it. */
  lemma {:induction false} RowRests<T, S>(on: seq<(T, S) -> bool>, whens: seq<When<T, S>>, e: Effect<T>, t: T, source: seq<S>)
    requires e.rows == [t] && forall i :: 0 <= i < |whens| ==> PlainMatched(on, whens[i])
    requires forall i, k :: 0 <= i < |whens| && 0 <= k < |source| ==> !(AnyOf(on, t, source[k]) && Chosen(whens[i], t, source[k]))
    ensures MatchedPhase(on, whens, e, source) == e
    decreases |whens|
  {
    if whens != [] {
      RestsOnce(on, whens[0], t, source);
      RowRests(on, whens[1..], e, t, source);
    }
  }

  lemma RestsOnce<T, S>(on: seq<(T, S) -> bool>, w: When<T, S>, t: T, source: seq<S>)
    requires PlainMatched(on, w)
    requires forall k :: 0 <= k < |source| ==> !(AnyOf(on, t, source[k]) && Chosen(w, t, source[k]))
    ensures TableEffect(on, w, [t], source) == Effect([t], 0, 0)
  {
    OneRow(on, w, t, source);
    if w.isMatched && !w.action.Insert? {
      forall k | 0 <= k < |source|
        ensures !Where(on, w.condition, t, source[k])
      {
        WhereMeans(on, w.condition, t, source[k]);
      }
      PartnerNone(on, w.condition, t, source);
    }
  }

  lemma {:induction false} NothingLeft<T, S>(on: seq<(T, S) -> bool>, whens: seq<When<T, S>>, e: Effect<T>, source: seq<S>)
    requires e.rows == []
    ensures MatchedPhase(on, whens, e, source) == e
    decreases |whens|
  {
    if whens != [] { NothingLeft(on, whens[1..], e, source); }
  }

  /** The clause's statement on a row whose only match is source row k. */
  lemma ActsOnce<T, S>(on: seq<(T, S) -> bool>, w: When<T, S>, t: T, source: seq<S>, k: nat)
    requires PlainMatched(on, w) && k < |source|
    requires forall i :: 0 <= i < |source| ==> AnyOf(on, t, source[i]) == (i == k)
    ensures TableEffect(on, w, [t], source) == Acted([w], t, source[k])
  {
    if Chosen(w, t, source[k]) {
      OneRow(on, w, t, source);
      forall i | 0 <= i <= k
        ensures Where(on, w.condition, t, source[i]) == (i == k)
      {
        WhereMeans(on, w.condition, t, source[i]);
      }
      PartnerOnly(on, w.condition, t, source, k);
    } else {
      RestsOnce(on, w, t, source);
      assert [w][1..] == [];
    }
  }

  /** After an update of the row no later clause applies to it. */
  lemma UpdatedRests<T(!new), S(!new)>(stmt: Statement<T, S>, n: nat, t: T, source: seq<S>, k: nat)
    requires SetUnread(stmt) && Exclusive(stmt) && n < |stmt.whens| && k < |source|
    requires forall i :: 0 <= i < |source| ==> On(stmt, t, source[i]) == (i == k)
    requires Chosen(stmt.whens[n], t, source[k]) && stmt.whens[n].action.Update?
    ensures var u := stmt.whens[n].action.set_(t, source[k]);
            forall i, j :: n < i < |stmt.whens| && 0 <= j < |source| ==>
              !(On(stmt, u, source[j]) && Chosen(stmt.whens[i], u, source[j]))
  {
    var u := stmt.whens[n].action.set_(t, source[k]);
    forall i, j | n < i < |stmt.whens| && 0 <= j < |source|
      ensures !(On(stmt, u, source[j]) && Chosen(stmt.whens[i], u, source[j]))
    {
      assert On(stmt, u, source[j]) == On(stmt, t, source[j]);
      assert Chosen(stmt.whens[i], u, source[j]) == Chosen(stmt.whens[i], t, source[j]);
      if j == k { assert !(Chosen(stmt.whens[n], t, source[k]) && Chosen(stmt.whens[i], t, source[k])); }
    }
  }

  lemma UpdatedEnds<T(!new), S(!new)>(stmt: Statement<T, S>, n: nat, e: Effect<T>, t: T, source: seq<S>, k: nat)
    requires Plain(stmt) && SetUnread(stmt) && Exclusive(stmt) && n < |stmt.whens| && k < |source|
    requires forall i :: 0 <= i < |source| ==> On(stmt, t, source[i]) == (i == k)
    requires Chosen(stmt.whens[n], t, source[k]) && stmt.whens[n].action.Update? && e.rows == [stmt.whens[n].action.set_(t, source[k])]
    ensures MatchedPhase(stmt.on, stmt.whens[n + 1..], e, source) == e
  {
    hide MatchedPhase, Chosen, PlainMatched, SetUnread, Exclusive;
    UpdatedRests(stmt, n, t, source, k);
    RowRests(stmt.on, stmt.whens[n + 1..], e, e.rows[0], source);
  }

  /** One statement after another acts on a matched row as the first clause that applies. */
  lemma {:induction false} RowActs<T(!new), S(!new)>(stmt: Statement<T, S>, n: nat, e: Effect<T>, t: T, source: seq<S>, k: nat)
    requires Plain(stmt) && SetUnread(stmt) && Exclusive(stmt) && n <= |stmt.whens| && k < |source| && e.rows == [t]
    requires forall i :: 0 <= i < |source| ==> On(stmt, t, source[i]) == (i == k)
    ensures MatchedPhase(stmt.on, stmt.whens[n..], e, source) == Next(e, Acted(stmt.whens[n..], t, source[k]))
    decreases |stmt.whens| - n
  {
    hide MatchedPhase, TableEffect, Chosen, Acted, Plain, SetUnread, Exclusive, On, AnyOf;
    if n < |stmt.whens| {
      var w := stmt.whens[n];
      var acted := Acted([w], t, source[k]);
      OneActs(stmt, n, e, t, source, k);
      assert stmt.whens[n..][0] == w && stmt.whens[n..][1..] == stmt.whens[n + 1..];
      ActedStep(stmt.whens[n..], t, source[k]);
      if !Chosen(w, t, source[k]) {
        assert Next(e, acted) == e;
        RowActs(stmt, n + 1, e, t, source, k);
      } else if w.action.Update? {
        UpdatedEnds(stmt, n, Next(e, acted), t, source, k);
      } else {
        NothingLeft(stmt.on, stmt.whens[n + 1..], Next(e, acted), source);
      }
    } else {
      assert stmt.whens[n..] == [];
      NothingActs(stmt.on, e, t, source, k);
    }
  }

  lemma NothingActs<T, S>(on: seq<(T, S) -> bool>, e: Effect<T>, t: T, source: seq<S>, k: nat)
    requires k < |source| && e.rows == [t]
    ensures MatchedPhase(on, [], e, source) == Next(e, Acted([], t, source[k]))
  {
  }

  lemma OneActs<T, S>(stmt: Statement<T, S>, n: nat, e: Effect<T>, t: T, source: seq<S>, k: nat)
    requires Plain(stmt) && n < |stmt.whens| && k < |source| && e.rows == [t]
    requires forall i :: 0 <= i < |source| ==> On(stmt, t, source[i]) == (i == k)
    ensures MatchedPhase(stmt.on, stmt.whens[n..], e, source)
         == MatchedPhase(stmt.on, stmt.whens[n + 1..], Next(e, Acted([stmt.whens[n]], t, source[k])), source)
  {
    hide MatchedPhase, TableEffect, Acted, AnyOf, PlainMatched;
    var rest := stmt.whens[n..];
    assert rest[0] == stmt.whens[n] && rest[1..] == stmt.whens[n + 1..];
    ActsOnce(stmt.on, stmt.whens[n], t, source, k);
    PhaseStep(stmt.on, rest, e, Acted([stmt.whens[n]], t, source[k]), source);
  }

  lemma ActedStep<T, S>(whens: seq<When<T, S>>, t: T, s: S)
    requires whens != []
    ensures Acted(whens, t, s) == if Chosen(whens[0], t, s) then Acted([whens[0]], t, s) else Acted(whens[1..], t, s)
    ensures !Chosen(whens[0], t, s) ==> Acted([whens[0]], t, s) == Effect([t], 0, 0)
    ensures Chosen(whens[0], t, s) && whens[0].action.Update? ==>
      Acted([whens[0]], t, s) == Effect([whens[0].action.set_(t, s)], 1, 0)
    ensures Chosen(whens[0], t, s) && !whens[0].action.Update? ==> Acted([whens[0]], t, s) == Effect([], 0, 1)
  {
    assert [whens[0]][1..] == [];
  }

  /** On one row, the statements do what MERGE does. */
  lemma RowAgrees<T(!new), S(!new)>(stmt: Statement<T, S>, t: T, source: seq<S>)
    requires Plain(stmt) && SetUnread(stmt) && Exclusive(stmt) && OneSource(stmt, t, source)
    ensures MatchedPhase(stmt.on, stmt.whens, Effect([t], 0, 0), source) == MergedRow(stmt, t, source)
  {
    var k := Partner(stmt.on, [], t, source);
    hide SetUnread, Exclusive, MatchedPhase, Acted;
    if k == |source| {
      NoMatch(stmt, t, source);
      RowRests(stmt.on, stmt.whens, Effect([t], 0, 0), t, source);
    } else {
      OnlyMatch(stmt, t, source);
      assert stmt.whens[0..] == stmt.whens;
      RowActs(stmt, 0, Effect([t], 0, 0), t, source, k);
    }
  }

  lemma PlusNothing<T>(e: Effect<T>)
    ensures Plus(Effect([], 0, 0), e) == e
  {
    assert [] + e.rows == e.rows;
  }

  lemma {:induction false} NoMatch<T, S>(stmt: Statement<T, S>, t: T, source: seq<S>)
    requires Partner(stmt.on, [], t, source) == |source|
    ensures forall i :: 0 <= i < |source| ==> !On(stmt, t, source[i])
    decreases |source|
  {
    if source != [] {
      NoMatch(stmt, t, source[1..]);
      assert forall i :: 0 < i < |source| ==> source[i] == source[1..][i - 1];
    }
  }

  lemma OnlyMatch<T, S>(stmt: Statement<T, S>, t: T, source: seq<S>)
    requires OneSource(stmt, t, source) && Partner(stmt.on, [], t, source) < |source|
    ensures var k := Partner(stmt.on, [], t, source); forall i :: 0 <= i < |source| ==> On(stmt, t, source[i]) == (i == k)
  {
    var k := Partner(stmt.on, [], t, source);
    assert On(stmt, t, source[k]);
    hide Partner;
    forall i | 0 <= i < |source|
      ensures On(stmt, t, source[i]) == (i == k)
    {
    }
  }

  // ------------------------------------------------------------- the whole target

  lemma {:induction false} TableSplits<T, S>(on: seq<(T, S) -> bool>, w: When<T, S>, a: seq<T>, b: seq<T>, source: seq<S>)
    ensures TableEffect(on, w, a + b, source) == Plus(TableEffect(on, w, a, source), TableEffect(on, w, b, source))
    decreases |a|
  {
    hide RowEffect;
    if a == [] {
      assert a + b == b;
      PlusNothing(TableEffect(on, w, b, source));
    } else {
      assert (a + b)[1..] == a[1..] + b;
      TableSplits(on, w, a[1..], b, source);
    }
  }

  lemma NextPlus<T>(a: Effect<T>, b: Effect<T>, x: Effect<T>, y: Effect<T>)
    ensures Next(Plus(a, b), Plus(x, y)) == Plus(Next(a, x), Next(b, y))
  {
  }

  lemma {:induction false} PhaseSplits<T, S>(on: seq<(T, S) -> bool>, whens: seq<When<T, S>>, a: Effect<T>, b: Effect<T>, source: seq<S>)
    ensures MatchedPhase(on, whens, Plus(a, b), source) == Plus(MatchedPhase(on, whens, a, source), MatchedPhase(on, whens, b, source))
    decreases |whens|
  {
    if whens != [] {
      var x, y := TableEffect(on, whens[0], a.rows, source), TableEffect(on, whens[0], b.rows, source);
      TableSplits(on, whens[0], a.rows, b.rows, source);
      assert Plus(a, b).rows == a.rows + b.rows;
      hide TableEffect, MatchedPhase, Plus, Next;
      PhaseStep(on, whens, a, x, source);
      PhaseStep(on, whens, b, y, source);
      PhaseStep(on, whens, Plus(a, b), Plus(x, y), source);
      NextPlus(a, b, x, y);
      PhaseSplits(on, whens[1..], Next(a, x), Next(b, y), source);
    }
  }

  /** The UPDATE and DELETE statements leave the rows, and the counts, that MERGE leaves. */
  lemma {:induction false} MatchedAgrees<T(!new), S(!new)>(stmt: Statement<T, S>, target: seq<T>, source: seq<S>)
    requires Plain(stmt) && SetUnread(stmt) && Exclusive(stmt) && forall t :: t in target ==> OneSource(stmt, t, source)
    ensures MatchedPhase(stmt.on, stmt.whens, Effect(target, 0, 0), source) == MergedRows(stmt, target, source)
    decreases |target|
  {
    hide SetUnread, Exclusive, MatchedPhase, MergedRow, OneSource;
    if target == [] {
      NothingLeft(stmt.on, stmt.whens, Effect([], 0, 0), source);
    } else {
      assert OneSource(stmt, target[0], source);
      RowAgrees(stmt, target[0], source);
      MatchedAgrees(stmt, target[1..], source);
      PhaseSplits(stmt.on, stmt.whens, Effect([target[0]], 0, 0), Effect(target[1..], 0, 0), source);
      assert [target[0]] + target[1..] == target;
    }
  }

  // ------------------------------------------------------------- inserting

  /** The first clause that applies to the pair deletes the row. */
  predicate Deletes<T, S>(whens: seq<When<T, S>>, t: T, s: S) {
    whens != [] && if Chosen(whens[0], t, s) then whens[0].action.Delete? else Deletes(whens[1..], t, s)
  }

  /** Every target row the source row matches is deleted. */
  predicate AllDeleted<T, S>(stmt: Statement<T, S>, target: seq<T>, s: S) {
    target == [] || ((On(stmt, target[0], s) ==> Deletes(stmt.whens, target[0], s)) && AllDeleted(stmt, target[1..], s))
  }

  predicate Inserts<T, S>(whens: seq<When<T, S>>, s: S) {
    whens != [] && ((Inserting(whens[0]) && (whens[0].sourceOnly == [] || AnyOfSource(whens[0].sourceOnly, s))) || Inserts(whens[1..], s))
  }

  /** A source row that matched, whose matches are all deleted, and that a NOT MATCHED clause
      would insert. */
  predicate ComesBack<T, S>(stmt: Statement<T, S>, target: seq<T>, s: S) {
    Matches(stmt.on, target, s) && AllDeleted(stmt, target, s) && Inserts(stmt.whens, s)
  }

  lemma {:induction false} ActedMatches<T(!new), S(!new)>(stmt: Statement<T, S>, n: nat, t: T, s: S, s2: S)
    requires SetUnread(stmt) && n <= |stmt.whens|
    ensures var rows := Acted(stmt.whens[n..], t, s).rows;
            Matches(stmt.on, rows, s2) == (rows != [] && On(stmt, t, s2))
    ensures (Acted(stmt.whens[n..], t, s).rows == []) == Deletes(stmt.whens[n..], t, s)
    decreases |stmt.whens| - n
  {
    var rest := stmt.whens[n..];
    if n < |stmt.whens| {
      assert rest[1..] == stmt.whens[n + 1..];
      if !Chosen(rest[0], t, s) {
        ActedMatches(stmt, n + 1, t, s, s2);
      } else if rest[0].action.Update? {
        var u := rest[0].action.set_(t, s);
        assert On(stmt, u, s2) == On(stmt, t, s2);
        hide SetUnread, Chosen;
        MatchesOne(stmt, u, s2);
      } else {
        assert Acted(rest, t, s).rows == [];
      }
    } else {
      MatchesOne(stmt, t, s2);
    }
  }

  lemma MatchesOne<T, S>(stmt: Statement<T, S>, t: T, s: S)
    ensures Matches(stmt.on, [t], s) == On(stmt, t, s)
  {
    assert [t][1..] == [];
  }

  lemma {:induction false} MatchesConcat<T, S>(on: seq<(T, S) -> bool>, a: seq<T>, b: seq<T>, s: S)
    ensures Matches(on, a + b, s) == (Matches(on, a, s) || Matches(on, b, s))
    decreases |a|
  {
    if a == [] {
      assert a + b == b;
    } else {
      assert (a + b)[1..] == a[1..] + b;
      MatchesConcat(on, a[1..], b, s);
    }
  }

  /** A target row still matches the source row after MERGE exactly when it did before and is
      not deleted. */
  lemma MergedRowMatches<T(!new), S(!new)>(stmt: Statement<T, S>, t: T, source: seq<S>, j: nat)
    requires SetUnread(stmt) && OneSource(stmt, t, source) && j < |source|
    ensures Matches(stmt.on, MergedRow(stmt, t, source).rows, source[j])
         == (On(stmt, t, source[j]) && !Deletes(stmt.whens, t, source[j]))
  {
    var k := Partner(stmt.on, [], t, source);
    hide SetUnread, Acted, Deletes;
    if k == |source| {
      NoMatch(stmt, t, source);
      MatchesOne(stmt, t, source[j]);
    } else {
      OnlyMatch(stmt, t, source);
      assert stmt.whens[0..] == stmt.whens;
      ActedMatches(stmt, 0, t, source[k], source[j]);
    }
  }

  /** After the matched clauses a source row is unmatched exactly when it was before or all its
      matches were deleted. */
  lemma {:induction false} MergedMatches<T(!new), S(!new)>(stmt: Statement<T, S>, target: seq<T>, source: seq<S>, j: nat)
    requires SetUnread(stmt) && (forall t :: t in target ==> OneSource(stmt, t, source)) && j < |source|
    ensures Matches(stmt.on, MergedRows(stmt, target, source).rows, source[j])
         == (Matches(stmt.on, target, source[j]) && !AllDeleted(stmt, target, source[j]))
    decreases |target|
  {
    hide SetUnread, MergedRow, Deletes, OneSource;
    if target != [] {
      assert OneSource(stmt, target[0], source);
      MergedRowMatches(stmt, target[0], source, j);
      MergedMatches(stmt, target[1..], source, j);
      MatchesConcat(stmt.on, MergedRow(stmt, target[0], source).rows, MergedRows(stmt, target[1..], source).rows, source[j]);
      if !Matches(stmt.on, target[1..], source[j]) { NoneToDelete(stmt, target[1..], source[j]); }
    }
  }

  lemma {:induction false} NoneToDelete<T, S>(stmt: Statement<T, S>, target: seq<T>, s: S)
    requires !Matches(stmt.on, target, s)
    ensures AllDeleted(stmt, target, s)
  {
    if target != [] { NoneToDelete(stmt, target[1..], s); }
  }

  lemma {:induction false} NoNewRow<T, S>(whens: seq<When<T, S>>, s: S)
    requires forall i :: 0 <= i < |whens| ==> !Inserting(whens[i])
    ensures NewRow(whens, s) == []
  {
    if whens != [] { NoNewRow(whens[1..], s); }
  }

  lemma {:induction false} NoInsert<T, S>(on: seq<(T, S) -> bool>, whens: seq<When<T, S>>, target: seq<T>, source: seq<S>)
    requires forall i :: 0 <= i < |whens| ==> !Inserting(whens[i])
    ensures InsertPhase(on, whens, target, source) == target
    decreases |whens|
  {
    if whens != [] { NoInsert(on, whens[1..], target, source); }
  }

  /** What the INSERT statements add for one source row. */
  function Added<T, S>(on: seq<(T, S) -> bool>, whens: seq<When<T, S>>, target: seq<T>, s: S): seq<T> {
    if Matches(on, target, s) then [] else NewRow(whens, s)
  }

  function AllAdded<T, S>(on: seq<(T, S) -> bool>, whens: seq<When<T, S>>, target: seq<T>, source: seq<S>): seq<T> {
    if source == [] then [] else Added(on, whens, target, source[0]) + AllAdded(on, whens, target, source[1..])
  }

  lemma {:induction false} NothingAdded<T, S>(on: seq<(T, S) -> bool>, whens: seq<When<T, S>>, target: seq<T>, source: seq<S>)
    requires forall i :: 0 <= i < |whens| ==> !Inserting(whens[i])
    ensures AllAdded(on, whens, target, source) == []
  {
    if source != [] {
      NoNewRow(whens, source[0]);
      NothingAdded(on, whens, target, source[1..]);
    }
  }

  lemma InsertWhereMeans<T, S>(on: seq<(T, S) -> bool>, target: seq<T>, condition: seq<S -> bool>, s: S)
    requires |condition| <= 1
    ensures InsertWhere(on, target, condition, s) == (!Matches(on, target, s) && (condition == [] || AnyOfSource(condition, s)))
  {
    if condition != [] { assert condition[1..] == []; }
  }

  /** The one inserting clause adds what MERGE's first applicable one would. */
  lemma {:induction false} InsertedIs<T, S>(on: seq<(T, S) -> bool>, whens: seq<When<T, S>>, target: seq<T>, source: seq<S>)
    requires whens != [] && Inserting(whens[0]) && |whens[0].sourceOnly| <= 1
    requires forall i :: 0 < i < |whens| ==> !Inserting(whens[i])
    ensures Inserted(on, whens[0], target, source) == AllAdded(on, whens, target, source)
    decreases |source|
  {
    if source != [] {
      InsertWhereMeans(on, target, whens[0].sourceOnly, source[0]);
      NoNewRow(whens[1..], source[0]);
      InsertedIs(on, whens, target, source[1..]);
    }
  }

  lemma {:induction false} AddedSkips<T, S>(on: seq<(T, S) -> bool>, whens: seq<When<T, S>>, target: seq<T>, source: seq<S>)
    requires whens != [] && !Inserting(whens[0])
    ensures AllAdded(on, whens, target, source) == AllAdded(on, whens[1..], target, source)
    decreases |source|
  {
    if source != [] { AddedSkips(on, whens, target, source[1..]); }
  }

  lemma {:induction false} InsertAgrees<T, S>(on: seq<(T, S) -> bool>, whens: seq<When<T, S>>, target: seq<T>, source: seq<S>)
    requires OneInsert(whens) && forall i :: 0 <= i < |whens| && Inserting(whens[i]) ==> |whens[i].sourceOnly| <= 1
    ensures InsertPhase(on, whens, target, source) == target + AllAdded(on, whens, target, source)
    decreases |whens|
  {
    if whens == [] {
      NothingAdded(on, whens, target, source);
    } else if Inserting(whens[0]) {
      NoInsert(on, whens[1..], target + Inserted(on, whens[0], target, source), source);
      InsertedIs(on, whens, target, source);
    } else {
      InsertAgrees(on, whens[1..], target, source);
      AddedSkips(on, whens, target, source);
    }
  }

  lemma {:induction false} NewRowsAre<T, S>(stmt: Statement<T, S>, target: seq<T>, source: seq<S>)
    ensures NewRows(stmt, target, source) == AllAdded(stmt.on, stmt.whens, target, source)
  {
    if source != [] { NewRowsAre(stmt, target, source[1..]); }
  }

  lemma {:induction false} NewRowIff<T, S>(whens: seq<When<T, S>>, s: S)
    ensures |NewRow(whens, s)| == if Inserts(whens, s) then 1 else 0
    decreases |whens|
  {
    if whens != [] { NewRowIff(whens[1..], s); }
  }

  /** Where two states of the target differ only in that the second matches fewer source rows,
      the additions are the same exactly when no row that is matched only in the first would be
      inserted. */
  lemma {:induction false} AddedSame<T, S>(on: seq<(T, S) -> bool>, whens: seq<When<T, S>>, a: seq<T>, b: seq<T>, source: seq<S>)
    requires forall i :: 0 <= i < |source| ==> (Matches(on, b, source[i]) ==> Matches(on, a, source[i]))
    ensures |AllAdded(on, whens, a, source)| <= |AllAdded(on, whens, b, source)|
    ensures (AllAdded(on, whens, a, source) == AllAdded(on, whens, b, source))
       <==> forall i :: 0 <= i < |source| && Inserts(whens, source[i]) ==> Matches(on, a, source[i]) == Matches(on, b, source[i])
    ensures AllAdded(on, whens, a, source) == AllAdded(on, whens, b, source)
       <==> |AllAdded(on, whens, a, source)| == |AllAdded(on, whens, b, source)|
    decreases |source|
  {
    if source != [] {
      NewRowIff(whens, source[0]);
      var rest := source[1..];
      AddedSame(on, whens, a, b, rest);
      hide Matches, Inserts, NewRow;
      assert forall i :: 0 < i < |source| ==> source[i] == rest[i - 1];
      SplitFirst(on, whens, a, b, source);
    }
  }

  lemma SplitFirst<T, S>(on: seq<(T, S) -> bool>, whens: seq<When<T, S>>, a: seq<T>, b: seq<T>, source: seq<S>)
    requires source != []
    ensures (forall i :: 0 <= i < |source| && Inserts(whens, source[i]) ==> Matches(on, a, source[i]) == Matches(on, b, source[i]))
       <==> ((Inserts(whens, source[0]) ==> Matches(on, a, source[0]) == Matches(on, b, source[0]))
             && forall i :: 0 <= i < |source[1..]| && Inserts(whens, source[1..][i]) ==>
                  Matches(on, a, source[1..][i]) == Matches(on, b, source[1..][i]))
  {
    hide Matches, Inserts;
    assert forall i :: 0 < i < |source| ==> source[i] == source[1..][i - 1];
    assert forall i :: 0 <= i < |source[1..]| ==> source[1..][i] == source[i + 1];
  }

  // ------------------------------------------------------------- the theorem

  /** The decomposed statement leaves the target, and counts the rows, that MERGE does, exactly
      when no source row comes back: one whose matches are all deleted and that a NOT MATCHED
      clause would insert. Updates and deletions always agree. */
  lemma DecomposedIsMerge<T(!new), S(!new)>(stmt: Statement<T, S>, target: seq<T>, source: seq<S>)
    requires Regular(stmt, target, source)
    ensures Decomposed(stmt, target, source) == Merged(stmt, target, source)
       <==> forall j :: 0 <= j < |source| ==> !ComesBack(stmt, target, source[j])
    ensures |Decomposed(stmt, target, source).0| == |Merged(stmt, target, source).0|
       <==> forall j :: 0 <= j < |source| ==> !ComesBack(stmt, target, source[j])
    ensures var d, m := Decomposed(stmt, target, source).1, Merged(stmt, target, source).1;
            d.updated == m.updated && d.deleted == m.deleted && d.inserted >= m.inserted
  {
    hide SetUnread, Exclusive, MatchedPhase, MergedRows, InsertPhase, NewRows, Matches, AllDeleted, Inserts, AllAdded, OneSource, Plain, OneInsert;
    MatchedAgrees(stmt, target, source);
    var rows := MergedRows(stmt, target, source).rows;
    PlainSources(stmt);
    InsertAgrees(stmt.on, stmt.whens, rows, source);
    NewRowsAre(stmt, target, source);
    forall j | 0 <= j < |source|
      ensures Matches(stmt.on, rows, source[j]) == (Matches(stmt.on, target, source[j]) && !AllDeleted(stmt, target, source[j]))
    {
      MergedMatches(stmt, target, source, j);
    }
    AddedSame(stmt.on, stmt.whens, target, rows, source);
    ComesBackIff(stmt, target, rows, source);
    var a, b := AllAdded(stmt.on, stmt.whens, target, source), AllAdded(stmt.on, stmt.whens, rows, source);
    assert rows + a == rows + b ==> a == b by { assert (rows + a)[|rows|..] == a && (rows + b)[|rows|..] == b; }
  }

  lemma PlainSources<T, S>(stmt: Statement<T, S>)
    requires Plain(stmt)
    ensures forall i :: 0 <= i < |stmt.whens| && Inserting(stmt.whens[i]) ==> |stmt.whens[i].sourceOnly| <= 1
  {
  }

  lemma ComesBackIff<T, S>(stmt: Statement<T, S>, target: seq<T>, rows: seq<T>, source: seq<S>)
    requires forall j :: 0 <= j < |source| ==>
      Matches(stmt.on, rows, source[j]) == (Matches(stmt.on, target, source[j]) && !AllDeleted(stmt, target, source[j]))
    ensures (forall i :: 0 <= i < |source| && Inserts(stmt.whens, source[i]) ==>
               Matches(stmt.on, target, source[i]) == Matches(stmt.on, rows, source[i]))
       <==> forall j :: 0 <= j < |source| ==> !ComesBack(stmt, target, source[j])
  {
    hide Matches, AllDeleted, Inserts;
    forall j | 0 <= j < |source|
      ensures ComesBack(stmt, target, source[j])
         <==> !(Inserts(stmt.whens, source[j]) ==> Matches(stmt.on, target, source[j]) == Matches(stmt.on, rows, source[j]))
    {
    }
  }

  /** Without a matched DELETE the two always agree. */
  lemma AgreesWithoutDelete<T(!new), S(!new)>(stmt: Statement<T, S>, target: seq<T>, source: seq<S>)
    requires Regular(stmt, target, source) && forall i :: 0 <= i < |stmt.whens| ==> !stmt.whens[i].action.Delete?
    ensures Decomposed(stmt, target, source) == Merged(stmt, target, source)
  {
    hide Regular, Decomposed, Merged, Inserts, Matches, AllDeleted;
    forall j | 0 <= j < |source|
      ensures !ComesBack(stmt, target, source[j])
    {
      if Matches(stmt.on, target, source[j]) { SomeKept(stmt, target, source[j]); }
    }
    DecomposedIsMerge(stmt, target, source);
  }

  lemma {:induction false} SomeKept<T, S>(stmt: Statement<T, S>, target: seq<T>, s: S)
    requires Matches(stmt.on, target, s) && forall i :: 0 <= i < |stmt.whens| ==> !stmt.whens[i].action.Delete?
    ensures !AllDeleted(stmt, target, s)
    decreases |target|
  {
    NeverDeletes(stmt.whens, target[0], s);
    if !On(stmt, target[0], s) { SomeKept(stmt, target[1..], s); }
  }

  lemma {:induction false} NeverDeletes<T, S>(whens: seq<When<T, S>>, t: T, s: S)
    requires forall i :: 0 <= i < |whens| ==> !whens[i].action.Delete?
    ensures !Deletes(whens, t, s)
  {
    if whens != [] { NeverDeletes(whens[1..], t, s); }
  }

  // ------------------------------------------------------------- the case that fails

  /** MERGE ... WHEN MATCHED THEN DELETE WHEN NOT MATCHED THEN INSERT, on equal numbers. */
  function DeleteAndInsert(): Statement<int, int> {
    Statement([(t: int, s: int) => t == s],
              [When(true, [], [], Delete), When(false, [], [], Insert((s: int) => s))])
  }

  /** A matched row is deleted and then inserted again from its source row. */
  lemma DeletedRowComesBack()
    ensures Merged(DeleteAndInsert(), [1], [1]).0 == [] && Decomposed(DeleteAndInsert(), [1], [1]).0 == [1]
  {
    OneDeleted();
    OneInserted();
    OneMerged();
    hide MatchedPhase, InsertPhase, MergedRows, NewRows, DeleteAndInsert;
  }

  lemma OneDeleted()
    ensures var stmt := DeleteAndInsert(); MatchedPhase(stmt.on, stmt.whens, Effect([1], 0, 0), [1]).rows == []
  {
    var stmt := DeleteAndInsert();
    var x: seq<int> := [1];
    assert x[1..] == [];
    assert AnyOf(stmt.on, 1, 1) && Partner(stmt.on, [], 1, x) == 0;
    hide Partner, AnyOf, Where, MatchedPhase;
    OneRow(stmt.on, stmt.whens[0], 1, x);
    assert RowEffect(stmt.on, stmt.whens[0], 1, x) == Effect([], 0, 1);
    hide TableEffect, RowEffect;
    PhaseStep(stmt.on, stmt.whens, Effect(x, 0, 0), Effect([], 0, 1), x);
    NothingLeft(stmt.on, stmt.whens[1..], Effect([], 0, 1), x);
  }

  lemma OneInserted()
    ensures var stmt := DeleteAndInsert(); InsertPhase(stmt.on, stmt.whens, [], [1]) == [1]
  {
    var stmt := DeleteAndInsert();
    var x: seq<int> := [1];
    assert x[1..] == [];
    assert stmt.whens[1..] == [stmt.whens[1]] && [stmt.whens[1]][1..] == [];
    assert Inserted(stmt.on, stmt.whens[1], [], x) == [1];
  }

  lemma OneMerged()
    ensures MergedRows(DeleteAndInsert(), [1], [1]).rows == [] && NewRows(DeleteAndInsert(), [1], [1]) == []
  {
    var stmt := DeleteAndInsert();
    OneMatch();
    OneGone();
    hide DeleteAndInsert, Matches, MergedRow, NewRow;
    MergedOne(stmt, 1, 1);
  }

  lemma OneMatch()
    ensures Matches(DeleteAndInsert().on, [1], 1)
  {
    assert AnyOf(DeleteAndInsert().on, 1, 1);
  }

  lemma OneGone()
    ensures MergedRow(DeleteAndInsert(), 1, [1]).rows == []
  {
    var stmt := DeleteAndInsert();
    assert AnyOf(stmt.on, 1, 1) && Partner(stmt.on, [], 1, [1]) == 0;
    hide Partner, AnyOf, Where;
    assert Chosen(stmt.whens[0], 1, 1);
  }

  lemma MergedOne<T, S>(stmt: Statement<T, S>, t: T, s: S)
    requires Matches(stmt.on, [t], s)
    ensures MergedRows(stmt, [t], [s]).rows == MergedRow(stmt, t, [s]).rows && NewRows(stmt, [t], [s]) == []
  {
    hide Matches, MergedRow, NewRow;
    assert [t][1..] == [] && [s][1..] == [];
  }
}
