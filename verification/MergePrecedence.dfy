/** The texts of conditions put together by AND, where OR stands at the top level of one of them:
    exactly on which tables the statements do something else than meant. */
module MergePrecedence {
  import opened Merge
  import opened MergeRefinement

  // ------------------------------------------------------------- pairs

  /** ON and the condition, each as a whole. */
  predicate Meant<T, S>(on: seq<(T, S) -> bool>, condition: seq<(T, S) -> bool>, t: T, s: S) {
    AnyOf(on, t, s) && (condition == [] || AnyOf(condition, t, s))
  }

  /** An earlier alternative of ON holds without the condition, or a later alternative of the
      condition without ON. */
  predicate Stray<T, S>(on: seq<(T, S) -> bool>, condition: seq<(T, S) -> bool>, t: T, s: S) {
    && on != [] && condition != []
    && ((AnyOf(on[..|on| - 1], t, s) && !AnyOf(condition, t, s)) || (AnyOf(condition[1..], t, s) && !AnyOf(on, t, s)))
  }

  lemma {:induction false} AnyOfLast<T, S>(a: seq<(T, S) -> bool>, t: T, s: S)
    requires a != []
    ensures AnyOf(a, t, s) == (AnyOf(a[..|a| - 1], t, s) || a[|a| - 1](t, s))
    decreases |a|
  {
    if |a| == 1 {
      AnyOfOne(a, t, s);
    } else {
      AnyOfLast(a[1..], t, s);
      assert a[1..][..|a| - 2] == a[..|a| - 1][1..];
    }
  }

  /** The text selects the pairs that are meant, and the stray ones. */
  lemma WhereIs<T, S>(on: seq<(T, S) -> bool>, condition: seq<(T, S) -> bool>, t: T, s: S)
    ensures Where(on, condition, t, s) == (Meant(on, condition, t, s) || Stray(on, condition, t, s))
  {
    if on != [] && condition != [] { AnyOfLast(on, t, s); }
  }

  /** The position of the first row that is meant, or the end. */
  function FirstMeant<T, S>(on: seq<(T, S) -> bool>, condition: seq<(T, S) -> bool>, t: T, source: seq<S>): (k: nat)
    ensures k <= |source|
  {
    if source == [] || Meant(on, condition, t, source[0]) then 0 else 1 + FirstMeant(on, condition, t, source[1..])
  }

  function FirstStray<T, S>(on: seq<(T, S) -> bool>, condition: seq<(T, S) -> bool>, t: T, source: seq<S>): (k: nat)
    ensures k <= |source|
  {
    if source == [] || Stray(on, condition, t, source[0]) then 0 else 1 + FirstStray(on, condition, t, source[1..])
  }

  lemma {:induction false} PartnerIs<T, S>(on: seq<(T, S) -> bool>, condition: seq<(T, S) -> bool>, t: T, source: seq<S>)
    ensures var m, x := FirstMeant(on, condition, t, source), FirstStray(on, condition, t, source);
            Partner(on, condition, t, source) == if x < m then x else m
  {
    if source != [] {
      WhereIs(on, condition, t, source[0]);
      hide Where, Meant, Stray;
      PartnerIs(on, condition, t, source[1..]);
    }
  }

  // ------------------------------------------------------------- UPDATE and DELETE on a table

  function MeantRow<T, S>(on: seq<(T, S) -> bool>, w: When<T, S>, t: T, source: seq<S>): Effect<T> {
    var k := FirstMeant(on, w.condition, t, source);
    if !w.isMatched || w.action.Insert? || k == |source| then Effect([t], 0, 0)
    else match w.action
      case Update(f) => Effect([f(t, source[k])], 1, 0)
      case Delete => Effect([], 0, 1)
      case Insert(_) => Effect([t], 0, 0)
  }

  function MeantTable<T, S>(on: seq<(T, S) -> bool>, w: When<T, S>, target: seq<T>, source: seq<S>): Effect<T> {
    if target == [] then Effect([], 0, 0)
    else Plus(MeantRow(on, w, target[0], source), MeantTable(on, w, target[1..], source))
  }

  /** The target row has a stray source row before any that is meant, and no row that is meant or
      one that would set it to something else. */
  ghost predicate Misled<T, S>(on: seq<(T, S) -> bool>, w: When<T, S>, t: T, source: seq<S>) {
    var m, x := FirstMeant(on, w.condition, t, source), FirstStray(on, w.condition, t, source);
    && w.isMatched && !w.action.Insert? && x < m
    && (m < |source| ==> w.action.Update? && w.action.set_(t, source[x]) != w.action.set_(t, source[m]))
  }

  lemma RowIffMisled<T, S>(on: seq<(T, S) -> bool>, w: When<T, S>, t: T, source: seq<S>)
    ensures var e, m := RowEffect(on, w, t, source), MeantRow(on, w, t, source);
            && (e == m <==> !Misled(on, w, t, source)) && m.updated <= e.updated && m.deleted <= e.deleted
            && (e != m && e.updated == m.updated && e.deleted == m.deleted ==> |e.rows| == |m.rows| == 1)
  {
    PartnerIs(on, w.condition, t, source);
  }

  lemma PlusSame<T>(a: Effect<T>, b: Effect<T>, x: Effect<T>, y: Effect<T>)
    requires a.updated <= b.updated && a.deleted <= b.deleted && x.updated <= y.updated && x.deleted <= y.deleted
    requires a != b && a.updated == b.updated && a.deleted == b.deleted ==> |a.rows| == |b.rows| == 1
    ensures Plus(a, x) == Plus(b, y) <==> a == b && x == y
  {
    if Plus(a, x) == Plus(b, y) {
      assert |a.rows| == |b.rows|;
      assert a.rows == (a.rows + x.rows)[..|a.rows|] && b.rows == (b.rows + y.rows)[..|b.rows|];
      assert x.rows == (a.rows + x.rows)[|a.rows|..] && y.rows == (b.rows + y.rows)[|b.rows|..];
    }
  }

  /** The UPDATE or DELETE of a clause does what is meant, to the rows and to the counts, exactly
      when no row of the target is misled; and it never counts less. */
  lemma {:induction false} StatementIffMisled<T, S>(on: seq<(T, S) -> bool>, w: When<T, S>, target: seq<T>, source: seq<S>)
    ensures var e, m := TableEffect(on, w, target, source), MeantTable(on, w, target, source);
            && (e == m <==> forall k :: 0 <= k < |target| ==> !Misled(on, w, target[k], source))
            && m.updated <= e.updated && m.deleted <= e.deleted
    decreases |target|
  {
    if target != [] {
      var t, rest := target[0], target[1..];
      RowIffMisled(on, w, t, source);
      StatementIffMisled(on, w, rest, source);
      hide RowEffect, MeantRow, Misled, Plus;
      PlusSame(MeantRow(on, w, t, source), RowEffect(on, w, t, source), MeantTable(on, w, rest, source), TableEffect(on, w, rest, source));
      assert target == [t] + rest;
      PlusCounts(MeantRow(on, w, t, source), MeantTable(on, w, rest, source));
      PlusCounts(RowEffect(on, w, t, source), TableEffect(on, w, rest, source));
    }
  }

  lemma PlusCounts<T>(a: Effect<T>, x: Effect<T>)
    ensures Plus(a, x).updated == a.updated + x.updated && Plus(a, x).deleted == a.deleted + x.deleted
  {
  }

  // ------------------------------------------------------------- INSERT on a table

  function MeantInserted<T, S>(on: seq<(T, S) -> bool>, w: When<T, S>, target: seq<T>, source: seq<S>): seq<T>
    requires w.action.Insert?
  {
    if source == [] then []
    else (if !Matches(on, target, source[0]) && (w.sourceOnly == [] || AnyOfSource(w.sourceOnly, source[0]))
          then [w.action.values(source[0])] else [])
         + MeantInserted(on, w, target, source[1..])
  }

  /** A matched source row for which an alternative of the condition after the first holds. */
  predicate InsertedAnyway<T, S>(on: seq<(T, S) -> bool>, condition: seq<S -> bool>, target: seq<T>, s: S) {
    condition != [] && Matches(on, target, s) && AnyOfSource(condition[1..], s)
  }

  /** The INSERT of a clause adds what is meant exactly when no source row is matched and inserted
      anyway; and it never adds less. */
  lemma {:induction false} InsertIffAnyway<T, S>(on: seq<(T, S) -> bool>, w: When<T, S>, target: seq<T>, source: seq<S>)
    requires w.action.Insert?
    ensures var e, m := Inserted(on, w, target, source), MeantInserted(on, w, target, source);
            && (e == m <==> forall k :: 0 <= k < |source| ==> !InsertedAnyway(on, w.sourceOnly, target, source[k]))
            && |m| <= |e| && (|e| == |m| ==> e == m)
    decreases |source|
  {
    if source != [] {
      var s, rest := source[0], source[1..];
      InsertIffAnyway(on, w, target, rest);
      assert source == [s] + rest;
      var e, m := Inserted(on, w, target, rest), MeantInserted(on, w, target, rest);
      var v := w.action.values(s);
      hide Matches, AnyOfSource;
      if InsertWhere(on, target, w.sourceOnly, s) {
        assert [v] + e == [v] + m ==> e == ([v] + e)[1..] && m == ([v] + m)[1..];
      } else {
        assert [] + e == e && [] + m == m;
      }
    }
  }

  // ------------------------------------------------------------- the cases that fail

  /** ON t = s OR t = s + 10, condition s > 5. */
  function Numbers(action: Action<int, int>): When<int, int> {
    When(true, [(t: int, s: int) => s > 5], [], action)
  }

  function EitherNumber(): seq<(int, int) -> bool> { [(t: int, s: int) => t == s, (t: int, s: int) => t == s + 10] }

  lemma StrayPair()
    ensures var on, c := EitherNumber(), Numbers(Delete).condition;
            Stray(on, c, 1, 1) && !Meant(on, c, 1, 1)
  {
    var on, c := EitherNumber(), Numbers(Delete).condition;
    assert on[..|on| - 1] == [on[0]] && c[1..] == [];
  }

  lemma StrayAlone<T, S>(on: seq<(T, S) -> bool>, w: When<T, S>, t: T, s: S)
    requires w.isMatched && !w.action.Insert? && Stray(on, w.condition, t, s) && !Meant(on, w.condition, t, s)
    ensures TableEffect(on, w, [t], [s]).rows == (if w.action.Update? then [w.action.set_(t, s)] else [])
    ensures MeantTable(on, w, [t], [s]).rows == [t]
  {
    hide Stray, Meant, Partner;
    assert [s][1..] == [] && [t][1..] == [];
    PartnerIs(on, w.condition, t, [s]);
  }

  /** A row whose partner does not meet the condition is deleted, or updated, all the same. */
  lemma OrInOnStrays()
    ensures TableEffect(EitherNumber(), Numbers(Delete), [1], [1]).rows == []
    ensures MeantTable(EitherNumber(), Numbers(Delete), [1], [1]).rows == [1]
    ensures TableEffect(EitherNumber(), Numbers(Update((t: int, s: int) => 0)), [1], [1]).rows == [0]
    ensures MeantTable(EitherNumber(), Numbers(Update((t: int, s: int) => 0)), [1], [1]).rows == [1]
  {
    StrayPair();
    hide Stray, Meant, TableEffect, MeantTable, EitherNumber;
    StrayAlone(EitherNumber(), Numbers(Delete), 1, 1);
    StrayAlone(EitherNumber(), Numbers(Update((t: int, s: int) => 0)), 1, 1);
  }

  /** INSERT ... WHEN NOT MATCHED AND s = 1 OR s = 2. */
  function OneOrTwo(): When<int, int> {
    When(false, [], [(s: int) => s == 1, (s: int) => s == 2], Insert((s: int) => s))
  }

  /** A matched row is inserted again. */
  lemma OrInConditionInsertsMatched()
    ensures var on := [(t: int, s: int) => t == s];
            Inserted(on, OneOrTwo(), [2], [2]) == [2] && MeantInserted(on, OneOrTwo(), [2], [2]) == []
  {
    var on := [(t: int, s: int) => t == s];
    var two: seq<int> := [2];
    var w := OneOrTwo();
    assert two[1..] == [] && w.sourceOnly[1..] == [w.sourceOnly[1]];
    assert Matches(on, two, 2);
    assert AnyOfSource(w.sourceOnly[1..], 2);
    assert InsertWhere(on, two, w.sourceOnly, 2);
  }
}
