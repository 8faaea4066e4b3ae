/** MERGE carried out as separate UPDATE, DELETE and INSERT statements
    (pkg/query/merge_processor.go), against MERGE as ISO/IEC 9075-2:2011, section 14.12, has it.

    T is the type of target rows and S of source rows. A condition is the list of its top-level
    OR alternatives, because the program puts conditions together as text. */
module Merge {

  // ------------------------------------------------------------- statements

  datatype Action<!T, !S> = Update(set_: (T, S) -> T) | Delete | Insert(values: S -> T)

  /** One WHEN clause; no alternative means no condition. A condition of a NOT MATCHED clause
      looks at the source row only. */
  datatype When<!T, !S> = When(isMatched: bool, condition: seq<(T, S) -> bool>, sourceOnly: seq<S -> bool>, action: Action<T, S>)

  datatype Statement<!T, !S> = Statement(on: seq<(T, S) -> bool>, whens: seq<When<T, S>>)

  datatype Counts = Counts(updated: nat, deleted: nat, inserted: nat)

  predicate AnyOf<T, S>(alternatives: seq<(T, S) -> bool>, t: T, s: S) {
    alternatives != [] && (alternatives[0](t, s) || AnyOf(alternatives[1..], t, s))
  }

  predicate AnyOfSource<S>(alternatives: seq<S -> bool>, s: S) {
    alternatives != [] && (alternatives[0](s) || AnyOfSource(alternatives[1..], s))
  }

  /** The text "on AND condition": AND binds tighter than OR. */
  predicate Where<T, S>(on: seq<(T, S) -> bool>, condition: seq<(T, S) -> bool>, t: T, s: S) {
    if on == [] || condition == [] then AnyOf(on, t, s)
    else
      || AnyOf(on[..|on| - 1], t, s)
      || (on[|on| - 1](t, s) && condition[0](t, s))
      || AnyOf(condition[1..], t, s)
  }

  predicate Matches<T, S>(on: seq<(T, S) -> bool>, target: seq<T>, s: S) {
    target != [] && (AnyOf(on, target[0], s) || Matches(on, target[1..], s))
  }

  /** The text "NOT EXISTS (...) AND condition". */
  predicate InsertWhere<T, S>(on: seq<(T, S) -> bool>, target: seq<T>, condition: seq<S -> bool>, s: S) {
    if condition == [] then !Matches(on, target, s)
    else (!Matches(on, target, s) && condition[0](s)) || AnyOfSource(condition[1..], s)
  }

  // ------------------------------------------------------------- the effect of one statement

  /** The position of the first source row that the WHERE clause pairs with t, or the end. */
  function Partner<T, S>(on: seq<(T, S) -> bool>, condition: seq<(T, S) -> bool>, t: T, source: seq<S>): (k: nat)
    ensures k <= |source|
    ensures k < |source| ==> Where(on, condition, t, source[k])
  {
    if source == [] || Where(on, condition, t, source[0]) then 0 else 1 + Partner(on, condition, t, source[1..])
  }

  /** What becomes of one target row: the row or nothing, and what was counted. */
  datatype Effect<T> = Effect(rows: seq<T>, updated: nat, deleted: nat)

  function RowEffect<T, S>(on: seq<(T, S) -> bool>, w: When<T, S>, t: T, source: seq<S>): Effect<T> {
    var k := Partner(on, w.condition, t, source);
    if !w.isMatched || w.action.Insert? || k == |source| then Effect([t], 0, 0)
    else match w.action
      case Update(f) => Effect([f(t, source[k])], 1, 0)
      case Delete => Effect([], 0, 1)
      case Insert(_) => Effect([t], 0, 0)
  }

  function Plus<T>(a: Effect<T>, b: Effect<T>): Effect<T> {
    Effect(a.rows + b.rows, a.updated + b.updated, a.deleted + b.deleted)
  }

  /** UPDATE ... FROM source, or DELETE ... USING source, on the whole target. */
  function TableEffect<T, S>(on: seq<(T, S) -> bool>, w: When<T, S>, target: seq<T>, source: seq<S>): Effect<T> {
    if target == [] then Effect([], 0, 0)
    else Plus(RowEffect(on, w, target[0], source), TableEffect(on, w, target[1..], source))
  }

  /** INSERT ... SELECT values FROM source WHERE NOT EXISTS ... */
  function Inserted<T, S>(on: seq<(T, S) -> bool>, w: When<T, S>, target: seq<T>, source: seq<S>): seq<T>
    requires w.action.Insert?
  {
    if source == [] then []
    else (if InsertWhere(on, target, w.sourceOnly, source[0]) then [w.action.values(source[0])] else [])
         + Inserted(on, w, target, source[1..])
  }

  // ------------------------------------------------------------- all statements, one after the other

  /** The rows of the later effect, and the counts of both. */
  function Next<T>(e: Effect<T>, x: Effect<T>): Effect<T> {
    Effect(x.rows, e.updated + x.updated, e.deleted + x.deleted)
  }

  function MatchedPhase<T, S>(on: seq<(T, S) -> bool>, whens: seq<When<T, S>>, e: Effect<T>, source: seq<S>): Effect<T>
    decreases |whens|
  {
    if whens == [] then e else MatchedPhase(on, whens[1..], Next(e, TableEffect(on, whens[0], e.rows, source)), source)
  }

  function InsertPhase<T, S>(on: seq<(T, S) -> bool>, whens: seq<When<T, S>>, target: seq<T>, source: seq<S>): seq<T>
    decreases |whens|
  {
    if whens == [] then target
    else if whens[0].isMatched || !whens[0].action.Insert? then InsertPhase(on, whens[1..], target, source)
    else InsertPhase(on, whens[1..], target + Inserted(on, whens[0], target, source), source)
  }

  /** The target and the counts after the decomposed statement. */
  function Decomposed<T, S>(stmt: Statement<T, S>, target: seq<T>, source: seq<S>): (seq<T>, Counts) {
    var e := MatchedPhase(stmt.on, stmt.whens, Effect(target, 0, 0), source);
    var all := InsertPhase(stmt.on, stmt.whens, e.rows, source);
    InsertGrows(stmt.on, stmt.whens, e.rows, source);
    (all, Counts(e.updated, e.deleted, |all| - |e.rows|))
  }

  lemma InsertGrows<T, S>(on: seq<(T, S) -> bool>, whens: seq<When<T, S>>, target: seq<T>, source: seq<S>)
    ensures |InsertPhase(on, whens, target, source)| >= |target|
    decreases |whens|
  {
    if whens != [] {
      if whens[0].isMatched || !whens[0].action.Insert? {
        InsertGrows(on, whens[1..], target, source);
      } else {
        InsertGrows(on, whens[1..], target + Inserted(on, whens[0], target, source), source);
      }
    }
  }

  /** The statement of clause i failed: the clauses before it, and before an INSERT all matched
      clauses, have been carried out. */
  predicate StoppedAt<T(==), S>(stmt: Statement<T, S>, before: seq<T>, source: seq<S>, i: nat, after: seq<T>, counts: Counts)
    requires i < |stmt.whens|
  {
    var n := if stmt.whens[i].isMatched then i else |stmt.whens|;
    var e := MatchedPhase(stmt.on, stmt.whens[..n], Effect(before, 0, 0), source);
    if stmt.whens[i].isMatched then after == e.rows && counts == Counts(e.updated, e.deleted, 0)
    else
      && after == InsertPhase(stmt.on, stmt.whens[..i], e.rows, source)
      && counts.updated == e.updated && counts.deleted == e.deleted && counts.inserted == |after| - |e.rows|
  }

  /** The loops of the program over the WHEN clauses; the statements themselves are the
      database's. `failing` holds the positions of the clauses whose statement fails. */
  class MergeProcessor<T, S> {
    var target: seq<T>
    const source: seq<S>

    constructor (target: seq<T>, source: seq<S>)
      ensures this.target == target && this.source == source
    {
      this.target := target;
      this.source := source;
    }

    /** When a statement fails, what the clauses before it did stays done. */
    method ExecuteDecomposedMerge(stmt: Statement<T, S>, failing: set<nat>) returns (ok: bool, counts: Counts)
      modifies this
      ensures ok ==> (target, counts) == Decomposed(stmt, old(target), source)
      ensures !ok ==> exists i :: i in failing && i < |stmt.whens| && StoppedAt(stmt, old(target), source, i, target, counts)
      ensures failing == {} ==> ok
    {
      hide MatchedPhase, InsertPhase, TableEffect, Inserted;
      var updated: nat, deleted: nat, inserted: nat := 0, 0, 0;
      NoPhase(stmt.on, Effect(target, 0, 0), source);
      for i := 0 to |stmt.whens|
        invariant MatchedPhase(stmt.on, stmt.whens[..i], Effect(old(target), 0, 0), source) == Effect(target, updated, deleted)
      {
        var when := stmt.whens[i];
        MatchedSnoc(stmt.on, stmt.whens, i, Effect(old(target), 0, 0), source);
        if !when.isMatched {
          Untouched(stmt.on, when, target, source);
          continue;
        }
        if when.action.Insert? {
          Untouched(stmt.on, when, target, source);
          continue;
        }
        if i in failing { return false, Counts(updated, deleted, 0); }
        var rows := RunStatement(stmt.on, when);
        if when.action.Update? {
          updated := updated + rows;
        } else {
          deleted := deleted + rows;
        }
      }
      assert stmt.whens[..|stmt.whens|] == stmt.whens;
      ghost var matched := target;
      NoPhase(stmt.on, Effect(target, 0, 0), source);
      for i := 0 to |stmt.whens|
        invariant InsertPhase(stmt.on, stmt.whens[..i], matched, source) == target && |target| == |matched| + inserted
      {
        var when := stmt.whens[i];
        InsertSnoc(stmt.on, stmt.whens, i, matched, source);
        if when.isMatched {
          continue;
        }
        if when.action.Insert? {
          if i in failing { return false, Counts(updated, deleted, inserted); }
          var more := Inserted(stmt.on, when, target, source);
          target := target + more;
          inserted := inserted + |more|;
        }
      }
      return true, Counts(updated, deleted, inserted);
    }

    /** The database runs one UPDATE or DELETE and tells how many rows it changed. */
    method RunStatement(on: seq<(T, S) -> bool>, when: When<T, S>) returns (rows: nat)
      requires when.isMatched && !when.action.Insert?
      modifies this
      ensures var e := TableEffect(on, when, old(target), source);
              target == e.rows && e.updated == (if when.action.Update? then rows else 0)
              && e.deleted == (if when.action.Update? then 0 else rows)
    {
      var e := TableEffect(on, when, target, source);
      OneKind(on, when, target, source);
      target := e.rows;
      return e.updated + e.deleted;
    }
  }

  lemma PhaseStep<T, S>(on: seq<(T, S) -> bool>, whens: seq<When<T, S>>, e: Effect<T>, x: Effect<T>, source: seq<S>)
    requires whens != [] && x == TableEffect(on, whens[0], e.rows, source)
    ensures MatchedPhase(on, whens, e, source) == MatchedPhase(on, whens[1..], Next(e, x), source)
  {
  }

  lemma NoPhase<T, S>(on: seq<(T, S) -> bool>, e: Effect<T>, source: seq<S>)
    ensures MatchedPhase(on, [], e, source) == e && InsertPhase(on, [], e.rows, source) == e.rows
  {
  }

  /** One more clause is carried out on what the clauses before it left. */
  lemma {:induction false} MatchedSnoc<T, S>(on: seq<(T, S) -> bool>, whens: seq<When<T, S>>, i: nat, e: Effect<T>, source: seq<S>)
    requires i < |whens|
    ensures var m := MatchedPhase(on, whens[..i], e, source);
            MatchedPhase(on, whens[..i + 1], e, source) == Next(m, TableEffect(on, whens[i], m.rows, source))
    decreases i
  {
    hide TableEffect;
    if i == 0 {
      assert whens[..1] == [whens[0]] && whens[..1][1..] == [] && whens[..0] == [];
    } else {
      MatchedSnoc(on, whens[1..], i - 1, Next(e, TableEffect(on, whens[0], e.rows, source)), source);
      assert whens[..i][1..] == whens[1..][..i - 1] && whens[..i + 1][1..] == whens[1..][..i];
    }
  }

  lemma {:induction false} InsertSnoc<T, S>(on: seq<(T, S) -> bool>, whens: seq<When<T, S>>, i: nat, target: seq<T>, source: seq<S>)
    requires i < |whens|
    ensures var m := InsertPhase(on, whens[..i], target, source);
            InsertPhase(on, whens[..i + 1], target, source)
            == if whens[i].isMatched || !whens[i].action.Insert? then m else m + Inserted(on, whens[i], m, source)
    decreases i
  {
    hide Inserted;
    if i == 0 {
      assert whens[..1] == [whens[0]] && whens[..1][1..] == [] && whens[..0] == [];
    } else {
      var next := if whens[0].isMatched || !whens[0].action.Insert? then target else target + Inserted(on, whens[0], target, source);
      InsertSnoc(on, whens[1..], i - 1, next, source);
      assert whens[..i][1..] == whens[1..][..i - 1] && whens[..i + 1][1..] == whens[1..][..i];
    }
  }

  lemma OneKind<T, S>(on: seq<(T, S) -> bool>, w: When<T, S>, target: seq<T>, source: seq<S>)
    ensures var e := TableEffect(on, w, target, source);
            (w.action.Update? ==> e.deleted == 0) && (!w.action.Update? ==> e.updated == 0)
  {
  }

  lemma Untouched<T, S>(on: seq<(T, S) -> bool>, w: When<T, S>, target: seq<T>, source: seq<S>)
    requires !w.isMatched || w.action.Insert?
    ensures TableEffect(on, w, target, source) == Effect(target, 0, 0)
  {
    if target != [] {
      Untouched(on, w, target[1..], source);
      assert [target[0]] + target[1..] == target;
    }
  }

  // ------------------------------------------------------------- MERGE in one pass

  predicate Chosen<T, S>(w: When<T, S>, t: T, s: S) {
    w.isMatched && !w.action.Insert? && (w.condition == [] || AnyOf(w.condition, t, s))
  }

  /** The first clause that applies to a matched pair acts on the target row. */
  function Acted<T, S>(whens: seq<When<T, S>>, t: T, s: S): Effect<T> {
    if whens == [] then Effect([t], 0, 0)
    else if !Chosen(whens[0], t, s) then Acted(whens[1..], t, s)
    else match whens[0].action
      case Update(f) => Effect([f(t, s)], 1, 0)
      case Delete => Effect([], 0, 1)
      case Insert(_) => Effect([t], 0, 0)
  }

  function MergedRow<T, S>(stmt: Statement<T, S>, t: T, source: seq<S>): Effect<T> {
    var k := Partner(stmt.on, [], t, source);
    if k == |source| then Effect([t], 0, 0) else Acted(stmt.whens, t, source[k])
  }

  function MergedRows<T, S>(stmt: Statement<T, S>, target: seq<T>, source: seq<S>): Effect<T> {
    if target == [] then Effect([], 0, 0)
    else Plus(MergedRow(stmt, target[0], source), MergedRows(stmt, target[1..], source))
  }

  /** What the first NOT MATCHED clause that applies to the source row inserts. */
  function NewRow<T, S>(whens: seq<When<T, S>>, s: S): seq<T> {
    if whens == [] then []
    else if !whens[0].isMatched && whens[0].action.Insert? && (whens[0].sourceOnly == [] || AnyOfSource(whens[0].sourceOnly, s))
      then [whens[0].action.values(s)]
    else NewRow(whens[1..], s)
  }

  function NewRows<T, S>(stmt: Statement<T, S>, target: seq<T>, source: seq<S>): seq<T> {
    if source == [] then []
    else (if Matches(stmt.on, target, source[0]) then [] else NewRow(stmt.whens, source[0])) + NewRows(stmt, target, source[1..])
  }

  /** Matched rows change or go, unmatched source rows come in; whether a row is matched is
      decided on the target as it was. */
  function Merged<T, S>(stmt: Statement<T, S>, target: seq<T>, source: seq<S>): (seq<T>, Counts) {
    var e := MergedRows(stmt, target, source);
    var more := NewRows(stmt, target, source);
    (e.rows + more, Counts(e.updated, e.deleted, |more|))
  }
}
