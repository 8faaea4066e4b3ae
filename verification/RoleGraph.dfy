/** The graph of roles: paths, the depth-first visit that finds the roles a role inherits, and
    the ancestor query that guards a grant (pkg/identity/service.go,
    pkg/metadata/identity_repository.go). */
module RoleGraph {

  type Id = nat

  /** The parent inherits what the child may do. */
  datatype Edge = Edge(child: Id, parent: Id)

  predicate Linked(es: seq<Edge>, parent: Id, child: Id) { Edge(child, parent) in es }

  predicate IsPath(es: seq<Edge>, p: seq<Id>) {
    |p| > 0 && forall i :: 0 <= i < |p| - 1 ==> Linked(es, p[i], p[i + 1])
  }

  predicate Runs(es: seq<Edge>, p: seq<Id>, a: Id, b: Id) { IsPath(es, p) && p[0] == a && p[|p| - 1] == b }

  /** Down zero or more grants from a to b. */
  ghost predicate Reaches(es: seq<Edge>, a: Id, b: Id) { exists p :: Runs(es, p, a, b) }

  /** Down one or more grants from a to b. */
  ghost predicate Above(es: seq<Edge>, a: Id, b: Id) { exists c :: Linked(es, a, c) && Reaches(es, c, b) }

  ghost predicate Acyclic(es: seq<Edge>) { forall a :: !Above(es, a, a) }

  // ------------------------------------------------------------- paths

  lemma ReachesSelf(es: seq<Edge>, a: Id)
    ensures Reaches(es, a, a)
  {
    assert Runs(es, [a], a, a);
  }

  lemma ReachesStep(es: seq<Edge>, a: Id, b: Id, c: Id)
    requires Linked(es, a, b) && Reaches(es, b, c)
    ensures Reaches(es, a, c)
  {
    var p :| Runs(es, p, b, c);
    var q := [a] + p;
    assert forall i :: 0 < i < |q| ==> q[i] == p[i - 1];
    assert Runs(es, q, a, c);
  }

  lemma {:induction false} Joined(es: seq<Edge>, p: seq<Id>, a: Id, b: Id, c: Id)
    requires Runs(es, p, a, b) && Reaches(es, b, c)
    ensures Reaches(es, a, c)
    decreases |p|
  {
    if |p| > 1 {
      TailRuns(es, p, a, b);
      Joined(es, p[1..], p[1], b, c);
      ReachesStep(es, a, p[1], c);
    }
  }

  lemma TailRuns(es: seq<Edge>, p: seq<Id>, a: Id, b: Id)
    requires Runs(es, p, a, b) && |p| > 1
    ensures Linked(es, a, p[1]) && Runs(es, p[1..], p[1], b)
  {
    assert forall i :: 0 <= i < |p| - 1 ==> p[1..][i] == p[i + 1];
  }

  lemma ReachesTrans(es: seq<Edge>, a: Id, b: Id, c: Id)
    requires Reaches(es, a, b) && Reaches(es, b, c)
    ensures Reaches(es, a, c)
  {
    var p :| Runs(es, p, a, b);
    Joined(es, p, a, b, c);
  }

  /** A set that is closed under grants holds everything its members reach. */
  lemma {:induction false} ClosedHolds(es: seq<Edge>, s: set<Id>, p: seq<Id>, a: Id, b: Id)
    requires Runs(es, p, a, b) && a in s && forall x, y :: x in s && Linked(es, x, y) ==> y in s
    ensures b in s
    decreases |p|
  {
    if |p| > 1 {
      TailRuns(es, p, a, b);
      ClosedHolds(es, s, p[1..], p[1], b);
    }
  }

  lemma {:induction false} MoreEdges(es: seq<Edge>, fs: seq<Edge>, p: seq<Id>, a: Id, b: Id)
    requires Runs(es, p, a, b) && forall e :: e in es ==> e in fs
    ensures Reaches(fs, a, b)
  {
    assert Runs(fs, p, a, b);
  }

  lemma FewerEdgesAcyclic(es: seq<Edge>, fs: seq<Edge>)
    requires Acyclic(fs) && forall e :: e in es ==> e in fs
    ensures Acyclic(es)
  {
    forall a
      ensures !Above(es, a, a)
    {
      if Above(es, a, a) { StillAbove(es, fs, a, a); }
    }
  }

  lemma StillAbove(es: seq<Edge>, fs: seq<Edge>, a: Id, b: Id)
    requires Above(es, a, b) && forall e :: e in es ==> e in fs
    ensures Above(fs, a, b)
  {
    var c :| Linked(es, a, c) && Reaches(es, c, b);
    var p :| Runs(es, p, c, b);
    MoreEdges(es, fs, p, c, b);
  }

  // ------------------------------------------------------------- one more grant

  /** A path in the larger graph avoids the new grant, or goes through it. */
  lemma {:induction false} ThroughNew(es: seq<Edge>, e: Edge, p: seq<Id>, a: Id, b: Id)
    requires Runs(es + [e], p, a, b)
    ensures Reaches(es, a, b) || (Reaches(es, a, e.parent) && Reaches(es, e.child, b))
    decreases |p|
  {
    if |p| == 1 {
      ReachesSelf(es, a);
    } else {
      TailRuns(es + [e], p, a, b);
      ThroughNew(es, e, p[1..], p[1], b);
      if Linked(es, a, p[1]) {
        if Reaches(es, p[1], b) { ReachesStep(es, a, p[1], b); } else { ReachesStep(es, a, p[1], e.parent); }
      } else {
        assert e == Edge(p[1], a);
        ReachesSelf(es, a);
      }
    }
  }

  /** A new grant closes a cycle exactly when its child already reaches its parent. */
  lemma GrantCycle(es: seq<Edge>, e: Edge)
    requires Acyclic(es)
    ensures Acyclic(es + [e]) <==> !Reaches(es, e.child, e.parent)
  {
    var fs := es + [e];
    assert e in fs;
    if Reaches(es, e.child, e.parent) {
      var p :| Runs(es, p, e.child, e.parent);
      MoreEdges(es, fs, p, e.child, e.parent);
      assert Above(fs, e.parent, e.parent);
    } else {
      forall a
        ensures !Above(fs, a, a)
      {
        if Above(fs, a, a) { NoNewCycle(es, e, a); }
      }
    }
  }

  lemma NoNewCycle(es: seq<Edge>, e: Edge, a: Id)
    requires Acyclic(es) && Above(es + [e], a, a)
    ensures Reaches(es, e.child, e.parent)
  {
    var c :| Linked(es + [e], a, c) && Reaches(es + [e], c, a);
    var p :| Runs(es + [e], p, c, a);
    ThroughNew(es, e, p, c, a);
    if Linked(es, a, c) {
      assert Reaches(es, c, a) ==> Above(es, a, a);
      ReachesStep(es, a, c, e.parent);
      ReachesTrans(es, e.child, a, e.parent);
    } else {
      assert e == Edge(c, a);
    }
  }

  // ------------------------------------------------------------- the depth-first visit

  ghost predicate Closed(es: seq<Edge>, s: set<Id>, except: set<Id>) {
    forall x, y :: x in s && x !in except && Linked(es, x, y) ==> y in s
  }

  class Visitor {
    const grants: seq<Edge>
    var wanted: set<Id>

    constructor (grants: seq<Edge>)
      ensures this.grants == grants && wanted == {}
    {
      this.grants := grants;
      wanted := {};
    }

    /** Marks the role and, one after the other, the roles it inherits; `all` bounds the roles
        there are. */
    method Visit(role: Id, ghost all: set<Id>)
      requires role in all && forall e :: e in grants ==> e.child in all
      modifies this
      ensures old(wanted) <= wanted && role in wanted
      ensures forall x :: x in wanted && x !in old(wanted) ==> Reaches(grants, role, x)
      ensures Closed(grants, wanted, old(wanted))
      decreases all - wanted
    {
      if role in wanted {
        return;
      }
      wanted := wanted + {role};
      ReachesSelf(grants, role);
      for i := 0 to |grants|
        invariant old(wanted) + {role} <= wanted
        invariant forall x :: x in wanted && x !in old(wanted) ==> Reaches(grants, role, x)
        invariant Closed(grants, wanted, old(wanted) + {role})
        invariant forall k :: 0 <= k < i && grants[k].parent == role ==> grants[k].child in wanted
      {
        if grants[i].parent == role {
          ghost var before := wanted;
          Visit(grants[i].child, all);
          forall x | x in wanted && x !in before
            ensures Reaches(grants, role, x)
          {
            assert Linked(grants, role, grants[i].child);
            ReachesStep(grants, role, grants[i].child, x);
          }
        }
      }
    }
  }

  /** Visiting from each root finds exactly the roles that some root reaches. */
  method Closure(grants: seq<Edge>, roots: seq<Id>) returns (wanted: set<Id>)
    ensures forall x :: x in wanted <==> exists r :: r in roots && Reaches(grants, r, x)
  {
    var v := new Visitor(grants);
    ghost var all := (set e | e in grants :: e.child) + (set r | r in roots);
    for i := 0 to |roots|
      invariant Closed(grants, v.wanted, {}) && v.grants == grants
      invariant forall k :: 0 <= k < i ==> roots[k] in v.wanted
      invariant forall x :: x in v.wanted ==> exists r :: r in roots && Reaches(grants, r, x)
    {
      ghost var before := v.wanted;
      v.Visit(roots[i], all);
      assert forall x :: x in v.wanted && x !in before ==> roots[i] in roots && Reaches(grants, roots[i], x);
    }
    wanted := v.wanted;
    forall r, x | r in roots && Reaches(grants, r, x)
      ensures x in wanted
    {
      var p :| Runs(grants, p, r, x);
      ClosedHolds(grants, wanted, p, r, x);
    }
  }

  // ------------------------------------------------------------- the ancestor query

  function ParentsOf(es: seq<Edge>, s: set<Id>): set<Id> { set e | e in es && e.child in s :: e.parent }

  lemma ParentsAre(es: seq<Edge>, s: set<Id>, x: Id)
    ensures x in ParentsOf(es, s) <==> exists c :: c in s && Linked(es, x, c)
  {
    if x in ParentsOf(es, s) {
      var e :| e in es && e.child in s && e.parent == x;
      assert Linked(es, x, e.child);
    }
    if c :| c in s && Linked(es, x, c) { assert Edge(c, x) in es; }
  }

  /** The recursive query: everything above `start`. */
  method Ancestors(es: seq<Edge>, start: Id) returns (up: set<Id>)
    ensures forall x :: x in up <==> Above(es, x, start)
  {
    ghost var all := set e | e in es :: e.parent;
    up := ParentsOf(es, {start});
    FirstParents(es, start, up);
    var newest := up;
    while newest != {}
      invariant newest <= up <= all && ParentsOf(es, {start}) <= up
      invariant forall x :: x in up ==> Above(es, x, start)
      invariant ParentsOf(es, up - newest) <= up
      decreases all - up, |newest|
    {
      var next := ParentsOf(es, newest) - up;
      AboveParents(es, start, newest);
      assert ParentsOf(es, up) <= up + next by { ParentsSplit(es, up, newest); }
      assert (up + next) - next == up;
      up := up + next;
      newest := next;
    }
    assert up - newest == up;
    forall x | Above(es, x, start)
      ensures x in up
    {
      var c :| Linked(es, x, c) && Reaches(es, c, start);
      var p :| Runs(es, p, c, start);
      AllAbove(es, start, up, p, c, x);
    }
  }

  lemma FirstParents(es: seq<Edge>, start: Id, up: set<Id>)
    requires up == ParentsOf(es, {start})
    ensures forall x :: x in up ==> Above(es, x, start)
  {
    forall x | x in up
      ensures Above(es, x, start)
    {
      ParentsAre(es, {start}, x);
      ReachesSelf(es, start);
    }
  }

  lemma ParentsSplit(es: seq<Edge>, up: set<Id>, newest: set<Id>)
    requires newest <= up && ParentsOf(es, up - newest) <= up
    ensures ParentsOf(es, up) <= up + ParentsOf(es, newest)
  {
    forall x | x in ParentsOf(es, up)
      ensures x in up + ParentsOf(es, newest)
    {
      var e :| e in es && e.child in up && e.parent == x;
      if e.child !in newest { assert x in ParentsOf(es, up - newest); }
    }
  }

  lemma AboveParents(es: seq<Edge>, start: Id, s: set<Id>)
    requires forall x :: x in s ==> Above(es, x, start)
    ensures forall x :: x in ParentsOf(es, s) ==> Above(es, x, start)
  {
    forall x | x in ParentsOf(es, s)
      ensures Above(es, x, start)
    {
      ParentsAre(es, s, x);
      var c :| c in s && Linked(es, x, c);
      assert Above(es, c, start);
      var d :| Linked(es, c, d) && Reaches(es, d, start);
      ReachesStep(es, c, d, start);
    }
  }

  lemma {:induction false} AllAbove(es: seq<Edge>, start: Id, up: set<Id>, p: seq<Id>, c: Id, x: Id)
    requires Runs(es, p, c, start) && Linked(es, x, c)
    requires ParentsOf(es, {start}) <= up && ParentsOf(es, up) <= up
    ensures x in up
    decreases |p|
  {
    if |p| == 1 {
      ParentsAre(es, {start}, x);
    } else {
      TailRuns(es, p, c, start);
      AllAbove(es, start, up, p[1..], p[1], c);
      ParentsAre(es, up, x);
    }
  }

  /** Between two different roles, being above is the same as reaching. */
  lemma AboveIsReaching(es: seq<Edge>, a: Id, b: Id)
    requires a != b
    ensures Above(es, a, b) <==> Reaches(es, a, b)
  {
    if Above(es, a, b) {
      var c :| Linked(es, a, c) && Reaches(es, c, b);
      ReachesStep(es, a, c, b);
    }
    if Reaches(es, a, b) {
      var p :| Runs(es, p, a, b);
      TailRuns(es, p, a, b);
    }
  }
}
