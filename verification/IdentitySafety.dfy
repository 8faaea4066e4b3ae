/** What holds of the identity catalog in every reachable state: the role graph has no cycle, and
    every user's default role exists and is effective. */
module IdentitySafety {
  import opened Text
  import opened RoleGraph
  import opened Identity

  // ------------------------------------------------------------- the invariant

  predicate DistinctRoles(roles: seq<Role>) {
    forall i, j :: 0 <= i < j < |roles| ==> roles[i].id != roles[j].id && roles[i].name != roles[j].name
  }

  predicate DistinctUsers(users: seq<User>) {
    forall i, j :: 0 <= i < j < |users| ==> users[i].id != users[j].id && users[i].name != users[j].name
  }

  /** System roles are those with the reserved names. */
  predicate Marked(roles: seq<Role>) { forall r :: r in roles ==> (r.system <==> r.name in SYSTEM) }

  predicate Exists(roles: seq<Role>, id: Id) { exists r :: r in roles && r.id == id }

  predicate IsSystem(roles: seq<Role>, id: Id) { exists r :: r in roles && r.id == id && r.system }

  predicate Named(roles: seq<Role>, name: string) { exists r :: r in roles && r.name == name }

  predicate Complete(roles: seq<Role>) { forall s :: s in SYSTEM ==> Named(roles, s) }

  predicate RolesOk(roles: seq<Role>) { DistinctRoles(roles) && Marked(roles) }

  /** A user's name is stored normalized, and its default role exists and is granted to it. */
  predicate UserOk(c: Catalog, u: User) {
    Name(u.name) == u.name && Exists(c.roles, u.defaultRole) && RoleGrant(u.id, u.defaultRole) in c.grants
  }

  predicate GrantOk(c: Catalog, g: RoleGrant) {
    Exists(c.roles, g.role) && exists u :: u in c.users && u.id == g.user
  }

  /** A grant joins two ordinary roles, or is one of the fixed hierarchy. */
  predicate EdgeOk(roles: seq<Role>, e: Edge) {
    exists x, y :: x in roles && y in roles && x.id == e.child && y.id == e.parent
                   && if x.system || y.system then (x.name, y.name) in HIERARCHY && x.system && y.system else true
  }

  predicate EdgesOk(roles: seq<Role>, edges: seq<Edge>) { forall e :: e in edges ==> EdgeOk(roles, e) }

  ghost predicate Good(c: Catalog) {
    && RolesOk(c.roles) && Complete(c.roles) && DistinctUsers(c.users)
    && (forall u :: u in c.users ==> UserOk(c, u))
    && (forall g :: g in c.grants ==> GrantOk(c, g))
    && EdgesOk(c.roles, c.edges) && Acyclic(c.edges)
  }

  // ------------------------------------------------------------- events

  datatype Event =
    | Bootstrap(ids: seq<Id>, admin: Id)
    | CreateRole(name: string, id: Id)
    | DeleteRole(name: string)
    | CreateUser(name: string, role: string, disabled: bool, id: Id)
    | AlterUser(name: string, newRole: Option<string>, newDisabled: Option<bool>)
    | DeleteUser(name: string)
    | GrantToUser(role: string, user: string)
    | RevokeFromUser(role: string, user: string)
    | GrantToRole(child: string, parent: string)
    | RevokeFromRole(child: string, parent: string)

  predicate NewRole(c: Catalog, id: Id) { !Exists(c.roles, id) }

  predicate NewUser(c: Catalog, id: Id) { forall u :: u in c.users ==> u.id != id }

  /** New rows get identifiers that no row has. */
  predicate Fresh(c: Catalog, e: Event) {
    match e
    case Bootstrap(ids, admin) =>
      && |ids| == |SYSTEM| && NewUser(c, admin)
      && (forall i, j :: 0 <= i < j < |ids| ==> ids[i] != ids[j]) && forall i :: 0 <= i < |ids| ==> NewRole(c, ids[i])
    case CreateRole(_, id) => NewRole(c, id)
    case CreateUser(_, _, _, id) => NewUser(c, id)
    case _ => true
  }

  ghost function Step(c: Catalog, e: Event): Catalog
    requires Fresh(c, e)
  {
    match e
    case Bootstrap(ids, admin) => BootstrapStep(c, ids, admin)
    case CreateRole(name, id) => CreateRoleStep(c, name, id).0
    case DeleteRole(name) => DeleteRoleStep(c, name).0
    case CreateUser(name, role, disabled, id) => CreateUserStep(c, name, role, disabled, id).0
    case AlterUser(name, role, disabled) => AlterUserStep(c, name, role, disabled).0
    case DeleteUser(name) => DeleteUserStep(c, name).0
    case GrantToUser(role, user) => GrantToUserStep(c, role, user).0
    case RevokeFromUser(role, user) => RevokeFromUserStep(c, role, user).0
    case GrantToRole(child, parent) => GrantToRoleStep(c, child, parent).0
    case RevokeFromRole(child, parent) => RevokeFromRoleStep(c, child, parent).0
  }

  ghost predicate AllFresh(c: Catalog, es: seq<Event>)
    decreases |es|
  {
    es == [] || (Fresh(c, es[0]) && AllFresh(Step(c, es[0]), es[1..]))
  }

  ghost function Run(c: Catalog, es: seq<Event>): Catalog
    requires AllFresh(c, es)
    decreases |es|
  {
    if es == [] then c else Run(Step(c, es[0]), es[1..])
  }

  // ------------------------------------------------------------- names

  /** A normalized name is normalized. */
  lemma NameTwice(v: string)
    ensures Name(Name(v)) == Name(v)
  {
    UpperTrimmed(Trim(v));
    var u := Name(v);
    hide Trim, Trimmed;
    TrimPadded("", u, "");
    assert "" + u + "" == u;
  }

  lemma UpperTrimmed(t: string)
    requires Trimmed(t)
    ensures Trimmed(Upper(t)) && Upper(Upper(t)) == Upper(t)
  {
    var u := Upper(t);
    assert forall i :: 0 <= i < |u| ==> Up(u[i]) == u[i];
    assert Upper(u) == u;
  }

  // ------------------------------------------------------------- the graph

  /** The fixed hierarchy falls along every grant. */
  function Rank(name: string): int {
    if name == ACCOUNTADMIN then 3
    else if name == SECURITYADMIN then 2
    else if name == SYSADMIN || name == USERADMIN then 1
    else 0
  }

  lemma HierarchyFalls(pair: (string, string))
    requires pair in HIERARCHY
    ensures Rank(pair.0) < Rank(pair.1) && pair.0 in SYSTEM && pair.1 in SYSTEM
  {
    assert HIERARCHY[0] == (SECURITYADMIN, ACCOUNTADMIN) && HIERARCHY[1] == (USERADMIN, SECURITYADMIN);
    assert HIERARCHY[2] == (SYSADMIN, ACCOUNTADMIN) && HIERARCHY[3] == (PUBLIC, SYSADMIN);
    assert SYSTEM[0] == ACCOUNTADMIN && SYSTEM[1] == SECURITYADMIN && SYSTEM[2] == USERADMIN;
    assert SYSTEM[3] == SYSADMIN && SYSTEM[4] == PUBLIC;
  }

  lemma OneRole(roles: seq<Role>, x: Role, y: Role)
    requires DistinctRoles(roles) && x in roles && y in roles && (x.id == y.id || x.name == y.name)
    ensures x == y
  {
    var i :| 0 <= i < |roles| && roles[i] == x;
    var j :| 0 <= j < |roles| && roles[j] == y;
  }

  /** From a system role only system roles of lower rank are reached. */
  lemma {:induction false} SystemFalls(roles: seq<Role>, es: seq<Edge>, p: seq<Id>, a: Id, b: Id, x: Role, y: Role)
    requires DistinctRoles(roles) && EdgesOk(roles, es) && Runs(es, p, a, b)
    requires x in roles && y in roles && x.id == a && y.id == b && x.system
    ensures Rank(y.name) <= Rank(x.name) && (|p| > 1 ==> Rank(y.name) < Rank(x.name))
    decreases |p|
  {
    if |p| == 1 {
      OneRole(roles, x, y);
    } else {
      TailRuns(es, p, a, b);
      assert EdgeOk(roles, Edge(p[1], a));
      var z, x2 :| z in roles && x2 in roles && z.id == p[1] && x2.id == a
                   && if z.system || x2.system then (z.name, x2.name) in HIERARCHY && z.system && x2.system else true;
      OneRole(roles, x, x2);
      HierarchyFalls((z.name, x2.name));
      SystemFalls(roles, es, p[1..], p[1], b, z, y);
    }
  }

  /** From an ordinary role only ordinary grants are followed. */
  lemma {:induction false} OrdinaryOld(roles: seq<Role>, es: seq<Edge>, fs: seq<Edge>, p: seq<Id>, a: Id, b: Id)
    requires DistinctRoles(roles) && EdgesOk(roles, fs) && Runs(fs, p, a, b) && !IsSystem(roles, a)
    requires forall e :: e in fs && e !in es ==> IsSystem(roles, e.parent)
    ensures Reaches(es, a, b)
    decreases |p|
  {
    if |p| == 1 {
      ReachesSelf(es, a);
    } else {
      TailRuns(fs, p, a, b);
      assert EdgeOk(roles, Edge(p[1], a));
      OrdinaryChild(roles, Edge(p[1], a));
      OrdinaryOld(roles, es, fs, p[1..], p[1], b);
      ReachesStep(es, a, p[1], b);
    }
  }

  lemma OrdinaryChild(roles: seq<Role>, e: Edge)
    requires DistinctRoles(roles) && EdgeOk(roles, e) && !IsSystem(roles, e.parent)
    ensures !IsSystem(roles, e.child)
  {
    var x, y :| x in roles && y in roles && x.id == e.child && y.id == e.parent
                && if x.system || y.system then (x.name, y.name) in HIERARCHY && x.system && y.system else true;
    forall r | r in roles && r.id == e.child
      ensures !r.system
    {
      OneRole(roles, r, x);
    }
  }

  /** Grants of the fixed hierarchy never close a cycle. */
  lemma HierarchyAcyclic(roles: seq<Role>, es: seq<Edge>, fs: seq<Edge>)
    requires DistinctRoles(roles) && EdgesOk(roles, fs) && Acyclic(es)
    requires forall e :: e in fs && e !in es ==> IsSystem(roles, e.parent)
    ensures Acyclic(fs)
  {
    forall a
      ensures !Above(fs, a, a)
    {
      if Above(fs, a, a) { CycleIsOld(roles, es, fs, a); }
    }
  }

  lemma CycleIsOld(roles: seq<Role>, es: seq<Edge>, fs: seq<Edge>, a: Id)
    requires DistinctRoles(roles) && EdgesOk(roles, fs) && Above(fs, a, a)
    requires forall e :: e in fs && e !in es ==> IsSystem(roles, e.parent)
    ensures Above(es, a, a)
  {
    var c :| Linked(fs, a, c) && Reaches(fs, c, a);
    var p :| Runs(fs, p, c, a);
    assert EdgeOk(roles, Edge(c, a));
    if IsSystem(roles, a) {
      var x :| x in roles && x.id == a && x.system;
      var q := [a] + p;
      assert forall i :: 0 < i < |q| ==> q[i] == p[i - 1];
      assert Runs(fs, q, a, a);
      SystemFalls(roles, fs, q, a, a, x, x);
    } else {
      OrdinaryChild(roles, Edge(c, a));
      OrdinaryOld(roles, es, fs, p, c, a);
    }
  }

  // ------------------------------------------------------------- bootstrap

  lemma NamedIff(roles: seq<Role>, name: string)
    ensures RoleNamed(roles, name) < |roles| <==> Named(roles, name)
  {
    var k := RoleNamed(roles, name);
    if k < |roles| { assert roles[k] in roles; }
  }

  lemma WithIdIff(roles: seq<Role>, id: Id)
    ensures RoleWithId(roles, id) < |roles| <==> Exists(roles, id)
  {
    var k := RoleWithId(roles, id);
    if k < |roles| { assert roles[k] in roles; }
  }

  lemma EnsureOne(roles: seq<Role>, name: string, id: Id)
    requires RolesOk(roles) && name in SYSTEM && !Exists(roles, id)
    ensures var v := EnsureRole(roles, name, id);
            && RolesOk(v) && (forall r :: r in roles ==> r in v) && Named(v, name)
            && forall i :: Exists(v, i) ==> Exists(roles, i) || i == id
  {
    var k := RoleNamed(roles, name);
    var v := EnsureRole(roles, name, id);
    if k < |roles| {
      assert roles[k] in roles;
      assert v == roles;
    } else {
      assert v[|roles|].name == name;
      assert forall i :: 0 <= i < |roles| ==> roles[i] in roles && roles[i].id != id;
    }
  }

  lemma {:induction false} EnsureAll(roles: seq<Role>, names: seq<string>, ids: seq<Id>)
    requires RolesOk(roles) && |names| == |ids| && (forall n :: n in names ==> n in SYSTEM)
    requires (forall i, j :: 0 <= i < j < |ids| ==> ids[i] != ids[j]) && forall i :: 0 <= i < |ids| ==> !Exists(roles, ids[i])
    ensures var v := EnsureRoles(roles, names, ids);
            && RolesOk(v) && (forall r :: r in roles ==> r in v) && forall n :: n in names ==> Named(v, n)
    decreases |names|
  {
    if names != [] {
      EnsureOne(roles, names[0], ids[0]);
      var v := EnsureRole(roles, names[0], ids[0]);
      hide RolesOk, Exists, Named, EnsureRole;
      forall i | 0 <= i < |ids[1..]|
        ensures !Exists(v, ids[1..][i])
      {
        assert ids[1..][i] == ids[i + 1];
      }
      EnsureAll(v, names[1..], ids[1..]);
      var last := EnsureRoles(v, names[1..], ids[1..]);
      StillNamed(v, last, names[0]);
      assert forall n :: n in names ==> n == names[0] || n in names[1..];
    }
  }

  lemma StillNamed(roles: seq<Role>, more: seq<Role>, name: string)
    requires Named(roles, name) && forall r :: r in roles ==> r in more
    ensures Named(more, name)
  {
  }

  lemma {:induction false} EnsuredEdges(roles: seq<Role>, edges: seq<Edge>, pairs: seq<(string, string)>)
    requires RolesOk(roles) && EdgesOk(roles, edges) && forall p :: p in pairs ==> p in HIERARCHY
    ensures var fs := EnsureEdges(roles, edges, pairs);
            && EdgesOk(roles, fs) && (forall e :: e in edges ==> e in fs)
            && forall e :: e in fs && e !in edges ==> IsSystem(roles, e.parent)
    decreases |pairs|
  {
    if pairs != [] {
      var next := EnsureEdge(roles, edges, pairs[0]);
      OneEdge(roles, edges, pairs[0]);
      EnsuredEdges(roles, next, pairs[1..]);
    }
  }

  lemma OneEdge(roles: seq<Role>, edges: seq<Edge>, pair: (string, string))
    requires RolesOk(roles) && EdgesOk(roles, edges) && pair in HIERARCHY
    ensures var fs := EnsureEdge(roles, edges, pair);
            && EdgesOk(roles, fs) && (forall e :: e in edges ==> e in fs)
            && forall e :: e in fs && e !in edges ==> IsSystem(roles, e.parent)
  {
    HierarchyFalls(pair);
    var c, p := RoleNamed(roles, pair.0), RoleNamed(roles, pair.1);
    if c < |roles| && p < |roles| {
      assert roles[c] in roles && roles[p] in roles && roles[c].system && roles[p].system;
      assert EdgeOk(roles, Edge(roles[c].id, roles[p].id));
    }
  }

  /** Nothing but a catalog without rows, or a good one. */
  predicate Empty(c: Catalog) { c.roles == [] && c.users == [] && c.grants == [] && c.edges == [] }

  lemma MoreRoles(roles: seq<Role>, more: seq<Role>, e: Edge)
    requires EdgeOk(roles, e) && forall r :: r in roles ==> r in more
    ensures EdgeOk(more, e)
  {
    var x, y :| x in roles && y in roles && x.id == e.child && y.id == e.parent
                && if x.system || y.system then (x.name, y.name) in HIERARCHY && x.system && y.system else true;
    assert x in more && y in more;
  }

  lemma BootstrapGood(c: Catalog, ids: seq<Id>, admin: Id)
    requires (Good(c) || Empty(c)) && Fresh(c, Bootstrap(ids, admin))
    ensures Good(BootstrapStep(c, ids, admin))
  {
    var v := BootstrapStep(c, ids, admin);
    if Empty(c) { NoCycleAtAll(); }
    EnsureAll(c.roles, SYSTEM, ids);
    assert v.roles == EnsureRoles(c.roles, SYSTEM, ids);
    assert v.edges == EnsureEdges(v.roles, c.edges, HIERARCHY);
    BootstrapEdges(c, v);
    hide EnsureRoles, EnsureEdges, Acyclic, EdgesOk, RolesOk;
    BootstrapUsers(c, v, admin);
  }

  lemma BootstrapEdges(c: Catalog, v: Catalog)
    requires RolesOk(v.roles) && EdgesOk(c.roles, c.edges) && Acyclic(c.edges) && forall r :: r in c.roles ==> r in v.roles
    requires v.edges == EnsureEdges(v.roles, c.edges, HIERARCHY)
    ensures EdgesOk(v.roles, v.edges) && Acyclic(v.edges)
  {
    hide Acyclic, EnsureEdges, RolesOk, EdgeOk;
    forall e | e in c.edges
      ensures EdgeOk(v.roles, e)
    {
      MoreRoles(c.roles, v.roles, e);
    }
    EnsuredEdges(v.roles, c.edges, HIERARCHY);
    RolesAreDistinct(v.roles);
    HierarchyAcyclic(v.roles, c.edges, v.edges);
  }

  lemma RolesAreDistinct(roles: seq<Role>)
    requires RolesOk(roles)
    ensures DistinctRoles(roles)
  {
  }

  lemma AdminIsSystem()
    ensures ACCOUNTADMIN in SYSTEM
  {
    assert SYSTEM[0] == ACCOUNTADMIN;
  }

  lemma BootstrapUsers(c: Catalog, v: Catalog, admin: Id)
    requires (Good(c) || Empty(c)) && Complete(v.roles) && forall r :: r in c.roles ==> r in v.roles
    requires var k := RoleNamed(v.roles, ACCOUNTADMIN);
             if c.users != [] || k == |v.roles| then v.users == c.users && v.grants == c.grants
             else v.users == [User(admin, DEMO_ADMIN, v.roles[k].id, false)]
                  && v.grants == c.grants + [RoleGrant(admin, v.roles[k].id)]
    ensures DistinctUsers(v.users) && (forall u :: u in v.users ==> UserOk(v, u)) && (forall g :: g in v.grants ==> GrantOk(v, g))
  {
    AdminIsSystem();
    NamedIff(v.roles, ACCOUNTADMIN);
    assert Named(v.roles, ACCOUNTADMIN);
    AdminName();
    hide Acyclic, EdgesOk, RolesOk, Complete, RoleNamed, Name;
    if c.users != [] {
      StillUsers(c, v);
    } else {
      var k := RoleNamed(v.roles, ACCOUNTADMIN);
      assert v.roles[k] in v.roles;
      NoGrants(c);
      FirstUser(v, v.users[0]);
    }
  }

  lemma NoGrants(c: Catalog)
    requires c.users == [] && forall g :: g in c.grants ==> GrantOk(c, g)
    ensures c.grants == []
  {
    assert c.grants != [] ==> GrantOk(c, c.grants[0]);
  }

  lemma NoCycleAtAll()
    ensures Acyclic([])
  {
  }

  lemma AdminName()
    ensures Name(DEMO_ADMIN) == DEMO_ADMIN
  {
    var s := DEMO_ADMIN;
    assert Upper(s) == s && Trimmed(s);
    hide Trim, Trimmed;
    TrimPadded("", s, "");
    assert "" + s + "" == s;
  }

  lemma FirstUser(v: Catalog, u: User)
    requires v.users == [u] && v.grants == [RoleGrant(u.id, u.defaultRole)] && Exists(v.roles, u.defaultRole) && Name(u.name) == u.name
    ensures DistinctUsers(v.users) && (forall x :: x in v.users ==> UserOk(v, x)) && forall g :: g in v.grants ==> GrantOk(v, g)
  {
    assert u in v.users;
  }

  /** More roles and the same users and grants. */
  lemma StillUsers(c: Catalog, v: Catalog)
    requires (forall u :: u in c.users ==> UserOk(c, u)) && (forall g :: g in c.grants ==> GrantOk(c, g))
    requires v.users == c.users && v.grants == c.grants && forall r :: r in c.roles ==> r in v.roles
    ensures (forall u :: u in v.users ==> UserOk(v, u)) && (forall g :: g in v.grants ==> GrantOk(v, g))
  {
    hide Name;
    forall u | u in v.users
      ensures UserOk(v, u)
    {
      assert UserOk(c, u);
    }
    forall g | g in v.grants
      ensures GrantOk(v, g)
    {
      assert GrantOk(c, g);
    }
  }

  // ------------------------------------------------------------- roles

  lemma CreateRoleGood(c: Catalog, name: string, id: Id)
    requires Good(c) && NewRole(c, id)
    ensures Good(CreateRoleStep(c, name, id).0)
  {
    var v := CreateRoleStep(c, name, id).0;
    var n := Name(name);
    if v != c {
      NamedIff(c.roles, n);
      hide Acyclic, Name;
      assert n !in SYSTEM;
      assert forall i :: 0 <= i < |c.roles| ==> c.roles[i] in c.roles;
      StillUsers(c, v);
      forall e | e in v.edges
        ensures EdgeOk(v.roles, e)
      {
        MoreRoles(c.roles, v.roles, e);
      }
    }
  }

  lemma DeleteRoleGood(c: Catalog, name: string)
    requires Good(c)
    ensures Good(DeleteRoleStep(c, name).0)
  {
    var v := DeleteRoleStep(c, name).0;
    if v != c {
      var k := RoleNamed(c.roles, Name(name));
      var gone := c.roles[k];
      hide Acyclic, Name, RoleNamed, DropPrivileges;
      RolesLeft(c.roles, k);
      assert v.roles == c.roles[..k] + c.roles[k + 1..];
      forall u | u in v.users
        ensures UserOk(v, u)
      {
        assert UserOk(c, u) && u.defaultRole != gone.id;
      }
      forall g | g in v.grants
        ensures GrantOk(v, g)
      {
        assert GrantOk(c, g) && g.role != gone.id;
      }
      forall e | e in v.edges
        ensures EdgeOk(v.roles, e)
      {
        EdgeLeft(c.roles, k, e);
      }
    }
  }

  lemma RolesLeft(roles: seq<Role>, k: nat)
    requires RolesOk(roles) && Complete(roles) && k < |roles| && !roles[k].system
    ensures var v := roles[..k] + roles[k + 1..];
            && RolesOk(v) && Complete(v) && forall i :: i != roles[k].id && Exists(roles, i) ==> Exists(v, i)
  {
    var v := roles[..k] + roles[k + 1..];
    StillDistinct(roles, k);
    assert roles[k] in roles;
    forall s | s in SYSTEM
      ensures Named(v, s)
    {
      assert Named(roles, s);
      var r :| r in roles && r.name == s;
      Left(roles, k, r);
    }
    forall i | i != roles[k].id && Exists(roles, i)
      ensures Exists(v, i)
    {
      var r :| r in roles && r.id == i;
      Left(roles, k, r);
    }
  }

  lemma StillDistinct(roles: seq<Role>, k: nat)
    requires RolesOk(roles) && k < |roles|
    ensures RolesOk(roles[..k] + roles[k + 1..])
  {
    var v := roles[..k] + roles[k + 1..];
    assert forall i :: 0 <= i < |v| ==> v[i] == roles[if i < k then i else i + 1];
  }

  lemma EdgeLeft(roles: seq<Role>, k: nat, e: Edge)
    requires k < |roles| && EdgeOk(roles, e) && e.child != roles[k].id && e.parent != roles[k].id
    ensures EdgeOk(roles[..k] + roles[k + 1..], e)
  {
    var v := roles[..k] + roles[k + 1..];
    var x, y :| x in roles && y in roles && x.id == e.child && y.id == e.parent
                && if x.system || y.system then (x.name, y.name) in HIERARCHY && x.system && y.system else true;
    Left(roles, k, x);
    Left(roles, k, y);
  }

  lemma Left(roles: seq<Role>, k: nat, r: Role)
    requires k < |roles| && r in roles && r != roles[k]
    ensures r in roles[..k] + roles[k + 1..]
  {
    var v := roles[..k] + roles[k + 1..];
    var i :| 0 <= i < |roles| && roles[i] == r;
    assert v[if i < k then i else i - 1] == r;
  }

  // ------------------------------------------------------------- users

  lemma CreateUserGood(c: Catalog, name: string, role: string, disabled: bool, id: Id)
    requires Good(c) && NewUser(c, id)
    ensures Good(CreateUserStep(c, name, role, disabled, id).0)
  {
    var v := CreateUserStep(c, name, role, disabled, id).0;
    if v != c {
      NameTwice(name);
      var u := v.users[|c.users|];
      assert c.roles[RoleNamed(c.roles, Name(role))] in c.roles;
      assert forall i :: 0 <= i < |c.users| ==> c.users[i].name != u.name;
      hide Acyclic, Name, RoleNamed, UserNamed, EdgesOk, RolesOk, Complete, CreateUserStep;
      AddedUser(c, v, u);
    }
  }

  lemma AddedUser(c: Catalog, v: Catalog, u: User)
    requires Good(c) && NewUser(c, u.id) && forall i :: 0 <= i < |c.users| ==> c.users[i].name != u.name
    requires v.roles == c.roles && v.users == c.users + [u] && v.grants == AddGrant(c.grants, RoleGrant(u.id, u.defaultRole))
    requires Exists(c.roles, u.defaultRole) && Name(u.name) == u.name
    ensures DistinctUsers(v.users) && (forall x :: x in v.users ==> UserOk(v, x)) && forall g :: g in v.grants ==> GrantOk(v, g)
  {
    hide Acyclic, Name, EdgesOk, RolesOk, Complete;
    assert forall i :: 0 <= i < |c.users| ==> c.users[i] in c.users;
    forall x | x in v.users
      ensures UserOk(v, x)
    {
      if x != u { assert UserOk(c, x); }
    }
    assert u in v.users;
    forall g | g in v.grants
      ensures GrantOk(v, g)
    {
      if g in c.grants { assert GrantOk(c, g); StillGranted(c, v, g); }
    }
  }

  lemma StillGranted(c: Catalog, v: Catalog, g: RoleGrant)
    requires GrantOk(c, g) && v.roles == c.roles && forall u :: u in c.users ==> exists w :: w in v.users && w.id == u.id
    ensures GrantOk(v, g)
  {
    var u :| u in c.users && u.id == g.user;
    var w :| w in v.users && w.id == u.id;
  }

  lemma AlterUserGood(c: Catalog, name: string, role: Option<string>, disabled: Option<bool>)
    requires Good(c)
    ensures Good(AlterUserStep(c, name, role, disabled).0)
  {
    hide Good, TheRole, HasRole, Name, UserNamed, RoleWithId, SetUser;
    if HasUser(c, name) && !(role.Some? && !HasRole(c, role.value)) {
      var k := UserNamed(c.users, Name(name));
      var u := c.users[k];
      var v := u.(defaultRole := if role.Some? then TheRole(c, role.value).id else u.defaultRole,
                  disabled := if disabled.Some? then disabled.value else u.disabled);
      if RoleWithId(c.roles, v.defaultRole) < |c.roles| { SetUserGood(c, k, v); }
    }
  }

  lemma SetUserGood(c: Catalog, k: nat, u: User)
    requires Good(c) && k < |c.users| && u.id == c.users[k].id && u.name == c.users[k].name
    requires RoleWithId(c.roles, u.defaultRole) < |c.roles|
    ensures Good(SetUser(c, k, u))
  {
    WithIdIff(c.roles, u.defaultRole);
    assert c.users[k] in c.users && UserOk(c, c.users[k]);
    hide Acyclic, Name, RoleWithId, EdgesOk, Complete, RolesOk, GrantOk, DistinctUsers, Exists;
    ChangedUser(c, SetUser(c, k, u), k, u);
  }

  lemma ChangedUser(c: Catalog, v: Catalog, k: nat, u: User)
    requires Good(c) && k < |c.users| && v == SetUser(c, k, u) && u.id == c.users[k].id && u.name == c.users[k].name
    requires Exists(c.roles, u.defaultRole) && Name(u.name) == u.name
    ensures DistinctUsers(v.users) && (forall x :: x in v.users ==> UserOk(v, x)) && forall g :: g in v.grants ==> GrantOk(v, g)
  {
    hide Acyclic, Name, EdgesOk, RolesOk, Complete;
    ChangedDistinct(c.users, k, u);
    ChangedGrants(c, v, k, u);
    hide DistinctUsers, GrantOk;
    forall x | x in v.users
      ensures UserOk(v, x)
    {
      if x != u { assert x in c.users && UserOk(c, x); }
    }
  }

  lemma ChangedGrants(c: Catalog, v: Catalog, k: nat, u: User)
    requires (forall g :: g in c.grants ==> GrantOk(c, g)) && k < |c.users| && v == SetUser(c, k, u) && u.id == c.users[k].id
    requires Exists(c.roles, u.defaultRole) && u in v.users && forall x :: x in c.users ==> exists y :: y in v.users && y.id == x.id
    ensures forall g :: g in v.grants ==> GrantOk(v, g)
  {
    forall g | g in v.grants
      ensures GrantOk(v, g)
    {
      if g in c.grants { StillGranted(c, v, g); }
    }
  }

  lemma ChangedDistinct(users: seq<User>, k: nat, u: User)
    requires DistinctUsers(users) && k < |users| && u.id == users[k].id && u.name == users[k].name
    ensures DistinctUsers(users[k := u]) && u in users[k := u]
    ensures forall w :: w in users ==> exists x :: x in users[k := u] && x.id == w.id
    ensures forall x :: x in users[k := u] && x != u ==> x in users
  {
    var v := users[k := u];
    assert v[k] == u;
    forall w | w in users
      ensures exists x :: x in v && x.id == w.id
    {
      var i :| 0 <= i < |users| && users[i] == w;
      assert v[i] in v && v[i].id == w.id;
    }
  }

  lemma DeleteUserGood(c: Catalog, name: string)
    requires Good(c)
    ensures Good(DeleteUserStep(c, name).0)
  {
    var v := DeleteUserStep(c, name).0;
    if v != c {
      var k := UserNamed(c.users, Name(name));
      var gone := c.users[k];
      UsersLeft(c.users, k);
      hide Acyclic, Name, UserNamed, EdgesOk, RolesOk, Complete, DistinctUsers, DropGrantsOf;
      assert v.users == c.users[..k] + c.users[k + 1..];
      forall x | x in v.users
        ensures UserOk(v, x)
      {
        assert UserOk(c, x);
      }
      forall g | g in v.grants
        ensures GrantOk(v, g)
      {
        assert GrantOk(c, g) && g.user != gone.id;
        var u :| u in c.users && u.id == g.user;
        assert u in v.users;
      }
    }
  }

  lemma UsersLeft(users: seq<User>, k: nat)
    requires DistinctUsers(users) && k < |users|
    ensures var v := users[..k] + users[k + 1..];
            && DistinctUsers(v) && (forall x :: x in v ==> x in users && x.id != users[k].id)
            && forall x :: x in users && x.id != users[k].id ==> x in v
  {
    var v := users[..k] + users[k + 1..];
    assert forall i :: 0 <= i < |v| ==> v[i] == users[if i < k then i else i + 1];
    forall x | x in users && x.id != users[k].id
      ensures x in v
    {
      var i :| 0 <= i < |users| && users[i] == x;
      assert v[if i < k then i else i - 1] == x;
    }
  }

  lemma GrantToUserGood(c: Catalog, role: string, user: string)
    requires Good(c)
    ensures Good(GrantToUserStep(c, role, user).0)
  {
    hide Good, Name, TheUser, TheRole, HasUser, HasRole;
    if HasUser(c, user) && HasRole(c, role) { GrantAddedGood(c, user, role); }
  }

  lemma GrantAddedGood(c: Catalog, user: string, role: string)
    requires Good(c) && HasUser(c, user) && HasRole(c, role)
    ensures Good(c.(grants := AddGrant(c.grants, RoleGrant(TheUser(c, user).id, TheRole(c, role).id))))
  {
    hide Good, GrantOk, HasUser, HasRole, TheUser, TheRole, AddGrant;
    RowsFound(c, user, role);
    OneGrantMore(c, RoleGrant(TheUser(c, user).id, TheRole(c, role).id));
  }

  lemma OneGrantMore(c: Catalog, g: RoleGrant)
    requires Good(c) && GrantOk(c, g)
    ensures Good(c.(grants := AddGrant(c.grants, g)))
  {
    hide Acyclic, EdgesOk, RolesOk, Complete, UserOk, GrantOk, DistinctUsers, AddGrant;
    GrantAdded(c, c.(grants := AddGrant(c.grants, g)), g);
  }

  lemma RevokeFromUserGood(c: Catalog, role: string, user: string)
    requires Good(c)
    ensures Good(RevokeFromUserStep(c, role, user).0)
  {
    hide Good, Name, TheUser, TheRole, HasUser, HasRole, DropGrant;
    if HasUser(c, user) && HasRole(c, role) && TheUser(c, user).defaultRole != TheRole(c, role).id {
      GrantDroppedGood(c, user, role);
    }
  }

  lemma GrantDroppedGood(c: Catalog, user: string, role: string)
    requires Good(c) && HasUser(c, user) && HasRole(c, role) && TheUser(c, user).defaultRole != TheRole(c, role).id
    ensures Good(c.(grants := DropGrant(c.grants, RoleGrant(TheUser(c, user).id, TheRole(c, role).id))))
  {
    hide Good, GrantOk, HasUser, HasRole, TheUser, TheRole, DropGrant;
    RowsFound(c, user, role);
    OneGrantLess(c, TheUser(c, user), RoleGrant(TheUser(c, user).id, TheRole(c, role).id));
  }

  lemma OneGrantLess(c: Catalog, u: User, g: RoleGrant)
    requires Good(c) && u in c.users && g.user == u.id && u.defaultRole != g.role
    ensures Good(c.(grants := DropGrant(c.grants, g)))
  {
    hide Acyclic, EdgesOk, RolesOk, Complete, UserOk, GrantOk, DistinctUsers, DropGrant;
    GrantDropped(c, c.(grants := DropGrant(c.grants, g)), u, g);
  }

  lemma RowsFound(c: Catalog, user: string, role: string)
    requires HasUser(c, user) && HasRole(c, role)
    ensures TheUser(c, user) in c.users && GrantOk(c, RoleGrant(TheUser(c, user).id, TheRole(c, role).id))
  {
    hide Name, UserNamed, RoleNamed;
    var u, r := TheUser(c, user), TheRole(c, role);
    assert u in c.users && r in c.roles;
  }

  lemma SameRows(c: Catalog, v: Catalog, g: RoleGrant)
    requires GrantOk(c, g) && v.roles == c.roles && v.users == c.users
    ensures GrantOk(v, g)
  {
  }

  lemma GrantAdded(c: Catalog, v: Catalog, g: RoleGrant)
    requires (forall x :: x in c.users ==> UserOk(c, x)) && (forall h :: h in c.grants ==> GrantOk(c, h)) && GrantOk(c, g)
    requires v == c.(grants := AddGrant(c.grants, g))
    ensures (forall x :: x in v.users ==> UserOk(v, x)) && forall h :: h in v.grants ==> GrantOk(v, h)
  {
    hide Name, GrantOk;
    forall x | x in v.users
      ensures UserOk(v, x)
    {
      assert UserOk(c, x);
    }
    forall h | h in v.grants
      ensures GrantOk(v, h)
    {
      SameRows(c, v, h);
    }
  }

  lemma GrantDropped(c: Catalog, v: Catalog, u: User, g: RoleGrant)
    requires (forall x :: x in c.users ==> UserOk(c, x)) && (forall h :: h in c.grants ==> GrantOk(c, h))
    requires DistinctUsers(c.users) && u in c.users && g.user == u.id && u.defaultRole != g.role
    requires v == c.(grants := DropGrant(c.grants, g))
    ensures (forall x :: x in v.users ==> UserOk(v, x)) && forall h :: h in v.grants ==> GrantOk(v, h)
  {
    hide Name, DropGrant, DistinctUsers, GrantOk;
    forall x | x in v.users
      ensures UserOk(v, x)
    {
      assert UserOk(c, x);
      if x.id == u.id { OneUser(c.users, x, u); }
    }
    forall h | h in v.grants
      ensures GrantOk(v, h)
    {
      SameRows(c, v, h);
    }
  }

  lemma OneUser(users: seq<User>, x: User, y: User)
    requires DistinctUsers(users) && x in users && y in users && x.id == y.id
    ensures x == y
  {
    var i :| 0 <= i < |users| && users[i] == x;
    var j :| 0 <= j < |users| && users[j] == y;
  }

  // ------------------------------------------------------------- grants between roles

  lemma GrantToRoleGood(c: Catalog, child: string, parent: string)
    requires Good(c)
    ensures Good(GrantToRoleStep(c, child, parent).0)
  {
    var v := GrantToRoleStep(c, child, parent).0;
    if v != c {
      var x, y := TheRole(c, child), TheRole(c, parent);
      var e := Edge(x.id, y.id);
      assert x in c.roles && y in c.roles;
      AboveIsReaching(c.edges, x.id, y.id);
      GrantCycle(c.edges, e);
      hide Acyclic, Name, Complete, Marked, TheRole, Above, Reaches;
      assert EdgeOk(c.roles, e);
      StillUsers(c, v);
    }
  }

  lemma RevokeFromRoleGood(c: Catalog, child: string, parent: string)
    requires Good(c)
    ensures Good(RevokeFromRoleStep(c, child, parent).0)
  {
    var v := RevokeFromRoleStep(c, child, parent).0;
    if v != c {
      FewerEdgesAcyclic(v.edges, c.edges);
      hide Acyclic, Name, Complete, Marked, TheRole, DropEdge;
      StillUsers(c, v);
    }
  }

  /** The ancestor query refuses a grant between two ordinary roles exactly when the grant would
      close a cycle. */
  lemma RefusedIffCycle(c: Catalog, child: string, parent: string)
    requires Good(c) && HasRole(c, child) && HasRole(c, parent)
    requires TheRole(c, child).id != TheRole(c, parent).id && !TheRole(c, child).system && !TheRole(c, parent).system
    ensures GrantToRoleStep(c, child, parent).1 == Err(Cycle)
       <==> !Acyclic(c.edges + [Edge(TheRole(c, child).id, TheRole(c, parent).id)])
  {
    var x, y := TheRole(c, child).id, TheRole(c, parent).id;
    AboveIsReaching(c.edges, x, y);
    GrantCycle(c.edges, Edge(x, y));
    hide Above, Reaches, Acyclic;
  }

  // ------------------------------------------------------------- all steps and runs

  lemma StepGood(c: Catalog, e: Event)
    requires Good(c) && Fresh(c, e)
    ensures Good(Step(c, e))
  {
    hide Good, Fresh;
    match e
    case Bootstrap(ids, admin) => BootstrapGood(c, ids, admin);
    case CreateRole(name, id) => NewRoleOf(c, e); CreateRoleGood(c, name, id);
    case DeleteRole(name) => DeleteRoleGood(c, name);
    case CreateUser(name, role, disabled, id) => NewUserOf(c, e); CreateUserGood(c, name, role, disabled, id);
    case AlterUser(name, role, disabled) => AlterUserGood(c, name, role, disabled);
    case DeleteUser(name) => DeleteUserGood(c, name);
    case GrantToUser(role, user) => GrantToUserGood(c, role, user);
    case RevokeFromUser(role, user) => RevokeFromUserGood(c, role, user);
    case GrantToRole(child, parent) => GrantToRoleGood(c, child, parent);
    case RevokeFromRole(child, parent) => RevokeFromRoleGood(c, child, parent);
  }

  lemma NewRoleOf(c: Catalog, e: Event)
    requires e.CreateRole? && Fresh(c, e)
    ensures NewRole(c, e.id)
  {
  }

  lemma NewUserOf(c: Catalog, e: Event)
    requires e.CreateUser? && Fresh(c, e)
    ensures NewUser(c, e.id)
  {
  }

  /** After bootstrapping an empty catalog, every catalog that service operations lead to is
      good; in particular its role graph has no cycle. */
  lemma {:induction false} RunGood(c: Catalog, es: seq<Event>)
    requires Good(c) && AllFresh(c, es)
    ensures Good(Run(c, es)) && Acyclic(Run(c, es).edges)
    decreases |es|
  {
    hide Acyclic, Fresh, Step;
    if es != [] {
      StepGood(c, es[0]);
      RunGood(Step(c, es[0]), es[1..]);
    }
  }

  lemma FromEmpty(ids: seq<Id>, admin: Id)
    requires |ids| == |SYSTEM| && forall i, j :: 0 <= i < j < |ids| ==> ids[i] != ids[j]
    ensures Good(BootstrapStep(Catalog([], [], [], [], []), ids, admin))
  {
    BootstrapGood(Catalog([], [], [], [], []), ids, admin);
  }

  // ------------------------------------------------------------- the default role

  lemma UserFound(c: Catalog, u: User)
    requires Good(c) && u in c.users
    ensures UserWithId(c.users, u.id) < |c.users| && UserById(c, u.id) == u
    ensures HasUser(c, u.name) && TheUser(c, u.name) == u
  {
    assert UserOk(c, u) && DistinctUsers(c.users);
    hide Good;
    FoundAt(c.users, u);
  }

  lemma FoundAt(users: seq<User>, u: User)
    requires DistinctUsers(users) && u in users
    ensures UserWithId(users, u.id) < |users| && users[UserWithId(users, u.id)] == u
    ensures UserNamed(users, u.name) < |users| && users[UserNamed(users, u.name)] == u
  {
    var i :| 0 <= i < |users| && users[i] == u;
    var k, n := UserWithId(users, u.id), UserNamed(users, u.name);
    hide UserWithId, UserNamed;
    assert k <= i && n <= i;
  }

  lemma DefaultFound(c: Catalog, u: User)
    requires Good(c) && u in c.users
    ensures RoleWithId(c.roles, u.defaultRole) < |c.roles|
    ensures Effective(c, u.id, c.roles[RoleWithId(c.roles, u.defaultRole)])
  {
    assert UserOk(c, u);
    WithIdIff(c.roles, u.defaultRole);
    ReachesSelf(c.edges, u.defaultRole);
  }

  /** In every reachable catalog the default role of each enabled user exists and is effective,
      so asking for no role in particular succeeds, and gives that role and no other. */
  lemma EmptyRequestResolves(c: Catalog, es: seq<Event>, u: User)
    requires Good(c) && AllFresh(c, es) && u in Run(c, es).users && !u.disabled
    ensures Resolves(Run(c, es), u.id, "")
    ensures forall r :: r in Run(c, es).roles && r.name == Requested(Run(c, es), u.id, "") ==> r.id == u.defaultRole
  {
    RunGood(c, es);
    var v := Run(c, es);
    hide Run, AllFresh, Acyclic;
    UserFound(v, u);
    DefaultFound(v, u);
    NoName();
    var d := v.roles[RoleWithId(v.roles, u.defaultRole)];
    assert d in v.roles;
    hide Effective, RoleWithId, UserById, TheUser, HasUser, Name;
    forall r | r in v.roles && r.name == d.name
      ensures r.id == u.defaultRole
    {
      OneRole(v.roles, r, d);
    }
  }

  lemma NoName()
    ensures Name("") == ""
  {
    TrimPadded("", "", "");
  }
}
