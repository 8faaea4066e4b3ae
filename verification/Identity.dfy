/** The identity catalog: users, roles and the grants between them
    (pkg/metadata/identity_repository.go, pkg/identity/service.go).

    Each operation of the service is a method that changes the rows it names, proved equal to a
    step of the catalog. Identifiers of new rows come from the caller. */
module Identity {
  import opened Text
  import opened RoleGraph

  datatype Option<T> = None | Some(value: T)

  datatype Role = Role(id: Id, name: string, system: bool)

  datatype User = User(id: Id, name: string, defaultRole: Id, disabled: bool)

  datatype RoleGrant = RoleGrant(user: Id, role: Id)

  /** A privilege on an object or a warehouse. */
  datatype Privilege = Privilege(role: Id, kind: string, object_: string, name: string)

  datatype Catalog = Catalog(
    roles: seq<Role>, users: seq<User>, grants: seq<RoleGrant>, edges: seq<Edge>, privileges: seq<Privilege>)

  datatype Fault =
    | NotFound | InUse | Cycle | SystemRole | NoName | Exists | Disabled | NotGranted | Denied

  datatype Result<T> = Ok(value: T) | Err(fault: Fault)

  // ------------------------------------------------------------- system roles

  const ACCOUNTADMIN := "ACCOUNTADMIN"
  const SECURITYADMIN := "SECURITYADMIN"
  const USERADMIN := "USERADMIN"
  const SYSADMIN := "SYSADMIN"
  const PUBLIC := "PUBLIC"
  const DEMO_ADMIN := "ADMIN"

  const SYSTEM: seq<string> := [ACCOUNTADMIN, SECURITYADMIN, USERADMIN, SYSADMIN, PUBLIC]

  /** Child and parent. */
  const HIERARCHY: seq<(string, string)> := [
    (SECURITYADMIN, ACCOUNTADMIN), (USERADMIN, SECURITYADMIN), (SYSADMIN, ACCOUNTADMIN), (PUBLIC, SYSADMIN)]

  function Name(v: string): string { Upper(Trim(v)) }

  // ------------------------------------------------------------- lookups

  /** The position of the first role with that name, or the number of roles. */
  function RoleNamed(roles: seq<Role>, name: string): (k: nat)
    ensures k <= |roles| && (k < |roles| ==> roles[k].name == name)
    ensures forall i :: 0 <= i < k ==> roles[i].name != name
  {
    if roles == [] || roles[0].name == name then 0 else 1 + RoleNamed(roles[1..], name)
  }

  function RoleWithId(roles: seq<Role>, id: Id): (k: nat)
    ensures k <= |roles| && (k < |roles| ==> roles[k].id == id)
    ensures forall i :: 0 <= i < k ==> roles[i].id != id
  {
    if roles == [] || roles[0].id == id then 0 else 1 + RoleWithId(roles[1..], id)
  }

  function UserNamed(users: seq<User>, name: string): (k: nat)
    ensures k <= |users| && (k < |users| ==> users[k].name == name)
    ensures forall i :: 0 <= i < k ==> users[i].name != name
  {
    if users == [] || users[0].name == name then 0 else 1 + UserNamed(users[1..], name)
  }

  function UserWithId(users: seq<User>, id: Id): (k: nat)
    ensures k <= |users| && (k < |users| ==> users[k].id == id)
    ensures forall i :: 0 <= i < k ==> users[i].id != id
  {
    if users == [] || users[0].id == id then 0 else 1 + UserWithId(users[1..], id)
  }

  predicate HasRole(c: Catalog, name: string) { RoleNamed(c.roles, Name(name)) < |c.roles| }

  function TheRole(c: Catalog, name: string): Role
    requires HasRole(c, name)
  {
    c.roles[RoleNamed(c.roles, Name(name))]
  }

  predicate HasUser(c: Catalog, name: string) { UserNamed(c.users, Name(name)) < |c.users| }

  function TheUser(c: Catalog, name: string): User
    requires HasUser(c, name)
  {
    c.users[UserNamed(c.users, Name(name))]
  }

  // ------------------------------------------------------------- rows

  function AddGrant(grants: seq<RoleGrant>, g: RoleGrant): seq<RoleGrant> {
    if g in grants then grants else grants + [g]
  }

  function DropGrant(grants: seq<RoleGrant>, g: RoleGrant): (r: seq<RoleGrant>)
    ensures forall x :: x in r <==> x in grants && x != g
  {
    if grants == [] then [] else (if grants[0] == g then [] else [grants[0]]) + DropGrant(grants[1..], g)
  }

  function DropGrantsOf(grants: seq<RoleGrant>, user: Id): (r: seq<RoleGrant>)
    ensures forall x :: x in r <==> x in grants && x.user != user
  {
    if grants == [] then [] else (if grants[0].user == user then [] else [grants[0]]) + DropGrantsOf(grants[1..], user)
  }

  function AddEdge(edges: seq<Edge>, e: Edge): seq<Edge> { if e in edges then edges else edges + [e] }

  function DropEdge(edges: seq<Edge>, e: Edge): (r: seq<Edge>)
    ensures forall x :: x in r <==> x in edges && x != e
  {
    if edges == [] then [] else (if edges[0] == e then [] else [edges[0]]) + DropEdge(edges[1..], e)
  }

  function DropPrivileges(ps: seq<Privilege>, role: Id): seq<Privilege> {
    if ps == [] then [] else (if ps[0].role == role then [] else [ps[0]]) + DropPrivileges(ps[1..], role)
  }

  predicate NoDefault(users: seq<User>, role: Id) { forall u :: u in users ==> u.defaultRole != role }

  predicate NoGrant(grants: seq<RoleGrant>, role: Id) { forall g :: g in grants ==> g.role != role }

  predicate NoEdge(edges: seq<Edge>, role: Id) { forall e :: e in edges ==> e.child != role && e.parent != role }

  predicate Referenced(c: Catalog, role: Id) {
    !(NoDefault(c.users, role) && NoGrant(c.grants, role) && NoEdge(c.edges, role))
  }

  // ------------------------------------------------------------- steps

  function EnsureRole(roles: seq<Role>, name: string, id: Id): seq<Role> {
    var k := RoleNamed(roles, name);
    if k < |roles| then roles[k := roles[k].(system := true)] else roles + [Role(id, name, true)]
  }

  function EnsureRoles(roles: seq<Role>, names: seq<string>, ids: seq<Id>): seq<Role>
    requires |names| == |ids|
    decreases |names|
  {
    if names == [] then roles else EnsureRoles(EnsureRole(roles, names[0], ids[0]), names[1..], ids[1..])
  }

  function EnsureEdge(roles: seq<Role>, edges: seq<Edge>, pair: (string, string)): seq<Edge> {
    var c, p := RoleNamed(roles, pair.0), RoleNamed(roles, pair.1);
    if c < |roles| && p < |roles| then AddEdge(edges, Edge(roles[c].id, roles[p].id)) else edges
  }

  function EnsureEdges(roles: seq<Role>, edges: seq<Edge>, pairs: seq<(string, string)>): seq<Edge>
    decreases |pairs|
  {
    if pairs == [] then edges else EnsureEdges(roles, EnsureEdge(roles, edges, pairs[0]), pairs[1..])
  }

  /** System roles, their hierarchy, and an administrator when there is no user. */
  function BootstrapStep(c: Catalog, ids: seq<Id>, admin: Id): Catalog
    requires |ids| == |SYSTEM|
  {
    var roles := EnsureRoles(c.roles, SYSTEM, ids);
    var d := c.(roles := roles, edges := EnsureEdges(roles, c.edges, HIERARCHY));
    var k := RoleNamed(roles, ACCOUNTADMIN);
    if c.users != [] || k == |roles| then d
    else d.(users := [User(admin, DEMO_ADMIN, roles[k].id, false)], grants := c.grants + [RoleGrant(admin, roles[k].id)])
  }

  function CreateRoleStep(c: Catalog, name: string, id: Id): (Catalog, Result<Id>) {
    var n := Name(name);
    if n == "" then (c, Err(NoName))
    else if HasRole(c, name) then (c, Err(Exists))
    else (c.(roles := c.roles + [Role(id, n, false)]), Ok(id))
  }

  function DeleteRoleStep(c: Catalog, name: string): (Catalog, Result<Id>) {
    if !HasRole(c, name) then (c, Err(NotFound))
    else
      var k := RoleNamed(c.roles, Name(name));
      var r := c.roles[k];
      if r.system then (c, Err(SystemRole))
      else if Referenced(c, r.id) then (c, Err(InUse))
      else (c.(roles := c.roles[..k] + c.roles[k + 1..], privileges := DropPrivileges(c.privileges, r.id)), Ok(r.id))
  }

  function CreateUserStep(c: Catalog, name: string, role: string, disabled: bool, id: Id): (Catalog, Result<Id>) {
    if !HasRole(c, role) then (c, Err(NotFound))
    else if Name(name) == "" then (c, Err(NoName))
    else if HasUser(c, name) then (c, Err(Exists))
    else
      var r := TheRole(c, role).id;
      (c.(users := c.users + [User(id, Name(name), r, disabled)], grants := AddGrant(c.grants, RoleGrant(id, r))), Ok(id))
  }

  function SetUser(c: Catalog, k: nat, u: User): Catalog
    requires k < |c.users|
  {
    c.(users := c.users[k := u], grants := AddGrant(c.grants, RoleGrant(u.id, u.defaultRole)))
  }

  /** ALTER USER: what is not given stays; the default role is granted with it. */
  function AlterUserStep(c: Catalog, name: string, role: Option<string>, disabled: Option<bool>): (Catalog, Result<Id>) {
    if !HasUser(c, name) then (c, Err(NotFound))
    else if role.Some? && !HasRole(c, role.value) then (c, Err(NotFound))
    else
      var k := UserNamed(c.users, Name(name));
      var u := c.users[k];
      var v := u.(defaultRole := if role.Some? then TheRole(c, role.value).id else u.defaultRole,
                  disabled := if disabled.Some? then disabled.value else u.disabled);
      if RoleWithId(c.roles, v.defaultRole) == |c.roles| then (c, Err(NotFound)) else (SetUser(c, k, v), Ok(u.id))
  }

  function DeleteUserStep(c: Catalog, name: string): (Catalog, Result<Id>) {
    if !HasUser(c, name) then (c, Err(NotFound))
    else
      var k := UserNamed(c.users, Name(name));
      var u := c.users[k];
      (c.(users := c.users[..k] + c.users[k + 1..], grants := DropGrantsOf(c.grants, u.id)), Ok(u.id))
  }

  function GrantToUserStep(c: Catalog, role: string, user: string): (Catalog, Result<Id>) {
    if Name(role) == PUBLIC then (c, Err(SystemRole))
    else if !HasUser(c, user) || !HasRole(c, role) then (c, Err(NotFound))
    else
      var g := RoleGrant(TheUser(c, user).id, TheRole(c, role).id);
      (c.(grants := AddGrant(c.grants, g)), Ok(g.role))
  }

  function RevokeFromUserStep(c: Catalog, role: string, user: string): (Catalog, Result<Id>) {
    if Name(role) == PUBLIC then (c, Err(SystemRole))
    else if !HasUser(c, user) || !HasRole(c, role) then (c, Err(NotFound))
    else
      var g := RoleGrant(TheUser(c, user).id, TheRole(c, role).id);
      if TheUser(c, user).defaultRole == g.role then (c, Err(InUse))
      else (c.(grants := DropGrant(c.grants, g)), Ok(g.role))
  }

  ghost function GrantToRoleStep(c: Catalog, child: string, parent: string): (Catalog, Result<Id>) {
    if !HasRole(c, child) || !HasRole(c, parent) then (c, Err(NotFound))
    else
      var x, y := TheRole(c, child), TheRole(c, parent);
      if x.id == y.id then (c, Err(Cycle))
      else if x.system || y.system then (c, Err(SystemRole))
      else if Above(c.edges, x.id, y.id) then (c, Err(Cycle))
      else (c.(edges := AddEdge(c.edges, Edge(x.id, y.id))), Ok(y.id))
  }

  function RevokeFromRoleStep(c: Catalog, child: string, parent: string): (Catalog, Result<Id>) {
    if !HasRole(c, child) || !HasRole(c, parent) then (c, Err(NotFound))
    else
      var x, y := TheRole(c, child), TheRole(c, parent);
      if x.system || y.system then (c, Err(SystemRole))
      else (c.(edges := DropEdge(c.edges, Edge(x.id, y.id))), Ok(y.id))
  }

  // ------------------------------------------------------------- the service

  class Service {
    var catalog: Catalog

    constructor (catalog: Catalog)
      ensures this.catalog == catalog
    {
      this.catalog := catalog;
    }

    method Bootstrap(ids: seq<Id>, admin: Id)
      requires |ids| == |SYSTEM|
      modifies this
      ensures catalog == BootstrapStep(old(catalog), ids, admin)
    {
      var roles, edges := catalog.roles, catalog.edges;
      for i := 0 to |SYSTEM|
        invariant EnsureRoles(roles, SYSTEM[i..], ids[i..]) == EnsureRoles(catalog.roles, SYSTEM, ids)
        invariant catalog == old(catalog)
      {
        assert SYSTEM[i..][1..] == SYSTEM[i + 1..] && ids[i..][1..] == ids[i + 1..];
        var k := RoleNamed(roles, SYSTEM[i]);
        if k < |roles| {
          roles := roles[k := roles[k].(system := true)];
        } else {
          roles := roles + [Role(ids[i], SYSTEM[i], true)];
        }
      }
      for i := 0 to |HIERARCHY|
        invariant EnsureEdges(roles, edges, HIERARCHY[i..]) == EnsureEdges(roles, catalog.edges, HIERARCHY)
        invariant catalog == old(catalog)
      {
        assert HIERARCHY[i..][1..] == HIERARCHY[i + 1..];
        edges := EnsureEdge(roles, edges, HIERARCHY[i]);
      }
      catalog := catalog.(roles := roles, edges := edges);
      var k := RoleNamed(roles, ACCOUNTADMIN);
      if catalog.users == [] && k < |roles| {
        catalog := catalog.(users := [User(admin, DEMO_ADMIN, roles[k].id, false)],
                            grants := catalog.grants + [RoleGrant(admin, roles[k].id)]);
      }
    }

    method CreateRole(name: string, id: Id) returns (r: Result<Id>)
      modifies this
      ensures (catalog, r) == CreateRoleStep(old(catalog), name, id)
    {
      if Name(name) == "" { return Err(NoName); }
      if HasRole(catalog, name) { return Err(Exists); }
      catalog := catalog.(roles := catalog.roles + [Role(id, Name(name), false)]);
      return Ok(id);
    }

    method DeleteRole(name: string) returns (r: Result<Id>)
      modifies this
      ensures (catalog, r) == DeleteRoleStep(old(catalog), name)
    {
      if !HasRole(catalog, name) { return Err(NotFound); }
      var k := RoleNamed(catalog.roles, Name(name));
      var role := catalog.roles[k];
      if role.system { return Err(SystemRole); }
      var references := CountReferences(role.id);
      if references != 0 { return Err(InUse); }
      catalog := catalog.(roles := catalog.roles[..k] + catalog.roles[k + 1..],
                          privileges := DropPrivileges(catalog.privileges, role.id));
      return Ok(role.id);
    }

    /** Users with the role as default, users it is granted to, and grants between roles. */
    method CountReferences(role: Id) returns (n: nat)
      ensures n == 0 <==> !Referenced(catalog, role)
    {
      n := 0;
      for i := 0 to |catalog.users|
        invariant n == 0 <==> NoDefault(catalog.users[..i], role)
      {
        assert catalog.users[..i + 1] == catalog.users[..i] + [catalog.users[i]];
        if catalog.users[i].defaultRole == role { n := n + 1; }
      }
      assert catalog.users[..|catalog.users|] == catalog.users;
      for i := 0 to |catalog.grants|
        invariant n == 0 <==> NoDefault(catalog.users, role) && NoGrant(catalog.grants[..i], role)
      {
        assert catalog.grants[..i + 1] == catalog.grants[..i] + [catalog.grants[i]];
        if catalog.grants[i].role == role { n := n + 1; }
      }
      assert catalog.grants[..|catalog.grants|] == catalog.grants;
      for i := 0 to |catalog.edges|
        invariant n == 0 <==> NoDefault(catalog.users, role) && NoGrant(catalog.grants, role) && NoEdge(catalog.edges[..i], role)
      {
        assert catalog.edges[..i + 1] == catalog.edges[..i] + [catalog.edges[i]];
        if catalog.edges[i].child == role || catalog.edges[i].parent == role { n := n + 1; }
      }
      assert catalog.edges[..|catalog.edges|] == catalog.edges;
    }

    method CreateUser(name: string, role: string, disabled: bool, id: Id) returns (r: Result<Id>)
      modifies this
      ensures (catalog, r) == CreateUserStep(old(catalog), name, role, disabled, id)
    {
      if !HasRole(catalog, role) { return Err(NotFound); }
      if Name(name) == "" { return Err(NoName); }
      if HasUser(catalog, name) { return Err(Exists); }
      var d := TheRole(catalog, role).id;
      catalog := catalog.(users := catalog.users + [User(id, Name(name), d, disabled)],
                          grants := AddGrant(catalog.grants, RoleGrant(id, d)));
      return Ok(id);
    }

    method AlterUser(name: string, role: Option<string>, disabled: Option<bool>) returns (r: Result<Id>)
      modifies this
      ensures (catalog, r) == AlterUserStep(old(catalog), name, role, disabled)
    {
      if !HasUser(catalog, name) { return Err(NotFound); }
      var k := UserNamed(catalog.users, Name(name));
      var u := catalog.users[k];
      if role.Some? {
        if !HasRole(catalog, role.value) { return Err(NotFound); }
        u := u.(defaultRole := TheRole(catalog, role.value).id);
      }
      if disabled.Some? { u := u.(disabled := disabled.value); }
      if RoleWithId(catalog.roles, u.defaultRole) == |catalog.roles| { return Err(NotFound); }
      catalog := SetUser(catalog, k, u);
      return Ok(u.id);
    }

    method DeleteUser(name: string) returns (r: Result<Id>)
      modifies this
      ensures (catalog, r) == DeleteUserStep(old(catalog), name)
    {
      if !HasUser(catalog, name) { return Err(NotFound); }
      var k := UserNamed(catalog.users, Name(name));
      var u := catalog.users[k];
      catalog := catalog.(users := catalog.users[..k] + catalog.users[k + 1..], grants := DropGrantsOf(catalog.grants, u.id));
      return Ok(u.id);
    }

    method GrantRoleToUser(role: string, user: string) returns (r: Result<Id>)
      modifies this
      ensures (catalog, r) == GrantToUserStep(old(catalog), role, user)
    {
      if Name(role) == PUBLIC { return Err(SystemRole); }
      if !HasUser(catalog, user) { return Err(NotFound); }
      if !HasRole(catalog, role) { return Err(NotFound); }
      var g := RoleGrant(TheUser(catalog, user).id, TheRole(catalog, role).id);
      catalog := catalog.(grants := AddGrant(catalog.grants, g));
      return Ok(g.role);
    }

    method RevokeRoleFromUser(role: string, user: string) returns (r: Result<Id>)
      modifies this
      ensures (catalog, r) == RevokeFromUserStep(old(catalog), role, user)
    {
      if Name(role) == PUBLIC { return Err(SystemRole); }
      if !HasUser(catalog, user) { return Err(NotFound); }
      if !HasRole(catalog, role) { return Err(NotFound); }
      var g := RoleGrant(TheUser(catalog, user).id, TheRole(catalog, role).id);
      if TheUser(catalog, user).defaultRole == g.role { return Err(InUse); }
      catalog := catalog.(grants := DropGrant(catalog.grants, g));
      return Ok(g.role);
    }

    /** The child must not be above the parent already. */
    method GrantRoleToRole(child: string, parent: string) returns (r: Result<Id>)
      modifies this
      ensures (catalog, r) == GrantToRoleStep(old(catalog), child, parent)
    {
      if !HasRole(catalog, child) { return Err(NotFound); }
      if !HasRole(catalog, parent) { return Err(NotFound); }
      var x, y := TheRole(catalog, child), TheRole(catalog, parent);
      if x.id == y.id { return Err(Cycle); }
      if x.system || y.system { return Err(SystemRole); }
      var ancestors := Ancestors(catalog.edges, y.id);
      if x.id in ancestors { return Err(Cycle); }
      catalog := catalog.(edges := AddEdge(catalog.edges, Edge(x.id, y.id)));
      return Ok(y.id);
    }

    method RevokeRoleFromRole(child: string, parent: string) returns (r: Result<Id>)
      modifies this
      ensures (catalog, r) == RevokeFromRoleStep(old(catalog), child, parent)
    {
      if !HasRole(catalog, child) { return Err(NotFound); }
      if !HasRole(catalog, parent) { return Err(NotFound); }
      var x, y := TheRole(catalog, child), TheRole(catalog, parent);
      if x.system || y.system { return Err(SystemRole); }
      catalog := catalog.(edges := DropEdge(catalog.edges, Edge(x.id, y.id)));
      return Ok(y.id);
    }

    // ----------------------------------------------------------- questions

    method DirectRoles(user: Id) returns (ids: seq<Id>)
      ensures forall x :: x in ids <==> RoleGrant(user, x) in catalog.grants
    {
      ids := [];
      for i := 0 to |catalog.grants|
        invariant forall x :: x in ids <==> RoleGrant(user, x) in catalog.grants[..i]
      {
        assert catalog.grants[..i + 1] == catalog.grants[..i] + [catalog.grants[i]];
        if catalog.grants[i].user == user { ids := ids + [catalog.grants[i].role]; }
      }
      assert catalog.grants[..|catalog.grants|] == catalog.grants;
    }

    /** The roles a user has: those granted, those these inherit, and PUBLIC. */
    method EffectiveRoles(name: string) returns (r: Result<seq<Role>>)
      ensures HasUser(catalog, name) <==> r.Ok?
      ensures r.Ok? ==> forall x :: x in r.value <==> x in catalog.roles && Effective(catalog, TheUser(catalog, name).id, x)
    {
      if !HasUser(catalog, name) { return Err(NotFound); }
      var user := TheUser(catalog, name).id;
      var direct := DirectRoles(user);
      var wanted := Closure(catalog.edges, direct);
      var list: seq<Role> := [];
      for i := 0 to |catalog.roles|
        invariant forall x :: x in list <==> x in catalog.roles[..i] && Effective(catalog, user, x)
      {
        var role := catalog.roles[i];
        assert catalog.roles[..i + 1] == catalog.roles[..i] + [role];
        if role.id in wanted || role.name == PUBLIC { list := list + [role]; }
      }
      assert catalog.roles[..|catalog.roles|] == catalog.roles;
      return Ok(list);
    }

    /** The requested role, or the user's default when nothing is requested. */
    method ResolveActiveRole(user: Id, requested: string) returns (r: Result<Role>)
      ensures r.Ok? <==> Resolves(catalog, user, requested)
      ensures r.Ok? ==> r.value in catalog.roles && r.value.name == Requested(catalog, user, requested)
      ensures r.Ok? ==> Effective(catalog, TheUser(catalog, UserById(catalog, user).name).id, r.value)
    {
      var k := UserWithId(catalog.users, user);
      if k == |catalog.users| { return Err(NotFound); }
      var u := catalog.users[k];
      if u.disabled { return Err(Disabled); }
      var name := Name(requested);
      if name == "" {
        var d := RoleWithId(catalog.roles, u.defaultRole);
        if d == |catalog.roles| { return Err(NotFound); }
        name := catalog.roles[d].name;
      }
      var effective := EffectiveRoles(u.name);
      if effective.Err? { return Err(effective.fault); }
      for i := 0 to |effective.value|
        invariant forall j :: 0 <= j < i ==> effective.value[j].name != name
      {
        if effective.value[i].name == name { return Ok(effective.value[i]); }
      }
      return Err(if RoleNamed(catalog.roles, name) == |catalog.roles| then NotFound else NotGranted);
    }

    /** Allowed for the account administrator, and by a matching privilege of the role or of one
        it inherits. */
    method Authorize(role: Id, kind: string, object_: string, name: string) returns (ok: bool)
      ensures ok <==> Authorized(catalog, role, kind, object_, name)
    {
      var k := RoleWithId(catalog.roles, role);
      if k == |catalog.roles| { return false; }
      if catalog.roles[k].name == ACCOUNTADMIN { return true; }
      var effective := Closure(catalog.edges, [role]);
      assert forall x :: x in effective <==> Reaches(catalog.edges, role, x);
      for i := 0 to |catalog.privileges|
        invariant forall j :: 0 <= j < i ==>
          !(Reaches(catalog.edges, role, catalog.privileges[j].role) && Covers(catalog.privileges[j], kind, object_, name))
      {
        if catalog.privileges[i].role in effective && Covers(catalog.privileges[i], kind, object_, name) { return true; }
      }
      return false;
    }
  }

  ghost predicate Effective(c: Catalog, user: Id, r: Role) {
    r.name == PUBLIC || exists d :: RoleGrant(user, d) in c.grants && Reaches(c.edges, d, r.id)
  }

  predicate Covers(p: Privilege, kind: string, object_: string, name: string) {
    Upper(p.kind) == Upper(kind) && Upper(p.object_) == Upper(object_) && Upper(p.name) == Upper(name)
  }

  ghost predicate Authorized(c: Catalog, role: Id, kind: string, object_: string, name: string) {
    var k := RoleWithId(c.roles, role);
    && k < |c.roles|
    && (c.roles[k].name == ACCOUNTADMIN
        || exists p :: p in c.privileges && Reaches(c.edges, role, p.role) && Covers(p, kind, object_, name))
  }

  function UserById(c: Catalog, user: Id): User
    requires UserWithId(c.users, user) < |c.users|
  {
    c.users[UserWithId(c.users, user)]
  }

  /** The name of the role that is looked for. */
  function Requested(c: Catalog, user: Id, requested: string): string
    requires UserWithId(c.users, user) < |c.users|
  {
    var d := RoleWithId(c.roles, UserById(c, user).defaultRole);
    if Name(requested) != "" then Name(requested) else if d < |c.roles| then c.roles[d].name else ""
  }

  ghost predicate Resolves(c: Catalog, user: Id, requested: string) {
    && UserWithId(c.users, user) < |c.users|
    && !UserById(c, user).disabled
    && (Name(requested) == "" ==> RoleWithId(c.roles, UserById(c, user).defaultRole) < |c.roles|)
    && HasUser(c, UserById(c, user).name)
    && exists r :: r in c.roles && r.name == Requested(c, user, requested)
                   && Effective(c, TheUser(c, UserById(c, user).name).id, r)
  }
}
