/** What grants and revokes leave behind, row by row: which roles a user has afterwards, and that
    nobody else is touched. */
module IdentityGrants {
  import opened Text
  import opened RoleGraph
  import opened Identity
  import opened IdentitySafety

  predicate IsUser(c: Catalog, u: User, name: string) { u in c.users && u.name == Upper(Trim(name)) }

  predicate IsRole(c: Catalog, r: Role, name: string) { r in c.roles && r.name == Upper(Trim(name)) }

  // ------------------------------------------------------------- names

  lemma {:induction false} FoundRole(roles: seq<Role>, r: Role)
    requires DistinctRoles(roles) && r in roles
    ensures RoleNamed(roles, r.name) < |roles| && roles[RoleNamed(roles, r.name)] == r
    ensures RoleWithId(roles, r.id) < |roles| && roles[RoleWithId(roles, r.id)] == r
  {
    hide RoleNamed, RoleWithId;
    var i :| 0 <= i < |roles| && roles[i] == r;
    var k, n := RoleNamed(roles, r.name), RoleWithId(roles, r.id);
    assert k <= i && n <= i;
  }

  /** In a good catalog the rows that an operation finds are the rows of that name. */
  lemma Rows(c: Catalog, u: User, user: string, r: Role, role: string)
    requires Good(c) && IsUser(c, u, user) && IsRole(c, r, role)
    ensures HasUser(c, user) && TheUser(c, user) == u && HasRole(c, role) && TheRole(c, role) == r
  {
    hide Upper, Trim, Acyclic;
    FoundAt(c.users, u);
    FoundRole(c.roles, r);
  }

  lemma UserRow(c: Catalog, u: User, user: string)
    requires Good(c) && IsUser(c, u, user)
    ensures HasUser(c, user) && TheUser(c, user) == u
  {
    hide Upper, Trim, Acyclic;
    FoundAt(c.users, u);
  }

  lemma RoleRow(c: Catalog, r: Role, role: string)
    requires Good(c) && IsRole(c, r, role)
    ensures HasRole(c, role) && TheRole(c, role) == r
  {
    hide Upper, Trim, Acyclic;
    FoundRole(c.roles, r);
  }

  /** Without such a user or role nothing is granted or revoked. */
  lemma UnknownChangesNothing(c: Catalog, role: string, user: string)
    requires (forall u :: !IsUser(c, u, user)) || (forall r :: !IsRole(c, r, role))
    ensures GrantToUserStep(c, role, user).0 == c && GrantToUserStep(c, role, user).1.Err?
    ensures RevokeFromUserStep(c, role, user).0 == c && RevokeFromUserStep(c, role, user).1.Err?
  {
    hide Upper, Trim;
    if HasUser(c, user) { assert IsUser(c, TheUser(c, user), user); }
    if HasRole(c, role) { assert IsRole(c, TheRole(c, role), role); }
  }

  // ------------------------------------------------------------- grants to users

  /** A role other than PUBLIC is granted, and nothing else changes. */
  lemma GrantGives(c: Catalog, role: string, user: string, u: User, r: Role)
    requires Good(c) && IsUser(c, u, user) && IsRole(c, r, role)
    ensures var v, a := GrantToUserStep(c, role, user).0, GrantToUserStep(c, role, user).1;
            && (a == Ok(r.id) <==> r.name != PUBLIC) && (a == Err(SystemRole) <==> r.name == PUBLIC) && (a.Err? ==> v == c)
            && v == c.(grants := v.grants)
            && (a.Ok? ==> forall g :: g in v.grants <==> g in c.grants || g == RoleGrant(u.id, r.id))
  {
    Rows(c, u, user, r, role);
    AddedGrants(c.grants, RoleGrant(u.id, r.id));
    assert Name(role) == r.name;
    hide Good, Name, HasUser, HasRole, TheUser, TheRole, AddGrant;
  }

  lemma AddedGrants(grants: seq<RoleGrant>, g: RoleGrant)
    ensures forall h :: h in AddGrant(grants, g) <==> h in grants || h == g
  {
  }

  /** A role other than PUBLIC and the user's default is taken away, and nothing else changes. */
  lemma RevokeTakes(c: Catalog, role: string, user: string, u: User, r: Role)
    requires Good(c) && IsUser(c, u, user) && IsRole(c, r, role)
    ensures var v, a := RevokeFromUserStep(c, role, user).0, RevokeFromUserStep(c, role, user).1;
            && (a == Err(SystemRole) <==> r.name == PUBLIC) && (a == Err(InUse) <==> r.name != PUBLIC && u.defaultRole == r.id)
            && (a == Ok(r.id) <==> r.name != PUBLIC && u.defaultRole != r.id) && (a.Err? ==> v == c)
            && v == c.(grants := v.grants)
            && (a.Ok? ==> forall g :: g in v.grants <==> g in c.grants && g != RoleGrant(u.id, r.id))
  {
    Rows(c, u, user, r, role);
    hide Good, Name, HasUser, HasRole, TheUser, TheRole;
  }

  /** After a revoke the user has exactly the roles that another granted role brings, and PUBLIC. */
  lemma RevokedRoleIsGone(c: Catalog, role: string, user: string, u: User, r: Role, x: Role)
    requires Good(c) && IsUser(c, u, user) && IsRole(c, r, role) && RevokeFromUserStep(c, role, user).1.Ok?
    ensures Effective(RevokeFromUserStep(c, role, user).0, u.id, x)
       <==> x.name == PUBLIC || exists d :: d != r.id && RoleGrant(u.id, d) in c.grants && Reaches(c.edges, d, x.id)
  {
    RevokeTakes(c, role, user, u, r);
    var v := RevokeFromUserStep(c, role, user).0;
    hide Good, Name, RevokeFromUserStep, Reaches;
    assert forall d :: RoleGrant(u.id, d) in v.grants <==> d != r.id && RoleGrant(u.id, d) in c.grants;
  }

  lemma {:induction false} DropAdded(grants: seq<RoleGrant>, g: RoleGrant)
    requires g !in grants
    ensures DropGrant(grants + [g], g) == grants
  {
    if grants == [] {
      assert grants + [g] == [g] && [g][1..] == [];
    } else {
      assert (grants + [g])[1..] == grants[1..] + [g];
      DropAdded(grants[1..], g);
    }
  }

  /** A revoke undoes a grant that was not there before. */
  lemma RevokeUndoesGrant(c: Catalog, role: string, user: string, u: User, r: Role)
    requires Good(c) && IsUser(c, u, user) && IsRole(c, r, role) && r.name != PUBLIC && RoleGrant(u.id, r.id) !in c.grants
    ensures RevokeFromUserStep(GrantToUserStep(c, role, user).0, role, user) == (c, Ok(r.id))
  {
    var v := GrantToUserStep(c, role, user).0;
    assert UserOk(c, u);
    Rows(c, u, user, r, role);
    GrantToUserGood(c, role, user);
    DropAdded(c.grants, RoleGrant(u.id, r.id));
    assert v.users == c.users && v.roles == c.roles && v.grants == c.grants + [RoleGrant(u.id, r.id)];
    Rows(v, u, user, r, role);
    hide Good, Name, HasUser, HasRole, TheUser, TheRole, GrantToUserStep;
  }

  // ------------------------------------------------------------- grants between roles

  /** Between two ordinary roles a grant that closes no cycle adds its edge and nothing else. */
  lemma GrantJoins(c: Catalog, child: string, parent: string, x: Role, y: Role)
    requires Good(c) && IsRole(c, x, child) && IsRole(c, y, parent)
    ensures var v, a := GrantToRoleStep(c, child, parent).0, GrantToRoleStep(c, child, parent).1;
            && (a.Ok? <==> x != y && !x.system && !y.system && Acyclic(c.edges + [Edge(x.id, y.id)]))
            && (a.Err? ==> v == c) && v == c.(edges := v.edges)
            && (a.Ok? ==> forall e :: e in v.edges <==> e in c.edges || e == Edge(x.id, y.id))
  {
    RoleRow(c, x, child);
    RoleRow(c, y, parent);
    assert x == y <==> x.id == y.id by { if x.id == y.id { OneRole(c.roles, x, y); } }
    if x != y && !x.system && !y.system { RefusedIffCycle(c, child, parent); }
    hide Good, Name, HasRole, TheRole, Acyclic, Above;
  }

  /** Between two ordinary roles a revoke takes its edge away and nothing else. */
  lemma RevokeParts(c: Catalog, child: string, parent: string, x: Role, y: Role)
    requires Good(c) && IsRole(c, x, child) && IsRole(c, y, parent)
    ensures var v, a := RevokeFromRoleStep(c, child, parent).0, RevokeFromRoleStep(c, child, parent).1;
            && (a.Ok? <==> !x.system && !y.system) && (a.Err? ==> v == c) && v == c.(edges := v.edges)
            && (a.Ok? ==> forall e :: e in v.edges <==> e in c.edges && e != Edge(x.id, y.id))
  {
    RoleRow(c, x, child);
    RoleRow(c, y, parent);
    hide Good, Name, HasRole, TheRole;
  }

  // ------------------------------------------------------------- users

  /** A new user has the name, the default role and the flag that were asked for, and that role. */
  lemma CreateAdds(c: Catalog, name: string, role: string, disabled: bool, id: Id, r: Role)
    requires Good(c) && NewUser(c, id) && IsRole(c, r, role)
    ensures var v, a := CreateUserStep(c, name, role, disabled, id).0, CreateUserStep(c, name, role, disabled, id).1;
            && (a.Ok? <==> Name(name) != "" && forall u :: !IsUser(c, u, name)) && (a.Err? ==> v == c)
            && v == c.(users := v.users, grants := v.grants)
            && (a.Ok? ==> v.users == c.users + [User(id, Name(name), r.id, disabled)]
                          && forall g :: g in v.grants <==> g in c.grants || g == RoleGrant(id, r.id))
  {
    RoleRow(c, r, role);
    if HasUser(c, name) { assert IsUser(c, TheUser(c, name), name); }
    forall u | IsUser(c, u, name)
      ensures HasUser(c, name)
    {
      UserRow(c, u, name);
    }
    hide Good, Name, HasUser, HasRole, TheRole;
  }

  /** A deleted user is gone with all its grants; everybody else is as before. */
  lemma DeleteRemoves(c: Catalog, name: string, u: User)
    requires Good(c) && IsUser(c, u, name)
    ensures var v := DeleteUserStep(c, name).0;
            && DeleteUserStep(c, name).1 == Ok(u.id) && v == c.(users := v.users, grants := v.grants)
            && (forall x :: x in v.users <==> x in c.users && x != u)
            && (forall g :: g in v.grants <==> g in c.grants && g.user != u.id)
  {
    UserRow(c, u, name);
    assert DistinctUsers(c.users);
    var k := UserNamed(c.users, Name(name));
    UsersLeft(c.users, k);
    hide Good, Name, DistinctUsers;
    assert c.users[k] == u;
    SameIdSameUser(c, u);
  }

  lemma SameIdSameUser(c: Catalog, u: User)
    requires Good(c) && u in c.users
    ensures forall x :: x in c.users && x.id == u.id ==> x == u
  {
    hide Name, Acyclic;
    forall x | x in c.users && x.id == u.id
      ensures x == u
    {
      OneUser(c.users, x, u);
    }
  }

  /** ALTER USER sets what is given and nothing else; a new default role is granted with it. */
  lemma AlterSets(c: Catalog, name: string, role: Option<string>, disabled: Option<bool>, u: User, r: Role)
    requires Good(c) && IsUser(c, u, name) && r in c.roles
    requires if role.Some? then IsRole(c, r, role.value) else r.id == u.defaultRole
    ensures var v := AlterUserStep(c, name, role, disabled).0;
            var w := User(u.id, u.name, r.id, if disabled.Some? then disabled.value else u.disabled);
            && AlterUserStep(c, name, role, disabled).1 == Ok(u.id) && v == c.(users := v.users, grants := v.grants)
            && (forall x :: x in v.users <==> x == w || (x in c.users && x != u))
            && (forall g :: g in v.grants <==> g in c.grants || g == RoleGrant(u.id, r.id))
  {
    hide Good, Name, SetUser, AlterUserStep;
    var k := UserNamed(c.users, Name(name));
    AlterIs(c, name, role, disabled, u, r);
    SetUserRows(c, k, u, User(u.id, u.name, r.id, if disabled.Some? then disabled.value else u.disabled));
  }

  lemma AlterIs(c: Catalog, name: string, role: Option<string>, disabled: Option<bool>, u: User, r: Role)
    requires Good(c) && IsUser(c, u, name) && r in c.roles
    requires if role.Some? then IsRole(c, r, role.value) else r.id == u.defaultRole
    ensures var k := UserNamed(c.users, Name(name));
            && k < |c.users| && c.users[k] == u
            && AlterUserStep(c, name, role, disabled)
               == (SetUser(c, k, User(u.id, u.name, r.id, if disabled.Some? then disabled.value else u.disabled)), Ok(u.id))
  {
    UserRow(c, u, name);
    if role.Some? { RoleRow(c, r, role.value); }
    assert DistinctRoles(c.roles);
    FoundRole(c.roles, r);
    hide Good, Name, DistinctRoles, RoleWithId, RoleNamed, SetUser;
  }

  lemma SetUserRows(c: Catalog, k: nat, u: User, w: User)
    requires Good(c) && k < |c.users| && c.users[k] == u
    ensures var v := SetUser(c, k, w);
            && v == c.(users := v.users, grants := v.grants)
            && (forall x :: x in v.users <==> x == w || (x in c.users && x != u))
            && (forall g :: g in v.grants <==> g in c.grants || g == RoleGrant(w.id, w.defaultRole))
  {
    assert DistinctUsers(c.users);
    hide Good, DistinctUsers;
    OneSet(c.users, k, w);
  }

  lemma OneSet(users: seq<User>, k: nat, w: User)
    requires DistinctUsers(users) && k < |users|
    ensures forall x :: x in users[k := w] <==> x == w || (x in users && x != users[k])
  {
    var v := users[k := w];
    assert v[k] == w;
    forall x | x in users && x != users[k]
      ensures x in v
    {
      var i :| 0 <= i < |users| && users[i] == x;
      assert v[i] == x;
    }
  }

  /** A disabled user gets no role, whatever is asked for; enabled again it gets what it may have. */
  lemma DisabledResolvesNothing(c: Catalog, u: User, requested: string)
    requires Good(c) && u in c.users && u.disabled
    ensures !Resolves(c, u.id, requested)
  {
    UserFound(c, u);
    hide Good, Name, Effective;
  }

  /** The role that is asked for by name is the one that is given, and without a name it is the
      default role, if the user may have it. */
  lemma RequestedIsGiven(c: Catalog, u: User, requested: string, r: Role)
    requires Good(c) && u in c.users && !u.disabled && r in c.roles
    requires if Upper(Trim(requested)) == "" then r.id == u.defaultRole else IsRole(c, r, requested)
    ensures Resolves(c, u.id, requested) <==> Effective(c, u.id, r)
    ensures forall x :: x in c.roles && x.name == Requested(c, u.id, requested) <==> x == r
  {
    hide Effective, Acyclic, Good, Trim, Upper, RoleWithId, RoleNamed, UserWithId, UserNamed;
    UserFound(c, u);
    DefaultOrNamed(c, r);
  }

  lemma DefaultOrNamed(c: Catalog, r: Role)
    requires Good(c) && r in c.roles
    ensures RoleWithId(c.roles, r.id) < |c.roles| && c.roles[RoleWithId(c.roles, r.id)] == r
    ensures forall x :: x in c.roles && x.name == r.name ==> x == r
  {
    hide Acyclic, RoleWithId, RoleNamed;
    FoundRole(c.roles, r);
    forall x | x in c.roles && x.name == r.name
      ensures x == r
    {
      FoundRole(c.roles, x);
    }
  }

  // ------------------------------------------------------------- roles

  lemma {:induction false} PrivilegesLeft(ps: seq<Privilege>, role: Id)
    ensures forall p :: p in DropPrivileges(ps, role) <==> p in ps && p.role != role
  {
    if ps != [] {
      PrivilegesLeft(ps[1..], role);
      assert ps == [ps[0]] + ps[1..];
    }
  }

  /** Only an ordinary role that nobody refers to is deleted; with it go its privileges, and
      nothing else. */
  lemma DeleteRoleRemoves(c: Catalog, name: string, r: Role)
    requires Good(c) && IsRole(c, r, name)
    ensures var v, a := DeleteRoleStep(c, name).0, DeleteRoleStep(c, name).1;
            && (a == Err(SystemRole) <==> r.system)
            && (a.Ok? <==> !r.system && (forall u :: u in c.users ==> u.defaultRole != r.id)
                           && (forall g :: g in c.grants ==> g.role != r.id)
                           && (forall e :: e in c.edges ==> e.child != r.id && e.parent != r.id))
            && (a.Err? ==> v == c) && v == c.(roles := v.roles, privileges := v.privileges)
            && (a.Ok? ==> (forall x :: x in v.roles <==> x in c.roles && x != r)
                          && (forall p :: p in v.privileges <==> p in c.privileges && p.role != r.id))
  {
    RoleRow(c, r, name);
    assert DistinctRoles(c.roles);
    var k := RoleNamed(c.roles, Name(name));
    assert c.roles[k] == r;
    WithoutOne(c.roles, k);
    PrivilegesLeft(c.privileges, r.id);
    hide Good, Name, DistinctRoles, DropPrivileges;
  }

  lemma WithoutOne(roles: seq<Role>, k: nat)
    requires DistinctRoles(roles) && k < |roles|
    ensures forall x :: x in roles[..k] + roles[k + 1..] <==> x in roles && x != roles[k]
  {
    var v := roles[..k] + roles[k + 1..];
    assert forall i :: 0 <= i < |v| ==> v[i] == roles[if i < k then i else i + 1];
    forall x | x in roles && x != roles[k]
      ensures x in v
    {
      Left(roles, k, x);
    }
  }

  /** A new role is an ordinary one of that name; a taken name is refused. */
  lemma CreateRoleAdds(c: Catalog, name: string, id: Id)
    requires Good(c)
    ensures var v, a := CreateRoleStep(c, name, id).0, CreateRoleStep(c, name, id).1;
            && (a.Ok? <==> Name(name) != "" && forall r :: !IsRole(c, r, name)) && (a.Err? ==> v == c)
            && v == c.(roles := v.roles)
            && (a.Ok? ==> forall r :: r in v.roles <==> r in c.roles || r == Role(id, Name(name), false))
  {
    if HasRole(c, name) { assert IsRole(c, TheRole(c, name), name); }
    forall r | IsRole(c, r, name)
      ensures HasRole(c, name)
    {
      RoleRow(c, r, name);
    }
    hide Good, Name, HasRole, TheRole;
  }

  // ------------------------------------------------------------- privileges

  /** Everything is allowed to the account administrator; to other roles exactly what a privilege
      of theirs or of a role they inherit names, in any case. */
  lemma AuthorizedIff(c: Catalog, r: Role, kind: string, object_: string, name: string)
    requires Good(c) && r in c.roles
    ensures Authorized(c, r.id, kind, object_, name)
       <==> r.name == "ACCOUNTADMIN"
            || exists p :: p in c.privileges && Reaches(c.edges, r.id, p.role) && Upper(p.kind) == Upper(kind)
                           && Upper(p.object_) == Upper(object_) && Upper(p.name) == Upper(name)
  {
    assert DistinctRoles(c.roles);
    FoundRole(c.roles, r);
    hide Good, DistinctRoles, Upper, Reaches, RoleWithId;
  }

  /** Whoever is granted a role may do what the role may. */
  lemma GrantPasses(c: Catalog, child: string, parent: string, x: Role, y: Role, kind: string, object_: string, name: string)
    requires Good(c) && IsRole(c, x, child) && IsRole(c, y, parent) && GrantToRoleStep(c, child, parent).1.Ok?
    requires Authorized(c, x.id, kind, object_, name)
    ensures Authorized(GrantToRoleStep(c, child, parent).0, y.id, kind, object_, name)
  {
    var v := GrantToRoleStep(c, child, parent).0;
    GrantJoins(c, child, parent, x, y);
    GrantToRoleGood(c, child, parent);
    AuthorizedIff(c, x, kind, object_, name);
    AuthorizedIff(v, y, kind, object_, name);
    AdminIsSystem();
    assert x.name != "ACCOUNTADMIN" by { assert Marked(c.roles); }
    hide Good, Name, GrantToRoleStep, Authorized, Upper, Acyclic;
    var p :| p in c.privileges && Reaches(c.edges, x.id, p.role) && Upper(p.kind) == Upper(kind)
             && Upper(p.object_) == Upper(object_) && Upper(p.name) == Upper(name);
    var way :| Runs(c.edges, way, x.id, p.role);
    hide Runs, Reaches;
    MoreEdges(c.edges, v.edges, way, x.id, p.role);
    ReachesStep(v.edges, y.id, x.id, p.role);
  }
}
