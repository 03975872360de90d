/** What the account and role handlers do to what an account may do, in terms of the
    permissions it is granted and of the next answer of a middleware without a cache. */
module RbacEffects {
  import opened Wrappers
  import opened PermissionHeader
  import opened RbacCache
  import opened RbacRoles
  import opened RbacCoherence

  // ---------------------------------------------------------------- accounts

  /** Who may sign in: the middleware does not turn the account away. */
  predicate SignsIn(db: Db, a: nat) {
    Uncached(db, a, []).Next?
  }

  lemma SignsInIff(db: Db, a: nat, ps: seq<string>)
    ensures SignsIn(db, a) <==> Uncached(db, a, ps) == Next(Joined(ps))
    ensures SignsIn(db, a) <==> Get(db.admins, a) == Some(Normal)
  {
  }

  function Get(m: map<nat, Status>, a: nat): Option<Status> {
    if a in m then Some(m[a]) else None
  }

  /** Roles, permissions and the other accounts stay. */
  ghost predicate OnlyAccount(db: Db, r: Db, id: nat) {
    r == db.(admins := r.admins) && forall a: nat :: a != id ==> Get(r.admins, a) == Get(db.admins, a)
  }

  /** An enabled account signs in, unless it was deleted. */
  lemma EnableOutcome(s: State, id: nat, fails: Faults)
    ensures var r := Apply(s, EnableAdmin(id, fails));
      if id > 0 && Known(s.db, id) && !fails(0)
      then SignsIn(r.db, id) && OnlyAccount(s.db, r.db, id) && id !in r.cache else r == s
  {
  }

  /** A disabled account does not sign in until it is enabled; oneself and the super
      admin cannot be disabled. */
  lemma DisableOutcome(s: State, actor: Id, id: nat, fails: Faults)
    ensures var r := Apply(s, DisableAdmin(actor, id, fails));
      if id > 1 && id != actor && Known(s.db, id) && !fails(0)
      then
        && !SignsIn(r.db, id) && OnlyAccount(s.db, r.db, id) && id !in r.cache
        && SignsIn(Apply(r, EnableAdmin(id, _ => false)).db, id)
      else r == s
  {
  }

  /** A deleted account does not sign in and cannot be enabled again; oneself and the
      super admin cannot be deleted. */
  lemma DeleteOutcome(s: State, actor: Id, id: nat, fails: Faults, later: Faults)
    ensures var r := Apply(s, DeleteAdmin(actor, id, fails));
      if id > 1 && id != actor && Known(s.db, id) && !fails(0)
      then
        && !SignsIn(r.db, id) && OnlyAccount(s.db, r.db, id) && id !in r.cache
        && Apply(r, EnableAdmin(id, later)) == r && !Known(r.db, id)
      else r == s
  {
  }

  /** A new account signs in and everything else stays. */
  lemma CreateOutcome(s: State, id: nat, fails: Faults)
    requires id !in s.db.admins
    ensures var r := Apply(s, CreateAdmin(id, fails));
      if fails(0) then r == s else SignsIn(r.db, id) && OnlyAccount(s.db, r.db, id) && r.cache == s.cache
  {
  }

  // ------------------------------------------------------------------ roles

  /** Some statement for a requested code of this permission works. */
  predicate Asks(db: Db, codes: seq<string>, fails: Faults, first: nat, perm: Id) {
    exists k: nat :: k < |codes| && codes[k] in db.perms && db.perms[codes[k]] == perm && !fails(first + k)
  }

  lemma RequestedHas(db: Db, codes: seq<string>, fails: Faults, first: nat, perm: Id)
    ensures perm in Requested(db, codes, fails, first, |codes|) <==> Asks(db, codes, fails, first, perm)
  {
  }

  predicate Holds(db: Db, a: Id, role: Id) {
    (a, role) in db.adminRoles
  }

  predicate RoleHas(db: Db, role: Id, perm: Id) {
    (role, perm) in db.rolePerms
  }

  lemma GrantsIff(db: Db, a: Id, role: Id, perm: Id)
    ensures Grants(db, a, perm) <==> GrantedByOthers(db, a, role, perm) || (Holds(db, a, role) && RoleHas(db, role, perm))
  {
    if Holds(db, a, role) && RoleHas(db, role, perm) {
      var ar := (a, role);
      assert ar in db.adminRoles && ar.0 == a && (ar.1, perm) in db.rolePerms;
    }
    if Grants(db, a, perm) {
      var ar :| ar in db.adminRoles && ar.0 == a && (ar.1, perm) in db.rolePerms;
      assert ar == (a, ar.1);
    }
  }

  /** The role has after its update what was requested, as far as the statements work,
      and what a failing DELETE has left; no other row changes. */
  lemma UpdateRoleRows(s: State, role: Id, codes: Option<seq<string>>, fails: Faults)
    requires role > 0
    ensures var r := Apply(s, UpdateRole(role, codes, fails)).db;
      && r == s.db.(rolePerms := r.rolePerms)
      && (forall other, p :: other != role ==> (RoleHas(r, other, p) <==> RoleHas(s.db, other, p)))
      && (forall p :: RoleHas(r, role, p) <==>
            if codes.None? then RoleHas(s.db, role, p)
            else Asks(s.db, codes.value, fails, 1, p) || (fails(0) && RoleHas(s.db, role, p)))
  {
    var r := Apply(s, UpdateRole(role, codes, fails)).db;
    if codes.Some? {
      forall other, p ensures RoleHas(r, other, p) <==>
          if other == role then Asks(s.db, codes.value, fails, 1, p) || (fails(0) && RoleHas(s.db, role, p))
          else RoleHas(s.db, other, p)
      {
        RequestedHas(s.db, codes.value, fails, 1, p);
        RowsOfHas(role, Requested(s.db, codes.value, fails, 1, |codes.value|), (other, p));
      }
    }
  }

  /** After a role's update an account is granted a permission exactly if another of its
      roles grants it, or it holds this role and the role now has it: with all statements
      working, if it is behind a requested code. Who does not hold the role keeps what it
      had. */
  lemma UpdateRoleOutcome(s: State, role: Id, codes: seq<string>, fails: Faults, a: Id, perm: Id)
    requires role > 0
    ensures var r := Apply(s, UpdateRole(role, Some(codes), fails));
      && (Grants(r.db, a, perm) <==>
            || GrantedByOthers(s.db, a, role, perm)
            || (Holds(s.db, a, role)
                && (Asks(s.db, codes, fails, 1, perm) || (fails(0) && RoleHas(s.db, role, perm)))))
      && (!Holds(s.db, a, role) ==> (Grants(r.db, a, perm) <==> Grants(s.db, a, perm)))
      && r.cache == map[]
  {
    var r := Apply(s, UpdateRole(role, Some(codes), fails)).db;
    UpdateRoleRows(s, role, Some(codes), fails);
    GrantsIff(r, a, role, perm);
    GrantsIff(s.db, a, role, perm);
    hide Grants, Asks, WithRolePerms;
    OthersSame(s.db, r, a, role, perm);
  }

  lemma OthersSame(db: Db, r: Db, a: Id, role: Id, perm: Id)
    requires forall other :: other != role ==> (Holds(r, a, other) <==> Holds(db, a, other))
    requires forall other :: other != role ==> (RoleHas(r, other, perm) <==> RoleHas(db, other, perm))
    ensures GrantedByOthers(r, a, role, perm) <==> GrantedByOthers(db, a, role, perm)
  {
    if GrantedByOthers(db, a, role, perm) {
      var ar :| ar in db.adminRoles && ar.0 == a && ar.1 != role && (ar.1, perm) in db.rolePerms;
      assert ar == (a, ar.1) && Holds(r, a, ar.1) && RoleHas(r, ar.1, perm);
    }
    if GrantedByOthers(r, a, role, perm) {
      var ar :| ar in r.adminRoles && ar.0 == a && ar.1 != role && (ar.1, perm) in r.rolePerms;
      assert ar == (a, ar.1) && Holds(db, a, ar.1) && RoleHas(db, ar.1, perm);
    }
  }

  /** A deleted role grants nothing any more and everything else is granted as before;
      it lasts only if both its own rows and its assignments are left by failing
      statements. */
  lemma DeleteRoleOutcome(s: State, role: Id, fails: Faults, a: Id, perm: Id)
    requires role > 0
    ensures var r := Apply(s, DeleteRole(role, fails));
      && (Grants(r.db, a, perm) <==>
            || GrantedByOthers(s.db, a, role, perm)
            || (fails(0) && fails(1) && Holds(s.db, a, role) && RoleHas(s.db, role, perm)))
      && (forall x :: x in r.db.roles <==> x in s.db.roles && (x.id != role || fails(2)))
      && r.db.admins == s.db.admins && r.cache == map[]
  {
    var r := Apply(s, DeleteRole(role, fails)).db;
    GrantsIff(r, a, role, perm);
    OthersSame(s.db, r, a, role, perm);
    hide Grants, GrantedByOthers;
  }

  /** Some statement that takes this role away works. */
  predicate Taken(db: Db, role: Id, fails: Faults) {
    var listed := ListedRoles(db, fails);
    exists j: nat :: j < |listed| && listed[j].id == role && !fails(2 + j)
  }

  /** Some statement that gives this role works. */
  predicate Given(db: Db, roleIds: seq<Id>, role: Id, fails: Faults) {
    exists k: nat :: k < |roleIds| && roleIds[k] == role && !fails(2 + |ListedRoles(db, fails)| + k)
  }

  /** The account holds afterwards what it was given, and of what it held what no
      statement took away; nobody else's roles change. */
  lemma SetAdminRolesOutcome(s: State, id: nat, roleIds: seq<Id>, fails: Faults, a: Id, role: Id)
    requires Touches(s.db, id, fails)
    ensures var r := Apply(s, SetAdminRoles(id, roleIds, fails));
      && (Holds(r.db, a, role) <==>
            if a == id then Given(s.db, roleIds, role, fails) || (Holds(s.db, id, role) && !Taken(s.db, role, fails))
            else Holds(s.db, a, role))
      && r.db == s.db.(adminRoles := r.db.adminRoles) && id !in r.cache
  {
    var r := Apply(s, SetAdminRoles(id, roleIds, fails)).db;
    var listed := ListedRoles(s.db, fails);
    var gone := set j | 0 <= j < |listed| && !fails(2 + j) :: listed[j].id;
    var given := set k | 0 <= k < |roleIds| && !fails(2 + |listed| + k) :: (id as Id, roleIds[k]);
    assert role in gone <==> Taken(s.db, role, fails);
    assert (a, role) in given <==> a == id && Given(s.db, roleIds, role, fails);
    assert r.adminRoles == (set ar | ar in s.db.adminRoles && (ar.0 != id || ar.1 !in gone)) + given;
  }

  /** With all statements working the account has exactly the requested roles, and those
      ids it held that no role has. */
  lemma SetAdminRolesExact(s: State, id: nat, roleIds: seq<Id>, role: Id)
    requires Touches(s.db, id, _ => false)
    ensures Holds(Apply(s, SetAdminRoles(id, roleIds, _ => false)).db, id, role) <==>
      role in roleIds || (Holds(s.db, id, role) && forall x :: x in s.db.roles ==> x.id != role)
  {
    var none: Faults := _ => false;
    SetAdminRolesOutcome(s, id, roleIds, none, id, role);
    if role in roleIds {
      var k: nat :| k < |roleIds| && roleIds[k] == role;
      assert Given(s.db, roleIds, role, none);
    }
    if x :| x in s.db.roles && x.id == role {
      var j: nat :| j < |s.db.roles| && s.db.roles[j] == x;
      assert Taken(s.db, role, none);
    }
  }

  /** A role that is created is there under its name, with the next id and with what was
      requested; the name cannot be taken twice; a refused creation changes nothing. */
  lemma CreateRoleOutcome(s: State, name: string, codes: Option<seq<string>>, fails: Faults, perm: Id)
    ensures var r, op := Apply(s, CreateRole(name, codes, fails)), CreateRole(name, codes, fails);
      if name == "" || CodeTaken(s.db, name) || fails(0) then r == s
      else
        && r.db.roles == s.db.roles + [Role(s.db.nextRole, name, name)] && r.db.nextRole == s.db.nextRole + 1
        && r.db == s.db.(roles := r.db.roles, rolePerms := r.db.rolePerms, nextRole := r.db.nextRole)
        && CodeTaken(r.db, name) && r.cache == s.cache
        && (Numbered(s.db) && NameUnused(s.db, name) && codes.Some? && !fails(1) ==>
              (RoleHas(r.db, s.db.nextRole, perm) <==>
                 Asks(s.db, codes.value, fails, 3, perm) || (fails(2) && RoleHas(s.db, s.db.nextRole, perm))))
  {
    hide WithRolePerms, Requested;
    var r := Apply(s, CreateRole(name, codes, fails));
    CreateIsCreated(s, CreateRole(name, codes, fails));
    CreatedRows(s.db, name, codes, fails);
    if !(name == "" || CodeTaken(s.db, name) || fails(0)) {
      CreatedRole(s.db, name, codes, fails);
      assert r.db.roles[|s.db.roles|].code == name;
      if Numbered(s.db) && NameUnused(s.db, name) && codes.Some? && !fails(1) {
        NewRoleRows(s.db, NewRole(name, codes, fails));
        RequestedHas(s.db, codes.value, fails, 3, perm);
      }
    }
  }

  lemma CreatedRole(db: Db, name: string, codes: Option<seq<string>>, fails: Faults)
    requires name != "" && !CodeTaken(db, name) && !fails(0)
    ensures var r := Created(db, name, codes, fails);
      r.roles == db.roles + [Role(db.nextRole, name, name)] && r.nextRole == db.nextRole + 1
  {
  }
}
