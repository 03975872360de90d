/** When creating a role changes what an account may do. Nothing drops cache
    entries then (HandleCreateRole of server/admin/admin_server.cpp), so this
    decides whether the cache stays right. */
module RbacRoles {
  import opened Collections
  import opened Wrappers
  import opened RbacCache

  /** The entry is what the queries would find now. */
  ghost predicate EntryRight(db: Db, a: nat, e: Entry) {
    Known(db, a) && e.status == db.admins[a] && Listing(e.perms, db, a)
  }

  /** Every cached entry is right. */
  ghost predicate Coherent(s: State) {
    forall a :: a in s.cache ==> EntryRight(s.db, a, s.cache[a])
  }

  lemma SameCodes(db: Db, r: Db, a: Id)
    requires r.perms == db.perms && forall p :: Grants(r, a, p) <==> Grants(db, a, p)
    ensures Codes(r, a) == Codes(db, a)
  {
  }

  /** Every finite set of codes can be listed. */
  lemma {:induction false} ListingExists(codes: set<string>) returns (ps: seq<string>)
    ensures (forall c :: c in ps <==> c in codes) && forall i, j :: 0 <= i < j < |ps| ==> ps[i] != ps[j]
  {
    ps := [];
    if codes != {} {
      var c :| c in codes;
      var rest := ListingExists(codes - {c});
      ps := rest + [c];
    }
  }

  // ------------------------------------------------------- creating a role

  /** The role that gets the permissions: the first of that name, and the new one
      if there was none. */
  function Target(db: Db, name: string): Id {
    FirstNamed(db.roles + [Role(db.nextRole, name, name)], name)
  }

  /** Whether the handler comes to set permissions. */
  predicate Sets(db: Db, name: string, codes: Option<seq<string>>, fails: Faults) {
    name != "" && !CodeTaken(db, name) && !fails(0) && !fails(1) && codes.Some? && Target(db, name) > 0
  }

  predicate GrantedByOthers(db: Db, a: Id, role: Id, perm: Id) {
    exists ar :: ar in db.adminRoles && ar.0 == a && ar.1 != role && (ar.1, perm) in db.rolePerms
  }

  /** What the target role grants afterwards. */
  predicate TargetGrants(db: Db, name: string, codes: seq<string>, fails: Faults, perm: Id) {
    perm in Requested(db, codes, fails, 3, |codes|) || (fails(2) && (Target(db, name), perm) in db.rolePerms)
  }

  function Created(db: Db, name: string, codes: Option<seq<string>>, fails: Faults): Db {
    if name == "" then db else WithNewRole(db, name, codes, fails)
  }

  lemma CreatedRows(db: Db, name: string, codes: Option<seq<string>>, fails: Faults)
    ensures var r := Created(db, name, codes, fails);
      && r == db.(roles := r.roles, rolePerms := r.rolePerms, nextRole := r.nextRole)
      && (!Sets(db, name, codes, fails) ==> r.rolePerms == db.rolePerms)
      && (Sets(db, name, codes, fails) ==> forall role, p :: (role, p) in r.rolePerms <==>
            if role == Target(db, name) then TargetGrants(db, name, codes.value, fails, p) else (role, p) in db.rolePerms)
  {
    hide CodeTaken, Requested;
    var r := Created(db, name, codes, fails);
    if Sets(db, name, codes, fails) {
      var perms := Requested(db, codes.value, fails, 3, |codes.value|);
      assert Requested(WithRole(db, name), codes.value, fails, 3, |codes.value|) == perms by {
        SameRequests(db, WithRole(db, name), codes.value, fails, 3);
      }
    }
  }

  lemma SameRequests(db: Db, r: Db, codes: seq<string>, fails: Faults, first: nat)
    requires r.perms == db.perms
    ensures Requested(r, codes, fails, first, |codes|) == Requested(db, codes, fails, first, |codes|)
  {
  }

  /** What an account is granted after a role was created. */
  lemma GrantsAfter(db: Db, name: string, codes: Option<seq<string>>, fails: Faults, a: Id, p: Id)
    ensures Grants(Created(db, name, codes, fails), a, p) <==>
      if Sets(db, name, codes, fails) && (a, Target(db, name)) in db.adminRoles
      then GrantedByOthers(db, a, Target(db, name), p) || TargetGrants(db, name, codes.value, fails, p)
      else Grants(db, a, p)
  {
    CreatedRows(db, name, codes, fails);
    var r := Created(db, name, codes, fails);
    hide Created, TargetGrants, Target;
    if Sets(db, name, codes, fails) {
      var t := Target(db, name);
      forall ar | ar in db.adminRoles && ar.0 == a
        ensures (ar.1, p) in r.rolePerms <==>
                if ar.1 == t then TargetGrants(db, name, codes.value, fails, p) else (ar.1, p) in db.rolePerms
      {
      }
      if (a, t) in db.adminRoles && TargetGrants(db, name, codes.value, fails, p) {
        assert ((a, t).1, p) in r.rolePerms;
      }
    }
  }

  /** What can be checked before the call, for one account: the handler will not
      come to set permissions, or the account does not hold the target role, or it
      has by its other roles and what is requested exactly what it has now. */
  predicate SafeFor(db: Db, name: string, codes: Option<seq<string>>, fails: Faults, a: Id) {
    Sets(db, name, codes, fails) && (a, Target(db, name)) in db.adminRoles ==>
      forall c :: c in db.perms ==>
        (Grants(db, a, db.perms[c]) <==>
         GrantedByOthers(db, a, Target(db, name), db.perms[c]) || TargetGrants(db, name, codes.value, fails, db.perms[c]))
  }

  predicate CreateRoleSafe(db: Db, name: string, codes: Option<seq<string>>, fails: Faults) {
    forall a :: a in db.admins && Known(db, a) ==> SafeFor(db, name, codes, fails, a)
  }

  lemma SafeForIff(db: Db, name: string, codes: Option<seq<string>>, fails: Faults, a: Id)
    ensures SafeFor(db, name, codes, fails, a) <==> Codes(Created(db, name, codes, fails), a) == Codes(db, a)
  {
    var r := Created(db, name, codes, fails);
    CreatedRows(db, name, codes, fails);
    forall c | c in db.perms
      ensures c in Codes(r, a) <==>
        if Sets(db, name, codes, fails) && (a, Target(db, name)) in db.adminRoles
        then GrantedByOthers(db, a, Target(db, name), db.perms[c]) || TargetGrants(db, name, codes.value, fails, db.perms[c])
        else c in Codes(db, a)
    {
      GrantsAfter(db, name, codes, fails, a, db.perms[c]);
    }
    hide Created, Sets, TargetGrants, Target, Grants, GrantedByOthers;
    if SafeFor(db, name, codes, fails, a) {
      assert forall c :: c in Codes(r, a) <==> c in Codes(db, a);
    }
    assert forall c :: c in db.perms ==> (c in Codes(db, a) <==> Grants(db, a, db.perms[c]));
  }

  lemma SafeIff(db: Db, name: string, codes: Option<seq<string>>, fails: Faults)
    ensures CreateRoleSafe(db, name, codes, fails) <==>
      forall a: nat :: Known(db, a) ==> Codes(Created(db, name, codes, fails), a) == Codes(db, a)
  {
    hide SafeFor, Codes, Created;
    forall a: nat
      ensures SafeFor(db, name, codes, fails, a) <==> Codes(Created(db, name, codes, fails), a) == Codes(db, a)
    {
      SafeForIff(db, name, codes, fails, a);
    }
  }

  /** Creating a role keeps every right cache right if and only if it is safe in
      that sense. */
  lemma CreateRoleIff(db: Db, name: string, codes: Option<seq<string>>, fails: Faults)
    ensures CreateRoleSafe(db, name, codes, fails) <==>
      forall cache: Cache :: Coherent(State(db, cache)) ==>
        Coherent(Apply(State(db, cache), CreateRole(name, codes, fails)))
  {
    var r := Created(db, name, codes, fails);
    CreatedRows(db, name, codes, fails);
    SafeIff(db, name, codes, fails);
    forall cache: Cache ensures Apply(State(db, cache), CreateRole(name, codes, fails)) == State(r, cache) {
    }
    hide Apply, Created, CreateRoleSafe, Codes;
    if CreateRoleSafe(db, name, codes, fails) {
      forall cache: Cache | Coherent(State(db, cache)) ensures Coherent(State(r, cache)) {
      }
    } else {
      var a: nat :| Known(db, a) && Codes(r, a) != Codes(db, a);
      var cache := WrongEntry(db, r, a);
    }
  }

  lemma WrongEntry(db: Db, r: Db, a: nat) returns (cache: Cache)
    requires Known(db, a) && Codes(r, a) != Codes(db, a)
    ensures Coherent(State(db, cache)) && !Coherent(State(r, cache))
  {
    hide Codes;
    var ps := ListingExists(Codes(db, a));
    cache := map[a := Entry(ps, db.admins[a], 0)];
    ListingTells(ps, db, r, a);
    assert a in cache && cache[a].perms == ps;
    assert !EntryRight(r, a, cache[a]);
  }

  lemma ListingTells(ps: seq<string>, db: Db, r: Db, a: nat)
    ensures Listing(ps, db, a) && Listing(ps, r, a) ==> Codes(r, a) == Codes(db, a)
  {
    hide Codes;
  }

  // --------------------------------------------- names and ids of their own

  predicate NameUnused(db: Db, name: string) {
    name != "" && forall r :: r in db.roles ==> r.name != name && r.code != name
  }

  /** Role ids are given out in order. */
  predicate Numbered(db: Db) {
    0 < db.nextRole && forall r :: r in db.roles ==> 0 < r.id < db.nextRole
  }

  lemma {:induction false} FirstNamedNew(roles: seq<Role>, name: string, id: Id)
    requires forall r :: r in roles ==> r.name != name
    ensures FirstNamed(roles + [Role(id, name, name)], name) == id
  {
    if roles == [] {
      assert roles + [Role(id, name, name)] == [Role(id, name, name)];
    } else {
      FirstNamedNew(roles[1..], name, id);
      assert (roles + [Role(id, name, name)])[1..] == roles[1..] + [Role(id, name, name)];
    }
  }

  /** With a name of its own a new role is safe if nobody holds its id yet. */
  lemma UnusedNameSafe(db: Db, name: string, codes: Option<seq<string>>, fails: Faults)
    requires NameUnused(db, name)
    requires forall a :: a in db.admins && Known(db, a) ==> (a, db.nextRole) !in db.adminRoles
    ensures CreateRoleSafe(db, name, codes, fails)
  {
    FirstNamedNew(db.roles, name, db.nextRole);
  }

  // ------------------------------------------------ ids given out too early

  datatype NewRole = NewRole(name: string, codes: Option<seq<string>>, fails: Faults)

  function CreatedAll(db: Db, rs: seq<NewRole>): Db
    decreases |rs|
  {
    if rs == [] then db else CreatedAll(Created(db, rs[0].name, rs[0].codes, rs[0].fails), rs[1..])
  }

  predicate AllUnused(db: Db, rs: seq<NewRole>)
    decreases |rs|
  {
    rs == [] || (
      && NameUnused(db, rs[0].name)
      && AllUnused(Created(db, rs[0].name, rs[0].codes, rs[0].fails), rs[1..]))
  }

  /** Granted through a role that has an id already. */
  predicate Solid(db: Db, a: Id, perm: Id) {
    exists ar :: ar in db.adminRoles && ar.0 == a && ar.1 < db.nextRole && (ar.1, perm) in db.rolePerms
  }

  predicate ExposedBy(db: Db, a: nat, role: Id, code: string) {
    && Known(db, a) && (a, role) in db.adminRoles && role >= db.nextRole
    && code in db.perms && !Solid(db, a, db.perms[code])
  }

  /** An account holds an id that no role has had yet, and some permission is not
      granted to it by the roles it really has. */
  ghost predicate Exposed(db: Db) {
    exists a: nat, role: Id, code: string :: ExposedBy(db, a, role, code)
  }

  lemma SolidGranted(db: Db, a: Id, perm: Id)
    requires Solid(db, a, perm)
    ensures Grants(db, a, perm) && GrantedByOthers(db, a, db.nextRole, perm)
  {
  }

  /** What a role of a new name does to the tables. */
  lemma NewRoleRows(db: Db, r: NewRole)
    requires Numbered(db) && NameUnused(db, r.name)
    ensures var d := Created(db, r.name, r.codes, r.fails);
      && Target(db, r.name) == db.nextRole && Numbered(d)
      && d == db.(roles := d.roles, rolePerms := d.rolePerms, nextRole := d.nextRole)
      && d.nextRole == (if r.fails(0) then db.nextRole else db.nextRole + 1)
      && (forall role, p :: role != db.nextRole ==> ((role, p) in d.rolePerms <==> (role, p) in db.rolePerms))
      && (!r.fails(0) && !r.fails(1) && r.codes.Some? ==> forall p ::
            (db.nextRole, p) in d.rolePerms <==> TargetGrants(db, r.name, r.codes.value, r.fails, p))
      && (r.codes.None? ==> d.rolePerms == db.rolePerms)
  {
    hide Requested, TargetGrants;
    FirstNamedNew(db.roles, r.name, db.nextRole);
    CreatedRows(db, r.name, r.codes, r.fails);
  }

  lemma UnexposedCodes(db: Db, r: NewRole, a: nat)
    requires Numbered(db) && NameUnused(db, r.name) && !Exposed(db) && Known(db, a)
    ensures Codes(Created(db, r.name, r.codes, r.fails), a) == Codes(db, a)
  {
    var d := Created(db, r.name, r.codes, r.fails);
    NewRoleRows(db, r);
    hide Created, TargetGrants, Target, Grants, GrantedByOthers, Sets, Solid;
    forall c | c in db.perms ensures Grants(d, a, db.perms[c]) <==> Grants(db, a, db.perms[c]) {
      GrantsAfter(db, r.name, r.codes, r.fails, a, db.perms[c]);
      if (a, db.nextRole) in db.adminRoles {
        assert !ExposedBy(db, a, db.nextRole, c);
        SolidGranted(db, a, db.perms[c]);
      }
    }
  }

  lemma UnexposedStays(db: Db, r: NewRole)
    requires Numbered(db) && NameUnused(db, r.name) && !Exposed(db)
    ensures !Exposed(Created(db, r.name, r.codes, r.fails))
  {
    var d := Created(db, r.name, r.codes, r.fails);
    NewRoleRows(db, r);
    hide Created, TargetGrants, Target;
    forall a: nat, role: Id, code: string ensures !ExposedBy(d, a, role, code) {
      assert !ExposedBy(db, a, role, code);
      if code in db.perms && Solid(db, a, db.perms[code]) {
        var ar :| ar in db.adminRoles && ar.0 == a && ar.1 < db.nextRole && (ar.1, db.perms[code]) in db.rolePerms;
        assert ar in d.adminRoles && (ar.1, db.perms[code]) in d.rolePerms;
      }
    }
  }

  /** Without such an id, roles of new names never change what an account may do,
      whichever statements fail. */
  lemma {:induction false} UnexposedRun(db: Db, rs: seq<NewRole>, a: nat)
    requires Numbered(db) && AllUnused(db, rs) && !Exposed(db) && Known(db, a)
    ensures var d := CreatedAll(db, rs); d.admins == db.admins && Codes(d, a) == Codes(db, a)
    decreases |rs|
  {
    hide Exposed, Codes, Created;
    if rs != [] {
      NewRoleRows(db, rs[0]);
      UnexposedCodes(db, rs[0], a);
      UnexposedStays(db, rs[0]);
      UnexposedRun(Created(db, rs[0].name, rs[0].codes, rs[0].fails), rs[1..], a);
    }
  }

  function Longest(roles: seq<Role>): (n: nat)
    ensures forall r :: r in roles ==> |r.name| <= n && |r.code| <= n
  {
    if roles == [] then 0
    else
      assert roles == [roles[0]] + roles[1..];
      |roles[0].name| + |roles[0].code| + Longest(roles[1..])
  }

  function FreshName(db: Db): (name: string)
    ensures NameUnused(db, name)
  {
    seq(Longest(db.roles) + 1, _ => 'r')
  }

  /** `n` roles of new names, all with the same request. */
  lemma {:induction false} Roles(db: Db, n: nat, codes: Option<seq<string>>) returns (rs: seq<NewRole>)
    requires Numbered(db) && (codes == None || codes == Some([]))
    ensures AllUnused(db, rs)
    ensures var d := CreatedAll(db, rs);
      && d == db.(roles := d.roles, rolePerms := d.rolePerms, nextRole := db.nextRole + n) && Numbered(d)
      && forall role, p :: (role, p) in d.rolePerms <==>
           (role, p) in db.rolePerms && !(codes.Some? && db.nextRole <= role < db.nextRole + n)
    decreases n
  {
    rs := [];
    if n > 0 {
      var r := NewRole(FreshName(db), codes, _ => false);
      var d := Created(db, r.name, r.codes, r.fails);
      NewRoleRows(db, r);
      assert codes.Some? ==> forall p :: !TargetGrants(db, r.name, [], r.fails, p);
      hide Created, FreshName, TargetGrants, NameUnused;
      var rest := Roles(d, n - 1, codes);
      rs := [r] + rest;
      assert rs[1..] == rest;
    }
  }

  lemma {:induction false} Bound(s: set<(Id, Id)>) returns (m: Id)
    ensures forall x :: x in s ==> x.1 < m
  {
    m := 0;
    if s != {} {
      var x :| x in s;
      m := Bound(s - {x});
      m := if m > x.1 then m else x.1 + 1;
    }
  }

  lemma {:induction false} CreatedConcat(db: Db, rs: seq<NewRole>, more: seq<NewRole>)
    ensures CreatedAll(db, rs + more) == CreatedAll(CreatedAll(db, rs), more)
    ensures AllUnused(db, rs + more) <==> AllUnused(db, rs) && AllUnused(CreatedAll(db, rs), more)
    decreases |rs|
  {
    hide Created, NameUnused;
    if rs == [] {
      assert [] + more == more;
    } else {
      CreatedConcat(Created(db, rs[0].name, rs[0].codes, rs[0].fails), rs[1..], more);
      assert (rs + more)[1..] == rs[1..] + more;
    }
  }

  /** A code is gained when the early id becomes a role that grants it. */
  lemma Gain(db: Db, a: nat, role: Id, code: string) returns (rs: seq<NewRole>)
    requires Numbered(db) && ExposedBy(db, a, role, code)
    ensures AllUnused(db, rs) && code in Codes(CreatedAll(db, rs), a)
  {
    var skip := Roles(db, role - db.nextRole, None);
    var d := CreatedAll(db, skip);
    var r := NewRole(FreshName(d), Some([code]), _ => false);
    NewRoleRows(d, r);
    var e := Created(d, r.name, r.codes, r.fails);
    assert d.perms[[code][0]] in Requested(d, [code], r.fails, 3, 1);
    hide Created, FreshName, Solid;
    assert (role, db.perms[code]) in e.rolePerms;
    var ar := (a as Id, role);
    assert ar in e.adminRoles && ar.0 == a && (ar.1, db.perms[code]) in e.rolePerms;
    assert Grants(e, a, db.perms[code]);
    assert [r][1..] == [];
    CreatedConcat(db, skip, [r]);
    rs := skip + [r];
  }

  /** A code granted through early ids only is lost when they become roles that
      grant nothing. */
  lemma Loss(db: Db, a: nat, role: Id, code: string) returns (rs: seq<NewRole>)
    requires Numbered(db) && ExposedBy(db, a, role, code)
    ensures AllUnused(db, rs) && code !in Codes(CreatedAll(db, rs), a)
  {
    var m := Bound(db.adminRoles);
    rs := Roles(db, if m > db.nextRole then m - db.nextRole else 0, Some([]));
    var d := CreatedAll(db, rs);
    forall ar | ar in d.adminRoles && ar.0 == a ensures (ar.1, db.perms[code]) !in d.rolePerms {
    }
  }

  /** When an id assigned too early is a danger: some roles created later, all of
      new names, make a right cache wrong if and only if an account is exposed. */
  lemma ExposedIff(db: Db)
    requires Numbered(db)
    ensures Exposed(db) <==>
      exists cache: Cache, rs: seq<NewRole> ::
        AllUnused(db, rs) && Coherent(State(db, cache)) && !Coherent(State(CreatedAll(db, rs), cache))
  {
    hide Solid, Codes;
    if Exposed(db) {
      var a: nat, role: Id, code: string :| ExposedBy(db, a, role, code);
      var rs;
      if code in Codes(db, a) {
        rs := Loss(db, a, role, code);
      } else {
        rs := Gain(db, a, role, code);
      }
      var cache := WrongEntry(db, CreatedAll(db, rs), a);
    } else {
      forall cache: Cache, rs: seq<NewRole> | AllUnused(db, rs) && Coherent(State(db, cache))
        ensures Coherent(State(CreatedAll(db, rs), cache))
      {
        forall a | a in cache ensures EntryRight(CreatedAll(db, rs), a, cache[a]) {
          assert EntryRight(db, a, cache[a]);
          UnexposedRun(db, rs, a);
        }
      }
    }
  }

  // ------------------------------------------------------- the seeded tables

  /** The seeded role: its name differs from its code, so UNIQUE codes let a
      second role take its name. */
  const SEEDED := Role(1, "root", "super_admin")

  const START := Db(map[1 := Normal], {(1, 1)}, {(1, 7)}, [SEEDED], map["admin.manage" := 7], 2)

  /** Creating a role called like the seeded one, without permissions, takes the
      seeded role's permissions away unseen; assigning role 2 before it exists
      exposes the account. */
  lemma SeededTablesBreak()
    ensures Numbered(START) && !Exposed(START)
    ensures !CreateRoleSafe(START, "root", Some([]), _ => false)
    ensures Exposed(WithAdminRoles(START, 1, [2], _ => false))
  {
    var none: Faults := _ => false;
    assert FirstNamed([SEEDED, Role(2, "root", "root")], "root") == 1;
    assert START.roles + [Role(2, "root", "root")] == [SEEDED, Role(2, "root", "root")];
    assert (1, 1) in START.adminRoles && Grants(START, 1, 7);
    assert Sets(START, "root", Some([]), none);
    assert !GrantedByOthers(START, 1, 1, 7) && !TargetGrants(START, "root", [], none, 7);
    var d := WithAdminRoles(START, 1, [2], none);
    var gone := set j | 0 <= j < |[SEEDED]| && !none(2 + j) :: [SEEDED][j].id;
    assert [SEEDED][0].id in gone;
    var added := set k | 0 <= k < |[2]| && !none(3 + k) :: (1, [2][k]);
    assert (1, [2][0]) in added;
    assert (1, 2) in d.adminRoles && (1, 1) !in d.adminRoles;
    assert ExposedBy(d, 1, 2, "admin.manage");
  }
}
