/** The 30-second permission cache of server/admin/admin_server.cpp over the role
    tables (server/dao/impl/rbac_dao_impl.cpp), with the handlers that change
    accounts and roles and drop cache entries. Any statement of a handler may
    fail; a failing write changes nothing and a failing read finds nothing. */
module RbacCache {
  import opened Collections
  import opened Wrappers
  import opened PermissionHeader

  type Id = int
  type Time = int

  /** kRbacCacheTtl and kRbacCacheMaxSize. */
  const TTL: Time := 30
  const MAX_SIZE := 1024

  datatype Status = Normal | Banned | Deleted

  datatype Role = Role(id: Id, name: string, code: string)

  /** Permission ids by their UNIQUE code; roles in the order of their ids. */
  datatype Db = Db(
    admins: map<nat, Status>,
    adminRoles: set<(Id, Id)>,
    rolePerms: set<(Id, Id)>,
    roles: seq<Role>,
    perms: map<string, Id>,
    nextRole: Id)

  /** The join behind GetUserPermissions. */
  predicate Grants(db: Db, a: Id, perm: Id) {
    exists ar :: ar in db.adminRoles && ar.0 == a && (ar.1, perm) in db.rolePerms
  }

  function Codes(db: Db, a: Id): set<string> {
    set c | c in db.perms && Grants(db, a, db.perms[c])
  }

  /** FindById hides deleted accounts. */
  predicate Known(db: Db, a: Id) {
    a in db.admins && db.admins[a] != Deleted
  }

  /** The order of the rows is up to the database. */
  ghost predicate Listing(ps: seq<string>, db: Db, a: Id) {
    (forall c :: c in ps <==> c in Codes(db, a)) && forall i, j :: 0 <= i < j < |ps| ==> ps[i] != ps[j]
  }

  /** What the permission query gives: a failing one gives nothing. */
  ghost predicate Answers(ps: seq<string>, db: Db, a: Id, ok: bool) {
    if ok then Listing(ps, db, a) else ps == []
  }

  // ---------------------------------------------------- the cache as a value

  datatype Entry = Entry(perms: seq<string>, status: Status, expires: Time)

  type Cache = map<nat, Entry>

  datatype State = State(db: Db, cache: Cache)

  datatype Answer = AccountDisabled | Next(header: string)

  predicate Hit(cache: Cache, a: nat, now: Time) {
    a in cache && cache[a].expires > now
  }

  function Live(cache: Cache, now: Time): Cache {
    map a | a in cache && cache[a].expires > now :: cache[a]
  }

  /** Expired entries go first; if that is not enough, everything goes. */
  function Room(cache: Cache, now: Time): (r: Cache)
    ensures |r| < MAX_SIZE
    ensures forall a :: a in r ==> a in cache && r[a] == cache[a]
  {
    if |cache| < MAX_SIZE then cache
    else if |Live(cache, now)| < MAX_SIZE then Live(cache, now)
    else map[]
  }

  function Decide(status: Status, perms: seq<string>): Answer {
    if status != Normal then AccountDisabled else Next(Joined(perms))
  }

  // -------------------------------------------------- the handlers as values

  /** Which of a handler's statements fail, by their number. */
  type Faults = nat -> bool

  function WithStatus(db: Db, id: Id, status: Status): Db {
    if Known(db, id) then db.(admins := db.admins[id := status]) else db
  }

  function ListedRoles(db: Db, fails: Faults): seq<Role> {
    if fails(1) then [] else db.roles
  }

  /** The roles that are listed go, one statement each, and the requested ones
      come. */
  function WithAdminRoles(db: Db, id: Id, roleIds: seq<Id>, fails: Faults): Db {
    var listed := ListedRoles(db, fails);
    var gone := set j | 0 <= j < |listed| && !fails(2 + j) :: listed[j].id;
    db.(adminRoles := (set ar | ar in db.adminRoles && (ar.0 != id || ar.1 !in gone))
                      + (set k | 0 <= k < |roleIds| && !fails(2 + |listed| + k) :: (id, roleIds[k])))
  }

  /** The permissions behind the first `n` codes, as far as they are known and
      their statements work. */
  function Requested(db: Db, codes: seq<string>, fails: Faults, first: nat, n: nat): set<Id>
    requires n <= |codes|
  {
    set k | 0 <= k < n && codes[k] in db.perms && !fails(first + k) :: db.perms[codes[k]]
  }

  function RowsOf(role: Id, perms: set<Id>): set<(Id, Id)> {
    set p | p in perms :: (role, p)
  }

  lemma RowsOfHas(role: Id, perms: set<Id>, x: (Id, Id))
    ensures x in RowsOf(role, perms) <==> x.0 == role && x.1 in perms
  {
    if x.0 == role && x.1 in perms {
      var p := x.1;
      assert p in perms && x == (role, p);
    }
  }

  /** The old rows go in statement `first`, and those for known codes come. */
  function WithRolePerms(db: Db, role: Id, codes: seq<string>, fails: Faults, first: nat): Db {
    db.(rolePerms := (set rp | rp in db.rolePerms && (rp.0 != role || fails(first)))
                     + RowsOf(role, Requested(db, codes, fails, first + 1, |codes|)))
  }

  lemma NothingRequested(db: Db, role: Id, codes: seq<string>, fails: Faults, first: nat)
    ensures RowsOf(role, Requested(db, codes, fails, first, 0)) == {}
  {
  }

  lemma NextRequested(db: Db, role: Id, codes: seq<string>, fails: Faults, first: nat, n: nat)
    requires n < |codes|
    ensures RowsOf(role, Requested(db, codes, fails, first, n + 1)) ==
      RowsOf(role, Requested(db, codes, fails, first, n))
      + if codes[n] in db.perms && !fails(first + n) then {(role, db.perms[codes[n]])} else {}
  {
    var before := Requested(db, codes, fails, first, n);
    var after := Requested(db, codes, fails, first, n + 1);
    if codes[n] in db.perms && !fails(first + n) {
      assert after == before + {db.perms[codes[n]]};
      forall x ensures x in RowsOf(role, after) <==> x in RowsOf(role, before) + {(role, db.perms[codes[n]])} {
        RowsOfHas(role, after, x);
        RowsOfHas(role, before, x);
      }
    } else {
      assert after == before;
    }
  }

  function FirstNamed(roles: seq<Role>, name: string): Id {
    if roles == [] then 0 else if roles[0].name == name then roles[0].id else FirstNamed(roles[1..], name)
  }

  /** A new role's code is its name, and codes are UNIQUE. */
  predicate CodeTaken(db: Db, code: string) {
    exists r :: r in db.roles && r.code == code
  }

  function WithRole(db: Db, name: string): Db {
    db.(roles := db.roles + [Role(db.nextRole, name, name)], nextRole := db.nextRole + 1)
  }

  /** The permissions go to the first role that carries the name. */
  function WithNewRole(db: Db, name: string, codes: Option<seq<string>>, fails: Faults): Db {
    if CodeTaken(db, name) || fails(0) then db
    else
      var r := WithRole(db, name);
      var id := FirstNamed(ListedRoles(r, fails), name);
      if codes.Some? && id > 0 then WithRolePerms(r, id, codes.value, fails, 2) else r
  }

  function WithoutRole(db: Db, id: Id, fails: Faults): Db {
    db.(rolePerms := (set rp | rp in db.rolePerms && (rp.0 != id || fails(0))),
        adminRoles := (set ar | ar in db.adminRoles && (ar.1 != id || fails(1))),
        roles := if fails(2) then db.roles else RolesExcept(db.roles, id))
  }

  function RolesExcept(roles: seq<Role>, id: Id): (r: seq<Role>)
    ensures forall x :: x in r <==> x in roles && x.id != id
  {
    if roles == [] then []
    else
      assert roles == [roles[0]] + roles[1..];
      (if roles[0].id == id then [] else [roles[0]]) + RolesExcept(roles[1..], id)
  }

  /** `picked` is the id the database gives for a new account. */
  datatype Op =
    | CreateAdmin(picked: nat, fails: Faults)
    | DeleteAdmin(actor: Id, id: Id, fails: Faults)
    | EnableAdmin(id: Id, fails: Faults)
    | DisableAdmin(actor: Id, id: Id, fails: Faults)
    | SetAdminRoles(id: Id, roleIds: seq<Id>, fails: Faults)
    | CreateRole(name: string, codes: Option<seq<string>>, fails: Faults)
    | UpdateRole(id: Id, codes: Option<seq<string>>, fails: Faults)
    | DeleteRole(id: Id, fails: Faults)

  /** The super admin and oneself are protected. */
  predicate MayDisable(actor: Id, id: Id) {
    id > 0 && id != 1 && id != actor
  }

  /** Whether the handler gets as far as dropping the entry of account `id`. */
  predicate Touches(db: Db, id: Id, fails: Faults) {
    id > 0 && Known(db, id) && !fails(0)
  }

  function Apply(s: State, op: Op): State {
    match op
    case CreateAdmin(id, fails) =>
      if id in s.db.admins || fails(0) then s else s.(db := s.db.(admins := s.db.admins[id := Normal]))
    case DeleteAdmin(actor, id, fails) =>
      if MayDisable(actor, id) && Touches(s.db, id, fails) then State(WithStatus(s.db, id, Deleted), s.cache - {id}) else s
    case EnableAdmin(id, fails) =>
      if Touches(s.db, id, fails) then State(WithStatus(s.db, id, Normal), s.cache - {id}) else s
    case DisableAdmin(actor, id, fails) =>
      if MayDisable(actor, id) && Touches(s.db, id, fails) then State(WithStatus(s.db, id, Banned), s.cache - {id}) else s
    case SetAdminRoles(id, roleIds, fails) =>
      if Touches(s.db, id, fails) then State(WithAdminRoles(s.db, id, roleIds, fails), s.cache - {id}) else s
    case CreateRole(name, codes, fails) => if name == "" then s else s.(db := WithNewRole(s.db, name, codes, fails))
    case UpdateRole(id, codes, fails) =>
      if id <= 0 then s
      else State(if codes.Some? then WithRolePerms(s.db, id, codes.value, fails, 0) else s.db, map[])
    case DeleteRole(id, fails) => if id <= 0 then s else State(WithoutRole(s.db, id, fails), map[])
  }

  lemma KeptLive(was: Cache, cache: Cache, now: Time)
    requires forall a :: a in cache ==> a in was && cache[a] == was[a]
    requires forall a :: a in was ==> (a in cache <==> was[a].expires > now)
    ensures cache == Live(was, now)
  {
  }

  // ------------------------------------------------------------ the server

  class AdminServer {
    var db: Db
    var cache: Cache

    function Value(): State
      reads this
    {
      State(db, cache)
    }

    constructor (db: Db)
      ensures Value() == State(db, map[])
    {
      this.db, cache := db, map[];
    }

    method FindById(a: nat, ok: bool) returns (r: Option<Status>)
      ensures r == if ok && Known(db, a) then Some(db.admins[a]) else None
    {
      if !ok || a !in db.admins || db.admins[a] == Deleted {
        return None;
      }
      return Some(db.admins[a]);
    }

    method GetUserPermissions(a: Id, ok: bool) returns (ps: seq<string>)
      ensures Answers(ps, db, a, ok)
    {
      ps := [];
      if !ok {
        return;
      }
      var rest := Codes(db, a);
      while rest != {}
        invariant rest <= Codes(db, a)
        invariant forall c :: c in ps <==> c in Codes(db, a) && c !in rest
        invariant forall i, j :: 0 <= i < j < |ps| ==> ps[i] != ps[j]
        decreases rest
      {
        var c :| c in rest;
        rest := rest - {c};
        ps := ps + [c];
      }
    }

    /** The erase-while-iterating loop over expired entries. */
    method EraseExpired(now: Time)
      modifies this`cache
      ensures cache == Live(old(cache), now)
    {
      ghost var was := cache;
      var rest := cache.Keys;
      while rest != {}
        invariant rest <= cache.Keys <= was.Keys
        invariant forall a :: a in cache ==> cache[a] == was[a]
        invariant forall a :: a in was && a !in rest ==> (a in cache <==> was[a].expires > now)
        decreases |rest|
      {
        var a :| a in rest;
        rest := rest - {a};
        if cache[a].expires <= now {
          cache := cache - {a};
        }
      }
      KeptLive(was, cache, now);
    }

    method MakeRoom(now: Time)
      modifies this`cache
      ensures cache == Room(old(cache), now)
    {
      if |cache| >= MAX_SIZE {
        EraseExpired(now);
        if |cache| >= MAX_SIZE {
          cache := map[];
        }
      }
    }

    /** The cache path. No lock is held between the lookup, the two queries and the
        store: `second` and `last` are what other requests and other processes have
        made of tables and cache by the second query and by the store. `found` and
        `listed` tell whether the queries work. */
    method AuthMiddleware(a: nat, now: Time, second: State, last: State, found: bool, listed: bool)
      returns (r: Answer, ghost ps: seq<string>)
      modifies this
      ensures Hit(old(cache), a, now) ==>
        Value() == old(Value()) && r == Decide(old(cache)[a].status, old(cache)[a].perms)
      ensures !Hit(old(cache), a, now) && !(found && Known(old(db), a)) ==>
        Value() == old(Value()) && r == AccountDisabled
      ensures !Hit(old(cache), a, now) && found && Known(old(db), a) ==>
        && Answers(ps, second.db, a, listed)
        && r == Decide(old(db).admins[a], ps)
        && Value() == State(last.db, Room(last.cache, now)[a := Entry(ps, old(db).admins[a], now + TTL)])
    {
      hide Answers, Room;
      var perms, status := [], Normal;
      ps := [];
      if a in cache && cache[a].expires > now {
        perms, status := cache[a].perms, cache[a].status;
      } else {
        var account := FindById(a, found);
        if account.None? {
          return AccountDisabled, ps;
        }
        status := account.value;
        db, cache := second.db, second.cache;
        perms := GetUserPermissions(a, listed);
        ps := perms;
        db, cache := last.db, last.cache;
        MakeRoom(now);
        cache := cache[a := Entry(perms, status, now + TTL)];
      }
      if status == Banned || status == Deleted {
        return AccountDisabled, ps;
      }
      var header := Join(perms);
      return Next(header), ps;
    }

    method InvalidateRbacCache(id: Id)
      modifies this`cache
      ensures cache == old(cache) - {id}
    {
      cache := cache - {id};
    }

    method InvalidateRbacCacheAll()
      modifies this`cache
      ensures cache == map[]
    {
      cache := map[];
    }

    method UpdateStatus(id: Id, status: Status, fails: Faults) returns (ok: bool)
      modifies this`db
      ensures ok <==> Known(old(db), id) && !fails(0)
      ensures db == if ok then WithStatus(old(db), id, status) else old(db)
    {
      if id !in db.admins || db.admins[id] == Deleted || fails(0) {
        return false;
      }
      db := db.(admins := db.admins[id := status]);
      return true;
    }

    method HandleDeleteAdmin(actor: Id, id: Id, fails: Faults) returns (ok: bool)
      modifies this
      ensures ok <==> MayDisable(actor, id) && Touches(old(db), id, fails)
      ensures Value() == Apply(old(Value()), DeleteAdmin(actor, id, fails))
    {
      if id <= 0 || id == 1 || id == actor {
        return false;
      }
      ok := UpdateStatus(id, Deleted, fails);
      if ok {
        InvalidateRbacCache(id);
      }
    }

    method HandleEnableAdmin(id: Id, fails: Faults) returns (ok: bool)
      modifies this
      ensures ok <==> Touches(old(db), id, fails)
      ensures Value() == Apply(old(Value()), EnableAdmin(id, fails))
    {
      if id <= 0 {
        return false;
      }
      ok := UpdateStatus(id, Normal, fails);
      if ok {
        InvalidateRbacCache(id);
      }
    }

    method HandleDisableAdmin(actor: Id, id: Id, fails: Faults) returns (ok: bool)
      modifies this
      ensures ok <==> MayDisable(actor, id) && Touches(old(db), id, fails)
      ensures Value() == Apply(old(Value()), DisableAdmin(actor, id, fails))
    {
      if id <= 0 || id == 1 || id == actor {
        return false;
      }
      ok := UpdateStatus(id, Banned, fails);
      if ok {
        InvalidateRbacCache(id);
      }
    }

    method HandleSetAdminRoles(id: Id, roleIds: seq<Id>, fails: Faults) returns (ok: bool)
      modifies this
      ensures ok <==> Touches(old(db), id, fails)
      ensures Value() == Apply(old(Value()), SetAdminRoles(id, roleIds, fails))
    {
      if id <= 0 || id !in db.admins || db.admins[id] == Deleted || fails(0) {
        return false;
      }
      var listed := ListedRoles(db, fails);
      RemoveRoles(id, listed, fails);
      AssignRoles(id, roleIds, fails, 2 + |listed|);
      InvalidateRbacCache(id);
      return true;
    }

    method RemoveRoles(id: Id, listed: seq<Role>, fails: Faults)
      modifies this`db
      ensures var gone := set j | 0 <= j < |listed| && !fails(2 + j) :: listed[j].id;
        db == old(db).(adminRoles := set ar | ar in old(db).adminRoles && (ar.0 != id || ar.1 !in gone))
    {
      ghost var was := db;
      var k := 0;
      while k < |listed|
        invariant 0 <= k <= |listed|
        invariant var gone := set j | 0 <= j < k && !fails(2 + j) :: listed[j].id;
          db == was.(adminRoles := set ar | ar in was.adminRoles && (ar.0 != id || ar.1 !in gone))
      {
        ghost var gone := set j | 0 <= j < k && !fails(2 + j) :: listed[j].id;
        ghost var more := set j | 0 <= j < k + 1 && !fails(2 + j) :: listed[j].id;
        assert more == if fails(2 + k) then gone else gone + {listed[k].id};
        if !fails(2 + k) {
          db := db.(adminRoles := db.adminRoles - {(id, listed[k].id)});
        }
        k := k + 1;
      }
    }

    method AssignRoles(id: Id, roleIds: seq<Id>, fails: Faults, first: nat)
      modifies this`db
      ensures db == old(db).(adminRoles := old(db).adminRoles
                + (set k | 0 <= k < |roleIds| && !fails(first + k) :: (id, roleIds[k])))
    {
      ghost var was := db;
      var n := 0;
      while n < |roleIds|
        invariant 0 <= n <= |roleIds|
        invariant db == was.(adminRoles := was.adminRoles
                    + (set k | 0 <= k < n && !fails(first + k) :: (id, roleIds[k])))
      {
        if !fails(first + n) {
          db := db.(adminRoles := db.adminRoles + {(id, roleIds[n])});
        }
        n := n + 1;
      }
    }

    method SetRolePermissions(role: Id, codes: seq<string>, fails: Faults, first: nat)
      modifies this`db
      ensures db == WithRolePerms(old(db), role, codes, fails, first)
    {
      hide Requested, RowsOf;
      ghost var was := db;
      if !fails(first) {
        db := db.(rolePerms := set rp | rp in db.rolePerms && rp.0 != role);
      }
      ghost var bare := db.rolePerms;
      var n := 0;
      NothingRequested(was, role, codes, fails, first + 1);
      while n < |codes|
        invariant 0 <= n <= |codes|
        invariant db == was.(rolePerms := bare + RowsOf(role, Requested(was, codes, fails, first + 1, n)))
      {
        NextRequested(was, role, codes, fails, first + 1, n);
        if codes[n] in db.perms && !fails(first + 1 + n) {
          db := db.(rolePerms := db.rolePerms + {(role, db.perms[codes[n]])});
        }
        n := n + 1;
      }
    }

    method FindRoleNamed(listed: seq<Role>, name: string) returns (id: Id)
      ensures id == FirstNamed(listed, name)
    {
      id := 0;
      var k := 0;
      assert listed[0..] == listed;
      while k < |listed|
        invariant 0 <= k <= |listed| && id == 0
        invariant FirstNamed(listed, name) == FirstNamed(listed[k..], name)
      {
        if listed[k].name == name {
          return listed[k].id;
        }
        assert listed[k..][1..] == listed[k + 1..];
        k := k + 1;
      }
    }

    method HandleCreateRole(name: string, codes: Option<seq<string>>, fails: Faults) returns (ok: bool)
      modifies this
      ensures ok <==> name != "" && !CodeTaken(old(db), name) && !fails(0)
      ensures Value() == Apply(old(Value()), CreateRole(name, codes, fails))
    {
      hide WithRolePerms;
      if name == "" || fails(0) || exists r :: r in db.roles && r.code == name {
        return false;
      }
      db := db.(roles := db.roles + [Role(db.nextRole, name, name)], nextRole := db.nextRole + 1);
      var id := FindRoleNamed(ListedRoles(db, fails), name);
      if id > 0 && codes.Some? {
        SetRolePermissions(id, codes.value, fails, 2);
      }
      return true;
    }

    method HandleUpdateRole(id: Id, codes: Option<seq<string>>, fails: Faults) returns (ok: bool)
      modifies this
      ensures ok <==> id > 0
      ensures Value() == Apply(old(Value()), UpdateRole(id, codes, fails))
    {
      if id <= 0 {
        return false;
      }
      if codes.Some? {
        SetRolePermissions(id, codes.value, fails, 0);
      }
      InvalidateRbacCacheAll();
      return true;
    }

    /** The three DELETE statements. */
    method HandleDeleteRole(id: Id, fails: Faults) returns (ok: bool)
      modifies this
      ensures ok <==> id > 0
      ensures Value() == Apply(old(Value()), DeleteRole(id, fails))
    {
      if id <= 0 {
        return false;
      }
      if !fails(0) {
        db := db.(rolePerms := set rp | rp in db.rolePerms && rp.0 != id);
      }
      if !fails(1) {
        db := db.(adminRoles := set ar | ar in db.adminRoles && ar.1 != id);
      }
      if !fails(2) {
        db := db.(roles := RolesExcept(db.roles, id));
      }
      InvalidateRbacCacheAll();
      return true;
    }
  }
}
