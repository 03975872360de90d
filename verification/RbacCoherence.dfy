/** When every cached entry is what the tables say now: the exact condition event by
    event, and a discipline of the server under which it always holds, so that the
    cached decisions are those of a middleware without a cache. */
module RbacCoherence {
  import opened Wrappers
  import opened PermissionHeader
  import opened RbacCache
  import opened RbacRoles
  import opened RbacRuns

  // --------------------------------------------------------- event by event

  /** What a request has read is what the tables said at its queries. */
  ghost predicate FlightTells(f: Flight) {
    && (!f.Missed? ==> Known(f.first, f.admin) && f.status == f.first.admins[f.admin])
    && (f.Listed? ==> Answers(f.perms, f.second, f.admin, f.ok))
  }

  ghost predicate FlightsTell(w: World) {
    forall id :: id in w.flights ==> FlightTells(w.flights[id])
  }

  /** Between two moments the account stays known, with its status and its codes. */
  predicate SameAccount(was: Db, db: Db, a: nat) {
    && a in was.admins && Known(db, a) && db.admins[a] == was.admins[a]
    && Codes(db, a) == Codes(was, a)
  }

  /** Since its queries the account's status and codes are unchanged; a failing
      permission query is right for an account without codes only. */
  predicate Unchanged(f: Flight, db: Db)
    requires f.Listed?
  {
    && f.admin in f.first.admins && Known(db, f.admin) && db.admins[f.admin] == f.first.admins[f.admin]
    && Codes(db, f.admin) == if f.ok then Codes(f.second, f.admin) else {}
  }

  /** What can be seen before an event: a request stores what has not changed since
      its queries; a role is created safely for every cached account; a write from
      outside leaves the cached accounts as they are. */
  predicate Harmless(w: World, e: Event) {
    match e
    case Store(id) => id in w.flights && w.flights[id].Listed? ==> Unchanged(w.flights[id], w.s.db)
    case Handle(op) =>
      op.CreateRole? ==> forall a :: a in w.s.cache ==> SafeFor(w.s.db, op.name, op.codes, op.fails, a)
    case Write(db) => forall a :: a in w.s.cache ==> SameAccount(w.s.db, db, a)
    case _ => true
  }

  lemma TellsStep(w: World, e: Event)
    requires FlightsTell(w) && Fair(w, e)
    ensures FlightsTell(Step(w, e))
  {
    hide Apply, Room, Hit, Answers;
  }

  lemma {:induction false} TellsAlong(now: Time, db: Db, es: seq<Event>, n: nat)
    requires FairRun(Start(now, db), es) && n <= |es|
    ensures FlightsTell(After(Start(now, db), es[..n]))
  {
    hide Fair, Step, FlightTells;
    var w0 := Start(now, db);
    if n > 0 {
      TellsAlong(now, db, es, n - 1);
      NextAfter(w0, es, n - 1);
      hide After;
      assert Fair(After(w0, es[..n - 1]), es[n - 1]);
      TellsStep(After(w0, es[..n - 1]), es[n - 1]);
    }
  }

  lemma OtherAdminRoles(db: Db, id: Id, roleIds: seq<Id>, fails: Faults, a: Id)
    requires a != id
    ensures Codes(WithAdminRoles(db, id, roleIds, fails), a) == Codes(db, a)
  {
    var r := WithAdminRoles(db, id, roleIds, fails);
    forall p ensures Grants(r, a, p) <==> Grants(db, a, p) {
      if Grants(db, a, p) {
        var ar :| ar in db.adminRoles && ar.0 == a && (ar.1, p) in db.rolePerms;
        assert ar in r.adminRoles;
      }
    }
    SameCodes(db, r, a);
  }

  /** A handler other than CreateRole leaves what the kept entries say alone. */
  lemma HandlerKeepsEntries(s: State, op: Op, a: nat)
    requires !op.CreateRole? && a in Apply(s, op).cache && Known(s.db, a)
    ensures var r := Apply(s, op).db;
      Known(r, a) && r.admins[a] == s.db.admins[a] && Codes(r, a) == Codes(s.db, a)
  {
    hide Codes, WithRolePerms, WithoutRole;
    var r := Apply(s, op).db;
    if op.SetAdminRoles? && Touches(s.db, op.id, op.fails) {
      OtherAdminRoles(s.db, op.id, op.roleIds, op.fails, a);
    } else if !op.UpdateRole? && !op.DeleteRole? {
      SameCodes(s.db, r, a);
    }
  }

  lemma EntrySame(db: Db, r: Db, a: nat, e: Entry)
    requires EntryRight(db, a, e)
    ensures EntryRight(r, a, e) <==> Known(r, a) && r.admins[a] == db.admins[a] && Codes(r, a) == Codes(db, a)
  {
    hide Codes;
    ListingTells(e.perms, db, r, a);
  }

  lemma HandleIff(w: World, op: Op)
    requires Coherent(w.s)
    ensures Coherent(Apply(w.s, op)) <==> Harmless(w, Handle(op))
  {
    hide Codes, EntryRight, Known, SafeFor;
    HandlersOnlyDrop(w.s, op);
    forall a | a in w.s.cache ensures EntryRight(w.s.db, a, w.s.cache[a]) && Known(w.s.db, a) {
      RightIsKnown(w.s.db, a, w.s.cache[a]);
    }
    if op.CreateRole? {
      CreatedRows(w.s.db, op.name, op.codes, op.fails);
      hide Created;
      var r := Apply(w.s, op);
      assert r == State(r.db, w.s.cache) && r.db == Created(w.s.db, op.name, op.codes, op.fails) by {
        CreateIsCreated(w.s, op);
      }
      hide Apply;
      forall a | a in w.s.cache
        ensures EntryRight(r.db, a, w.s.cache[a]) <==> Codes(r.db, a) == Codes(w.s.db, a)
      {
        EntrySame(w.s.db, r.db, a, w.s.cache[a]);
        SameAdmins(w.s.db, r.db, a);
      }
      forall a | a in w.s.cache
        ensures Codes(r.db, a) == Codes(w.s.db, a) <==> SafeFor(w.s.db, op.name, op.codes, op.fails, a)
      {
        SafeForIff(w.s.db, op.name, op.codes, op.fails, a);
      }
    } else {
      hide Apply;
      forall a | a in Apply(w.s, op).cache ensures EntryRight(Apply(w.s, op).db, a, Apply(w.s, op).cache[a]) {
        HandlerKeepsEntries(w.s, op, a);
        EntrySame(w.s.db, Apply(w.s, op).db, a, w.s.cache[a]);
      }
    }
  }

  lemma RightIsKnown(db: Db, a: nat, e: Entry)
    requires EntryRight(db, a, e)
    ensures Known(db, a)
  {
  }

  lemma SameAdmins(db: Db, r: Db, a: nat)
    requires r.admins == db.admins
    ensures Known(r, a) == Known(db, a)
  {
  }

  lemma CreateIsCreated(s: State, op: Op)
    requires op.CreateRole?
    ensures Apply(s, op) == State(Created(s.db, op.name, op.codes, op.fails), s.cache)
  {
  }

  /** A store leaves the cache right exactly when its own entry is. */
  lemma StoreRight(w: World, id: nat)
    requires Coherent(w.s) && id in w.flights && w.flights[id].Listed?
    ensures var f := w.flights[id];
      Coherent(Step(w, Store(id)).s) <==>
      Known(w.s.db, f.admin) && f.status == w.s.db.admins[f.admin] && Listing(f.perms, w.s.db, f.admin)
  {
    hide Listing, Known, Room;
    var f := w.flights[id];
    var r := Step(w, Store(id)).s;
    assert r.cache[f.admin] == Entry(f.perms, f.status, f.start + TTL);
    assert forall a :: a in r.cache && a != f.admin ==> a in w.s.cache && r.cache[a] == w.s.cache[a];
  }

  lemma NothingListed(db: Db, a: nat)
    ensures Listing([], db, a) <==> Codes(db, a) == {}
  {
    hide Codes;
    assert (forall c :: c !in Codes(db, a)) <==> Codes(db, a) == {};
  }

  lemma ListedThen(ps: seq<string>, db: Db, r: Db, a: nat)
    requires Listing(ps, db, a)
    ensures Listing(ps, r, a) <==> Codes(r, a) == Codes(db, a)
  {
    hide Codes;
    ListingTells(ps, db, r, a);
  }

  lemma StoreIff(w: World, id: nat)
    requires Coherent(w.s) && FlightsTell(w)
    ensures Coherent(Step(w, Store(id)).s) <==> Harmless(w, Store(id))
  {
    hide Coherent, Listing, Codes, Room;
    if id in w.flights && w.flights[id].Listed? {
      var f := w.flights[id];
      StoreRight(w, id);
      assert FlightTells(f);
      if f.ok {
        ListedThen(f.perms, f.second, w.s.db, f.admin);
      } else {
        NothingListed(w.s.db, f.admin);
      }
    }
  }

  lemma WriteIff(w: World, db: Db)
    requires Coherent(w.s)
    ensures Coherent(State(db, w.s.cache)) <==> Harmless(w, Write(db))
  {
    hide EntryRight, Codes;
    forall a | a in w.s.cache
      ensures EntryRight(db, a, w.s.cache[a]) <==>
              SameAccount(w.s.db, db, a)
    {
      RightIsKnown(w.s.db, a, w.s.cache[a]);
      EntrySame(w.s.db, db, a, w.s.cache[a]);
    }
  }

  /** An event leaves a right cache right if and only if it is harmless. */
  lemma CoherentIff(w: World, e: Event)
    requires Coherent(w.s) && FlightsTell(w)
    ensures Coherent(Step(w, e).s) <==> Harmless(w, e)
  {
    match e
    case Store(id) => StoreIff(w, id);
    case Handle(op) => HandleIff(w, op);
    case Write(db) => WriteIff(w, db);
    case _ =>
      hide EntryRight;
  }

  ghost predicate HarmlessRun(w: World, es: seq<Event>) {
    forall i :: 0 <= i < |es| ==> Harmless(After(w, es[..i]), es[i])
  }

  ghost predicate CoherentRun(w: World, es: seq<Event>) {
    forall i :: 0 <= i <= |es| ==> Coherent(After(w, es[..i]).s)
  }

  /** The cache is right after every event of a run if and only if every event is
      harmless in the world it meets. */
  lemma CoherentRunIff(now: Time, db: Db, es: seq<Event>)
    requires FairRun(Start(now, db), es)
    ensures CoherentRun(Start(now, db), es) <==> HarmlessRun(Start(now, db), es)
  {
    var w0 := Start(now, db);
    hide Harmless;
    forall i | 0 <= i < |es|
      ensures Coherent(After(w0, es[..i]).s) ==>
        (Coherent(After(w0, es[..i + 1]).s) <==> Harmless(After(w0, es[..i]), es[i]))
    {
      NextAfter(w0, es, i);
      TellsAlong(now, db, es, i);
      if Coherent(After(w0, es[..i]).s) {
        CoherentIff(After(w0, es[..i]), es[i]);
      }
    }
    hide Coherent, After;
    assert Coherent(After(w0, es[..0]).s) by {
      assert es[..0] == [];
      StartsCoherent(now, db);
    }
    if CoherentRun(w0, es) {
      forall i | 0 <= i < |es| ensures Harmless(After(w0, es[..i]), es[i]) {
        assert Coherent(After(w0, es[..i]).s) && Coherent(After(w0, es[..i + 1]).s);
      }
    }
    if HarmlessRun(w0, es) {
      AllCoherent(w0, es, |es|);
      forall i | 0 <= i <= |es| ensures Coherent(After(w0, es[..i]).s) {
        AllCoherent(w0, es, i);
      }
    }
  }

  lemma NextAfter(w: World, es: seq<Event>, i: nat)
    requires i < |es|
    ensures After(w, es[..i + 1]) == Step(After(w, es[..i]), es[i])
  {
    assert es[..i + 1][..i] == es[..i];
  }

  lemma StartsCoherent(now: Time, db: Db)
    ensures Coherent(After(Start(now, db), []).s)
  {
  }

  lemma {:induction false} AllCoherent(w: World, es: seq<Event>, n: nat)
    requires n <= |es| && HarmlessRun(w, es) && Coherent(After(w, es[..0]).s)
    requires forall i :: 0 <= i < |es| && Coherent(After(w, es[..i]).s) && Harmless(After(w, es[..i]), es[i]) ==>
               Coherent(After(w, es[..i + 1]).s)
    ensures Coherent(After(w, es[..n]).s)
  {
    hide Coherent, After, Harmless;
    if n > 0 {
      AllCoherent(w, es, n - 1);
    }
  }

  /** A query that fails right before the store leaves the cache right exactly when
      the account has no permissions anyway. */
  lemma FailedQueryIff(w: World, id: nat)
    requires Coherent(w.s) && id in w.flights && w.flights[id].Listed? && w.flights[id].perms == []
    requires var f := w.flights[id]; Known(w.s.db, f.admin) && f.status == w.s.db.admins[f.admin]
    ensures Coherent(Step(w, Store(id)).s) <==> Codes(w.s.db, w.flights[id].admin) == {}
  {
    hide Codes, Listing, Coherent;
    StoreRight(w, id);
    NothingListed(w.s.db, w.flights[id].admin);
  }

  /** A request that read its account before the account was disabled, and stores
      after that, puts back what the handler had dropped. */
  lemma LateStoreBreaks(w: World, id: nat, actor: Id, fails: Faults)
    requires Coherent(w.s) && id in w.flights && w.flights[id].Listed? && w.flights[id].status == Normal
    requires MayDisable(actor, w.flights[id].admin) && Touches(w.s.db, w.flights[id].admin, fails)
    ensures var v := Step(w, Handle(DisableAdmin(actor, w.flights[id].admin, fails)));
      Coherent(v.s) && !Coherent(Step(v, Store(id)).s)
  {
    var op := DisableAdmin(actor, w.flights[id].admin, fails);
    hide Coherent, Listing, Room;
    HandleIff(w, op);
    StoreRight(Step(w, Handle(op)), id);
  }

  /** What the middleware would answer without a cache. */
  function Uncached(db: Db, a: nat, ps: seq<string>): Answer {
    if Known(db, a) && db.admins[a] == Normal then Next(Joined(ps)) else AccountDisabled
  }

  /** Reading what the tables say decides as a query now does. */
  lemma RightDecides(db: Db, a: nat, status: Status, perms: seq<string>, ps: seq<string>, code: string)
    requires Known(db, a) && status == db.admins[a] && Listing(perms, db, a) && Listing(ps, db, a)
    requires forall c :: c in db.perms ==> c != "" && CommaFree(c)
    ensures var answer, plain := Decide(status, perms), Uncached(db, a, ps);
      && (answer.AccountDisabled? <==> plain.AccountDisabled?)
      && (answer.Next? ==>
            && (code in Pieces(answer.header) <==> code in Codes(db, a))
            && (code in Pieces(plain.header) <==> code in Codes(db, a)))
  {
    assert forall c :: c in perms ==> c in Codes(db, a);
    assert forall c :: c in ps ==> c in Codes(db, a);
    hide Codes, Pieces, Joined, CommaFree;
    HasPermissionIff(perms, code);
    HasPermissionIff(ps, code);
  }

  /** After harmless events a cached decision is that of a middleware without a
      cache: the same accounts are turned away, and the header satisfies exactly
      the permission tests that the tables satisfy now. */
  lemma DecidesAsUncached(now: Time, db: Db, es: seq<Event>, a: nat, ps: seq<string>, code: string)
    requires FairRun(Start(now, db), es) && HarmlessRun(Start(now, db), es)
    requires var w := After(Start(now, db), es);
      && Hit(w.s.cache, a, w.now) && Listing(ps, w.s.db, a)
      && forall c :: c in w.s.db.perms ==> c != "" && CommaFree(c)
    ensures var w := After(Start(now, db), es);
      var e := w.s.cache[a];
      var cached, plain := Decide(e.status, e.perms), Uncached(w.s.db, a, ps);
      && (cached.AccountDisabled? <==> plain.AccountDisabled?)
      && (cached.Next? ==>
            && (code in Pieces(cached.header) <==> code in Codes(w.s.db, a))
            && (code in Pieces(plain.header) <==> code in Codes(w.s.db, a)))
  {
    CoherentRunIff(now, db, es);
    assert es[..|es|] == es;
    hide After, HarmlessRun;
    var w := After(Start(now, db), es);
    var e := w.s.cache[a];
    assert EntryRight(w.s.db, a, e);
    hide Uncached, Codes;
    RightDecides(w.s.db, a, e.status, e.perms, ps, code);
  }

  /** A decision taken at a harmless event over a right cache is what the tables say
      at that moment; a refusal comes from a query that failed or found nobody. */
  lemma DecisionCurrent(w: World, e: Event)
    requires Coherent(w.s) && FlightsTell(w) && Harmless(w, e)
    requires |Step(w, e).decisions| > |w.decisions|
    ensures var d := Step(w, e).decisions[|w.decisions|];
      if d.Refused? then e.FindAccount? && !(e.ok && Known(w.s.db, d.admin))
      else
        && Known(w.s.db, d.admin) && d.status == w.s.db.admins[d.admin] && Listing(d.perms, w.s.db, d.admin)
  {
    hide Listing, Codes, Room, Apply;
    if e.Store? {
      StoreIff(w, e.id);
      StoreRight(w, e.id);
      hide Coherent;
    } else if e.Begin? {
      assert EntryRight(w.s.db, e.admin, w.s.cache[e.admin]);
    }
  }

  // ---------------------------------------------------------- a discipline

  /** What can be seen before an event: it does not concern what the account may do. */
  predicate Spares(db: Db, e: Event, a: nat) {
    match e
    case Write(r) => SameAccount(db, r, a)
    case Handle(op) =>
      (match op
       case CreateAdmin(_, _) => true
       case DeleteAdmin(_, id, _) => id != a
       case EnableAdmin(id, _) => id != a
       case DisableAdmin(_, id, _) => id != a
       case SetAdminRoles(id, _, _) => id != a
       case CreateRole(name, codes, fails) => SafeFor(db, name, codes, fails, a)
       case UpdateRole(role, codes, _) => role <= 0 || codes.None? || (a, role) !in db.adminRoles
       case DeleteRole(role, _) => role <= 0 || (a, role) !in db.adminRoles)
    case _ => true
  }

  lemma OtherRolePerms(db: Db, role: Id, codes: seq<string>, fails: Faults, a: nat)
    requires (a, role) !in db.adminRoles
    ensures Codes(WithRolePerms(db, role, codes, fails, 0), a) == Codes(db, a)
  {
    hide Requested, RowsOf;
    var r := WithRolePerms(db, role, codes, fails, 0);
    var perms := Requested(db, codes, fails, 1, |codes|);
    forall p ensures Grants(r, a, p) <==> Grants(db, a, p) {
      forall ar | ar in db.adminRoles && ar.0 == a ensures (ar.1, p) in r.rolePerms <==> (ar.1, p) in db.rolePerms {
        assert ar == (a, ar.1);
        RowsOfHas(role, perms, (ar.1, p));
      }
    }
    SameCodes(db, r, a);
  }

  lemma OtherRoleGone(db: Db, role: Id, fails: Faults, a: nat)
    requires (a, role) !in db.adminRoles
    ensures Codes(WithoutRole(db, role, fails), a) == Codes(db, a)
  {
    var r := WithoutRole(db, role, fails);
    forall p ensures Grants(r, a, p) <==> Grants(db, a, p) {
      forall ar | ar in db.adminRoles && ar.0 == a
        ensures ar in r.adminRoles && ((ar.1, p) in r.rolePerms <==> (ar.1, p) in db.rolePerms)
      {
        assert ar == (a, ar.1);
      }
    }
    SameCodes(db, r, a);
  }

  lemma SparedByHandler(s: State, op: Op, a: nat)
    requires Known(s.db, a) && Spares(s.db, Handle(op), a)
    ensures SameAccount(s.db, Apply(s, op).db, a)
  {
    hide Codes, WithRolePerms, WithoutRole, WithAdminRoles, SafeFor, Created;
    var r := Apply(s, op).db;
    match op
    case CreateRole(name, codes, fails) =>
      SafeForIff(s.db, name, codes, fails, a);
      CreatedRows(s.db, name, codes, fails);
      CreateIsCreated(s, op);
    case UpdateRole(role, codes, fails) =>
      if role > 0 && codes.Some? {
        OtherRolePerms(s.db, role, codes.value, fails, a);
        RolePermsOnly(s.db, role, codes.value, fails);
      }
    case DeleteRole(role, fails) =>
      if role > 0 {
        OtherRoleGone(s.db, role, fails, a);
        WithoutRoleOnly(s.db, role, fails);
      }
    case SetAdminRoles(id, roleIds, fails) =>
      OtherAdminRoles(s.db, id, roleIds, fails, a);
      AdminRolesOnly(s.db, id, roleIds, fails);
    case _ => SameCodes(s.db, r, a);
  }

  lemma RolePermsOnly(db: Db, role: Id, codes: seq<string>, fails: Faults)
    ensures WithRolePerms(db, role, codes, fails, 0).admins == db.admins
  {
  }

  lemma WithoutRoleOnly(db: Db, role: Id, fails: Faults)
    ensures WithoutRole(db, role, fails).admins == db.admins
  {
  }

  lemma AdminRolesOnly(db: Db, id: Id, roleIds: seq<Id>, fails: Faults)
    ensures WithAdminRoles(db, id, roleIds, fails).admins == db.admins
  {
  }

  /** The tables still say what the request has found out so far. */
  predicate UpToDate(f: Flight, db: Db) {
    && (f.Found? ==> f.admin in f.first.admins && Known(db, f.admin) && db.admins[f.admin] == f.first.admins[f.admin])
    && (f.Listed? ==> f.ok && Unchanged(f, db))
  }

  predicate AllUpToDate(w: World) {
    forall id :: id in w.flights ==> UpToDate(w.flights[id], w.s.db)
  }

  /** The discipline, to be seen before each event: permission queries work; nothing
      concerns an account whose request is between its account query and its store;
      no role creation and no write from outside concerns a cached account. */
  predicate Orderly(w: World, e: Event) {
    && (e.ListPerms? ==> e.ok)
    && (forall id :: id in w.flights && !w.flights[id].Missed? ==> Spares(w.s.db, e, w.flights[id].admin))
    && (e.Write? || (e.Handle? && e.op.CreateRole?) ==> forall a :: a in w.s.cache ==> Spares(w.s.db, e, a))
  }

  lemma OrderlyIsHarmless(w: World, e: Event)
    requires AllUpToDate(w) && Orderly(w, e)
    ensures Harmless(w, e)
  {
    hide SafeFor, SameAccount, Unchanged;
  }

  lemma StillUpToDate(f: Flight, db: Db, r: Db)
    requires UpToDate(f, db) && (!f.Missed? ==> SameAccount(db, r, f.admin))
    ensures UpToDate(f, r)
  {
    hide Codes;
  }

  lemma SparedByEvent(w: World, e: Event, a: nat)
    requires Known(w.s.db, a) && Spares(w.s.db, e, a)
    ensures SameAccount(w.s.db, Step(w, e).s.db, a)
  {
    hide Codes, Apply, Room, Hit;
    if e.Handle? {
      SparedByHandler(w.s, e.op, a);
    }
  }

  lemma UpToDateStep(w: World, e: Event)
    requires AllUpToDate(w) && Orderly(w, e)
    ensures AllUpToDate(Step(w, e))
  {
    hide Codes, Apply, Room, Hit, Spares;
    var r := Step(w, e);
    forall id | id in r.flights ensures UpToDate(r.flights[id], r.s.db) {
      if id in w.flights && r.flights[id] == w.flights[id] {
        if !w.flights[id].Missed? {
          SparedByEvent(w, e, w.flights[id].admin);
        }
        StillUpToDate(w.flights[id], w.s.db, r.s.db);
      }
    }
  }

  predicate OrderlyRun(w: World, es: seq<Event>) {
    forall i :: 0 <= i < |es| ==> Orderly(After(w, es[..i]), es[i])
  }

  lemma {:induction false} UpToDateAlong(now: Time, db: Db, es: seq<Event>, n: nat)
    requires OrderlyRun(Start(now, db), es) && n <= |es|
    ensures AllUpToDate(After(Start(now, db), es[..n]))
  {
    hide Orderly, Step, UpToDate;
    var w0 := Start(now, db);
    if n > 0 {
      UpToDateAlong(now, db, es, n - 1);
      NextAfter(w0, es, n - 1);
      hide After;
      assert Orderly(After(w0, es[..n - 1]), es[n - 1]);
      UpToDateStep(After(w0, es[..n - 1]), es[n - 1]);
    }
  }

  /** In an orderly run every event is harmless, so every cached entry is right after
      each of them. */
  lemma OrderlyCoherent(now: Time, db: Db, es: seq<Event>)
    requires FairRun(Start(now, db), es) && OrderlyRun(Start(now, db), es)
    ensures HarmlessRun(Start(now, db), es) && CoherentRun(Start(now, db), es)
  {
    hide Orderly, Harmless, After, CoherentRun, FairRun, AllUpToDate;
    var w0 := Start(now, db);
    forall i | 0 <= i < |es| ensures Harmless(After(w0, es[..i]), es[i]) {
      UpToDateAlong(now, db, es, i);
      assert Orderly(After(w0, es[..i]), es[i]);
      OrderlyIsHarmless(After(w0, es[..i]), es[i]);
    }
    CoherentRunIff(now, db, es);
  }
}
