/** The admin server as it is meant to be used: requests one at a time between the
    handlers, role names used once, only role ids that have been given out, nobody
    else at the tables. Then the permission cache never shows, whichever statements
    of the handlers fail. */
module RbacService {
  import opened Wrappers
  import opened PermissionHeader
  import opened RbacCache
  import opened RbacRoles
  import opened RbacRuns
  import opened RbacCoherence

  // -------------------------------------------------------- ids given out

  /** Every role and every assignment has an id that was given out. */
  predicate Issued(db: Db) {
    Numbered(db) && forall ar :: ar in db.adminRoles ==> ar.1 < db.nextRole
  }

  /** What can be seen before a handler runs: a new role's name is not in use, unless
      the handler will refuse it, and assigned role ids have been given out. */
  predicate Allowed(db: Db, op: Op) {
    match op
    case CreateRole(name, _, _) => name == "" || CodeTaken(db, name) || forall r :: r in db.roles ==> r.name != name
    case SetAdminRoles(_, roleIds, _) => forall k :: 0 <= k < |roleIds| ==> roleIds[k] < db.nextRole
    case _ => true
  }

  lemma CreateIssued(db: Db, name: string, codes: Option<seq<string>>, fails: Faults)
    requires Issued(db) && Allowed(db, CreateRole(name, codes, fails))
    ensures Issued(Created(db, name, codes, fails))
  {
    hide Requested, TargetGrants;
    if name != "" && !CodeTaken(db, name) {
      NewRoleRows(db, NewRole(name, codes, fails));
    }
  }

  lemma IssuedStays(s: State, op: Op)
    requires Issued(s.db) && Allowed(s.db, op)
    ensures Issued(Apply(s, op).db)
  {
    hide Created, WithRolePerms;
    match op
    case CreateRole(name, codes, fails) =>
      CreateIssued(s.db, name, codes, fails);
      CreateIsCreated(s, op);
    case UpdateRole(id, codes, fails) =>
      if id > 0 && codes.Some? {
        RolePermsAlone(s.db, id, codes.value, fails);
      }
    case _ =>
  }

  lemma RolePermsAlone(db: Db, role: Id, codes: seq<string>, fails: Faults)
    ensures var r := WithRolePerms(db, role, codes, fails, 0); r == db.(rolePerms := r.rolePerms)
  {
  }

  /** A role whose id nobody holds yet concerns no account. */
  lemma AllowedCreateSafe(db: Db, name: string, codes: Option<seq<string>>, fails: Faults, a: nat)
    requires Issued(db) && Allowed(db, CreateRole(name, codes, fails))
    ensures SafeFor(db, name, codes, fails, a)
  {
    if name != "" && !CodeTaken(db, name) {
      FirstNamedNew(db.roles, name, db.nextRole);
      assert (a, db.nextRole) !in db.adminRoles;
    }
  }

  // ----------------------------------------------------- one thing at a time

  /** No handler runs while a request is between its account query and its store. */
  predicate Serial(w: World, e: Event) {
    && !e.Write? && (e.ListPerms? ==> e.ok)
    && (e.Handle? ==> Allowed(w.s.db, e.op) && forall id :: id in w.flights ==> w.flights[id].Missed?)
  }

  lemma SerialIsOrderly(w: World, e: Event)
    requires Issued(w.s.db) && Serial(w, e)
    ensures Orderly(w, e) && Issued(Step(w, e).s.db)
  {
    hide Issued, SafeFor, Apply, Room, Hit, Known, SameAccount, Allowed;
    if e.Handle? {
      IssuedStays(w.s, e.op);
      if e.op.CreateRole? {
        forall a: nat ensures Spares(w.s.db, e, a) {
          AllowedCreateSafe(w.s.db, e.op.name, e.op.codes, e.op.fails, a);
        }
      }
    }
  }

  predicate SerialRun(w: World, es: seq<Event>) {
    forall i :: 0 <= i < |es| ==> Serial(After(w, es[..i]), es[i])
  }

  lemma {:induction false} IssuedAlong(w: World, es: seq<Event>, n: nat)
    requires Issued(w.s.db) && SerialRun(w, es) && n <= |es|
    ensures Issued(After(w, es[..n]).s.db)
  {
    hide Issued, Serial, Step;
    if n == 0 {
      AfterNone(w);
    } else {
      IssuedAlong(w, es, n - 1);
      NextAfter(w, es, n - 1);
      hide After;
      assert Serial(After(w, es[..n - 1]), es[n - 1]);
      SerialIsOrderly(After(w, es[..n - 1]), es[n - 1]);
    }
  }

  /** From tables in which only given-out ids occur, a serial run is orderly. */
  lemma SerialRunOrderly(w: World, es: seq<Event>)
    requires Issued(w.s.db) && SerialRun(w, es)
    ensures OrderlyRun(w, es)
  {
    hide Issued, Serial, Orderly, After;
    forall i | 0 <= i < |es| ensures Orderly(After(w, es[..i]), es[i]) {
      IssuedAlong(w, es, i);
      assert Serial(After(w, es[..i]), es[i]);
      SerialIsOrderly(After(w, es[..i]), es[i]);
    }
  }

  // --------------------------------------------------- requests and handlers

  /** A request from its clock reading to its answer, a handler, entries dropped, or
      time passing. The account query may fail; the permission query works. */
  datatype Block =
    | Request(id: nat, admin: nat, found: bool, perms: seq<string>)
    | Handler(op: Op)
    | Forget(admins: set<nat>)
    | Wait(delta: nat)

  function Events(b: Block): seq<Event> {
    match b
    case Request(id, a, found, ps) => [Begin(id, a), FindAccount(id, found), ListPerms(id, true, ps), Store(id)]
    case Handler(op) => [Handle(op)]
    case Forget(admins) => [Drop(admins)]
    case Wait(delta) => [Tick(delta)]
  }

  function AllEvents(bs: seq<Block>): seq<Event> {
    if bs == [] then [] else AllEvents(bs[..|bs| - 1]) + Events(bs[|bs| - 1])
  }

  /** Each handler is allowed by the tables it meets. */
  predicate AllAllowed(w: World, bs: seq<Block>) {
    forall i :: 0 <= i < |bs| && bs[i].Handler? ==> Allowed(After(w, AllEvents(bs[..i])).s.db, bs[i].op)
  }

  lemma SerialNext(w: World, es: seq<Event>, e: Event)
    requires SerialRun(w, es) && Serial(After(w, es), e)
    ensures SerialRun(w, es + [e])
  {
    hide Serial, After;
    var all := es + [e];
    forall i | 0 <= i < |all| ensures Serial(After(w, all[..i]), all[i]) {
      assert all[..i] == if i < |es| then es[..i] else es;
    }
  }

  /** A whole request begun with none under way leaves none under way. */
  lemma RequestSerial(w: World, es: seq<Event>, b: Block)
    requires SerialRun(w, es) && After(w, es).flights == map[] && b.Request?
    ensures SerialRun(w, es + Events(b)) && After(w, es + Events(b)).flights == map[]
  {
    hide SerialRun, After, Room, Hit, Known;
    var e1, e2, e3, e4 := Begin(b.id, b.admin), FindAccount(b.id, b.found), ListPerms(b.id, true, b.perms), Store(b.id);
    SerialNext(w, es, e1);
    AfterNext(w, es, e1);
    SerialNext(w, es + [e1], e2);
    AfterNext(w, es + [e1], e2);
    SerialNext(w, es + [e1] + [e2], e3);
    AfterNext(w, es + [e1] + [e2], e3);
    SerialNext(w, es + [e1] + [e2] + [e3], e4);
    AfterNext(w, es + [e1] + [e2] + [e3], e4);
    assert es + [e1] + [e2] + [e3] + [e4] == es + Events(b);
    NoneUnderWay(After(w, es), b);
  }

  lemma NoneUnderWay(w: World, b: Block)
    requires w.flights == map[] && b.Request?
    ensures Step(Step(Step(Step(w, Begin(b.id, b.admin)), FindAccount(b.id, b.found)), ListPerms(b.id, true, b.perms)),
                 Store(b.id)).flights == map[]
  {
    hide Room, Hit, Known;
  }

  lemma HandlerSerial(w: World, es: seq<Event>, b: Block)
    requires SerialRun(w, es) && After(w, es).flights == map[] && !b.Request?
    requires b.Handler? ==> Allowed(After(w, es).s.db, b.op)
    ensures SerialRun(w, es + Events(b)) && After(w, es + Events(b)).flights == map[]
  {
    hide SerialRun, After, Step, Allowed;
    var e := Events(b)[0];
    assert Events(b) == [e];
    SerialNext(w, es, e);
    AfterNext(w, es, e);
    FlightsStay(After(w, es), e);
  }

  lemma AllowedFront(w: World, bs: seq<Block>)
    requires AllAllowed(w, bs) && bs != []
    ensures AllAllowed(w, bs[..|bs| - 1])
    ensures var n := |bs| - 1; bs[n].Handler? ==> Allowed(After(w, AllEvents(bs[..n])).s.db, bs[n].op)
  {
    hide Allowed, After, AllEvents;
    var n := |bs| - 1;
    forall i | 0 <= i < n && bs[..n][i].Handler? ensures Allowed(After(w, AllEvents(bs[..n][..i])).s.db, bs[..n][i].op) {
      assert bs[..n][..i] == bs[..i];
    }
  }

  lemma {:induction false} BlocksSerial(w: World, bs: seq<Block>)
    requires w.flights == map[] && AllAllowed(w, bs)
    ensures SerialRun(w, AllEvents(bs)) && After(w, AllEvents(bs)).flights == map[]
  {
    hide After, Allowed, AllAllowed, Serial;
    if bs == [] {
      AfterNone(w);
    } else {
      hide SerialRun, Events;
      var n := |bs| - 1;
      AllowedFront(w, bs);
      BlocksSerial(w, bs[..n]);
      if bs[n].Request? {
        RequestSerial(w, AllEvents(bs[..n]), bs[n]);
      } else {
        HandlerSerial(w, AllEvents(bs[..n]), bs[n]);
      }
    }
  }

  lemma FlightsStay(w: World, e: Event)
    requires e.Handle? || e.Drop? || e.Tick?
    ensures Step(w, e).flights == w.flights
  {
    hide Apply;
  }

  // ----------------------------------------------------------- main results

  /** Used in that way, with any failing statements in the handlers, the cache equals
      the tables in every entry after every event. */
  lemma CacheAlwaysRight(now: Time, db: Db, bs: seq<Block>)
    requires Issued(db) && AllAllowed(Start(now, db), bs) && FairRun(Start(now, db), AllEvents(bs))
    ensures HarmlessRun(Start(now, db), AllEvents(bs)) && CoherentRun(Start(now, db), AllEvents(bs))
  {
    hide Issued, AllAllowed, FairRun, SerialRun, OrderlyRun, HarmlessRun, CoherentRun, AllEvents;
    BlocksSerial(Start(now, db), bs);
    SerialRunOrderly(Start(now, db), AllEvents(bs));
    OrderlyCoherent(now, db, AllEvents(bs));
  }

  lemma {:induction false} PermsStay(w: World, es: seq<Event>, n: nat)
    requires SerialRun(w, es) && n <= |es|
    ensures After(w, es[..n]).s.db.perms == w.s.db.perms
  {
    hide Serial, Step;
    if n == 0 {
      AfterNone(w);
    } else {
      PermsStay(w, es, n - 1);
      NextAfter(w, es, n - 1);
      hide After;
      assert Serial(After(w, es[..n - 1]), es[n - 1]);
      PermsStep(After(w, es[..n - 1]), es[n - 1]);
    }
  }

  lemma PermsStep(w: World, e: Event)
    requires Serial(w, e)
    ensures Step(w, e).s.db.perms == w.s.db.perms
  {
    hide Room, Hit, Known, Allowed, Requested, RowsOf;
    if e.Handle? && e.op.CreateRole? {
      CreatedRows(w.s.db, e.op.name, e.op.codes, e.op.fails);
      CreateIsCreated(w.s, e.op);
    }
  }

  /** And every decision of the middleware, from the cache or not, is the one of a
      middleware without a cache asking at that moment, down to each permission test
      on the header; a refusal for want of an account comes from a query that failed
      or found nobody. */
  lemma EveryDecisionUncached(now: Time, db: Db, bs: seq<Block>, n: nat, ps: seq<string>, code: string)
    requires Issued(db) && AllAllowed(Start(now, db), bs) && FairRun(Start(now, db), AllEvents(bs))
    requires forall c :: c in db.perms ==> c != "" && CommaFree(c)
    requires n < |AllEvents(bs)|
    requires var w := After(Start(now, db), AllEvents(bs)[..n]);
      var r := Step(w, AllEvents(bs)[n]);
      |r.decisions| > |w.decisions| && Listing(ps, w.s.db, r.decisions[|w.decisions|].admin)
    ensures var e := AllEvents(bs)[n];
      var w := After(Start(now, db), AllEvents(bs)[..n]);
      var d := Step(w, e).decisions[|w.decisions|];
      if d.Refused? then e.FindAccount? && !(e.ok && Known(w.s.db, d.admin))
      else
        var answer, plain := Decide(d.status, d.perms), Uncached(w.s.db, d.admin, ps);
        && (answer.AccountDisabled? <==> plain.AccountDisabled?)
        && (answer.Next? ==>
              && (code in Pieces(answer.header) <==> code in Codes(w.s.db, d.admin))
              && (code in Pieces(plain.header) <==> code in Codes(w.s.db, d.admin)))
  {
    var w0, es := Start(now, db), AllEvents(bs);
    var w := After(w0, es[..n]);
    CacheAlwaysRight(now, db, bs);
    BlocksSerial(w0, bs);
    assert Coherent(w.s) && Harmless(w, es[n]);
    hide *;
    TellsAlong(now, db, es, n);
    PermsStay(w0, es, n);
    DecisionCurrent(w, es[n]);
    var d := Step(w, es[n]).decisions[|w.decisions|];
    if d.Decided? {
      RightDecides(w.s.db, d.admin, d.status, d.perms, ps, code);
    }
  }
}
