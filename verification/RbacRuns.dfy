/** Requests, handlers and other processes interleaved over the permission cache.
    A request reads the clock, looks into the cache, and on a miss makes its two
    queries and stores the entry; anything may happen between these steps. */
module RbacRuns {
  import opened Collections
  import opened Wrappers
  import opened PermissionHeader
  import opened RbacCache
  import opened RbacRoles

  /** A request that missed the cache at its clock reading `start`. What it has
      read is `status` and `perms`; `first` and `second` record the tables as they
      were at its two queries, and `ok` whether the second one worked. */
  datatype Flight =
    | Missed(admin: nat, start: Time)
    | Found(admin: nat, start: Time, status: Status, first: Db)
    | Listed(admin: nat, start: Time, status: Status, first: Db, perms: seq<string>, second: Db, ok: bool)

  datatype Decision =
    | Refused(admin: nat, at: Time)
    | Decided(admin: nat, at: Time, status: Status, perms: seq<string>)

  datatype World = World(now: Time, s: State, flights: map<nat, Flight>, decisions: seq<Decision>)

  /** `ok` tells whether the query works. A handler is one step here; Write and
      Drop are what other processes, and halves of handlers, may do at any moment. */
  datatype Event =
    | Begin(id: nat, admin: nat)
    | FindAccount(id: nat, ok: bool)
    | ListPerms(id: nat, ok: bool, perms: seq<string>)
    | Store(id: nat)
    | Handle(op: Op)
    | Write(db: Db)
    | Drop(admins: set<nat>)
    | Tick(delta: nat)

  function Start(now: Time, db: Db): World {
    World(now, State(db, map[]), map[], [])
  }

  function Record(w: World, d: Decision): World {
    w.(decisions := w.decisions + [d])
  }

  function Step(w: World, e: Event): World {
    match e
    case Begin(id, a) =>
      if id in w.flights then w
      else if Hit(w.s.cache, a, w.now) then
        Record(w, Decided(a, w.now, w.s.cache[a].status, w.s.cache[a].perms))
      else w.(flights := w.flights[id := Missed(a, w.now)])
    case FindAccount(id, ok) =>
      if id !in w.flights || !w.flights[id].Missed? then w
      else
        var f := w.flights[id];
        if ok && Known(w.s.db, f.admin) then
          w.(flights := w.flights[id := Found(f.admin, f.start, w.s.db.admins[f.admin], w.s.db)])
        else Record(w.(flights := w.flights - {id}), Refused(f.admin, f.start))
    case ListPerms(id, ok, ps) =>
      if id !in w.flights || !w.flights[id].Found? then w
      else
        var f := w.flights[id];
        w.(flights := w.flights[id := Listed(f.admin, f.start, f.status, f.first, ps, w.s.db, ok)])
    case Store(id) =>
      if id !in w.flights || !w.flights[id].Listed? then w
      else
        var f := w.flights[id];
        var cache := Room(w.s.cache, f.start)[f.admin := Entry(f.perms, f.status, f.start + TTL)];
        Record(w.(flights := w.flights - {id}, s := State(w.s.db, cache)), Decided(f.admin, f.start, f.status, f.perms))
    case Handle(op) => w.(s := Apply(w.s, op))
    case Write(db) => w.(s := State(db, w.s.cache))
    case Drop(admins) => w.(s := State(w.s.db, w.s.cache - admins))
    case Tick(delta) => w.(now := w.now + delta)
  }

  /** The world after some events. */
  function After(w: World, es: seq<Event>): World {
    if es == [] then w else Step(After(w, es[..|es| - 1]), es[|es| - 1])
  }

  lemma AfterNone(w: World)
    ensures After(w, []) == w
  {
  }

  lemma AfterNext(w: World, es: seq<Event>, e: Event)
    ensures After(w, es + [e]) == Step(After(w, es), e)
  {
    assert (es + [e])[..|es|] == es;
  }

  /** The permission query answers by the tables of its moment. */
  ghost predicate Fair(w: World, e: Event) {
    e.ListPerms? && e.id in w.flights ==> Answers(e.perms, w.s.db, w.flights[e.id].admin, e.ok)
  }

  ghost predicate FairRun(w: World, es: seq<Event>) {
    forall i :: 0 <= i < |es| ==> Fair(After(w, es[..i]), es[i])
  }

  lemma Front(w: World, es: seq<Event>)
    requires es != []
    ensures var n := |es| - 1;
      && After(w, es) == Step(After(w, es[..n]), es[n])
      && forall i :: 0 <= i <= n ==> es[..n][..i] == es[..i]
  {
  }

  lemma FairFront(w: World, es: seq<Event>)
    requires FairRun(w, es) && es != []
    ensures FairRun(w, es[..|es| - 1]) && Fair(After(w, es[..|es| - 1]), es[|es| - 1])
  {
    hide Fair;
    var n := |es| - 1;
    Front(w, es);
    forall i | 0 <= i < n ensures Fair(After(w, es[..n][..i]), es[..n][i]) {
      assert Fair(After(w, es[..i]), es[i]);
    }
    hide After;
    assert Fair(After(w, es[..n]), es[n]);
  }

  // ----------------------------------------------- never older than the TTL

  /** Event i is an account query that found this status, no earlier than `from`. */
  ghost predicate ReadsStatus(w0: World, es: seq<Event>, i: nat, a: nat, status: Status, from: Time)
    requires i < |es|
  {
    var w := After(w0, es[..i]);
    es[i].FindAccount? && es[i].ok && w.now >= from && Known(w.s.db, a) && w.s.db.admins[a] == status
  }

  /** Event i is a permission query that gave this list, no earlier than `from`. */
  ghost predicate ReadsPerms(w0: World, es: seq<Event>, i: nat, a: nat, perms: seq<string>, from: Time)
    requires i < |es|
  {
    var w := After(w0, es[..i]);
    es[i].ListPerms? && es[i].perms == perms && w.now >= from && Answers(perms, w.s.db, a, es[i].ok)
  }

  /** Event i is an account query that fails or finds nobody. */
  ghost predicate ReadsNobody(w0: World, es: seq<Event>, i: nat, a: nat, from: Time)
    requires i < |es|
  {
    var w := After(w0, es[..i]);
    es[i].FindAccount? && w.now >= from && !(es[i].ok && Known(w.s.db, a))
  }

  ghost predicate NobodyRead(w0: World, es: seq<Event>, a: nat, from: Time) {
    exists i: nat :: i < |es| && ReadsNobody(w0, es, i, a, from)
  }

  ghost predicate StatusRead(w0: World, es: seq<Event>, a: nat, status: Status, from: Time) {
    exists i: nat :: i < |es| && ReadsStatus(w0, es, i, a, status, from)
  }

  ghost predicate PermsRead(w0: World, es: seq<Event>, a: nat, perms: seq<string>, from: Time) {
    exists i: nat :: i < |es| && ReadsPerms(w0, es, i, a, perms, from)
  }

  ghost predicate FlightRead(w0: World, es: seq<Event>, f: Flight) {
    && (!f.Missed? ==> StatusRead(w0, es, f.admin, f.status, f.start))
    && (f.Listed? ==> PermsRead(w0, es, f.admin, f.perms, f.start))
  }

  ghost predicate EntryRead(w0: World, es: seq<Event>, a: nat, e: Entry) {
    StatusRead(w0, es, a, e.status, e.expires - TTL) && PermsRead(w0, es, a, e.perms, e.expires - TTL)
  }

  /** Both parts of a decision were read later than 30 seconds before the clock
      reading it was made by. */
  ghost predicate Recent(w0: World, es: seq<Event>, d: Decision) {
    if d.Refused? then NobodyRead(w0, es, d.admin, d.at)
    else
      exists from :: from > d.at - TTL && StatusRead(w0, es, d.admin, d.status, from)
                     && PermsRead(w0, es, d.admin, d.perms, from)
  }

  ghost predicate AllRead(w0: World, es: seq<Event>) {
    var w := After(w0, es);
    && (forall id :: id in w.flights ==> w.flights[id].start <= w.now && FlightRead(w0, es, w.flights[id]))
    && (forall a :: a in w.s.cache ==> EntryRead(w0, es, a, w.s.cache[a]))
    && (forall k :: 0 <= k < |w.decisions| ==> Recent(w0, es, w.decisions[k]))
  }

  lemma StatusReadOn(w0: World, es: seq<Event>, e: Event, a: nat, status: Status, from: Time)
    requires StatusRead(w0, es, a, status, from)
    ensures StatusRead(w0, es + [e], a, status, from)
  {
    hide After;
    var i: nat :| i < |es| && ReadsStatus(w0, es, i, a, status, from);
    assert (es + [e])[..i] == es[..i];
    assert ReadsStatus(w0, es + [e], i, a, status, from);
  }

  lemma PermsReadOn(w0: World, es: seq<Event>, e: Event, a: nat, perms: seq<string>, from: Time)
    requires PermsRead(w0, es, a, perms, from)
    ensures PermsRead(w0, es + [e], a, perms, from)
  {
    hide After, Answers;
    var i: nat :| i < |es| && ReadsPerms(w0, es, i, a, perms, from);
    assert (es + [e])[..i] == es[..i];
    assert ReadsPerms(w0, es + [e], i, a, perms, from);
  }

  lemma FlightReadOn(w0: World, es: seq<Event>, e: Event, f: Flight)
    requires FlightRead(w0, es, f)
    ensures FlightRead(w0, es + [e], f)
  {
    hide StatusRead, PermsRead;
    if !f.Missed? {
      StatusReadOn(w0, es, e, f.admin, f.status, f.start);
    }
    if f.Listed? {
      PermsReadOn(w0, es, e, f.admin, f.perms, f.start);
    }
  }

  lemma EntryReadOn(w0: World, es: seq<Event>, e: Event, a: nat, x: Entry)
    requires EntryRead(w0, es, a, x)
    ensures EntryRead(w0, es + [e], a, x)
  {
    hide StatusRead, PermsRead;
    StatusReadOn(w0, es, e, a, x.status, x.expires - TTL);
    PermsReadOn(w0, es, e, a, x.perms, x.expires - TTL);
  }

  lemma RecentOn(w0: World, es: seq<Event>, e: Event, d: Decision)
    requires Recent(w0, es, d)
    ensures Recent(w0, es + [e], d)
  {
    hide StatusRead, PermsRead;
    if d.Decided? {
      var from :| from > d.at - TTL && StatusRead(w0, es, d.admin, d.status, from) && PermsRead(w0, es, d.admin, d.perms, from);
      StatusReadOn(w0, es, e, d.admin, d.status, from);
      PermsReadOn(w0, es, e, d.admin, d.perms, from);
    } else {
      NobodyReadOn(w0, es, e, d.admin, d.at);
    }
  }

  lemma NobodyReadOn(w0: World, es: seq<Event>, e: Event, a: nat, from: Time)
    requires NobodyRead(w0, es, a, from)
    ensures NobodyRead(w0, es + [e], a, from)
  {
    hide After;
    var i: nat :| i < |es| && ReadsNobody(w0, es, i, a, from);
    assert (es + [e])[..i] == es[..i];
    assert ReadsNobody(w0, es + [e], i, a, from);
  }

  lemma NobodyNow(w0: World, es: seq<Event>, id: nat, ok: bool)
    requires var w := After(w0, es); id in w.flights && w.flights[id].start <= w.now
    requires var w := After(w0, es); !(ok && Known(w.s.db, w.flights[id].admin))
    ensures var f := After(w0, es).flights[id];
      NobodyRead(w0, es + [FindAccount(id, ok)], f.admin, f.start)
  {
    var e := FindAccount(id, ok);
    var f := After(w0, es).flights[id];
    assert (es + [e])[..|es|] == es && (es + [e])[|es|] == e;
    hide After;
    assert ReadsNobody(w0, es + [e], |es|, f.admin, f.start);
  }

  lemma ReadNow(w0: World, es: seq<Event>, e: Event, id: nat)
    requires var w := After(w0, es); id in w.flights && w.flights[id].start <= w.now && Fair(w, e)
    requires FlightRead(w0, es, After(w0, es).flights[id])
    requires (e.FindAccount? || e.ListPerms?) && e.id == id
    ensures var r := Step(After(w0, es), e);
      id in r.flights ==> FlightRead(w0, es + [e], r.flights[id])
  {
    var w := After(w0, es);
    var f := w.flights[id];
    FlightReadOn(w0, es, e, f);
    assert (es + [e])[..|es|] == es && (es + [e])[|es|] == e;
    hide After, Answers;
    if e.FindAccount? && f.Missed? && e.ok && Known(w.s.db, f.admin) {
      assert ReadsStatus(w0, es + [e], |es|, f.admin, w.s.db.admins[f.admin], f.start);
    }
    if e.ListPerms? && f.Found? {
      assert ReadsPerms(w0, es + [e], |es|, f.admin, e.perms, f.start);
    }
  }

  lemma HandlersOnlyDrop(s: State, op: Op)
    ensures var r := Apply(s, op).cache; forall a :: a in r ==> a in s.cache && r[a] == s.cache[a]
  {
    hide WithAdminRoles, WithNewRole, WithRolePerms, WithoutRole, WithStatus;
  }

  lemma FlightsStep(w0: World, es: seq<Event>, e: Event)
    requires AllRead(w0, es) && Fair(After(w0, es), e)
    ensures var w := Step(After(w0, es), e);
      forall id :: id in w.flights ==> w.flights[id].start <= w.now && FlightRead(w0, es + [e], w.flights[id])
  {
    hide After, StatusRead, PermsRead, Fair, EntryRead, Recent, Room, Apply, Hit;
    var w := Step(After(w0, es), e);
    forall id | id in w.flights ensures w.flights[id].start <= w.now && FlightRead(w0, es + [e], w.flights[id]) {
      var v := After(w0, es);
      if id in v.flights {
        FlightReadOn(w0, es, e, v.flights[id]);
        if (e.FindAccount? || e.ListPerms?) && e.id == id {
          ReadNow(w0, es, e, id);
        }
      }
    }
  }

  lemma CacheStep(w0: World, es: seq<Event>, e: Event)
    requires AllRead(w0, es)
    ensures var w := Step(After(w0, es), e);
      forall a :: a in w.s.cache ==> EntryRead(w0, es + [e], a, w.s.cache[a])
  {
    hide After, Apply, Room, StatusRead, PermsRead, Recent, Known;
    var v := After(w0, es);
    var w := Step(v, e);
    forall a | a in w.s.cache ensures EntryRead(w0, es + [e], a, w.s.cache[a]) {
      NewEntry(v, e, a);
      if a in v.s.cache && w.s.cache[a] == v.s.cache[a] {
        EntryReadOn(w0, es, e, a, v.s.cache[a]);
      } else {
        FlightReadOn(w0, es, e, v.flights[e.id]);
      }
    }
  }

  /** Entries only enter the cache through a request that missed it. */
  lemma NewEntry(w: World, e: Event, a: nat)
    requires a in Step(w, e).s.cache
    ensures var x := Step(w, e).s.cache[a];
      || (a in w.s.cache && x == w.s.cache[a])
      || (&& e.Store? && e.id in w.flights && w.flights[e.id].Listed? && w.flights[e.id].admin == a
          && var f := w.flights[e.id]; x == Entry(f.perms, f.status, f.start + TTL))
  {
    hide Apply, Known, Hit;
    if e.Handle? {
      HandlersOnlyDrop(w.s, e.op);
    }
  }

  lemma DecisionsStep(w0: World, es: seq<Event>, e: Event)
    requires AllRead(w0, es)
    ensures var w := Step(After(w0, es), e);
      forall k :: 0 <= k < |w.decisions| ==> Recent(w0, es + [e], w.decisions[k])
  {
    var v := After(w0, es);
    var w := Step(v, e);
    hide After, Apply, Room, StatusRead, PermsRead, NobodyRead;
    forall k | 0 <= k < |w.decisions| ensures Recent(w0, es + [e], w.decisions[k]) {
      if k < |v.decisions| {
        RecentOn(w0, es, e, v.decisions[k]);
      } else if e.Begin? {
        EntryReadOn(w0, es, e, e.admin, v.s.cache[e.admin]);
      } else if e.Store? {
        FlightReadOn(w0, es, e, v.flights[e.id]);
      } else {
        NobodyNow(w0, es, e.id, e.ok);
      }
    }
  }

  lemma {:induction false} AllReadAlong(now: Time, db: Db, es: seq<Event>)
    requires FairRun(Start(now, db), es)
    ensures AllRead(Start(now, db), es)
  {
    hide Step, FlightRead, EntryRead, Recent, FairRun, Fair;
    var w0 := Start(now, db);
    if es != [] {
      var n := |es| - 1;
      FairFront(w0, es);
      Front(w0, es);
      AllReadAlong(now, db, es[..n]);
      assert es == es[..n] + [es[n]];
      FlightsStep(w0, es[..n], es[n]);
      CacheStep(w0, es[..n], es[n]);
      DecisionsStep(w0, es[..n], es[n]);
    }
  }

  /** Under any interleaving with any handlers and any other writers: a decision
      uses an account status and a permission list that queries gave later than 30
      seconds before the clock reading it was made by, each at its own moment; and
      a refusal for want of an account rests on a query made after that reading. */
  lemma BoundedStaleness(now: Time, db: Db, es: seq<Event>, k: nat)
    requires FairRun(Start(now, db), es) && k < |After(Start(now, db), es).decisions|
    ensures var w0 := Start(now, db);
      var d := After(w0, es).decisions[k];
      if d.Refused? then NobodyRead(w0, es, d.admin, d.at)
      else
        && StatusRead(w0, es, d.admin, d.status, d.at - TTL + 1)
        && PermsRead(w0, es, d.admin, d.perms, d.at - TTL + 1)
  {
    hide *;
    var w0 := Start(now, db);
    AllReadAlong(now, db, es);
    var d := After(w0, es).decisions[k];
    DecisionRead(w0, es, k);
    if d.Decided? {
      var from :| from > d.at - TTL && StatusRead(w0, es, d.admin, d.status, from) && PermsRead(w0, es, d.admin, d.perms, from);
      ReadSince(w0, es, d, from, d.at - TTL + 1);
    }
  }

  lemma DecisionRead(w0: World, es: seq<Event>, k: nat)
    requires AllRead(w0, es) && k < |After(w0, es).decisions|
    ensures var d := After(w0, es).decisions[k];
      if d.Refused? then NobodyRead(w0, es, d.admin, d.at)
      else exists from :: from > d.at - TTL && StatusRead(w0, es, d.admin, d.status, from)
                          && PermsRead(w0, es, d.admin, d.perms, from)
  {
    hide After, StatusRead, PermsRead, NobodyRead;
    assert Recent(w0, es, After(w0, es).decisions[k]);
  }

  lemma ReadSince(w0: World, es: seq<Event>, d: Decision, from: Time, since: Time)
    requires d.Decided? && since <= from
    requires StatusRead(w0, es, d.admin, d.status, from) && PermsRead(w0, es, d.admin, d.perms, from)
    ensures StatusRead(w0, es, d.admin, d.status, since) && PermsRead(w0, es, d.admin, d.perms, since)
  {
    hide After, Answers;
    var i: nat :| i < |es| && ReadsStatus(w0, es, i, d.admin, d.status, from);
    var j: nat :| j < |es| && ReadsPerms(w0, es, j, d.admin, d.perms, from);
    assert ReadsStatus(w0, es, i, d.admin, d.status, since);
    assert ReadsPerms(w0, es, j, d.admin, d.perms, since);
  }

  /** The four steps of one request with nothing in between leave tables and cache
      as AuthMiddleware does, and decide as it does. */
  lemma AloneIsAuth(w: World, id: nat, a: nat, found: bool, listed: bool, ps: seq<string>)
    requires id !in w.flights
    ensures var r := After(w, [Begin(id, a), FindAccount(id, found), ListPerms(id, listed, ps), Store(id)]);
      && |r.decisions| == |w.decisions| + 1
      && var d := r.decisions[|w.decisions|];
         var answer := if d.Refused? then AccountDisabled else Decide(d.status, d.perms);
         && (Hit(w.s.cache, a, w.now) ==> r.s == w.s && answer == Decide(w.s.cache[a].status, w.s.cache[a].perms))
         && (!Hit(w.s.cache, a, w.now) && !(found && Known(w.s.db, a)) ==> r.s == w.s && answer == AccountDisabled)
         && (!Hit(w.s.cache, a, w.now) && found && Known(w.s.db, a) ==>
               && answer == Decide(w.s.db.admins[a], ps)
               && r.s == State(w.s.db, Room(w.s.cache, w.now)[a := Entry(ps, w.s.db.admins[a], w.now + TTL)]))
  {
    hide Room, Decide, Hit, Known, Apply, After;
    FourSteps(w, Begin(id, a), FindAccount(id, found), ListPerms(id, listed, ps), Store(id));
    var w1 := Step(w, Begin(id, a));
    var w2 := Step(w1, FindAccount(id, found));
    if Hit(w.s.cache, a, w.now) || !(found && Known(w.s.db, a)) {
      assert id !in w2.flights && w2.s == w.s;
    } else {
      LastSteps(w2, id, listed, ps);
    }
  }

  lemma FourSteps(w: World, a: Event, b: Event, c: Event, d: Event)
    ensures After(w, [a, b, c, d]) == Step(Step(Step(Step(w, a), b), c), d)
  {
    hide Step, After;
    AfterNone(w);
    AfterNext(w, [], a);
    AfterNext(w, [] + [a], b);
    AfterNext(w, [] + [a] + [b], c);
    AfterNext(w, [] + [a] + [b] + [c], d);
    assert [a, b, c, d] == [] + [a] + [b] + [c] + [d];
  }

  lemma LastSteps(w: World, id: nat, listed: bool, ps: seq<string>)
    requires id in w.flights && w.flights[id].Found?
    ensures var f := w.flights[id];
      var r := Step(Step(w, ListPerms(id, listed, ps)), Store(id));
      && r.decisions == w.decisions + [Decided(f.admin, f.start, f.status, ps)]
      && r.s == State(w.s.db, Room(w.s.cache, f.start)[f.admin := Entry(ps, f.status, f.start + TTL)])
  {
    hide Room;
  }

  // ---------------------------------------------------------------- the size

  lemma AddedSize(c: Cache, a: nat, e: Entry)
    requires |c| < MAX_SIZE
    ensures |c[a := e]| <= MAX_SIZE
  {
    assert c[a := e].Keys == c.Keys + {a};
  }

  lemma SizeStep(w: World, e: Event)
    requires |w.s.cache| <= MAX_SIZE
    ensures |Step(w, e).s.cache| <= MAX_SIZE
  {
    hide Apply, Room, Hit, Known;
    if e.Store? && e.id in w.flights && w.flights[e.id].Listed? {
      var f := w.flights[e.id];
      AddedSize(Room(w.s.cache, f.start), f.admin, Entry(f.perms, f.status, f.start + TTL));
    } else {
      if e.Handle? {
        HandlersOnlyDrop(w.s, e.op);
      }
      SubsetSize(Step(w, e).s.cache.Keys, w.s.cache.Keys);
    }
  }

  /** The cache never exceeds its limit. */
  lemma {:induction false} CacheBounded(now: Time, db: Db, es: seq<Event>)
    ensures |After(Start(now, db), es).s.cache| <= MAX_SIZE
  {
    if es != [] {
      CacheBounded(now, db, es[..|es| - 1]);
      SizeStep(After(Start(now, db), es[..|es| - 1]), es[|es| - 1]);
      hide Step;
    }
  }

  // ----------------------------------------------------------- what it is for

  /** Making room takes an unexpired entry only when 1024 unexpired ones are there. */
  lemma LiveEntriesStay(cache: Cache, now: Time, a: nat)
    requires a in cache && cache[a].expires > now && |Live(cache, now)| < MAX_SIZE
    ensures a in Room(cache, now) && Room(cache, now)[a] == cache[a]
  {
  }

  /** For 30 seconds after its clock reading what a request has stored answers the next
      request of the account at once, without a query, unless it is dropped. */
  lemma StoredServes(w: World, id: nat, next: nat, delta: nat)
    requires id in w.flights && w.flights[id].Listed? && next !in w.flights
    requires w.now + delta < w.flights[id].start + 30
    ensures var f := w.flights[id];
      var r := Step(Step(Step(w, Store(id)), Tick(delta)), Begin(next, f.admin));
      && next !in r.flights
      && r.decisions == w.decisions + [Decided(f.admin, f.start, f.status, f.perms),
                                       Decided(f.admin, w.now + delta, f.status, f.perms)]
  {
    hide Room;
  }
}
