/** The connection registry of server/net/conn_manager.cpp and the login, logout
    and disconnect handlers that use it (server/service/user_service.cpp,
    server/net/gateway.cpp). */
module ConnRegistry {
  import opened Collections
  import opened Wrappers

  /** kMaxConnsPerUser. */
  const MAX_CONNS := 10

  class Connection {
    var userId: nat
    var deviceId: string
    var deviceType: string
    var open: bool

    constructor ()
      ensures userId == 0 && deviceId == "" && deviceType == "" && open
    {
      userId, deviceId, deviceType, open := 0, "", "", true;
    }

    method Close()
      modifies this`open
      ensures !open
    {
      open := false;
    }

    method Authenticate(user: nat, device: string, kind: string)
      modifies this`userId, this`deviceId, this`deviceType
      ensures userId == user && deviceId == device && deviceType == kind
    {
      userId, deviceId, deviceType := user, device, kind;
    }
  }

  // ------------------------------------------------------------ lists

  type Conns = seq<Connection>

  function Without(vec: Conns, drop: set<Connection>): (r: Conns)
  {
    if vec == [] then []
    else
      var n := |vec| - 1;
      Without(vec[..n], drop) + if vec[n] in drop then [] else [vec[n]]
  }

  lemma {:induction false} WithoutHas(vec: Conns, drop: set<Connection>)
    ensures var r := Without(vec, drop);
      && |r| <= |vec|
      && (forall i :: 0 <= i < |r| ==> r[i] in vec && r[i] !in drop)
      && (forall i :: 0 <= i < |vec| && vec[i] !in drop ==> vec[i] in r)
  {
    if vec != [] {
      var n := |vec| - 1;
      WithoutHas(vec[..n], drop);
      assert vec == vec[..n] + [vec[n]];
    }
  }

  /** What Without takes out. */
  function Only(vec: Conns, keep: set<Connection>): (r: Conns)
  {
    if vec == [] then []
    else
      var n := |vec| - 1;
      Only(vec[..n], keep) + if vec[n] in keep then [vec[n]] else []
  }

  lemma {:induction false} Parted(vec: Conns, drop: set<Connection>)
    ensures multiset(Without(vec, drop)) + multiset(Only(vec, drop)) == multiset(vec)
  {
    if vec != [] {
      var n := |vec| - 1;
      Parted(vec[..n], drop);
      assert vec == vec[..n] + [vec[n]];
      PartedStep(vec[..n], vec[n], Without(vec[..n], drop), Only(vec[..n], drop));
    }
  }

  lemma PartedStep(front: Conns, c: Connection, a: Conns, b: Conns)
    requires multiset(a) + multiset(b) == multiset(front)
    ensures multiset(a + [c]) + multiset(b) == multiset(front + [c])
    ensures multiset(a) + multiset(b + [c]) == multiset(front + [c])
    ensures a + [] == a && b + [] == b
  {
  }

  function SameDevice(vec: Conns, device: string): set<Connection>
    reads vec`deviceId
  {
    set c | c in vec && device != "" && c.deviceId == device
  }

  function SameType(vec: Conns, kind: string): set<Connection>
    reads vec`deviceType
  {
    set c | c in vec && kind != "" && c.deviceType == kind
  }

  predicate Differ(c: Connection, d: Connection)
    reads c`deviceId, c`deviceType, d`deviceId, d`deviceType
  {
    && c != d
    && (c.deviceId == "" || c.deviceId != d.deviceId)
    && (c.deviceType == "" || c.deviceType != d.deviceType)
  }

  /** No connection twice, no non-empty device id or device type twice. */
  predicate AllDiffer(vec: Conns)
    reads vec`deviceId, vec`deviceType
  {
    forall i, j :: 0 <= i < j < |vec| ==> Differ(vec[i], vec[j])
  }

  predicate ListOk(user: nat, vec: Conns)
    reads vec`userId, vec`deviceId, vec`deviceType
  {
    user > 0 && |vec| <= MAX_CONNS && AllDiffer(vec) && forall c :: c in vec ==> c.userId == user
  }

  lemma WithoutOk(user: nat, vec: Conns, drop: set<Connection>)
    requires ListOk(user, vec)
    ensures ListOk(user, Without(vec, drop))
  {
    WithoutDiffers(vec, drop);
    WithoutHas(vec, drop);
  }

  lemma {:induction false} WithoutDiffers(vec: Conns, drop: set<Connection>)
    requires AllDiffer(vec)
    ensures AllDiffer(Without(vec, drop))
  {
    if vec != [] {
      var n := |vec| - 1;
      WithoutDiffers(vec[..n], drop);
      WithoutHas(vec[..n], drop);
      var front := Without(vec[..n], drop);
      forall i | 0 <= i < |front| ensures Differ(front[i], vec[n]) {
        assert front[i] in vec[..n];
      }
    }
  }

  lemma WithoutStep(vec: Conns, k: nat, drop: set<Connection>)
    requires k < |vec|
    ensures Without(vec[..k + 1], drop) == Without(vec[..k], drop) + if vec[k] in drop then [] else [vec[k]]
    ensures Only(vec[..k + 1], drop) == Only(vec[..k], drop) + if vec[k] in drop then [vec[k]] else []
  {
    assert vec[..k + 1][..k] == vec[..k];
  }

  lemma WithoutEmpty(drop: set<Connection>)
    ensures Without([], drop) == [] && Only([], drop) == []
  {
  }

  lemma {:induction false} WithoutNone(vec: Conns, drop: set<Connection>)
    requires forall c :: c in vec ==> c !in drop
    ensures Without(vec, drop) == vec && Only(vec, drop) == []
  {
    if vec != [] {
      var n := |vec| - 1;
      WithoutNone(vec[..n], drop);
    }
  }

  // ------------------------------------------------------------ manager

  class ConnManager {
    var conns: map<nat, Conns>
    var online: int

    /** GetConns: a copy of the user's list. */
    function List(user: nat): Conns
      reads this
    {
      if user in conns then conns[user] else []
    }

    /** The counter is the number of users with a non-empty list. */
    predicate Counted()
      reads this
    {
      online == |conns| && forall u :: u in conns ==> conns[u] != []
    }

    ghost function All(): set<Connection>
      reads this
    {
      set u, c | u in conns && c in conns[u] :: c
    }

    /** Every connection is registered under its own user, lists are short and
        their members differ. */
    ghost predicate Valid()
      reads this, All()`userId, All()`deviceId, All()`deviceType
    {
      && Counted()
      && forall u :: u in conns ==> (assert forall c :: c in conns[u] ==> c in All(); ListOk(u, conns[u]))
    }

    constructor ()
      ensures Valid() && conns == map[]
    {
      conns, online := map[], 0;
    }

    method GetConn(user: nat, device: string) returns (r: Option<Connection>)
      ensures r.Some? <==> exists c :: c in List(user) && c.deviceId == device
      ensures r.Some? ==> r.value in List(user) && r.value.deviceId == device
    {
      var vec := List(user);
      for i := 0 to |vec|
        invariant forall j :: 0 <= j < i ==> vec[j].deviceId != device
      {
        if vec[i].deviceId == device {
          return Some(vec[i]);
        }
      }
      return None;
    }

    /** The loop that takes connections of the same device out of the list. */
    static method TakeDevice(all: Conns, device: string) returns (vec: Conns, taken: Conns)
      ensures vec == Without(all, SameDevice(all, device)) && taken == Only(all, SameDevice(all, device))
    {
      hide Without, Only;
      ghost var drop := SameDevice(all, device);
      vec, taken := all, [];
      if device == "" {
        WithoutNone(all, drop);
        return;
      }
      ghost var k := 0;
      var i := 0;
      WithoutEmpty(drop);
      assert all[..0] == [];
      while i < |vec|
        invariant 0 <= k <= |all| && i == |Without(all[..k], drop)| <= |vec|
        invariant vec == Without(all[..k], drop) + all[k..] && taken == Only(all[..k], drop)
        decreases |all| - k
      {
        WithoutStep(all, k, drop);
        assert vec[i] == all[k];
        if vec[i].deviceId == device {
          taken := taken + [vec[i]];
          vec := vec[..i] + vec[i + 1..];
        } else {
          i := i + 1;
        }
        k := k + 1;
      }
      assert all[..k] == all;
    }

    /** The eviction loop. */
    static method TakeOldest(all: Conns) returns (vec: Conns, taken: Conns)
      ensures vec == Newest(all, MAX_CONNS - 1) && taken + vec == all
    {
      vec, taken := all, [];
      while |vec| >= MAX_CONNS
        invariant taken + vec == all && (taken == [] || |vec| >= MAX_CONNS - 1)
        decreases |vec|
      {
        taken := taken + [vec[0]];
        vec := vec[1..];
      }
    }

    static method CloseAll(toClose: Conns)
      modifies toClose`open
      ensures forall c :: c in toClose ==> !c.open
    {
      var i := 0;
      while i < |toClose|
        invariant 0 <= i <= |toClose|
        invariant forall c :: c in toClose[..i] ==> !c.open
      {
        toClose[i].Close();
        assert toClose[..i + 1] == toClose[..i] + [toClose[i]];
        i := i + 1;
      }
      assert toClose[..i] == toClose;
    }

    /** Registers `conn` and closes what it displaces: connections of the same
        device, then the oldest ones beyond the limit. */
    method Add(user: nat, conn: Connection) returns (ghost closed: Conns)
      requires Counted()
      modifies this, List(user)`open
      ensures Counted()
      ensures var vec := old(List(user));
        List(user) == Newest(Without(vec, old(SameDevice(vec, conn.deviceId))), MAX_CONNS - 1) + [conn]
      ensures conns.Keys == old(conns).Keys + {user}
      ensures forall u :: u in conns && u != user ==> u in old(conns) && conns[u] == old(conns)[u]
      ensures multiset(List(user)) + multiset(closed) == multiset(old(List(user))) + multiset{conn}
      ensures forall c :: c in old(List(user)) ==> c.open == (old(c.open) && c !in closed)
    {
      hide Without, Only, SameDevice, Newest;
      var all := List(user);
      ghost var drop := SameDevice(all, conn.deviceId);
      var wasOffline := all == [];
      var kept, sameDevice := TakeDevice(all, conn.deviceId);
      var vec, oldest := TakeOldest(kept);
      var toClose := sameDevice + oldest;
      Conserved(all, drop, oldest, vec);
      ghost var keys := conns.Keys;
      MapSize(conns, user, vec + [conn]);
      conns := conns[user := vec + [conn]];
      assert conns.Keys == keys + {user};
      if wasOffline {
        online := online + 1;
      }
      closed := toClose;
      CloseAll(toClose);
    }

    static lemma MapSize(m: map<nat, Conns>, user: nat, list: Conns)
      ensures |m[user := list]| == if user in m then |m| else |m| + 1
    {
      assert m[user := list].Keys == m.Keys + {user};
    }

    static lemma Conserved(all: Conns, drop: set<Connection>, oldest: Conns, vec: Conns)
      requires oldest + vec == Without(all, drop)
      ensures multiset(vec) + multiset(Only(all, drop) + oldest) == multiset(all)
      ensures var closed := Only(all, drop) + oldest; forall i :: 0 <= i < |closed| ==> closed[i] in all
    {
      Parted(all, drop);
      var closed := Only(all, drop) + oldest;
      forall i | 0 <= i < |closed| ensures closed[i] in all {
        assert closed[i] in multiset(closed);
        assert closed[i] in multiset(all);
      }
    }

    /** Removes every occurrence of `conn` from the user's list. */
    method Remove(user: nat, conn: Connection)
      requires Counted()
      modifies this
      ensures Counted()
      ensures List(user) == Without(old(List(user)), {conn})
      ensures forall u :: u != user ==> (u in conns <==> u in old(conns)) && List(u) == old(List(u))
    {
      if user !in conns {
        return;
      }
      ghost var keys := conns.Keys;
      var vec := Without(conns[user], {conn});
      if vec == [] {
        conns := conns - {user};
        assert conns.Keys == keys - {user};
        online := online - 1;
      } else {
        conns := conns[user := vec];
        assert conns.Keys == keys;
      }
    }
  }

  // ------------------------------------------------------------ handlers

  datatype LoginOutcome = LoggedIn | Refused | AlreadyLoggedIn

  function WithoutControls(s: string): string {
    if s == "" then ""
    else (if s[0] < ' ' || s[0] == 0x7F as char then "" else [s[0]]) + WithoutControls(s[1..])
  }

  /** Truncated first, then stripped of control characters. */
  function Cleaned(s: string, limit: nat): string {
    WithoutControls(if |s| > limit then s[..limit] else s)
  }

  /** A connection is registered at most once, under its own user. */
  lemma RegisteredOnce(m: ConnManager, u: nat, i: nat, v: nat, j: nat)
    requires m.Valid() && i < |m.List(u)| && j < |m.List(v)| && m.List(u)[i] == m.List(v)[j]
    ensures u == v == m.List(u)[i].userId && i == j
  {
    OwnList(m, u);
    OwnList(m, v);
    assert ListOk(u, m.conns[u]);
  }

  /** The counter is never negative, and zero only when nobody is registered. */
  lemma OnlineCount(m: ConnManager)
    requires m.Counted()
    ensures m.online >= 0
    ensures m.online == 0 <==> forall u :: m.List(u) == []
  {
    if m.online == 0 {
      assert m.conns == map[];
    }
    if m.online != 0 {
      assert m.conns.Keys != {};
      var u :| u in m.conns;
      assert m.List(u) != [];
    }
  }

  method RemoveOwn(m: ConnManager, c: Connection)
    requires m.Valid()
    modifies m
    ensures m.Valid()
    ensures m.List(c.userId) == Without(old(m.List(c.userId)), {c})
    ensures forall u :: u != c.userId ==> m.List(u) == old(m.List(u))
  {
    hide Without, ListOk;
    ghost var lists := m.conns;
    ghost var user := c.userId;
    ghost var vec := m.List(user);
    WithoutEmpty({c});
    WithoutHas(vec, {c});
    if user in lists {
      WithoutOk(user, lists[user], {c});
    }
    m.Remove(c.userId, c);
    forall u | u in m.conns ensures u in lists && ListOk(u, m.conns[u]) {
      if u != user {
        assert m.List(u) == lists[u];
      }
    }
  }

  method KickOne(m: ConnManager, c: Connection)
    requires m.Valid()
    modifies m, c`open
    ensures m.Valid() && !c.open
    ensures m.List(c.userId) == Without(old(m.List(c.userId)), {c})
    ensures forall u :: u != c.userId ==> m.List(u) == old(m.List(u))
  {
    RemoveOwn(m, c);
    c.Close();
  }

  lemma {:induction false} WithoutMore(vec: Conns, drop: set<Connection>, c: Connection)
    ensures Without(Without(vec, drop), {c}) == Without(vec, drop + {c})
  {
    hide Without;
    if vec == [] {
      WithoutEmpty(drop);
      WithoutEmpty(drop + {c});
      WithoutEmpty({c});
    } else {
      var n := |vec| - 1;
      WithoutMore(vec[..n], drop, c);
      assert vec[..n + 1] == vec;
      WithoutStep(vec, n, drop);
      WithoutStep(vec, n, drop + {c});
      if vec[n] in drop {
        assert Without(vec[..n], drop) + [] == Without(vec[..n], drop);
      } else {
        WithoutAppend(Without(vec[..n], drop), vec[n], {c});
      }
    }
  }

  lemma WithoutAppend(vec: Conns, last: Connection, drop: set<Connection>)
    ensures Without(vec + [last], drop) == Without(vec, drop) + if last in drop then [] else [last]
  {
    assert (vec + [last])[..|vec|] == vec;
  }

  lemma {:induction false} WithoutSame(vec: Conns, drop: set<Connection>, gone: set<Connection>)
    requires forall i :: 0 <= i < |vec| ==> (vec[i] in drop <==> vec[i] in gone)
    ensures Without(vec, drop) == Without(vec, gone)
  {
    if vec != [] {
      WithoutSame(vec[..|vec| - 1], drop, gone);
    }
  }

  /** Those of the first `i` connections that are to go. */
  ghost function Taken(vec: Conns, i: nat, drop: set<Connection>): set<Connection>
    requires i <= |vec|
  {
    if i == 0 then {} else Taken(vec, i - 1, drop) + if vec[i - 1] in drop then {vec[i - 1]} else {}
  }

  lemma {:induction false} TakenHas(vec: Conns, i: nat, drop: set<Connection>)
    requires i <= |vec|
    ensures forall j :: 0 <= j < i && vec[j] in drop ==> vec[j] in Taken(vec, i, drop)
    ensures Taken(vec, i, drop) <= drop
  {
    if i > 0 {
      TakenHas(vec, i - 1, drop);
    }
  }

  lemma WithoutTaken(vec: Conns, drop: set<Connection>)
    ensures Without(vec, Taken(vec, |vec|, drop)) == Without(vec, drop)
  {
    TakenHas(vec, |vec|, drop);
    WithoutSame(vec, drop, Taken(vec, |vec|, drop));
  }

  lemma SameTypeHas(vec: Conns, kind: string)
    requires kind != ""
    ensures forall i :: 0 <= i < |vec| ==> (vec[i] in SameType(vec, kind) <==> vec[i].deviceType == kind)
  {
  }

  predicate Apart(vec: Conns) {
    forall i, j :: 0 <= i < j < |vec| ==> vec[i] != vec[j]
  }

  lemma ListApart(m: ConnManager, user: nat)
    requires m.Valid()
    ensures Apart(m.List(user))
  {
    if user in m.conns {
      assert ListOk(user, m.conns[user]);
    }
  }

  lemma {:induction false} OnceOnly(vec: Conns, i: nat)
    requires Apart(vec) && i < |vec|
    ensures multiset(vec)[vec[i]] == 1
  {
    var n := |vec| - 1;
    assert vec == vec[..n] + [vec[n]];
    if i < n {
      OnceOnly(vec[..n], i);
    } else {
      assert vec[n] !in vec[..n];
    }
  }

  /** Kept and closed together are the old list and the new connection: who of the
      old list is closed is not kept, and the other way round. */
  lemma ClosedOrKept(vec: Conns, kept: Conns, closed: Conns, conn: Connection)
    requires Apart(vec) && conn !in vec
    requires multiset(kept) + multiset(closed) == multiset(vec) + multiset{conn}
    ensures forall i :: 0 <= i < |vec| ==> (vec[i] in closed <==> vec[i] !in kept)
  {
    forall i | 0 <= i < |vec| ensures vec[i] in closed <==> vec[i] !in kept {
      OnceOnly(vec, i);
      assert (multiset(kept) + multiset(closed))[vec[i]] == 1;
    }
  }

  /** One round of the loop below. */
  method KickIfType(m: ConnManager, c: Connection, kind: string, ghost all: Conns, ghost i: nat,
                    ghost drop: set<Connection>)
    requires m.Valid() && i < |all| && c == all[i] && (c in drop <==> c.deviceType == kind)
    requires m.List(c.userId) == Without(all, Taken(all, i, drop))
    modifies m, c`open
    ensures m.Valid()
    ensures m.List(c.userId) == Without(all, Taken(all, i + 1, drop))
    ensures forall u :: u != c.userId ==> m.List(u) == old(m.List(u))
    ensures c.open == (old(c.open) && c.deviceType != kind)
  {
    hide Without, Taken, ConnManager.Valid, ConnManager.All;
    MoreTaken(all, i, drop);
    if c.deviceType == kind {
      WithoutMore(all, Taken(all, i, drop), c);
      KickOne(m, c);
    }
  }

  /** The loop over a copy of the list that ends older sessions of the same device
      type. */
  method KickSameType(m: ConnManager, user: nat, kind: string)
    requires m.Valid() && kind != ""
    modifies m, m.List(user)`open
    ensures m.Valid()
    ensures m.List(user) == Without(old(m.List(user)), old(SameType(m.List(user), kind)))
    ensures forall u :: u != user ==> m.List(u) == old(m.List(u))
    ensures forall i :: 0 <= i < |old(m.List(user))| ==>
              old(m.List(user))[i].open == (old(m.List(user)[i].open) && old(m.List(user))[i].deviceType != kind)
  {
    hide Without, ListOk, AllDiffer, SameType, Taken, ConnManager.Valid, ConnManager.All, ConnManager.List;
    var all := m.List(user);
    OwnList(m, user);
    ListApart(m, user);
    ghost var drop := SameType(all, kind);
    SameTypeHas(all, kind);
    NoneTaken(all, drop);
    WithoutNone(all, Taken(all, 0, drop));
    for i := 0 to |all|
      invariant m.Valid()
      invariant forall j :: 0 <= j < |all| ==> all[j].userId == user
      invariant m.List(user) == Without(all, Taken(all, i, drop))
      invariant forall u :: u != user ==> m.List(u) == old(m.List(u))
      invariant forall j :: 0 <= j < i ==> all[j].open == (old(all[j].open) && all[j].deviceType != kind)
      invariant forall j :: i <= j < |all| ==> all[j].open == old(all[j].open)
    {
      KickIfType(m, all[i], kind, all, i, drop);
    }
    WithoutTaken(all, drop);
  }

  lemma NoneTaken(vec: Conns, drop: set<Connection>)
    ensures Taken(vec, 0, drop) == {}
  {
  }

  lemma MoreTaken(vec: Conns, i: nat, drop: set<Connection>)
    requires i < |vec|
    ensures Taken(vec, i + 1, drop) == if vec[i] in drop then Taken(vec, i, drop) + {vec[i]} else Taken(vec, i, drop)
  {
  }

  lemma OwnList(m: ConnManager, user: nat)
    requires m.Valid()
    ensures var vec := m.List(user);
      forall i :: 0 <= i < |vec| ==> vec[i].userId == user
  {
    var vec := m.List(user);
    forall i | 0 <= i < |vec| ensures vec[i].userId == user {
      assert user in m.conns && vec[i] in m.conns[user];
      assert ListOk(user, m.conns[user]);
    }
  }

  lemma AddedOk(user: nat, vec: Conns, conn: Connection)
    requires ListOk(user, vec) && user > 0 && conn.userId == user
    requires forall i :: 0 <= i < |vec| ==> Differ(vec[i], conn)
    ensures ListOk(user, Newest(vec, MAX_CONNS - 1) + [conn])
  {
  }

  lemma NoSameDevice(vec: Conns, conn: Connection)
    requires forall i :: 0 <= i < |vec| ==> Differ(vec[i], conn)
    ensures Without(vec, SameDevice(vec, conn.deviceId)) == vec
  {
    forall i | 0 <= i < |vec| ensures vec[i] !in SameDevice(vec, conn.deviceId) {
    }
    WithoutNone(vec, SameDevice(vec, conn.deviceId));
  }

  /** Add, for a new connection of a device that no other has: whoever is no longer
      listed is closed, whoever is keeps its state. */
  method AddApart(m: ConnManager, user: nat, conn: Connection)
    requires m.Counted() && Apart(m.List(user)) && conn !in m.List(user)
    requires Without(m.List(user), SameDevice(m.List(user), conn.deviceId)) == m.List(user)
    modifies m, m.List(user)`open
    ensures m.Counted()
    ensures m.List(user) == Newest(old(m.List(user)), MAX_CONNS - 1) + [conn]
    ensures m.conns.Keys == old(m.conns).Keys + {user}
    ensures forall u :: u in m.conns && u != user ==> u in old(m.conns) && m.conns[u] == old(m.conns)[u]
    ensures var vec := old(m.List(user));
      forall i :: 0 <= i < |vec| ==> vec[i].open == (old(m.List(user)[i].open) && vec[i] in m.List(user))
  {
    hide Without, SameDevice, Newest, Apart, ConnManager.Counted;
    ghost var vec := m.List(user);
    ghost var closed := m.Add(user, conn);
    ClosedOrKept(vec, m.List(user), closed, conn);
  }

  /** Add, for a connection that differs from those of its user. */
  method Register(m: ConnManager, conn: Connection)
    requires m.Valid() && conn.userId > 0
    requires forall i :: 0 <= i < |m.List(conn.userId)| ==> Differ(m.List(conn.userId)[i], conn)
    modifies m, m.List(conn.userId)`open
    ensures m.Valid()
    ensures m.List(conn.userId) == Newest(old(m.List(conn.userId)), MAX_CONNS - 1) + [conn]
    ensures forall u :: u != conn.userId ==> m.List(u) == old(m.List(u))
    ensures var vec := old(m.List(conn.userId));
      forall i :: 0 <= i < |vec| ==> vec[i].open == (old(m.List(conn.userId)[i].open) && vec[i] in m.List(conn.userId))
  {
    hide Without, ListOk, SameDevice, Differ, Apart, ConnManager.Valid, ConnManager.All, ConnManager.Counted;
    ghost var lists, user, vec := m.conns, conn.userId, m.List(conn.userId);
    UserListOk(m, user);
    ListsOk(m);
    NoSameDevice(vec, conn);
    AddedOk(user, vec, conn);
    ListApart(m, user);
    NotIn(vec, conn);
    AddApart(m, conn.userId, conn);
    forall u | u in m.conns ensures ListOk(u, m.conns[u]) {
      if u != user {
        assert m.conns[u] == lists[u] && old(ListOk(u, lists[u]));
      } else {
        assert m.conns[u] == Newest(vec, MAX_CONNS - 1) + [conn];
        assert old(ListOk(user, Newest(vec, MAX_CONNS - 1) + [conn]));
      }
    }
    ListsValid(m);
  }

  lemma ListsOk(m: ConnManager)
    requires m.Valid()
    ensures m.Counted() && forall u :: u in m.conns ==> ListOk(u, m.conns[u])
  {
    hide ListOk;
  }

  lemma ListsValid(m: ConnManager)
    requires m.Counted() && forall u :: u in m.conns ==> ListOk(u, m.conns[u])
    ensures m.Valid()
  {
    hide ListOk;
  }

  lemma NotIn(vec: Conns, conn: Connection)
    requires forall i :: 0 <= i < |vec| ==> Differ(vec[i], conn)
    ensures conn !in vec
  {
  }

  lemma UserListOk(m: ConnManager, user: nat)
    requires m.Valid() && user > 0
    ensures ListOk(user, m.List(user))
  {
  }

  /** A connection is nowhere but in the list of its own user. */
  lemma NowhereElse(m: ConnManager, conn: Connection)
    requires m.Valid()
    ensures forall u :: u != conn.userId || u == 0 ==> conn !in m.List(u) && Without(m.List(u), {conn}) == m.List(u)
  {
    forall u | u != conn.userId || u == 0 ensures conn !in m.List(u) && Without(m.List(u), {conn}) == m.List(u) {
      OwnList(m, u);
      if u in m.conns {
        assert ListOk(u, m.conns[u]);
      }
      WithoutNone(m.List(u), {conn});
    }
  }

  lemma RemovedFrom(vec: Conns, conn: Connection)
    ensures conn !in Without(vec, {conn})
    ensures forall i :: 0 <= i < |Without(vec, {conn})| ==> Without(vec, {conn})[i] in vec
  {
    WithoutHas(vec, {conn});
  }

  /** What an unregistered connection says of itself is of no concern. */
  method Rename(m: ConnManager, conn: Connection, user: nat, device: string, kind: string)
    requires m.Valid() && forall u :: conn !in m.List(u)
    modifies conn`userId, conn`deviceId, conn`deviceType
    ensures m.Valid() && conn.userId == user && conn.deviceId == device && conn.deviceType == kind
  {
    hide ListOk;
    ghost var lists := m.conns;
    forall u | u in lists ensures ListOk(u, lists[u]) && conn !in lists[u] {
      assert conn !in m.List(u);
    }
    conn.Authenticate(user, device, kind);
  }

  method Shut(m: ConnManager, conn: Connection)
    requires m.Valid()
    modifies conn`open
    ensures m.Valid() && !conn.open
  {
    hide ListOk;
    ghost var lists := m.conns;
    assert forall u :: u in lists ==> ListOk(u, lists[u]);
    conn.Close();
  }

  /** The registry forgets the connection, and the connection its user. */
  method Forget(m: ConnManager, conn: Connection)
    requires m.Valid()
    modifies m, conn`userId, conn`deviceId, conn`deviceType
    ensures m.Valid() && conn.userId == 0 && conn.deviceId == "" && conn.deviceType == ""
    ensures forall u :: m.List(u) == Without(old(m.List(u)), {conn}) && conn !in m.List(u)
  {
    hide Without, ListOk, ConnManager.Valid, ConnManager.All;
    NowhereElse(m, conn);
    RemovedFrom(m.List(conn.userId), conn);
    RemoveOwn(m, conn);
    assert forall u :: m.List(u) == Without(old(m.List(u)), {conn}) && conn !in m.List(u);
    Rename(m, conn, 0, "", "");
  }

  method HandleLogout(m: ConnManager, conn: Connection)
    requires m.Valid()
    modifies m, conn
    ensures m.Valid() && conn.userId == 0 && !conn.open
    ensures forall u :: m.List(u) == Without(old(m.List(u)), {conn}) && conn !in m.List(u)
  {
    hide Without, ListOk, ConnManager.Valid, ConnManager.All;
    NowhereElse(m, conn);
    if conn.userId != 0 {
      Forget(m, conn);
    }
    Shut(m, conn);
  }

  /** The socket of `conn` is gone; what the connection says of itself stays. */
  method OnDisconnect(m: ConnManager, conn: Connection)
    requires m.Valid()
    modifies m
    ensures m.Valid()
    ensures forall u :: m.List(u) == Without(old(m.List(u)), {conn}) && conn !in m.List(u)
  {
    hide Without, ListOk, ConnManager.Valid, ConnManager.All;
    NowhereElse(m, conn);
    if conn.userId != 0 {
      RemovedFrom(m.List(conn.userId), conn);
      RemoveOwn(m, conn);
    }
  }

  /** The user's list when the login has ended the connection's own older session. */
  function Rest(m: ConnManager, user: nat, conn: Connection): Conns
    reads m
  {
    Without(m.List(user), {conn})
  }

  ghost predicate DeviceTaken(vec: Conns, device: string)
    reads vec`deviceId
  {
    device != "" && exists i :: 0 <= i < |vec| && vec[i].deviceId == device
  }

  /** `user` is the account whose credentials were right, None when any test before
      that failed. */
  method HandleLogin(m: ConnManager, conn: Connection, user: Option<nat>, deviceId: string, deviceType: string)
    returns (out: LoginOutcome)
    requires m.Valid() && (user.Some? ==> user.value > 0)
    modifies m, conn, m.List(if user.Some? then user.value else 0)`open
    ensures m.Valid()
    ensures out == Refused <==> user.None?
    ensures user.Some? ==>
      (out == AlreadyLoggedIn <==> old(DeviceTaken(Rest(m, user.value, conn), Cleaned(deviceId, 128))))
    ensures forall u :: (out == LoggedIn ==> u != user.value) ==> m.List(u) == old(Rest(m, u, conn))
    ensures out != LoggedIn ==> conn.userId == 0 && !conn.open
    ensures out == LoggedIn ==>
      && conn.userId == user.value
      && conn.deviceId == Cleaned(deviceId, 128) && conn.deviceType == Cleaned(deviceType, 64)
      && var rest := old(Rest(m, user.value, conn));
         m.List(user.value) ==
           Newest(Without(rest, old(SameType(Rest(m, user.value, conn), Cleaned(deviceType, 64)))), MAX_CONNS - 1) + [conn]
    ensures out == LoggedIn ==> conn.open == old(conn.open)
    ensures user.Some? ==>
      var vec := old(m.List(user.value));
      forall i :: 0 <= i < |vec| && vec[i] != conn ==>
        vec[i].open == (old(m.List(user.value)[i].open) && vec[i] in m.List(user.value))
  {
    hide Without, ListOk, Cleaned, ConnManager.Valid, ConnManager.All;
    NowhereElse(m, conn);
    ghost var device, kind := Cleaned(deviceId, 128), Cleaned(deviceType, 64);
    ghost var vec := if user.Some? then m.List(user.value) else [];
    ghost var rest := if user.Some? then Rest(m, user.value, conn) else [];
    WithoutHas(vec, {conn});
    ghost var drop := SameType(rest, kind);
    if user.Some? {
      RemovedFrom(m.List(user.value), conn);
    }
    if conn.userId != 0 {
      Forget(m, conn);
    }
    if user.None? {
      Shut(m, conn);
      return Refused;
    }
    assert m.List(user.value) == rest && SameType(rest, kind) == drop;
    out := Enter(m, conn, user.value, Cleaned(deviceId, 128), Cleaned(deviceType, 64));
    forall i | 0 <= i < |vec| && vec[i] != conn
      ensures vec[i].open == (old(vec[i].open) && vec[i] in m.List(user.value))
    {
      var j :| 0 <= j < |rest| && rest[j] == vec[i];
    }
  }

  /** The part of a login after the credentials were found right. */
  method Enter(m: ConnManager, conn: Connection, id: nat, device: string, kind: string) returns (out: LoginOutcome)
    requires m.Valid() && conn.userId == 0 && id > 0 && forall u :: conn !in m.List(u)
    modifies m, conn, m.List(id)`open
    ensures m.Valid()
    ensures out == AlreadyLoggedIn || out == LoggedIn
    ensures out == AlreadyLoggedIn <==> old(DeviceTaken(m.List(id), device))
    ensures forall u :: (out == LoggedIn ==> u != id) ==> m.List(u) == old(m.List(u))
    ensures out == AlreadyLoggedIn ==> conn.userId == 0 && !conn.open
    ensures out == LoggedIn ==>
      && conn.userId == id && conn.deviceId == device && conn.deviceType == kind
      && m.List(id) == Newest(Without(old(m.List(id)), old(SameType(m.List(id), kind))), MAX_CONNS - 1) + [conn]
      && conn.open == old(conn.open)
    ensures var vec := old(m.List(id));
      forall i :: 0 <= i < |vec| ==> vec[i].open == (old(m.List(id)[i].open) && vec[i] in m.List(id))
  {
    hide Without, ListOk, SameType, ConnManager.Valid, ConnManager.All;
    ghost var vec := m.List(id);
    var taken := IsTaken(m, id, device);
    if taken {
      Shut(m, conn);
      return AlreadyLoggedIn;
    }
    TakeSeat(m, conn, id, device, kind);
    return LoggedIn;
  }

  /** The loop over older sessions of the device type, and the registration. */
  method TakeSeat(m: ConnManager, conn: Connection, id: nat, device: string, kind: string)
    requires m.Valid() && conn.userId == 0 && id > 0 && (forall u :: conn !in m.List(u))
    requires !DeviceTaken(m.List(id), device)
    modifies m, conn`userId, conn`deviceId, conn`deviceType, m.List(id)`open
    ensures m.Valid() && conn.userId == id && conn.deviceId == device && conn.deviceType == kind
    ensures forall u :: u != id ==> m.List(u) == old(m.List(u))
    ensures m.List(id) == Newest(Without(old(m.List(id)), old(SameType(m.List(id), kind))), MAX_CONNS - 1) + [conn]
    ensures var vec := old(m.List(id));
      forall i :: 0 <= i < |vec| ==> vec[i].open == (old(m.List(id)[i].open) && vec[i] in m.List(id))
  {
    hide Without, ListOk, SameType, ConnManager.Valid, ConnManager.All, ConnManager.List, DeviceTaken;
    ghost var vec := m.List(id);
    ghost var kept := Without(vec, SameType(vec, kind));
    KeptFits(vec, kept, device, kind);
    KeptIff(vec, kept, kind);
    if kind != "" {
      KickSameType(m, id, kind);
    }
    assert m.List(id) == kept;
    assert forall i :: 0 <= i < |vec| ==> vec[i].open == (old(vec[i].open) && vec[i] in kept);
    Rename(m, conn, id, device, kind);
    Register(m, conn);
    NewestOf(kept, MAX_CONNS - 1);
    hide Newest;
    forall i | 0 <= i < |vec| ensures vec[i].open == (old(vec[i].open) && vec[i] in m.List(id)) {
      if vec[i] in kept {
        var j :| 0 <= j < |kept| && kept[j] == vec[i];
      } else {
        assert vec[i] !in Newest(kept, MAX_CONNS - 1) && vec[i] != conn;
      }
    }
  }

  method IsTaken(m: ConnManager, id: nat, device: string) returns (taken: bool)
    requires m.Valid()
    ensures m.Valid() && (taken <==> DeviceTaken(m.List(id), device))
  {
    if device == "" {
      return false;
    }
    var existing := m.GetConn(id, device);
    return existing.Some?;
  }

  lemma NewestOf(vec: Conns, n: nat)
    ensures forall c :: c in Newest(vec, n) ==> c in vec
  {
  }

  lemma KeptIff(vec: Conns, kept: Conns, kind: string)
    requires kept == Without(vec, SameType(vec, kind))
    ensures forall i :: 0 <= i < |vec| ==> (vec[i] in kept <==> kind == "" || vec[i].deviceType != kind)
  {
    hide Without;
    WithoutHas(vec, SameType(vec, kind));
  }

  /** What stays has another device and another device type. */
  lemma KeptFits(vec: Conns, kept: Conns, device: string, kind: string)
    requires !DeviceTaken(vec, device) && kept == Without(vec, SameType(vec, kind))
    ensures kind == "" ==> kept == vec
    ensures forall i :: 0 <= i < |kept| ==>
      && kept[i] in vec
      && (kept[i].deviceId == "" || kept[i].deviceId != device)
      && (kept[i].deviceType == "" || kept[i].deviceType != kind)
  {
    hide Without;
    WithoutHas(vec, SameType(vec, kind));
    if kind == "" {
      WithoutNone(vec, SameType(vec, kind));
    }
    forall i | 0 <= i < |kept| ensures kept[i].deviceId == "" || kept[i].deviceId != device {
      var j :| 0 <= j < |vec| && vec[j] == kept[i];
    }
  }

  // ------------------------------------------------------- cleaned strings

  predicate Printable(s: string) {
    forall i :: 0 <= i < |s| ==> !(s[i] < ' ' || s[i] == 0x7F as char)
  }

  lemma {:induction false} WithoutControlsIs(s: string)
    ensures Printable(WithoutControls(s)) && |WithoutControls(s)| <= |s|
    ensures Printable(s) ==> WithoutControls(s) == s
  {
    if s != "" {
      WithoutControlsIs(s[1..]);
      if Printable(s) {
        assert s == [s[0]] + s[1..];
      }
    }
  }

  lemma {:induction false} WithoutControlsSplit(a: string, b: string)
    ensures WithoutControls(a + b) == WithoutControls(a) + WithoutControls(b)
  {
    if a == "" {
      assert a + b == b;
    } else {
      var first := if a[0] < ' ' || a[0] == 0x7F as char then "" else [a[0]];
      WithoutControlsSplit(a[1..], b);
      assert (a + b)[0] == a[0] && (a + b)[1..] == a[1..] + b;
      assert first + (WithoutControls(a[1..]) + WithoutControls(b)) == (first + WithoutControls(a[1..])) + WithoutControls(b);
    }
  }

  /** A device id or type is cut to its limit and loses its control characters and
      nothing else: what is within the limit and printable comes back unchanged, and
      a control character anywhere within the limit makes no difference. */
  lemma CleanedIs(s: string, limit: nat)
    ensures Printable(Cleaned(s, limit)) && |Cleaned(s, limit)| <= limit
    ensures Printable(s) ==> Cleaned(s, limit) == if |s| > limit then s[..limit] else s
    ensures forall a: string, c: char, b: string :: |a + [c] + b| <= limit && !Printable([c]) ==>
              Cleaned(a + [c] + b, limit) == Cleaned(a + b, limit)
  {
    var cut := if |s| > limit then s[..limit] else s;
    WithoutControlsIs(cut);
    forall a: string, c: char, b: string | |a + [c] + b| <= limit && !Printable([c])
      ensures Cleaned(a + [c] + b, limit) == Cleaned(a + b, limit)
    {
      WithoutControlsSplit(a + [c], b);
      WithoutControlsSplit(a, [c]);
      WithoutControlsSplit(a, b);
      ControlGoes(c);
    }
  }

  lemma ControlGoes(c: char)
    requires !Printable([c])
    ensures WithoutControls([c]) == ""
  {
  }

  // ------------------------------------------------- who a login pushes out

  /** How many connections after the i-th are of other devices than this. */
  function OthersAfter(vec: Conns, device: string, i: nat): nat
    reads vec`deviceId
    decreases |vec| - i
  {
    if i + 1 >= |vec| then 0
    else OthersAfter(vec, device, i + 1) + if device != "" && vec[i + 1].deviceId == device then 0 else 1
  }

  lemma {:induction false} WithoutConcat(a: Conns, b: Conns, drop: set<Connection>)
    ensures Without(a + b, drop) == Without(a, drop) + Without(b, drop)
  {
    if b == [] {
      assert a + b == a;
    } else {
      var n := |b| - 1;
      WithoutConcat(a, b[..n], drop);
      assert (a + b)[..|a + b| - 1] == a + b[..n];
    }
  }

  lemma {:induction false} OthersCounted(vec: Conns, device: string, i: nat)
    requires i < |vec|
    ensures |Without(vec[i + 1..], SameDevice(vec, device))| == OthersAfter(vec, device, i)
    decreases |vec| - i
  {
    var drop := SameDevice(vec, device);
    if i + 1 < |vec| {
      OthersCounted(vec, device, i + 1);
      var x := vec[i + 1];
      assert vec[i + 1..] == [x] + vec[i + 2..];
      WithoutConcat([x], vec[i + 2..], drop);
      assert Without([x], drop) == if x in drop then [] else [x];
    }
  }

  /** Of the connections a user had, Add keeps exactly those of other devices than the
      new one that fewer than nine such connections came after. */
  lemma AddKeepsIff(vec: Conns, device: string, i: nat)
    requires Apart(vec) && i < |vec|
    ensures vec[i] in Newest(Without(vec, SameDevice(vec, device)), MAX_CONNS - 1) <==>
      (device == "" || vec[i].deviceId != device) && OthersAfter(vec, device, i) < 9
  {
    var drop := SameDevice(vec, device);
    var a, x, b := vec[..i], vec[i], vec[i + 1..];
    assert vec == a + [x] + b;
    WithoutConcat(a + [x], b, drop);
    WithoutConcat(a, [x], drop);
    OthersCounted(vec, device, i);
    WithoutHas(a, drop);
    WithoutHas(b, drop);
    assert Without([x], drop) == if x in drop then [] else [x];
    KeptBehind(Without(a, drop), x, x in drop, Without(b, drop), MAX_CONNS - 1);
  }

  lemma KeptBehind(a: Conns, x: Connection, gone: bool, b: Conns, n: nat)
    requires x !in a && x !in b
    ensures x in Newest(a + (if gone then [] else [x]) + b, n) <==> !gone && |b| < n
  {
    var all := a + (if gone then [] else [x]) + b;
    if !gone && |b| < n {
      assert all[|a|] == x;
      NewestAt(all, n);
      var kept := Newest(all, n);
      assert kept[|kept| - 1 - |b|] == x;
    }
  }
}
