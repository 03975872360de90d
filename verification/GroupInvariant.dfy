/** What every run of the group and friend handlers keeps, and who can cause a
    change of membership. Handlers run one after the other, under the session
    lock; a handler that fails changes nothing. */
module GroupInvariant {
  import opened Collections
  import opened Wrappers
  import opened Tables
  import opened GroupRules

  // ------------------------------------------------------------ invariant

  predicate HasRole(t: Tables, c: Id, u: Id, r: Role) {
    (c, u) in t.members && t.members[(c, u)] == r
  }

  /** The owner member is the owner of both rows, and the only one. */
  ghost predicate OneOwner(t: Tables, c: Id)
    requires c in t.groups
  {
    && c in t.convs && t.convs[c].isGroup && t.convs[c].owner == t.groups[c].owner
    && HasRole(t, c, t.groups[c].owner, Owner)
    && forall u :: HasRole(t, c, u, Owner) ==> u == t.groups[c].owner
  }

  ghost predicate OwnersOk(t: Tables) {
    forall c :: c in t.groups ==> OneOwner(t, c)
  }

  predicate RowsAgree(t: Tables, c: Id)
    requires c in t.groups
  {
    c in t.convs && t.convs[c].name == t.groups[c].name && t.convs[c].avatar == t.groups[c].avatar
  }

  predicate RowsOk(t: Tables) {
    forall c :: c in t.groups ==> RowsAgree(t, c)
  }

  predicate SizeOk(t: Tables, c: Id) {
    1 <= |MembersOf(t, c)| <= MAX_GROUP_MEMBERS
  }

  predicate SizesOk(t: Tables) {
    forall c :: c in t.groups ==> SizeOk(t, c)
  }

  /** Roles above member exist in live groups only, and members of ended groups
      are gone. */
  predicate MembersOk(t: Tables) {
    forall p :: p in t.members ==>
      p.0 in t.convs && (p.0 in t.groups || (!t.convs[p.0].isGroup && t.members[p] == Member))
  }

  predicate Waiting(t: Tables, id: Id) {
    id in t.joins && t.joins[id].status == Pending
  }

  predicate JoinsKnown(t: Tables) {
    forall id :: id in t.joins ==>
      id < t.nextJoin && t.joins[id].conv in t.convs && t.convs[t.joins[id].conv].isGroup
  }

  /** No member has a pending request, and nobody has two for one group. */
  ghost predicate JoinsFresh(t: Tables) {
    && (forall id :: Waiting(t, id) ==> (t.joins[id].conv, t.joins[id].user) !in t.members)
    && (forall i, j :: Waiting(t, i) && Waiting(t, j) && t.joins[i] == t.joins[j] ==> i == j)
  }

  predicate FriendsOk(t: Tables) {
    forall p :: p in t.friends && t.friends[p].conv > 0 ==>
      t.friends[p].conv in t.convs && !t.convs[t.friends[p].conv].isGroup
  }

  predicate IdsOk(t: Tables) {
    t.nextConv > 0 && forall c :: c in t.convs ==> 0 < c < t.nextConv
  }

  /** What no failing call can break. */
  ghost predicate Core(t: Tables) {
    OwnersOk(t) && MembersOk(t) && JoinsKnown(t) && FriendsOk(t) && IdsOk(t)
  }

  ghost predicate Inv(t: Tables) {
    Core(t) && RowsOk(t) && SizesOk(t) && JoinsFresh(t)
  }

  // ----------------------------------------------------------------- runs

  datatype Op =
    | Create(user: Id, name: string, avatar: string, ids: seq<Id>)
    | Dismiss(user: Id, conv: Id)
    | Join(user: Id, conv: Id, remark: string)
    | Review(user: Id, request: Id, action: int)
    | Leave(user: Id, conv: Id)
    | Kick(user: Id, conv: Id, target: Id)
    | Update(user: Id, conv: Id, patch: Patch)
    | SetRole(user: Id, conv: Id, target: Id, role: int)
    | HandleRequest(user: Id, request: Id, action: int)
    | DeleteFriend(user: Id, friend: Option<Id>)

  /** Whether the lookups worked that a handler goes on without: of the member and
      of a pending request in Join, of the member count in Review, and of the
      conversation in Update. */
  datatype Seen = Seen(member: bool, pending: bool, count: bool, conv: bool)

  const ALL_SEEN := Seen(true, true, true, true)

  function Check(t: Tables, op: Op, seen: Seen): Code {
    match op
    case Create(user, name, avatar, ids) => CreateCheck(t, user, name, avatar, ids)
    case Dismiss(user, c) => DismissCheck(t, user, c)
    case Join(user, c, remark) => JoinCheck(t, user, c, remark, seen.member, seen.pending)
    case Review(user, id, action) => ReviewCheck(t, user, id, action, seen.count)
    case Leave(user, c) => LeaveCheck(t, user, c)
    case Kick(user, c, target) => KickCheck(t, user, c, target)
    case Update(user, c, p) => UpdateCheck(t, user, c, p)
    case SetRole(user, c, target, role) => SetRoleCheck(t, user, c, target, role)
    case HandleRequest(user, id, action) => HandleRequestCheck(t, user, id, action)
    case DeleteFriend(user, friend) => DeleteFriendCheck(t, user, friend)
  }

  function Effect(t: Tables, op: Op, seen: Seen): Tables {
    match op
    case Create(user, name, avatar, ids) => CreateEffect(t, user, name, avatar, ids)
    case Dismiss(_, c) => DismissEffect(t, c)
    case Join(user, c, _) => JoinEffect(t, user, c)
    case Review(_, id, action) => ReviewEffect(t, id, action)
    case Leave(user, c) => WithoutMember(t, c, user)
    case Kick(_, c, target) => WithoutMember(t, c, target)
    case Update(_, c, p) => UpdateEffect(t, c, p, seen.conv)
    case SetRole(_, c, target, role) => WithRole(t, c, target, RoleNumbered(role))
    case HandleRequest(_, id, action) => HandleRequestEffect(t, id, action)
    case DeleteFriend(user, friend) => if friend.Some? then DeleteFriendEffect(t, user, friend.value) else t
  }

  /** One handler; `ok` is false when a DAO call made it fail. */
  datatype Step = Step(op: Op, ok: bool, seen: Seen)

  predicate Acts(t: Tables, s: Step) {
    s.ok && Check(t, s.op, s.seen) == Ok
  }

  function Apply(t: Tables, s: Step): Tables {
    if Acts(t, s) then Effect(t, s.op, s.seen) else t
  }

  function Run(t: Tables, steps: seq<Step>): Tables
    decreases |steps|
  {
    if steps == [] then t else Run(Apply(t, steps[0]), steps[1..])
  }

  function Init(users: map<Id, Account>, requests: map<Id, FriendRequest>): Tables {
    Tables(users, map[], map[], map[], map[], requests, map[], 1, 1)
  }

  /** The name and avatar of a patch are not new to the group. */
  predicate SameFace(t: Tables, c: Id, p: Patch) {
    c in t.groups && (p.name == "" || p.name == t.groups[c].name) && (p.avatar == "" || p.avatar == t.groups[c].avatar)
  }

  /** The step, if it takes effect, would have got as far with every lookup
      working, and an update finds both rows or has nothing to tell the second. */
  predicate Sound(t: Tables, s: Step) {
    Acts(t, s) ==>
      match s.op
      case Join(user, c, _) => (c, user) !in t.members && !Asked(t, c, user)
      case Review(_, id, action) => action == 2 || |MembersOf(t, t.joins[id].conv)| < MAX_GROUP_MEMBERS
      case Update(_, c, p) => s.seen.conv || SameFace(t, c, p)
      case _ => true
  }

  // -------------------------------------------- what no failing call breaks

  lemma FreshUnused(t: Tables)
    requires Core(t)
    ensures FreshId(t) && t.nextConv !in t.convs && t.nextConv !in t.groups
    ensures forall id :: id in t.joins ==> t.joins[id].conv != t.nextConv
  {
    forall p | p in t.members ensures p.0 != t.nextConv {
      assert p.0 in t.convs;
    }
    assert t.nextConv in t.groups ==> OneOwner(t, t.nextConv);
  }

  lemma Live(t: Tables, c: Id)
    requires OwnersOk(t) && c in t.groups
    ensures OneOwner(t, c) && c in t.convs && t.convs[c].isGroup
  {
  }

  /** Only live groups are managed, and only their one owner ranks highest. */
  lemma Managed(t: Tables, user: Id, c: Id)
    requires Core(t) && Manages(t, user, c)
    ensures c in t.groups
    ensures t.members[(c, user)] == Owner ==> t.groups[c].owner == user
  {
    Live(t, c);
    assert t.members[(c, user)] == Owner ==> HasRole(t, c, user, Owner);
  }

  /** The rows of groups and conversations that both tables know agree in owner,
      and their owner members are the same. */
  ghost predicate SameOwners(t: Tables, r: Tables, c: Id) {
    && c in t.groups && c in r.groups && r.groups[c].owner == t.groups[c].owner
    && c in t.convs && c in r.convs && r.convs[c].owner == t.convs[c].owner && r.convs[c].isGroup == t.convs[c].isGroup
    && forall u :: HasRole(r, c, u, Owner) <==> HasRole(t, c, u, Owner)
  }

  lemma OwnerFrame(t: Tables, r: Tables, c: Id)
    requires SameOwners(t, r, c) && OneOwner(t, c)
    ensures OneOwner(r, c)
  {
  }

  lemma CreatedMembers(t: Tables, user: Id, name: string, avatar: string, ids: seq<Id>, c: Id, u: Id)
    ensures var r := CreateEffect(t, user, name, avatar, ids);
      && (c != t.nextConv ==> Get(r.members, (c, u)) == Get(t.members, (c, u)))
      && HasRole(r, t.nextConv, user, Owner)
      && (FreshId(t) ==> ((t.nextConv, u) in r.members <==> u == user || u in Others(ids, user)))
      && (u in Others(ids, user) ==> HasRole(r, t.nextConv, u, Member))
  {
    assert u in Others(ids, user) ==> (t.nextConv, u) in Seats(t.nextConv, Others(ids, user));
  }

  lemma CreatedOwners(t: Tables, user: Id, name: string, avatar: string, ids: seq<Id>)
    requires Core(t)
    ensures OwnersOk(CreateEffect(t, user, name, avatar, ids))
  {
    hide CreateEffect, Others;
    var r, n := CreateEffect(t, user, name, avatar, ids), t.nextConv;
    FreshUnused(t);
    CreatedRows(t, user, name, avatar, ids);
    forall c | c in r.groups ensures OneOwner(r, c) {
      if c == n {
        forall u ensures HasRole(r, n, user, Owner) && (HasRole(r, n, u, Owner) ==> u == user) {
          CreatedMembers(t, user, name, avatar, ids, n, u);
        }
      } else {
        Live(t, c);
        forall u ensures HasRole(r, c, u, Owner) <==> HasRole(t, c, u, Owner) {
          CreatedMembers(t, user, name, avatar, ids, c, u);
        }
        OwnerFrame(t, r, c);
      }
    }
  }

  lemma CreatedRows(t: Tables, user: Id, name: string, avatar: string, ids: seq<Id>)
    ensures var r := CreateEffect(t, user, name, avatar, ids);
      && r.groups == t.groups[t.nextConv := Group(name, avatar, user, "")]
      && r.convs == t.convs[t.nextConv := Conv(true, name, avatar, user)]
      && r.nextConv == t.nextConv + 1
  {
  }

  lemma CreatedMembersOk(t: Tables, user: Id, name: string, avatar: string, ids: seq<Id>)
    requires Core(t)
    ensures MembersOk(CreateEffect(t, user, name, avatar, ids))
  {
    hide CreateEffect, Others, OwnersOk;
    var r := CreateEffect(t, user, name, avatar, ids);
    CreatedRows(t, user, name, avatar, ids);
    forall p | p in r.members
      ensures p.0 in r.convs && (p.0 in r.groups || (!r.convs[p.0].isGroup && r.members[p] == Member))
    {
      CreatedMembers(t, user, name, avatar, ids, p.0, p.1);
      assert p == (p.0, p.1);
    }
  }

  lemma CreateCore(t: Tables, user: Id, name: string, avatar: string, ids: seq<Id>)
    requires Core(t)
    ensures Core(CreateEffect(t, user, name, avatar, ids))
  {
    hide OwnersOk, MembersOk, Others, CreateEffect;
    CreatedOwners(t, user, name, avatar, ids);
    CreatedMembersOk(t, user, name, avatar, ids);
    CreatedRows(t, user, name, avatar, ids);
    FreshUnused(t);
  }

  lemma DismissCore(t: Tables, c: Id)
    requires Core(t)
    ensures Core(DismissEffect(t, c))
  {
    var r := DismissEffect(t, c);
    DismissOwners(t, c);
    hide OwnersOk;
  }

  lemma DismissOwners(t: Tables, c: Id)
    requires OwnersOk(t)
    ensures OwnersOk(DismissEffect(t, c))
  {
    var r := DismissEffect(t, c);
    forall d | d in r.groups ensures OneOwner(r, d) {
      Live(t, d);
      OwnerFrame(t, r, d);
    }
  }

  /** Groups, conversations and members stay. */
  predicate SameGroups(t: Tables, r: Tables) {
    r.convs == t.convs && r.groups == t.groups && r.members == t.members && r.nextConv == t.nextConv
  }

  lemma SameGroupsOk(t: Tables, r: Tables)
    requires SameGroups(t, r)
    ensures OwnersOk(t) ==> OwnersOk(r)
    ensures SizesOk(t) ==> SizesOk(r)
    ensures RowsOk(t) ==> RowsOk(r)
  {
    if OwnersOk(t) {
      forall c | c in r.groups ensures OneOwner(r, c) {
        Live(t, c);
        OwnerFrame(t, r, c);
      }
    }
    assert forall c :: MembersOf(r, c) == MembersOf(t, c);
  }

  lemma SameGroupsCore(t: Tables, r: Tables)
    requires Core(t) && SameGroups(t, r)
    requires forall id :: id in r.joins ==>
      && id < r.nextJoin
      && ((id in t.joins && r.joins[id].conv == t.joins[id].conv) || r.joins[id].conv in t.groups)
    requires forall p :: p in r.friends ==> p in t.friends && r.friends[p].conv == t.friends[p].conv
    ensures Core(r)
  {
    SameGroupsOk(t, r);
    forall id | id in r.joins ensures r.joins[id].conv in r.convs && r.convs[r.joins[id].conv].isGroup {
      if r.joins[id].conv in t.groups {
        Live(t, r.joins[id].conv);
      }
    }
    hide OwnersOk;
  }

  /** A role below owner is set, or a member added, in a live group. */
  lemma PutMemberCore(t: Tables, c: Id, u: Id, role: Role)
    requires Core(t) && c in t.groups && role != Owner && !HasRole(t, c, u, Owner)
    ensures Core(WithMember(t, c, u, role))
  {
    var r := WithMember(t, c, u, role);
    forall d | d in r.groups ensures OneOwner(r, d) {
      Live(t, d);
      OwnerFrame(t, r, d);
    }
    Live(t, c);
    hide OwnersOk;
  }

  /** Any member but an owner is removed. */
  lemma RemoveCore(t: Tables, c: Id, u: Id)
    requires Core(t) && !HasRole(t, c, u, Owner)
    ensures Core(WithoutMember(t, c, u))
  {
    var r := WithoutMember(t, c, u);
    forall d | d in r.groups ensures OneOwner(r, d) {
      Live(t, d);
      OwnerFrame(t, r, d);
    }
    hide OwnersOk;
  }

  lemma KickCore(t: Tables, user: Id, c: Id, target: Id)
    requires Core(t) && KickCheck(t, user, c, target) == Ok
    ensures Core(WithoutMember(t, c, target)) && !HasRole(t, c, target, Owner)
  {
    hide Core;
    RemoveCore(t, c, target);
  }

  lemma ReviewCore(t: Tables, user: Id, id: Id, action: int, counted: bool)
    requires Core(t) && ReviewCheck(t, user, id, action, counted) == Ok
    ensures Core(ReviewEffect(t, id, action))
  {
    hide MembersOf, Core;
    var s := if action == 2 then Rejected else Accepted;
    var d := WithJoinStatus(t, id, s);
    DecidedCore(t, id, s);
    if action != 2 {
      var jr := t.joins[id];
      Managed(t, user, jr.conv);
      PutMemberCore(d, jr.conv, jr.user, Member);
      assert ReviewEffect(t, id, action) == WithMember(d, jr.conv, jr.user, Member);
    }
  }

  lemma DecidedCore(t: Tables, id: Id, s: RequestStatus)
    requires Core(t)
    ensures Core(WithJoinStatus(t, id, s))
  {
    hide OwnersOk;
    SameGroupsCore(t, WithJoinStatus(t, id, s));
  }

  lemma JoinCore(t: Tables, user: Id, c: Id)
    requires Core(t) && c in t.groups
    ensures Core(JoinEffect(t, user, c))
  {
    hide OwnersOk;
    SameGroupsCore(t, JoinEffect(t, user, c));
  }

  lemma SetRoleCore(t: Tables, user: Id, c: Id, target: Id, role: int)
    requires Core(t) && SetRoleCheck(t, user, c, target, role) == Ok
    ensures Core(WithRole(t, c, target, RoleNumbered(role)))
    ensures c in t.groups && t.groups[c].owner == user && !HasRole(t, c, target, Owner)
  {
    Managed(t, user, c);
    Live(t, c);
    hide Core;
    PutMemberCore(t, c, target, RoleNumbered(role));
  }

  lemma UpdateCore(t: Tables, c: Id, p: Patch, synced: bool)
    requires Core(t)
    ensures Core(UpdateEffect(t, c, p, synced))
  {
    var r := UpdateEffect(t, c, p, synced);
    UpdateOwners(t, c, p, synced);
    assert forall d :: d in r.convs ==> r.convs[d].isGroup == t.convs[d].isGroup;
    hide OwnersOk, UpdateEffect;
  }

  lemma UpdateOwners(t: Tables, c: Id, p: Patch, synced: bool)
    requires OwnersOk(t)
    ensures OwnersOk(UpdateEffect(t, c, p, synced))
  {
    var r := UpdateEffect(t, c, p, synced);
    forall d | d in r.groups ensures OneOwner(r, d) {
      Live(t, d);
      OwnerFrame(t, r, d);
    }
  }

  lemma BefriendCore(t: Tables, a: Id, b: Id)
    requires Core(t)
    ensures Core(Befriended(t, a, b))
  {
    FreshUnused(t);
    BefriendOwners(t, a, b);
    BefriendMembers(t, a, b);
    hide OwnersOk, MembersOk;
  }

  lemma BefriendMembers(t: Tables, a: Id, b: Id)
    requires MembersOk(t) && t.nextConv !in t.convs && t.nextConv !in t.groups
    ensures MembersOk(Befriended(t, a, b))
  {
  }

  lemma BefriendOwners(t: Tables, a: Id, b: Id)
    requires OwnersOk(t) && t.nextConv !in t.groups
    ensures OwnersOk(Befriended(t, a, b))
  {
    var r := Befriended(t, a, b);
    forall c | c in r.groups ensures OneOwner(r, c) {
      Live(t, c);
      OwnerFrame(t, r, c);
    }
  }

  lemma HandleRequestCore(t: Tables, id: Id, action: int)
    requires Core(t)
    ensures Core(HandleRequestEffect(t, id, action))
  {
    hide Core;
    if id in t.requests {
      var d := WithRequestStatus(t, id, if action == 2 then Rejected else Accepted);
      RequestCore(t, id, if action == 2 then Rejected else Accepted);
      BefriendCore(d, t.requests[id].sender, t.requests[id].receiver);
    }
  }

  lemma RequestCore(t: Tables, id: Id, s: RequestStatus)
    requires Core(t)
    ensures Core(WithRequestStatus(t, id, s))
  {
    SameGroupsCore(t, WithRequestStatus(t, id, s));
  }

  lemma FriendStatusCore(t: Tables, a: Id, b: Id, s: FriendStatus)
    requires Core(t)
    ensures Core(WithFriendStatus(t, a, b, s))
  {
    hide OwnersOk, MembersOk;
    SameGroupsCore(t, WithFriendStatus(t, a, b, s));
  }

  lemma Unfriended(t: Tables, user: Id, target: Id)
    requires Core(t)
    ensures Core(WithFriendStatus(WithFriendStatus(t, user, target, Deleted), target, user, Deleted))
  {
    hide Core;
    var d := WithFriendStatus(t, user, target, Deleted);
    FriendStatusCore(t, user, target, Deleted);
    FriendStatusCore(d, target, user, Deleted);
  }

  lemma DeleteFriendCore(t: Tables, user: Id, target: Id)
    requires Core(t)
    ensures Core(DeleteFriendEffect(t, user, target))
  {
    hide Core;
    if (user, target) in t.friends {
      var c := t.friends[(user, target)].conv;
      var d := WithFriendStatus(WithFriendStatus(t, user, target, Deleted), target, user, Deleted);
      Unfriended(t, user, target);
      if c > 0 {
        PrivateChat(t, user, target);
        assert !HasRole(t, c, target, Owner) && !HasRole(t, c, user, Owner);
        RemoveCore(d, c, user);
        RemoveCore(WithoutMember(d, c, user), c, target);
      }
    }
  }

  lemma PrivateChat(t: Tables, a: Id, b: Id)
    requires Core(t) && (a, b) in t.friends && t.friends[(a, b)].conv > 0
    ensures var c := t.friends[(a, b)].conv; c !in t.groups && forall u :: !HasRole(t, c, u, Owner)
  {
    var c := t.friends[(a, b)].conv;
    if c in t.groups {
      Live(t, c);
    }
  }

  /** Whatever calls fail, no handler touches what Core says. */
  lemma ApplyCore(t: Tables, s: Step)
    requires Core(t)
    ensures Core(Apply(t, s))
  {
    hide Core, Rank;
    if Acts(t, s) {
      match s.op
      case Create(user, name, avatar, ids) => CreateCore(t, user, name, avatar, ids);
      case Dismiss(_, c) => DismissCore(t, c);
      case Join(user, c, remark) => JoinCore(t, user, c);
      case Review(user, id, action) => ReviewCore(t, user, id, action, s.seen.count);
      case Leave(user, c) => RemoveCore(t, c, user);
      case Kick(user, c, target) => KickCore(t, user, c, target);
      case Update(_, c, p) => UpdateCore(t, c, p, s.seen.conv);
      case SetRole(user, c, target, role) => SetRoleCore(t, user, c, target, role);
      case HandleRequest(_, id, action) => HandleRequestCore(t, id, action);
      case DeleteFriend(user, friend) =>
        if friend.Some? {
          DeleteFriendCore(t, user, friend.value);
        }
    }
  }

  lemma {:induction false} RunCore(t: Tables, steps: seq<Step>)
    requires Core(t)
    ensures Core(Run(t, steps))
    decreases |steps|
  {
    hide Core, Apply;
    if steps != [] {
      ApplyCore(t, steps[0]);
      RunCore(Apply(t, steps[0]), steps[1..]);
    }
  }

  // --------------------------------------------- what sound steps also keep

  /** No group row is new or other than before, nor the conversation row beside it. */
  predicate NoNewRows(t: Tables, r: Tables) {
    forall c :: c in r.groups ==>
      && c in t.groups && r.groups[c] == t.groups[c]
      && c in t.convs && c in r.convs && r.convs[c] == t.convs[c]
  }

  ghost predicate NoNewMembers(t: Tables, r: Tables, c: Id) {
    forall u :: (c, u) in r.members ==> (c, u) in t.members
  }

  lemma RowsStay(t: Tables, r: Tables)
    requires RowsOk(t) && NoNewRows(t, r)
    ensures RowsOk(r)
  {
  }

  lemma MembersWithin(t: Tables, r: Tables, c: Id)
    requires NoNewMembers(t, r, c)
    ensures |MembersOf(r, c)| <= |MembersOf(t, c)|
  {
    forall u | u in MembersOf(r, c) ensures u in MembersOf(t, c) {
      MembersOfHas(r, c, u);
      MembersOfHas(t, c, u);
    }
    hide MembersOf;
    SubsetSize(MembersOf(r, c), MembersOf(t, c));
  }

  lemma OwnerCounts(t: Tables, c: Id)
    requires OwnersOk(t) && c in t.groups
    ensures |MembersOf(t, c)| >= 1
  {
    Live(t, c);
    var o := t.groups[c].owner;
    MembersOfHas(t, c, o);
    hide MembersOf;
    assert o in MembersOf(t, c);
  }

  lemma SizesStay(t: Tables, r: Tables)
    requires SizesOk(t) && OwnersOk(r)
    requires forall c :: c in r.groups ==> c in t.groups && NoNewMembers(t, r, c)
    ensures SizesOk(r)
  {
    hide MembersOf, OwnersOk;
    forall c | c in r.groups ensures SizeOk(r, c) {
      MembersWithin(t, r, c);
      OwnerCounts(r, c);
    }
  }

  lemma FreshStays(t: Tables, r: Tables)
    requires JoinsFresh(t) && (forall c, u :: (c, u) in r.members && (c, u) !in t.members ==> !Asked(t, c, u))
    requires forall id :: Waiting(r, id) ==> Waiting(t, id) && r.joins[id] == t.joins[id]
    ensures JoinsFresh(r)
  {
    forall id | Waiting(r, id) ensures (r.joins[id].conv, r.joins[id].user) !in r.members {
      assert Waiting(t, id);
      assert t.joins[id] == JoinRequest(r.joins[id].conv, r.joins[id].user, Pending);
    }
  }

  /** Only rows are taken away. */
  lemma LessKeeps(t: Tables, r: Tables)
    requires Inv(t) && Core(r) && NoNewRows(t, r) && r.joins == t.joins
    requires forall p :: p in r.members ==> p in t.members
    ensures Inv(r)
  {
    hide OwnersOk, MembersOk, FriendsOk, IdsOk, MembersOf;
    RowsStay(t, r);
    SizesStay(t, r);
    FreshStays(t, r);
  }

  lemma CreateKeeps(t: Tables, user: Id, name: string, avatar: string, ids: seq<Id>)
    requires Inv(t) && CreateCheck(t, user, name, avatar, ids) == Ok
    ensures Inv(CreateEffect(t, user, name, avatar, ids))
  {
    CreateCore(t, user, name, avatar, ids);
    CreatedRows(t, user, name, avatar, ids);
    FreshUnused(t);
    CreatedSizes(t, user, name, avatar, ids);
    CreatedJoins(t, user, name, avatar, ids);
    hide Core, CreateCheck, CreateEffect, SizesOk, JoinsFresh;
  }

  lemma CreatedSizes(t: Tables, user: Id, name: string, avatar: string, ids: seq<Id>)
    requires Core(t) && SizesOk(t) && CreateCheck(t, user, name, avatar, ids) == Ok
    ensures SizesOk(CreateEffect(t, user, name, avatar, ids))
  {
    hide Core, CreateEffect, MembersOf, Others;
    var r, n := CreateEffect(t, user, name, avatar, ids), t.nextConv;
    FreshUnused(t);
    CreatedRows(t, user, name, avatar, ids);
    forall c | c in r.groups ensures SizeOk(r, c) {
      forall u ensures u in MembersOf(r, c) <==> if c == n then u in {user} + Others(ids, user) else u in MembersOf(t, c) {
        CreatedMembers(t, user, name, avatar, ids, c, u);
        MembersOfHas(r, c, u);
        MembersOfHas(t, c, u);
      }
      assert c == n ==> MembersOf(r, c) == {user} + Others(ids, user);
      assert c != n ==> MembersOf(r, c) == MembersOf(t, c);
      NotAmongOthers(ids, user);
    }
  }

  lemma NotAmongOthers(ids: seq<Id>, user: Id)
    ensures |{user} + Others(ids, user)| == |Others(ids, user)| + 1
  {
    assert user !in Others(ids, user);
  }

  lemma CreatedJoins(t: Tables, user: Id, name: string, avatar: string, ids: seq<Id>)
    requires JoinsFresh(t) && forall id :: id in t.joins ==> t.joins[id].conv != t.nextConv
    ensures JoinsFresh(CreateEffect(t, user, name, avatar, ids))
  {
    hide CreateEffect, JoinsFresh;
    var r := CreateEffect(t, user, name, avatar, ids);
    forall c, u | (c, u) in r.members && (c, u) !in t.members ensures !Asked(t, c, u) {
      CreatedMembers(t, user, name, avatar, ids, c, u);
    }
    FreshStays(t, r);
  }

  lemma DismissKeeps(t: Tables, user: Id, c: Id)
    requires Inv(t) && DismissCheck(t, user, c) == Ok
    ensures Inv(DismissEffect(t, c))
  {
    DismissCore(t, c);
    assert NoNewRows(t, DismissEffect(t, c)) by {
      forall d | d in t.groups ensures d in t.convs {
        Live(t, d);
      }
    }
    hide Inv, Core;
    LessKeeps(t, DismissEffect(t, c));
  }

  lemma JoinKeeps(t: Tables, user: Id, c: Id, remark: string)
    requires Inv(t) && JoinCheck(t, user, c, remark, true, true) == Ok
    ensures Inv(JoinEffect(t, user, c))
  {
    var r := JoinEffect(t, user, c);
    JoinCore(t, user, c);
    SameGroupsOk(t, r);
    hide OwnersOk, RowsOk, SizesOk;
    forall id | Waiting(r, id) ensures id == t.nextJoin || (Waiting(t, id) && r.joins[id] != JoinRequest(c, user, Pending)) {
      if id != t.nextJoin {
        assert t.joins[id] == JoinRequest(c, user, Pending) ==> Asked(t, c, user);
      }
    }
    hide Core;
  }

  lemma DecidedKeeps(t: Tables, id: Id, s: RequestStatus)
    requires Inv(t) && s != Pending
    ensures Inv(WithJoinStatus(t, id, s))
  {
    hide Core, RowsOk, SizesOk, JoinsFresh, OwnersOk, Waiting, Asked;
    var r := WithJoinStatus(t, id, s);
    DecidedCore(t, id, s);
    SameGroupsOk(t, r);
    DecidedJoins(t, id, s);
  }

  lemma DecidedJoins(t: Tables, id: Id, s: RequestStatus)
    requires JoinsFresh(t) && s != Pending
    ensures JoinsFresh(WithJoinStatus(t, id, s))
  {
    hide JoinsFresh;
    FreshStays(t, WithJoinStatus(t, id, s));
  }

  lemma ReviewKeeps(t: Tables, user: Id, id: Id, action: int)
    requires Inv(t) && ReviewCheck(t, user, id, action, true) == Ok
    ensures Inv(ReviewEffect(t, id, action))
  {
    var jr := t.joins[id];
    ReviewCore(t, user, id, action, true);
    var s := if action == 2 then Rejected else Accepted;
    DecidedKeeps(t, id, s);
    Managed(t, user, jr.conv);
    var d := WithJoinStatus(t, id, s);
    if action != 2 {
      assert Waiting(t, id);
      forall i | Waiting(d, i) ensures d.joins[i] != JoinRequest(jr.conv, jr.user, Pending) {
        assert Waiting(t, i);
      }
      assert MembersOf(d, jr.conv) == MembersOf(t, jr.conv);
      assert ReviewEffect(t, id, action) == WithMember(d, jr.conv, jr.user, Member);
      hide Inv, Core, ReviewEffect, MembersOf;
      PutMemberKeeps(d, jr.conv, jr.user, Member);
    }
  }

  lemma PutMembers(t: Tables, c: Id, u: Id, role: Role)
    ensures MembersOf(WithMember(t, c, u, role), c) == MembersOf(t, c) + {u}
  {
    var r := WithMember(t, c, u, role);
    forall v ensures v in MembersOf(r, c) <==> v in MembersOf(t, c) + {u} {
      MembersOfHas(r, c, v);
      MembersOfHas(t, c, v);
    }
  }

  lemma PutMemberKeeps(t: Tables, c: Id, u: Id, role: Role)
    requires Inv(t) && Core(WithMember(t, c, u, role)) && c in t.groups
    requires (c, u) in t.members || (|MembersOf(t, c)| < MAX_GROUP_MEMBERS && !Asked(t, c, u))
    ensures Inv(WithMember(t, c, u, role))
  {
    hide OwnersOk, MembersOk, FriendsOk, IdsOk, JoinsKnown, MembersOf;
    var r := WithMember(t, c, u, role);
    FreshStays(t, r);
    forall d | d in r.groups ensures SizeOk(r, d) {
      OwnerCounts(r, d);
      if d == c {
        PutMembers(t, c, u, role);
        MembersOfHas(t, c, u);
        assert u in MembersOf(t, c) ==> MembersOf(t, c) + {u} == MembersOf(t, c);
      } else {
        MembersWithin(t, r, d);
      }
    }
  }

  lemma RemoveKeeps(t: Tables, c: Id, u: Id)
    requires Inv(t) && !HasRole(t, c, u, Owner)
    ensures Inv(WithoutMember(t, c, u))
  {
    RemoveCore(t, c, u);
    SelfRows(t);
    hide Inv, Core;
    LessKeeps(t, WithoutMember(t, c, u));
  }

  lemma SelfRows(t: Tables)
    requires Core(t)
    ensures forall c :: c in t.groups ==> c in t.convs
  {
    forall c | c in t.groups ensures c in t.convs {
      Live(t, c);
    }
  }

  lemma KickKeeps(t: Tables, user: Id, c: Id, target: Id)
    requires Inv(t) && KickCheck(t, user, c, target) == Ok
    ensures Inv(WithoutMember(t, c, target))
  {
    KickCore(t, user, c, target);
    hide Inv;
    RemoveKeeps(t, c, target);
  }

  lemma SetRoleKeeps(t: Tables, user: Id, c: Id, target: Id, role: int)
    requires Inv(t) && SetRoleCheck(t, user, c, target, role) == Ok
    ensures Inv(WithRole(t, c, target, RoleNumbered(role)))
  {
    SetRoleCore(t, user, c, target, role);
    hide Inv, Core;
    PutMemberKeeps(t, c, target, RoleNumbered(role));
  }

  /** An update that finds both rows, or says nothing new to the second. */
  lemma UpdateKeeps(t: Tables, user: Id, c: Id, p: Patch, synced: bool)
    requires Inv(t) && UpdateCheck(t, user, c, p) == Ok && (synced || SameFace(t, c, p))
    ensures Inv(UpdateEffect(t, c, p, synced))
  {
    var r := UpdateEffect(t, c, p, synced);
    UpdateCore(t, c, p, synced);
    SelfRows(t);
    UpdateRows(t, c, p, synced);
    hide RowsOk;
    FreshStays(t, r);
    hide JoinsFresh;
    SizesStay(t, r);
    hide Core, SizesOk;
  }

  lemma UpdateRows(t: Tables, c: Id, p: Patch, synced: bool)
    requires RowsOk(t) && c in t.groups && (synced || SameFace(t, c, p))
    ensures RowsOk(UpdateEffect(t, c, p, synced))
  {
    assert RowsAgree(t, c);
  }

  lemma HandleRequestKeeps(t: Tables, user: Id, id: Id, action: int)
    requires Inv(t) && HandleRequestCheck(t, user, id, action) == Ok
    ensures Inv(HandleRequestEffect(t, id, action))
  {
    hide Inv;
    var s := if action == 2 then Rejected else Accepted;
    var d := WithRequestStatus(t, id, s);
    RequestKeeps(t, id, s);
    if action == 1 {
      BefriendKeeps(d, t.requests[id].sender, t.requests[id].receiver);
    }
  }

  lemma RequestKeeps(t: Tables, id: Id, s: RequestStatus)
    requires Inv(t)
    ensures Inv(WithRequestStatus(t, id, s))
  {
    RequestCore(t, id, s);
    SelfRows(t);
    hide Inv, Core;
    LessKeeps(t, WithRequestStatus(t, id, s));
  }

  lemma BefriendKeeps(t: Tables, a: Id, b: Id)
    requires Inv(t)
    ensures Inv(Befriended(t, a, b))
  {
    hide Core, SizesOk, JoinsFresh;
    FreshUnused(t);
    SelfRows(t);
    BefriendCore(t, a, b);
    BefriendSizes(t, a, b);
    BefriendJoins(t, a, b);
  }

  lemma BefriendSizes(t: Tables, a: Id, b: Id)
    requires Core(t) && SizesOk(t)
    ensures SizesOk(Befriended(t, a, b))
  {
    hide Core, SizesOk, OwnersOk;
    var r := Befriended(t, a, b);
    FreshUnused(t);
    BefriendCore(t, a, b);
    assert OwnersOk(r) by {
      CoreOwners(r);
    }
    SizesStay(t, r);
  }

  lemma CoreOwners(t: Tables)
    requires Core(t)
    ensures OwnersOk(t)
  {
  }

  lemma BefriendJoins(t: Tables, a: Id, b: Id)
    requires JoinsFresh(t) && forall id :: id in t.joins ==> t.joins[id].conv != t.nextConv
    ensures JoinsFresh(Befriended(t, a, b))
  {
    hide JoinsFresh;
    FreshStays(t, Befriended(t, a, b));
  }

  lemma DeleteFriendKeeps(t: Tables, user: Id, target: Id)
    requires Inv(t) && (user, target) in t.friends
    ensures Inv(DeleteFriendEffect(t, user, target))
  {
    DeleteFriendCore(t, user, target);
    SelfRows(t);
    hide Inv, Core;
    LessKeeps(t, DeleteFriendEffect(t, user, target));
  }

  lemma SoundKeeps(t: Tables, s: Step)
    requires Inv(t) && Sound(t, s)
    ensures Inv(Apply(t, s))
  {
    hide Inv, Rank, SameFace;
    if Acts(t, s) {
      match s.op
      case Create(user, name, avatar, ids) => CreateKeeps(t, user, name, avatar, ids);
      case Dismiss(user, c) => DismissKeeps(t, user, c);
      case Join(user, c, remark) => JoinKeeps(t, user, c, remark);
      case Review(user, id, action) => ReviewKeeps(t, user, id, action);
      case Leave(user, c) => RemoveKeeps(t, c, user);
      case Kick(user, c, target) => KickKeeps(t, user, c, target);
      case Update(user, c, p) => UpdateKeeps(t, user, c, p, s.seen.conv);
      case SetRole(user, c, target, role) => SetRoleKeeps(t, user, c, target, role);
      case HandleRequest(user, id, action) => HandleRequestKeeps(t, user, id, action);
      case DeleteFriend(user, friend) => DeleteFriendKeeps(t, user, friend.value);
    }
  }

  // ------------------------------------------------------- failing lookups

  /** An update whose conversation lookup fails keeps the invariant exactly when
      it did not really change name or avatar. */
  lemma UnsyncedUpdate(t: Tables, user: Id, c: Id, p: Patch)
    requires Inv(t) && UpdateCheck(t, user, c, p) == Ok
    ensures Inv(UpdateEffect(t, c, p, false)) <==> SameFace(t, c, p)
  {
    if SameFace(t, c, p) {
      UpdateKeeps(t, user, c, p, false);
    } else {
      var r := UpdateEffect(t, c, p, false);
      assert RowsAgree(t, c);
      assert !RowsAgree(r, c);
    }
  }

  /** A join request that got past failing lookups keeps the invariant exactly
      when its author is neither a member nor already waiting. */
  lemma UncheckedJoin(t: Tables, user: Id, c: Id)
    requires Inv(t) && c in t.groups && user != 0 && c > 0
    ensures Inv(JoinEffect(t, user, c)) <==> (c, user) !in t.members && !Asked(t, c, user)
  {
    var r := JoinEffect(t, user, c);
    assert Waiting(r, t.nextJoin) && r.joins[t.nextJoin] == JoinRequest(c, user, Pending);
    if (c, user) !in t.members && !Asked(t, c, user) {
      JoinKeeps(t, user, c, "");
    } else if Asked(t, c, user) {
      var id :| id in t.joins && t.joins[id] == JoinRequest(c, user, Pending);
      assert Waiting(t, id) && id < t.nextJoin;
      assert Waiting(r, id);
    }
  }

  /** An approval whose member count failed keeps the invariant exactly when the
      group was not full. */
  lemma UncheckedApproval(t: Tables, user: Id, id: Id)
    requires Inv(t) && ReviewCheck(t, user, id, 1, false) == Ok
    ensures Inv(ReviewEffect(t, id, 1)) <==> |MembersOf(t, t.joins[id].conv)| < MAX_GROUP_MEMBERS
  {
    var c, u := t.joins[id].conv, t.joins[id].user;
    if |MembersOf(t, c)| < MAX_GROUP_MEMBERS {
      ReviewKeeps(t, user, id, 1);
    } else {
      var r := ReviewEffect(t, id, 1);
      Managed(t, user, c);
      PutMembers(t, c, u, Member);
      MembersOfHas(t, c, u);
      assert MembersOf(r, c) == MembersOf(WithMember(t, c, u, Member), c);
      assert !SizeOk(r, c);
    }
  }

  /** A step keeps the invariant if and only if it is sound. */
  lemma SoundIff(t: Tables, s: Step)
    requires Inv(t)
    ensures Inv(Apply(t, s)) <==> Sound(t, s)
  {
    hide Inv, SameFace, MembersOf;
    if Sound(t, s) {
      SoundKeeps(t, s);
    } else {
      match s.op
      case Join(user, c, _) => UncheckedJoin(t, user, c);
      case Review(user, id, _) => UncheckedApproval(t, user, id);
      case Update(user, c, p) => UnsyncedUpdate(t, user, c, p);
      case _ =>
    }
  }

  /** A step in which every lookup worked is sound. */
  lemma SeenIsSound(t: Tables, s: Step)
    requires s.seen == ALL_SEEN
    ensures Sound(t, s)
  {
    hide MembersOf, SameFace;
  }

  /** Each step is sound in the state it meets. */
  predicate SoundRun(t: Tables, steps: seq<Step>)
    decreases |steps|
  {
    steps == [] || (Sound(t, steps[0]) && SoundRun(Apply(t, steps[0]), steps[1..]))
  }

  ghost predicate InvAlong(t: Tables, steps: seq<Step>) {
    forall n :: 0 <= n <= |steps| ==> Inv(Run(t, steps[..n]))
  }

  /** The invariant holds after every handler of a run, failing calls or not, if
      and only if every step is sound. */
  lemma {:induction false} InvAlongIff(t: Tables, steps: seq<Step>)
    requires Inv(t)
    ensures InvAlong(t, steps) <==> SoundRun(t, steps)
    decreases |steps|
  {
    hide Inv, Sound, Apply;
    if steps != [] {
      var r := Apply(t, steps[0]);
      SoundIff(t, steps[0]);
      AlongFirst(t, steps);
      if Inv(r) {
        InvAlongIff(r, steps[1..]);
      }
    }
  }

  lemma AlongFirst(t: Tables, steps: seq<Step>)
    requires Inv(t) && steps != []
    ensures InvAlong(t, steps) <==> Inv(Apply(t, steps[0])) && InvAlong(Apply(t, steps[0]), steps[1..])
  {
    hide Inv, Apply;
    var r, rest := Apply(t, steps[0]), steps[1..];
    forall n | 0 <= n <= |rest| ensures Run(t, steps[..n + 1]) == Run(r, rest[..n]) {
      assert steps[..n + 1][1..] == rest[..n];
    }
    assert rest[..0] == [] && steps[..0] == [];
    if InvAlong(t, steps) {
      forall n | 0 <= n <= |rest| ensures Inv(Run(r, rest[..n])) {
        assert Inv(Run(t, steps[..n + 1]));
      }
      assert Inv(Run(r, rest[..0]));
    }
    if Inv(r) && InvAlong(r, rest) {
      forall n | 0 <= n <= |steps| ensures Inv(Run(t, steps[..n])) {
        if n > 0 {
          assert Inv(Run(r, rest[..n - 1]));
        }
      }
    }
  }

  lemma InitInv(users: map<Id, Account>, requests: map<Id, FriendRequest>)
    ensures Inv(Init(users, requests))
  {
  }

  /** In every state reached from empty tables, whichever calls failed: each live
      group has exactly one owner member, the owner of both rows; roles above
      member and members of groups occur in live groups only; join requests name
      groups. If moreover the steps were sound, and else not after every one of
      them: name and avatar agree with the conversation's, each group has 1 to 500
      members, each user has at most one pending request per group, and no member
      has one. */
  lemma ReachableOk(users: map<Id, Account>, requests: map<Id, FriendRequest>, steps: seq<Step>)
    ensures var t := Run(Init(users, requests), steps);
      OwnersOk(t) && MembersOk(t) && JoinsKnown(t) && FriendsOk(t) && IdsOk(t)
    ensures InvAlong(Init(users, requests), steps) <==> SoundRun(Init(users, requests), steps)
    ensures var t := Run(Init(users, requests), steps);
      SoundRun(Init(users, requests), steps) ==> RowsOk(t) && SizesOk(t) && JoinsFresh(t)
  {
    hide Inv, InvAlong;
    InitInv(users, requests);
    InvCore(Init(users, requests));
    RunCore(Init(users, requests), steps);
    InvAlongIff(Init(users, requests), steps);
    if SoundRun(Init(users, requests), steps) {
      AlongLast(Init(users, requests), steps);
    }
  }

  lemma InvCore(t: Tables)
    requires Inv(t)
    ensures Core(t)
  {
  }

  lemma AlongLast(t: Tables, steps: seq<Step>)
    requires InvAlong(t, steps)
    ensures RowsOk(Run(t, steps)) && SizesOk(Run(t, steps)) && JoinsFresh(Run(t, steps))
  {
    assert steps[..|steps|] == steps;
  }

  // ------------------------------------------------- who may change what

  lemma ReviewMember(t: Tables, user: Id, id: Id, action: int, counted: bool, c: Id, u: Id)
    requires ReviewCheck(t, user, id, action, counted) == Ok
    ensures var r := ReviewEffect(t, id, action);
      && ((c, u) in t.members ==> Get(r.members, (c, u)) == Get(t.members, (c, u)))
      && ((c, u) !in t.members && (c, u) in r.members ==>
            action == 1 && Get(t.joins, id) == Some(JoinRequest(c, u, Pending)) && Manages(t, user, c))
  {
  }

  lemma DismissMember(t: Tables, user: Id, conv: Id, c: Id, u: Id)
    requires DismissCheck(t, user, conv) == Ok
    ensures conv in t.groups && t.groups[conv].owner == user
    ensures Get(DismissEffect(t, conv).members, (c, u)) == if c == conv then None else Get(t.members, (c, u))
  {
  }

  lemma HandleRequestMember(t: Tables, id: Id, action: int, c: Id, u: Id)
    requires c != t.nextConv
    ensures Get(HandleRequestEffect(t, id, action).members, (c, u)) == Get(t.members, (c, u))
  {
  }

  lemma KickMember(t: Tables, user: Id, conv: Id, target: Id)
    requires KickCheck(t, user, conv, target) == Ok
    ensures (conv, target) in t.members && (conv, user) in t.members
    ensures Rank(t.members[(conv, target)]) < Rank(t.members[(conv, user)])
  {
  }

  lemma SetRoleMember(t: Tables, user: Id, conv: Id, target: Id, role: int)
    requires Core(t) && SetRoleCheck(t, user, conv, target, role) == Ok
    ensures conv in t.groups && t.groups[conv].owner == user && user != target && (conv, target) in t.members
    ensures WithRole(t, conv, target, RoleNumbered(role)) == WithMember(t, conv, target, RoleNumbered(role))
  {
    hide Core;
    Managed(t, user, conv);
  }

  lemma DeleteFriendMember(t: Tables, user: Id, friend: Option<Id>, c: Id, u: Id)
    requires Core(t) && DeleteFriendCheck(t, user, friend) == Ok
    ensures friend.Some?
    ensures var r := DeleteFriendEffect(t, user, friend.value);
      && ((c, u) in r.members ==> Get(t.members, (c, u)) == Get(r.members, (c, u)))
      && ((c, u) in t.members && (c, u) !in r.members ==> c !in t.groups)
  {
    var k := t.friends[(user, friend.value)].conv;
    if k > 0 {
      PrivateChat(t, user, friend.value);
    }
  }

  lemma FreshConv(t: Tables, c: Id)
    requires Core(t) && c in t.convs
    ensures c != t.nextConv
  {
  }

  /** Creating a group, asking to join, updating and befriending leave the members
      of existing conversations alone. */
  lemma Bystander(t: Tables, op: Op, seen: Seen, c: Id, u: Id)
    requires Core(t) && c in t.convs && (op.Create? || op.Join? || op.Update? || op.HandleRequest?)
    ensures Get(Effect(t, op, seen).members, (c, u)) == Get(t.members, (c, u))
  {
    hide CreateEffect, UpdateEffect, HandleRequestEffect;
    hide Core, HasRole, Others;
    FreshConv(t, c);
    if op.Create? {
      CreatedMembers(t, op.user, op.name, op.avatar, op.ids, c, u);
    } else if op.HandleRequest? {
      HandleRequestMember(t, op.request, op.action, c, u);
    }
  }

  /** Who may end the membership of `u` in `c`: `u` unless owner, a member of higher
      rank, the owner with the whole group, and for a private conversation a friend
      deleting the friendship. */
  predicate MayRemove(t: Tables, op: Op, c: Id, u: Id) {
    && (c, u) in t.members
    && match op
       case Leave(user, conv) => user == u && conv == c && t.members[(c, u)] != Owner
       case Kick(user, conv, target) =>
         conv == c && target == u && (c, user) in t.members && Rank(t.members[(c, u)]) < Rank(t.members[(c, user)])
       case Dismiss(user, conv) => conv == c && c in t.groups && t.groups[c].owner == user
       case DeleteFriend(_, _) => c !in t.groups
       case _ => false
  }

  lemma Remover(t: Tables, op: Op, seen: Seen, c: Id, u: Id)
    requires Core(t) && (op.Leave? || op.Kick? || op.Dismiss? || op.DeleteFriend?) && Check(t, op, seen) == Ok
    ensures var r := Effect(t, op, seen);
      && ((c, u) in r.members ==> Get(r.members, (c, u)) == Get(t.members, (c, u)))
      && ((c, u) in t.members && (c, u) !in r.members ==> MayRemove(t, op, c, u))
  {
    hide DismissCheck, LeaveCheck, KickCheck, DeleteFriendCheck, DismissEffect, DeleteFriendEffect;
    hide Core, Rank;
    match op
    case Leave(user, conv) => LeavingMember(t, user, conv);
    case Kick(user, conv, target) => KickMember(t, user, conv, target);
    case Dismiss(user, conv) => DismissMember(t, user, conv, c, u);
    case DeleteFriend(user, friend) => DeleteFriendMember(t, user, friend, c, u);
  }

  /** Who joins an existing conversation had asked to, and was let in by one of
      its managers. */
  lemma JoinedBecause(t: Tables, s: Step, c: Id, u: Id)
    requires Core(t) && c in t.convs
    ensures (c, u) !in t.members && (c, u) in Apply(t, s).members ==>
      && s.op.Review? && s.op.action == 1
      && Get(t.joins, s.op.request) == Some(JoinRequest(c, u, Pending)) && Manages(t, s.op.user, c)
  {
    hide CreateCheck, DismissCheck, JoinCheck, ReviewCheck, LeaveCheck, KickCheck, UpdateCheck, SetRoleCheck,
      HandleRequestCheck, DeleteFriendCheck;
    hide CreateEffect, DismissEffect, ReviewEffect, UpdateEffect, WithRole,
      HandleRequestEffect, DeleteFriendEffect;
    hide Core, MembersOf, Manages, HasRole, Others, Rank, RoleNumbered;
    MemberChange(t, s, c, u);
    if Acts(t, s) && s.op.Review? {
      ReviewMember(t, s.op.user, s.op.request, s.op.action, s.seen.count, c, u);
    } else if Acts(t, s) && s.op.SetRole? {
      SetRoleMember(t, s.op.user, s.op.conv, s.op.target, s.op.role);
    }
  }

  lemma MemberChange(t: Tables, s: Step, c: Id, u: Id)
    requires Core(t) && c in t.convs
    ensures !s.op.Review? && !s.op.SetRole? ==>
      var r := Apply(t, s);
      && ((c, u) in r.members ==> Get(r.members, (c, u)) == Get(t.members, (c, u)))
      && ((c, u) in t.members && (c, u) !in r.members ==> MayRemove(t, s.op, c, u))
  {
    hide Core, Effect, Check, MayRemove;
    if Acts(t, s) {
      if s.op.Create? || s.op.Join? || s.op.Update? || s.op.HandleRequest? {
        Bystander(t, s.op, s.seen, c, u);
      } else if !s.op.Review? && !s.op.SetRole? {
        Remover(t, s.op, s.seen, c, u);
      }
    }
  }

  lemma LeavingMember(t: Tables, user: Id, conv: Id)
    requires LeaveCheck(t, user, conv) == Ok
    ensures (conv, user) in t.members && t.members[(conv, user)] != Owner
  {
  }

  /** Nobody loses membership but by someone who may remove them. */
  lemma LeftBecause(t: Tables, s: Step, c: Id, u: Id)
    requires Core(t) && c in t.convs
    ensures (c, u) in t.members && (c, u) !in Apply(t, s).members ==> MayRemove(t, s.op, c, u)
  {
    hide CreateCheck, DismissCheck, JoinCheck, ReviewCheck, LeaveCheck, KickCheck, UpdateCheck, SetRoleCheck,
      HandleRequestCheck, DeleteFriendCheck;
    hide CreateEffect, DismissEffect, ReviewEffect, UpdateEffect, WithRole,
      HandleRequestEffect, DeleteFriendEffect;
    hide Core, MembersOf, Manages, HasRole, Others, Rank, RoleNumbered;
    hide MayRemove;
    MemberChange(t, s, c, u);
    if Acts(t, s) && s.op.Review? {
      ReviewMember(t, s.op.user, s.op.request, s.op.action, s.seen.count, c, u);
    } else if Acts(t, s) && s.op.SetRole? {
      SetRoleMember(t, s.op.user, s.op.conv, s.op.target, s.op.role);
    }
  }

  /** Only the owner changes roles, never the owner's own. */
  lemma RoleChangedBecause(t: Tables, s: Step, c: Id, u: Id)
    requires Core(t) && c in t.convs
    ensures (c, u) in t.members && (c, u) in Apply(t, s).members && t.members[(c, u)] != Apply(t, s).members[(c, u)] ==>
      && s.op.SetRole? && s.op.conv == c && s.op.target == u
      && c in t.groups && t.groups[c].owner == s.op.user && s.op.user != u
  {
    hide CreateCheck, DismissCheck, JoinCheck, ReviewCheck, LeaveCheck, KickCheck, UpdateCheck, SetRoleCheck,
      HandleRequestCheck, DeleteFriendCheck;
    hide CreateEffect, DismissEffect, ReviewEffect, UpdateEffect, WithRole,
      HandleRequestEffect, DeleteFriendEffect;
    hide Core, MembersOf, Manages, HasRole, Others, Rank, RoleNumbered;
    MemberChange(t, s, c, u);
    if Acts(t, s) && s.op.Review? {
      ReviewMember(t, s.op.user, s.op.request, s.op.action, s.seen.count, c, u);
    } else if Acts(t, s) && s.op.SetRole? {
      SetRoleMember(t, s.op.user, s.op.conv, s.op.target, s.op.role);
    }
  }

  lemma OwnerStays(t: Tables, s: Step, c: Id)
    requires Core(t) && c in t.convs
    ensures c in Apply(t, s).convs
    ensures c in Apply(t, s).groups ==> c in t.groups && Apply(t, s).groups[c].owner == t.groups[c].owner
  {
    FreshConv(t, c);
    hide Check, Core;
    EffectKeepsOwner(t, s.op, s.seen, c);
  }

  lemma EffectKeepsOwner(t: Tables, op: Op, seen: Seen, c: Id)
    requires c in t.convs && c != t.nextConv
    ensures var r := Effect(t, op, seen);
      c in r.convs && (c in r.groups ==> c in t.groups && r.groups[c].owner == t.groups[c].owner)
  {
    hide CreateEffect, DismissEffect, ReviewEffect, UpdateEffect, WithRole, HandleRequestEffect, DeleteFriendEffect;
  }

  /** A group keeps its creator as owner until it is dismissed, and a dismissed
      group never comes back. */
  lemma {:induction false} OwnerForever(t: Tables, steps: seq<Step>, c: Id)
    requires Core(t) && c in t.convs
    ensures c in Run(t, steps).groups ==> c in t.groups && Run(t, steps).groups[c].owner == t.groups[c].owner
    decreases |steps|
  {
    hide Core, Apply;
    if steps != [] {
      OwnerStays(t, steps[0], c);
      ApplyCore(t, steps[0]);
      OwnerForever(Apply(t, steps[0]), steps[1..], c);
    }
  }

  lemma FriendRowsStay(t: Tables, s: Step, p: (Id, Id))
    requires p in t.friends
    ensures p in Apply(t, s).friends
  {
    hide Check;
    EffectKeepsFriendRows(t, s.op, s.seen, p);
  }

  lemma EffectKeepsFriendRows(t: Tables, op: Op, seen: Seen, p: (Id, Id))
    requires p in t.friends
    ensures p in Effect(t, op, seen).friends
  {
    hide CreateEffect, DismissEffect, UpdateEffect, HandleRequestEffect, DeleteFriendEffect, ReviewEffect, WithRole;
  }

  lemma {:induction false} FriendRowsForever(t: Tables, steps: seq<Step>, p: (Id, Id))
    requires p in t.friends
    ensures p in Run(t, steps).friends
    decreases |steps|
  {
    hide Apply;
    if steps != [] {
      FriendRowsStay(t, steps[0], p);
      FriendRowsForever(Apply(t, steps[0]), steps[1..], p);
    }
  }

  /** Two users with a friendship row, even a deleted one, never become friends
      again: every accept between them fails and changes nothing. */
  lemma NeverFriendsAgain(t: Tables, steps: seq<Step>, a: Id, b: Id, user: Id, id: Id)
    requires (a, b) in t.friends
    requires id in Run(t, steps).requests
    requires var fr := Run(t, steps).requests[id];
      (fr.sender == a && fr.receiver == b) || (fr.sender == b && fr.receiver == a)
    ensures HandleRequestCheck(Run(t, steps), user, id, 1) != Ok
    ensures forall ok, seen :: Apply(Run(t, steps), Step.Step(HandleRequest(user, id, 1), ok, seen)) == Run(t, steps)
  {
    FriendRowsForever(t, steps, (a, b));
  }
}
