/** The rows behind groups and friendships, and what the DAO calls do to them
    (server/model/types.h, server/dao/impl/{conversation,group,friend}_dao_impl.cpp).
    A UNIQUE key of the schema is the key of a map. */
module Tables {
  import opened Wrappers

  type Id = int

  datatype Role = Member | Admin | Owner

  /** The numeric value of MemberRole, by which roles are compared. */
  function Rank(r: Role): nat {
    match r
    case Member => 0
    case Admin => 1
    case Owner => 2
  }

  datatype Account = Active | Banned | Erased

  datatype Conv = Conv(isGroup: bool, name: string, avatar: string, owner: Id)

  datatype Group = Group(name: string, avatar: string, owner: Id, notice: string)

  datatype RequestStatus = Pending | Accepted | Rejected

  datatype JoinRequest = JoinRequest(conv: Id, user: Id, status: RequestStatus)

  datatype FriendRequest = FriendRequest(sender: Id, receiver: Id, status: RequestStatus)

  datatype FriendStatus = Normal | Blocked | Deleted

  datatype Friendship = Friendship(conv: Id, status: FriendStatus)

  /** Groups are keyed by conversation, members by (conversation, user) and
      friendships by (user, friend). */
  datatype Tables = Tables(
    users: map<Id, Account>,
    convs: map<Id, Conv>,
    groups: map<Id, Group>,
    members: map<(Id, Id), Role>,
    joins: map<Id, JoinRequest>,
    requests: map<Id, FriendRequest>,
    friends: map<(Id, Id), Friendship>,
    nextConv: Id,
    nextJoin: Id)

  function Get<K, V>(m: map<K, V>, k: K): Option<V> {
    if k in m then Some(m[k]) else None
  }

  function AsSet(ids: seq<Id>): set<Id> {
    set u | u in ids
  }

  lemma AsSetAppend(ids: seq<Id>, i: nat)
    requires i < |ids|
    ensures AsSet(ids[..i + 1]) == AsSet(ids[..i]) + {ids[i]}
  {
    assert ids[..i + 1] == ids[..i] + [ids[i]];
  }

  function MembersOf(t: Tables, c: Id): set<Id> {
    set p | p in t.members && p.0 == c :: p.1
  }

  lemma MembersOfHas(t: Tables, c: Id, u: Id)
    ensures u in MembersOf(t, c) <==> (c, u) in t.members
  {
    assert (c, u) in t.members ==> (c, u).1 in MembersOf(t, c);
  }

  /** The user waits for an answer of this group. */
  predicate Asked(t: Tables, c: Id, u: Id) {
    exists id :: id in t.joins && t.joins[id] == JoinRequest(c, u, Pending)
  }

  /** The next conversation id is unused. */
  predicate FreshId(t: Tables) {
    forall p :: p in t.members ==> p.0 != t.nextConv
  }

  function WithMember(t: Tables, c: Id, u: Id, r: Role): Tables {
    t.(members := t.members[(c, u) := r])
  }

  function WithoutMember(t: Tables, c: Id, u: Id): Tables {
    t.(members := t.members - {(c, u)})
  }

  function WithoutMembers(t: Tables, c: Id): Tables {
    t.(members := map p | p in t.members && p.0 != c :: t.members[p])
  }

  function WithRole(t: Tables, c: Id, u: Id, role: Role): (r: Tables)
    ensures r == t.(members := r.members)
  {
    if (c, u) in t.members then WithMember(t, c, u, role) else t
  }

  function WithJoinStatus(t: Tables, id: Id, s: RequestStatus): Tables {
    if id in t.joins then t.(joins := t.joins[id := t.joins[id].(status := s)]) else t
  }

  function WithRequestStatus(t: Tables, id: Id, s: RequestStatus): Tables {
    if id in t.requests then t.(requests := t.requests[id := t.requests[id].(status := s)]) else t
  }

  function WithFriendStatus(t: Tables, a: Id, b: Id, s: FriendStatus): Tables {
    if (a, b) in t.friends then t.(friends := t.friends[(a, b) := t.friends[(a, b)].(status := s)]) else t
  }

  function FoundUsers(t: Tables, ids: seq<Id>): map<Id, Account> {
    map u | u in ids && u in t.users && t.users[u] != Erased :: t.users[u]
  }
}
