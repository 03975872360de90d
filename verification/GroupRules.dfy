/** What each handler of server/service/group_service.cpp, and the accept and
    delete handlers of server/service/friend_service.cpp, answer and change: the
    answer (tests in the order of the source) and the new tables. The lookups whose
    failure lets a handler go on are parameters. */
module GroupRules {
  import opened Wrappers
  import opened Tables

  const MAX_GROUP_MEMBERS := 500

  datatype Code =
    | Ok
    | NotAuthenticated | InvalidBody | DatabaseError
    | NameRequired | NameTooLong | NoticeTooLong | NothingToUpdate
    | NotEnoughMembers | UserNotFound
    | GroupNotFound | NotOwner | NotMember | NotAdminOrOwner
    | AlreadyMember | RequestPending | RequestNotFound
    | OwnerCannotLeave | CannotKickSelf | CannotKickHigherRole | InvalidRole
    | RequestIdRequired | InvalidAction | TargetUidRequired | NotFriends

  predicate ContainsControlChars(s: string) {
    exists i :: 0 <= i < |s| && (s[i] < ' ' || s[i] == 0x7F as char)
  }

  /** A non-empty name is acceptable. */
  function NameCheck(name: string): Code {
    if |name| > 100 then NameTooLong
    else if ContainsControlChars(name) then NameRequired
    else Ok
  }

  // -------------------------------------------------------------- create

  /** The requested members without repetition and without the creator. */
  function Others(ids: seq<Id>, user: Id): set<Id> {
    set u | u in ids && u != user
  }

  function Seats(c: Id, us: set<Id>): set<(Id, Id)> {
    set u | u in us :: (c, u)
  }

  function WithMembers(t: Tables, c: Id, us: set<Id>): (r: Tables)
    ensures r == t.(members := r.members)
  {
    t.(members := t.members + (map p | p in Seats(c, us) :: Member))
  }

  predicate AllOthersActive(t: Tables, ids: seq<Id>, user: Id) {
    forall u :: u in Others(ids, user) ==> u in t.users && t.users[u] == Active
  }

  function CreateCheck(t: Tables, user: Id, name: string, avatar: string, ids: seq<Id>): Code {
    var others := Others(ids, user);
    if user == 0 then NotAuthenticated
    else if name == "" then NameRequired
    else if NameCheck(name) != Ok then NameCheck(name)
    else if |avatar| > 512 then InvalidBody
    else if |others| < 2 then NotEnoughMembers
    else if |others| + 1 > MAX_GROUP_MEMBERS then InvalidBody
    else if !AllOthersActive(t, ids, user) then UserNotFound
    else Ok
  }

  function CreateEffect(t: Tables, user: Id, name: string, avatar: string, ids: seq<Id>): (r: Tables)
    ensures r == t.(convs := r.convs, groups := r.groups, members := r.members, nextConv := r.nextConv)
    ensures forall c :: c in t.convs ==> c in r.convs
    ensures forall c :: c in r.groups && c != t.nextConv ==> c in t.groups && r.groups[c] == t.groups[c]
  {
    var c := t.nextConv;
    var r := t.(convs := t.convs[c := Conv(true, name, avatar, user)],
                groups := t.groups[c := Group(name, avatar, user, "")],
                nextConv := c + 1);
    WithMembers(WithMember(r, c, user, Owner), c, Others(ids, user))
  }

  // ------------------------------------------------------------- dismiss

  function DismissCheck(t: Tables, user: Id, c: Id): Code {
    if user == 0 then NotAuthenticated
    else if c <= 0 then InvalidBody
    else if c !in t.groups then GroupNotFound
    else if t.groups[c].owner != user then NotOwner
    else Ok
  }

  function DismissEffect(t: Tables, c: Id): (r: Tables)
    ensures r == t.(groups := t.groups - {c}, members := r.members)
  {
    WithoutMembers(t.(groups := t.groups - {c}), c)
  }

  // ---------------------------------------------------------- join, review

  /** `member` and `pending` tell whether the two lookups worked: one that fails
      finds nothing, and the request goes on. */
  function JoinCheck(t: Tables, user: Id, c: Id, remark: string, member: bool, pending: bool): Code {
    if user == 0 then NotAuthenticated
    else if c <= 0 then InvalidBody
    else if c !in t.groups then GroupNotFound
    else if member && (c, user) in t.members then AlreadyMember
    else if pending && Asked(t, c, user) then RequestPending
    else if |remark| > 200 then InvalidBody
    else Ok
  }

  function JoinEffect(t: Tables, user: Id, c: Id): Tables {
    t.(joins := t.joins[t.nextJoin := JoinRequest(c, user, Pending)], nextJoin := t.nextJoin + 1)
  }

  /** Owner or admin. */
  predicate Manages(t: Tables, user: Id, c: Id) {
    (c, user) in t.members && t.members[(c, user)] != Member
  }

  /** Whether there is a seat for the applicant; a count that fails gives 0. */
  function SeatCheck(t: Tables, r: JoinRequest, counted: bool): Code {
    if counted && |MembersOf(t, r.conv)| >= MAX_GROUP_MEMBERS then InvalidBody
    else if (r.conv, r.user) in t.members then DatabaseError
    else Ok
  }

  /** The request is open and the user manages its group. */
  function OpenCheck(t: Tables, user: Id, id: Id, action: int): Code {
    if user == 0 then NotAuthenticated
    else if id <= 0 || (action != 1 && action != 2) then InvalidBody
    else if id !in t.joins || t.joins[id].status != Pending then RequestNotFound
    else if !Manages(t, user, t.joins[id].conv) then NotAdminOrOwner
    else Ok
  }

  function ReviewCheck(t: Tables, user: Id, id: Id, action: int, counted: bool): Code {
    var open := OpenCheck(t, user, id, action);
    if open != Ok then open
    else if action == 2 then Ok
    else
      var r := t.joins[id];
      if r.user !in t.users || t.users[r.user] != Active then UserNotFound
      else SeatCheck(t, r, counted)
  }

  function ReviewEffect(t: Tables, id: Id, action: int): (r: Tables)
    ensures r == t.(members := r.members, joins := r.joins)
  {
    if id !in t.joins then t
    else if action == 2 then WithJoinStatus(t, id, Rejected)
    else WithJoinStatus(WithMember(t, t.joins[id].conv, t.joins[id].user, Member), id, Accepted)
  }

  // ---------------------------------------------------------- leave, kick

  function LeaveCheck(t: Tables, user: Id, c: Id): Code {
    if user == 0 then NotAuthenticated
    else if c <= 0 then InvalidBody
    else if (c, user) !in t.members then NotMember
    else if t.members[(c, user)] == Owner then OwnerCannotLeave
    else Ok
  }

  function KickCheck(t: Tables, user: Id, c: Id, target: Id): Code {
    if user == 0 then NotAuthenticated
    else if c <= 0 || target <= 0 then InvalidBody
    else if target == user then CannotKickSelf
    else if !Manages(t, user, c) then NotAdminOrOwner
    else if (c, target) !in t.members then NotMember
    else if Rank(t.members[(c, target)]) >= Rank(t.members[(c, user)]) then CannotKickHigherRole
    else Ok
  }

  // --------------------------------------------------------------- update

  datatype Patch = Patch(name: string, avatar: string, notice: string)

  function PatchCheck(p: Patch): Code {
    if p.name != "" && NameCheck(p.name) != Ok then NameCheck(p.name)
    else if |p.avatar| > 512 then InvalidBody
    else if |p.notice| > 1000 then NoticeTooLong
    else if p == Patch("", "", "") then NothingToUpdate
    else Ok
  }

  function UpdateCheck(t: Tables, user: Id, c: Id, p: Patch): Code {
    if user == 0 then NotAuthenticated
    else if c <= 0 then InvalidBody
    else if !Manages(t, user, c) then NotAdminOrOwner
    else if c !in t.groups then GroupNotFound
    else PatchCheck(p)
  }

  /** Empty parts of a patch keep the old value; a notice of one NUL clears it. */
  function Patched(g: Group, p: Patch): Group {
    Group(if p.name == "" then g.name else p.name,
          if p.avatar == "" then g.avatar else p.avatar,
          g.owner,
          if p.notice == "" then g.notice else if p.notice == "\0" then "" else p.notice)
  }

  /** `synced` tells whether the conversation row was found and rewritten too. */
  function UpdateEffect(t: Tables, c: Id, p: Patch, synced: bool): (r: Tables)
    ensures r == t.(groups := r.groups, convs := r.convs) && r.convs.Keys == t.convs.Keys
    ensures forall d :: d in r.groups ==> d in t.groups && r.groups[d].owner == t.groups[d].owner
  {
    if c !in t.groups then t
    else
      var g := Patched(t.groups[c], p);
      var r := t.(groups := t.groups[c := g]);
      if synced && c in t.convs then
        var v := t.convs[c];
        r.(convs := t.convs[c := v.(name := if p.name == "" then v.name else g.name,
                                    avatar := if p.avatar == "" then v.avatar else g.avatar)])
      else r
  }

  // -------------------------------------------------------------- set role

  function SetRoleCheck(t: Tables, user: Id, c: Id, target: Id, role: int): Code {
    if user == 0 then NotAuthenticated
    else if c <= 0 || target <= 0 then InvalidBody
    else if role != 0 && role != 1 then InvalidRole
    else if (c, user) !in t.members || t.members[(c, user)] != Owner then NotOwner
    else if (c, target) !in t.members then NotMember
    else if target == user then CannotKickSelf
    else Ok
  }

  function RoleNumbered(role: int): Role {
    if role == 0 then Member else if role == 1 then Admin else Owner
  }

  // -------------------------------------------------------- friend requests

  /** Two people without a friendship row, not even a deleted or blocked one. */
  predicate Unrelated(t: Tables, a: Id, b: Id) {
    a != b && (a, b) !in t.friends && (b, a) !in t.friends
  }

  function HandleRequestCheck(t: Tables, user: Id, id: Id, action: int): Code {
    if user == 0 then NotAuthenticated
    else if id <= 0 then RequestIdRequired
    else if action != 1 && action != 2 then InvalidAction
    else if id !in t.requests || t.requests[id].receiver != user || t.requests[id].status != Pending then
      RequestNotFound
    else
      var r := t.requests[id];
      if action == 2 then Ok
      else if r.sender !in t.users || t.users[r.sender] != Active then UserNotFound
      else if !Unrelated(t, r.sender, r.receiver) then DatabaseError
      else Ok
  }

  /** A private conversation with both users, and a friendship row for each. */
  function Befriended(t: Tables, a: Id, b: Id): Tables {
    var c := t.nextConv;
    var f := Friendship(c, Normal);
    t.(convs := t.convs[c := Conv(false, "", "", 0)],
       members := t.members[(c, a) := Member][(c, b) := Member],
       friends := t.friends[(a, b) := f][(b, a) := f],
       nextConv := c + 1)
  }

  function HandleRequestEffect(t: Tables, id: Id, action: int): (r: Tables)
    ensures r == t.(requests := r.requests, convs := r.convs, members := r.members, friends := r.friends, nextConv := r.nextConv)
    ensures forall c :: c in t.convs ==> c in r.convs
    ensures forall p :: p in t.friends ==> p in r.friends
  {
    if id !in t.requests then t
    else if action == 2 then WithRequestStatus(t, id, Rejected)
    else Befriended(WithRequestStatus(t, id, Accepted), t.requests[id].sender, t.requests[id].receiver)
  }

  function DeleteFriendCheck(t: Tables, user: Id, target: Option<Id>): Code {
    if user == 0 then NotAuthenticated
    else if target == None then TargetUidRequired
    else if target.value !in t.users || t.users[target.value] == Erased then UserNotFound
    else if (user, target.value) !in t.friends || t.friends[(user, target.value)].status != Normal then NotFriends
    else Ok
  }

  function DeleteFriendEffect(t: Tables, user: Id, target: Id): (r: Tables)
    ensures r == t.(members := r.members, friends := r.friends)
    ensures forall p :: p in t.friends ==> p in r.friends
  {
    if (user, target) !in t.friends then t
    else
      var c := t.friends[(user, target)].conv;
      var r := WithFriendStatus(WithFriendStatus(t, user, target, Deleted), target, user, Deleted);
      if c > 0 then WithoutMember(WithoutMember(r, c, user), c, target) else r
  }
}
