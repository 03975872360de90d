/** When each group and friend handler accepts, what the tables say after it did, and
    what the next handler therefore answers. Nothing here speaks of how the rows are
    rewritten. */
module GroupOutcomes {
  import opened Wrappers
  import opened Tables
  import opened GroupRules
  import opened GroupInvariant

  /** Members other than those named keep their place and their role. */
  ghost predicate MembersKept(t: Tables, r: Tables, named: set<(Id, Id)>) {
    forall p :: p !in named ==> Get(r.members, p) == Get(t.members, p)
  }

  ghost predicate RequestsKept(t: Tables, r: Tables, id: Id) {
    forall i :: i != id ==> Get(r.joins, i) == Get(t.joins, i)
  }

  // ------------------------------------------------------- when they accept

  lemma CreateAccepts(t: Tables, user: Id, name: string, avatar: string, ids: seq<Id>)
    ensures CreateCheck(t, user, name, avatar, ids) == Ok <==>
      && user != 0 && 1 <= |name| <= 100 && !ContainsControlChars(name) && |avatar| <= 512
      && 3 <= |Others(ids, user)| + 1 <= 500
      && forall u :: u in ids && u != user ==> u in t.users && t.users[u] == Active
  {
    assert forall u :: u in Others(ids, user) <==> u in ids && u != user;
  }

  lemma DismissAccepts(t: Tables, user: Id, c: Id)
    ensures DismissCheck(t, user, c) == Ok <==> user != 0 && c > 0 && c in t.groups && t.groups[c].owner == user
  {
  }

  lemma JoinAccepts(t: Tables, user: Id, c: Id, remark: string)
    ensures JoinCheck(t, user, c, remark, true, true) == Ok <==>
      && user != 0 && c > 0 && c in t.groups && (c, user) !in t.members
      && !Asked(t, c, user) && |remark| <= 200
  {
  }

  lemma ReviewAccepts(t: Tables, user: Id, id: Id, action: int)
    ensures ReviewCheck(t, user, id, action, true) == Ok <==>
      && user != 0 && id > 0 && Waiting(t, id) && Manages(t, user, t.joins[id].conv)
      && (action == 2
          || (&& action == 1 && Get(t.users, t.joins[id].user) == Some(Active)
              && (t.joins[id].conv, t.joins[id].user) !in t.members
              && |MembersOf(t, t.joins[id].conv)| < 500))
  {
  }

  lemma LeaveAccepts(t: Tables, user: Id, c: Id)
    ensures LeaveCheck(t, user, c) == Ok <==>
      user != 0 && c > 0 && (HasRole(t, c, user, Member) || HasRole(t, c, user, Admin))
  {
  }

  lemma KickAccepts(t: Tables, user: Id, c: Id, target: Id)
    ensures KickCheck(t, user, c, target) == Ok <==>
      && user != 0 && c > 0 && target > 0 && target != user
      && ((HasRole(t, c, user, Owner) && (HasRole(t, c, target, Admin) || HasRole(t, c, target, Member)))
          || (HasRole(t, c, user, Admin) && HasRole(t, c, target, Member)))
  {
  }

  lemma UpdateAccepts(t: Tables, user: Id, c: Id, p: Patch)
    ensures UpdateCheck(t, user, c, p) == Ok <==>
      && user != 0 && c > 0 && c in t.groups && Manages(t, user, c)
      && |p.name| <= 100 && !ContainsControlChars(p.name) && |p.avatar| <= 512 && |p.notice| <= 1000
      && (p.name != "" || p.avatar != "" || p.notice != "")
  {
  }

  lemma SetRoleAccepts(t: Tables, user: Id, c: Id, target: Id, role: int)
    ensures SetRoleCheck(t, user, c, target, role) == Ok <==>
      && user != 0 && c > 0 && target > 0 && (role == 0 || role == 1)
      && HasRole(t, c, user, Owner) && (c, target) in t.members && target != user
  {
  }

  lemma HandleRequestAccepts(t: Tables, user: Id, id: Id, action: int)
    ensures HandleRequestCheck(t, user, id, action) == Ok <==>
      && user != 0 && id > 0 && id in t.requests && t.requests[id].receiver == user && t.requests[id].status == Pending
      && (action == 2
          || (&& action == 1 && Get(t.users, t.requests[id].sender) == Some(Active) && t.requests[id].sender != user
              && (t.requests[id].sender, user) !in t.friends && (user, t.requests[id].sender) !in t.friends))
  {
  }

  lemma DeleteFriendAccepts(t: Tables, user: Id, target: Option<Id>)
    ensures DeleteFriendCheck(t, user, target) == Ok <==>
      && user != 0 && target.Some? && target.value in t.users && t.users[target.value] != Erased
      && (user, target.value) in t.friends && t.friends[(user, target.value)].status == Normal
  {
  }

  // ------------------------------------------------- what is so afterwards

  /** Who leaves is no member afterwards, and everybody else keeps place and role. */
  lemma LeaveOutcome(t: Tables, s: Step)
    requires s.op.Leave? && Acts(t, s)
    ensures var r := Apply(t, s);
      && (s.op.conv, s.op.user) !in r.members && MembersKept(t, r, {(s.op.conv, s.op.user)})
      && r == t.(members := r.members) && LeaveCheck(r, s.op.user, s.op.conv) == NotMember
  {
  }

  /** Who is kicked is no member afterwards, and everybody else keeps place and role. */
  lemma KickOutcome(t: Tables, s: Step)
    requires s.op.Kick? && Acts(t, s)
    ensures var r := Apply(t, s);
      && (s.op.conv, s.op.target) !in r.members && MembersKept(t, r, {(s.op.conv, s.op.target)})
      && r == t.(members := r.members) && KickCheck(r, s.op.user, s.op.conv, s.op.target) == NotMember
  {
  }

  /** A dismissed group is gone with all its members, and nothing else is. */
  lemma DismissOutcome(t: Tables, s: Step, u: Id)
    requires s.op.Dismiss? && Acts(t, s)
    ensures var r := Apply(t, s);
      && s.op.conv !in r.groups && (s.op.conv, u) !in r.members
      && (forall p: (Id, Id) :: p.0 != s.op.conv ==> Get(r.members, p) == Get(t.members, p))
      && (forall c :: c != s.op.conv ==> Get(r.groups, c) == Get(t.groups, c))
      && r == t.(members := r.members, groups := r.groups)
      && DismissCheck(r, s.op.user, s.op.conv) == GroupNotFound
      && (u != 0 ==> LeaveCheck(r, u, s.op.conv) == NotMember)
  {
  }

  /** Who has asked to join is waiting, cannot ask again, and any manager can decide. */
  lemma JoinOutcome(t: Tables, s: Step, manager: Id)
    requires s.op.Join? && Acts(t, s) && t.nextJoin > 0
    ensures var r := Apply(t, s);
      && Get(r.joins, t.nextJoin) == Some(JoinRequest(s.op.conv, s.op.user, Pending)) && RequestsKept(t, r, t.nextJoin)
      && r == t.(joins := r.joins, nextJoin := t.nextJoin + 1)
      && ((s.op.conv, s.op.user) !in t.members ==>
            JoinCheck(r, s.op.user, s.op.conv, s.op.remark, true, true) == RequestPending)
      && (manager != 0 && Manages(t, manager, s.op.conv) ==> ReviewCheck(r, manager, t.nextJoin, 2, true) == Ok)
  {
    var r := Apply(t, s);
    assert r.joins[t.nextJoin] == JoinRequest(s.op.conv, s.op.user, Pending);
    assert Asked(r, s.op.conv, s.op.user);
  }

  lemma ReviewedRows(t: Tables, id: Id, action: int)
    requires id in t.joins && (action == 1 || action == 2)
    ensures var r, jr := ReviewEffect(t, id, action), t.joins[id];
      && Get(r.joins, id) == Some(jr.(status := if action == 1 then Accepted else Rejected)) && RequestsKept(t, r, id)
      && MembersKept(t, r, {(jr.conv, jr.user)})
      && Get(r.members, (jr.conv, jr.user)) == (if action == 1 then Some(Member) else Get(t.members, (jr.conv, jr.user)))
      && r == t.(joins := r.joins, members := r.members)
  {
  }

  /** An approved applicant is a plain member; a rejected one is not a member because of
      it; either way the request is decided, and nothing else changes. */
  lemma ReviewOutcome(t: Tables, s: Step)
    requires s.op.Review? && Acts(t, s)
    ensures s.op.request in t.joins
    ensures var r, jr, id := Apply(t, s), t.joins[s.op.request], s.op.request;
      && Get(r.joins, id) == Some(jr.(status := if s.op.action == 1 then Accepted else Rejected)) && RequestsKept(t, r, id)
      && MembersKept(t, r, {(jr.conv, jr.user)})
      && Get(r.members, (jr.conv, jr.user)) == (if s.op.action == 1 then Some(Member) else Get(t.members, (jr.conv, jr.user)))
      && r == t.(joins := r.joins, members := r.members)
      && ReviewCheck(r, s.op.user, id, s.op.action, true) == RequestNotFound
      && (s.op.action == 1 && jr.user != 0 && jr.conv > 0 ==> LeaveCheck(r, jr.user, jr.conv) == Ok)
  {
    hide ReviewEffect, MembersKept, RequestsKept;
    ReviewedRows(t, s.op.request, s.op.action);
  }

  /** Role 1 makes a manager and role 0 a plain member, and only the target's role
      changes. */
  lemma SetRoleOutcome(t: Tables, s: Step)
    requires s.op.SetRole? && Acts(t, s)
    ensures var r := Apply(t, s);
      && (Manages(r, s.op.target, s.op.conv) <==> s.op.role == 1)
      && Get(r.members, (s.op.conv, s.op.target)) == Some(if s.op.role == 1 then Admin else Member)
      && MembersKept(t, r, {(s.op.conv, s.op.target)}) && r == t.(members := r.members)
  {
  }

  /** What a part of a patch makes of an old value. */
  predicate Changed(part: string, before: string, after: string) {
    if part == "" then after == before else after == part
  }

  lemma UpdatedRows(t: Tables, c: Id, p: Patch, synced: bool)
    requires c in t.groups
    ensures c in UpdateEffect(t, c, p, synced).groups
    ensures var r := UpdateEffect(t, c, p, synced);
      var g, h := t.groups[c], r.groups[c];
      && Changed(p.name, g.name, h.name) && Changed(p.avatar, g.avatar, h.avatar) && h.owner == g.owner
      && (if p.notice == "\0" then h.notice == "" else Changed(p.notice, g.notice, h.notice))
      && (forall d :: d != c ==> Get(r.groups, d) == Get(t.groups, d) && Get(r.convs, d) == Get(t.convs, d))
      && r == t.(groups := r.groups, convs := r.convs)
      && (!synced ==> r.convs == t.convs)
      && (synced && c in t.convs ==>
            && c in r.convs && Changed(p.name, t.convs[c].name, r.convs[c].name)
            && Changed(p.avatar, t.convs[c].avatar, r.convs[c].avatar)
            && r.convs[c] == t.convs[c].(name := r.convs[c].name, avatar := r.convs[c].avatar))
  {
  }

  /** Each part given is the group's afterwards and each part left out stays; a notice
      of one NUL clears it; the conversation's row says the same if it was found. */
  lemma UpdateOutcome(t: Tables, s: Step)
    requires s.op.Update? && Acts(t, s)
    ensures s.op.conv in t.groups && s.op.conv in Apply(t, s).groups
    ensures var r, c, p := Apply(t, s), s.op.conv, s.op.patch;
      var g, h := t.groups[c], r.groups[c];
      && Changed(p.name, g.name, h.name) && Changed(p.avatar, g.avatar, h.avatar) && h.owner == g.owner
      && (if p.notice == "\0" then h.notice == "" else Changed(p.notice, g.notice, h.notice))
      && (forall d :: d != c ==> Get(r.groups, d) == Get(t.groups, d) && Get(r.convs, d) == Get(t.convs, d))
      && r == t.(groups := r.groups, convs := r.convs)
      && (!s.seen.conv ==> r.convs == t.convs)
      && (s.seen.conv && c in t.convs ==>
            && c in r.convs && Changed(p.name, t.convs[c].name, r.convs[c].name)
            && Changed(p.avatar, t.convs[c].avatar, r.convs[c].avatar)
            && r.convs[c] == t.convs[c].(name := r.convs[c].name, avatar := r.convs[c].avatar))
  {
    hide UpdateEffect, Changed, PatchCheck;
    UpdatedRows(t, s.op.conv, s.op.patch, s.seen.conv);
  }

  /** A new group has its creator as owner, who cannot leave but can dismiss it, and
      exactly the others as plain members. */
  lemma CreateOutcome(t: Tables, s: Step, u: Id)
    requires s.op.Create? && Acts(t, s) && FreshId(t) && t.nextConv > 0
    ensures var r, c, op := Apply(t, s), t.nextConv, s.op;
      && Get(r.groups, c) == Some(Group(op.name, op.avatar, op.user, ""))
      && Get(r.convs, c) == Some(Conv(true, op.name, op.avatar, op.user))
      && Get(r.members, (c, u)) == (if u == op.user then Some(Owner) else if u in op.ids then Some(Member) else None)
      && (forall p: (Id, Id) :: p.0 != c ==> Get(r.members, p) == Get(t.members, p))
      && (forall d :: d != c ==> Get(r.groups, d) == Get(t.groups, d) && Get(r.convs, d) == Get(t.convs, d))
      && r == t.(groups := r.groups, convs := r.convs, members := r.members, nextConv := c + 1)
      && LeaveCheck(r, op.user, c) == OwnerCannotLeave && DismissCheck(r, op.user, c) == Ok
  {
    var op, r, c := s.op, Apply(t, s), t.nextConv;
    CreatedRows(t, op.user, op.name, op.avatar, op.ids);
    CreatedMembers(t, op.user, op.name, op.avatar, op.ids, c, u);
    CreatedMembers(t, op.user, op.name, op.avatar, op.ids, c, op.user);
    assert u in Others(op.ids, op.user) <==> u in op.ids && u != op.user;
    forall p: (Id, Id) | p.0 != c ensures Get(r.members, p) == Get(t.members, p) {
      CreatedMembers(t, op.user, op.name, op.avatar, op.ids, p.0, p.1);
      assert p == (p.0, p.1);
    }
    hide CreateEffect, CreateCheck, Others;
  }

  lemma BefriendedRows(t: Tables, a: Id, b: Id)
    requires FreshId(t) && a != b
    ensures var r, c := Befriended(t, a, b), t.nextConv;
      && Get(r.friends, (a, b)) == Some(Friendship(c, Normal)) && Get(r.friends, (b, a)) == Some(Friendship(c, Normal))
      && Get(r.convs, c) == Some(Conv(false, "", "", 0))
      && Get(r.members, (c, a)) == Some(Member) && Get(r.members, (c, b)) == Some(Member)
      && MembersKept(t, r, {(c, a), (c, b)})
      && (forall p :: p != (a, b) && p != (b, a) ==> Get(r.friends, p) == Get(t.friends, p))
      && (forall d :: d != c ==> Get(r.convs, d) == Get(t.convs, d))
      && r == t.(friends := r.friends, convs := r.convs, members := r.members, nextConv := c + 1)
  {
  }

  /** A decided request says so, and no other request changes. */
  lemma HandledRequest(t: Tables, s: Step)
    requires s.op.HandleRequest? && Acts(t, s)
    ensures s.op.request in t.requests && t.requests[s.op.request].receiver == s.op.user
    ensures s.op.action == 1 ==> t.requests[s.op.request].sender != s.op.user
    ensures var r, id := Apply(t, s), s.op.request;
      && Get(r.requests, id) == Some(t.requests[id].(status := if s.op.action == 1 then Accepted else Rejected))
      && (forall i :: i != id ==> Get(r.requests, i) == Get(t.requests, i))
      && (s.op.action == 2 ==> r == t.(requests := r.requests))
      && (s.op.action == 1 ==> r == Befriended(t.(requests := r.requests), t.requests[id].sender, t.requests[id].receiver))
  {
    HandleRequestAccepts(t, s.op.user, s.op.request, s.op.action);
    hide Befriended;
  }

  /** An accepted friend request makes both friends in a private conversation of their
      own, and either can end it. */
  lemma AcceptedOutcome(t: Tables, s: Step)
    requires s.op.HandleRequest? && Acts(t, s) && s.op.action == 1 && FreshId(t)
    ensures s.op.request in t.requests
    ensures var r, id := Apply(t, s), s.op.request;
      var a, b, c := t.requests[id].sender, t.requests[id].receiver, t.nextConv;
      && a != b && Get(r.friends, (a, b)) == Some(Friendship(c, Normal)) && Get(r.friends, (b, a)) == Some(Friendship(c, Normal))
      && Get(r.convs, c) == Some(Conv(false, "", "", 0))
      && Get(r.members, (c, a)) == Some(Member) && Get(r.members, (c, b)) == Some(Member)
      && MembersKept(t, r, {(c, a), (c, b)})
      && (forall p :: p != (a, b) && p != (b, a) ==> Get(r.friends, p) == Get(t.friends, p))
      && (forall d :: d != c ==> Get(r.convs, d) == Get(t.convs, d))
      && r == t.(requests := r.requests, friends := r.friends, convs := r.convs, members := r.members, nextConv := c + 1)
      && (b in t.users && t.users[b] != Erased && a != 0 ==> DeleteFriendCheck(r, a, Some(b)) == Ok)
      && DeleteFriendCheck(r, b, Some(a)) == Ok
  {
    hide Befriended, MembersKept, Apply;
    var id := s.op.request;
    HandleRequestAccepts(t, s.op.user, id, 1);
    HandledRequest(t, s);
    var d := t.(requests := Apply(t, s).requests);
    BefriendedRows(d, t.requests[id].sender, t.requests[id].receiver);
    KeptSame(t, d, Apply(t, s), {(t.nextConv, t.requests[id].sender), (t.nextConv, t.requests[id].receiver)});
  }

  lemma KeptSame(t: Tables, d: Tables, r: Tables, named: set<(Id, Id)>)
    requires d.members == t.members && MembersKept(d, r, named)
    ensures MembersKept(t, r, named)
  {
  }

  lemma DeletedRows(t: Tables, a: Id, b: Id)
    requires (a, b) in t.friends
    ensures var r, c := DeleteFriendEffect(t, a, b), t.friends[(a, b)].conv;
      && Get(r.friends, (a, b)) == Some(Friendship(c, Deleted))
      && ((b, a) in t.friends ==> Get(r.friends, (b, a)) == Some(t.friends[(b, a)].(status := Deleted)))
      && (forall p :: p != (a, b) && p != (b, a) ==> Get(r.friends, p) == Get(t.friends, p))
      && (c > 0 ==> (c, a) !in r.members && (c, b) !in r.members)
      && MembersKept(t, r, if c > 0 then {(c, a), (c, b)} else {})
      && r == t.(friends := r.friends, members := r.members)
  {
    var c := t.friends[(a, b)].conv;
    var m := WithFriendStatus(WithFriendStatus(t, a, b, Deleted), b, a, Deleted);
    var r := DeleteFriendEffect(t, a, b);
    MarkedRows(t, a, b);
    assert r == if c > 0 then WithoutMember(WithoutMember(m, c, a), c, b) else m;
    hide DeleteFriendEffect, WithFriendStatus;
    assert m.members == t.members && r.friends == m.friends;
  }

  lemma MarkedRows(t: Tables, a: Id, b: Id)
    requires (a, b) in t.friends
    ensures var m := WithFriendStatus(WithFriendStatus(t, a, b, Deleted), b, a, Deleted);
      && Get(m.friends, (a, b)) == Some(Friendship(t.friends[(a, b)].conv, Deleted))
      && ((b, a) in t.friends ==> Get(m.friends, (b, a)) == Some(t.friends[(b, a)].(status := Deleted)))
      && (forall p :: p != (a, b) && p != (b, a) ==> Get(m.friends, p) == Get(t.friends, p))
      && m == t.(friends := m.friends)
  {
  }

  /** A friend deleted is no friend afterwards, either way; both are out of their
      conversation; nothing else changes. */
  lemma DeleteFriendOutcome(t: Tables, s: Step)
    requires s.op.DeleteFriend? && Acts(t, s)
    ensures s.op.friend.Some? && (s.op.user, s.op.friend.value) in t.friends
    ensures var r, a, b := Apply(t, s), s.op.user, s.op.friend.value;
      var c := t.friends[(a, b)].conv;
      && Get(r.friends, (a, b)) == Some(Friendship(c, Deleted))
      && ((b, a) in t.friends ==> Get(r.friends, (b, a)) == Some(t.friends[(b, a)].(status := Deleted)))
      && (forall p :: p != (a, b) && p != (b, a) ==> Get(r.friends, p) == Get(t.friends, p))
      && (c > 0 ==> (c, a) !in r.members && (c, b) !in r.members)
      && MembersKept(t, r, if c > 0 then {(c, a), (c, b)} else {})
      && r == t.(friends := r.friends, members := r.members)
      && DeleteFriendCheck(r, a, Some(b)) == NotFriends
  {
    hide DeleteFriendEffect, MembersKept;
    DeletedRows(t, s.op.user, s.op.friend.value);
  }

  // ------------------------------------------------- roles from the history

  /** What a handler that acts says about one member of one conversation: nothing, that
      it has this role from now on, or that it is out. */
  datatype Word = Nothing | Has(role: Role) | Out

  function Said(t: Tables, op: Op, c: Id, u: Id): Word {
    match op
    case Create(user, _, _, ids) =>
      if c != t.nextConv then Nothing else if u == user then Has(Owner) else if u in ids then Has(Member) else Nothing
    case Dismiss(_, conv) => if conv == c then Out else Nothing
    case Review(_, id, action) =>
      if action == 1 && id in t.joins && t.joins[id].conv == c && t.joins[id].user == u then Has(Member) else Nothing
    case Leave(user, conv) => if conv == c && user == u then Out else Nothing
    case Kick(_, conv, target) => if conv == c && target == u then Out else Nothing
    case SetRole(_, conv, target, role) =>
      if conv == c && target == u then Has(if role == 1 then Admin else Member) else Nothing
    case HandleRequest(_, id, action) =>
      if action == 1 && id in t.requests && c == t.nextConv && (u == t.requests[id].sender || u == t.requests[id].receiver)
      then Has(Member) else Nothing
    case DeleteFriend(user, friend) =>
      if friend.Some? && (user, friend.value) in t.friends && c > 0 && t.friends[(user, friend.value)].conv == c
        && (u == user || u == friend.value)
      then Out else Nothing
    case _ => Nothing
  }

  function Outcome(w: Word, before: Option<Role>): Option<Role> {
    match w
    case Nothing => before
    case Has(role) => Some(role)
    case Out => None
  }

  /** The last word on a member along a run. */
  function LastSaid(t: Tables, steps: seq<Step>, c: Id, u: Id): Word
    decreases |steps|
  {
    if steps == [] then Nothing
    else
      var later := LastSaid(Apply(t, steps[0]), steps[1..], c, u);
      if later != Nothing then later else if Acts(t, steps[0]) then Said(t, steps[0].op, c, u) else Nothing
  }

  lemma SaidByCreate(t: Tables, s: Step, c: Id, u: Id)
    requires Core(t) && Acts(t, s) && s.op.Create?
    ensures Get(Apply(t, s).members, (c, u)) == Outcome(Said(t, s.op, c, u), Get(t.members, (c, u)))
  {
    FreshUnused(t);
    assert t.nextConv > 0;
    hide Core, LeaveCheck, DismissCheck, Apply, Acts;
    CreateOutcome(t, s, u);
  }

  lemma SaidByAccepting(t: Tables, s: Step, c: Id, u: Id)
    requires FreshId(t) && Acts(t, s) && s.op.HandleRequest? && s.op.action == 1
    ensures Get(Apply(t, s).members, (c, u)) == Outcome(Said(t, s.op, c, u), Get(t.members, (c, u)))
  {
    hide DeleteFriendCheck, FreshId, Apply, Acts;
    AcceptedOutcome(t, s);
  }

  lemma RejectingIsNoRole(t: Tables, s: Step)
    requires Acts(t, s) && s.op.HandleRequest? && s.op.action != 1
    ensures Apply(t, s).members == t.members
  {
    hide Befriended, Apply;
    HandleRequestAccepts(t, s.op.user, s.op.request, s.op.action);
    HandledRequest(t, s);
  }

  lemma SaidByFriend(t: Tables, s: Step, c: Id, u: Id)
    requires Core(t) && Acts(t, s) && s.op.HandleRequest?
    ensures Get(Apply(t, s).members, (c, u)) == Outcome(Said(t, s.op, c, u), Get(t.members, (c, u)))
  {
    hide Core, FreshId, Apply, Acts;
    FreshUnused(t);
    if s.op.action == 1 {
      SaidByAccepting(t, s, c, u);
    } else {
      RejectingIsNoRole(t, s);
    }
  }

  lemma AskingIsNoRole(t: Tables, s: Step)
    requires s.op.Join? && Acts(t, s)
    ensures Apply(t, s).members == t.members
  {
  }

  lemma SaidByRemover(t: Tables, s: Step, c: Id, u: Id)
    requires Acts(t, s) && (s.op.Leave? || s.op.Kick? || s.op.Dismiss? || s.op.DeleteFriend?)
    ensures Get(Apply(t, s).members, (c, u)) == Outcome(Said(t, s.op, c, u), Get(t.members, (c, u)))
  {
    hide LeaveCheck, KickCheck, DismissCheck, DeleteFriendCheck, Apply, Acts;
    if s.op.Leave? {
      LeaveOutcome(t, s);
    } else if s.op.Kick? {
      KickOutcome(t, s);
    } else if s.op.Dismiss? {
      DismissOutcome(t, s, u);
    } else {
      DeleteFriendOutcome(t, s);
    }
  }

  lemma SaidByOther(t: Tables, s: Step, c: Id, u: Id)
    requires Acts(t, s) && (s.op.Join? || s.op.Review? || s.op.Update? || s.op.SetRole?)
    ensures Get(Apply(t, s).members, (c, u)) == Outcome(Said(t, s.op, c, u), Get(t.members, (c, u)))
  {
    hide LeaveCheck, ReviewCheck, Apply, Acts, Manages, RequestsKept, Changed;
    if s.op.Join? {
      AskingIsNoRole(t, s);
    } else if s.op.Review? {
      ReviewOutcome(t, s);
    } else if s.op.Update? {
      UpdateOutcome(t, s);
    } else {
      SetRoleOutcome(t, s);
    }
  }

  lemma SaidIsSo(t: Tables, s: Step, c: Id, u: Id)
    requires Core(t)
    ensures Get(Apply(t, s).members, (c, u))
         == Outcome(if Acts(t, s) then Said(t, s.op, c, u) else Nothing, Get(t.members, (c, u)))
  {
    hide Core, Said, Check, Effect;
    if Acts(t, s) {
      if s.op.Create? {
        SaidByCreate(t, s, c, u);
      } else if s.op.HandleRequest? {
        SaidByFriend(t, s, c, u);
      } else if s.op.Leave? || s.op.Kick? || s.op.Dismiss? || s.op.DeleteFriend? {
        SaidByRemover(t, s, c, u);
      } else {
        SaidByOther(t, s, c, u);
      }
    }
  }

  /** After any run, whichever calls fail, everybody's membership and role are what the
      last handler that acted on them said. */
  lemma {:induction false} RolesTellHistory(t: Tables, steps: seq<Step>, c: Id, u: Id)
    requires Core(t)
    ensures Get(Run(t, steps).members, (c, u)) == Outcome(LastSaid(t, steps, c, u), Get(t.members, (c, u)))
    decreases |steps|
  {
    hide Core, Apply, Said, Acts;
    if steps != [] {
      SaidIsSo(t, steps[0], c, u);
      ApplyCore(t, steps[0]);
      RolesTellHistory(Apply(t, steps[0]), steps[1..], c, u);
    }
  }
}
