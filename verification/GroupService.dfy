/** The group handlers of server/service/group_service.cpp, step by step over a
    database whose calls may fail anywhere. Each answers Ok with all of its writes
    done, or anything else with the tables untouched. */
module GroupService {
  import opened Collections
  import opened Wrappers
  import opened Tables
  import opened Store
  import opened GroupRules

  /** The sorted, duplicate-free member list without the creator. */
  method Distinct(ids: seq<Id>, user: Id) returns (r: seq<Id>)
    ensures forall i, j :: 0 <= i < j < |r| ==> r[i] < r[j]
    ensures AsSet(r) == Others(ids, user) && |r| == |Others(ids, user)|
  {
    r := [];
    var k := 0;
    while k < |ids|
      invariant 0 <= k <= |ids|
      invariant forall i, j :: 0 <= i < j < |r| ==> r[i] < r[j]
      invariant forall u :: u in r <==> u in ids[..k] && u != user
    {
      if ids[k] != user {
        r := InsertSorted(r, ids[k]);
      }
      assert ids[..k + 1] == ids[..k] + [ids[k]];
      k := k + 1;
    }
    assert ids[..k] == ids;
    SizeOfSorted(r);
  }

  method InsertSorted(s: seq<Id>, x: Id) returns (r: seq<Id>)
    requires forall i, j :: 0 <= i < j < |s| ==> s[i] < s[j]
    ensures forall i, j :: 0 <= i < j < |r| ==> r[i] < r[j]
    ensures forall u :: u in r <==> u in s || u == x
  {
    var i := 0;
    while i < |s| && s[i] < x
      invariant 0 <= i <= |s|
      invariant forall j :: 0 <= j < i ==> s[j] < x
    {
      i := i + 1;
    }
    if i < |s| && s[i] == x {
      return s;
    }
    r := s[..i] + [x] + s[i..];
    assert r[i] == x;
    assert s == s[..i] + s[i..];
  }

  lemma {:induction false} SizeOfSorted(s: seq<Id>)
    requires forall i, j :: 0 <= i < j < |s| ==> s[i] < s[j]
    ensures |AsSet(s)| == |s|
  {
    if s != [] {
      var n := |s| - 1;
      SizeOfSorted(s[..n]);
      AsSetAppend(s, n);
      assert s[..n + 1] == s;
    }
  }

  /** The accounts found are as many as the ids asked for exactly when all exist. */
  lemma AllFound(t: Tables, ids: seq<Id>)
    requires |AsSet(ids)| == |ids|
    ensures |FoundUsers(t, ids)| == |ids| <==> forall u :: u in ids ==> u in t.users && t.users[u] != Erased
  {
    var all := AsSet(ids);
    var found := FoundUsers(t, ids).Keys;
    assert found <= all;
    if |found| == |all| {
      SubsetSame(found, all);
      assert forall u :: u in ids ==> u in all;
    }
    if forall u :: u in ids ==> u in t.users && t.users[u] != Erased {
      assert found == all;
    }
  }

  lemma AllActive(t: Tables, user: Id, ids: seq<Id>, others: seq<Id>)
    requires AsSet(others) == Others(ids, user) && |FoundUsers(t, others)| == |others| == |Others(ids, user)|
    requires !exists u :: u in FoundUsers(t, others) && FoundUsers(t, others)[u] == Banned
    ensures forall u :: u in Others(ids, user) ==> u in t.users && t.users[u] == Active
  {
    AllFound(t, others);
    forall u | u in Others(ids, user) ensures u in t.users && t.users[u] == Active {
      assert u in AsSet(others);
      assert u in FoundUsers(t, others);
    }
  }

  /** All the invited exist and none is banned. */
  method CheckMembers(db: Database, user: Id, ghost ids: seq<Id>, others: seq<Id>) returns (out: Code)
    requires AsSet(others) == Others(ids, user) && |others| == |Others(ids, user)|
    modifies db`calls
    ensures db.calls == old(db.calls) + 1 && (out == Ok || out == UserNotFound)
    ensures out == Ok ==> AllOthersActive(db.t, ids, user)
    ensures !db.fails(old(db.calls)) ==> (out == Ok <==> AllOthersActive(db.t, ids, user))
  {
    var found := db.FindUsers(others);
    assert forall u :: u in others <==> u in AsSet(others);
    AllFound(db.t, others);
    if |found| != |others| {
      return UserNotFound;
    }
    if exists u :: u in found && found[u] == Banned {
      return UserNotFound;
    }
    AllActive(db.t, user, ids, others);
    return Ok;
  }

  method CreateGroup(db: Database, user: Id, name: string, avatar: string, ids: seq<Id>) returns (out: Code)
    requires db.saved == None
    modifies db`t, db`saved, db`calls
    ensures db.saved == None && db.calls >= old(db.calls)
    ensures out == Ok ==> CreateCheck(old(db.t), user, name, avatar, ids) == Ok
    ensures db.t == if out == Ok then CreateEffect(old(db.t), user, name, avatar, ids) else old(db.t)
    ensures db.Reliable(old(db.calls)) && FreshId(old(db.t)) ==>
              out == CreateCheck(old(db.t), user, name, avatar, ids)
  {
    hide CreateEffect, Others, AllOthersActive, AsSet;
    if user == 0 {
      return NotAuthenticated;
    }
    if name == "" {
      return NameRequired;
    }
    if |name| > 100 {
      return NameTooLong;
    }
    if ContainsControlChars(name) {
      return NameRequired;
    }
    if |avatar| > 512 {
      return InvalidBody;
    }
    var others := Distinct(ids, user);
    if |others| < 2 {
      return NotEnoughMembers;
    }
    if |others| + 1 > MAX_GROUP_MEMBERS {
      return InvalidBody;
    }
    out := CheckMembers(db, user, ids, others);
    if out != Ok {
      return;
    }
    out := CreateAtomically(db, user, name, avatar, ids, others);
  }

  method CreateAtomically(db: Database, user: Id, name: string, avatar: string, ghost ids: seq<Id>, others: seq<Id>)
    returns (out: Code)
    requires db.saved == None && AsSet(others) == Others(ids, user)
    requires forall i, j :: 0 <= i < j < |others| ==> others[i] < others[j]
    modifies db`t, db`saved, db`calls
    ensures out == Ok || out == DatabaseError
    ensures db.saved == None && db.calls >= old(db.calls)
    ensures db.t == if out == Ok then CreateEffect(old(db.t), user, name, avatar, ids) else old(db.t)
    ensures db.Reliable(old(db.calls)) && FreshId(old(db.t)) ==> out == Ok
  {
    hide CreateEffect;
    var ok := db.BeginTransaction();
    if !ok {
      return DatabaseError;
    }
    out := CreateRows(db, user, name, avatar, ids, others);
    if out != Ok {
      db.Rollback();
    }
  }

  method CreateRows(db: Database, user: Id, name: string, avatar: string, ghost ids: seq<Id>, others: seq<Id>)
    returns (out: Code)
    requires db.saved.Some? && AsSet(others) == Others(ids, user)
    requires forall i, j :: 0 <= i < j < |others| ==> others[i] < others[j]
    modifies db`t, db`saved, db`calls
    ensures out == Ok || out == DatabaseError
    ensures db.saved == (if out == Ok then None else old(db.saved)) && db.calls >= old(db.calls)
    ensures out == Ok ==> db.t == CreateEffect(old(db.t), user, name, avatar, ids)
    ensures db.Reliable(old(db.calls)) && FreshId(old(db.t)) ==>
              out == Ok
  {
    hide WithMembers, Seats, AsSet, Others;
    var ok, c := CreateOwned(db, user, name, avatar);
    if !ok {
      return DatabaseError;
    }
    NotAmong(others, ids, user);
    ok := AddMembers(db, c, others);
    if !ok {
      return DatabaseError;
    }
    ok := db.Commit();
    if !ok {
      return DatabaseError;
    }
    return Ok;
  }

  /** Both rows and the owner's membership. */
  method CreateOwned(db: Database, user: Id, name: string, avatar: string) returns (ok: bool, c: Id)
    modifies db`t, db`calls
    ensures db.calls >= old(db.calls) && c == old(db.t).nextConv
    ensures ok ==>
      var t := old(db.t);
      db.t == WithMember(t.(convs := t.convs[c := Conv(true, name, avatar, user)],
                            groups := t.groups[c := Group(name, avatar, user, "")], nextConv := c + 1), c, user, Owner)
    ensures db.Reliable(old(db.calls)) && FreshId(old(db.t)) ==> ok
  {
    ok, c := db.CreateConversation(Conv(true, name, avatar, user));
    if !ok {
      return;
    }
    ok := db.InsertGroup(c, Group(name, avatar, user, ""));
    if !ok {
      return;
    }
    ok := db.AddMember(c, user, Owner);
  }

  lemma NotAmong(others: seq<Id>, ids: seq<Id>, user: Id)
    requires AsSet(others) == Others(ids, user)
    ensures user !in others
  {
    assert user in others ==> user in AsSet(others);
  }

  /** The loop over the initial members. */
  method AddMembers(db: Database, c: Id, others: seq<Id>) returns (ok: bool)
    requires forall i, j :: 0 <= i < j < |others| ==> others[i] < others[j]
    modifies db`t, db`calls
    ensures db.calls >= old(db.calls)
    ensures ok ==> db.t == WithMembers(old(db.t), c, AsSet(others))
    ensures db.Reliable(old(db.calls)) && (forall u :: u in others ==> (c, u) !in old(db.t).members) ==> ok
  {
    hide WithMember, WithMembers, AsSet;
    ghost var t0 := db.t;
    NoMoreMembers(t0, c, others);
    for i := 0 to |others|
      invariant db.calls >= old(db.calls)
      invariant db.t == WithMembers(t0, c, AsSet(others[..i]))
    {
      ok := db.AddMember(c, others[i], Member);
      if !ok {
        SeatFree(t0, c, others, i);
        return;
      }
      AsSetAppend(others, i);
      MoreMembers(t0, c, AsSet(others[..i]), others[i]);
    }
    assert others[..|others|] == others;
    ok := true;
  }

  lemma NoMoreMembers(t: Tables, c: Id, others: seq<Id>)
    ensures WithMembers(t, c, AsSet(others[..0])) == t
  {
    assert Seats(c, AsSet(others[..0])) == {};
  }

  lemma SeatFree(t: Tables, c: Id, others: seq<Id>, i: nat)
    requires i < |others| && forall i, j :: 0 <= i < j < |others| ==> others[i] < others[j]
    ensures (c, others[i]) in WithMembers(t, c, AsSet(others[..i])).members <==> (c, others[i]) in t.members
  {
    assert others[i] !in AsSet(others[..i]);
  }

  lemma MoreMembers(t: Tables, c: Id, us: set<Id>, u: Id)
    ensures WithMember(WithMembers(t, c, us), c, u, Member) == WithMembers(t, c, us + {u})
  {
    assert Seats(c, us + {u}) == Seats(c, us) + {(c, u)};
  }

  method DismissGroup(db: Database, user: Id, c: Id) returns (out: Code)
    requires db.saved == None
    modifies db`t, db`saved, db`calls
    ensures db.saved == None && db.calls >= old(db.calls)
    ensures out == Ok ==> DismissCheck(old(db.t), user, c) == Ok
    ensures db.t == if out == Ok then DismissEffect(old(db.t), c) else old(db.t)
    ensures db.Reliable(old(db.calls)) ==> out == DismissCheck(old(db.t), user, c)
  {
    if user == 0 {
      return NotAuthenticated;
    }
    if c <= 0 {
      return InvalidBody;
    }
    var group := db.FindGroup(c);
    if group.None? {
      return GroupNotFound;
    }
    if group.value.owner != user {
      return NotOwner;
    }
    var ok := db.BeginTransaction();
    if !ok {
      return DatabaseError;
    }
    out := DismissRows(db, c);
    if out != Ok {
      db.Rollback();
    }
  }

  method DismissRows(db: Database, c: Id) returns (out: Code)
    requires db.saved.Some?
    modifies db`t, db`saved, db`calls
    ensures out == Ok || out == DatabaseError
    ensures db.saved == (if out == Ok then None else old(db.saved)) && db.calls >= old(db.calls)
    ensures out == Ok ==> db.t == DismissEffect(old(db.t), c)
    ensures db.Reliable(old(db.calls)) ==> out == Ok
  {
    var ok := db.DeleteGroup(c);
    if !ok {
      return DatabaseError;
    }
    ok := db.RemoveAllMembers(c);
    if !ok {
      return DatabaseError;
    }
    ok := db.Commit();
    if !ok {
      return DatabaseError;
    }
    return Ok;
  }

  /** The two lookups that keep out members and repeated requests are the second
      and third call; one that fails is passed over. */
  method JoinGroup(db: Database, user: Id, c: Id, remark: string) returns (out: Code)
    requires db.saved == None
    modifies db`t, db`calls
    ensures db.calls >= old(db.calls)
    ensures out == Ok ==>
              JoinCheck(old(db.t), user, c, remark, !db.fails(old(db.calls) + 1), !db.fails(old(db.calls) + 2)) == Ok
    ensures db.t == if out == Ok then JoinEffect(old(db.t), user, c) else old(db.t)
    ensures db.Reliable(old(db.calls)) ==> out == JoinCheck(old(db.t), user, c, remark, true, true)
  {
    hide Asked;
    if user == 0 {
      return NotAuthenticated;
    }
    if c <= 0 {
      return InvalidBody;
    }
    var group := db.FindGroup(c);
    if group.None? {
      return GroupNotFound;
    }
    var member := db.FindMember(c, user);
    if member.Some? {
      return AlreadyMember;
    }
    var pending := db.HasPendingJoin(c, user);
    if pending {
      return RequestPending;
    }
    if |remark| > 200 {
      return InvalidBody;
    }
    var ok := db.InsertJoinRequest(c, user);
    return if ok then Ok else DatabaseError;
  }

  /** The member count is the fifth call; one that fails is passed over. */
  method HandleJoinReq(db: Database, user: Id, id: Id, action: int) returns (out: Code)
    requires db.saved == None
    modifies db`t, db`saved, db`calls
    ensures db.saved == None && db.calls >= old(db.calls)
    ensures out == Ok ==> ReviewCheck(old(db.t), user, id, action, !db.fails(old(db.calls) + 4)) == Ok
    ensures db.t == if out == Ok then ReviewEffect(old(db.t), id, action) else old(db.t)
    ensures db.Reliable(old(db.calls)) ==> out == ReviewCheck(old(db.t), user, id, action, true)
  {
    hide MembersOf, WithMember, WithJoinStatus, OpenCheck;
    var jr;
    out, jr := FindOpenRequest(db, user, id, action);
    if out != Ok {
      return;
    }
    if action == 1 {
      var applicant := db.FindUser(jr.user);
      if applicant.None? || applicant.value == Banned {
        return UserNotFound;
      }
      out := AcceptAtomically(db, id, jr);
    } else {
      var ok := db.UpdateJoinRequestStatus(id, Rejected);
      return if ok then Ok else DatabaseError;
    }
  }

  /** The tests common to accepting and rejecting. */
  method FindOpenRequest(db: Database, user: Id, id: Id, action: int) returns (out: Code, jr: JoinRequest)
    modifies db`calls
    ensures db.calls >= old(db.calls)
    ensures out == Ok ==>
      && db.calls == old(db.calls) + 2 && (action == 1 || action == 2)
      && OpenCheck(db.t, user, id, action) == Ok && Get(db.t.joins, id) == Some(jr)
    ensures db.Reliable(old(db.calls)) ==> out == OpenCheck(db.t, user, id, action)
  {
    jr := JoinRequest(0, 0, Pending);
    if user == 0 {
      return NotAuthenticated, jr;
    }
    if id <= 0 || (action != 1 && action != 2) {
      return InvalidBody, jr;
    }
    var request := db.FindJoinRequest(id);
    if request.None? {
      return RequestNotFound, jr;
    }
    jr := request.value;
    if jr.status != Pending {
      return RequestNotFound, jr;
    }
    var member := db.FindMember(jr.conv, user);
    if member.None? || (member.value != Owner && member.value != Admin) {
      return NotAdminOrOwner, jr;
    }
    return Ok, jr;
  }

  method AcceptAtomically(db: Database, id: Id, jr: JoinRequest) returns (out: Code)
    requires db.saved == None
    modifies db`t, db`saved, db`calls
    ensures db.saved == None && db.calls >= old(db.calls)
    ensures out == Ok ==> SeatCheck(old(db.t), jr, !db.fails(old(db.calls) + 1)) == Ok
    ensures db.t == if out == Ok then WithJoinStatus(WithMember(old(db.t), jr.conv, jr.user, Member), id, Accepted)
                    else old(db.t)
    ensures db.Reliable(old(db.calls)) ==> out == SeatCheck(old(db.t), jr, true)
  {
    hide MembersOf, WithMember, WithJoinStatus;
    var ok := db.BeginTransaction();
    if !ok {
      return DatabaseError;
    }
    out := AcceptRows(db, id, jr);
    if out != Ok {
      db.Rollback();
    }
  }

  method AcceptRows(db: Database, id: Id, jr: JoinRequest) returns (out: Code)
    requires db.saved.Some?
    modifies db`t, db`saved, db`calls
    ensures db.saved == (if out == Ok then None else old(db.saved)) && db.calls >= old(db.calls)
    ensures out == Ok ==>
      && SeatCheck(old(db.t), jr, !db.fails(old(db.calls))) == Ok
      && db.t == WithJoinStatus(WithMember(old(db.t), jr.conv, jr.user, Member), id, Accepted)
    ensures db.Reliable(old(db.calls)) ==> out == SeatCheck(old(db.t), jr, true)
  {
    var count := db.CountMembers(jr.conv);
    if count >= MAX_GROUP_MEMBERS {
      return InvalidBody;
    }
    var ok := db.AddMember(jr.conv, jr.user, Member);
    if !ok {
      return DatabaseError;
    }
    ok := db.UpdateJoinRequestStatus(id, Accepted);
    if !ok {
      return DatabaseError;
    }
    ok := db.Commit();
    if !ok {
      return DatabaseError;
    }
    return Ok;
  }

  method LeaveGroup(db: Database, user: Id, c: Id) returns (out: Code)
    requires db.saved == None
    modifies db`t, db`calls
    ensures db.calls >= old(db.calls)
    ensures out == Ok ==> LeaveCheck(old(db.t), user, c) == Ok
    ensures db.t == if out == Ok then WithoutMember(old(db.t), c, user) else old(db.t)
    ensures db.Reliable(old(db.calls)) ==> out == LeaveCheck(old(db.t), user, c)
  {
    if user == 0 {
      return NotAuthenticated;
    }
    if c <= 0 {
      return InvalidBody;
    }
    var member := db.FindMember(c, user);
    if member.None? {
      return NotMember;
    }
    if member.value == Owner {
      return OwnerCannotLeave;
    }
    var ok := db.RemoveMember(c, user);
    return if ok then Ok else DatabaseError;
  }

  method KickMember(db: Database, user: Id, c: Id, target: Id) returns (out: Code)
    requires db.saved == None
    modifies db`t, db`calls
    ensures db.calls >= old(db.calls)
    ensures out == Ok ==> KickCheck(old(db.t), user, c, target) == Ok
    ensures db.t == if out == Ok then WithoutMember(old(db.t), c, target) else old(db.t)
    ensures db.Reliable(old(db.calls)) ==> out == KickCheck(old(db.t), user, c, target)
  {
    if user == 0 {
      return NotAuthenticated;
    }
    if c <= 0 || target <= 0 {
      return InvalidBody;
    }
    if target == user {
      return CannotKickSelf;
    }
    var op := db.FindMember(c, user);
    if op.None? || (op.value != Owner && op.value != Admin) {
      return NotAdminOrOwner;
    }
    var member := db.FindMember(c, target);
    if member.None? {
      return NotMember;
    }
    if Rank(member.value) >= Rank(op.value) {
      return CannotKickHigherRole;
    }
    var ok := db.RemoveMember(c, target);
    return if ok then Ok else DatabaseError;
  }

  /** The tests of the patch, part by part, and the group row with its changes. */
  method PatchGroup(stored: Group, p: Patch) returns (out: Code, group: Group)
    ensures out == PatchCheck(p)
    ensures out == Ok ==> group == Patched(stored, p)
  {
    group := stored;
    var changed := false;
    if p.name != "" {
      if |p.name| > 100 {
        return NameTooLong, group;
      }
      if ContainsControlChars(p.name) {
        return NameRequired, group;
      }
      group := group.(name := p.name);
      changed := true;
    }
    if p.avatar != "" {
      if |p.avatar| > 512 {
        return InvalidBody, group;
      }
      group := group.(avatar := p.avatar);
      changed := true;
    }
    if p.notice != "" {
      if |p.notice| > 1000 {
        return NoticeTooLong, group;
      }
      group := group.(notice := if p.notice == "\0" then "" else p.notice);
      changed := true;
    }
    if !changed {
      return NothingToUpdate, group;
    }
    return Ok, group;
  }

  /** The conversation row is looked up by the fifth call, inside the transaction;
      when that lookup finds nothing the handler still commits and answers Ok. */
  method UpdateGroup(db: Database, user: Id, c: Id, p: Patch) returns (out: Code)
    requires db.saved == None
    modifies db`t, db`saved, db`calls
    ensures db.saved == None && db.calls >= old(db.calls)
    ensures out == Ok ==> UpdateCheck(old(db.t), user, c, p) == Ok
    ensures db.t == if out == Ok then UpdateEffect(old(db.t), c, p, !db.fails(old(db.calls) + 4)) else old(db.t)
    ensures db.Reliable(old(db.calls)) ==> out == UpdateCheck(old(db.t), user, c, p)
  {
    hide UpdateEffect, PatchCheck, Patched;
    if user == 0 {
      return NotAuthenticated;
    }
    if c <= 0 {
      return InvalidBody;
    }
    var member := db.FindMember(c, user);
    if member.None? || (member.value != Owner && member.value != Admin) {
      return NotAdminOrOwner;
    }
    var found := db.FindGroup(c);
    if found.None? {
      return GroupNotFound;
    }
    var group;
    out, group := PatchGroup(found.value, p);
    if out != Ok {
      return;
    }
    out := UpdateAtomically(db, c, p, group);
  }

  method UpdateAtomically(db: Database, c: Id, p: Patch, group: Group) returns (out: Code)
    requires db.saved == None && c in db.t.groups && group == Patched(db.t.groups[c], p)
    modifies db`t, db`saved, db`calls
    ensures out == Ok || out == DatabaseError
    ensures db.saved == None && db.calls >= old(db.calls)
    ensures db.t == if out == Ok then UpdateEffect(old(db.t), c, p, !db.fails(old(db.calls) + 2)) else old(db.t)
    ensures db.Reliable(old(db.calls)) ==> out == Ok
  {
    hide UpdateEffect, Patched;
    var ok := db.BeginTransaction();
    if !ok {
      return DatabaseError;
    }
    out := UpdateRows(db, c, p, group);
    if out != Ok {
      db.Rollback();
    }
  }

  method UpdateRows(db: Database, c: Id, p: Patch, group: Group) returns (out: Code)
    requires db.saved.Some? && c in db.t.groups && group == Patched(db.t.groups[c], p)
    modifies db`t, db`saved, db`calls
    ensures out == Ok || out == DatabaseError
    ensures db.saved == (if out == Ok then None else old(db.saved)) && db.calls >= old(db.calls)
    ensures out == Ok ==> db.t == UpdateEffect(old(db.t), c, p, !db.fails(old(db.calls) + 1))
    ensures db.Reliable(old(db.calls)) ==> out == Ok
  {
    var ok := db.UpdateGroup(c, group);
    if !ok {
      return DatabaseError;
    }
    var found := db.FindConversation(c);
    if found.Some? {
      var conv := found.value;
      if p.name != "" {
        conv := conv.(name := group.name);
      }
      if p.avatar != "" {
        conv := conv.(avatar := group.avatar);
      }
      ok := db.UpdateConversation(c, conv);
      if !ok {
        return DatabaseError;
      }
    }
    ok := db.Commit();
    if !ok {
      return DatabaseError;
    }
    return Ok;
  }

  method SetMemberRole(db: Database, user: Id, c: Id, target: Id, role: int) returns (out: Code)
    requires db.saved == None
    modifies db`t, db`calls
    ensures db.calls >= old(db.calls)
    ensures out == Ok ==> SetRoleCheck(old(db.t), user, c, target, role) == Ok
    ensures db.t == if out == Ok then WithRole(old(db.t), c, target, RoleNumbered(role)) else old(db.t)
    ensures db.Reliable(old(db.calls)) ==> out == SetRoleCheck(old(db.t), user, c, target, role)
  {
    if user == 0 {
      return NotAuthenticated;
    }
    if c <= 0 || target <= 0 {
      return InvalidBody;
    }
    if role != 0 && role != 1 {
      return InvalidRole;
    }
    var op := db.FindMember(c, user);
    if op.None? || op.value != Owner {
      return NotOwner;
    }
    var member := db.FindMember(c, target);
    if member.None? {
      return NotMember;
    }
    if target == user {
      return CannotKickSelf;
    }
    var ok := db.UpdateMemberRole(c, target, RoleNumbered(role));
    return if ok then Ok else DatabaseError;
  }
}
