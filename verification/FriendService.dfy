/** Accepting or rejecting a friend request and deleting a friend, from
    server/service/friend_service.cpp, over a database whose calls may fail. */
module FriendService {
  import opened Wrappers
  import opened Tables
  import opened Store
  import opened GroupRules

  method HandleRequest(db: Database, user: Id, id: Id, action: int) returns (out: Code)
    requires db.saved == None
    modifies db`t, db`saved, db`calls
    ensures db.saved == None && db.calls >= old(db.calls)
    ensures out == Ok ==> HandleRequestCheck(old(db.t), user, id, action) == Ok
    ensures db.t == if out == Ok then HandleRequestEffect(old(db.t), id, action) else old(db.t)
    ensures db.Reliable(old(db.calls)) && FreshId(old(db.t)) ==>
              out == HandleRequestCheck(old(db.t), user, id, action)
  {
    hide Befriended, WithRequestStatus, Unrelated, FreshId;
    if user == 0 {
      return NotAuthenticated;
    }
    if id <= 0 {
      return RequestIdRequired;
    }
    if action != 1 && action != 2 {
      return InvalidAction;
    }
    var found := db.FindFriendRequest(id);
    if found.None? || found.value.receiver != user {
      return RequestNotFound;
    }
    var fr := found.value;
    if fr.status != Pending {
      return RequestNotFound;
    }
    if action == 1 {
      var requester := db.FindUser(fr.sender);
      if requester.None? || requester.value == Banned {
        return UserNotFound;
      }
      var ok := db.BeginTransaction();
      if !ok {
        return DatabaseError;
      }
      out := AcceptRows(db, id, fr);
      if out != Ok {
        db.Rollback();
      }
    } else {
      var ok := db.UpdateRequestStatus(id, Rejected);
      return if ok then Ok else DatabaseError;
    }
  }

  method AcceptRows(db: Database, id: Id, fr: FriendRequest) returns (out: Code)
    requires db.saved.Some?
    modifies db`t, db`saved, db`calls
    ensures out == Ok || out == DatabaseError
    ensures db.saved == (if out == Ok then None else old(db.saved)) && db.calls >= old(db.calls)
    ensures out == Ok ==>
      Unrelated(old(db.t), fr.sender, fr.receiver) && db.t == Befriended(WithRequestStatus(old(db.t), id, Accepted), fr.sender, fr.receiver)
    ensures db.Reliable(old(db.calls)) && FreshId(old(db.t)) && Unrelated(old(db.t), fr.sender, fr.receiver) ==>
              out == Ok
  {
    hide Befriended;
    var ok := db.UpdateRequestStatus(id, Accepted);
    if !ok {
      return DatabaseError;
    }
    ok := Befriend(db, fr.sender, fr.receiver);
    if !ok {
      return DatabaseError;
    }
    ok := db.Commit();
    if !ok {
      return DatabaseError;
    }
    return Ok;
  }

  /** The private conversation, its two members and both friendship rows. */
  method Befriend(db: Database, a: Id, b: Id) returns (ok: bool)
    modifies db`t, db`calls
    ensures db.calls >= old(db.calls)
    ensures ok ==> Unrelated(old(db.t), a, b) && db.t == Befriended(old(db.t), a, b)
    ensures db.Reliable(old(db.calls)) && FreshId(old(db.t)) && Unrelated(old(db.t), a, b) ==> ok
  {
    var c;
    ok, c := db.CreateConversation(Conv(false, "", "", 0));
    if !ok {
      return;
    }
    ok := db.AddMember(c, a, Member);
    if !ok {
      return;
    }
    ok := db.AddMember(c, b, Member);
    if !ok {
      return;
    }
    ok := db.InsertFriendship(a, b, Friendship(c, Normal));
    if !ok {
      return;
    }
    ok := db.InsertFriendship(b, a, Friendship(c, Normal));
  }

  /** `target` is the id behind the requested uid, None for an empty uid. */
  method DeleteFriend(db: Database, user: Id, target: Option<Id>) returns (out: Code)
    requires db.saved == None
    modifies db`t, db`saved, db`calls
    ensures db.saved == None && db.calls >= old(db.calls)
    ensures out == Ok ==> target.Some? && DeleteFriendCheck(old(db.t), user, target) == Ok
    ensures db.t == if out == Ok then DeleteFriendEffect(old(db.t), user, target.value) else old(db.t)
    ensures db.Reliable(old(db.calls)) ==> out == DeleteFriendCheck(old(db.t), user, target)
  {
    hide DeleteFriendEffect;
    if user == 0 {
      return NotAuthenticated;
    }
    if target == None {
      return TargetUidRequired;
    }
    var other := target.value;
    var account := db.FindUser(other);
    if account.None? {
      return UserNotFound;
    }
    var fs := db.FindFriendship(user, other);
    if fs.None? || fs.value.status != Normal {
      return NotFriends;
    }
    var ok := db.BeginTransaction();
    if !ok {
      return DatabaseError;
    }
    out := DeleteRows(db, user, other, fs.value.conv);
    if out != Ok {
      db.Rollback();
    }
  }

  method RemoveBoth(db: Database, c: Id, user: Id, other: Id) returns (ok: bool)
    modifies db`t, db`calls
    ensures db.calls >= old(db.calls)
    ensures ok ==> db.t == WithoutMember(WithoutMember(old(db.t), c, user), c, other)
    ensures db.Reliable(old(db.calls)) ==> ok
  {
    hide WithoutMember;
    ok := db.RemoveMember(c, user);
    if ok {
      ok := db.RemoveMember(c, other);
    }
  }

  method DeleteRows(db: Database, user: Id, other: Id, c: Id) returns (out: Code)
    requires db.saved.Some? && (user, other) in db.t.friends && db.t.friends[(user, other)].conv == c
    modifies db`t, db`saved, db`calls
    ensures out == Ok || out == DatabaseError
    ensures db.saved == (if out == Ok then None else old(db.saved)) && db.calls >= old(db.calls)
    ensures out == Ok ==> db.t == DeleteFriendEffect(old(db.t), user, other)
    ensures db.Reliable(old(db.calls)) ==> out == Ok
  {
    hide WithFriendStatus, WithoutMember;
    var ok := db.UpdateFriendshipStatus(user, other, Deleted);
    if !ok {
      return DatabaseError;
    }
    ok := db.UpdateFriendshipStatus(other, user, Deleted);
    if !ok {
      return DatabaseError;
    }
    if c > 0 {
      ok := RemoveBoth(db, c, user, other);
      if !ok {
        return DatabaseError;
      }
    }
    ok := db.Commit();
    if !ok {
      return DatabaseError;
    }
    return Ok;
  }
}
