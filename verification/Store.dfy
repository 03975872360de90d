/** The database as the handlers use it: DAO calls that may fail at any position,
    and transactions (server/dao/sqlite3/sqlite_dao_factory.cpp). A handler holds
    the session lock throughout, so no two handlers interleave. */
module Store {
  import opened Wrappers
  import opened Tables

  class Database {
    var t: Tables
    /** The rows to go back to while a transaction is open. */
    var saved: Option<Tables>
    /** Number of DAO calls so far, and which of them fail. A failing write
        changes nothing; a failing read finds nothing. */
    var calls: nat
    const fails: nat -> bool

    constructor (t: Tables, fails: nat -> bool)
      ensures this.t == t && this.fails == fails && saved == None && calls == 0
    {
      this.t, this.fails, saved, calls := t, fails, None, 0;
    }

    /** No call from the `from`-th on fails. */
    ghost predicate Reliable(from: nat) {
      forall i: nat :: from <= i ==> !fails(i)
    }

    method Call() returns (ok: bool)
      modifies this`calls
      ensures calls == old(calls) + 1 && ok == !fails(old(calls))
    {
      ok := !fails(calls);
      calls := calls + 1;
    }

    method BeginTransaction() returns (ok: bool)
      requires saved == None
      modifies this`saved, this`calls
      ensures calls == old(calls) + 1 && ok == !fails(old(calls))
      ensures saved == if ok then Some(t) else None
    {
      ok := Call();
      if ok {
        saved := Some(t);
      }
    }

    method Commit() returns (ok: bool)
      requires saved.Some?
      modifies this`saved, this`calls
      ensures calls == old(calls) + 1 && ok == !fails(old(calls))
      ensures saved == if ok then None else old(saved)
    {
      ok := Call();
      if ok {
        saved := None;
      }
    }

    method Rollback()
      requires saved.Some?
      modifies this`t, this`saved
      ensures saved == None && t == old(saved).value
    {
      t := saved.value;
      saved := None;
    }

    // --------------------------------------------------------------- reads

    method FindMember(c: Id, u: Id) returns (r: Option<Role>)
      modifies this`calls
      ensures calls == old(calls) + 1
      ensures r == if fails(old(calls)) then None else Get(t.members, (c, u))
    {
      var ok := Call();
      r := if ok then Get(t.members, (c, u)) else None;
    }

    method FindGroup(c: Id) returns (r: Option<Group>)
      modifies this`calls
      ensures calls == old(calls) + 1
      ensures r == if fails(old(calls)) then None else Get(t.groups, c)
    {
      var ok := Call();
      r := if ok then Get(t.groups, c) else None;
    }

    method FindConversation(c: Id) returns (r: Option<Conv>)
      modifies this`calls
      ensures calls == old(calls) + 1
      ensures r == if fails(old(calls)) then None else Get(t.convs, c)
    {
      var ok := Call();
      r := if ok then Get(t.convs, c) else None;
    }

    method CountMembers(c: Id) returns (n: nat)
      modifies this`calls
      ensures calls == old(calls) + 1
      ensures n == if fails(old(calls)) then 0 else |MembersOf(t, c)|
    {
      var ok := Call();
      n := if ok then |MembersOf(t, c)| else 0;
    }

    method HasPendingJoin(c: Id, u: Id) returns (r: bool)
      modifies this`calls
      ensures calls == old(calls) + 1
      ensures r <==> !fails(old(calls)) && Asked(t, c, u)
    {
      var ok := Call();
      r := ok && Asked(t, c, u);
    }

    method FindJoinRequest(id: Id) returns (r: Option<JoinRequest>)
      modifies this`calls
      ensures calls == old(calls) + 1
      ensures r == if fails(old(calls)) then None else Get(t.joins, id)
    {
      var ok := Call();
      r := if ok then Get(t.joins, id) else None;
    }

    /** Erased accounts are not found. */
    method FindUser(u: Id) returns (r: Option<Account>)
      modifies this`calls
      ensures calls == old(calls) + 1
      ensures r == if fails(old(calls)) then None else Get(FoundUsers(t, [u]), u)
    {
      var ok := Call();
      r := if ok then Get(FoundUsers(t, [u]), u) else None;
    }

    method FindUsers(ids: seq<Id>) returns (r: map<Id, Account>)
      modifies this`calls
      ensures calls == old(calls) + 1
      ensures r == if fails(old(calls)) then map[] else FoundUsers(t, ids)
    {
      var ok := Call();
      r := if ok then FoundUsers(t, ids) else map[];
    }

    method FindFriendRequest(id: Id) returns (r: Option<FriendRequest>)
      modifies this`calls
      ensures calls == old(calls) + 1
      ensures r == if fails(old(calls)) then None else Get(t.requests, id)
    {
      var ok := Call();
      r := if ok then Get(t.requests, id) else None;
    }

    method FindFriendship(a: Id, b: Id) returns (r: Option<Friendship>)
      modifies this`calls
      ensures calls == old(calls) + 1
      ensures r == if fails(old(calls)) then None else Get(t.friends, (a, b))
    {
      var ok := Call();
      r := if ok then Get(t.friends, (a, b)) else None;
    }

    // -------------------------------------------------------------- writes

    method CreateConversation(conv: Conv) returns (ok: bool, c: Id)
      modifies this`t, this`calls
      ensures calls == old(calls) + 1 && ok == !fails(old(calls)) && c == old(t).nextConv
      ensures t == if ok then old(t).(convs := old(t).convs[c := conv], nextConv := c + 1) else old(t)
    {
      ok := Call();
      c := t.nextConv;
      if ok {
        t := t.(convs := t.convs[c := conv], nextConv := c + 1);
      }
    }

    method UpdateConversation(c: Id, conv: Conv) returns (ok: bool)
      modifies this`t, this`calls
      ensures calls == old(calls) + 1 && ok == (!fails(old(calls)) && c in old(t).convs)
      ensures t == if ok then old(t).(convs := old(t).convs[c := conv]) else old(t)
    {
      ok := Call();
      ok := ok && c in t.convs;
      if ok {
        t := t.(convs := t.convs[c := conv]);
      }
    }

    method InsertGroup(c: Id, g: Group) returns (ok: bool)
      modifies this`t, this`calls
      ensures calls == old(calls) + 1 && ok == !fails(old(calls))
      ensures t == if ok then old(t).(groups := old(t).groups[c := g]) else old(t)
    {
      ok := Call();
      if ok {
        t := t.(groups := t.groups[c := g]);
      }
    }

    method UpdateGroup(c: Id, g: Group) returns (ok: bool)
      modifies this`t, this`calls
      ensures calls == old(calls) + 1 && ok == (!fails(old(calls)) && c in old(t).groups)
      ensures t == if ok then old(t).(groups := old(t).groups[c := g]) else old(t)
    {
      ok := Call();
      ok := ok && c in t.groups;
      if ok {
        t := t.(groups := t.groups[c := g]);
      }
    }

    method DeleteGroup(c: Id) returns (ok: bool)
      modifies this`t, this`calls
      ensures calls == old(calls) + 1 && ok == !fails(old(calls))
      ensures t == if ok then old(t).(groups := old(t).groups - {c}) else old(t)
    {
      ok := Call();
      if ok {
        t := t.(groups := t.groups - {c});
      }
    }

    /** (conversation, user) is UNIQUE. */
    method AddMember(c: Id, u: Id, r: Role) returns (ok: bool)
      modifies this`t, this`calls
      ensures calls == old(calls) + 1 && ok == (!fails(old(calls)) && (c, u) !in old(t).members)
      ensures t == if ok then WithMember(old(t), c, u, r) else old(t)
    {
      ok := Call();
      ok := ok && (c, u) !in t.members;
      if ok {
        t := WithMember(t, c, u, r);
      }
    }

    method RemoveMember(c: Id, u: Id) returns (ok: bool)
      modifies this`t, this`calls
      ensures calls == old(calls) + 1 && ok == !fails(old(calls))
      ensures t == if ok then WithoutMember(old(t), c, u) else old(t)
    {
      ok := Call();
      if ok {
        t := WithoutMember(t, c, u);
      }
    }

    method RemoveAllMembers(c: Id) returns (ok: bool)
      modifies this`t, this`calls
      ensures calls == old(calls) + 1 && ok == !fails(old(calls))
      ensures t == if ok then WithoutMembers(old(t), c) else old(t)
    {
      ok := Call();
      if ok {
        t := WithoutMembers(t, c);
      }
    }

    method UpdateMemberRole(c: Id, u: Id, r: Role) returns (ok: bool)
      modifies this`t, this`calls
      ensures calls == old(calls) + 1 && ok == !fails(old(calls))
      ensures t == if ok then WithRole(old(t), c, u, r) else old(t)
    {
      ok := Call();
      if ok {
        t := WithRole(t, c, u, r);
      }
    }

    method InsertJoinRequest(c: Id, u: Id) returns (ok: bool)
      modifies this`t, this`calls
      ensures calls == old(calls) + 1 && ok == !fails(old(calls))
      ensures var o := old(t);
        t == if ok then o.(joins := o.joins[o.nextJoin := JoinRequest(c, u, Pending)], nextJoin := o.nextJoin + 1) else o
    {
      ok := Call();
      if ok {
        t := t.(joins := t.joins[t.nextJoin := JoinRequest(c, u, Pending)], nextJoin := t.nextJoin + 1);
      }
    }

    method UpdateJoinRequestStatus(id: Id, s: RequestStatus) returns (ok: bool)
      modifies this`t, this`calls
      ensures calls == old(calls) + 1 && ok == !fails(old(calls))
      ensures t == if ok then WithJoinStatus(old(t), id, s) else old(t)
    {
      ok := Call();
      if ok {
        t := WithJoinStatus(t, id, s);
      }
    }

    method UpdateRequestStatus(id: Id, s: RequestStatus) returns (ok: bool)
      modifies this`t, this`calls
      ensures calls == old(calls) + 1 && ok == !fails(old(calls))
      ensures t == if ok then WithRequestStatus(old(t), id, s) else old(t)
    {
      ok := Call();
      if ok {
        t := WithRequestStatus(t, id, s);
      }
    }

    /** (user, friend) is UNIQUE. */
    method InsertFriendship(a: Id, b: Id, f: Friendship) returns (ok: bool)
      modifies this`t, this`calls
      ensures calls == old(calls) + 1 && ok == (!fails(old(calls)) && (a, b) !in old(t).friends)
      ensures t == if ok then old(t).(friends := old(t).friends[(a, b) := f]) else old(t)
    {
      ok := Call();
      ok := ok && (a, b) !in t.friends;
      if ok {
        t := t.(friends := t.friends[(a, b) := f]);
      }
    }

    /** Succeeds also when no row matches. */
    method UpdateFriendshipStatus(a: Id, b: Id, s: FriendStatus) returns (ok: bool)
      modifies this`t, this`calls
      ensures calls == old(calls) + 1 && ok == !fails(old(calls))
      ensures t == if ok then WithFriendStatus(old(t), a, b, s) else old(t)
    {
      ok := Call();
      if ok {
        t := WithFriendStatus(t, a, b, s);
      }
    }
  }
}
