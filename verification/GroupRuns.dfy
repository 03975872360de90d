/** The handlers of server/service/group_service.cpp and the two of
    server/service/friend_service.cpp run on a database whose calls may fail
    anywhere, as steps of the runs that GroupInvariant speaks about. */
module GroupRuns {
  import opened Wrappers
  import opened Tables
  import opened Store
  import opened GroupRules
  import opened GroupInvariant
  import GroupService
  import FriendService

  /** The step that a handler takes when it starts at call number `n`: the lookups
      it can do without are its second, third and fifth calls. */
  function StepFrom(op: Op, out: Code, fails: nat -> bool, n: nat): Step {
    Step.Step(op, out == Ok, Seen(!fails(n + 1), !fails(n + 2), !fails(n + 4), !fails(n + 4)))
  }

  method Handle(db: Database, op: Op) returns (out: Code)
    requires db.saved == None
    modifies db`t, db`saved, db`calls
    ensures db.saved == None && db.calls >= old(db.calls)
    ensures var s := StepFrom(op, out, db.fails, old(db.calls));
      db.t == Apply(old(db.t), s) && (out == Ok <==> Acts(old(db.t), s))
    ensures db.Reliable(old(db.calls)) && FreshId(old(db.t)) ==> out == Check(old(db.t), op, ALL_SEEN)
  {
    hide CreateCheck, DismissCheck, JoinCheck, ReviewCheck, LeaveCheck, KickCheck, UpdateCheck, SetRoleCheck,
      HandleRequestCheck, DeleteFriendCheck;
    hide CreateEffect, DismissEffect, JoinEffect, ReviewEffect, WithoutMember, UpdateEffect, WithRole,
      HandleRequestEffect, DeleteFriendEffect;
    match op
    case Create(user, name, avatar, ids) => out := GroupService.CreateGroup(db, user, name, avatar, ids);
    case Dismiss(user, c) => out := GroupService.DismissGroup(db, user, c);
    case Join(user, c, remark) => out := GroupService.JoinGroup(db, user, c, remark);
    case Review(user, id, action) => out := GroupService.HandleJoinReq(db, user, id, action);
    case Leave(user, c) => out := GroupService.LeaveGroup(db, user, c);
    case Kick(user, c, target) => out := GroupService.KickMember(db, user, c, target);
    case Update(user, c, p) => out := GroupService.UpdateGroup(db, user, c, p);
    case SetRole(user, c, target, role) => out := GroupService.SetMemberRole(db, user, c, target, role);
    case HandleRequest(user, id, action) => out := FriendService.HandleRequest(db, user, id, action);
    case DeleteFriend(user, friend) => out := FriendService.DeleteFriend(db, user, friend);
  }

  lemma {:induction false} RunAppend(t: Tables, steps: seq<Step>, s: Step)
    ensures Run(t, steps + [s]) == Apply(Run(t, steps), s)
    decreases |steps|
  {
    hide Apply;
    if steps == [] {
      assert [] + [s] == [s];
      assert Run(Apply(t, s), [s][1..]) == Apply(t, s);
    } else {
      RunAppend(Apply(t, steps[0]), steps[1..], s);
      assert (steps + [s])[1..] == steps[1..] + [s];
    }
  }

  lemma {:induction false} SoundAppend(t: Tables, steps: seq<Step>, s: Step)
    ensures SoundRun(t, steps + [s]) <==> SoundRun(t, steps) && Sound(Run(t, steps), s)
    decreases |steps|
  {
    hide Apply, Sound;
    if steps == [] {
      assert [] + [s] == [s];
      assert SoundRun(Apply(t, s), [s][1..]);
    } else {
      SoundAppend(Apply(t, steps[0]), steps[1..], s);
      assert (steps + [s])[1..] == steps[1..] + [s];
    }
  }

  /** The answers that the rules give along a run. */
  predicate AnswersByRules(t: Tables, ops: seq<Op>, outs: seq<Code>, steps: seq<Step>)
    requires |outs| == |steps| <= |ops|
  {
    forall i :: 0 <= i < |outs| ==> outs[i] == Check(Run(t, steps[..i]), ops[i], ALL_SEEN)
  }

  lemma AnswersAppend(t: Tables, ops: seq<Op>, outs: seq<Code>, steps: seq<Step>, out: Code, s: Step)
    requires |outs| == |steps| < |ops| && AnswersByRules(t, ops, outs, steps)
    requires out == Check(Run(t, steps), ops[|outs|], ALL_SEEN)
    ensures AnswersByRules(t, ops, outs + [out], steps + [s])
  {
    hide Check, Run;
    forall i | 0 <= i < |outs| + 1 ensures (outs + [out])[i] == Check(Run(t, (steps + [s])[..i]), ops[i], ALL_SEEN) {
      assert (steps + [s])[..i] == steps[..i];
      assert steps[..|steps|] == steps;
    }
  }

  /** Requests handled one after the other, whichever calls fail, are a run of
      steps with the answers given; `at` is the number of the first call of each.
      When no call fails the run is sound, and the answers are those of the rules. */
  method Serve(db: Database, ops: seq<Op>) returns (outs: seq<Code>, ghost steps: seq<Step>, ghost at: seq<nat>)
    requires db.saved == None
    modifies db`t, db`saved, db`calls
    ensures db.saved == None
    ensures |outs| == |steps| == |at| == |ops|
    ensures forall i :: 0 <= i < |ops| ==> steps[i] == StepFrom(ops[i], outs[i], db.fails, at[i])
    ensures db.t == Run(old(db.t), steps)
    ensures Core(old(db.t)) ==> Core(db.t)
    ensures db.Reliable(old(db.calls)) && Core(old(db.t)) ==> AnswersByRules(old(db.t), ops, outs, steps)
    ensures db.Reliable(old(db.calls)) && Inv(old(db.t)) ==> Inv(db.t)
  {
    hide Apply, Acts, Check, Sound, Inv, Core, AnswersByRules;
    outs, steps, at := [], [], [];
    assert AnswersByRules(old(db.t), ops, [], []) by {
      NoAnswers(old(db.t), ops);
    }
    for i := 0 to |ops|
      invariant db.saved == None && db.calls >= old(db.calls)
      invariant |outs| == |steps| == |at| == i
      invariant forall j :: 0 <= j < i ==> steps[j] == StepFrom(ops[j], outs[j], db.fails, at[j])
      invariant db.t == Run(old(db.t), steps)
      invariant db.Reliable(old(db.calls)) ==> SoundRun(old(db.t), steps)
      invariant db.Reliable(old(db.calls)) && Core(old(db.t)) ==> AnswersByRules(old(db.t), ops, outs, steps)
    {
      ghost var n := db.calls;
      if Core(old(db.t)) {
        RunCore(old(db.t), steps);
        FreshUnused(db.t);
      }
      var out := Handle(db, ops[i]);
      ghost var s := StepFrom(ops[i], out, db.fails, n);
      RunAppend(old(db.t), steps, s);
      SoundAppend(old(db.t), steps, s);
      if db.Reliable(old(db.calls)) {
        SeenIsSound(Run(old(db.t), steps), s);
        if Core(old(db.t)) {
          AnswersAppend(old(db.t), ops, outs, steps, out, s);
        }
      }
      outs, steps, at := outs + [out], steps + [s], at + [n];
    }
    if Core(old(db.t)) {
      RunCore(old(db.t), steps);
    }
    if db.Reliable(old(db.calls)) && Inv(old(db.t)) {
      InvAlongIff(old(db.t), steps);
      RunInv(old(db.t), steps);
    }
  }

  lemma NoAnswers(t: Tables, ops: seq<Op>)
    ensures AnswersByRules(t, ops, [], [])
  {
  }

  lemma RunInv(t: Tables, steps: seq<Step>)
    requires InvAlong(t, steps)
    ensures Inv(Run(t, steps))
  {
    assert steps[..|steps|] == steps;
  }
}
