/** Matching responses to requests on the client
    (client/nova_sdk/core/request_manager.cpp), with the 32-bit sequence counter of
    client/nova_sdk/core/client_context.h. Every request is followed to its fate. */
module RequestManager {
  import opened Wrappers

  type Time = int

  const WRAP: nat := 0x1_0000_0000

  /** What became of a request: at most one callback, or a silent cancel. */
  datatype Fate = Waiting | Answered | TimedOut(at: Time) | Evicted | Cancelled

  datatype Request = Request(number: nat, due: Time, fate: Fate)

  datatype Pending = Pending(id: nat, deadline: Time)

  /** `requests` lists all requests ever registered, by id. */
  datatype State = State(next: nat, issued: nat, pending: map<nat, Pending>, requests: seq<Request>)

  const START := State(1, 0, map[], [])

  // --------------------------------------------------- operations as values

  function Settled(s: State, id: nat, fate: Fate): State {
    if id < |s.requests| then s.(requests := s.requests[id := s.requests[id].(fate := fate)]) else s
  }

  function Evict(s: State, number: nat): State {
    if number in s.pending then
      Settled(s, s.pending[number].id, Evicted).(pending := s.pending - {number})
    else s
  }

  /** AddPending with a deadline already computed. */
  function AfterAdd(s: State, number: nat, deadline: Time): State {
    var e := Evict(s, number);
    e.(pending := e.pending[number := Pending(|e.requests|, deadline)],
       requests := e.requests + [Request(number, deadline, Waiting)])
  }

  function AfterResponse(s: State, number: nat): State {
    if number in s.pending then
      Settled(s, s.pending[number].id, Answered).(pending := s.pending - {number})
    else s
  }

  function Unexpired(pending: map<nat, Pending>, now: Time): map<nat, Pending> {
    map q | q in pending && now < pending[q].deadline :: pending[q]
  }

  function AfterCheck(s: State, now: Time): State {
    s.(pending := Unexpired(s.pending, now),
       requests := seq(|s.requests|, i requires 0 <= i < |s.requests| =>
         var r := s.requests[i];
         if r.fate == Waiting && now >= r.due then r.(fate := TimedOut(now)) else r))
  }

  function AfterCancel(s: State, number: nat): State {
    if number in s.pending then
      Settled(s, s.pending[number].id, Cancelled).(pending := s.pending - {number})
    else s
  }

  function AfterCancelAll(s: State): State {
    s.(pending := map[],
       requests := seq(|s.requests|, i requires 0 <= i < |s.requests| =>
         var r := s.requests[i];
         if r.fate == Waiting then r.(fate := Cancelled) else r))
  }

  function AfterNextSeq(s: State): State {
    s.(next := (s.next + 1) % WRAP, issued := s.issued + 1)
  }

  /** Pending entries and waiting requests are the same, and know each other. */
  predicate Linked(pending: map<nat, Pending>, requests: seq<Request>) {
    && (forall q :: q in pending ==>
          && pending[q].id < |requests|
          && requests[pending[q].id] == Request(q, pending[q].deadline, Waiting))
    && (forall i :: 0 <= i < |requests| && requests[i].fate == Waiting ==>
          requests[i].number in pending && pending[requests[i].number].id == i)
  }

  /** One callback for every expired entry, and no other. */
  predicate Fired(fired: seq<(nat, nat)>, pending: map<nat, Pending>, now: Time) {
    && (forall i :: 0 <= i < |fired| ==>
          && fired[i].0 in pending && fired[i].1 == pending[fired[i].0].id
          && now >= pending[fired[i].0].deadline)
    && (forall q :: q in pending && now >= pending[q].deadline ==> (q, pending[q].id) in fired)
    && (forall i, j :: 0 <= i < j < |fired| ==> fired[i].0 != fired[j].0)
  }

  lemma FiredMore(fired: seq<(nat, nat)>, was: map<nat, Pending>, pending: map<nat, Pending>, q: nat, now: Time)
    requires Fired(fired, was - pending.Keys, now) && q in was && q in pending && pending[q] == was[q]
    requires now >= was[q].deadline
    ensures Fired(fired + [(q, was[q].id)], was - (pending - {q}).Keys, now)
  {
    var more := fired + [(q, was[q].id)];
    assert more[|fired|] == (q, was[q].id);
    forall x | x in was - (pending - {q}).Keys && now >= was[x].deadline ensures (x, was[x].id) in more {
      if x != q {
        var left := was - pending.Keys;
        assert x in left && left[x] == was[x];
        assert (x, was[x].id) in fired;
      }
    }
  }

  lemma FiredAll(fired: seq<(nat, nat)>, was: map<nat, Pending>, now: Time)
    requires Fired(fired, was - Unexpired(was, now).Keys, now)
    ensures Fired(fired, was, now)
  {
    forall q | q in was && now >= was[q].deadline ensures (q, was[q].id) in fired {
      assert q in was - Unexpired(was, now).Keys;
    }
  }

  // -------------------------------------------------------------- the class

  class Manager {
    const timeout: nat
    var next: nat
    var pending: map<nat, Pending>
    /** The record of all requests, by which callbacks are told apart. */
    var issued: nat
    var requests: seq<Request>

    function Value(): State
      reads this
    {
      State(next, issued, pending, requests)
    }

    ghost predicate Valid()
      reads this
    {
      Linked(pending, requests)
    }

    constructor (timeout: nat)
      ensures Valid() && this.timeout == timeout && Value() == START
    {
      this.timeout := timeout;
      next, pending, issued, requests := 1, map[], 0, [];
    }

    /** `fetch_add` on the 32-bit counter. */
    method NextSeq() returns (number: nat)
      requires Valid()
      modifies this
      ensures Valid() && number == old(next) && Value() == AfterNextSeq(old(Value()))
    {
      number := next;
      next := (next + 1) % WRAP;
      issued := issued + 1;
    }

    /** `evicted` is the request whose timeout callback fires at once. */
    method AddPending(number: nat, now: Time) returns (evicted: Option<nat>)
      requires Valid()
      modifies this
      ensures Valid() && Value() == AfterAdd(old(Value()), number, now + timeout)
      ensures evicted == if number in old(pending) then Some(old(pending)[number].id) else None
    {
      hide Linked;
      AddLinked(Value(), number, now + timeout);
      evicted := None;
      if number in pending {
        EntryHas(pending, requests, number);
        evicted := Some(pending[number].id);
        requests := requests[pending[number].id := requests[pending[number].id].(fate := Evicted)];
        pending := pending - {number};
      }
      pending := pending[number := Pending(|requests|, now + timeout)];
      requests := requests + [Request(number, now + timeout, Waiting)];
    }

    /** `answered` is the request whose response callback fires. */
    method HandleResponse(number: nat) returns (ok: bool, answered: Option<nat>)
      requires Valid()
      modifies this
      ensures Valid() && Value() == AfterResponse(old(Value()), number)
      ensures ok <==> number in old(pending)
      ensures answered == if ok then Some(old(pending)[number].id) else None
    {
      SettleLinked(Value(), number, Answered);
      if number !in pending {
        return false, None;
      }
      answered := Some(pending[number].id);
      requests := requests[pending[number].id := requests[pending[number].id].(fate := Answered)];
      pending := pending - {number};
      ok := true;
    }

    /** The erase-while-iterating loop over the table. */
    method TakeExpired(now: Time) returns (fired: seq<(nat, nat)>)
      modifies this`pending
      ensures pending == Unexpired(old(pending), now)
      ensures Fired(fired, old(pending), now)
    {
      ghost var was := pending;
      fired := [];
      var rest := pending.Keys;
      while rest != {}
        invariant rest <= pending.Keys <= was.Keys
        invariant forall q :: q in pending ==> pending[q] == was[q]
        invariant forall q :: q in was && q !in rest ==> (q in pending <==> now < was[q].deadline)
        invariant Fired(fired, was - pending.Keys, now)
        decreases |rest|
      {
        var q :| q in rest;
        rest := rest - {q};
        if now >= pending[q].deadline {
          FiredMore(fired, was, pending, q, now);
          fired := fired + [(q, pending[q].id)];
          pending := pending - {q};
        }
      }
      assert pending == Unexpired(was, now);
      FiredAll(fired, was, now);
    }

    /** `fired` are the number and request of each timeout callback that fires
        after the loop. */
    method CheckTimeouts(now: Time) returns (fired: seq<(nat, nat)>)
      requires Valid()
      modifies this
      ensures Valid() && Value() == AfterCheck(old(Value()), now)
      ensures Fired(fired, old(pending), now)
    {
      var s := Value();
      CheckLinked(s, now);
      fired := TakeExpired(now);
      requests := AfterCheck(s, now).requests;
    }

    method Cancel(number: nat)
      requires Valid()
      modifies this
      ensures Valid() && Value() == AfterCancel(old(Value()), number)
    {
      SettleLinked(Value(), number, Cancelled);
      if number in pending {
        requests := requests[pending[number].id := requests[pending[number].id].(fate := Cancelled)];
      }
      pending := pending - {number};
    }

    method CancelAll()
      requires Valid()
      modifies this
      ensures Valid() && Value() == AfterCancelAll(old(Value()))
    {
      requests := AfterCancelAll(Value()).requests;
      pending := map[];
    }
  }

  // ---------------------------------------------------------- links are kept

  lemma SettleLinked(s: State, number: nat, fate: Fate)
    requires Linked(s.pending, s.requests) && fate != Waiting
    ensures number in s.pending ==>
      var r := Settled(s, s.pending[number].id, fate); Linked(s.pending - {number}, r.requests)
  {
  }

  lemma EntryHas(pending: map<nat, Pending>, requests: seq<Request>, number: nat)
    requires Linked(pending, requests) && number in pending
    ensures pending[number].id < |requests|
  {
  }

  lemma AddLinked(s: State, number: nat, deadline: Time)
    requires Linked(s.pending, s.requests)
    ensures var r := AfterAdd(s, number, deadline); Linked(r.pending, r.requests)
  {
    SettleLinked(s, number, Evicted);
    var e := Evict(s, number);
    var r := AfterAdd(s, number, deadline);
    assert Linked(e.pending, e.requests);
    assert forall q :: q in e.pending ==> q != number;
  }

  lemma CheckLinked(s: State, now: Time)
    requires Linked(s.pending, s.requests)
    ensures var r := AfterCheck(s, now); Linked(r.pending, r.requests)
  {
  }

  // ------------------------------------------------------------------- runs

  datatype Op =
    | Send(now: Time)
    | Skip
    | Receive(number: nat)
    | Check(now: Time)
    | CancelOne(number: nat)
    | CancelEvery

  /** A request takes the next number; `Skip` takes one without expecting a
      response. */
  function Apply(s: State, op: Op, timeout: nat): State {
    match op
    case Send(now) => AfterAdd(AfterNextSeq(s), s.next, now + timeout)
    case Skip => AfterNextSeq(s)
    case Receive(number) => AfterResponse(s, number)
    case Check(now) => AfterCheck(s, now)
    case CancelOne(number) => AfterCancel(s, number)
    case CancelEvery => AfterCancelAll(s)
  }

  function Run(s: State, ops: seq<Op>, timeout: nat): State
    decreases |ops|
  {
    if ops == [] then s else Run(Apply(s, ops[0], timeout), ops[1..], timeout)
  }

  lemma LinkedStep(s: State, op: Op, timeout: nat)
    requires Linked(s.pending, s.requests)
    ensures var r := Apply(s, op, timeout); Linked(r.pending, r.requests)
  {
    hide Linked;
    match op
    case Send(now) => AddLinked(AfterNextSeq(s), s.next, now + timeout);
    case Skip =>
    case Receive(number) => SettleLinked(s, number, Answered);
    case Check(now) => CheckLinked(s, now);
    case CancelOne(number) => SettleLinked(s, number, Cancelled);
    case CancelEvery => NoneLinked(s);
  }

  lemma NoneLinked(s: State)
    ensures var r := AfterCancelAll(s); Linked(r.pending, r.requests)
  {
  }

  lemma {:induction false} LinkedRun(s: State, ops: seq<Op>, timeout: nat)
    requires Linked(s.pending, s.requests)
    ensures var r := Run(s, ops, timeout); Linked(r.pending, r.requests)
    decreases |ops|
  {
    hide Linked;
    if ops != [] {
      LinkedStep(s, ops[0], timeout);
      LinkedRun(Apply(s, ops[0], timeout), ops[1..], timeout);
    }
  }

  // ---------------------------------------------------------- conservation

  function CountWaiting(rs: seq<Request>): nat {
    if rs == [] then 0 else CountWaiting(rs[..|rs| - 1]) + if rs[|rs| - 1].fate == Waiting then 1 else 0
  }

  function CountAnswered(rs: seq<Request>): nat {
    if rs == [] then 0 else CountAnswered(rs[..|rs| - 1]) + if rs[|rs| - 1].fate == Answered then 1 else 0
  }

  function CountTimedOut(rs: seq<Request>): nat {
    if rs == [] then 0 else CountTimedOut(rs[..|rs| - 1]) + if rs[|rs| - 1].fate.TimedOut? then 1 else 0
  }

  function CountEvicted(rs: seq<Request>): nat {
    if rs == [] then 0 else CountEvicted(rs[..|rs| - 1]) + if rs[|rs| - 1].fate == Evicted then 1 else 0
  }

  function CountCancelled(rs: seq<Request>): nat {
    if rs == [] then 0 else CountCancelled(rs[..|rs| - 1]) + if rs[|rs| - 1].fate == Cancelled then 1 else 0
  }

  lemma {:induction false} FatesPartition(rs: seq<Request>)
    ensures |rs| == CountWaiting(rs) + CountAnswered(rs) + CountTimedOut(rs) + CountEvicted(rs) + CountCancelled(rs)
  {
    if rs != [] {
      FatesPartition(rs[..|rs| - 1]);
    }
  }

  lemma {:induction false} PendingIsWaiting(pending: map<nat, Pending>, rs: seq<Request>)
    requires Linked(pending, rs)
    ensures |pending| == CountWaiting(rs)
    decreases |rs|
  {
    if rs == [] {
      assert pending == map[];
    } else {
      hide Linked;
      var n := |rs| - 1;
      LinkedFront(pending, rs);
      if rs[n].fate == Waiting {
        PendingIsWaiting(pending - {rs[n].number}, rs[..n]);
      } else {
        PendingIsWaiting(pending, rs[..n]);
      }
    }
  }

  lemma LinkedFront(pending: map<nat, Pending>, rs: seq<Request>)
    requires Linked(pending, rs) && rs != []
    ensures var n := |rs| - 1;
      if rs[n].fate == Waiting then
        Linked(pending - {rs[n].number}, rs[..n]) && |pending| == |pending - {rs[n].number}| + 1
      else Linked(pending, rs[..n])
  {
    var n := |rs| - 1;
    if rs[n].fate == Waiting {
      OneLess(pending, rs[n].number);
      FrontLinked(pending, rs);
    }
  }

  lemma OneLess(pending: map<nat, Pending>, q: nat)
    requires q in pending
    ensures |pending| == |pending - {q}| + 1
  {
    assert (pending - {q}).Keys == pending.Keys - {q};
  }

  lemma FrontLinked(pending: map<nat, Pending>, rs: seq<Request>)
    requires Linked(pending, rs) && rs != [] && rs[|rs| - 1].fate == Waiting
    ensures Linked(pending - {rs[|rs| - 1].number}, rs[..|rs| - 1])
  {
  }

  /** registered = answered + timed out + evicted + cancelled + pending. */
  lemma Conservation(ops: seq<Op>, timeout: nat)
    ensures var s := Run(START, ops, timeout);
      |s.requests| == CountAnswered(s.requests) + CountTimedOut(s.requests) + CountEvicted(s.requests)
                      + CountCancelled(s.requests) + |s.pending|
  {
    LinkedRun(START, ops, timeout);
    var s := Run(START, ops, timeout);
    FatesPartition(s.requests);
    PendingIsWaiting(s.pending, s.requests);
  }

  // ------------------------------------------------------- one fate, in time

  /** What a request keeps once registered, and once settled. */
  predicate Continues(rs: seq<Request>, ts: seq<Request>) {
    && |rs| <= |ts|
    && (forall i :: 0 <= i < |rs| ==> rs[i].number == ts[i].number && rs[i].due == ts[i].due)
    && (forall i :: 0 <= i < |rs| && rs[i].fate != Waiting ==> ts[i].fate == rs[i].fate)
  }

  lemma ContinuesStep(s: State, op: Op, timeout: nat)
    requires Linked(s.pending, s.requests)
    ensures Continues(s.requests, Apply(s, op, timeout).requests)
  {
  }

  /** A settled request never gets a second outcome. */
  lemma {:induction false} OneFate(s: State, ops: seq<Op>, timeout: nat)
    requires Linked(s.pending, s.requests)
    ensures Continues(s.requests, Run(s, ops, timeout).requests)
    decreases |ops|
  {
    hide Linked;
    if ops != [] {
      ContinuesStep(s, ops[0], timeout);
      LinkedStep(s, ops[0], timeout);
      OneFate(Apply(s, ops[0], timeout), ops[1..], timeout);
    }
  }

  predicate InTime(rs: seq<Request>) {
    forall i :: 0 <= i < |rs| && rs[i].fate.TimedOut? ==> rs[i].fate.at >= rs[i].due
  }

  lemma {:induction false} TimeoutsInTime(s: State, ops: seq<Op>, timeout: nat)
    requires InTime(s.requests)
    ensures InTime(Run(s, ops, timeout).requests)
    decreases |ops|
  {
    if ops != [] {
      TimeoutsInTime(Apply(s, ops[0], timeout), ops[1..], timeout);
    }
  }

  // ----------------------------------------------------- before the wrap

  /** How often a run takes a number. */
  function Takes(ops: seq<Op>): nat {
    if ops == [] then 0 else (if ops[0].Send? || ops[0].Skip? then 1 else 0) + Takes(ops[1..])
  }

  /** Numbers are handed out as 1, 2, 3, ...; nothing was evicted and nothing waits
      for number 0. */
  predicate Unwrapped(s: State) {
    && s.issued < WRAP && s.next == (s.issued + 1) % WRAP
    && (forall q :: q in s.pending ==> 1 <= q <= s.issued)
    && (forall i :: 0 <= i < |s.requests| ==> s.requests[i].fate != Evicted && 1 <= s.requests[i].number <= s.issued)
    && (forall i, j :: 0 <= i < j < |s.requests| ==> s.requests[i].number != s.requests[j].number)
  }

  lemma UnwrappedStep(s: State, op: Op, timeout: nat)
    requires Unwrapped(s) && ((op.Send? || op.Skip?) ==> s.issued + 1 < WRAP)
    ensures Unwrapped(Apply(s, op, timeout))
    ensures Apply(s, op, timeout).issued == s.issued + if op.Send? || op.Skip? then 1 else 0
  {
    if op.Send? {
      assert s.next == s.issued + 1 && s.next !in s.pending;
    }
  }

  lemma {:induction false} UnwrappedRun(s: State, ops: seq<Op>, timeout: nat)
    requires Unwrapped(s) && s.issued + Takes(ops) < WRAP
    ensures Unwrapped(Run(s, ops, timeout))
    decreases |ops|
  {
    hide Unwrapped;
    if ops != [] {
      UnwrappedFirst(s, ops, timeout);
      UnwrappedRun(Apply(s, ops[0], timeout), ops[1..], timeout);
    }
  }

  lemma UnwrappedFirst(s: State, ops: seq<Op>, timeout: nat)
    requires Unwrapped(s) && ops != [] && s.issued + Takes(ops) < WRAP
    ensures Unwrapped(Apply(s, ops[0], timeout))
    ensures Apply(s, ops[0], timeout).issued + Takes(ops[1..]) < WRAP
  {
    UnwrappedStep(s, ops[0], timeout);
  }

  /** Fewer than 2^32 numbers taken: no number is reused, no request evicted, and a
      server push, which carries number 0, is never consumed as a response. */
  lemma NoReuseBeforeWrap(ops: seq<Op>, timeout: nat)
    requires Takes(ops) < WRAP
    ensures var s := Run(START, ops, timeout);
      && (forall i, j :: 0 <= i < j < |s.requests| ==> s.requests[i].number != s.requests[j].number)
      && (forall i :: 0 <= i < |s.requests| ==> s.requests[i].fate != Evicted)
      && 0 !in s.pending && AfterResponse(s, 0) == s
  {
    UnwrappedRun(START, ops, timeout);
  }

  function Skips(n: nat): seq<Op> {
    if n == 0 then [] else [Skip] + Skips(n - 1)
  }

  lemma {:induction false} SkipsRun(s: State, n: nat, timeout: nat)
    requires s.next < WRAP
    decreases n
    ensures Run(s, Skips(n), timeout) == s.(next := (s.next + n) % WRAP, issued := s.issued + n)
  {
    if n > 0 {
      var t := AfterNextSeq(s);
      assert Skips(n)[1..] == Skips(n - 1);
      SkipsRun(t, n - 1, timeout);
      assert ((s.next + 1) % WRAP + (n - 1)) % WRAP == (s.next + n) % WRAP;
    }
  }

  lemma {:induction false} SkipsTake(n: nat)
    ensures Takes(Skips(n)) == n
  {
    if n > 0 {
      assert Skips(n)[1..] == Skips(n - 1);
      SkipsTake(n - 1);
    }
  }

  /** The bound is exact: the 2^32-th number taken is 0, and then a push does match
      the request. */
  lemma PushMatchesAfterWrap(timeout: nat)
    ensures Takes(Skips(WRAP - 1)) == WRAP - 1
    ensures var s := Apply(Run(START, Skips(WRAP - 1), timeout), Send(0), timeout);
      0 in s.pending && AfterResponse(s, 0).requests[0].fate == Answered
  {
    SkipsTake(WRAP - 1);
    SkipsRun(START, WRAP - 1, timeout);
  }

  // --------------------------------------- the reference: what ends a request

  /** What becomes of a waiting request, from the calls alone: the first that concerns
      it. `next` is the number the next call takes. */
  function FirstEnd(number: nat, due: Time, next: nat, ops: seq<Op>): Fate
    decreases |ops|
  {
    if ops == [] then Waiting
    else
      var rest := ops[1..];
      match ops[0]
      case Receive(q) => if q == number then Answered else FirstEnd(number, due, next, rest)
      case Check(now) => if now >= due then TimedOut(now) else FirstEnd(number, due, next, rest)
      case CancelOne(q) => if q == number then Cancelled else FirstEnd(number, due, next, rest)
      case CancelEvery => Cancelled
      case Send(_) => if next == number then Evicted else FirstEnd(number, due, (next + 1) % WRAP, rest)
      case Skip => FirstEnd(number, due, (next + 1) % WRAP, rest)
  }

  lemma EndStep(s: State, op: Op, timeout: nat, i: nat)
    requires Linked(s.pending, s.requests) && i < |s.requests| && s.requests[i].fate == Waiting
    ensures var r, x := Apply(s, op, timeout), s.requests[i];
      && i < |r.requests| && r.requests[i] == x.(fate := r.requests[i].fate)
      && r.next == (if op.Send? || op.Skip? then (s.next + 1) % WRAP else s.next)
      && r.requests[i].fate == FirstEnd(x.number, x.due, s.next, [op])
  {
    assert [op][1..] == [];
  }

  lemma FirstEndStep(number: nat, due: Time, next: nat, ops: seq<Op>)
    requires ops != []
    ensures var f := FirstEnd(number, due, next, [ops[0]]);
      FirstEnd(number, due, next, ops) ==
      if f != Waiting then f
      else FirstEnd(number, due, if ops[0].Send? || ops[0].Skip? then (next + 1) % WRAP else next, ops[1..])
  {
    assert [ops[0]][1..] == [];
  }

  /** Every request ends by the first call that concerns it: the response with its
      number, a check at or after its deadline, a cancel of its number or of all, or
      another request that takes its number; and by nothing else. */
  lemma {:induction false} EndsAsReference(s: State, ops: seq<Op>, timeout: nat, i: nat)
    requires Linked(s.pending, s.requests) && i < |s.requests| && s.requests[i].fate == Waiting
    ensures var r, x := Run(s, ops, timeout), s.requests[i];
      i < |r.requests| && r.requests[i].fate == FirstEnd(x.number, x.due, s.next, ops)
    decreases |ops|
  {
    hide Linked, FirstEnd;
    if ops == [] {
      NothingEnds(s.requests[i].number, s.requests[i].due, s.next);
    } else {
      var r, x := Apply(s, ops[0], timeout), s.requests[i];
      EndStep(s, ops[0], timeout, i);
      LinkedStep(s, ops[0], timeout);
      FirstEndStep(x.number, x.due, s.next, ops);
      if r.requests[i].fate == Waiting {
        EndsAsReference(r, ops[1..], timeout, i);
      } else {
        OneFate(r, ops[1..], timeout);
      }
    }
  }

  lemma NothingEnds(number: nat, due: Time, next: nat)
    ensures FirstEnd(number, due, next, []) == Waiting
  {
  }

  /** A request sent is registered under the number taken, due after the timeout. */
  lemma SendRegisters(s: State, now: Time, timeout: nat)
    requires Linked(s.pending, s.requests)
    ensures var r := Apply(s, Send(now), timeout);
      && |r.requests| == |s.requests| + 1
      && r.requests[|s.requests|] == Request(s.next, now + timeout, Waiting)
      && s.next in r.pending && r.pending[s.next] == Pending(|s.requests|, now + timeout)
  {
  }
}
