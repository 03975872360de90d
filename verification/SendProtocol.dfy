/** HandleSendMsg of server/service/msg_service.cpp as a concurrent protocol. Any
    number of handlers interleave between the first dedup section, the membership
    check, IncrMaxSeq, the message insert and the second dedup section; each of
    these is one step. */
module SendProtocol {
  import opened Collections
  import opened Wrappers
  import opened DedupCache

  type Time = int

  /** kInflightTimeout. */
  const INFLIGHT_TIMEOUT: Time := 30

  /** An empty key sends without dedup. */
  datatype Request = Request(key: Key, conv: nat)

  datatype Handler =
    | Idle
    | Checking(req: Request)
    | Numbering(req: Request)
    | Inserting(req: Request, n: nat)
    | Finishing(req: Request, n: nat)
    | Failing(req: Request)

  datatype Message = Message(conv: nat, n: nat, key: Key)

  datatype Reply = Success(key: Key, n: int) | Busy(key: Key) | Failure(key: Key)

  /** `burnt` records the sequence numbers whose insert failed. */
  datatype State = State(
    max: nat,
    now: Time,
    cache: Entries,
    inFlight: map<Key, Time>,
    maxSeq: map<nat, nat>,
    messages: seq<Message>,
    burnt: set<(nat, nat)>,
    handlers: seq<Handler>,
    replies: seq<Reply>)

  /** `ok` is the outcome of the database call made by the step. */
  datatype Action =
    | Begin(h: nat, req: Request)
    | Go(h: nat, ok: bool)
    | Tick(delta: nat)

  function Init(max: nat, convs: set<nat>, handlers: nat): State {
    State(max, 0, [], map[], map c | c in convs :: 0, [], {}, seq(handlers, _ => Idle), [])
  }

  function SetHandler(s: State, h: nat, pc: Handler): State
    requires h < |s.handlers|
  {
    s.(handlers := s.handlers[h := pc])
  }

  function Answer(s: State, r: Reply): State {
    s.(replies := s.replies + [r])
  }

  /** TryMarkInflight: a mark older than the timeout is taken over. */
  predicate MayMark(marks: map<Key, Time>, now: Time, key: Key) {
    key !in marks || now - marks[key] >= INFLIGHT_TIMEOUT
  }

  /** The first dedup section. */
  function StepBegin(s: State, h: nat, req: Request): State
    requires h < |s.handlers|
  {
    if req.key == "" then SetHandler(s, h, Checking(req))
    else
      match Lookup(s.cache, req.key)
      case Some(ack) => Answer(s.(cache := AfterFind(s.cache, req.key)), Success(req.key, ack.serverSeq))
      case None =>
        if MayMark(s.inFlight, s.now, req.key) then
          SetHandler(s, h, Checking(req)).(inFlight := s.inFlight[req.key := s.now])
        else
          Answer(s, Busy(req.key))
  }

  function Unmark(s: State, key: Key): State {
    if key == "" then s else s.(inFlight := s.inFlight - {key})
  }

  function StepGo(s: State, h: nat, ok: bool): State
    requires h < |s.handlers|
  {
    match s.handlers[h]
    case Idle => s
    case Checking(req) => SetHandler(s, h, if ok then Numbering(req) else Failing(req))
    case Numbering(req) =>
      if ok && req.conv in s.maxSeq then
        var n := s.maxSeq[req.conv] + 1;
        SetHandler(s, h, Inserting(req, n)).(maxSeq := s.maxSeq[req.conv := n])
      else
        SetHandler(s, h, Failing(req))
    case Inserting(req, n) =>
      if ok then
        SetHandler(s, h, Finishing(req, n)).(messages := s.messages + [Message(req.conv, n, req.key)])
      else
        SetHandler(s, h, Failing(req)).(burnt := s.burnt + {(req.conv, n)})
    case Finishing(req, n) =>
      var r := Unmark(Answer(SetHandler(s, h, Idle), Success(req.key, n)), req.key);
      if req.key == "" then r
      else r.(cache := AfterInsert(s.cache, req.key, Ack(n, s.now), s.max))
    case Failing(req) =>
      Answer(Unmark(SetHandler(s, h, Idle), req.key), Failure(req.key))
  }

  function Step(s: State, a: Action): State {
    match a
    case Begin(h, req) => if h < |s.handlers| && s.handlers[h].Idle? then StepBegin(s, h, req) else s
    case Go(h, ok) => if h < |s.handlers| then StepGo(s, h, ok) else s
    case Tick(delta) => s.(now := s.now + delta)
  }

  function Run(s: State, acts: seq<Action>): State
    decreases |acts|
  {
    if acts == [] then s else Run(Step(s, acts[0]), acts[1..])
  }

  // ------------------------------------------------ the critical sections

  datatype Verdict = Cached(ack: Ack) | Marked | Duplicate

  /** The cache and the in-flight table behind `dedup_mutex_`; its methods are the
      two sections that the handler runs under that lock. */
  class Dedup {
    const cache: Cache
    var inFlight: map<Key, Time>

    ghost predicate Valid()
      reads this, cache
    {
      cache.Valid()
    }

    constructor (max: nat)
      ensures Valid() && fresh(cache) && cache.max == max && cache.Contents() == [] && inFlight == map[]
    {
      cache := new Cache(max);
      inFlight := map[];
    }

    method TryMarkInflight(key: Key, now: Time) returns (ok: bool)
      modifies this`inFlight
      ensures ok <==> MayMark(old(inFlight), now, key)
      ensures inFlight == if ok then old(inFlight)[key := now] else old(inFlight)
    {
      if key !in inFlight {
        inFlight := inFlight[key := now];
        return true;
      }
      if now - inFlight[key] >= INFLIGHT_TIMEOUT {
        inFlight := inFlight[key := now];
        return true;
      }
      return false;
    }

    /** The first section, for a non-empty key: what a Begin step does to cache and
        marks, and which way the handler goes. */
    method Enter(key: Key, now: Time) returns (v: Verdict)
      requires Valid() && key != ""
      modifies this`inFlight, cache`order
      ensures Valid() && cache.Contents() == AfterFind(old(cache.Contents()), key)
      ensures Agrees(v, old(cache.Contents()), old(inFlight), inFlight, key, now)
    {
      var hit := cache.Find(key);
      if hit.Some? {
        return Cached(hit.value);
      }
      var ok := TryMarkInflight(key, now);
      return if ok then Marked else Duplicate;
    }

    /** The second section, after the insert. */
    method Leave(key: Key, ack: Ack)
      requires Valid()
      modifies this`inFlight, cache, cache.order
      ensures Valid() && cache.Contents() == AfterInsert(old(cache.Contents()), key, ack, cache.max)
      ensures inFlight == old(inFlight) - {key}
    {
      inFlight := inFlight - {key};
      cache.Insert(key, ack);
    }

    method RemoveInflightIfNeeded(key: Key)
      modifies this`inFlight
      ensures inFlight == if key == "" then old(inFlight) else old(inFlight) - {key}
    {
      if key != "" {
        inFlight := inFlight - {key};
      }
    }
  }

  /** The verdict and the marks that a first section on these contents leaves. */
  predicate Agrees(v: Verdict, es: Entries, before: map<Key, Time>, after: map<Key, Time>, key: Key, now: Time) {
    match Lookup(es, key)
    case Some(ack) => v == Cached(ack) && after == before
    case None =>
      if MayMark(before, now, key) then v == Marked && after == before[key := now]
      else v == Duplicate && after == before
  }

  /** The sections as methods and the protocol's steps do the same to the shared
      state, and the handler's next state follows the verdict. */
  lemma BeginIsEnter(s: State, h: nat, req: Request, v: Verdict, after: map<Key, Time>)
    requires h < |s.handlers| && s.handlers[h].Idle? && req.key != ""
    requires Agrees(v, s.cache, s.inFlight, after, req.key, s.now)
    ensures var r := StepBegin(s, h, req);
      && r.cache == AfterFind(s.cache, req.key) && r.inFlight == after
      && (v.Marked? <==> r.handlers[h] == Checking(req))
      && (v.Cached? ==> r.replies == s.replies + [Success(req.key, v.ack.serverSeq)])
      && (v.Duplicate? ==> r.replies == s.replies + [Busy(req.key)])
  {
  }

  /** The object holds what the protocol's state says. */
  ghost predicate Shows(d: Dedup, s: State)
    reads d, d.cache, d.cache.order
  {
    d.Valid() && d.cache.max == s.max && d.cache.Contents() == s.cache && d.inFlight == s.inFlight
  }

  /** What a handler does under the lock in one step: the first section as it
      begins, the second as it finishes, the removal of its mark as it fails. The
      object then holds what the protocol's next state says. */
  method Perform(d: Dedup, s: State, a: Action)
    requires Shows(d, s)
    modifies d`inFlight, d.cache, d.cache.order
    ensures Shows(d, Step(s, a))
  {
    hide Cache.Valid, Cache.Contents, AfterFind, AfterInsert, Lookup, MayMark, Agrees;
    match a
    case Begin(h, req) =>
      if h < |s.handlers| && s.handlers[h].Idle? && req.key != "" {
        ghost var v := d.Enter(req.key, s.now);
        BeginIsEnter(s, h, req, v, d.inFlight);
      }
    case Go(h, ok) =>
      if h < |s.handlers| {
        if s.handlers[h].Finishing? && s.handlers[h].req.key != "" {
          d.Leave(s.handlers[h].req.key, Ack(s.handlers[h].n, s.now));
        } else if s.handlers[h].Failing? {
          d.RemoveInflightIfNeeded(s.handlers[h].req.key);
        }
      }
    case Tick(_) =>
  }

  // ------------------------------------------------- sequence numbers

  predicate HoldsNumber(pc: Handler, c: nat, n: nat) {
    pc.Inserting? && pc.req.conv == c && pc.n == n
  }

  predicate IsStored(s: State, c: nat, n: nat) {
    exists i :: 0 <= i < |s.messages| && s.messages[i].conv == c && s.messages[i].n == n
  }

  ghost predicate IsHeld(s: State, c: nat, n: nat) {
    exists h :: 0 <= h < |s.handlers| && HoldsNumber(s.handlers[h], c, n)
  }

  predicate Issued(s: State, c: nat, n: nat) {
    c in s.maxSeq && 1 <= n <= s.maxSeq[c]
  }

  ghost predicate StoredOk(s: State) {
    && (forall i :: 0 <= i < |s.messages| ==> Issued(s, s.messages[i].conv, s.messages[i].n))
    && (forall i, j :: 0 <= i < j < |s.messages| ==>
          s.messages[i].conv != s.messages[j].conv || s.messages[i].n != s.messages[j].n)
  }

  ghost predicate HeldOk(s: State) {
    forall h, c: nat, n: nat :: 0 <= h < |s.handlers| && HoldsNumber(s.handlers[h], c, n) ==>
      Issued(s, c, n) && !IsStored(s, c, n) && (c, n) !in s.burnt
  }

  ghost predicate HeldOnce(s: State) {
    forall g, h, c: nat, n: nat {:trigger HoldsNumber(s.handlers[g], c, n), HoldsNumber(s.handlers[h], c, n)} ::
      0 <= g < h < |s.handlers| ==> !(HoldsNumber(s.handlers[g], c, n) && HoldsNumber(s.handlers[h], c, n))
  }

  ghost predicate BurntOk(s: State) {
    forall c: nat, n: nat :: (c, n) in s.burnt ==> Issued(s, c, n) && !IsStored(s, c, n)
  }

  ghost predicate NoGap(s: State) {
    forall c: nat, n: nat :: Issued(s, c, n) ==> IsStored(s, c, n) || IsHeld(s, c, n) || (c, n) in s.burnt
  }

  /** Every number of a conversation up to its max_seq was handed out once and is
      stored by one message, held by one handler, or burnt by a failed insert. */
  ghost predicate SeqInv(s: State) {
    StoredOk(s) && HeldOk(s) && HeldOnce(s) && BurntOk(s) && NoGap(s)
  }

  ghost predicate OthersHold(s: State, h: nat, c: nat, n: nat) {
    exists g :: 0 <= g < |s.handlers| && g != h && HoldsNumber(s.handlers[g], c, n)
  }

  lemma HeldSplit(s: State, h: nat, c: nat, n: nat)
    requires h < |s.handlers|
    ensures IsHeld(s, c, n) <==> HoldsNumber(s.handlers[h], c, n) || OthersHold(s, h, c, n)
  {
  }

  lemma OthersFrame(s: State, r: State, h: nat, c: nat, n: nat)
    requires h < |s.handlers| == |r.handlers| && r.handlers == s.handlers[h := r.handlers[h]]
    ensures OthersHold(s, h, c, n) <==> OthersHold(r, h, c, n)
  {
    if OthersHold(s, h, c, n) {
      var g :| 0 <= g < |s.handlers| && g != h && HoldsNumber(s.handlers[g], c, n);
      assert HoldsNumber(r.handlers[g], c, n);
    }
    if OthersHold(r, h, c, n) {
      var g :| 0 <= g < |r.handlers| && g != h && HoldsNumber(r.handlers[g], c, n);
      assert HoldsNumber(s.handlers[g], c, n);
    }
  }

  lemma StoredGrows(s: State, m: Message)
    ensures var r := s.(messages := s.messages + [m]);
      forall c, n :: IsStored(r, c, n) <==> IsStored(s, c, n) || (c == m.conv && n == m.n)
  {
    var r := s.(messages := s.messages + [m]);
    forall c, n ensures IsStored(r, c, n) <==> IsStored(s, c, n) || (c == m.conv && n == m.n) {
      if IsStored(s, c, n) {
        var i :| 0 <= i < |s.messages| && s.messages[i].conv == c && s.messages[i].n == n;
        assert r.messages[i] == s.messages[i];
      }
      if c == m.conv && n == m.n {
        assert r.messages[|s.messages|] == m;
      }
    }
  }

  lemma IsStoredSame(s: State, r: State)
    requires r.messages == s.messages
    ensures forall c: nat, n: nat :: IsStored(s, c, n) <==> IsStored(r, c, n)
  {
  }

  lemma HeldStep(s: State, r: State, h: nat)
    requires h < |s.handlers| == |r.handlers| && r.handlers == s.handlers[h := r.handlers[h]]
    ensures forall c: nat, n: nat :: IsHeld(s, c, n) && !HoldsNumber(s.handlers[h], c, n) ==> IsHeld(r, c, n)
    ensures forall c: nat, n: nat :: HoldsNumber(r.handlers[h], c, n) ==> IsHeld(r, c, n)
  {
    forall c: nat, n: nat | IsHeld(s, c, n) && !HoldsNumber(s.handlers[h], c, n) ensures IsHeld(r, c, n) {
      HeldSplit(s, h, c, n);
      HeldSplit(r, h, c, n);
      OthersFrame(s, r, h, c, n);
    }
  }

  /** A handler may give its number back, or take one nobody holds. */
  lemma HeldOnceStep(s: State, r: State, h: nat)
    requires HeldOnce(s) && h < |s.handlers| == |r.handlers| && r.handlers == s.handlers[h := r.handlers[h]]
    requires forall c: nat, n: nat :: HoldsNumber(r.handlers[h], c, n) ==> !IsHeld(s, c, n)
    ensures HeldOnce(r)
  {
    forall g, k, c: nat, n: nat | 0 <= g < k < |r.handlers|
      ensures !(HoldsNumber(r.handlers[g], c, n) && HoldsNumber(r.handlers[k], c, n))
    {
      assert !(HoldsNumber(s.handlers[g], c, n) && HoldsNumber(s.handlers[k], c, n));
      assert g != h && HoldsNumber(r.handlers[g], c, n) ==> IsHeld(s, c, n);
      assert k != h && HoldsNumber(r.handlers[k], c, n) ==> IsHeld(s, c, n);
    }
  }

  /** A step that leaves numbers, messages and holders alone. */
  lemma SeqQuiet(s: State, r: State, h: nat)
    requires SeqInv(s) && h < |s.handlers| == |r.handlers| && r.handlers == s.handlers[h := r.handlers[h]]
    requires !s.handlers[h].Inserting? && !r.handlers[h].Inserting?
    requires r.maxSeq == s.maxSeq && r.messages == s.messages && r.burnt == s.burnt
    ensures SeqInv(r)
  {
    hide IsStored, IsHeld;
    IsStoredSame(s, r);
    HeldStep(s, r, h);
    HeldOnceStep(s, r, h);
    assert forall c: nat, n: nat :: Issued(r, c, n) <==> Issued(s, c, n);
  }

  lemma SeqNumbering(s: State, h: nat, ok: bool)
    requires SeqInv(s) && h < |s.handlers| && s.handlers[h].Numbering?
    ensures SeqInv(StepGo(s, h, ok))
  {
    hide IsStored, IsHeld;
    var r := StepGo(s, h, ok);
    var req := s.handlers[h].req;
    if ok && req.conv in s.maxSeq {
      var fresh_ := s.maxSeq[req.conv] + 1;
      IsStoredSame(s, r);
      HeldStep(s, r, h);
      NotYetIssued(s, req.conv, fresh_);
      HeldOnceStep(s, r, h);
      assert forall c: nat, n: nat :: Issued(r, c, n) <==> Issued(s, c, n) || (c == req.conv && n == fresh_);
      assert HoldsNumber(r.handlers[h], req.conv, fresh_);
    } else {
      SeqQuiet(s, r, h);
    }
  }

  lemma NotYetIssued(s: State, c: nat, n: nat)
    requires SeqInv(s) && !Issued(s, c, n)
    ensures !IsStored(s, c, n) && !IsHeld(s, c, n) && (c, n) !in s.burnt
  {
  }

  lemma SeqInserting(s: State, h: nat, ok: bool)
    requires SeqInv(s) && h < |s.handlers| && s.handlers[h].Inserting?
    ensures SeqInv(StepGo(s, h, ok))
  {
    var r := StepGo(s, h, ok);
    var pc := s.handlers[h];
    StoredGrows(s, Message(pc.req.conv, pc.n, pc.req.key));
    IsStoredSame(r, if ok then s.(messages := r.messages) else s);
    HeldStep(s, r, h);
    HeldOnceStep(s, r, h);
    assert HoldsNumber(pc, pc.req.conv, pc.n);
    assert forall c: nat, n: nat :: Issued(r, c, n) <==> Issued(s, c, n);
    SeqInsertingRest(s, r, h, ok);
  }

  lemma SeqInsertingRest(s: State, r: State, h: nat, ok: bool)
    requires SeqInv(s) && h < |s.handlers| && s.handlers[h].Inserting? && r == StepGo(s, h, ok)
    requires var pc := s.handlers[h];
      && HoldsNumber(pc, pc.req.conv, pc.n)
      && (forall c: nat, n: nat :: IsStored(r, c, n) <==> IsStored(s, c, n) || (ok && c == pc.req.conv && n == pc.n))
    requires forall c: nat, n: nat :: IsHeld(s, c, n) && !HoldsNumber(s.handlers[h], c, n) ==> IsHeld(r, c, n)
    requires forall c: nat, n: nat :: Issued(r, c, n) <==> Issued(s, c, n)
    requires HeldOnce(r)
    ensures SeqInv(r)
  {
    hide IsStored, IsHeld;
    var pc := s.handlers[h];
    assert Issued(s, pc.req.conv, pc.n) && !IsStored(s, pc.req.conv, pc.n);
    forall g, c: nat, n: nat | 0 <= g < |r.handlers| && HoldsNumber(r.handlers[g], c, n)
      ensures Issued(r, c, n) && !IsStored(r, c, n) && (c, n) !in r.burnt
    {
      assert HoldsNumber(s.handlers[g], c, n);
      assert HoldsNumber(s.handlers[h], c, n) ==> g == h;
    }
    forall i, j | 0 <= i < j < |r.messages|
      ensures r.messages[i].conv != r.messages[j].conv || r.messages[i].n != r.messages[j].n
    {
      StoredAt(s, i);
    }
  }

  lemma StoredAt(s: State, i: nat)
    ensures i < |s.messages| ==> IsStored(s, s.messages[i].conv, s.messages[i].n)
  {
  }

  lemma SeqBegin(s: State, h: nat, req: Request)
    requires SeqInv(s) && h < |s.handlers| && s.handlers[h].Idle?
    ensures SeqInv(StepBegin(s, h, req))
  {
    hide SeqInv, Lookup, AfterFind, MayMark;
    SeqQuiet(s, StepBegin(s, h, req), h);
  }

  lemma SeqOther(s: State, h: nat, ok: bool)
    requires SeqInv(s) && h < |s.handlers| && !s.handlers[h].Numbering? && !s.handlers[h].Inserting?
    ensures SeqInv(StepGo(s, h, ok))
  {
    hide SeqInv, AfterInsert;
    SeqQuiet(s, StepGo(s, h, ok), h);
  }

  lemma SeqStep(s: State, a: Action)
    requires SeqInv(s)
    ensures SeqInv(Step(s, a))
  {
    hide SeqInv, StepBegin, StepGo;
    var r := Step(s, a);
    match a
    case Begin(h, req) =>
      if h < |s.handlers| && s.handlers[h].Idle? {
        SeqBegin(s, h, req);
      }
    case Go(h, ok) =>
      if h < |s.handlers| {
        if s.handlers[h].Numbering? {
          SeqNumbering(s, h, ok);
        } else if s.handlers[h].Inserting? {
          SeqInserting(s, h, ok);
        } else {
          SeqOther(s, h, ok);
        }
      }
    case Tick(_) => SeqClock(s, r);
  }

  lemma SeqClock(s: State, r: State)
    requires SeqInv(s) && r == s.(now := r.now)
    ensures SeqInv(r)
  {
    IsStoredSame(s, r);
    forall c: nat, n: nat ensures IsHeld(r, c, n) <==> IsHeld(s, c, n) {
    }
    hide IsStored, IsHeld;
    assert forall c: nat, n: nat :: Issued(r, c, n) <==> Issued(s, c, n);
  }

  lemma {:induction false} SeqRun(s: State, acts: seq<Action>)
    requires SeqInv(s)
    ensures SeqInv(Run(s, acts))
    decreases |acts|
  {
    hide SeqInv;
    if acts != [] {
      SeqStep(s, acts[0]);
      SeqRun(Step(s, acts[0]), acts[1..]);
    }
  }

  /** In every run, with any failures: within a conversation no sequence number
      is stored twice, none above max_seq is stored, and a number up to max_seq
      that is neither stored nor in a handler's hands is one whose insert failed. */
  lemma NumbersNeverReused(max: nat, convs: set<nat>, handlers: nat, acts: seq<Action>)
    ensures var s := Run(Init(max, convs, handlers), acts); StoredOk(s) && NoGap(s) && HeldOnce(s) && BurntOk(s)
  {
    var s := Init(max, convs, handlers);
    assert SeqInv(s);
    SeqRun(s, acts);
  }

  // ------------------------------------------------------ exactly once

  predicate WorksOn(pc: Handler, key: Key) {
    !pc.Idle? && pc.req.key == key
  }

  /** A handler for `key` starts although another one still holds its mark,
      because that mark is 30 seconds old. */
  predicate TakesOver(s: State, a: Action, key: Key) {
    && a.Begin? && a.h < |s.handlers| && s.handlers[a.h].Idle? && a.req.key == key
    && !Holds(s.cache, key) && key in s.inFlight && MayMark(s.inFlight, s.now, key)
  }

  /** A handler that finishes leaves no ack of `key` in the cache: its own key is
      `key` and the cache is disabled, or it brings a key the full cache does not
      hold and `key` is among the oldest entries, which make room. */
  predicate Forgets(s: State, a: Action, key: Key) {
    && a.Go? && a.h < |s.handlers| && s.handlers[a.h].Finishing?
    && var k := s.handlers[a.h].req.key;
       if k == key then s.max == 0
       else
         && k != "" && s.max > 0 && Holds(s.cache, key) && !Holds(s.cache, k)
         && Position(s.cache, key) + s.max <= |s.cache|
  }

  /** What Forgets means for the step: the ack of `key` was in the cache, or just
      came up, and is not there afterwards. */
  predicate Drops(s: State, a: Action, key: Key) {
    && !Holds(Step(s, a).cache, key)
    && (Holds(s.cache, key) ||
        (a.Go? && a.h < |s.handlers| && s.handlers[a.h].Finishing? && s.handlers[a.h].req.key == key))
  }

  /** Along the run nobody takes over a mark of `key` and its ack is never lost. */
  predicate Undisturbed(s: State, acts: seq<Action>, key: Key)
    decreases |acts|
  {
    acts == [] || (
      && !TakesOver(s, acts[0], key)
      && !Forgets(s, acts[0], key)
      && Undisturbed(Step(s, acts[0]), acts[1..], key))
  }

  ghost predicate OneWorker(s: State, key: Key) {
    forall g, h :: 0 <= g < h < |s.handlers| ==> !(WorksOn(s.handlers[g], key) && WorksOn(s.handlers[h], key))
  }

  /** A stored message for `key`, if there is one. */
  ghost predicate MessageFor(s: State, key: Key, n: int) {
    exists i :: 0 <= i < |s.messages| && s.messages[i].key == key && s.messages[i].n == n
  }

  ghost predicate AtMostOne(s: State, key: Key) {
    forall i, j :: 0 <= i < j < |s.messages| ==> !(s.messages[i].key == key && s.messages[j].key == key)
  }

  ghost predicate CacheTells(s: State, key: Key) {
    match Lookup(s.cache, key)
    case Some(ack) => MessageFor(s, key, ack.serverSeq) && forall h :: 0 <= h < |s.handlers| ==> !WorksOn(s.handlers[h], key)
    case None => true
  }

  /** Whoever works on `key` is marked, and has stored the only message exactly
      when it is finishing; without a worker a stored message is in the cache. */
  ghost predicate WorkerTells(s: State, key: Key) {
    && (forall h :: 0 <= h < |s.handlers| && WorksOn(s.handlers[h], key) ==>
          && key in s.inFlight
          && (forall n :: MessageFor(s, key, n) <==> s.handlers[h].Finishing? && s.handlers[h].n == n))
    && (forall n :: MessageFor(s, key, n) && !Holds(s.cache, key) ==>
          exists h :: 0 <= h < |s.handlers| && WorksOn(s.handlers[h], key))
  }

  ghost predicate RepliesTell(s: State, key: Key) {
    forall i :: 0 <= i < |s.replies| && s.replies[i].Success? && s.replies[i].key == key ==>
      exists ack :: Lookup(s.cache, key) == Some(ack) && ack.serverSeq == s.replies[i].n
  }

  ghost predicate CacheOk(s: State) {
    DistinctKeys(s.cache) && |s.cache| <= s.max
  }

  ghost predicate OnceInv(s: State, key: Key) {
    && CacheOk(s) && OneWorker(s, key) && AtMostOne(s, key)
    && CacheTells(s, key) && WorkerTells(s, key) && RepliesTell(s, key)
  }

  lemma MessageAppend(s: State, m: Message, key: Key)
    ensures var r := s.(messages := s.messages + [m]);
      forall n :: MessageFor(r, key, n) <==> MessageFor(s, key, n) || (m.key == key && m.n == n)
  {
    var r := s.(messages := s.messages + [m]);
    forall n ensures MessageFor(r, key, n) <==> MessageFor(s, key, n) || (m.key == key && m.n == n) {
      if MessageFor(s, key, n) {
        var i :| 0 <= i < |s.messages| && s.messages[i].key == key && s.messages[i].n == n;
        assert r.messages[i] == s.messages[i];
      }
      if m.key == key && m.n == n {
        assert r.messages[|s.messages|] == m;
      }
    }
  }

  lemma MessageSame(s: State, r: State, key: Key)
    requires r.messages == s.messages
    ensures forall n :: MessageFor(r, key, n) <==> MessageFor(s, key, n)
  {
  }

  /** Messages and success replies grew, if at all, by one for another key. */
  predicate ForOthers(s: State, r: State, key: Key) {
    && (r.messages == s.messages ||
        (&& |r.messages| == |s.messages| + 1 && r.messages == s.messages + [r.messages[|s.messages|]]
         && r.messages[|s.messages|].key != key))
    && (r.replies == s.replies ||
        (&& |r.replies| == |s.replies| + 1 && r.replies == s.replies + [r.replies[|s.replies|]]
         && !(r.replies[|s.replies|].Success? && r.replies[|s.replies|].key == key)))
  }

  /** A step that concerns another key, as seen from `key`. */
  lemma OtherKey(s: State, r: State, h: nat, key: Key)
    requires OnceInv(s, key) && CacheOk(r)
    requires h < |s.handlers| == |r.handlers| && r.handlers == s.handlers[h := r.handlers[h]]
    requires !WorksOn(s.handlers[h], key) && !WorksOn(r.handlers[h], key)
    requires Lookup(r.cache, key) == Lookup(s.cache, key)
    requires key in r.inFlight <==> key in s.inFlight
    requires ForOthers(s, r, key)
    ensures OnceInv(r, key)
  {
    if r.messages == s.messages {
      MessageSame(s, r, key);
    } else {
      MessageAppend(s, r.messages[|s.messages|], key);
      MessageSame(s.(messages := r.messages), r, key);
    }
    forall g | 0 <= g < |r.handlers| ensures WorksOn(r.handlers[g], key) <==> WorksOn(s.handlers[g], key) {
    }
    OtherKeyRest(s, r, h, key);
  }

  lemma OtherKeyRest(s: State, r: State, h: nat, key: Key)
    requires OnceInv(s, key) && CacheOk(r)
    requires h < |s.handlers| == |r.handlers| && r.handlers == s.handlers[h := r.handlers[h]]
    requires forall g :: 0 <= g < |r.handlers| ==> (WorksOn(r.handlers[g], key) <==> WorksOn(s.handlers[g], key))
    requires !WorksOn(s.handlers[h], key)
    requires forall n :: MessageFor(r, key, n) <==> MessageFor(s, key, n)
    requires Lookup(r.cache, key) == Lookup(s.cache, key)
    requires key in r.inFlight <==> key in s.inFlight
    requires ForOthers(s, r, key)
    ensures OnceInv(r, key)
  {
    hide MessageFor, Position, DistinctKeys;
    assert Holds(r.cache, key) <==> Holds(s.cache, key);
    forall n | MessageFor(r, key, n) && !Holds(r.cache, key)
      ensures exists g :: 0 <= g < |r.handlers| && WorksOn(r.handlers[g], key)
    {
      var g :| 0 <= g < |s.handlers| && WorksOn(s.handlers[g], key);
      assert WorksOn(r.handlers[g], key);
    }
  }

  /** A cache operation for another key does not change what `key` finds, unless
      it pushes `key` out. */
  lemma CacheOther(s: State, op: Op, key: Key)
    requires CacheOk(s)
    ensures var c := Apply(s.cache, op, s.max);
      && DistinctKeys(c) && |c| <= s.max
      && (key != op.key && (Holds(s.cache, key) ==> Holds(c, key)) ==> Lookup(c, key) == Lookup(s.cache, key))
  {
    MovedEntries(s.cache, op, s.max, key);
  }

  /** The guard is exact. */
  lemma ForgetsIff(s: State, a: Action, key: Key)
    requires CacheOk(s) && key != ""
    ensures Forgets(s, a, key) <==> Drops(s, a, key)
  {
    hide Position, AfterInsert, DistinctKeys, AfterFind;
    match a
    case Begin(h, req) =>
      if Holds(s.cache, key) {
        FindKeeps(s.cache, req.key, key);
      }
    case Go(h, ok) =>
      if h < |s.handlers| && s.handlers[h].Finishing? {
        InsertDrops(s.cache, s.handlers[h].req.key, Ack(s.handlers[h].n, s.now), s.max, key);
      }
    case Tick(_) =>
  }

  lemma BeginOther(s: State, h: nat, req: Request, key: Key)
    requires OnceInv(s, key) && h < |s.handlers| && s.handlers[h].Idle?
    requires key != "" && req.key != key && !Forgets(s, Begin(h, req), key)
    ensures OnceInv(StepBegin(s, h, req), key)
  {
    hide OnceInv, Position, Without, AfterInsert, DistinctKeys;
    var r := StepBegin(s, h, req);
    OnceParts(s, key);
    ForgetsIff(s, Begin(h, req), key);
    CacheOther(s, DedupCache.Op.Find(req.key), key);
    assert r.handlers == s.handlers[h := r.handlers[h]];
    OtherKey(s, r, h, key);
  }

  lemma OnceParts(s: State, key: Key)
    requires OnceInv(s, key)
    ensures CacheOk(s)
  {
  }

  lemma GoOther(s: State, h: nat, ok: bool, key: Key)
    requires OnceInv(s, key) && h < |s.handlers| && !WorksOn(s.handlers[h], key)
    requires key != "" && !Forgets(s, Go(h, ok), key)
    ensures OnceInv(StepGo(s, h, ok), key)
  {
    hide OnceInv, Position, Without, AfterFind, AfterInsert, DistinctKeys;
    var r := StepGo(s, h, ok);
    OnceParts(s, key);
    ForgetsIff(s, Go(h, ok), key);
    var pc := s.handlers[h];
    if pc.Finishing? && pc.req.key != "" {
      CacheOther(s, DedupCache.Op.Insert(pc.req.key, Ack(pc.n, s.now)), key);
    }
    OtherKey(s, r, h, key);
  }

  /** A retry finds the ack in the cache and only adds a reply. */
  lemma BeginHit(s: State, h: nat, req: Request)
    requires OnceInv(s, req.key) && h < |s.handlers| && s.handlers[h].Idle? && req.key != ""
    requires Holds(s.cache, req.key)
    ensures OnceInv(StepBegin(s, h, req), req.key)
  {
    var key := req.key;
    var r := StepBegin(s, h, req);
    MovedEntries(s.cache, DedupCache.Op.Find(key), s.max, key);
    MessageSame(s, r, key);
    FoundStays(s.cache, key);
    hide MessageFor, Position, Without, DistinctKeys, AfterFind;
    assert Lookup(r.cache, key) == Lookup(s.cache, key);
  }

  /** A first send marks the key, a second one meanwhile is told to wait. */
  lemma BeginMiss(s: State, h: nat, req: Request)
    requires OnceInv(s, req.key) && h < |s.handlers| && s.handlers[h].Idle? && req.key != ""
    requires !Holds(s.cache, req.key) && !TakesOver(s, Begin(h, req), req.key)
    ensures OnceInv(StepBegin(s, h, req), req.key)
  {
    var key := req.key;
    var r := StepBegin(s, h, req);
    MessageSame(s, r, key);
    hide MessageFor, Position, DistinctKeys;
    if MayMark(s.inFlight, s.now, key) {
      assert forall g :: 0 <= g < |s.handlers| ==> !WorksOn(s.handlers[g], key);
      assert forall n :: !MessageFor(s, key, n);
      assert WorksOn(r.handlers[h], key);
      NoMessage(s, key);
    } else {
      assert r.handlers == s.handlers;
    }
  }

  lemma NoMessage(s: State, key: Key)
    requires forall n :: !MessageFor(s, key, n)
    ensures AtMostOne(s, key)
  {
    forall i | 0 <= i < |s.messages| ensures s.messages[i].key != key {
      assert s.messages[i].key == key ==> MessageFor(s, key, s.messages[i].n);
    }
  }

  lemma OnlyWorker(s: State, h: nat, key: Key)
    requires OneWorker(s, key) && h < |s.handlers| && WorksOn(s.handlers[h], key)
    ensures forall g :: 0 <= g < |s.handlers| && g != h ==> !WorksOn(s.handlers[g], key)
  {
    forall g | 0 <= g < |s.handlers| && g != h && WorksOn(s.handlers[g], key) ensures false {
      if g < h {
        assert false;
      } else {
        assert false;
      }
    }
  }

  /** The worker moves on without storing and without finishing. */
  lemma MoveKey(s: State, h: nat, ok: bool, key: Key)
    requires OnceInv(s, key) && h < |s.handlers| && WorksOn(s.handlers[h], key)
    requires s.handlers[h].Checking? || s.handlers[h].Numbering? || (s.handlers[h].Inserting? && !ok)
    ensures OnceInv(StepGo(s, h, ok), key)
  {
    var r := StepGo(s, h, ok);
    MessageSame(s, r, key);
    assert WorksOn(r.handlers[h], key);
    OnlyWorker(s, h, key);
    hide MessageFor, Position, DistinctKeys;
  }

  lemma InsertKey(s: State, h: nat, key: Key)
    requires OnceInv(s, key) && h < |s.handlers| && WorksOn(s.handlers[h], key) && s.handlers[h].Inserting?
    ensures OnceInv(StepGo(s, h, true), key)
  {
    var r := StepGo(s, h, true);
    var pc := s.handlers[h];
    MessageAppend(s, Message(pc.req.conv, pc.n, key), key);
    MessageSame(s.(messages := r.messages), r, key);
    assert WorksOn(r.handlers[h], key);
    OnlyWorker(s, h, key);
    forall i | 0 <= i < |s.messages| ensures s.messages[i].key != key {
      assert s.messages[i].key == key ==> MessageFor(s, key, s.messages[i].n);
    }
    hide MessageFor, Position, DistinctKeys;
  }

  lemma FinishKey(s: State, h: nat, ok: bool, key: Key)
    requires OnceInv(s, key) && h < |s.handlers| && WorksOn(s.handlers[h], key) && key != ""
    requires s.handlers[h].Finishing? && !Forgets(s, Go(h, ok), key)
    ensures OnceInv(StepGo(s, h, ok), key)
  {
    hide Position, Without, DistinctKeys, AfterInsert, Newest;
    var r := StepGo(s, h, ok);
    var n := s.handlers[h].n;
    MovedEntries(s.cache, DedupCache.Op.Insert(key, Ack(n, s.now)), s.max, key);
    MessageSame(s, r, key);
    OnlyWorker(s, h, key);
    ForgetsIff(s, Go(h, ok), key);
    hide MessageFor;
  }

  lemma FailKey(s: State, h: nat, ok: bool, key: Key)
    requires OnceInv(s, key) && h < |s.handlers| && WorksOn(s.handlers[h], key)
    requires s.handlers[h].Failing?
    ensures OnceInv(StepGo(s, h, ok), key)
  {
    var r := StepGo(s, h, ok);
    MessageSame(s, r, key);
    OnlyWorker(s, h, key);
    hide MessageFor, Position, DistinctKeys;
  }

  lemma ClockKey(s: State, r: State, key: Key)
    requires OnceInv(s, key) && r == s.(now := r.now)
    ensures OnceInv(r, key)
  {
    MessageSame(s, r, key);
    hide MessageFor, Position, DistinctKeys;
  }

  lemma OnceStep(s: State, a: Action, key: Key)
    requires OnceInv(s, key) && key != ""
    requires !TakesOver(s, a, key) && !Forgets(s, a, key)
    ensures OnceInv(Step(s, a), key)
  {
    hide OnceInv, TakesOver, Forgets;
    match a
    case Begin(h, req) =>
      if h < |s.handlers| && s.handlers[h].Idle? {
        if req.key == key {
          if Holds(s.cache, key) {
            BeginHit(s, h, req);
          } else {
            BeginMiss(s, h, req);
          }
        } else {
          BeginOther(s, h, req, key);
        }
      }
    case Go(h, ok) =>
      if h < |s.handlers| {
        var pc := s.handlers[h];
        if !WorksOn(pc, key) {
          GoOther(s, h, ok, key);
        } else if pc.Finishing? {
          FinishKey(s, h, ok, key);
        } else if pc.Failing? {
          FailKey(s, h, ok, key);
        } else if pc.Inserting? && ok {
          InsertKey(s, h, key);
        } else {
          MoveKey(s, h, ok, key);
        }
      }
    case Tick(_) => ClockKey(s, Step(s, a), key);
  }

  lemma {:induction false} OnceRun(s: State, acts: seq<Action>, key: Key)
    requires OnceInv(s, key) && key != "" && Undisturbed(s, acts, key)
    ensures OnceInv(Run(s, acts), key)
    decreases |acts|
  {
    hide OnceInv;
    if acts != [] {
      OnceStep(s, acts[0], key);
      OnceRun(Step(s, acts[0]), acts[1..], key);
    }
  }

  /** Exactly once: over any interleaving in which no mark of the key is taken
      over and its ack is not lost from the cache, at most one message with that
      client_msg_id is stored, and every success reply for it, first sends and
      retries alike, carries that message's sequence number. */
  lemma ExactlyOnce(max: nat, convs: set<nat>, handlers: nat, acts: seq<Action>, key: Key)
    requires key != "" && Undisturbed(Init(max, convs, handlers), acts, key)
    ensures var s := Run(Init(max, convs, handlers), acts);
      && AtMostOne(s, key)
      && (forall i :: 0 <= i < |s.replies| && s.replies[i].Success? && s.replies[i].key == key ==>
            MessageFor(s, key, s.replies[i].n))
  {
    var s0 := Init(max, convs, handlers);
    assert OnceInv(s0, key);
    OnceRun(s0, acts, key);
    hide MessageFor, Position;
  }

  /** So any two success replies for the key agree. */
  lemma RepliesAgree(max: nat, convs: set<nat>, handlers: nat, acts: seq<Action>, key: Key, i: nat, j: nat)
    requires key != "" && Undisturbed(Init(max, convs, handlers), acts, key)
    requires var rs := Run(Init(max, convs, handlers), acts).replies;
      && i < |rs| && j < |rs| && rs[i].Success? && rs[j].Success? && rs[i].key == key == rs[j].key
    ensures var rs := Run(Init(max, convs, handlers), acts).replies; rs[i].n == rs[j].n
  {
    ExactlyOnce(max, convs, handlers, acts, key);
    var s := Run(Init(max, convs, handlers), acts);
    var x :| 0 <= x < |s.messages| && s.messages[x].key == key && s.messages[x].n == s.replies[i].n;
    var y :| 0 <= y < |s.messages| && s.messages[y].key == key && s.messages[y].n == s.replies[j].n;
    assert x == y;
  }

  // ---------------------------------------------------- no stale marks

  ghost predicate HasWorker(s: State, key: Key) {
    exists h :: 0 <= h < |s.handlers| && WorksOn(s.handlers[h], key)
  }

  ghost predicate MarksHaveWorkers(s: State) {
    "" !in s.inFlight && forall key :: key in s.inFlight ==> HasWorker(s, key)
  }

  lemma StillWorks(s: State, r: State, h: nat, key: Key)
    requires h < |s.handlers| == |r.handlers| && r.handlers == s.handlers[h := r.handlers[h]]
    requires HasWorker(s, key) && (WorksOn(s.handlers[h], key) ==> WorksOn(r.handlers[h], key))
    ensures HasWorker(r, key)
  {
    var g :| 0 <= g < |s.handlers| && WorksOn(s.handlers[g], key);
    assert WorksOn(r.handlers[g], key);
  }

  lemma MarksBegin(s: State, h: nat, req: Request)
    requires MarksHaveWorkers(s) && h < |s.handlers| && s.handlers[h].Idle?
    ensures MarksHaveWorkers(StepBegin(s, h, req))
  {
    hide Lookup, AfterFind, HasWorker;
    var r := StepBegin(s, h, req);
    forall key | key in r.inFlight ensures HasWorker(r, key) {
      if r.handlers[h] == Checking(req) && req.key == key {
        Working(r, h, key);
      } else {
        StillWorks(s, r, h, key);
      }
    }
  }

  lemma MarksGo(s: State, h: nat, ok: bool)
    requires MarksHaveWorkers(s) && h < |s.handlers|
    ensures MarksHaveWorkers(StepGo(s, h, ok))
  {
    hide AfterInsert, HasWorker;
    var r := StepGo(s, h, ok);
    forall key | key in r.inFlight ensures HasWorker(r, key) {
      StillWorks(s, r, h, key);
    }
  }

  lemma MarksStep(s: State, a: Action)
    requires MarksHaveWorkers(s)
    ensures MarksHaveWorkers(Step(s, a))
  {
    hide StepBegin, StepGo, HasWorker;
    match a
    case Begin(h, req) =>
      if h < |s.handlers| && s.handlers[h].Idle? {
        MarksBegin(s, h, req);
      }
    case Go(h, ok) =>
      if h < |s.handlers| {
        MarksGo(s, h, ok);
      }
    case Tick(_) =>
      var r := Step(s, a);
      forall key | key in r.inFlight ensures HasWorker(r, key) {
        SameHandlers(s, r, key);
      }
  }

  lemma Working(s: State, h: nat, key: Key)
    requires h < |s.handlers| && WorksOn(s.handlers[h], key)
    ensures HasWorker(s, key)
  {
  }

  lemma SameHandlers(s: State, r: State, key: Key)
    requires r.handlers == s.handlers && HasWorker(s, key)
    ensures HasWorker(r, key)
  {
  }

  lemma {:induction false} MarksRun(s: State, acts: seq<Action>)
    requires MarksHaveWorkers(s)
    ensures MarksHaveWorkers(Run(s, acts))
    decreases |acts|
  {
    hide MarksHaveWorkers;
    if acts != [] {
      MarksStep(s, acts[0]);
      MarksRun(Step(s, acts[0]), acts[1..]);
    }
  }

  /** Every exit of the handler removes its mark: in any run whatsoever, when no
      handler works on a key the next send of it is not turned away as busy. */
  lemma RetryNeverStuck(max: nat, convs: set<nat>, handlers: nat, acts: seq<Action>, h: nat, req: Request)
    requires var s := Run(Init(max, convs, handlers), acts);
      h < |s.handlers| && s.handlers[h].Idle? && !HasWorker(s, req.key)
    ensures var s := Run(Init(max, convs, handlers), acts);
      Step(s, Begin(h, req)).replies != s.replies + [Busy(req.key)]
  {
    MarksRun(Init(max, convs, handlers), acts);
    var s := Run(Init(max, convs, handlers), acts);
    assert req.key !in s.inFlight;
    hide AfterFind, Run;
    var r := Step(s, Begin(h, req));
    if |r.replies| > |s.replies| {
      assert r.replies[|s.replies|].Success?;
    }
  }

  // ------------------------------------------------ schedules, undisturbed

  lemma {:induction false} RunConcat(s: State, acts: seq<Action>, more: seq<Action>)
    ensures Run(s, acts + more) == Run(Run(s, acts), more)
    decreases |acts|
  {
    hide Step;
    if acts == [] {
      assert [] + more == more;
    } else {
      RunConcat(Step(s, acts[0]), acts[1..], more);
      assert (acts + more)[1..] == acts[1..] + more;
    }
  }

  lemma {:induction false} UndisturbedConcat(s: State, acts: seq<Action>, more: seq<Action>, key: Key)
    ensures Undisturbed(s, acts + more, key) <==> Undisturbed(s, acts, key) && Undisturbed(Run(s, acts), more, key)
    decreases |acts|
  {
    hide Step, TakesOver, Forgets;
    if acts == [] {
      assert [] + more == more;
    } else {
      UndisturbedConcat(Step(s, acts[0]), acts[1..], more, key);
      assert (acts + more)[1..] == acts[1..] + more;
    }
  }

  /** The schedule leads from s to r and never disturbs `key`. */
  predicate Calm(s: State, acts: seq<Action>, r: State, key: Key) {
    Run(s, acts) == r && Undisturbed(s, acts, key)
  }

  lemma CalmNext(s: State, acts: seq<Action>, r: State, a: Action, key: Key)
    requires Calm(s, acts, r, key) && !TakesOver(r, a, key) && !Forgets(r, a, key)
    ensures Calm(s, acts + [a], Step(r, a), key)
  {
    hide Step, TakesOver, Forgets;
    RunConcat(s, acts, [a]);
    UndisturbedConcat(s, acts, [a], key);
    assert [a][1..] == [];
  }

  lemma CalmConcat(s: State, acts: seq<Action>, m: State, more: seq<Action>, r: State, key: Key)
    requires Calm(s, acts, m, key) && Calm(m, more, r, key)
    ensures Calm(s, acts + more, r, key)
  {
    RunConcat(s, acts, more);
    UndisturbedConcat(s, acts, more, key);
    hide Run, Undisturbed;
  }

  /** Scheduled alone, a handler past the first section stores its message in a
      conversation that exists. */
  lemma Store(s: State, h: nat, key: Key) returns (acts: seq<Action>, r: State)
    requires h < |s.handlers| && s.handlers[h].Checking? && s.handlers[h].req.conv in s.maxSeq
    ensures Calm(s, acts, r, key)
    ensures var req := s.handlers[h].req;
      var n := s.maxSeq[req.conv] + 1;
      && r.handlers == s.handlers[h := Finishing(req, n)]
      && r.messages == s.messages + [Message(req.conv, n, req.key)]
    ensures r.cache == s.cache && r.max == s.max && r.maxSeq.Keys == s.maxSeq.Keys
    ensures r.inFlight == s.inFlight
  {
    hide Holds, Position, AfterInsert, Calm;
    CalmStart(s, key);
    var s1 := Step(s, Go(h, true));
    CalmNext(s, [], s, Go(h, true), key);
    var s2 := Step(s1, Go(h, true));
    CalmNext(s, [] + [Go(h, true)], s1, Go(h, true), key);
    r := Step(s2, Go(h, true));
    CalmNext(s, [] + [Go(h, true)] + [Go(h, true)], s2, Go(h, true), key);
    acts := [] + [Go(h, true)] + [Go(h, true)] + [Go(h, true)];
  }

  /** Scheduled alone, an idle handler stores a message for a key that is neither
      cached nor marked. */
  lemma Deliver(s: State, h: nat, req: Request, key: Key) returns (acts: seq<Action>, r: State)
    requires h < |s.handlers| && s.handlers[h].Idle? && req.conv in s.maxSeq
    requires req.key != "" && !Holds(s.cache, req.key) && req.key !in s.inFlight
    ensures Calm(s, acts, r, key)
    ensures var n := s.maxSeq[req.conv] + 1;
      && r.handlers == s.handlers[h := Finishing(req, n)]
      && r.messages == s.messages + [Message(req.conv, n, req.key)]
    ensures r.cache == s.cache && r.max == s.max && r.maxSeq.Keys == s.maxSeq.Keys
    ensures r.inFlight == s.inFlight[req.key := s.now]
  {
    hide Holds, Position, AfterInsert, Calm;
    MissLooksUpNothing(s.cache, req.key);
    var s1 := Step(s, Begin(h, req));
    assert s1 == SetHandler(s, h, Checking(req)).(inFlight := s.inFlight[req.key := s.now]);
    CalmStart(s, key);
    CalmNext(s, [], s, Begin(h, req), key);
    acts, r := Store(s1, h, key);
    CalmConcat(s, [] + [Begin(h, req)], s1, acts, r, key);
    acts := [] + [Begin(h, req)] + acts;
  }

  lemma MissLooksUpNothing(es: Entries, key: Key)
    requires !Holds(es, key)
    ensures Lookup(es, key) == None && AfterFind(es, key) == es
  {
  }

  lemma CalmStart(s: State, key: Key)
    ensures Calm(s, [], s, key)
  {
  }

  /** Scheduled alone with failing calls, a handler that has not stored its
      message gives up and takes its mark away. */
  lemma GiveUp(s: State, h: nat, key: Key) returns (acts: seq<Action>, r: State)
    requires h < |s.handlers| && !s.handlers[h].Idle? && !s.handlers[h].Finishing?
    ensures Calm(s, acts, r, key)
    ensures r.handlers == s.handlers[h := Idle] && r.messages == s.messages
    ensures r.cache == s.cache && r.max == s.max && r.maxSeq == s.maxSeq
    ensures r.inFlight == Unmark(s, s.handlers[h].req.key).inFlight
  {
    hide Holds, Position, AfterInsert, Calm;
    CalmStart(s, key);
    acts, r := [], s;
    if !s.handlers[h].Failing? {
      r := Step(s, Go(h, false));
      CalmNext(s, [], s, Go(h, false), key);
      acts := [] + [Go(h, false)];
    }
    CalmNext(s, acts, r, Go(h, false), key);
    acts := acts + [Go(h, false)];
    r := Step(r, Go(h, false));
  }

  // -------------------------------------- what a disturbance always permits

  predicate HasMessage(s: State, key: Key) {
    exists i :: 0 <= i < |s.messages| && s.messages[i].key == key
  }

  /** Whatever is cached or about to be was stored. */
  ghost predicate Sourced(s: State) {
    && (forall key :: key in KeySet(s.cache) ==> HasMessage(s, key))
    && (forall h :: 0 <= h < |s.handlers| && s.handlers[h].Finishing? ==> HasMessage(s, s.handlers[h].req.key))
  }

  lemma MessagesKept(s: State, r: State)
    requires s.messages <= r.messages
    ensures forall key :: HasMessage(s, key) ==> HasMessage(r, key)
  {
    forall key | HasMessage(s, key) ensures HasMessage(r, key) {
      var i :| 0 <= i < |s.messages| && s.messages[i].key == key;
      assert r.messages[i].key == key;
    }
  }

  lemma StoredNow(s: State, m: Message)
    ensures HasMessage(s.(messages := s.messages + [m]), m.key)
  {
    var r := s.(messages := s.messages + [m]);
    assert r.messages[|s.messages|] == m;
  }

  lemma SourcedBegin(s: State, h: nat, req: Request)
    requires Sourced(s) && h < |s.handlers| && s.handlers[h].Idle?
    ensures Sourced(StepBegin(s, h, req))
  {
    hide Position, KeySet, HasMessage, AfterFind, MayMark;
    var r := StepBegin(s, h, req);
    MessagesKept(s, r);
    KeysAfter(s.cache, DedupCache.Op.Find(req.key), s.max);
    assert r.cache == s.cache || r.cache == Apply(s.cache, DedupCache.Op.Find(req.key), s.max);
    assert forall g :: 0 <= g < |r.handlers| && r.handlers[g].Finishing? ==> r.handlers[g] == s.handlers[g];
  }

  lemma SourcedGo(s: State, h: nat, ok: bool)
    requires Sourced(s) && h < |s.handlers|
    ensures Sourced(StepGo(s, h, ok))
  {
    hide Position, KeySet, HasMessage, AfterInsert;
    var r := StepGo(s, h, ok);
    MessagesKept(s, r);
    var pc := s.handlers[h];
    if pc.Finishing? {
      KeysAfter(s.cache, DedupCache.Op.Insert(pc.req.key, Ack(pc.n, s.now)), s.max);
    }
    if pc.Inserting? && ok {
      StoredNow(s, Message(pc.req.conv, pc.n, pc.req.key));
      MessagesKept(s.(messages := r.messages), r);
    }
    assert forall g :: 0 <= g < |r.handlers| && g != h && r.handlers[g].Finishing? ==> r.handlers[g] == s.handlers[g];
  }

  ghost predicate General(s: State) {
    CacheOk(s) && Sourced(s) && MarksHaveWorkers(s)
  }

  lemma CacheOkStep(s: State, a: Action)
    requires CacheOk(s)
    ensures CacheOk(Step(s, a))
  {
    hide Position, AfterFind, AfterInsert, DistinctKeys, MayMark;
    match a
    case Begin(h, req) => MovedEntries(s.cache, DedupCache.Op.Find(req.key), s.max, req.key);
    case Go(h, ok) =>
      if h < |s.handlers| && s.handlers[h].Finishing? {
        MovedEntries(s.cache, DedupCache.Op.Insert(s.handlers[h].req.key, Ack(s.handlers[h].n, s.now)), s.max, "");
      }
    case Tick(_) =>
  }

  lemma GeneralStep(s: State, a: Action)
    requires General(s)
    ensures General(Step(s, a))
  {
    CacheOkStep(s, a);
    MarksStep(s, a);
    hide CacheOk, MarksHaveWorkers, StepBegin, StepGo, HasMessage;
    match a
    case Begin(h, req) =>
      if h < |s.handlers| && s.handlers[h].Idle? {
        SourcedBegin(s, h, req);
      }
    case Go(h, ok) =>
      if h < |s.handlers| {
        SourcedGo(s, h, ok);
      }
    case Tick(_) => MessagesKept(s, Step(s, a));
  }

  lemma {:induction false} GeneralRun(s: State, acts: seq<Action>)
    requires General(s)
    ensures General(Run(s, acts))
    decreases |acts|
  {
    hide General, Step;
    if acts != [] {
      GeneralStep(s, acts[0]);
      GeneralRun(Step(s, acts[0]), acts[1..]);
    }
  }

  /** Any state that any number of handlers can get into. */
  ghost predicate Reachable(s: State) {
    exists max, convs, handlers: nat, acts :: s == Run(Init(max, convs, handlers), acts)
  }

  lemma ReachableGeneral(s: State)
    requires Reachable(s)
    ensures General(s)
  {
    var max, convs, handlers: nat, acts :| s == Run(Init(max, convs, handlers), acts);
    assert General(Init(max, convs, handlers));
    hide General, Run, Init;
    GeneralRun(Init(max, convs, handlers), acts);
  }

  /** The worker h gives up unless it has stored its message, and then stores one
      in a conversation that exists: either way there is a message that was not
      there before h came. */
  lemma Redo(s: State, h: nat, key: Key, c: nat) returns (acts: seq<Action>, r: State)
    requires h < |s.handlers| && WorksOn(s.handlers[h], key) && !s.handlers[h].Finishing?
    requires key != "" && !Holds(s.cache, key) && c in s.maxSeq
    ensures Calm(s, acts, r, key)
    ensures |r.handlers| == |s.handlers| && forall g :: 0 <= g < |s.handlers| && g != h ==> r.handlers[g] == s.handlers[g]
    ensures |r.messages| == |s.messages| + 1 && s.messages <= r.messages && r.messages[|s.messages|].key == key
    ensures r.cache == s.cache && c in r.maxSeq
  {
    hide Calm, Holds;
    var first, m := GiveUp(s, h, key);
    var last;
    last, r := Deliver(m, h, Request(key, c), key);
    acts := first + last;
    CalmConcat(s, first, m, last, r, key);
    assert c in r.maxSeq.Keys;
  }

  /** A takeover leaves two workers on one key; both can store. */
  lemma TakeoverGoesOn(s: State, a: Action, key: Key, c: nat) returns (more: seq<Action>, r: State)
    requires General(s) && key != "" && TakesOver(s, a, key) && c in s.maxSeq
    ensures Calm(Step(s, a), more, r, key) && !AtMostOne(r, key)
  {
    hide Calm, Holds, AtMostOne, HasMessage, CacheOk, KeySet;
    MissLooksUpNothing(s.cache, key);
    var g :| 0 <= g < |s.handlers| && WorksOn(s.handlers[g], key);
    var s1 := Step(s, a);
    assert s1 == SetHandler(s, a.h, Checking(a.req)).(inFlight := s.inFlight[key := s.now]);
    var m;
    more, m := Redo(s1, a.h, key, c);
    r := m;
    if s.handlers[g].Finishing? {
      MessagesKept(s, s1);
      Twice(s1, r, key);
    } else {
      var last;
      last, r := Redo(m, g, key, c);
      CalmConcat(s1, more, m, last, r, key);
      more := more + last;
      HasNew(m, |s.messages|, key);
      Twice(m, r, key);
    }
  }

  lemma HasNew(s: State, i: nat, key: Key)
    requires i < |s.messages| && s.messages[i].key == key
    ensures HasMessage(s, key)
  {
  }

  /** A forgotten key whose mark is gone can be sent again at once. */
  lemma ForgottenGoesOn(s: State, a: Action, key: Key, c: nat) returns (more: seq<Action>, r: State)
    requires General(s) && key != "" && Forgets(s, a, key) && c in s.maxSeq
    requires key !in Step(s, a).inFlight
    ensures Calm(Step(s, a), more, r, key) && !AtMostOne(r, key)
  {
    ForgetsIff(s, a, key);
    HeldKey(s.cache, key);
    hide Calm, Holds, AtMostOne, HasMessage, CacheOk, KeySet, Position, AfterInsert;
    var s1 := Step(s, a);
    assert HasMessage(s, key);
    MessagesKept(s, s1);
    more, r := Deliver(s1, a.h, Request(key, c), key);
    Twice(s1, r, key);
  }

  lemma Twice(s: State, r: State, key: Key)
    requires HasMessage(s, key) && |s.messages| < |r.messages| && s.messages <= r.messages
    requires r.messages[|s.messages|].key == key
    ensures !AtMostOne(r, key)
  {
    var i :| 0 <= i < |s.messages| && s.messages[i].key == key;
    assert r.messages[i].key == key;
  }

  /** A retry that has waited long enough takes over any mark. */
  lemma LateRetry(s: State, h: nat, key: Key, c: nat) returns (more: seq<Action>)
    requires h < |s.handlers| && s.handlers[h].Idle? && c in s.maxSeq
    requires key != "" && !Holds(s.cache, key) && HasMessage(s, key)
    ensures !AtMostOne(Run(s, more), key)
  {
    hide Calm, Holds, AtMostOne, HasMessage;
    MissLooksUpNothing(s.cache, key);
    var delta: nat := if key in s.inFlight && s.inFlight[key] + INFLIGHT_TIMEOUT > s.now
      then s.inFlight[key] + INFLIGHT_TIMEOUT - s.now else 0;
    var req := Request(key, c);
    var s1 := Step(s, Tick(delta));
    var s2 := Step(s1, Begin(h, req));
    assert s2 == SetHandler(s1, h, Checking(req)).(inFlight := s1.inFlight[key := s1.now]);
    var acts, r := Store(s2, h, key);
    more := [Tick(delta), Begin(h, req)] + acts;
    assert Run(s, more) == r by {
      hide Step;
      assert Run(s2, acts) == r by { CalmRuns(s2, acts, r, key); }
      assert more[1..] == [Begin(h, req)] + acts;
      assert ([Begin(h, req)] + acts)[1..] == acts;
    }
    Twice(s, r, key);
  }

  lemma CalmRuns(s: State, acts: seq<Action>, r: State, key: Key)
    requires Calm(s, acts, r, key)
    ensures Run(s, acts) == r && Undisturbed(s, acts, key)
  {
  }

  /** Wherever a takeover or a loss happens, the schedule can go on so that two
      messages of the key are stored. Nothing further need go wrong for it,
      unless the lost key had a mark already. */
  lemma DisturbanceDuplicates(s: State, a: Action, key: Key, c: nat) returns (more: seq<Action>)
    requires Reachable(s) && key != "" && c in s.maxSeq
    requires TakesOver(s, a, key) || Forgets(s, a, key)
    ensures !AtMostOne(Run(Step(s, a), more), key)
    ensures TakesOver(s, a, key) || key !in Step(s, a).inFlight ==> Undisturbed(Step(s, a), more, key)
  {
    ReachableGeneral(s);
    var r;
    if TakesOver(s, a, key) {
      hide Reachable, General, Forgets, TakesOver, Step, AtMostOne;
      more, r := TakeoverGoesOn(s, a, key, c);
    } else if key !in Step(s, a).inFlight {
      hide Reachable, General, Forgets, TakesOver, Step, AtMostOne;
      more, r := ForgottenGoesOn(s, a, key, c);
    } else {
      ForgottenStands(s, a, key);
      hide Reachable, General, AtMostOne, Holds, AfterInsert, Position;
      more := LateRetry(Step(s, a), a.h, key, c);
    }
  }

  /** After the loss the key's message stands, uncached, and the handler that
      caused the loss is idle. */
  lemma ForgottenStands(s: State, a: Action, key: Key)
    requires General(s) && key != "" && Forgets(s, a, key)
    ensures HasMessage(Step(s, a), key) && !Holds(Step(s, a).cache, key)
  {
    ForgetsIff(s, a, key);
    HeldKey(s.cache, key);
    hide Holds, HasMessage, CacheOk, KeySet, Position, AfterInsert;
    assert HasMessage(s, key);
    MessagesKept(s, Step(s, a));
  }

  lemma {:induction false} ConversationsStay(s: State, acts: seq<Action>)
    ensures Run(s, acts).maxSeq.Keys == s.maxSeq.Keys
    decreases |acts|
  {
    if acts != [] {
      ConversationsStay(Step(s, acts[0]), acts[1..]);
      StepKeepsConversations(s, acts[0]);
    }
  }

  lemma StepKeepsConversations(s: State, a: Action)
    ensures Step(s, a).maxSeq.Keys == s.maxSeq.Keys
  {
    hide Lookup, AfterFind, AfterInsert, MayMark;
  }

  /** The first disturbance of a run is enough. */
  lemma FirstDisturbance(max: nat, convs: set<nat>, handlers: nat, acts: seq<Action>, a: Action, key: Key)
    returns (more: seq<Action>)
    requires key != "" && convs != {} && Undisturbed(Init(max, convs, handlers), acts, key)
    requires var s := Run(Init(max, convs, handlers), acts); TakesOver(s, a, key) || Forgets(s, a, key)
    ensures var s := Run(Init(max, convs, handlers), acts);
      Undisturbed(Step(s, a), more, key) && !AtMostOne(Run(Step(s, a), more), key)
  {
    hide TakesOver, Forgets, Step, AtMostOne;
    var s0 := Init(max, convs, handlers);
    var s := Run(s0, acts);
    InitOnce(max, convs, handlers, key);
    hide OnceInv;
    OnceRun(s0, acts, key);
    ConversationsStay(s0, acts);
    var c :| c in convs;
    assert c in s0.maxSeq.Keys;
    assert Reachable(s);
    ReachableGeneral(s);
    ForgottenUnmarked(s, a, key);
    more := DisturbanceDuplicates(s, a, key, c);
  }

  lemma InitOnce(max: nat, convs: set<nat>, handlers: nat, key: Key)
    ensures OnceInv(Init(max, convs, handlers), key)
  {
  }

  /** The exact condition, at every point of a run that was not disturbed so far:
      the next action is neither a takeover nor a loss if and only if no
      continuation, not disturbed either, stores two messages of the key. */
  lemma HarmlessIff(max: nat, convs: set<nat>, handlers: nat, acts: seq<Action>, a: Action, key: Key)
    requires key != "" && convs != {} && Undisturbed(Init(max, convs, handlers), acts, key)
    ensures var s := Run(Init(max, convs, handlers), acts);
      !TakesOver(s, a, key) && !Forgets(s, a, key) <==>
      forall more :: Undisturbed(Step(s, a), more, key) ==> AtMostOne(Run(Step(s, a), more), key)
  {
    hide OnceInv, TakesOver, Forgets, Step, AtMostOne;
    var s0 := Init(max, convs, handlers);
    var s := Run(s0, acts);
    if !TakesOver(s, a, key) && !Forgets(s, a, key) {
      InitOnce(max, convs, handlers, key);
      OnceRun(s0, acts, key);
      OnceStep(s, a, key);
      forall more | Undisturbed(Step(s, a), more, key) ensures AtMostOne(Run(Step(s, a), more), key) {
        OnceRun(Step(s, a), more, key);
        OnceGivesOne(Run(Step(s, a), more), key);
      }
    } else {
      var more := FirstDisturbance(max, convs, handlers, acts, a, key);
    }
  }

  lemma OnceGivesOne(s: State, key: Key)
    requires OnceInv(s, key)
    ensures AtMostOne(s, key)
  {
  }

  lemma ForgottenUnmarked(s: State, a: Action, key: Key)
    requires OnceInv(s, key) && General(s) && key != ""
    ensures Forgets(s, a, key) ==> key !in Step(s, a).inFlight
  {
    hide Position, AfterInsert, MessageFor, DistinctKeys, Sourced;
    if Forgets(s, a, key) {
      assert s.handlers[a.h].req.key != key ==> Lookup(s.cache, key).Some?;
      assert s.handlers[a.h].req.key != key ==> key !in s.inFlight;
    }
  }

  // ----------------------------------------------- few keys, no late retry

  function BegunKeys(acts: seq<Action>): set<Key> {
    set i | 0 <= i < |acts| && acts[i].Begin? && acts[i].req.key != "" :: acts[i].req.key
  }

  /** No send of `key` begins while its mark is 30 seconds old. */
  predicate NoLateRetry(s: State, acts: seq<Action>, key: Key)
    decreases |acts|
  {
    acts == [] || (
      && !(acts[0].Begin? && acts[0].req.key == key && key in s.inFlight
           && s.now - s.inFlight[key] >= INFLIGHT_TIMEOUT)
      && NoLateRetry(Step(s, acts[0]), acts[1..], key))
  }

  /** Only these keys are cached or being worked on. */
  ghost predicate KeysWithin(s: State, keys: set<Key>) {
    && KeySet(s.cache) <= keys
    && (forall h :: 0 <= h < |s.handlers| && !s.handlers[h].Idle? ==>
          s.handlers[h].req.key == "" || s.handlers[h].req.key in keys)
  }

  lemma KeysWithinStep(s: State, a: Action, keys: set<Key>)
    requires KeysWithin(s, keys)
    requires a.Begin? && a.req.key != "" ==> a.req.key in keys
    ensures KeysWithin(Step(s, a), keys)
  {
    hide Position, Lookup, AfterFind, AfterInsert, KeySet, MayMark;
    match a
    case Begin(h, req) => BeginKeys(s, req, keys);
    case Go(h, ok) =>
      if h < |s.handlers| && s.handlers[h].Finishing? {
        KeysAfter(s.cache, DedupCache.Op.Insert(s.handlers[h].req.key, Ack(s.handlers[h].n, s.now)), s.max);
      }
    case Tick(_) =>
  }

  lemma BeginKeys(s: State, req: Request, keys: set<Key>)
    requires KeySet(s.cache) <= keys
    ensures KeySet(AfterFind(s.cache, req.key)) <= keys
  {
    KeysAfter(s.cache, DedupCache.Op.Find(req.key), s.max);
  }

  /** A cache with room for all keys in play never makes room. */
  lemma RoomForAll(s: State, a: Action, key: Key, keys: set<Key>)
    requires CacheOk(s) && KeysWithin(s, keys) && 1 <= s.max && |keys| <= s.max
    ensures !Forgets(s, a, key)
  {
    if Forgets(s, a, key) {
      var k := s.handlers[a.h].req.key;
      HeldKey(s.cache, k);
      KeySetSize(s.cache);
      SubsetSize(KeySet(s.cache), keys - {k});
    }
  }

  lemma {:induction false} TimelyUndisturbed(s: State, acts: seq<Action>, key: Key, keys: set<Key>)
    requires CacheOk(s) && KeysWithin(s, keys) && 1 <= s.max && |keys| <= s.max
    requires BegunKeys(acts) <= keys && NoLateRetry(s, acts, key)
    ensures Undisturbed(s, acts, key)
    decreases |acts|
  {
    hide CacheOk, KeysWithin, Forgets, Step, Holds;
    if acts != [] {
      var a := acts[0];
      assert a.Begin? && a.req.key != "" ==> a.req.key in BegunKeys(acts);
      CacheOkStep(s, a);
      KeysWithinStep(s, a, keys);
      RoomForAll(s, a, key, keys);
      SameLimit(s, a);
      assert forall i :: 0 <= i < |acts[1..]| ==> acts[1..][i] == acts[i + 1];
      TimelyUndisturbed(Step(s, a), acts[1..], key, keys);
    }
  }

  lemma SameLimit(s: State, a: Action)
    ensures Step(s, a).max == s.max
  {
    hide Lookup, AfterFind, AfterInsert, MayMark;
  }

  /** Exactly once, from what a deployment can see to: the cache has room for all
      client_msg_ids in play, and no send of the key begins while a mark of it is
      30 seconds old. */
  lemma TimelyExactlyOnce(max: nat, convs: set<nat>, handlers: nat, acts: seq<Action>, key: Key)
    requires key != "" && 1 <= max && |BegunKeys(acts)| <= max
    requires NoLateRetry(Init(max, convs, handlers), acts, key)
    ensures var s := Run(Init(max, convs, handlers), acts);
      && AtMostOne(s, key)
      && (forall i :: 0 <= i < |s.replies| && s.replies[i].Success? && s.replies[i].key == key ==>
            MessageFor(s, key, s.replies[i].n))
  {
    TimelyUndisturbed(Init(max, convs, handlers), acts, key, BegunKeys(acts));
    ExactlyOnce(max, convs, handlers, acts, key);
  }

  // ------------------------------------- both kinds of disturbance happen

  /** A name as long as `n` asks that begins with `key`. */
  function Longer(key: Key, n: nat): (r: Key)
    ensures |r| == |key| + n
  {
    key + seq(n, _ => 'x')
  }

  /** Nobody is at work, `key` is the oldest of the cached keys, and the names of
      the given length on are not cached. */
  ghost predicate OldestIs(s: State, key: Key, c: nat) {
    && CacheOk(s) && |s.handlers| > 0 && s.handlers[0].Idle? && c in s.maxSeq
    && 1 <= |s.cache| && s.cache[0].0 == key
    && (forall k :: k !in s.inFlight)
    && (forall i :: 0 <= i < |s.cache| ==> |s.cache[i].0| < |key| + |s.cache|)
  }

  /** One more key is sent: with room left it is cached beside the others, and
      else `key` is about to be pushed out. */
  lemma OneMore(s: State, key: Key, c: nat) returns (acts: seq<Action>, r: State)
    requires key != "" && OldestIs(s, key, c)
    ensures if |s.cache| == s.max
      then Calm(s, acts, r, key) && Forgets(r, Go(0, true), key)
      else Calm(s, acts, r, key) && OldestIs(r, key, c) && |r.cache| == |s.cache| + 1 && r.max == s.max
  {
    var k := Longer(key, |s.cache|);
    assert !Holds(s.cache, k);
    assert Position(s.cache, key) == 0;
    hide Position, Calm, AfterInsert, Longer;
    acts, r := Deliver(s, 0, Request(k, c), key);
    assert c in r.maxSeq.Keys;
    if |s.cache| < s.max {
      var q := Step(r, Go(0, true));
      FinishWithRoom(r, k);
      CacheOkStep(r, Go(0, true));
      CalmNext(s, acts, r, Go(0, true), key);
      acts := acts + [Go(0, true)];
      r := q;
    }
  }

  lemma FinishWithRoom(s: State, k: Key)
    requires |s.handlers| > 0 && s.handlers[0].Finishing? && s.handlers[0].req.key == k && k != ""
    requires !Holds(s.cache, k) && |s.cache| < s.max
    requires s.inFlight.Keys <= {k}
    ensures var r := Step(s, Go(0, true));
      && r.cache == s.cache + [(k, Ack(s.handlers[0].n, s.now))]
      && (forall j :: j !in r.inFlight) && r.handlers == s.handlers[0 := Idle]
      && r.maxSeq == s.maxSeq && r.max == s.max
  {
    hide Position;
  }

  lemma {:induction false} FillUp(s: State, key: Key, c: nat) returns (acts: seq<Action>, r: State)
    requires key != "" && OldestIs(s, key, c) && |s.cache| <= s.max
    ensures Calm(s, acts, r, key) && Forgets(r, Go(0, true), key)
    decreases s.max - |s.cache|
  {
    hide OldestIs, Calm, Forgets;
    acts, r := OneMore(s, key, c);
    if |s.cache| < s.max {
      var first, m := acts, r;
      var rest;
      rest, r := FillUp(m, key, c);
      acts := first + rest;
      CalmConcat(s, first, m, rest, r, key);
    }
  }

  /** With any cache size and one handler an undisturbed run comes to where the
      next step loses the key's ack; with two it comes to where the next step
      takes its mark over. From there two messages with the key get stored. */
  lemma DuplicatesPossible(max: nat, convs: set<nat>, handlers: nat, key: Key, lose: bool)
    returns (before: seq<Action>, a: Action, after: seq<Action>)
    requires key != "" && convs != {} && handlers >= if lose then 1 else 2
    ensures var s0 := Init(max, convs, handlers);
      var s := Run(s0, before);
      && Undisturbed(s0, before, key)
      && (if lose then Forgets(s, a, key) else TakesOver(s, a, key))
      && Undisturbed(Step(s, a), after, key)
      && !AtMostOne(Run(Step(s, a), after), key)
  {
    hide Calm, TakesOver, Forgets, AtMostOne, OldestIs;
    var c :| c in convs;
    var s0 := Init(max, convs, handlers);
    var s;
    if lose {
      before, s := ToLoss(s0, key, c);
      a := Go(0, true);
    } else {
      before, s := ToTakeover(s0, key, c);
      a := Begin(1, Request(key, c));
    }
    CalmRuns(s0, before, s, key);
    after := FirstDisturbance(max, convs, handlers, before, a, key);
  }

  lemma ToLoss(s: State, key: Key, c: nat) returns (acts: seq<Action>, r: State)
    requires key != "" && c in s.maxSeq && |s.handlers| >= 1
    requires s.cache == [] && (forall k :: k !in s.inFlight) && s.handlers[0].Idle?
    ensures Calm(s, acts, r, key) && Forgets(r, Go(0, true), key)
  {
    hide Calm, AfterInsert;
    acts, r := Deliver(s, 0, Request(key, c), key);
    assert c in r.maxSeq.Keys;
    if s.max > 0 {
      var q := Step(r, Go(0, true));
      FinishWithRoom(r, key);
      CalmNext(s, acts, r, Go(0, true), key);
      var rest;
      rest, r := FillUp(q, key, c);
      CalmConcat(s, acts + [Go(0, true)], q, rest, r, key);
      acts := acts + [Go(0, true)] + rest;
    }
  }

  lemma ToTakeover(s: State, key: Key, c: nat) returns (acts: seq<Action>, r: State)
    requires key != "" && |s.handlers| >= 2 && s.cache == [] && key !in s.inFlight
    requires s.handlers[0].Idle? && s.handlers[1].Idle?
    ensures Calm(s, acts, r, key) && TakesOver(r, Begin(1, Request(key, c)), key)
  {
    hide Calm;
    var req := Request(key, c);
    CalmStart(s, key);
    CalmNext(s, [], s, Begin(0, req), key);
    var s1 := Step(s, Begin(0, req));
    CalmNext(s, [] + [Begin(0, req)], s1, Tick(INFLIGHT_TIMEOUT), key);
    acts := [] + [Begin(0, req)] + [Tick(INFLIGHT_TIMEOUT)];
    r := Step(s1, Tick(INFLIGHT_TIMEOUT));
  }

  // ------------------------------------------- what a handler does and answers

  /** The step answers yes to the membership check of a send of the key. */
  predicate Admits(s: State, a: Action, key: Key) {
    a.Go? && a.ok && a.h < |s.handlers| && s.handlers[a.h].Checking? && s.handlers[a.h].req.key == key
  }

  predicate EverAdmitted(s: State, acts: seq<Action>, key: Key)
    decreases |acts|
  {
    acts != [] && (Admits(s, acts[0], key) || EverAdmitted(Step(s, acts[0]), acts[1..], key))
  }

  /** Nobody got past the membership check with the key, and there is no trace of it. */
  ghost predicate NeverIn(s: State, key: Key) {
    && (forall h :: 0 <= h < |s.handlers| && s.handlers[h].Numbering? ==> s.handlers[h].req.key != key)
    && (forall h :: 0 <= h < |s.handlers| && s.handlers[h].Inserting? ==> s.handlers[h].req.key != key)
    && (forall h :: 0 <= h < |s.handlers| && s.handlers[h].Finishing? ==> s.handlers[h].req.key != key)
    && key !in KeySet(s.cache)
    && (forall i :: 0 <= i < |s.messages| ==> s.messages[i].key != key)
    && (forall i :: 0 <= i < |s.replies| ==> !(s.replies[i].Success? && s.replies[i].key == key))
  }

  lemma NeverInBegin(s: State, h: nat, req: Request, key: Key)
    requires NeverIn(s, key) && h < |s.handlers| && s.handlers[h].Idle?
    ensures NeverIn(StepBegin(s, h, req), key)
  {
    hide Position, AfterFind, KeySet, MayMark, Lookup;
    KeysAfter(s.cache, DedupCache.Op.Find(req.key), s.max);
    HeldKey(s.cache, key);
    LookupHeld(s.cache, req.key);
  }

  lemma LookupHeld(es: Entries, key: Key)
    ensures Lookup(es, key).Some? <==> key in KeySet(es)
  {
    HeldKey(es, key);
  }

  lemma NeverInGo(s: State, h: nat, ok: bool, key: Key)
    requires NeverIn(s, key) && h < |s.handlers| && !Admits(s, Go(h, ok), key)
    ensures NeverIn(StepGo(s, h, ok), key)
  {
    hide Position, AfterInsert, KeySet;
    var pc := s.handlers[h];
    if pc.Finishing? {
      KeysAfter(s.cache, DedupCache.Op.Insert(pc.req.key, Ack(pc.n, s.now)), s.max);
    }
  }

  lemma {:induction false} NeverInRun(s: State, acts: seq<Action>, key: Key)
    requires NeverIn(s, key) && !EverAdmitted(s, acts, key)
    ensures NeverIn(Run(s, acts), key)
    decreases |acts|
  {
    hide NeverIn, StepBegin, StepGo, Admits;
    if acts != [] {
      match acts[0] {
        case Begin(h, req) =>
          if h < |s.handlers| && s.handlers[h].Idle? {
            NeverInBegin(s, h, req, key);
          }
        case Go(h, ok) =>
          if h < |s.handlers| {
            NeverInGo(s, h, ok, key);
          }
        case Tick(_) => NeverInClock(s, Step(s, acts[0]), key);
      }
      NeverInRun(Step(s, acts[0]), acts[1..], key);
    }
  }

  lemma NeverInClock(s: State, r: State, key: Key)
    requires NeverIn(s, key) && r == s.(now := r.now)
    ensures NeverIn(r, key)
  {
  }

  /** Only members' messages: if no send of the key was answered yes by the membership
      check, no message with it is stored and nobody is told that one was. */
  lemma MembersOnly(max: nat, convs: set<nat>, handlers: nat, acts: seq<Action>, key: Key)
    requires !EverAdmitted(Init(max, convs, handlers), acts, key)
    ensures var s := Run(Init(max, convs, handlers), acts);
      && (forall i :: 0 <= i < |s.messages| ==> s.messages[i].key != key)
      && (forall i :: 0 <= i < |s.replies| ==> !(s.replies[i].Success? && s.replies[i].key == key))
  {
    NeverInRun(Init(max, convs, handlers), acts, key);
  }

  /** What one handler did on the way to its answer. */
  datatype Deeds = Deeds(numbered: bool, stored: bool, answer: Option<Reply>)

  const NOTHING := Deeds(false, false, None)

  /** What the step itself does for its handler, read off the states before and after. */
  function DeedsOf(s: State, r: State): Deeds {
    Deeds(r.maxSeq != s.maxSeq, |r.messages| > |s.messages|,
          if |r.replies| > |s.replies| then Some(r.replies[|s.replies|]) else None)
  }

  function Both(d: Deeds, e: Deeds): Deeds {
    Deeds(d.numbered || e.numbered, d.stored || e.stored, if d.answer.Some? then d.answer else e.answer)
  }

  /** All that handler h does along a schedule. */
  function DeedsAlong(s: State, acts: seq<Action>, h: nat): Deeds
    decreases |acts|
  {
    if acts == [] then NOTHING
    else
      var r := Step(s, acts[0]);
      Both(if acts[0].Go? && acts[0].h == h then DeedsOf(s, r) else NOTHING, DeedsAlong(r, acts[1..], h))
  }

  /** The outcomes of handler h's calls in order. */
  function Outcomes(acts: seq<Action>, h: nat): seq<bool> {
    if acts == [] then []
    else (if acts[0].Go? && acts[0].h == h then [acts[0].ok] else []) + Outcomes(acts[1..], h)
  }

  predicate NoBegin(acts: seq<Action>, h: nat) {
    forall i :: 0 <= i < |acts| && acts[i].Begin? ==> acts[i].h != h
  }

  lemma OthersGo(s: State, g: nat, ok: bool, h: nat)
    requires g < |s.handlers| && h < |s.handlers| && g != h
    ensures |StepGo(s, g, ok).handlers| == |s.handlers| && StepGo(s, g, ok).handlers[h] == s.handlers[h]
  {
    hide AfterInsert;
  }

  lemma OthersStep(s: State, a: Action, h: nat)
    requires h < |s.handlers| && !(a.Go? && a.h == h) && !(a.Begin? && a.h == h)
    ensures |Step(s, a).handlers| == |s.handlers| && Step(s, a).handlers[h] == s.handlers[h]
  {
    hide Lookup, AfterFind, MayMark, StepGo;
    if a.Go? && a.h < |s.handlers| {
      OthersGo(s, a.h, a.ok, h);
    }
  }

  /** How far a handler has got, and what is still to come of its calls. */
  predicate WillDo(pc: Handler, known: bool, oks: seq<bool>, d: Deeds) {
    match pc
    case Idle => d == NOTHING
    case Failing(req) => |oks| >= 1 ==> d == Deeds(false, false, Some(Failure(req.key)))
    case Finishing(req, n) => |oks| >= 1 ==> d == Deeds(false, false, Some(Success(req.key, n)))
    case Inserting(req, n) =>
      |oks| >= 2 ==> d == Deeds(false, oks[0], Some(if oks[0] then Success(req.key, n) else Failure(req.key)))
    case Numbering(req) =>
      |oks| >= 3 ==>
        && d.numbered == (oks[0] && known) && d.stored == (oks[0] && known && oks[1])
        && d.answer.Some? && (if d.stored then d.answer.value.Success? else d.answer.value.Failure?)
        && d.answer.value.key == req.key
    case Checking(req) =>
      |oks| >= 4 ==>
        && d.numbered == (oks[0] && oks[1] && known) && d.stored == (oks[0] && oks[1] && known && oks[2])
        && d.answer.Some? && (if d.stored then d.answer.value.Success? else d.answer.value.Failure?)
        && d.answer.value.key == req.key
  }

  predicate Known(s: State, h: nat)
    requires h < |s.handlers|
  {
    !s.handlers[h].Idle? && s.handlers[h].req.conv in s.maxSeq
  }

  lemma LateDeeds(s: State, h: nat, ok: bool, oks: seq<bool>, d: Deeds)
    requires h < |s.handlers| && !s.handlers[h].Checking? && !s.handlers[h].Numbering?
    requires WillDo(StepGo(s, h, ok).handlers[h], Known(s, h), oks, d)
    ensures WillDo(s.handlers[h], Known(s, h), [ok] + oks, Both(DeedsOf(s, StepGo(s, h, ok)), d))
  {
    hide AfterInsert;
  }

  lemma EarlyDeeds(s: State, h: nat, ok: bool, oks: seq<bool>, d: Deeds)
    requires h < |s.handlers| && (s.handlers[h].Checking? || s.handlers[h].Numbering?)
    requires WillDo(StepGo(s, h, ok).handlers[h], Known(s, h), oks, d)
    ensures WillDo(s.handlers[h], Known(s, h), [ok] + oks, Both(DeedsOf(s, StepGo(s, h, ok)), d))
  {
    hide AfterInsert;
  }

  lemma KnownStays(s: State, a: Action, h: nat)
    requires h < |s.handlers| == |Step(s, a).handlers|
    requires !s.handlers[h].Idle? && !Step(s, a).handlers[h].Idle? ==> Step(s, a).handlers[h].req == s.handlers[h].req
    ensures !s.handlers[h].Idle? && !Step(s, a).handlers[h].Idle? ==> Known(Step(s, a), h) == Known(s, h)
  {
    StepKeepsConversations(s, a);
    hide Step;
    assert forall c :: c in s.maxSeq.Keys <==> c in Step(s, a).maxSeq.Keys;
  }

  lemma GoKeepsRequest(s: State, h: nat, ok: bool)
    requires h < |s.handlers|
    ensures var r := StepGo(s, h, ok);
      && |r.handlers| == |s.handlers|
      && (s.handlers[h].Idle? ==> r == s)
      && (!r.handlers[h].Idle? ==> !s.handlers[h].Idle? && r.handlers[h].req == s.handlers[h].req)
  {
    hide AfterInsert;
  }

  lemma KnownMatters(pc: Handler, known: bool, other: bool, oks: seq<bool>, d: Deeds)
    requires WillDo(pc, known, oks, d) && (pc.Idle? || known == other)
    ensures WillDo(pc, other, oks, d)
  {
  }

  /** Whatever others do, what a handler does and answers depends on the outcomes of
      its own calls alone. */
  lemma {:induction false} HandlerDeeds(s: State, acts: seq<Action>, h: nat)
    requires h < |s.handlers| && NoBegin(acts, h)
    ensures WillDo(s.handlers[h], Known(s, h), Outcomes(acts, h), DeedsAlong(s, acts, h))
    decreases |acts|
  {
    if acts == [] {
      NothingYet(s.handlers[h], Known(s, h));
    } else {
      hide Step, WillDo, Known, DeedsOf, Both;
      var a := acts[0];
      var r := Step(s, a);
      assert forall i :: 0 <= i < |acts[1..]| ==> acts[1..][i] == acts[i + 1];
      if a.Go? && a.h == h {
        StepIsGo(s, h, a.ok);
        GoKeepsRequest(s, h, a.ok);
        HandlerDeeds(r, acts[1..], h);
        KnownStays(s, a, h);
        var d := DeedsAlong(r, acts[1..], h);
        KnownMatters(r.handlers[h], Known(r, h), Known(s, h), Outcomes(acts[1..], h), d);
        if s.handlers[h].Checking? || s.handlers[h].Numbering? {
          EarlyDeeds(s, h, a.ok, Outcomes(acts[1..], h), d);
        } else {
          LateDeeds(s, h, a.ok, Outcomes(acts[1..], h), d);
        }
      } else {
        OthersStep(s, a, h);
        KnownStays(s, a, h);
        HandlerDeeds(r, acts[1..], h);
        KnownMatters(s.handlers[h], Known(r, h), Known(s, h), Outcomes(acts[1..], h), DeedsAlong(r, acts[1..], h));
        NothingElse(DeedsAlong(r, acts[1..], h));
        assert [] + Outcomes(acts[1..], h) == Outcomes(acts[1..], h);
      }
    }
  }

  lemma NothingYet(pc: Handler, known: bool)
    ensures WillDo(pc, known, [], NOTHING)
  {
  }

  lemma NothingElse(d: Deeds)
    ensures Both(NOTHING, d) == d
  {
  }

  lemma StepIsGo(s: State, h: nat, ok: bool)
    requires h < |s.handlers|
    ensures Step(s, Go(h, ok)) == StepGo(s, h, ok)
  {
  }

  /** A handler past the first section, in any interleaving, by the outcomes of its
      membership check, its numbering and its insert: it takes a number exactly if the
      first two are yes and the conversation exists, stores exactly if the insert works
      too, and answers Success exactly if it stored, and else Failure. */
  lemma SendAnswers(s: State, acts: seq<Action>, h: nat)
    requires h < |s.handlers| && s.handlers[h].Checking? && NoBegin(acts, h) && |Outcomes(acts, h)| >= 4
    ensures var req, oks, d := s.handlers[h].req, Outcomes(acts, h), DeedsAlong(s, acts, h);
      && (d.numbered <==> oks[0] && oks[1] && req.conv in s.maxSeq)
      && (d.stored <==> oks[0] && oks[1] && oks[2] && req.conv in s.maxSeq)
      && d.answer.Some? && d.answer.value.key == req.key
      && (d.answer.value.Success? <==> d.stored) && (d.answer.value.Failure? <==> !d.stored)
  {
    HandlerDeeds(s, acts, h);
    hide DeedsAlong, Outcomes;
  }
}
