/** The bounded multi-producer multi-consumer queue of server/core/mpmc_queue.h
    as a step machine. Every atomic load, compare-exchange, data access and
    sequence store is one step; any number of threads interleave at these steps
    under sequential consistency. Tickets are unbounded. */
module MpmcQueue {
  import opened PowersOfTwo
  import opened Wrappers

  type Item = int

  /** `data` is None before the first store and after the item is moved out. */
  datatype Cell = Cell(turn: nat, data: Option<Item>)

  /** Where a thread stands inside PushImpl or Pop. The constructor names the
      step that comes next; `pos` is the local position of the source. */
  datatype Pc =
    | Idle
    | PushLoad(item: Item)
    | PushReadSeq(item: Item, pos: nat)
    | PushCas(item: Item, pos: nat)
    | PushStore(item: Item, pos: nat)
    | PushPublish(item: Item, pos: nat)
    | PushReturned(ok: bool)
    | PopLoad
    | PopReadSeq(pos: nat)
    | PopCas(pos: nat)
    | PopMove(pos: nat)
    | PopRelease(pos: nat, got: Option<Item>)
    | PopFalse
    | PopTrue(pos: nat, got: Option<Item>)

  /** `pushed[k]` is the item whose pusher won ticket k; `taken[k]` is what the
      popper of ticket k moved out. Both only record the past. */
  datatype State = State(
    cap: nat,
    cells: seq<Cell>,
    head: nat,
    tail: nat,
    threads: seq<Pc>,
    pushed: seq<Item>,
    taken: map<nat, Option<Item>>)

  /** A thread at rest starts a call; a thread inside a call makes its next
      step. `spurious` lets a weak compare-exchange fail on equal values. */
  datatype Choice = CallPush(item: Item) | CallPop | Go(spurious: bool)

  datatype Action = Action(thread: nat, choice: Choice)

  function Slot(cap: nat, pos: nat): nat
    requires cap >= 1
  {
    BitAnd(pos, cap - 1)
  }

  predicate AtRest(pc: Pc) {
    pc.Idle? || pc.PushReturned? || pc.PopFalse? || pc.PopTrue?
  }

  predicate Shaped(s: State) {
    s.cap >= 2 && |s.cells| == s.cap
  }

  function Init(cap: nat, threads: nat): State
    requires cap >= 2
  {
    State(cap, seq(cap, i requires 0 <= i => Cell(i, None)), 0, 0, seq(threads, _ => Idle), [], map[])
  }

  function At(s: State, pos: nat): Cell
    requires Shaped(s)
  {
    var i := Slot(s.cap, pos);
    s.cells[i]
  }

  function SetCell(s: State, pos: nat, c: Cell): State
    requires Shaped(s)
  {
    var i := Slot(s.cap, pos);
    s.(cells := s.cells[i := c])
  }

  function SetPc(s: State, t: nat, pc: Pc): State
    requires t < |s.threads|
  {
    s.(threads := s.threads[t := pc])
  }

  function StepPush(s: State, t: nat, pc: Pc, spurious: bool): (r: State)
    requires Shaped(s) && t < |s.threads|
    requires pc.PushLoad? || pc.PushReadSeq? || pc.PushCas? || pc.PushStore? || pc.PushPublish?
    ensures Shaped(r)
  {
    match pc
    case PushLoad(item) => SetPc(s, t, PushReadSeq(item, s.head))
    case PushReadSeq(item, pos) =>
      var q := At(s, pos).turn;
      if q == pos then SetPc(s, t, PushCas(item, pos))
      else if q < pos then SetPc(s, t, PushReturned(false))
      else SetPc(s, t, PushLoad(item))
    case PushCas(item, pos) =>
      if s.head == pos && !spurious then
        SetPc(s, t, PushStore(item, pos)).(head := pos + 1, pushed := s.pushed + [item])
      else
        SetPc(s, t, PushReadSeq(item, s.head))
    case PushStore(item, pos) =>
      SetPc(SetCell(s, pos, At(s, pos).(data := Some(item))), t, PushPublish(item, pos))
    case PushPublish(item, pos) =>
      SetPc(SetCell(s, pos, At(s, pos).(turn := pos + 1)), t, PushReturned(true))
  }

  function StepPop(s: State, t: nat, pc: Pc, spurious: bool): (r: State)
    requires Shaped(s) && t < |s.threads|
    requires pc.PopLoad? || pc.PopReadSeq? || pc.PopCas? || pc.PopMove? || pc.PopRelease?
    ensures Shaped(r)
  {
    match pc
    case PopLoad => SetPc(s, t, PopReadSeq(s.tail))
    case PopReadSeq(pos) =>
      var q := At(s, pos).turn;
      if q == pos + 1 then SetPc(s, t, PopCas(pos))
      else if q < pos + 1 then SetPc(s, t, PopFalse)
      else SetPc(s, t, PopLoad)
    case PopCas(pos) =>
      if s.tail == pos && !spurious then
        SetPc(s, t, PopMove(pos)).(tail := pos + 1)
      else
        SetPc(s, t, PopReadSeq(s.tail))
    case PopMove(pos) =>
      var got := At(s, pos).data;
      SetPc(SetCell(s, pos, At(s, pos).(data := None)), t, PopRelease(pos, got))
      .(taken := s.taken[pos := got])
    case PopRelease(pos, got) =>
      SetPc(SetCell(s, pos, At(s, pos).(turn := pos + (s.cap - 1) + 1)), t, PopTrue(pos, got))
  }

  predicate Enabled(s: State, a: Action) {
    a.thread < |s.threads| && (a.choice.Go? <==> !AtRest(s.threads[a.thread]))
  }

  function Step(s: State, a: Action): (r: State)
    requires Shaped(s)
    ensures Shaped(r)
  {
    if !Enabled(s, a) then s
    else
      var t := a.thread;
      match a.choice
      case CallPush(item) => SetPc(s, t, PushLoad(item))
      case CallPop => SetPc(s, t, PopLoad)
      case Go(spurious) =>
        var pc := s.threads[t];
        if pc.PushLoad? || pc.PushReadSeq? || pc.PushCas? || pc.PushStore? || pc.PushPublish?
        then StepPush(s, t, pc, spurious)
        else StepPop(s, t, pc, spurious)
  }

  /** Any schedule: an action its thread cannot take is skipped. */
  function Run(s: State, acts: seq<Action>): (r: State)
    requires Shaped(s)
    ensures Shaped(r)
    decreases |acts|
  {
    if acts == [] then s else Run(Step(s, acts[0]), acts[1..])
  }

  // ---------------------------------------------------------------- slots

  lemma SlotIsMod(cap: nat, pos: nat)
    requires IsPow2(cap)
    ensures Slot(cap, pos) == pos % cap
  {
    var k: nat :| cap == Pow2(k);
    MaskIsMod(pos, k);
  }

  lemma SameRemainder(cap: nat, p: nat, q: nat)
    requires cap >= 1 && p < q && p % cap == q % cap
    ensures p + cap <= q
  {
    var d := q / cap - p / cap;
    assert d * cap == q - p;
    assert d >= 1 ==> d * cap >= cap;
    assert d <= 0 ==> d * cap <= 0;
  }

  ghost predicate SlotLaws(cap: nat)
    requires cap >= 1
  {
    forall p: nat, q: nat {:trigger Slot(cap, p), Slot(cap, q)} ::
      p < q && Slot(cap, p) == Slot(cap, q) ==> p + cap <= q
  }

  lemma EstablishSlotLaws(cap: nat)
    requires cap >= 2 && IsPow2(cap)
    ensures SlotLaws(cap)
  {
    forall p: nat, q: nat | p < q && Slot(cap, p) == Slot(cap, q) ensures p + cap <= q {
      SlotIsMod(cap, p);
      SlotIsMod(cap, q);
      SameRemainder(cap, p, q);
    }
  }

  lemma SlotNextLap(cap: nat, pos: nat)
    requires cap >= 2 && IsPow2(cap)
    ensures Slot(cap, pos + cap) == Slot(cap, pos)
  {
    SlotIsMod(cap, pos);
    SlotIsMod(cap, pos + cap);
    ModNextLap(pos, cap);
  }

  // ------------------------------------------------------------ invariant

  /** A cell's sequence number is its ticket (waiting for that ticket's push) or
      its ticket plus one (that ticket's item is published). */
  predicate Full(s: State, i: nat)
    requires Shaped(s) && i < s.cap
  {
    Slot(s.cap, s.cells[i].turn) != i
  }

  function Ticket(s: State, i: nat): int
    requires Shaped(s) && i < s.cap
  {
    if Full(s, i) then s.cells[i].turn - 1 else s.cells[i].turn
  }

  predicate OwnsPush(pc: Pc, k: int) {
    (pc.PushStore? || pc.PushPublish?) && pc.pos == k
  }

  predicate OwnsPop(pc: Pc, k: int) {
    (pc.PopMove? || pc.PopRelease?) && pc.pos == k
  }

  ghost predicate PushOwner(s: State, k: int) {
    exists t :: 0 <= t < |s.threads| && OwnsPush(s.threads[t], k)
  }

  ghost predicate PopOwner(s: State, k: int) {
    exists t :: 0 <= t < |s.threads| && OwnsPop(s.threads[t], k)
  }

  ghost predicate CellOk(s: State, i: nat)
    requires Shaped(s) && i < s.cap
  {
    var k := Ticket(s, i);
    && k >= 0
    && Slot(s.cap, k) == i
    && (if Full(s, i) then
          && k < s.head <= k + s.cap
          && (k < s.tail ==> PopOwner(s, k))
        else
          && s.tail <= k < s.tail + s.cap
          && (k < s.head ==> PushOwner(s, k)))
  }

  ghost predicate DataOk(s: State, i: nat)
    requires Shaped(s) && i < s.cap && |s.pushed| == s.head && CellOk(s, i)
  {
    Full(s, i) && Ticket(s, i) !in s.taken ==>
      s.cells[i].data == Some(s.pushed[Ticket(s, i)])
  }

  ghost predicate PcOk(s: State, pc: Pc)
    requires Shaped(s) && |s.pushed| == s.head
  {
    match pc
    case PushReadSeq(_, pos) => pos <= s.head
    case PushCas(_, pos) => pos <= s.head && (pos == s.head ==> At(s, pos).turn == pos)
    case PushStore(item, pos) => pos < s.head && At(s, pos).turn == pos && s.pushed[pos] == item
    case PushPublish(item, pos) =>
      pos < s.head && At(s, pos) == Cell(pos, Some(item)) && s.pushed[pos] == item
    case PopReadSeq(pos) => pos <= s.tail
    case PopCas(pos) => pos <= s.tail && (pos == s.tail ==> At(s, pos).turn == pos + 1)
    case PopMove(pos) => pos < s.tail && At(s, pos).turn == pos + 1 && pos !in s.taken
    case PopRelease(pos, got) =>
      pos < s.tail && At(s, pos).turn == pos + 1 && pos in s.taken && s.taken[pos] == got
    case PopTrue(pos, got) => pos in s.taken && s.taken[pos] == got
    case _ => true
  }

  ghost predicate Exclusive(s: State) {
    forall t, u, k {:trigger OwnsPush(s.threads[t], k), OwnsPush(s.threads[u], k)}
                   {:trigger OwnsPop(s.threads[t], k), OwnsPop(s.threads[u], k)} ::
      0 <= t < u < |s.threads| ==>
        !(OwnsPush(s.threads[t], k) && OwnsPush(s.threads[u], k)) &&
        !(OwnsPop(s.threads[t], k) && OwnsPop(s.threads[u], k))
  }

  ghost predicate Counters(s: State) {
    s.tail <= s.head <= s.tail + s.cap && |s.pushed| == s.head
  }

  ghost predicate HistoryOk(s: State)
    requires Counters(s)
  {
    && (forall k :: k in s.taken ==> k < s.tail && s.taken[k] == Some(s.pushed[k]))
    && (forall k: nat :: k < s.tail && k !in s.taken ==> PopOwner(s, k))
  }

  ghost predicate Inv(s: State) {
    && Shaped(s)
    && IsPow2(s.cap)
    && Counters(s)
    && (forall i: nat :: i < s.cap ==> CellOk(s, i))
    && (forall i: nat :: i < s.cap ==> DataOk(s, i))
    && (forall t: nat :: t < |s.threads| ==> PcOk(s, s.threads[t]))
    && Exclusive(s)
    && HistoryOk(s)
  }

  // ------------------------------------------------- the invariant holds

  lemma InitInv(cap: nat, threads: nat)
    requires cap >= 2 && IsPow2(cap)
    ensures Inv(Init(cap, threads))
  {
    var s := Init(cap, threads);
    forall i: nat | i < cap ensures Slot(cap, i) == i {
      SlotIsMod(cap, i);
      DivModUnique(i, cap, 0, i);
    }
  }

  lemma OwnersFrame(s: State, r: State, t: nat)
    requires t < |s.threads| == |r.threads| && r.threads == s.threads[t := r.threads[t]]
    ensures forall k :: PushOwner(s, k) && (OwnsPush(s.threads[t], k) ==> OwnsPush(r.threads[t], k)) ==> PushOwner(r, k)
    ensures forall k :: PopOwner(s, k) && (OwnsPop(s.threads[t], k) ==> OwnsPop(r.threads[t], k)) ==> PopOwner(r, k)
  {
    forall k | PushOwner(s, k) && (OwnsPush(s.threads[t], k) ==> OwnsPush(r.threads[t], k))
      ensures PushOwner(r, k)
    {
      var u :| 0 <= u < |s.threads| && OwnsPush(s.threads[u], k);
      assert OwnsPush(r.threads[u], k);
    }
    forall k | PopOwner(s, k) && (OwnsPop(s.threads[t], k) ==> OwnsPop(r.threads[t], k))
      ensures PopOwner(r, k)
    {
      var u :| 0 <= u < |s.threads| && OwnsPop(s.threads[u], k);
      assert OwnsPop(r.threads[u], k);
    }
  }

  /** A thread that gains no ticket cannot break exclusiveness. */
  lemma ExclusiveFrame(s: State, r: State, t: nat)
    requires t < |s.threads| == |r.threads| && r.threads == s.threads[t := r.threads[t]]
    requires Exclusive(s)
    requires forall k :: OwnsPush(r.threads[t], k) ==> OwnsPush(s.threads[t], k)
    requires forall k :: OwnsPop(r.threads[t], k) ==> OwnsPop(s.threads[t], k)
    ensures Exclusive(r)
  {
    forall x, y, k | 0 <= x < y < |r.threads|
      ensures !(OwnsPush(r.threads[x], k) && OwnsPush(r.threads[y], k))
      ensures !(OwnsPop(r.threads[x], k) && OwnsPop(r.threads[y], k))
    {
      assert OwnsPush(r.threads[x], k) ==> OwnsPush(s.threads[x], k);
      assert OwnsPush(r.threads[y], k) ==> OwnsPush(s.threads[y], k);
      assert OwnsPop(r.threads[x], k) ==> OwnsPop(s.threads[x], k);
      assert OwnsPop(r.threads[y], k) ==> OwnsPop(s.threads[y], k);
    }
  }

  predicate Owning(pc: Pc) {
    pc.PushStore? || pc.PushPublish? || pc.PopMove? || pc.PopRelease?
  }

  lemma LocalCell(s: State, t: nat, pc: Pc, i: nat)
    requires Inv(s) && t < |s.threads| && i < s.cap
    requires !Owning(s.threads[t]) && !Owning(pc)
    ensures var r := SetPc(s, t, pc); CellOk(r, i) && DataOk(r, i)
  {
    hide BitAnd, IsPow2, PcOk, Exclusive;
    OwnersFrame(s, SetPc(s, t, pc), t);
    assert CellOk(s, i) && DataOk(s, i);
  }

  lemma LocalPc(s: State, t: nat, pc: Pc, any: Pc)
    requires Shaped(s) && |s.pushed| == s.head && t < |s.threads|
    ensures PcOk(SetPc(s, t, pc), any) == PcOk(s, any)
  {
    hide BitAnd;
  }

  /** Steps that touch nothing shared: calls, loads and failed attempts. */
  lemma LocalStep(s: State, t: nat, pc: Pc)
    requires Inv(s) && t < |s.threads|
    requires !Owning(s.threads[t]) && !Owning(pc) && PcOk(s, pc)
    ensures Inv(SetPc(s, t, pc))
  {
    hide BitAnd, IsPow2, PcOk, CellOk, DataOk, Exclusive;
    var r := SetPc(s, t, pc);
    ExclusiveFrame(s, r, t);
    OwnersFrame(s, r, t);
    forall i: nat | i < r.cap ensures CellOk(r, i) && DataOk(r, i) {
      LocalCell(s, t, pc, i);
    }
    forall u: nat | u < |r.threads| ensures PcOk(r, r.threads[u]) {
      LocalPc(s, t, pc, r.threads[u]);
      assert PcOk(s, s.threads[u]);
    }
  }

  lemma PushWinsOwnCell(s: State, t: nat)
    requires Inv(s) && t < |s.threads| && s.threads[t].PushCas? && s.threads[t].pos == s.head
    ensures var i := Slot(s.cap, s.head); !Full(s, i) && Ticket(s, i) == s.head < s.tail + s.cap
    ensures forall i: nat :: i < s.cap && Full(s, i) ==> Ticket(s, i) + s.cap != s.head
  {
    hide BitAnd, IsPow2;
    var pos := s.head;
    EstablishSlotLaws(s.cap);
    assert CellOk(s, Slot(s.cap, pos)) && PcOk(s, s.threads[t]);
    if pos >= s.cap {
      SlotNextLap(s.cap, pos - s.cap);
    }
    forall i: nat | i < s.cap && Full(s, i) ensures Ticket(s, i) + s.cap != s.head {
      assert CellOk(s, i);
    }
  }

  lemma PushWinsCell(s: State, t: nat, i: nat)
    requires Inv(s) && t < |s.threads| && s.threads[t].PushCas? && s.threads[t].pos == s.head
    requires i < s.cap
    ensures var r := StepPush(s, t, s.threads[t], false); Counters(r) && CellOk(r, i) && DataOk(r, i)
  {
    hide BitAnd, IsPow2;
    var r := StepPush(s, t, s.threads[t], false);
    PushWinsOwnCell(s, t);
    OwnersFrame(s, r, t);
    assert OwnsPush(r.threads[t], s.head);
    assert CellOk(s, i) && DataOk(s, i);
    assert r.cells[i] == s.cells[i];
    assert Full(r, i) == Full(s, i) && Ticket(r, i) == Ticket(s, i);
  }

  lemma PushWinsPc(s: State, t: nat, u: nat)
    requires Inv(s) && t < |s.threads| && s.threads[t].PushCas? && s.threads[t].pos == s.head
    requires u < |s.threads|
    ensures var r := StepPush(s, t, s.threads[t], false); |r.pushed| == r.head && PcOk(r, r.threads[u])
  {
    hide BitAnd, IsPow2;
    var pos := s.threads[t].pos;
    EstablishSlotLaws(s.cap);
    assert OwnsPush(StepPush(s, t, s.threads[t], false).threads[t], pos);
    assert PcOk(s, s.threads[t]) && PcOk(s, s.threads[u]);
    assert CellOk(s, Slot(s.cap, pos)) && DataOk(s, Slot(s.cap, pos));
  }

  lemma PushWins(s: State, t: nat)
    requires Inv(s) && t < |s.threads| && s.threads[t].PushCas? && s.threads[t].pos == s.head
    ensures Inv(StepPush(s, t, s.threads[t], false))
  {
    hide BitAnd, IsPow2, CellOk, DataOk;
    PushWinsCell(s, t, 0);
    var r := StepPush(s, t, s.threads[t], false);
    OwnersFrame(s, r, t);
    assert PcOk(s, s.threads[t]);
    forall i: nat | i < r.cap ensures CellOk(r, i) && DataOk(r, i) {
      PushWinsCell(s, t, i);
    }
    forall u: nat | u < |r.threads| ensures PcOk(r, r.threads[u]) {
      PushWinsPc(s, t, u);
      assert PcOk(s, s.threads[u]);
    }
  }

  lemma PushStoresCell(s: State, t: nat, i: nat)
    requires Inv(s) && t < |s.threads| && s.threads[t].PushStore?
    requires i < s.cap
    ensures var r := StepPush(s, t, s.threads[t], false); Counters(r) && CellOk(r, i) && DataOk(r, i)
  {
    hide BitAnd, IsPow2;
    var r := StepPush(s, t, s.threads[t], false);
    var pos := s.threads[t].pos;
    OwnersFrame(s, r, t);
    assert OwnsPush(s.threads[t], pos);
    assert PcOk(s, s.threads[t]);
    assert CellOk(s, Slot(s.cap, pos)) && DataOk(s, Slot(s.cap, pos));
    assert CellOk(s, i) && DataOk(s, i);
  }

  lemma PushStoresPc(s: State, t: nat, u: nat)
    requires Inv(s) && t < |s.threads| && s.threads[t].PushStore?
    requires u < |s.threads|
    ensures var r := StepPush(s, t, s.threads[t], false); |r.pushed| == r.head && PcOk(r, r.threads[u])
  {
    hide BitAnd, IsPow2;
    var pos := s.threads[t].pos;
    assert OwnsPush(s.threads[t], pos);
    assert PcOk(s, s.threads[t]) && PcOk(s, s.threads[u]);
    assert CellOk(s, Slot(s.cap, pos)) && DataOk(s, Slot(s.cap, pos));
    assert u != t ==> !OwnsPush(s.threads[u], pos);
  }

  lemma PushStores(s: State, t: nat)
    requires Inv(s) && t < |s.threads| && s.threads[t].PushStore?
    ensures Inv(StepPush(s, t, s.threads[t], false))
  {
    hide BitAnd, IsPow2, CellOk, DataOk;
    PushStoresCell(s, t, 0);
    var r := StepPush(s, t, s.threads[t], false);
    ExclusiveFrame(s, r, t);
    OwnersFrame(s, r, t);
    assert PcOk(s, s.threads[t]);
    forall i: nat | i < r.cap ensures CellOk(r, i) && DataOk(r, i) {
      PushStoresCell(s, t, i);
    }
    forall u: nat | u < |r.threads| ensures PcOk(r, r.threads[u]) {
      PushStoresPc(s, t, u);
      assert PcOk(s, s.threads[u]);
    }
  }

  lemma PushPublishesOwnCell(s: State, t: nat)
    requires Inv(s) && t < |s.threads| && s.threads[t].PushPublish?
    ensures var i := Slot(s.cap, s.threads[t].pos);
      var r := StepPush(s, t, s.threads[t], false);
      Ticket(s, i) == s.threads[t].pos && CellOk(r, i) && DataOk(r, i)
  {
    hide BitAnd, IsPow2;
    var r := StepPush(s, t, s.threads[t], false);
    var pos := s.threads[t].pos;
    EstablishSlotLaws(s.cap);
    assert PcOk(s, s.threads[t]);
    assert CellOk(s, Slot(s.cap, pos));
    assert Slot(s.cap, pos + 1) != Slot(s.cap, pos);
  }

  lemma PushPublishesCell(s: State, t: nat, i: nat)
    requires Inv(s) && t < |s.threads| && s.threads[t].PushPublish?
    requires i < s.cap
    ensures var r := StepPush(s, t, s.threads[t], false); Counters(r) && CellOk(r, i) && DataOk(r, i)
  {
    hide BitAnd, IsPow2, PcOk;
    var r := StepPush(s, t, s.threads[t], false);
    var pos := s.threads[t].pos;
    PushPublishesOwnCell(s, t);
    OwnersFrame(s, r, t);
    assert CellOk(s, i) && DataOk(s, i);
    if i != Slot(s.cap, pos) {
      assert r.cells[i] == s.cells[i];
      assert Ticket(s, i) != pos;
    }
  }

  lemma PushPublishesPc(s: State, t: nat, u: nat)
    requires Inv(s) && t < |s.threads| && s.threads[t].PushPublish?
    requires u < |s.threads|
    ensures var r := StepPush(s, t, s.threads[t], false); |r.pushed| == r.head && PcOk(r, r.threads[u])
  {
    hide BitAnd, IsPow2;
    var pos := s.threads[t].pos;
    EstablishSlotLaws(s.cap);
    assert OwnsPush(s.threads[t], pos);
    assert PcOk(s, s.threads[t]) && PcOk(s, s.threads[u]);
    assert CellOk(s, Slot(s.cap, pos)) && DataOk(s, Slot(s.cap, pos));
    assert Slot(s.cap, pos + 1) != Slot(s.cap, pos);
    assert u != t ==> !OwnsPush(s.threads[u], pos);
  }

  lemma PushPublishes(s: State, t: nat)
    requires Inv(s) && t < |s.threads| && s.threads[t].PushPublish?
    ensures Inv(StepPush(s, t, s.threads[t], false))
  {
    hide BitAnd, IsPow2, CellOk, DataOk;
    PushPublishesCell(s, t, 0);
    var r := StepPush(s, t, s.threads[t], false);
    ExclusiveFrame(s, r, t);
    OwnersFrame(s, r, t);
    assert PcOk(s, s.threads[t]);
    forall i: nat | i < r.cap ensures CellOk(r, i) && DataOk(r, i) {
      PushPublishesCell(s, t, i);
    }
    forall u: nat | u < |r.threads| ensures PcOk(r, r.threads[u]) {
      PushPublishesPc(s, t, u);
      assert PcOk(s, s.threads[u]);
    }
  }

  lemma PopWinsOwnCell(s: State, t: nat)
    requires Inv(s) && t < |s.threads| && s.threads[t].PopCas? && s.threads[t].pos == s.tail
    ensures var i := Slot(s.cap, s.tail); Full(s, i) && Ticket(s, i) == s.tail < s.head
    ensures forall i: nat :: i < s.cap && Ticket(s, i) == s.tail ==> i == Slot(s.cap, s.tail)
  {
    hide BitAnd, IsPow2;
    EstablishSlotLaws(s.cap);
    assert PcOk(s, s.threads[t]);
    assert CellOk(s, Slot(s.cap, s.tail));
    assert Slot(s.cap, s.tail + 1) != Slot(s.cap, s.tail);
    forall i: nat | i < s.cap && Ticket(s, i) == s.tail ensures i == Slot(s.cap, s.tail) {
      assert CellOk(s, i);
    }
  }

  lemma PopWinsCell(s: State, t: nat, i: nat)
    requires Inv(s) && t < |s.threads| && s.threads[t].PopCas? && s.threads[t].pos == s.tail
    requires i < s.cap
    ensures var r := StepPop(s, t, s.threads[t], false); Counters(r) && CellOk(r, i) && DataOk(r, i)
  {
    hide BitAnd, IsPow2, PcOk;
    var r := StepPop(s, t, s.threads[t], false);
    PopWinsOwnCell(s, t);
    OwnersFrame(s, r, t);
    assert OwnsPop(r.threads[t], s.tail);
    assert CellOk(s, i) && DataOk(s, i);
    assert Full(r, i) == Full(s, i) && Ticket(r, i) == Ticket(s, i);
  }

  lemma PopWinsPc(s: State, t: nat, u: nat)
    requires Inv(s) && t < |s.threads| && s.threads[t].PopCas? && s.threads[t].pos == s.tail
    requires u < |s.threads|
    ensures var r := StepPop(s, t, s.threads[t], false); |r.pushed| == r.head && PcOk(r, r.threads[u])
  {
    hide BitAnd, IsPow2;
    var pos := s.threads[t].pos;
    EstablishSlotLaws(s.cap);
    assert OwnsPop(StepPop(s, t, s.threads[t], false).threads[t], pos);
    assert PcOk(s, s.threads[t]) && PcOk(s, s.threads[u]);
    assert CellOk(s, Slot(s.cap, pos)) && DataOk(s, Slot(s.cap, pos));
    assert Slot(s.cap, pos + 1) != Slot(s.cap, pos);
  }

  lemma PopWins(s: State, t: nat)
    requires Inv(s) && t < |s.threads| && s.threads[t].PopCas? && s.threads[t].pos == s.tail
    ensures Inv(StepPop(s, t, s.threads[t], false))
  {
    hide BitAnd, IsPow2, CellOk, DataOk;
    PopWinsCell(s, t, 0);
    var r := StepPop(s, t, s.threads[t], false);
    OwnersFrame(s, r, t);
    assert PcOk(s, s.threads[t]);
    forall i: nat | i < r.cap ensures CellOk(r, i) && DataOk(r, i) {
      PopWinsCell(s, t, i);
    }
    forall u: nat | u < |r.threads| ensures PcOk(r, r.threads[u]) {
      PopWinsPc(s, t, u);
      assert PcOk(s, s.threads[u]);
    }
  }

  lemma PopMovesData(s: State, t: nat)
    requires Inv(s) && t < |s.threads| && s.threads[t].PopMove?
    ensures var pos := s.threads[t].pos; var i := Slot(s.cap, pos);
      Full(s, i) && Ticket(s, i) == pos && s.cells[i].data == Some(s.pushed[pos])
  {
    hide BitAnd, IsPow2;
    var pos := s.threads[t].pos;
    EstablishSlotLaws(s.cap);
    assert PcOk(s, s.threads[t]);
    assert Slot(s.cap, pos + 1) != Slot(s.cap, pos);
    assert DataOk(s, Slot(s.cap, pos));
  }

  lemma PopMovesCell(s: State, t: nat, i: nat)
    requires Inv(s) && t < |s.threads| && s.threads[t].PopMove?
    requires i < s.cap
    ensures At(s, s.threads[t].pos).data == Some(s.pushed[s.threads[t].pos])
    ensures var r := StepPop(s, t, s.threads[t], false); Counters(r) && CellOk(r, i) && DataOk(r, i)
  {
    hide BitAnd, IsPow2;
    var r := StepPop(s, t, s.threads[t], false);
    var pos := s.threads[t].pos;
    PopMovesData(s, t);
    OwnersFrame(s, r, t);
    assert OwnsPop(s.threads[t], pos);
    assert CellOk(s, i) && DataOk(s, i);
    assert r.cells[i].turn == s.cells[i].turn;
    assert Full(r, i) == Full(s, i) && Ticket(r, i) == Ticket(s, i);
  }

  lemma PopMovesPc(s: State, t: nat, u: nat)
    requires Inv(s) && t < |s.threads| && s.threads[t].PopMove?
    requires u < |s.threads|
    ensures var r := StepPop(s, t, s.threads[t], false); |r.pushed| == r.head && PcOk(r, r.threads[u])
  {
    hide BitAnd, IsPow2;
    var pos := s.threads[t].pos;
    EstablishSlotLaws(s.cap);
    assert OwnsPop(s.threads[t], pos);
    assert PcOk(s, s.threads[t]) && PcOk(s, s.threads[u]);
    assert CellOk(s, Slot(s.cap, pos)) && DataOk(s, Slot(s.cap, pos));
    assert Slot(s.cap, pos + 1) != Slot(s.cap, pos);
    assert u != t ==> !OwnsPop(s.threads[u], pos);
  }

  lemma PopMoves(s: State, t: nat)
    requires Inv(s) && t < |s.threads| && s.threads[t].PopMove?
    ensures Inv(StepPop(s, t, s.threads[t], false))
  {
    hide BitAnd, IsPow2, CellOk, DataOk;
    PopMovesCell(s, t, 0);
    var r := StepPop(s, t, s.threads[t], false);
    ExclusiveFrame(s, r, t);
    OwnersFrame(s, r, t);
    assert PcOk(s, s.threads[t]);
    forall i: nat | i < r.cap ensures CellOk(r, i) && DataOk(r, i) {
      PopMovesCell(s, t, i);
    }
    forall u: nat | u < |r.threads| ensures PcOk(r, r.threads[u]) {
      PopMovesPc(s, t, u);
      assert PcOk(s, s.threads[u]);
    }
  }

  lemma PopReleasesOwnCell(s: State, t: nat)
    requires Inv(s) && t < |s.threads| && s.threads[t].PopRelease?
    ensures var i := Slot(s.cap, s.threads[t].pos);
      var r := StepPop(s, t, s.threads[t], false);
      Full(s, i) && Ticket(s, i) == s.threads[t].pos && CellOk(r, i) && DataOk(r, i)
  {
    hide BitAnd, IsPow2;
    var pos := s.threads[t].pos;
    var r := StepPop(s, t, s.threads[t], false);
    EstablishSlotLaws(s.cap);
    SlotNextLap(s.cap, pos);
    assert PcOk(s, s.threads[t]);
    assert Slot(s.cap, pos + 1) != Slot(s.cap, pos);
    assert CellOk(s, Slot(s.cap, pos));
    assert !Full(r, Slot(s.cap, pos)) && Ticket(r, Slot(s.cap, pos)) == pos + s.cap;
  }

  lemma PopReleasesCell(s: State, t: nat, i: nat)
    requires Inv(s) && t < |s.threads| && s.threads[t].PopRelease?
    requires i < s.cap
    ensures var r := StepPop(s, t, s.threads[t], false); Counters(r) && CellOk(r, i) && DataOk(r, i)
  {
    hide BitAnd, IsPow2;
    var r := StepPop(s, t, s.threads[t], false);
    var pos := s.threads[t].pos;
    PopReleasesOwnCell(s, t);
    OwnersFrame(s, r, t);
    assert PcOk(s, s.threads[t]);
    assert CellOk(s, i) && DataOk(s, i);
    if i != Slot(s.cap, pos) {
      assert r.cells[i] == s.cells[i];
      assert Ticket(s, i) != pos;
    }
  }

  lemma PopReleasesPc(s: State, t: nat, u: nat)
    requires Inv(s) && t < |s.threads| && s.threads[t].PopRelease?
    requires u < |s.threads|
    ensures var r := StepPop(s, t, s.threads[t], false); |r.pushed| == r.head && PcOk(r, r.threads[u])
  {
    hide BitAnd, IsPow2;
    var pos := s.threads[t].pos;
    EstablishSlotLaws(s.cap);
    assert OwnsPop(s.threads[t], pos);
    assert PcOk(s, s.threads[t]) && PcOk(s, s.threads[u]);
    assert CellOk(s, Slot(s.cap, pos)) && DataOk(s, Slot(s.cap, pos));
    assert Slot(s.cap, pos + 1) != Slot(s.cap, pos);
    assert u != t ==> !OwnsPop(s.threads[u], pos);
  }

  lemma PopReleases(s: State, t: nat)
    requires Inv(s) && t < |s.threads| && s.threads[t].PopRelease?
    ensures Inv(StepPop(s, t, s.threads[t], false))
  {
    hide BitAnd, IsPow2, CellOk, DataOk;
    PopReleasesCell(s, t, 0);
    var r := StepPop(s, t, s.threads[t], false);
    ExclusiveFrame(s, r, t);
    OwnersFrame(s, r, t);
    assert PcOk(s, s.threads[t]);
    forall i: nat | i < r.cap ensures CellOk(r, i) && DataOk(r, i) {
      PopReleasesCell(s, t, i);
    }
    forall u: nat | u < |r.threads| ensures PcOk(r, r.threads[u]) {
      PopReleasesPc(s, t, u);
      assert PcOk(s, s.threads[u]);
    }
  }

  /** Every step of every thread keeps the invariant. */
  lemma StepInv(s: State, a: Action)
    requires Inv(s)
    ensures Inv(Step(s, a))
  {
    hide BitAnd, IsPow2;
    if Enabled(s, a) {
      var t := a.thread;
      var pc := s.threads[t];
      assert PcOk(s, pc);
      if pc.PushStore? {
        PushStores(s, t);
      } else if pc.PushPublish? {
        PushPublishes(s, t);
      } else if pc.PopMove? {
        PopMoves(s, t);
      } else if pc.PopRelease? {
        PopReleases(s, t);
      } else if a.choice.Go? && !a.choice.spurious && pc.PushCas? && pc.pos == s.head {
        PushWins(s, t);
      } else if a.choice.Go? && !a.choice.spurious && pc.PopCas? && pc.pos == s.tail {
        PopWins(s, t);
      } else {
        LocalStep(s, t, Step(s, a).threads[t]);
      }
    }
  }

  /** The invariant holds in every reachable state, for every schedule of any
      number of threads. */
  lemma {:induction false} RunInv(s: State, acts: seq<Action>)
    requires Inv(s)
    ensures Inv(Run(s, acts))
    decreases |acts|
  {
    if acts != [] {
      StepInv(s, acts[0]);
      RunInv(Step(s, acts[0]), acts[1..]);
    }
  }

  ghost predicate Reachable(s: State) {
    exists cap: nat, n: nat, acts: seq<Action> ::
      cap >= 2 && IsPow2(cap) && s == Run(Init(cap, n), acts)
  }

  lemma ReachableInv(s: State)
    requires Reachable(s)
    ensures Inv(s)
  {
    var cap: nat, n: nat, acts: seq<Action> :| cap >= 2 && IsPow2(cap) && s == Run(Init(cap, n), acts);
    InitInv(cap, n);
    RunInv(Init(cap, n), acts);
  }

  // -------------------------------------------------------------- results

  /** Never more than `cap` tickets are between the two counters. */
  lemma CountersBounded(s: State)
    requires Reachable(s)
    ensures s.tail <= s.head <= s.tail + s.cap
  {
    hide BitAnd, IsPow2;
    ReachableInv(s);
  }

  /** Two threads that may touch cell data are never on the same cell. */
  lemma DataIsExclusive(s: State, t: nat, u: nat)
    requires Reachable(s) && t < u < |s.threads|
    requires Owning(s.threads[t]) && Owning(s.threads[u])
    ensures Slot(s.cap, s.threads[t].pos) != Slot(s.cap, s.threads[u].pos)
  {
    ReachableInv(s);
    hide BitAnd, IsPow2;
    EstablishSlotLaws(s.cap);
    var k, m := s.threads[t].pos, s.threads[u].pos;
    assert PcOk(s, s.threads[t]) && PcOk(s, s.threads[u]);
    assert OwnsPush(s.threads[t], k) || OwnsPop(s.threads[t], k);
    assert OwnsPush(s.threads[u], m) || OwnsPop(s.threads[u], m);
  }

  datatype Phase = Unclaimed | Storing | Ready | Moving | Released

  /** The life of ticket k: won by nobody yet, its pusher storing, published and
      waiting, its popper moving the item out, cell handed to the next lap. */
  ghost predicate InPhase(s: State, k: nat, p: Phase)
    requires Shaped(s)
  {
    match p
    case Unclaimed => s.head <= k
    case Storing => PushOwner(s, k)
    case Ready => s.tail <= k < s.head && At(s, k).turn == k + 1
    case Moving => PopOwner(s, k)
    case Released => k < s.tail && At(s, k).turn > k + 1
  }

  lemma WhereIsTicket(s: State, k: nat)
    requires Inv(s)
    ensures exists p :: InPhase(s, k, p)
  {
    hide BitAnd, IsPow2;
    EstablishSlotLaws(s.cap);
    var i := Slot(s.cap, k);
    assert CellOk(s, i);
    var j := Ticket(s, i);
    if s.head <= k {
      assert InPhase(s, k, Unclaimed);
    } else if j == k && !Full(s, i) {
      assert InPhase(s, k, Storing);
    } else if j == k && k < s.tail {
      assert InPhase(s, k, Moving);
    } else if j == k {
      assert InPhase(s, k, Ready);
    } else if j > k {
      assert InPhase(s, k, Released);
    } else {
      assert false;
    }
  }

  lemma OwnersKnow(s: State, k: nat)
    requires Inv(s)
    ensures PushOwner(s, k) ==> k < s.head && At(s, k).turn == k
    ensures PopOwner(s, k) ==> k < s.tail && At(s, k).turn == k + 1
  {
    hide BitAnd, IsPow2;
    if PushOwner(s, k) {
      var t :| 0 <= t < |s.threads| && OwnsPush(s.threads[t], k);
      assert PcOk(s, s.threads[t]);
    }
    if PopOwner(s, k) {
      var t :| 0 <= t < |s.threads| && OwnsPop(s.threads[t], k);
      assert PcOk(s, s.threads[t]);
    }
  }

  lemma StoringBeforePopped(s: State, k: nat)
    requires Inv(s) && At(s, k).turn == k
    ensures s.tail <= k
  {
    hide BitAnd, IsPow2;
    assert CellOk(s, Slot(s.cap, k));
  }

  /** Every ticket is in exactly one phase. */
  lemma ExactlyOnePhase(s: State, k: nat)
    requires Reachable(s)
    ensures exists p :: InPhase(s, k, p) && forall q :: InPhase(s, k, q) ==> q == p
  {
    ReachableInv(s);
    hide BitAnd, IsPow2, Inv, Reachable;
    WhereIsTicket(s, k);
    OwnersKnow(s, k);
    if At(s, k).turn == k {
      StoringBeforePopped(s, k);
    }
    var p :| InPhase(s, k, p);
    assert Counters(s) by { CountersAreInv(s); }
    forall q | InPhase(s, k, q) ensures q == p {
    }
  }

  lemma CountersAreInv(s: State)
    requires Inv(s)
    ensures Counters(s)
  {
  }

  lemma InvCounters(s: State)
    requires Inv(s)
    ensures Shaped(s) && Counters(s)
  {
  }

  /** The items between the counters, oldest ticket first. */
  function Contents(s: State): (q: seq<Item>)
    requires Counters(s)
    ensures |q| == s.head - s.tail
  {
    s.pushed[s.tail..s.head]
  }

  /** The queue refines a bounded first-in first-out sequence: each step leaves
      the sequence alone, or is a push winning a free place at the back, or is a
      pop winning the front item. */
  lemma RefinesFifo(s: State, a: Action)
    requires Inv(s)
    ensures Inv(Step(s, a))
    ensures var r := Step(s, a); var q, q' := Contents(s), Contents(r);
      || q' == q
      || (exists item ::
            && |q| < s.cap && q' == q + [item]
            && s.threads[a.thread] == PushCas(item, s.head)
            && r.threads[a.thread] == PushStore(item, s.head))
      || (&& q != [] && q' == q[1..]
          && s.threads[a.thread] == PopCas(s.tail)
          && r.threads[a.thread] == PopMove(s.tail))
  {
    hide Inv, At, Slot;
    InvCounters(s);
    StepInv(s, a);
    InvCounters(Step(s, a));
    var r := Step(s, a);
    if r.head != s.head {
      var item := s.threads[a.thread].item;
      assert s.threads[a.thread] == PushCas(item, s.head);
      assert Contents(r) == Contents(s) + [item];
    } else if r.tail != s.tail {
      assert Contents(r) == Contents(s)[1..];
    }
  }

  /** A pop that returns true returns the item stored by the push that won the
      same ticket. */
  lemma PopReturnsItsTicket(s: State, t: nat)
    requires Reachable(s) && t < |s.threads| && s.threads[t].PopTrue?
    ensures s.threads[t].pos < s.tail <= |s.pushed|
    ensures s.threads[t].got == Some(s.pushed[s.threads[t].pos])
  {
    ReachableInv(s);
    hide BitAnd, IsPow2;
    assert PcOk(s, s.threads[t]);
  }

  /** Along any schedule the record of pushes only grows at its end and no item
      moved out is ever moved out again or changed. */
  lemma {:induction false} HistoryOnlyGrows(s: State, acts: seq<Action>)
    requires Inv(s)
    ensures var r := Run(s, acts);
      && s.pushed <= r.pushed
      && (forall k :: k in s.taken ==> k in r.taken && r.taken[k] == s.taken[k])
    decreases |acts|
  {
    hide BitAnd, IsPow2;
    if acts != [] {
      StepInv(s, acts[0]);
      OneStepGrows(s, acts[0]);
      HistoryOnlyGrows(Step(s, acts[0]), acts[1..]);
    }
  }

  lemma NotTakenYet(s: State, t: nat)
    requires Inv(s) && t < |s.threads| && s.threads[t].PopMove?
    ensures s.threads[t].pos !in s.taken
  {
    hide BitAnd, IsPow2, CellOk, DataOk;
    assert PcOk(s, s.threads[t]);
  }

  /** Each step moves out at most one item, and only of an untaken ticket. */
  lemma OneStepGrows(s: State, a: Action)
    requires Inv(s)
    ensures var r := Step(s, a);
      && s.pushed <= r.pushed
      && (forall k :: k in s.taken ==> k in r.taken && r.taken[k] == s.taken[k])
      && |r.taken| <= |s.taken| + 1
      && (forall k :: k in r.taken && k !in s.taken ==> Enabled(s, a) && s.threads[a.thread] == PopMove(k))
    ensures Enabled(s, a) && s.threads[a.thread].PopMove? ==> s.threads[a.thread].pos !in s.taken
  {
    hide Inv, At, Slot;
    InvCounters(s);
    if Enabled(s, a) && s.threads[a.thread].PopMove? {
      NotTakenYet(s, a.thread);
    }
  }

  // ------------------------------------------------------- never twice

  /** The thread is about to move, is moving or has just returned ticket k. */
  predicate HoldsTicket(pc: Pc, k: int) {
    (pc.PopMove? || pc.PopRelease? || pc.PopTrue?) && pc.pos == k
  }

  ghost predicate HandedOnce(s: State) {
    forall t, u, k {:trigger HoldsTicket(s.threads[t], k), HoldsTicket(s.threads[u], k)} ::
      0 <= t < u < |s.threads| ==> !(HoldsTicket(s.threads[t], k) && HoldsTicket(s.threads[u], k))
  }

  lemma HeldBelowTail(s: State, t: nat, k: int)
    requires Inv(s) && t < |s.threads| && HoldsTicket(s.threads[t], k)
    ensures 0 <= k < s.tail
  {
    hide BitAnd, IsPow2, CellOk, DataOk;
    assert PcOk(s, s.threads[t]);
  }

  /** How a thread comes to stand in the later steps of a pop. */
  lemma PopProgress(s: State, a: Action, t: nat)
    requires Shaped(s) && t < |s.threads|
    ensures var pc, r := s.threads[t], Step(s, a);
      && |r.threads| == |s.threads|
      && match r.threads[t]
         case PopMove(pos) => (pc == r.threads[t] && (t != a.thread || !Enabled(s, a))) || (t == a.thread && pos == s.tail)
         case PopRelease(pos, _) =>
           (pc == r.threads[t] && (t != a.thread || !Enabled(s, a))) || pc == PopMove(pos)
         case PopTrue(pos, got) => pc == r.threads[t] || pc == PopRelease(pos, got)
         case _ => true
  {
    hide At, Slot, StepPush, StepPop;
    if Enabled(s, a) && a.choice.Go? {
      PushLeavesPops(s, a.thread, a.choice.spurious);
      PopLeavesPops(s, a.thread, a.choice.spurious);
    }
  }

  lemma PushLeavesPops(s: State, t: nat, spurious: bool)
    requires Shaped(s) && t < |s.threads|
    ensures var pc := s.threads[t];
      pc.PushLoad? || pc.PushReadSeq? || pc.PushCas? || pc.PushStore? || pc.PushPublish? ==>
        var next := StepPush(s, t, pc, spurious).threads[t];
        && StepPush(s, t, pc, spurious).threads == s.threads[t := next]
        && !next.PopMove? && !next.PopRelease? && !next.PopTrue?
  {
    hide At, Slot;
  }

  lemma PopLeavesPops(s: State, t: nat, spurious: bool)
    requires Shaped(s) && t < |s.threads|
    ensures var pc := s.threads[t];
      pc.PopLoad? || pc.PopReadSeq? || pc.PopCas? || pc.PopMove? || pc.PopRelease? ==>
        var next := StepPop(s, t, pc, spurious).threads[t];
        && StepPop(s, t, pc, spurious).threads == s.threads[t := next]
        && (next.PopMove? ==> next.pos == s.tail)
        && (next.PopRelease? ==> pc == PopMove(next.pos))
        && (next.PopTrue? ==> pc == PopRelease(next.pos, next.got))
  {
    hide At, Slot;
  }

  /** A ticket is newly held only by the pop that wins it, and then it is the tail. */
  lemma NewHolder(s: State, a: Action, t: nat, k: int)
    requires Shaped(s) && t < |s.threads| && HoldsTicket(Step(s, a).threads[t], k)
    ensures HoldsTicket(s.threads[t], k) || (t == a.thread && k == s.tail)
  {
    hide At, Slot, Step;
    PopProgress(s, a, t);
  }

  lemma HandedStep(s: State, a: Action)
    requires Inv(s) && HandedOnce(s)
    ensures HandedOnce(Step(s, a))
  {
    var r := Step(s, a);
    SameThreads(s, a);
    hide Inv, Step;
    forall t: nat, u: nat, k | t < u < |r.threads|
      ensures !(HoldsTicket(r.threads[t], k) && HoldsTicket(r.threads[u], k))
    {
      if HoldsTicket(r.threads[t], k) && HoldsTicket(r.threads[u], k) {
        NewHolder(s, a, t, k);
        NewHolder(s, a, u, k);
        if HoldsTicket(s.threads[t], k) {
          HeldBelowTail(s, t, k);
        } else if HoldsTicket(s.threads[u], k) {
          HeldBelowTail(s, u, k);
        }
      }
    }
  }

  lemma SameThreads(s: State, a: Action)
    requires Shaped(s)
    ensures |Step(s, a).threads| == |s.threads| && Step(s, a).tail >= s.tail
  {
    hide At, Slot;
  }

  lemma {:induction false} HandedRun(s: State, acts: seq<Action>)
    requires Inv(s) && HandedOnce(s)
    ensures HandedOnce(Run(s, acts))
    decreases |acts|
  {
    hide Inv, HandedOnce;
    if acts != [] {
      InvShaped(s);
      HandedStep(s, acts[0]);
      StepInv(s, acts[0]);
      HandedRun(Step(s, acts[0]), acts[1..]);
    }
  }

  lemma InvShaped(s: State)
    requires Inv(s)
    ensures Shaped(s)
  {
  }

  /** In every reachable state two threads that have won a pop, and are moving the
      item or have returned it, hold different tickets: no item is handed out twice,
      and no returned ticket is still being moved by another thread. */
  lemma TicketsHandedOnce(s: State, t: nat, u: nat)
    requires Reachable(s) && t < |s.threads| && u < |s.threads| && t != u
    requires s.threads[t].PopMove? || s.threads[t].PopRelease? || s.threads[t].PopTrue?
    requires s.threads[u].PopMove? || s.threads[u].PopRelease? || s.threads[u].PopTrue?
    ensures s.threads[t].pos != s.threads[u].pos
  {
    hide BitAnd, IsPow2;
    var cap: nat, n: nat, acts: seq<Action> :| cap >= 2 && IsPow2(cap) && s == Run(Init(cap, n), acts);
    InitInv(cap, n);
    HandedRun(Init(cap, n), acts);
    var k := s.threads[t].pos;
    assert HoldsTicket(s.threads[t], k);
    assert HoldsTicket(s.threads[u], k) <==> s.threads[u].pos == k;
  }

  /** The step by which a pop of ticket k returns true. */
  predicate Returns(s: State, a: Action, k: nat) {
    Enabled(s, a) && s.threads[a.thread].PopRelease? && s.threads[a.thread].pos == k
  }

  function ReturnCount(s: State, acts: seq<Action>, k: nat): nat
    requires Shaped(s)
    decreases |acts|
  {
    if acts == [] then 0 else (if Returns(s, acts[0], k) then 1 else 0) + ReturnCount(Step(s, acts[0]), acts[1..], k)
  }

  /** The ticket is won and nobody is moving it. */
  ghost predicate Spent(s: State, k: nat) {
    k < s.tail && !PopOwner(s, k)
  }

  lemma SpentStep(s: State, a: Action, k: nat)
    requires Shaped(s) && (Spent(s, k) || (Inv(s) && HandedOnce(s) && Returns(s, a, k)))
    ensures Spent(Step(s, a), k)
    ensures Spent(s, k) ==> !Returns(s, a, k)
  {
    var r := Step(s, a);
    SameThreads(s, a);
    if Returns(s, a, k) {
      assert OwnsPop(s.threads[a.thread], k) && HoldsTicket(s.threads[a.thread], k);
      if !Spent(s, k) {
        HeldBelowTail(s, a.thread, k);
      }
    }
    hide Inv;
    forall t: nat | t < |r.threads| ensures !OwnsPop(r.threads[t], k) {
      OwnerBefore(s, a, t, k);
    }
  }

  lemma OwnerBefore(s: State, a: Action, t: nat, k: nat)
    requires Shaped(s) && t < |s.threads| && k < s.tail
    ensures OwnsPop(Step(s, a).threads[t], k) ==>
      OwnsPop(s.threads[t], k) && HoldsTicket(s.threads[t], k) && !(Returns(s, a, k) && a.thread == t)
  {
    hide At, Slot, Step;
    PopProgress(s, a, t);
  }

  lemma {:induction false} SpentForever(s: State, acts: seq<Action>, k: nat)
    requires Shaped(s) && Spent(s, k)
    ensures ReturnCount(s, acts, k) == 0
    decreases |acts|
  {
    hide Spent, Returns;
    if acts != [] {
      SpentStep(s, acts[0], k);
      SpentForever(Step(s, acts[0]), acts[1..], k);
    }
  }

  lemma {:induction false} ReturnedOnce(s: State, acts: seq<Action>, k: nat)
    requires Inv(s) && HandedOnce(s)
    ensures ReturnCount(s, acts, k) <= 1
    decreases |acts|
  {
    InvShaped(s);
    hide Inv, HandedOnce, Spent, Returns;
    if acts != [] {
      var r := Step(s, acts[0]);
      StepInv(s, acts[0]);
      HandedStep(s, acts[0]);
      if Returns(s, acts[0], k) {
        SpentStep(s, acts[0], k);
        SpentForever(r, acts[1..], k);
      } else {
        ReturnedOnce(r, acts[1..], k);
      }
    }
  }

  /** Never duplicated: over any whole run from an empty queue, of any number of
      threads, at most one pop returns true with a given ticket. */
  lemma EachTicketReturnedOnce(cap: nat, threads: nat, acts: seq<Action>, k: nat)
    requires cap >= 2 && IsPow2(cap)
    ensures ReturnCount(Init(cap, threads), acts, k) <= 1
  {
    InitInv(cap, threads);
    hide BitAnd, IsPow2, Inv;
    ReturnedOnce(Init(cap, threads), acts, k);
  }

  /** With no call in progress nothing is lost: the popped tickets are exactly
      those below the tail, each with its pushed item, and every other pushed
      item sits published in its cell. */
  lemma NothingLostAtRest(s: State)
    requires Reachable(s) && forall t :: 0 <= t < |s.threads| ==> AtRest(s.threads[t])
    ensures s.tail <= s.head == |s.pushed|
    ensures forall k: nat :: k < s.tail <==> k in s.taken
    ensures forall k: nat :: k < s.tail ==> s.taken[k] == Some(s.pushed[k])
    ensures forall k: nat :: s.tail <= k < s.head ==> At(s, k) == Cell(k + 1, Some(s.pushed[k]))
  {
    ReachableInv(s);
    hide BitAnd, IsPow2;
    forall k: nat | s.tail <= k < s.head
      ensures At(s, k) == Cell(k + 1, Some(s.pushed[k]))
    {
      ReadyAtRest(s, k);
    }
  }

  lemma ReadyAtRest(s: State, k: nat)
    requires Inv(s) && s.tail <= k < s.head
    requires forall t :: 0 <= t < |s.threads| ==> AtRest(s.threads[t])
    ensures At(s, k) == Cell(k + 1, Some(s.pushed[k]))
  {
    hide BitAnd, IsPow2;
    EstablishSlotLaws(s.cap);
    var i := Slot(s.cap, k);
    assert CellOk(s, i) && DataOk(s, i);
    WhereIsTicket(s, k);
    var p :| InPhase(s, k, p);
    assert p == Ready;
    assert Slot(s.cap, k + 1) != i;
  }

  /** Pop answers false at the step that reads the cell's sequence number exactly
      when its position is the tail and the tail's item is not published. Then
      the queue is empty or the pusher of that ticket is still storing. */
  lemma PopFalseIff(s: State, t: nat, spurious: bool)
    requires Reachable(s) && t < |s.threads| && s.threads[t].PopReadSeq?
    ensures var pos := s.threads[t].pos;
      Step(s, Action(t, Go(spurious))).threads[t] == PopFalse <==>
      pos == s.tail && At(s, s.tail).turn != s.tail + 1
    ensures Step(s, Action(t, Go(spurious))).threads[t] == PopFalse ==>
      s.head == s.tail || PushOwner(s, s.tail)
  {
    ReachableInv(s);
    hide BitAnd, IsPow2;
    EstablishSlotLaws(s.cap);
    var pos := s.threads[t].pos;
    assert PcOk(s, s.threads[t]);
    assert CellOk(s, Slot(s.cap, pos));
  }

  /** Push answers false exactly when its position is the head and the ticket one
      lap back is not released. Then the queue is full or the popper of that
      ticket is still moving its item out. */
  lemma PushFalseIff(s: State, t: nat, spurious: bool)
    requires Reachable(s) && t < |s.threads| && s.threads[t].PushReadSeq?
    ensures var pos := s.threads[t].pos;
      Step(s, Action(t, Go(spurious))).threads[t] == PushReturned(false) <==>
      pos == s.head && At(s, s.head).turn != s.head
    ensures Step(s, Action(t, Go(spurious))).threads[t] == PushReturned(false) ==>
      s.head >= s.cap && (s.head == s.tail + s.cap || PopOwner(s, s.head - s.cap))
  {
    ReachableInv(s);
    hide BitAnd, IsPow2;
    EstablishSlotLaws(s.cap);
    var pos := s.threads[t].pos;
    assert PcOk(s, s.threads[t]);
    assert CellOk(s, Slot(s.cap, pos));
    if Step(s, Action(t, Go(spurious))).threads[t] == PushReturned(false) && s.head >= s.cap {
      SlotNextLap(s.cap, s.head - s.cap);
    }
  }

  // ------------------------------------------------- answers and what was done

  /** Which items or tickets are counted: one, or all. */
  predicate Counted<T(==)>(which: Option<T>, x: T) {
    which.None? || which.value == x
  }

  function One(b: bool): nat {
    if b then 1 else 0
  }

  /** The thread has won a ticket for such an item and not yet answered. */
  predicate StoresOne(pc: Pc, which: Option<Item>) {
    (pc.PushStore? || pc.PushPublish?) && Counted(which, pc.item)
  }

  function StoringCount(ts: seq<Pc>, which: Option<Item>): nat {
    if ts == [] then 0 else StoringCount(ts[..|ts| - 1], which) + One(StoresOne(ts[|ts| - 1], which))
  }

  /** The thread is moving out such a ticket and has not yet answered. */
  predicate MovesOne(pc: Pc, which: Option<nat>) {
    (pc.PopMove? || pc.PopRelease?) && Counted(which, pc.pos)
  }

  function MovingCount(ts: seq<Pc>, which: Option<nat>): nat {
    if ts == [] then 0 else MovingCount(ts[..|ts| - 1], which) + One(MovesOne(ts[|ts| - 1], which))
  }

  function Items(items: seq<Item>, which: Option<Item>): nat {
    if items == [] then 0 else Items(items[..|items| - 1], which) + One(Counted(which, items[|items| - 1]))
  }

  lemma {:induction false} StoringUpdate(ts: seq<Pc>, i: nat, pc: Pc, which: Option<Item>)
    requires i < |ts|
    ensures StoringCount(ts[i := pc], which) + One(StoresOne(ts[i], which)) == StoringCount(ts, which) + One(StoresOne(pc, which))
  {
    hide StoresOne, One;
    var n := |ts| - 1;
    if i == n {
      assert ts[i := pc][..n] == ts[..n];
    } else {
      StoringUpdate(ts[..n], i, pc, which);
      assert ts[i := pc][..n] == ts[..n][i := pc];
    }
  }

  lemma {:induction false} MovingUpdate(ts: seq<Pc>, i: nat, pc: Pc, which: Option<nat>)
    requires i < |ts|
    ensures MovingCount(ts[i := pc], which) + One(MovesOne(ts[i], which)) == MovingCount(ts, which) + One(MovesOne(pc, which))
  {
    hide MovesOne, One;
    var n := |ts| - 1;
    if i == n {
      assert ts[i := pc][..n] == ts[..n];
    } else {
      MovingUpdate(ts[..n], i, pc, which);
      assert ts[i := pc][..n] == ts[..n][i := pc];
    }
  }

  lemma {:induction false} NothingHeld(ts: seq<Pc>, item: Option<Item>, k: Option<nat>)
    requires forall t :: 0 <= t < |ts| ==> ts[t].Idle?
    ensures StoringCount(ts, item) == 0 && MovingCount(ts, k) == 0
  {
    if ts != [] {
      NothingHeld(ts[..|ts| - 1], item, k);
    }
  }

  lemma {:induction false} AllItems(items: seq<Item>)
    ensures Items(items, None) == |items|
  {
    if items != [] {
      AllItems(items[..|items| - 1]);
    }
  }

  lemma ItemsAppend(items: seq<Item>, x: Item, which: Option<Item>)
    ensures Items(items + [x], which) == Items(items, which) + One(Counted(which, x))
  {
    assert (items + [x])[..|items|] == items;
  }

  /** The tickets below the tail, each once. */
  function Below(tail: nat, which: Option<nat>): nat {
    if which.None? then tail else One(which.value < tail)
  }

  predicate Pushing(pc: Pc) {
    pc.PushLoad? || pc.PushReadSeq? || pc.PushCas? || pc.PushStore? || pc.PushPublish?
  }

  /** The step answers true to a push of such an item. */
  predicate PushedTrue(s: State, a: Action, which: Option<Item>)
    requires Shaped(s)
  {
    && Enabled(s, a) && a.choice.Go? && Pushing(s.threads[a.thread])
    && Step(s, a).threads[a.thread] == PushReturned(true) && Counted(which, s.threads[a.thread].item)
  }

  /** The step answers true to a pop of such a ticket. */
  predicate PoppedTrue(s: State, a: Action, which: Option<nat>)
    requires Shaped(s)
  {
    && Enabled(s, a)
    && Step(s, a).threads[a.thread].PopTrue? && Counted(which, Step(s, a).threads[a.thread].pos)
  }

  function TruePushes(s: State, acts: seq<Action>, which: Option<Item>): nat
    requires Shaped(s)
    decreases |acts|
  {
    if acts == [] then 0 else One(PushedTrue(s, acts[0], which)) + TruePushes(Step(s, acts[0]), acts[1..], which)
  }

  function TruePops(s: State, acts: seq<Action>, which: Option<nat>): nat
    requires Shaped(s)
    decreases |acts|
  {
    if acts == [] then 0 else One(PoppedTrue(s, acts[0], which)) + TruePops(Step(s, acts[0]), acts[1..], which)
  }

  /** What a step of a thread does to its own place and to the pushed items. */
  lemma OwnPush(s: State, a: Action, which: Option<Item>)
    requires Shaped(s) && Enabled(s, a)
    ensures var r := Step(s, a);
      var pc, next := s.threads[a.thread], r.threads[a.thread];
      && r.threads == s.threads[a.thread := next]
      && Items(r.pushed, which) + One(StoresOne(pc, which))
         == Items(s.pushed, which) + One(StoresOne(next, which)) + One(PushedTrue(s, a, which))
  {
    hide At, Slot, Items;
    if s.threads[a.thread].PushCas? {
      ItemsAppend(s.pushed, s.threads[a.thread].item, which);
    }
  }

  lemma PushKeepsTail(s: State, t: nat, spurious: bool)
    requires Shaped(s) && t < |s.threads| && Pushing(s.threads[t])
    ensures StepPush(s, t, s.threads[t], spurious).tail == s.tail
  {
    hide At, Slot;
  }

  lemma PopTicket(s: State, t: nat, spurious: bool, which: Option<nat>)
    requires Shaped(s) && t < |s.threads|
    requires var pc := s.threads[t]; pc.PopLoad? || pc.PopReadSeq? || pc.PopCas? || pc.PopMove? || pc.PopRelease?
    ensures var r := StepPop(s, t, s.threads[t], spurious);
      var pc, next := s.threads[t], r.threads[t];
      Below(r.tail, which) + One(MovesOne(pc, which))
        == Below(s.tail, which) + One(MovesOne(next, which)) + One(next.PopTrue? && Counted(which, next.pos))
  {
    hide At, Slot;
  }

  /** And to the tickets. */
  lemma OwnPop(s: State, a: Action, which: Option<nat>)
    requires Shaped(s) && Enabled(s, a)
    ensures var r := Step(s, a);
      var pc, next := s.threads[a.thread], r.threads[a.thread];
      Below(r.tail, which) + One(MovesOne(pc, which))
        == Below(s.tail, which) + One(MovesOne(next, which)) + One(PoppedTrue(s, a, which))
  {
    hide At, Slot, StepPush, StepPop, Below;
    if a.choice.Go? {
      if Pushing(s.threads[a.thread]) {
        PushLeavesPops(s, a.thread, a.choice.spurious);
        PushKeepsTail(s, a.thread, a.choice.spurious);
      } else {
        PopTicket(s, a.thread, a.choice.spurious, which);
      }
    }
  }

  lemma AnswerStep(s: State, a: Action, item: Option<Item>, k: Option<nat>)
    requires Inv(s)
    ensures Shaped(s)
    ensures var r := Step(s, a);
      && Items(r.pushed, item) + StoringCount(s.threads, item)
         == Items(s.pushed, item) + StoringCount(r.threads, item) + One(PushedTrue(s, a, item))
      && Below(r.tail, k) + MovingCount(s.threads, k) == Below(s.tail, k) + MovingCount(r.threads, k) + One(PoppedTrue(s, a, k))
  {
    InvCounters(s);
    hide Inv, Step, StoresOne, MovesOne, StoringCount, MovingCount, Items;
    if Enabled(s, a) {
      OwnPush(s, a, item);
      OwnPop(s, a, k);
      var next := Step(s, a).threads[a.thread];
      StoringUpdate(s.threads, a.thread, next, item);
      MovingUpdate(s.threads, a.thread, next, k);
    } else {
      NoStep(s, a);
    }
  }

  lemma NoStep(s: State, a: Action)
    requires Shaped(s) && !Enabled(s, a)
    ensures Step(s, a) == s
  {
  }

  lemma {:induction false} AnswersAlong(s: State, acts: seq<Action>, item: Option<Item>, k: Option<nat>)
    requires Inv(s)
    ensures Shaped(s)
    ensures var r := Run(s, acts);
      && Items(r.pushed, item) + StoringCount(s.threads, item)
         == Items(s.pushed, item) + StoringCount(r.threads, item) + TruePushes(s, acts, item)
      && Below(r.tail, k) + MovingCount(s.threads, k) == Below(s.tail, k) + MovingCount(r.threads, k) + TruePops(s, acts, k)
    decreases |acts|
  {
    InvShaped(s);
    hide Inv, Step, StoringCount, MovingCount, Items, PushedTrue, PoppedTrue, Below, One;
    if acts != [] {
      AnswerStep(s, acts[0], item, k);
      StepInv(s, acts[0]);
      AnswersAlong(Step(s, acts[0]), acts[1..], item, k);
    }
  }

  /** Over any schedule from an empty queue, for each item and in all: the pushes that
      answered true and those that have won a ticket and are still storing are as many
      as the item was pushed, in all as many as head. For each ticket and in all: the
      pops that answered true with it and those still moving it out are one if it is
      below tail and none otherwise, in all as many as tail. */
  lemma AnswersAccount(cap: nat, threads: nat, acts: seq<Action>, item: Option<Item>, k: Option<nat>)
    requires cap >= 2 && IsPow2(cap)
    ensures var s := Run(Init(cap, threads), acts);
      && TruePushes(Init(cap, threads), acts, item) + StoringCount(s.threads, item) == Items(s.pushed, item)
      && Items(s.pushed, None) == s.head
      && TruePops(Init(cap, threads), acts, k) + MovingCount(s.threads, k) == Below(s.tail, k)
  {
    var s0 := Init(cap, threads);
    InitInv(cap, threads);
    RunInv(s0, acts);
    InvCounters(Run(s0, acts));
    AllItems(Run(s0, acts).pushed);
    NothingHeld(s0.threads, item, k);
    hide Inv, StoringCount, MovingCount, TruePushes, TruePops, IsPow2;
    AnswersAlong(s0, acts, item, k);
  }

  /** A call that has won a ticket, or has answered that it did. */
  predicate Won(pc: Pc) {
    || pc.PushStore? || pc.PushPublish? || pc == PushReturned(true)
    || pc.PopMove? || pc.PopRelease? || pc.PopTrue?
  }

  predicate SameShared(s: State, r: State) {
    r.cells == s.cells && r.head == s.head && r.tail == s.tail && r.pushed == s.pushed && r.taken == s.taken
  }

  lemma StepOfCall(s: State, a: Action)
    requires Shaped(s) && Enabled(s, a) && a.choice.Go?
    ensures var next := Step(s, a).threads[a.thread];
      && (Won(s.threads[a.thread]) ==> Won(next))
      && (!Won(next) ==> SameShared(s, Step(s, a)))
  {
    hide At, Slot;
  }

  lemma StepOfOther(s: State, a: Action, t: nat)
    requires Shaped(s) && t < |s.threads|
    ensures |Step(s, a).threads| == |s.threads|
    ensures a.thread != t || !Enabled(s, a) ==> Step(s, a).threads[t] == s.threads[t]
  {
    hide At, Slot;
  }

  lemma {:induction false} WonForGood(s: State, acts: seq<Action>, t: nat)
    requires Shaped(s) && t < |s.threads| && Won(s.threads[t])
    requires forall i :: 0 <= i < |acts| && acts[i].thread == t ==> acts[i].choice.Go?
    ensures |Run(s, acts).threads| == |s.threads| && Won(Run(s, acts).threads[t])
    decreases |acts|
  {
    hide Step, Won;
    if acts != [] {
      StepOfOther(s, acts[0], t);
      if acts[0].thread == t && Enabled(s, acts[0]) {
        StepOfCall(s, acts[0]);
      }
      WonForGood(Step(s, acts[0]), acts[1..], t);
    }
  }

  /** A call that answers false has won no ticket and touched nothing: whatever
      others do meanwhile, none of its own steps changes cells, counters or items. */
  lemma {:induction false} FalseCallSilent(s: State, acts: seq<Action>, t: nat, i: nat)
    requires Shaped(s) && t < |s.threads|
    requires forall j :: 0 <= j < |acts| && acts[j].thread == t ==> acts[j].choice.Go?
    requires |Run(s, acts).threads| == |s.threads|
    requires Run(s, acts).threads[t] == PushReturned(false) || Run(s, acts).threads[t] == PopFalse
    requires i < |acts| && acts[i].thread == t
    ensures SameShared(Run(s, acts[..i]), Step(Run(s, acts[..i]), acts[i]))
    decreases |acts|
  {
    hide Step, Won, SameShared;
    var r := Step(s, acts[0]);
    StepOfOther(s, acts[0], t);
    if i == 0 {
      assert acts[..0] == [];
      if Enabled(s, acts[0]) {
        StepOfCall(s, acts[0]);
        if Won(r.threads[t]) {
          WonForGood(r, acts[1..], t);
          FalseIsNotWon();
        }
      } else {
        NoStep(s, acts[0]);
        SharedSelf(s);
      }
    } else {
      FalseCallSilent(r, acts[1..], t, i - 1);
      assert acts[..i][1..] == acts[1..][..i - 1];
    }
  }

  lemma FalseIsNotWon()
    ensures !Won(PushReturned(false)) && !Won(PopFalse)
  {
  }

  lemma SharedSelf(s: State)
    ensures SameShared(s, s)
  {
  }

  // --------------------------------------------------- answers and their calls

  /** The last call that a thread has begun. */
  function LastCall(s: State, acts: seq<Action>, t: nat, sofar: Option<Choice>): Option<Choice>
    requires Shaped(s)
    decreases |acts|
  {
    if acts == [] then sofar
    else
      var begun := acts[0].thread == t && Enabled(s, acts[0]) && !acts[0].choice.Go?;
      LastCall(Step(s, acts[0]), acts[1..], t, if begun then Some(acts[0].choice) else sofar)
  }

  /** The thread is somewhere in that call, or has answered it. */
  predicate Serves(pc: Pc, call: Option<Choice>) {
    if pc.Idle? then call == None
    else if Pushing(pc) then call == Some(CallPush(pc.item))
    else if pc.PushReturned? then call.Some? && call.value.CallPush?
    else call == Some(CallPop)
  }

  lemma PushServes(s: State, t: nat, spurious: bool)
    requires Shaped(s) && t < |s.threads| && Pushing(s.threads[t])
    ensures var next := StepPush(s, t, s.threads[t], spurious).threads;
      && |next| == |s.threads|
      && (next[t].PushReturned? || (Pushing(next[t]) && next[t].item == s.threads[t].item))
      && forall u :: 0 <= u < |s.threads| && u != t ==> next[u] == s.threads[u]
  {
    hide At, Slot;
  }

  predicate Popping(pc: Pc) {
    pc.PopLoad? || pc.PopReadSeq? || pc.PopCas? || pc.PopMove? || pc.PopRelease?
  }

  lemma PopServes(s: State, t: nat, spurious: bool)
    requires Shaped(s) && t < |s.threads| && Popping(s.threads[t])
    ensures var next := StepPop(s, t, s.threads[t], spurious).threads;
      && |next| == |s.threads|
      && (next[t].PopTrue? || next[t].PopFalse? || Popping(next[t]))
      && forall u :: 0 <= u < |s.threads| && u != t ==> next[u] == s.threads[u]
  {
    hide At, Slot;
  }

  lemma ServesStep(s: State, a: Action, t: nat, call: Option<Choice>)
    requires Shaped(s) && t < |s.threads| && Serves(s.threads[t], call)
    ensures t < |Step(s, a).threads|
    ensures Serves(Step(s, a).threads[t],
                   if a.thread == t && Enabled(s, a) && !a.choice.Go? then Some(a.choice) else call)
  {
    hide At, Slot, StepPush, StepPop;
    if Enabled(s, a) && a.choice.Go? {
      if Pushing(s.threads[a.thread]) {
        PushServes(s, a.thread, a.choice.spurious);
      } else {
        PopServes(s, a.thread, a.choice.spurious);
      }
    }
  }

  /** What a thread does and answers always belongs to its last call, and what it
      stores is that call's item. */
  lemma {:induction false} ServesLastCall(s: State, acts: seq<Action>, t: nat, sofar: Option<Choice>)
    requires Shaped(s) && t < |s.threads| && Serves(s.threads[t], sofar)
    ensures t < |Run(s, acts).threads| && Serves(Run(s, acts).threads[t], LastCall(s, acts, t, sofar))
    decreases |acts|
  {
    hide Step, Serves;
    if acts != [] {
      ServesStep(s, acts[0], t, sofar);
      var begun := acts[0].thread == t && Enabled(s, acts[0]) && !acts[0].choice.Go?;
      ServesLastCall(Step(s, acts[0]), acts[1..], t, if begun then Some(acts[0].choice) else sofar);
    }
  }

  // ------------------------------------------------------ a call left alone

  /** n steps of one thread that nobody interrupts; StepsAreRun says they are the
      schedule one expects. */
  function Steps(s: State, t: nat, n: nat): (r: State)
    requires Shaped(s)
    ensures Shaped(r)
  {
    if n == 0 then s else Step(Steps(s, t, n - 1), Action(t, Go(false)))
  }

  lemma {:induction false} StepsAreRun(s: State, t: nat, n: nat)
    requires Shaped(s)
    ensures Steps(s, t, n) == Run(s, seq(n, _ => Action(t, Go(false))))
  {
    hide Step;
    var a := Action(t, Go(false));
    if n > 0 {
      StepsAreRun(s, t, n - 1);
      RunNext(s, seq(n - 1, _ => a), a);
      assert seq(n, _ => a) == seq(n - 1, _ => a) + [a];
    }
  }

  lemma {:induction false} RunNext(s: State, acts: seq<Action>, a: Action)
    requires Shaped(s)
    ensures Run(s, acts + [a]) == Step(Run(s, acts), a)
    decreases |acts|
  {
    hide Step;
    if acts == [] {
      assert [] + [a] == [a] && [a][1..] == [];
      assert Run(Step(s, a), []) == Step(s, a);
    } else {
      RunNext(Step(s, acts[0]), acts[1..], a);
      assert (acts + [a])[1..] == acts[1..] + [a];
    }
  }

  /** A push that nobody interrupts appends its item and answers true if the head's
      cell has been released, and otherwise answers false and changes nothing. */
  lemma PushAlone(s: State, t: nat, item: Item)
    requires Reachable(s) && t < |s.threads| && AtRest(s.threads[t])
    ensures var r := Steps(Step(s, Action(t, CallPush(item))), t, 5);
      if At(s, s.head).turn == s.head
      then r.threads == s.threads[t := PushReturned(true)] && r.pushed == s.pushed + [item] && r.head == s.head + 1
      else r.threads == s.threads[t := PushReturned(false)] && SameShared(s, r)
  {
    ReachableInv(s);
    HeadTurn(s);
    InvCounters(s);
    hide Inv, Reachable, Slot, SameShared;
    var s0 := Step(s, Action(t, CallPush(item)));
    var go := Action(t, Go(false));
    var s1 := Step(s0, go);
    var s2 := Step(s1, go);
    assert s1 == SetPc(s, t, PushReadSeq(item, s.head));
    FiveSteps(s0, t);
    if At(s, s.head).turn == s.head {
      assert s2 == SetPc(s, t, PushCas(item, s.head));
      var s3 := Step(s2, go);
      assert s3 == SetPc(s, t, PushStore(item, s.head)).(head := s.head + 1, pushed := s.pushed + [item]);
    } else {
      assert s2 == SetPc(s, t, PushReturned(false));
      RestStays(s2, t);
      assert SameShared(s, s2) by { LocalShares(s, t, PushReturned(false)); }
    }
  }

  lemma LocalShares(s: State, t: nat, pc: Pc)
    requires t < |s.threads|
    ensures SameShared(s, SetPc(s, t, pc))
  {
  }

  lemma FiveSteps(s: State, t: nat)
    requires Shaped(s)
    ensures var go := Action(t, Go(false));
      Steps(s, t, 5) == Step(Step(Step(Step(Step(s, go), go), go), go), go)
  {
    hide Step;
    var go := Action(t, Go(false));
    assert Steps(s, t, 0) == s;
    assert Steps(s, t, 1) == Step(s, go);
    assert Steps(s, t, 2) == Step(Step(s, go), go);
    assert Steps(s, t, 4) == Step(Step(Steps(s, t, 2), go), go);
  }

  lemma RestStays(s: State, t: nat)
    requires Shaped(s) && t < |s.threads| && AtRest(s.threads[t])
    ensures Step(s, Action(t, Go(false))) == s
  {
  }

  /** The head's cell is the one waiting for the next push, or of an earlier lap. */
  lemma HeadTurn(s: State)
    requires Inv(s)
    ensures At(s, s.head).turn <= s.head
  {
    hide BitAnd, IsPow2;
    EstablishSlotLaws(s.cap);
    assert CellOk(s, Slot(s.cap, s.head));
  }

  /** The tail's cell is published, or still waiting for its push. */
  lemma TailTurn(s: State)
    requires Inv(s)
    ensures At(s, s.tail).turn <= s.tail + 1
    ensures At(s, s.tail).turn == s.tail + 1 ==> s.tail < s.head && At(s, s.tail).data == Some(s.pushed[s.tail])
  {
    hide BitAnd, IsPow2;
    EstablishSlotLaws(s.cap);
    assert CellOk(s, Slot(s.cap, s.tail)) && DataOk(s, Slot(s.cap, s.tail));
  }

  /** A pop that nobody interrupts takes the oldest item and answers true if that is
      published, and otherwise answers false and changes nothing. */
  lemma PopAlone(s: State, t: nat)
    requires Reachable(s) && t < |s.threads| && AtRest(s.threads[t])
    ensures var r := Steps(Step(s, Action(t, CallPop)), t, 5);
      if At(s, s.tail).turn == s.tail + 1
      then s.tail < |s.pushed| && r.threads == s.threads[t := PopTrue(s.tail, Some(s.pushed[s.tail]))] && r.tail == s.tail + 1
      else r.threads == s.threads[t := PopFalse] && SameShared(s, r)
  {
    ReachableInv(s);
    TailTurn(s);
    InvCounters(s);
    hide Inv, Reachable, Slot, SameShared;
    var s0 := Step(s, Action(t, CallPop));
    var go := Action(t, Go(false));
    var s1 := Step(s0, go);
    var s2 := Step(s1, go);
    assert s1 == SetPc(s, t, PopReadSeq(s.tail));
    FiveSteps(s0, t);
    if At(s, s.tail).turn == s.tail + 1 {
      assert s2 == SetPc(s, t, PopCas(s.tail));
      var s3 := Step(s2, go);
      assert s3 == SetPc(s, t, PopMove(s.tail)).(tail := s.tail + 1);
    } else {
      assert s2 == SetPc(s, t, PopFalse);
      RestStays(s2, t);
      assert SameShared(s, s2) by { LocalShares(s, t, PopFalse); }
    }
  }
}
