/** The id generator of server/core/snowflake.h: 41 bits of milliseconds since
    2024, 10 bits of node, 12 bits of sequence. The clock is an arbitrary sequence
    of readings, which may jump backwards. */
module Snowflake {
  import opened PowersOfTwo

  const MAX_NODE := 1023
  const MAX_SEQUENCE := 4095

  /** kEpoch. */
  const EPOCH := 1704067200000

  const SPAN := 0x200_0000_0000

  datatype Fields = Fields(time: nat, node: nat, number: nat)

  predicate InRange(f: Fields) {
    f.time < SPAN && f.node <= MAX_NODE && f.number <= MAX_SEQUENCE
  }

  /** The fields shifted into place, 22 and 12 bits, and or-ed. */
  function Packed(f: Fields): nat {
    BitOr(BitOr(ShiftLeft(f.time, 22), ShiftLeft(f.node, 12)), f.number)
  }

  function Sum(f: Fields): nat {
    f.time * 0x40_0000 + f.node * 0x1000 + f.number
  }

  lemma Shifts()
    ensures Pow2(10) == 1024 && Pow2(12) == 0x1000 && Pow2(22) == 0x40_0000
  {
    assert Pow2(6) == 64;
    Pow2Add(6, 4);
    Pow2Add(6, 6);
    Pow2Add(12, 10);
  }

  /** The shifted fields do not overlap, so or-ing them adds them. */
  lemma PackedIsSum(f: Fields)
    requires InRange(f)
    ensures Packed(f) == Sum(f)
  {
    Shifts();
    hide BitOr, Pow2;
    assert ShiftLeft(f.time, 22) == ShiftLeft(ShiftLeft(f.time, 10), 12);
    OrShifted(ShiftLeft(f.time, 10), f.node, 12);
    OrFillsZeros(f.time, 10, f.node);
    OrFillsZeros(f.time * 1024 + f.node, 12, f.number);
  }

  function Unpacked(id: nat): Fields {
    Fields(id / 0x40_0000, id / 0x1000 % 1024, id % 0x1000)
  }

  /** The fields can be read back from an id. */
  lemma FieldsRoundTrip(f: Fields)
    requires InRange(f)
    ensures Unpacked(Packed(f)) == f
  {
    PackedIsSum(f);
    hide Packed;
    assert Packed(f) == (f.time * 1024 + f.node) * 0x1000 + f.number;
    assert Packed(f) / 0x1000 == f.time * 1024 + f.node;
    assert (f.time * 1024 + f.node) % 1024 == f.node;
  }

  /** Ids are ordered as their fields are, and fit a non-negative int64; the lowest
      is zero, although the source's comment promises positive ids. */
  lemma PackedOrder(f: Fields, g: Fields)
    requires InRange(f) && InRange(g)
    ensures 0 <= Packed(f) < 0x8000_0000_0000_0000
    ensures Packed(f) == 0 <==> f == Fields(0, 0, 0)
    ensures Packed(f) < Packed(g) <==>
      f.time < g.time || (f.time == g.time && (f.node < g.node || (f.node == g.node && f.number < g.number)))
  {
    PackedIsSum(f);
    PackedIsSum(g);
    hide Packed;
  }

  class Generator {
    const node: int
    const clock: nat -> int
    var tick: nat
    var lastMs: int
    var number: int
    ghost var issued: seq<int>

    ghost predicate Increasing()
      reads this
    {
      forall i, j :: 0 <= i < j < |issued| ==> issued[i] < issued[j]
    }

    /** The last id is made of the current fields; all ids are of this node. */
    ghost predicate Valid()
      reads this
    {
      && 0 <= node <= MAX_NODE && 0 <= number <= MAX_SEQUENCE
      && (forall i: nat :: EPOCH <= clock(i) < EPOCH + SPAN)
      && Increasing()
      && (issued == [] ==> lastMs == 0 && number == 0)
      && (issued != [] ==>
            && EPOCH <= lastMs < EPOCH + SPAN
            && issued[|issued| - 1] == Packed(Fields(lastMs - EPOCH, node, number)))
      && (forall i :: 0 <= i < |issued| ==> MadeBy(issued[i], node))
    }

    constructor (node: int, clock: nat -> int)
      requires 0 <= node <= MAX_NODE
      requires forall i: nat :: EPOCH <= clock(i) < EPOCH + SPAN
      ensures Valid() && issued == [] && this.node == node && this.clock == clock && tick == 0
    {
      this.node, this.clock := node, clock;
      tick, lastMs, number, issued := 0, 0, 0, [];
    }

    method CurrentMillis() returns (now: int)
      modifies this`tick
      ensures now == clock(old(tick)) && tick == old(tick) + 1
    {
      now := clock(tick);
      tick := tick + 1;
    }

    /** Reads the clock until it has passed `current`; it ends because the reading
        at `horizon` has. */
    method WaitNextMillis(current: int, ghost horizon: nat) returns (now: int)
      requires tick <= horizon && clock(horizon) > current
      modifies this`tick
      ensures old(tick) < tick <= horizon + 1 && now == clock(tick - 1) > current
      ensures forall i :: old(tick) <= i < tick - 1 ==> clock(i) <= current
    {
      now := CurrentMillis();
      while now <= current
        invariant old(tick) < tick <= horizon + 1 && now == clock(tick - 1)
        invariant forall i :: old(tick) <= i < tick - 1 ==> clock(i) <= current
        decreases horizon - tick
      {
        now := CurrentMillis();
      }
    }

    /** Exactly when a call comes to an end: the next reading passes the last time,
        or equals it with a sequence number left, or a later one, at `horizon`,
        passes it. */
    ghost predicate Ends(horizon: nat)
      reads this
    {
      || clock(tick) > lastMs
      || (clock(tick) == lastMs && number < MAX_SEQUENCE)
      || (tick < horizon && clock(horizon) > lastMs)
    }

    /** Reading `last` is the first from reading `first` on that a call may use after
        time `ms` with sequence number `n`: a later time, or at once the same time with
        a number left. */
    ghost predicate FirstUsable(first: nat, ms: int, n: int, last: int)
      reads this
    {
      && first <= last
      && (clock(first) > ms || (clock(first) == ms && n < MAX_SEQUENCE) ==> last == first)
      && (last > first ==> clock(last) > ms && forall i :: first <= i < last ==> clock(i) <= ms)
    }

    /** Moves time or sequence number forward. */
    method Advance(ghost horizon: nat)
      requires 0 <= number <= MAX_SEQUENCE && Ends(horizon)
      modifies this`tick, this`lastMs, this`number
      ensures 0 <= number <= MAX_SEQUENCE && old(tick) < tick && lastMs == clock(tick - 1)
      ensures tick == old(tick) + 1 || tick <= horizon + 1
      ensures FirstUsable(old(tick), old(lastMs), old(number), tick - 1)
      ensures if lastMs == old(lastMs) then number == old(number) + 1 else lastMs > old(lastMs) && number == 0
    {
      hide BitAnd;
      var now := CurrentMillis();
      if now < lastMs {
        now := WaitNextMillis(lastMs, horizon);
      }
      if now == lastMs {
        MaskSequence(number + 1);
        number := BitAnd(number + 1, MAX_SEQUENCE);
        if number == 0 {
          now := WaitNextMillis(now, horizon);
        }
      } else {
        number := 0;
      }
      lastMs := now;
    }

    /** Every id is greater than all before it, whatever the clock does, as long as
        the call ends. */
    method NextId(ghost horizon: nat) returns (id: int)
      requires Valid() && Ends(horizon)
      modifies this
      ensures Valid() && issued == old(issued) + [id]
      ensures forall i :: 0 <= i < |old(issued)| ==> old(issued)[i] < id
      ensures MadeBy(id, node)
      ensures tick == old(tick) + 1 || old(tick) < tick <= horizon + 1
      ensures FirstUsable(old(tick), old(lastMs), old(number), tick - 1)
      ensures Unpacked(id).time == clock(tick - 1) - EPOCH
      ensures old(issued) != [] ==>
        var last := Unpacked(old(issued)[|old(issued)| - 1]);
        Unpacked(id).number == if Unpacked(id).time == last.time then last.number + 1 else 0
    {
      hide Packed, Unpacked;
      ghost var before := if issued == [] then Fields(0, 0, 0) else Fields(lastMs - EPOCH, node, number);
      Advance(horizon);
      ghost var after := Fields(lastMs - EPOCH, node, number);
      id := Packed(Fields(lastMs - EPOCH, node, number));
      PackedOrder(after, after);
      FieldsRoundTrip(after);
      if issued != [] {
        PackedOrder(before, after);
        FieldsRoundTrip(before);
      }
      issued := issued + [id];
    }
  }

  /** Otherwise every reading from now on leaves the call waiting: none passes the
      last time, and the first does not equal it with a number left. */
  lemma EndsIff(g: Generator)
    ensures (exists horizon: nat :: g.Ends(horizon)) <==>
      || (exists i: nat :: g.tick <= i && g.clock(i) > g.lastMs)
      || (g.clock(g.tick) == g.lastMs && g.number < MAX_SEQUENCE)
  {
    if i: nat :| g.tick <= i && g.clock(i) > g.lastMs {
      assert g.Ends(i);
    }
    if g.clock(g.tick) == g.lastMs && g.number < MAX_SEQUENCE {
      assert g.Ends(g.tick);
    }
  }

  lemma MaskSequence(n: nat)
    ensures BitAnd(n, MAX_SEQUENCE) == n % 4096
  {
    Shifts();
    MaskIsMod(n, 12);
  }

  predicate MadeBy(id: int, node: int) {
    0 <= id < 0x8000_0000_0000_0000 && Unpacked(id).node == node
  }

  /** Generators of different nodes never collide. */
  lemma NodesDisjoint(g: Generator, h: Generator, i: nat, j: nat)
    requires g.Valid() && h.Valid() && g.node != h.node
    requires i < |g.issued| && j < |h.issued|
    ensures g.issued[i] != h.issued[j]
  {
    assert MadeBy(g.issued[i], g.node) && MadeBy(h.issued[j], h.node);
  }
}
