/** The queue of server/core/mpmc_queue.h used by one thread at a time: the
    retry loops over the cell array written in place, against a bounded
    first-in first-out sequence. Interleavings are in MpmcQueue. */
module SequentialQueue {
  import opened PowersOfTwo
  import opened Wrappers
  import opened MpmcQueue

  class Queue {
    const buffer: array<Cell>
    const mask: nat
    var head: nat
    var tail: nat
    ghost var contents: seq<Item>

    function Place(pos: nat): nat {
      Slot(mask + 1, pos)
    }

    ghost predicate Shape() {
      buffer.Length == mask + 1 >= 2 && IsPow2(mask + 1)
    }

    ghost predicate Valid()
      reads this, buffer
    {
      && Shape()
      && tail <= head <= tail + buffer.Length
      && |contents| == head - tail
      && (forall k: nat :: tail <= k < head ==>
            buffer[Place(k)] == Cell(k + 1, Some(contents[k - tail])))
      && (forall k: nat :: head <= k < tail + buffer.Length ==> buffer[Place(k)].turn == k)
    }

    constructor (capacity: nat)
      requires capacity >= 2 && IsPow2(capacity)
      ensures Valid() && contents == [] && buffer.Length == capacity && fresh(buffer)
    {
      buffer := new Cell[capacity](i requires i >= 0 => Cell(i, None));
      mask := capacity - 1;
      head, tail, contents := 0, 0, [];
      new;
      forall k: nat | k < capacity ensures Slot(capacity, k) == k {
        SlotIsMod(capacity, k);
        DivModUnique(k, capacity, 0, k);
      }
    }

    /** Succeeds exactly when a place is free, and appends. */
    method Push(item: Item) returns (ok: bool)
      requires Valid()
      modifies this, buffer
      ensures Valid()
      ensures ok <==> |old(contents)| < buffer.Length
      ensures contents == if ok then old(contents) + [item] else old(contents)
    {
      hide BitAnd, IsPow2;
      EstablishSlotLaws(mask + 1);
      SlotNextLap(mask + 1, tail);
      assert Place(tail + buffer.Length) == Place(tail);
      var pos := head;
      var won := false;
      while !won
        invariant head == if won then pos + 1 else pos
        invariant pos == old(head)
        invariant pos == tail + buffer.Length ==> buffer[Place(pos)].turn == tail + 1
        invariant won ==> |contents| < buffer.Length
        modifies `head
        decreases !won
      {
        var seen := buffer[Place(pos)].turn;
        if seen == pos {
          head, won := pos + 1, true;
        } else if seen < pos {
          return false;
        } else {
          assert false;
        }
      }
      buffer[Place(pos)] := buffer[Place(pos)].(data := Some(item));
      buffer[Place(pos)] := buffer[Place(pos)].(turn := pos + 1);
      contents := contents + [item];
      return true;
    }

    /** Succeeds exactly when the queue is not empty, and takes the oldest item. */
    method Pop() returns (item: Option<Item>)
      requires Valid()
      modifies this, buffer
      ensures Valid()
      ensures item.Some? <==> old(contents) != []
      ensures item.Some? ==> old(contents) == [item.value] + contents
      ensures item.None? ==> contents == old(contents)
    {
      hide BitAnd, IsPow2;
      EstablishSlotLaws(mask + 1);
      SlotNextLap(mask + 1, tail);
      var pos := tail;
      var won := false;
      while !won
        invariant tail == if won then pos + 1 else pos
        invariant pos == old(tail)
        invariant won ==> contents != []
        modifies `tail
        decreases !won
      {
        var seen := buffer[Place(pos)].turn;
        if seen == pos + 1 {
          tail, won := pos + 1, true;
        } else if seen < pos + 1 {
          return None;
        } else {
          assert false;
        }
      }
      item := buffer[Place(pos)].data;
      buffer[Place(pos)] := buffer[Place(pos)].(data := None);
      buffer[Place(pos)] := buffer[Place(pos)].(turn := pos + mask + 1);
      contents := contents[1..];
    }
  }
}
