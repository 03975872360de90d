/** The message dedup cache of server/service/msg_service.{h,cpp}: a list of
    nodes from oldest to newest, an index from key to list node, and a reference
    LRU defined from the history of touches alone. */
module DedupCache {
  import opened Collections
  import opened Wrappers

  type Key = string

  /** A cached acknowledgement: the sequence number and time of the message. */
  datatype Ack = Ack(serverSeq: int, serverTime: int)

  /** One list node; the index points at nodes, as list iterators do. */
  class Node {
    const key: Key
    var ack: Ack

    constructor (key: Key, ack: Ack)
      ensures this.key == key && this.ack == ack
    {
      this.key := key;
      this.ack := ack;
    }
  }

  // --------------------------------------------------- the cache as a value

  /** What the list holds, oldest first. */
  type Entries = seq<(Key, Ack)>

  function Position(es: Entries, key: Key): (i: nat)
    ensures i <= |es|
    ensures i < |es| ==> es[i].0 == key
    ensures i == |es| ==> forall j :: 0 <= j < |es| ==> es[j].0 != key
    ensures forall j :: 0 <= j < i ==> es[j].0 != key
  {
    if es == [] then 0
    else if es[0].0 == key then 0
    else
      assert forall j :: 1 <= j < |es| ==> es[j] == es[1..][j - 1];
      1 + Position(es[1..], key)
  }

  predicate Holds(es: Entries, key: Key) {
    Position(es, key) < |es|
  }

  function Without(es: Entries, key: Key): Entries {
    var i := Position(es, key);
    if i < |es| then es[..i] + es[i + 1..] else es
  }

  function Lookup(es: Entries, key: Key): (r: Option<Ack>) {
    var i := Position(es, key);
    if i < |es| then Some(es[i].1) else None
  }

  /** DedupFind: a hit moves to the newest end. */
  function AfterFind(es: Entries, key: Key): Entries {
    match Lookup(es, key)
    case Some(ack) => Without(es, key) + [(key, ack)]
    case None => es
  }

  /** DedupInsert for a limit of at least one. */
  function AfterInsert(es: Entries, key: Key, ack: Ack, max: nat): Entries {
    if max == 0 then es
    else if Holds(es, key) then Without(es, key) + [(key, ack)]
    else Newest(es, max - 1) + [(key, ack)]
  }

  predicate DistinctKeys(es: Entries) {
    forall i, j :: 0 <= i < j < |es| ==> es[i].0 != es[j].0
  }

  class Cache {
    const max: nat
    var order: seq<Node>
    var index: map<Key, Node>

    static ghost function Pairs(nodes: seq<Node>): (es: Entries)
      reads nodes
      ensures |es| == |nodes|
      ensures forall i :: 0 <= i < |nodes| ==> es[i] == (nodes[i].key, nodes[i].ack)
    {
      if nodes == [] then [] else Pairs(nodes[..|nodes| - 1]) + [(nodes[|nodes| - 1].key, nodes[|nodes| - 1].ack)]
    }

    ghost function Contents(): (es: Entries)
      reads this, order
    {
      Pairs(order)
    }

    /** List and index hold the same keys without repetition, and every index
        entry points at the node that carries its key. */
    static ghost predicate WellFormed(order: seq<Node>, index: map<Key, Node>, max: nat) {
      && (forall i, j :: 0 <= i < j < |order| ==> order[i].key != order[j].key)
      && (forall i :: 0 <= i < |order| ==> order[i].key in index && index[order[i].key] == order[i])
      && (forall k :: k in index ==> index[k] in order && index[k].key == k)
      && |order| <= max
    }

    ghost predicate Valid()
      reads this
    {
      WellFormed(order, index, max)
    }

    constructor (max: nat)
      ensures Valid() && this.max == max && Contents() == []
    {
      this.max := max;
      order, index := [], map[];
    }

    lemma IndexSize()
      requires Valid()
      ensures |index| == |order| <= max
    {
      var keys := KeysOf(order);
      assert index.Keys == keys;
      KeyCount(order);
    }

    static ghost function KeysOf(nodes: seq<Node>): set<Key> {
      set n | n in nodes :: n.key
    }

    static lemma {:induction false} KeyCount(nodes: seq<Node>)
      requires forall i, j :: 0 <= i < j < |nodes| ==> nodes[i].key != nodes[j].key
      ensures |KeysOf(nodes)| == |nodes|
    {
      if nodes != [] {
        var n := |nodes| - 1;
        KeyCount(nodes[..n]);
        assert KeysOf(nodes) == KeysOf(nodes[..n]) + {nodes[n].key};
      }
    }

    /** Where in the list an iterator points. */
    method PlaceOf(node: Node) returns (j: nat)
      requires node in order
      ensures j < |order| && order[j] == node
    {
      j := 0;
      while order[j] != node
        invariant 0 <= j < |order| && node in order[j..]
        decreases |order| - j
      {
        j := j + 1;
      }
    }

    /** `splice` of one node to the end of its own list. */
    method SpliceToEnd(node: Node) returns (ghost i: nat)
      requires Valid() && node in order
      modifies this`order
      ensures Valid()
      ensures i < |old(Contents())|
      ensures var es := old(Contents());
        Contents() == es[..i] + es[i + 1..] + [(node.key, node.ack)] && DistinctKeys(es) && es[i].0 == node.key
    {
      hide Pairs, WellFormed, DistinctKeys;
      var j := PlaceOf(node);
      i := j;
      ContentsDistinct();
      MovedOrder(order, index, max, j);
      MovedPairs(order, j);
      order := order[..j] + order[j + 1..] + [node];
    }

    static lemma MovedPlaces(order: seq<Node>, j: nat)
      requires j < |order|
      ensures var r := order[..j] + order[j + 1..] + [order[j]];
        && |r| == |order|
        && (forall x :: 0 <= x < |r| ==> r[x] == order[Moved(|order|, j, x)])
        && (forall n :: n in order ==> n in r)
    {
      var r := order[..j] + order[j + 1..] + [order[j]];
      forall n | n in order ensures n in r {
        var k :| 0 <= k < |order| && order[k] == n;
        assert r[if k < j then k else if k == j then |r| - 1 else k - 1] == n;
      }
    }

    /** Moving a node within the list keeps the index right. */
    static lemma MovedOrder(order: seq<Node>, index: map<Key, Node>, max: nat, j: nat)
      requires WellFormed(order, index, max) && j < |order|
      ensures WellFormed(order[..j] + order[j + 1..] + [order[j]], index, max)
    {
      MovedPlaces(order, j);
    }

    lemma ContentsDistinct()
      requires Valid()
      ensures DistinctKeys(Contents())
    {
      hide Pairs;
    }

    static function Moved(n: nat, j: nat, x: nat): (k: nat)
      requires j < n && x < n
      ensures k < n
    {
      if x < j then x else if x == n - 1 then j else x + 1
    }

    static lemma MovedPairs(nodes: seq<Node>, j: nat)
      requires j < |nodes|
      ensures var es := Pairs(nodes);
        Pairs(nodes[..j] + nodes[j + 1..] + [nodes[j]]) == es[..j] + es[j + 1..] + [es[j]]
    {
      hide Pairs;
      var moved := nodes[..j] + nodes[j + 1..] + [nodes[j]];
      var es, r := Pairs(nodes), Pairs(moved);
      forall k | 0 <= k < |nodes| ensures r[k] == es[Moved(|nodes|, j, k)] {
        assert moved[k] == nodes[Moved(|nodes|, j, k)];
      }
      SplicePairs(es, r, j, |nodes|);
    }

    method Find(key: Key) returns (r: Option<Ack>)
      requires Valid()
      modifies this`order
      ensures Valid()
      ensures r == Lookup(old(Contents()), key)
      ensures Contents() == AfterFind(old(Contents()), key)
    {
      hide Pairs, Position;
      ghost var es := Contents();
      if key !in index {
        assert Position(es, key) == |es|;
        return None;
      }
      var node := index[key];
      ghost var i := SpliceToEnd(node);
      PositionOf(es, key, i);
      return Some(node.ack);
    }

    /** The overwrite branch of DedupInsert: the ack is written through the node. */
    method Refresh(key: Key, ack: Ack)
      requires Valid() && key in index
      modifies this`order, order
      ensures Valid()
      ensures Holds(old(Contents()), key)
      ensures Contents() == Without(old(Contents()), key) + [(key, ack)]
    {
      hide Pairs, Position, Without, Holds;
      ghost var es := Contents();
      var node := index[key];
      node.ack := ack;
      ghost var updated := Contents();
      ghost var i := SpliceToEnd(node);
      WithoutAt(es, updated, key, i);
    }

    /** One round of the eviction loop. */
    method EvictOldest()
      requires Valid() && order != []
      modifies this
      ensures Valid()
      ensures order == old(order)[1..] && index == old(index) - {old(order)[0].key}
    {
      var oldest := order[0];
      index := index - {oldest.key};
      order := order[1..];
    }

    /** The eviction loop. */
    method EvictUntilRoom()
      requires Valid() && max > 0
      modifies this
      ensures Valid() && order == Newest(old(order), max - 1)
      ensures forall k :: k in index ==> k in old(index)
    {
      hide Valid;
      ghost var was, n := order, 0;
      IndexSize();
      while |index| >= max
        invariant Valid() && |index| == |order| <= max
        invariant n <= |was| && order == was[n..]
        invariant n == 0 || |order| >= max - 1
        invariant forall k :: k in index ==> k in old(index)
        decreases |order|
      {
        EvictOldest();
        IndexSize();
        n := n + 1;
      }
    }

    method Append(key: Key, ack: Ack)
      requires Valid() && key !in index && |order| < max
      modifies this
      ensures Valid()
      ensures Contents() == old(Contents()) + [(key, ack)]
    {
      hide Pairs;
      var node := new Node(key, ack);
      order := order + [node];
      index := index[key := node];
      assert Contents() == old(Contents()) + [(key, ack)];
    }

    lemma IndexHolds(key: Key)
      requires Valid()
      ensures key in index <==> Holds(Contents(), key)
    {
      hide Pairs, Position;
      if key in index {
        var i :| 0 <= i < |order| && order[i] == index[key];
        assert Contents()[i].0 == key;
      }
    }

    method InsertNew(key: Key, ack: Ack)
      requires Valid() && max > 0 && key !in index
      modifies this
      ensures Valid()
      ensures Contents() == Newest(old(Contents()), max - 1) + [(key, ack)]
    {
      hide Pairs, WellFormed;
      ghost var es := Contents();
      EvictUntilRoom();
      assert Contents() == Newest(es, max - 1);
      Append(key, ack);
    }

    method Insert(key: Key, ack: Ack)
      requires Valid()
      modifies this, order
      ensures Valid()
      ensures Contents() == AfterInsert(old(Contents()), key, ack, max)
    {
      hide Pairs, WellFormed, Holds, Without, Newest;
      if max == 0 {
        return;
      }
      IndexHolds(key);
      if key in index {
        Refresh(key, ack);
        return;
      }
      InsertNew(key, ack);
    }
  }

  lemma SplicePairs(es: Entries, r: Entries, j: nat, n: nat)
    requires j < |es| == |r| == n
    requires forall k :: 0 <= k < n ==> r[k] == es[Cache.Moved(n, j, k)]
    ensures r == es[..j] + es[j + 1..] + [es[j]]
  {
    var g := es[..j] + es[j + 1..] + [es[j]];
    forall k | 0 <= k < n ensures r[k] == g[k] {
      assert j <= k < n - 1 ==> g[k] == es[k + 1];
    }
  }

  /** Removing a key does not look at its ack. */
  lemma WithoutAt(es: Entries, updated: Entries, key: Key, i: nat)
    requires |updated| == |es| && DistinctKeys(es)
    requires forall j :: 0 <= j < |es| ==> updated[j].0 == es[j].0 && (es[j].0 == key || updated[j] == es[j])
    requires i < |es| && es[i].0 == key
    ensures Holds(es, key) && Without(es, key) == updated[..i] + updated[i + 1..]
  {
    PositionOf(es, key, i);
  }

  lemma PositionOf(es: Entries, key: Key, i: nat)
    requires DistinctKeys(es) && i < |es| && es[i].0 == key
    ensures Position(es, key) == i
  {
  }

  // ----------------------------------------- the reference: touch history

  datatype Op = Find(key: Key) | Insert(key: Key, ack: Ack)

  function Apply(es: Entries, op: Op, max: nat): Entries {
    match op
    case Find(key) => AfterFind(es, key)
    case Insert(key, ack) => AfterInsert(es, key, ack, max)
  }

  /** The cache after a sequence of operations on an empty one. */
  function After(ops: seq<Op>, max: nat): Entries {
    if ops == [] then [] else Apply(After(ops[..|ops| - 1], max), ops[|ops| - 1], max)
  }

  predicate Touched(ts: Entries, key: Key) {
    exists i :: 0 <= i < |ts| && ts[i].0 == key
  }

  /** The touches that no later touch of the same key supersedes, in order. */
  function LastTouches(ts: Entries): Entries {
    if ts == [] then []
    else (if Touched(ts[1..], ts[0].0) then [] else [ts[0]]) + LastTouches(ts[1..])
  }

  /** The touches of a history: every insert, and every find of a key that is
      among the `max` most recently touched ones. */
  function Touches(ops: seq<Op>, max: nat): Entries {
    if ops == [] then []
    else
      var ts := Touches(ops[..|ops| - 1], max);
      match ops[|ops| - 1]
      case Insert(key, ack) => ts + [(key, ack)]
      case Find(key) =>
        match Lookup(Newest(LastTouches(ts), max), key)
        case Some(ack) => ts + [(key, ack)]
        case None => ts
  }

  lemma TouchedConcat(a: Entries, b: Entries, key: Key)
    ensures Touched(a + b, key) <==> Touched(a, key) || Touched(b, key)
  {
    if Touched(a, key) {
      var i :| 0 <= i < |a| && a[i].0 == key;
      assert (a + b)[i].0 == key;
    }
    if Touched(b, key) {
      var i :| 0 <= i < |b| && b[i].0 == key;
      assert (a + b)[|a| + i].0 == key;
    }
  }

  lemma TouchedOne(x: (Key, Ack), key: Key)
    ensures Touched([x], key) <==> x.0 == key
  {
    assert x.0 == key ==> [x][0].0 == key;
  }

  lemma {:induction false} LastTouchesSameKeys(ts: Entries, key: Key)
    ensures Touched(LastTouches(ts), key) <==> Touched(ts, key)
  {
    hide Touched;
    if ts != [] {
      var rest := LastTouches(ts[1..]);
      LastTouchesSameKeys(ts[1..], key);
      TouchedConcat([ts[0]], ts[1..], key);
      TouchedConcat([ts[0]], rest, key);
      TouchedOne(ts[0], key);
      assert ts == [ts[0]] + ts[1..];
      assert [] + rest == rest;
    }
  }

  lemma {:induction false} LastTouchesKeys(ts: Entries)
    ensures DistinctKeys(LastTouches(ts))
    ensures forall key :: Touched(LastTouches(ts), key) <==> Touched(ts, key)
  {
    forall key ensures Touched(LastTouches(ts), key) <==> Touched(ts, key) {
      LastTouchesSameKeys(ts, key);
    }
    if ts != [] {
      var rest := LastTouches(ts[1..]);
      LastTouchesKeys(ts[1..]);
      if !Touched(ts[1..], ts[0].0) {
        assert !Touched(rest, ts[0].0);
      }
    }
  }

  lemma EmptyFront(s: Entries)
    ensures [] + s == s
  {
  }

  /** One more touch moves its key to the newest end. */
  lemma {:induction false} LastTouchesAppend(ts: Entries, x: (Key, Ack))
    ensures LastTouches(ts + [x]) == Without(LastTouches(ts), x.0) + [x]
  {
    hide Touched, Without, Holds;
    if ts == [] {
      LastTouchesOne(x);
      assert ts + [x] == [x];
    } else {
      LastTouchesAppend(ts[1..], x);
      var rest := LastTouches(ts[1..]);
      assert (ts + [x])[1..] == ts[1..] + [x];
      TouchedConcat(ts[1..], [x], ts[0].0);
      TouchedOne(x, ts[0].0);
      EmptyFront(rest);
      EmptyFront(LastTouches(ts[1..] + [x]));
      if !Touched(ts[1..], ts[0].0) {
        LastTouchesSameKeys(ts[1..], ts[0].0);
        WithoutFront(ts[0], rest, x.0);
        assert LastTouches(ts) == [ts[0]] + rest;
        if x.0 == ts[0].0 {
          WithoutAbsent(rest, x.0);
        } else {
          assert [ts[0]] + Without(rest, x.0) + [x] == [ts[0]] + (Without(rest, x.0) + [x]);
        }
      }
    }
  }

  lemma LastTouchesOne(x: (Key, Ack))
    ensures LastTouches([x]) == Without(LastTouches([]), x.0) + [x]
  {
    assert [x][1..] == [];
  }

  lemma WithoutAbsent(es: Entries, key: Key)
    requires !Touched(es, key)
    ensures Without(es, key) == es
  {
    hide Position;
  }

  lemma WithoutFront(first: (Key, Ack), rest: Entries, key: Key)
    ensures Without([first] + rest, key) == if first.0 == key then rest else [first] + Without(rest, key)
  {
    var es := [first] + rest;
    assert es[1..] == rest;
    var i := Position(rest, key);
    if first.0 != key {
      assert Position(es, key) == 1 + i;
      assert i < |rest| ==> es[..1 + i] == [first] + rest[..i];
      assert i < |rest| ==> es[i + 2..] == rest[i + 1..];
    }
  }

  lemma RemovedBehind(es: Entries, d: nat, j: nat, x: (Key, Ack))
    requires d <= j < |es|
    ensures (es[..j] + es[j + 1..] + [x])[d..] == es[d..][..j - d] + es[d..][j - d + 1..] + [x]
  {
  }

  lemma RemovedBefore(es: Entries, d: nat, j: nat, x: (Key, Ack))
    requires j < d < |es|
    ensures (es[..j] + es[j + 1..] + [x])[d..] == es[d + 1..] + [x]
  {
  }

  lemma NewestHit(es: Entries, key: Key, x: (Key, Ack), n: nat)
    requires n > 0 && DistinctKeys(es) && x.0 == key && Holds(Newest(es, n), key)
    ensures Without(Newest(es, n), key) + [x] == Newest(Without(es, key) + [x], n)
    ensures Lookup(Newest(es, n), key) == Lookup(es, key)
  {
    hide Position, Newest, Without, Lookup, Holds, DistinctKeys;
    var d := |es| - |Newest(es, n)|;
    var i := Position(Newest(es, n), key);
    KeptPlace(es, key, n);
    CutAt(es, key);
    CutAt(es[d..], key);
    RemovedBehind(es, d, d + i, x);
    NewestIs(Without(es, key) + [x], n, d);
  }

  lemma KeptPlace(es: Entries, key: Key, n: nat)
    requires n > 0 && DistinctKeys(es) && Holds(Newest(es, n), key)
    ensures var d, i := |es| - |Newest(es, n)|, Position(Newest(es, n), key);
      && 0 <= d && Newest(es, n) == es[d..] && d + i < |es| && Position(es, key) == d + i
      && (|es| - d == n || (d == 0 && |es| <= n))
  {
    var d := |es| - |Newest(es, n)|;
    assert es[d..] == Newest(es, n);
    hide Newest;
    PositionOf(es, key, d + Position(Newest(es, n), key));
  }

  lemma CutAt(es: Entries, key: Key)
    requires Position(es, key) < |es|
    ensures var i := Position(es, key); Without(es, key) == es[..i] + es[i + 1..] && Lookup(es, key) == Some(es[i].1)
  {
    hide Position;
  }

  lemma NewestIs(es: Entries, n: nat, d: nat)
    requires d <= |es| && (|es| - d == n || (d == 0 && |es| <= n))
    ensures Newest(es, n) == es[d..]
  {
  }

  lemma NewestMiss(es: Entries, key: Key, x: (Key, Ack), n: nat)
    requires n > 0 && DistinctKeys(es) && !Holds(Newest(es, n), key)
    ensures Newest(Newest(es, n), n - 1) + [x] == Newest(Without(es, key) + [x], n)
  {
    hide Position, Lookup, Newest, Without, Holds, DistinctKeys;
    var d := |es| - |Newest(es, n)|;
    NewestSplit(es, n);
    OlderThanNewest(es, key, n);
    if Position(es, key) < d {
      CutAt(es, key);
      RemovedBefore(es, d, Position(es, key), x);
      NewestIs(Without(es, key) + [x], n, d);
      NewestIs(es[d..], n - 1, 1);
    } else {
      NotCut(es, key);
      NewestAppend(es, x, n, d);
    }
  }

  lemma NewestSplit(es: Entries, n: nat)
    ensures var d := |es| - |Newest(es, n)|;
      0 <= d && Newest(es, n) == es[d..] && (|es| - d == n || (d == 0 && |es| <= n))
  {
  }

  lemma NewestAppend(es: Entries, x: (Key, Ack), n: nat, d: nat)
    requires n > 0 && d <= |es| && (|es| - d == n || (d == 0 && |es| <= n))
    ensures Newest(es[d..], n - 1) + [x] == Newest(es + [x], n)
  {
    hide Newest;
    if |es| - d == n {
      NewestIs(es[d..], n - 1, 1);
      NewestIs(es + [x], n, d + 1);
      assert es[d..][1..] == es[d + 1..];
    } else {
      NewestIs(es[d..], n - 1, 0);
      NewestIs(es + [x], n, 0);
    }
  }

  lemma NotCut(es: Entries, key: Key)
    requires Position(es, key) == |es|
    ensures Without(es, key) == es
  {
    hide Position;
  }

  lemma OlderThanNewest(es: Entries, key: Key, n: nat)
    requires !Holds(Newest(es, n), key)
    ensures var i := Position(es, key); i < |es| - |Newest(es, n)| || i == |es|
  {
    hide Position, Newest;
    var kept := Newest(es, n);
    var d := |es| - |kept|;
    var i := Position(es, key);
    NewestAt(es, n);
    assert Position(kept, key) == |kept|;
    forall j | d <= j < |es| ensures es[j].0 != key {
      assert kept[j - d].0 != key;
    }
  }

  /** The cache is LRU: after any operations it holds exactly the `max` most
      recently touched distinct keys, in the order of their last touches. */
  lemma {:induction false} CacheIsLru(ops: seq<Op>, max: nat)
    requires max > 0
    ensures After(ops, max) == Newest(LastTouches(Touches(ops, max)), max)
  {
    if ops != [] {
      var before := ops[..|ops| - 1];
      CacheIsLru(before, max);
      var ts := Touches(before, max);
      var es := LastTouches(ts);
      LastTouchesKeys(ts);
      var op := ops[|ops| - 1];
      var hit := Lookup(After(before, max), op.key);
      match op
      case Insert(key, ack) =>
        LastTouchesAppend(ts, (key, ack));
        if Holds(Newest(es, max), key) {
          NewestHit(es, key, (key, ack), max);
        } else {
          NewestMiss(es, key, (key, ack), max);
        }
      case Find(key) =>
        if hit.Some? {
          LastTouchesAppend(ts, (key, hit.value));
          NewestHit(es, key, (key, hit.value), max);
        }
    }
  }

  /** Keys of a touch sequence. */
  function KeySet(ts: Entries): set<Key> {
    set x | x in ts :: x.0
  }

  lemma {:induction false} LastTouchesSuffix(a: Entries, b: Entries)
    ensures LastTouches(b) == Newest(LastTouches(a + b), |LastTouches(b)|)
    ensures |LastTouches(a + b)| >= |LastTouches(b)|
  {
    if a == [] {
      assert a + b == b;
    } else {
      LastTouchesSuffix(a[1..], b);
      assert (a + b)[1..] == a[1..] + b;
    }
  }

  lemma KeySetFront(ts: Entries)
    requires ts != []
    ensures KeySet(ts) == {ts[0].0} + KeySet(ts[1..])
  {
    assert ts == [ts[0]] + ts[1..];
  }

  lemma {:induction false} LastTouchesSize(ts: Entries)
    ensures |LastTouches(ts)| == |KeySet(ts)|
  {
    if ts != [] {
      LastTouchesSize(ts[1..]);
      KeySetFront(ts);
      if Touched(ts[1..], ts[0].0) {
        var i :| 0 <= i < |ts[1..]| && ts[1..][i].0 == ts[0].0;
        assert ts[1..][i] in ts[1..];
        assert ts[0].0 in KeySet(ts[1..]);
      }
    }
  }

  /** The superseding touches of a key's last touch are those after it. */
  lemma LastTouchPlace(ts: Entries, i: nat)
    requires i < |ts| && !Touched(ts[i + 1..], ts[i].0)
    ensures var all, later := LastTouches(ts), LastTouches(ts[i + 1..]);
      |all| > |later| && all[|all| - |later| - 1] == ts[i]
  {
    hide Touched;
    var later := ts[i + 1..];
    LastTouchesSuffix(ts[..i], [ts[i]] + later);
    assert ts == ts[..i] + ([ts[i]] + later);
    assert ([ts[i]] + later)[1..] == later;
    assert LastTouches([ts[i]] + later) == [ts[i]] + LastTouches(later);
  }

  lemma NewestHoldsIff(es: Entries, p: nat, n: nat)
    requires DistinctKeys(es) && p < |es|
    ensures Holds(Newest(es, n), es[p].0) <==> |es| - p <= n
  {
    hide Position, DistinctKeys;
    var kept := Newest(es, n);
    var d := |es| - |kept|;
    var q := Position(kept, es[p].0);
    if q < |kept| {
      assert es[d + q].0 == es[p].0;
      assert d + q == p by { PositionOf(es, es[p].0, p); PositionOf(es, es[p].0, d + q); }
    } else {
      assert forall k :: 0 <= k < |kept| ==> kept[k] == es[d + k];
    }
  }

  /** A key survives exactly until `max` other distinct keys have been touched
      since its own last touch. */
  lemma SurvivesIff(ops: seq<Op>, max: nat, i: nat)
    requires max > 0 && i < |Touches(ops, max)|
    requires var ts := Touches(ops, max); !Touched(ts[i + 1..], ts[i].0)
    ensures var ts := Touches(ops, max);
      Holds(After(ops, max), ts[i].0) <==> |KeySet(ts[i + 1..])| < max
  {
    hide Touched, Holds, KeySet, LastTouches;
    CacheIsLru(ops, max);
    var ts := Touches(ops, max);
    var all, later := LastTouches(ts), LastTouches(ts[i + 1..]);
    LastTouchesKeys(ts);
    LastTouchesSize(ts[i + 1..]);
    LastTouchPlace(ts, i);
    NewestHoldsIff(all, |all| - |later| - 1, max);
  }

  function LastInserted(ops: seq<Op>, key: Key): Option<Ack> {
    if ops == [] then None
    else if ops[|ops| - 1].Insert? && ops[|ops| - 1].key == key then Some(ops[|ops| - 1].ack)
    else LastInserted(ops[..|ops| - 1], key)
  }

  /** A hit always returns the ack of the key's last insert. */
  lemma {:induction false} HitIsLastInsert(ops: seq<Op>, max: nat, key: Key)
    ensures DistinctKeys(After(ops, max)) && |After(ops, max)| <= max
    ensures Holds(After(ops, max), key) ==> Lookup(After(ops, max), key) == LastInserted(ops, key)
  {
    if ops != [] {
      var before := ops[..|ops| - 1];
      var es := After(before, max);
      var op := ops[|ops| - 1];
      HitIsLastInsert(before, max, key);
      HitIsLastInsert(before, max, op.key);
      MovedEntries(es, op, max, key);
    }
  }

  lemma WithoutFacts(es: Entries, key: Key, other: Key)
    requires DistinctKeys(es)
    ensures DistinctKeys(Without(es, key)) && !Holds(Without(es, key), key)
    ensures |Without(es, key)| == |es| - if Holds(es, key) then 1 else 0
    ensures other != key ==> Lookup(Without(es, key), other) == Lookup(es, other)
  {
    var i := Position(es, key);
    var r := Without(es, key);
    var j := Position(es, other);
    if other != key && j < |es| {
      PositionOf(r, other, if j < i then j else j - 1);
    }
  }

  lemma NewestFacts(es: Entries, n: nat, other: Key)
    requires DistinctKeys(es)
    ensures DistinctKeys(Newest(es, n))
    ensures Holds(Newest(es, n), other) ==> Lookup(Newest(es, n), other) == Lookup(es, other)
  {
    var r := Newest(es, n);
    var j := Position(r, other);
    if j < |r| {
      PositionOf(es, other, |es| - |r| + j);
    }
  }

  lemma AppendFacts(es: Entries, x: (Key, Ack), other: Key)
    requires DistinctKeys(es) && !Holds(es, x.0)
    ensures DistinctKeys(es + [x]) && Lookup(es + [x], x.0) == Some(x.1)
    ensures other != x.0 ==> Lookup(es + [x], other) == Lookup(es, other)
  {
    assert (es + [x])[|es|] == x;
    PositionOf(es + [x], x.0, |es|);
    var j := Position(es, other);
    if j < |es| {
      PositionOf(es + [x], other, j);
    }
  }

  lemma HeldHasAck(es: Entries, key: Key)
    ensures Lookup(es, key).Some? <==> Holds(es, key)
    ensures Holds(es, key) ==> es != []
  {
  }

  /** One operation keeps the keys distinct and the acks of other keys. */
  lemma MovedEntries(es: Entries, op: Op, max: nat, key: Key)
    requires DistinctKeys(es) && |es| <= max
    ensures var r := Apply(es, op, max);
      && DistinctKeys(r) && |r| <= max
      && (key != op.key && Holds(r, key) ==> Lookup(r, key) == Lookup(es, key))
      && (Holds(r, op.key) ==>
            Lookup(r, op.key) == if op.Insert? then Some(op.ack) else Lookup(es, op.key))
  {
    hide Position, Without, Newest, DistinctKeys, Lookup, Holds;
    WithoutFacts(es, op.key, key);
    HeldHasAck(es, op.key);
    HeldHasAck(es, key);
    if max > 0 {
      NewestFacts(es, max - 1, key);
      NewestFacts(es, max - 1, op.key);
    }
    var r := Apply(es, op, max);
    if max > 0 && (op.Insert? || Holds(es, op.key)) {
      var x := r[|r| - 1];
      var rest := if Holds(es, op.key) then Without(es, op.key) else Newest(es, max - 1);
      assert r == rest + [x];
      HeldHasAck(rest, op.key);
      AppendFacts(rest, x, key);
      HeldHasAck(rest, key);
      HeldHasAck(r, key);
    }
  }

  /** When an insert leaves no entry of a key that was there or came up. */
  lemma InsertDrops(es: Entries, k: Key, ack: Ack, max: nat, key: Key)
    requires DistinctKeys(es) && |es| <= max
    ensures var gone := !Holds(AfterInsert(es, k, ack, max), key);
      gone && (Holds(es, key) || k == key) <==>
      (if k == key then max == 0
       else max > 0 && Holds(es, key) && !Holds(es, k) && Position(es, key) + max <= |es|)
  {
    var r := AfterInsert(es, k, ack, max);
    if max > 0 {
      assert r[|r| - 1].0 == k;
      if k != key && Holds(es, key) {
        if Holds(es, k) {
          InsertKeeps(es, k, ack, key);
        } else {
          NewestHoldsIff(es, Position(es, key), max - 1);
          HoldsAppend(Newest(es, max - 1), (k, ack), key);
        }
      }
    }
  }

  lemma InsertKeeps(es: Entries, k: Key, ack: Ack, key: Key)
    requires DistinctKeys(es) && k != key && Holds(es, k) && Holds(es, key)
    ensures Holds(Without(es, k) + [(k, ack)], key)
  {
    WithoutFacts(es, k, key);
    hide Position, Without, DistinctKeys;
    var rest := Without(es, k);
    assert Holds(rest, key);
    HoldsAppend(rest, (k, ack), key);
  }

  lemma HoldsAppend(es: Entries, x: (Key, Ack), key: Key)
    ensures Holds(es + [x], key) <==> Holds(es, key) || x.0 == key
  {
    var r := es + [x];
    var i, j := Position(es, key), Position(r, key);
    if i < |es| {
      assert r[i].0 == key;
    }
    if j < |es| {
      assert es[j].0 == key;
    }
    assert r[|es|] == x;
    hide Position;
  }

  lemma FoundStays(es: Entries, key: Key)
    requires Holds(es, key)
    ensures Holds(AfterFind(es, key), key)
  {
    var r := AfterFind(es, key);
    assert r[|r| - 1].0 == key;
  }

  lemma FindKeeps(es: Entries, k: Key, key: Key)
    requires DistinctKeys(es) && Holds(es, key)
    ensures Holds(AfterFind(es, k), key)
  {
    hide Position, Without, DistinctKeys;
    if k == key {
      FoundStays(es, key);
    } else if Holds(es, k) {
      InsertKeeps(es, k, Lookup(es, k).value, key);
    }
  }

  lemma HeldKey(es: Entries, key: Key)
    ensures Holds(es, key) <==> key in KeySet(es)
  {
    var i := Position(es, key);
    if i < |es| {
      assert es[i] in es;
    }
    if key in KeySet(es) {
      var x :| x in es && x.0 == key;
      var j :| 0 <= j < |es| && es[j] == x;
    }
  }

  lemma {:induction false} KeySetSize(es: Entries)
    requires DistinctKeys(es)
    ensures |KeySet(es)| == |es|
  {
    if es != [] {
      KeySetSize(es[1..]);
      KeySetFront(es);
    }
  }

  /** No operation brings a key that was neither held nor inserted. */
  lemma KeysAfter(es: Entries, op: Op, max: nat)
    ensures KeySet(Apply(es, op, max)) <= KeySet(es) + {op.key}
    ensures op.Find? ==> KeySet(Apply(es, op, max)) <= KeySet(es)
  {
    var r := Apply(es, op, max);
    var i := Position(es, op.key);
    assert i < |es| ==> es[i] in es;
    forall key | key in KeySet(r) ensures key in KeySet(es) || (op.Insert? && key == op.key) {
      var x :| x in r && x.0 == key;
      assert x in es || x.0 == op.key;
    }
  }
}
