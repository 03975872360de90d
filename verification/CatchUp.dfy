/** Catching up on one conversation: the sequence counter
    (server/dao/impl/conversation_dao_impl.cpp), the stored messages
    (server/dao/impl/message_dao_impl.cpp) and the paged fetch
    (server/service/sync_service.cpp). Handlers run one after the other, under the
    session lock. */
module CatchUp {
  import opened Wrappers

  datatype Row = Row(n: int, content: string)

  // ------------------------------------------------------------ the tables

  predicate Increasing(rows: seq<Row>) {
    forall i, j :: 0 <= i < j < |rows| ==> rows[i].n < rows[j].n
  }

  /** Rows above `after`, in order. */
  function Newer(rows: seq<Row>, after: int): (r: seq<Row>) {
    if rows == [] then []
    else (if rows[0].n > after then [rows[0]] else []) + Newer(rows[1..], after)
  }

  lemma NewerFirst(rows: seq<Row>, after: int)
    requires rows != []
    ensures Newer(rows, after) == (if rows[0].n > after then [rows[0]] else []) + Newer(rows[1..], after)
  {
  }

  lemma NewerEnd(rows: seq<Row>, after: int)
    requires rows == []
    ensures Newer(rows, after) == []
  {
  }

  /** `LIMIT`: a negative one means no limit. */
  function Page(rows: seq<Row>, after: int, limit: int): seq<Row> {
    var all := Newer(rows, after);
    if limit < 0 || |all| <= limit then all else all[..limit]
  }

  /** What the handler gets to see: a SELECT that fails gives no rows. */
  function Answer(rows: seq<Row>, after: int, limit: int, ok: bool): seq<Row> {
    if ok then Page(rows, after, limit) else []
  }

  /** Which database calls of a send succeed. */
  datatype Outcome = Outcome(begun: bool, updated: bool, found: bool, committed: bool, inserted: bool)

  class Conversation {
    var maxSeq: int
    var rows: seq<Row>
    ghost var lost: set<int>

    /** Numbers 1 to max_seq were handed out, each once: stored, or lost by a
        failed insert. */
    ghost predicate Valid()
      reads this
    {
      && maxSeq >= 0 && Increasing(rows)
      && (forall i :: 0 <= i < |rows| ==> 1 <= rows[i].n <= maxSeq && rows[i].n !in lost)
      && (forall n :: n in lost ==> 1 <= n <= maxSeq)
      && (forall n :: 1 <= n <= maxSeq && n !in lost ==> exists i :: 0 <= i < |rows| && rows[i].n == n)
    }

    constructor ()
      ensures Valid() && maxSeq == 0 && rows == []
    {
      maxSeq, rows, lost := 0, [], {};
    }

    /** -1, with the counter rolled back, unless all four calls succeed. */
    method IncrMaxSeq(o: Outcome) returns (n: int)
      modifies this`maxSeq
      ensures o.begun && o.updated && o.found && o.committed ==> n == maxSeq == old(maxSeq) + 1
      ensures !(o.begun && o.updated && o.found && o.committed) ==> n == -1 && maxSeq == old(maxSeq)
    {
      if !o.begun {
        return -1;
      }
      var saved := maxSeq;
      if !o.updated {
        return -1;
      }
      maxSeq := maxSeq + 1;
      if !o.found {
        maxSeq := saved;
        return -1;
      }
      n := maxSeq;
      if !o.committed {
        maxSeq := saved;
        return -1;
      }
    }

    /** A whole send: the number is taken first, and stays taken if the insert
        fails. */
    method Send(content: string, o: Outcome) returns (n: int)
      requires Valid()
      modifies this
      ensures Valid()
      ensures if o == Outcome(true, true, true, true, true)
        then n == old(maxSeq) + 1 && rows == old(rows) + [Row(n, content)]
        else n == -1 && rows == old(rows)
      ensures rows == old(rows) + Added(old(maxSeq), Attempt(content, o)) && maxSeq == Numbered(old(maxSeq), o)
      ensures lost == old(lost) || (rows == old(rows) && !o.inserted && lost == old(lost) + {maxSeq})
    {
      n := IncrMaxSeq(o);
      if n < 0 {
        return;
      }
      ghost var before := rows;
      if o.inserted {
        rows := rows + [Row(n, content)];
        assert rows[|before|].n == n;
        assert forall i :: 0 <= i < |before| ==> rows[i] == before[i];
      } else {
        lost := lost + {n};
        n := -1;
      }
    }

    /** The meaning of the SELECT: scan, keep what is newer, stop at the limit. */
    method GetAfterSeq(after: int, limit: int, ok: bool) returns (page: seq<Row>)
      ensures page == Answer(rows, after, limit, ok)
    {
      hide Newer;
      page := [];
      if !ok {
        return;
      }
      var i := 0;
      assert rows[0..] == rows && [] + Newer(rows, after) == Newer(rows, after);
      while i < |rows| && !(0 <= limit <= |page|)
        invariant 0 <= i <= |rows| && (limit >= 0 ==> |page| <= limit)
        invariant page + Newer(rows[i..], after) == Newer(rows, after)
        decreases |rows| - i
      {
        NewerFirst(rows[i..], after);
        assert rows[i..][1..] == rows[i + 1..];
        ghost var rest := Newer(rows[i + 1..], after);
        assert page + ([rows[i]] + rest) == page + [rows[i]] + rest && [] + rest == rest;
        if rows[i].n > after {
          page := page + [rows[i]];
        }
        i := i + 1;
      }
      if i == |rows| {
        NewerEnd(rows[i..], after);
      }
    }

    /** One page, and whether the client is told to ask again. */
    method HandleSyncMsg(after: int, requested: int, byDefault: int, atMost: int, ok: bool)
      returns (page: seq<Row>, hasMore: bool)
      ensures page == Answer(rows, after, Limit(requested, byDefault, atMost), ok)
      ensures hasMore <==> |page| >= Limit(requested, byDefault, atMost)
      ensures Limit(requested, byDefault, atMost) >= 1 && !ok ==> page == [] && !hasMore
    {
      var limit := requested;
      if limit <= 0 {
        limit := byDefault;
      }
      if limit > atMost {
        limit := atMost;
      }
      page := GetAfterSeq(after, limit, ok);
      hasMore := |page| >= limit;
    }
  }

  function Limit(requested: int, byDefault: int, atMost: int): int {
    var limit := if requested <= 0 then byDefault else requested;
    if limit > atMost then atMost else limit
  }

  predicate HasMore(rows: seq<Row>, after: int, limit: int) {
    |Page(rows, after, limit)| >= limit
  }

  /** Every request gets a positive limit exactly when both settings are positive. */
  lemma LimitPositiveIff(byDefault: int, atMost: int)
    ensures (forall requested :: Limit(requested, byDefault, atMost) >= 1) <==> byDefault >= 1 && atMost >= 1
  {
    assert Limit(0, byDefault, atMost) <= byDefault;
    assert Limit(1, byDefault, atMost) <= atMost;
  }

  /** With a limit below one the client is always told to ask again. */
  lemma NoEndWithoutLimit(rows: seq<Row>, after: int, limit: int)
    requires limit <= 0
    ensures HasMore(rows, after, limit)
  {
  }

  // ------------------------------------------------------------- the client

  /** What a client collects that asks for pages after the last number it got until
      it is told there are no more. `script` holds, round by round, the rows that
      whole sends add before the next page. */
  function Fetch(rows: seq<Row>, last: int, limit: int, script: seq<seq<Row>>): seq<Row>
    requires limit >= 1
    decreases |script|, |Newer(rows, last)|
  {
    var page := Page(rows, last, limit);
    if |page| < limit then page
    else
      LastIsNewer(rows, last, limit);
      var next := page[|page| - 1].n;
      page + if script == [] then Fetch(rows, next, limit, []) else Fetch(rows + script[0], next, limit, script[1..])
  }

  /** The same client when the SELECT for page number `cut` fails: it is shown an
      empty last page. */
  function FetchCut(rows: seq<Row>, last: int, limit: int, script: seq<seq<Row>>, cut: nat): seq<Row>
    requires limit >= 1
    decreases cut
  {
    var page := Answer(rows, last, limit, cut > 0);
    if |page| < limit then page
    else
      var next := page[|page| - 1].n;
      page + if script == [] then FetchCut(rows, next, limit, [], cut - 1)
             else FetchCut(rows + script[0], next, limit, script[1..], cut - 1)
  }

  /** The rows in place when the last page was read. */
  function AtLastPage(rows: seq<Row>, last: int, limit: int, script: seq<seq<Row>>): seq<Row>
    requires limit >= 1
    decreases |script|, |Newer(rows, last)|
  {
    var page := Page(rows, last, limit);
    if |page| < limit then rows
    else
      LastIsNewer(rows, last, limit);
      var next := page[|page| - 1].n;
      if script == [] then AtLastPage(rows, next, limit, []) else AtLastPage(rows + script[0], next, limit, script[1..])
  }

  lemma {:induction false} NewerAbove(rows: seq<Row>, after: int)
    ensures forall i :: 0 <= i < |Newer(rows, after)| ==> Newer(rows, after)[i].n > after
  {
    if rows != [] {
      NewerAbove(rows[1..], after);
    }
  }

  lemma {:induction false} NewerShrinks(rows: seq<Row>, after: int, next: int)
    requires after < next && exists i :: 0 <= i < |rows| && rows[i].n == next
    ensures |Newer(rows, next)| < |Newer(rows, after)|
  {
    var i :| 0 <= i < |rows| && rows[i].n == next;
    if i == 0 {
      NewerLess(rows[1..], after, next);
    } else {
      assert rows[1..][i - 1].n == next;
      NewerShrinks(rows[1..], after, next);
    }
  }

  lemma {:induction false} NewerLess(rows: seq<Row>, after: int, next: int)
    requires after <= next
    ensures |Newer(rows, next)| <= |Newer(rows, after)|
  {
    if rows != [] {
      NewerLess(rows[1..], after, next);
    }
  }

  lemma {:induction false} NewerStored(rows: seq<Row>, after: int, k: nat)
    requires k < |Newer(rows, after)|
    ensures exists i :: 0 <= i < |rows| && rows[i] == Newer(rows, after)[k]
  {
    var front := if rows[0].n > after then 1 else 0;
    if k < front {
      assert rows[0] == Newer(rows, after)[k];
    } else {
      NewerStored(rows[1..], after, k - front);
      var i :| 0 <= i < |rows[1..]| && rows[1..][i] == Newer(rows[1..], after)[k - front];
      assert rows[i + 1] == Newer(rows, after)[k];
    }
  }

  /** A full page makes progress. */
  lemma LastIsNewer(rows: seq<Row>, last: int, limit: int)
    requires limit >= 1 && |Page(rows, last, limit)| >= limit
    ensures var page := Page(rows, last, limit);
      page[|page| - 1].n > last && |Newer(rows, page[|page| - 1].n)| < |Newer(rows, last)|
  {
    var page := Page(rows, last, limit);
    NewerAbove(rows, last);
    NewerStored(rows, last, |page| - 1);
    NewerShrinks(rows, last, page[|page| - 1].n);
  }

  // --------------------------------------------------------- completeness

  lemma {:induction false} NewerAppend(rows: seq<Row>, more: seq<Row>, after: int)
    ensures Newer(rows + more, after) == Newer(rows, after) + Newer(more, after)
  {
    if rows == [] {
      assert rows + more == more;
    } else {
      NewerAppend(rows[1..], more, after);
      assert (rows + more)[1..] == rows[1..] + more;
      var front := if rows[0].n > after then [rows[0]] else [];
      assert front + (Newer(rows[1..], after) + Newer(more, after)) == front + Newer(rows[1..], after) + Newer(more, after);
    }
  }

  lemma {:induction false} NewerAll(rows: seq<Row>, after: int)
    requires forall i :: 0 <= i < |rows| ==> rows[i].n > after
    ensures Newer(rows, after) == rows
  {
    if rows != [] {
      NewerAll(rows[1..], after);
    }
  }

  /** In an increasing table the newer rows are its end. */
  lemma {:induction false} NewerIsSuffix(rows: seq<Row>, after: int)
    requires Increasing(rows)
    ensures |Newer(rows, after)| <= |rows| && Newer(rows, after) == rows[|rows| - |Newer(rows, after)|..]
  {
    if rows != [] {
      NewerIsSuffix(rows[1..], after);
      if rows[0].n > after {
        NewerAll(rows, after);
      }
    }
  }

  /** Asking again after the k-th newer row continues where the page ended. */
  lemma NewerContinues(rows: seq<Row>, after: int, k: nat)
    requires Increasing(rows) && 0 < k <= |Newer(rows, after)|
    ensures var all := Newer(rows, after); Newer(rows, all[k - 1].n) == all[k..]
  {
    NewerIsSuffix(rows, after);
    var all := Newer(rows, after);
    var d := |rows| - |all| + k;
    assert rows[d - 1] == all[k - 1];
    assert rows == rows[..d] + rows[d..];
    NewerAppend(rows[..d], rows[d..], all[k - 1].n);
    NewerNone(rows[..d], all[k - 1].n);
    NewerAll(rows[d..], all[k - 1].n);
  }

  lemma {:induction false} NewerNone(rows: seq<Row>, after: int)
    requires forall i :: 0 <= i < |rows| ==> rows[i].n <= after
    ensures Newer(rows, after) == []
  {
    if rows != [] {
      NewerNone(rows[1..], after);
    }
  }

  /** Rows added by whole sends come after all earlier ones. */
  predicate Grows(rows: seq<Row>, script: seq<seq<Row>>)
    decreases |script|
  {
    Increasing(rows) && (script == [] || Grows(rows + script[0], script[1..]))
  }

  lemma {:induction false} LastPageGrows(rows: seq<Row>, last: int, limit: int, script: seq<seq<Row>>)
    requires limit >= 1 && Grows(rows, script)
    ensures var end := AtLastPage(rows, last, limit, script); rows <= end && Increasing(end)
    decreases |script|, |Newer(rows, last)|
  {
    var page := Page(rows, last, limit);
    if |page| >= limit {
      LastIsNewer(rows, last, limit);
      var next := page[|page| - 1].n;
      if script == [] {
        LastPageGrows(rows, next, limit, []);
      } else {
        LastPageGrows(rows + script[0], next, limit, script[1..]);
      }
    }
  }

  /** A full page stays the beginning of what is newer, whatever is added later. */
  lemma PageThenRest(rows: seq<Row>, end: seq<Row>, start: int, limit: int)
    requires limit >= 1 && |Page(rows, start, limit)| >= limit && rows <= end && Increasing(end)
    ensures var page := Page(rows, start, limit); page + Newer(end, page[|page| - 1].n) == Newer(end, start)
  {
    var page := Page(rows, start, limit);
    var all := Newer(end, start);
    assert end == rows + end[|rows|..];
    NewerAppend(rows, end[|rows|..], start);
    assert page == all[..limit];
    NewerContinues(end, start, limit);
  }

  /** Catch-up is complete: the pages together are exactly the stored rows above the
      start, in order and each once, as they are when the last page is read. */
  lemma {:induction false} CatchUpIsComplete(rows: seq<Row>, start: int, limit: int, script: seq<seq<Row>>)
    requires limit >= 1 && Grows(rows, script)
    ensures Fetch(rows, start, limit, script) == Newer(AtLastPage(rows, start, limit, script), start)
    decreases |script|, |Newer(rows, start)|
  {
    hide Newer;
    var page := Page(rows, start, limit);
    if |page| >= limit {
      LastIsNewer(rows, start, limit);
      var next := page[|page| - 1].n;
      LastPageGrows(rows, start, limit, script);
      PageThenRest(rows, AtLastPage(rows, start, limit, script), start, limit);
      if script == [] {
        LastPageGrows(rows, next, limit, []);
        CatchUpIsComplete(rows, next, limit, []);
      } else {
        CatchUpIsComplete(rows + script[0], next, limit, script[1..]);
      }
    }
  }

  /** Without sends in between the pages hold exactly the rows above the start. */
  lemma QuietCatchUp(rows: seq<Row>, start: int, limit: int)
    requires limit >= 1 && Increasing(rows)
    ensures Fetch(rows, start, limit, []) == Newer(rows, start)
  {
    CatchUpIsComplete(rows, start, limit, []);
    QuietEnd(rows, start, limit);
  }

  /** The first `m` rows, or all. */
  function Upto(all: seq<Row>, m: nat): seq<Row> {
    if m <= |all| then all[..m] else all
  }

  lemma PageAndUpto(page: seq<Row>, rest: seq<Row>, m: nat)
    requires m >= |page|
    ensures page + Upto(rest, m - |page|) == Upto(page + rest, m)
  {
  }

  /** A SELECT that fails ends the catch-up after exactly the pages before it. */
  lemma {:induction false} CutPages(rows: seq<Row>, start: int, limit: int, script: seq<seq<Row>>, cut: nat)
    requires limit >= 1
    ensures cut * limit >= 0
    ensures FetchCut(rows, start, limit, script, cut) == Upto(Fetch(rows, start, limit, script), cut * limit)
    decreases cut
  {
    hide Newer, Upto;
    var page := Page(rows, start, limit);
    Product(cut, limit);
    if cut == 0 {
      NothingUpto(Fetch(rows, start, limit, script));
    } else if |page| >= limit {
      LastIsNewer(rows, start, limit);
      var next := page[|page| - 1].n;
      var later, tail := if script == [] then rows else rows + script[0], if script == [] then [] else script[1..];
      CutPages(later, next, limit, tail, cut - 1);
      PageAndUpto(page, Fetch(later, next, limit, tail), cut * limit);
    } else {
      ShortUpto(page, cut * limit);
    }
  }

  lemma NothingUpto(all: seq<Row>)
    ensures Upto(all, 0) == []
  {
  }

  lemma ShortUpto(all: seq<Row>, m: nat)
    requires |all| <= m
    ensures Upto(all, m) == all
  {
  }

  lemma Product(cut: nat, limit: int)
    requires limit >= 1
    ensures cut * limit >= 0 && (cut > 0 ==> cut * limit == limit + (cut - 1) * limit && cut * limit >= limit)
  {
    if cut > 0 {
      assert cut * limit == (1 + (cut - 1)) * limit;
    }
  }

  /** The client, who is told that nothing more is there, has everything if and only
      if the pages before the failing one held it all. */
  lemma CutIsCompleteIff(rows: seq<Row>, start: int, limit: int, script: seq<seq<Row>>, cut: nat)
    requires limit >= 1
    ensures FetchCut(rows, start, limit, script, cut) == Fetch(rows, start, limit, script) <==>
      |Fetch(rows, start, limit, script)| <= cut * limit
  {
    CutPages(rows, start, limit, script, cut);
    Product(cut, limit);
    hide Fetch, FetchCut;
  }

  lemma {:induction false} QuietEnd(rows: seq<Row>, last: int, limit: int)
    requires limit >= 1
    ensures AtLastPage(rows, last, limit, []) == rows
    decreases |Newer(rows, last)|
  {
    var page := Page(rows, last, limit);
    if |page| >= limit {
      LastIsNewer(rows, last, limit);
      QuietEnd(rows, page[|page| - 1].n, limit);
    }
  }

  /** Without sends in between that is known before the first page: it is complete if
      and only if the newer rows fit into the pages before the failing one. */
  lemma CutQuietIff(rows: seq<Row>, start: int, limit: int, cut: nat)
    requires limit >= 1 && Increasing(rows)
    ensures FetchCut(rows, start, limit, [], cut) == Newer(rows, start) <==> |Newer(rows, start)| <= cut * limit
  {
    hide Newer, Fetch, FetchCut;
    QuietCatchUp(rows, start, limit);
    CutIsCompleteIff(rows, start, limit, [], cut);
  }

  // ---------------------------------------------------- sends in between

  datatype Attempt = Attempt(content: string, outcome: Outcome)

  function Numbered(maxSeq: int, o: Outcome): int {
    if o.begun && o.updated && o.found && o.committed then maxSeq + 1 else maxSeq
  }

  /** The row a whole send adds, if it does. */
  function Added(maxSeq: int, a: Attempt): seq<Row> {
    var n := Numbered(maxSeq, a.outcome);
    if n > maxSeq && a.outcome.inserted then [Row(n, a.content)] else []
  }

  /** The rows added by one round of sends, and the counter after it. */
  function Round(maxSeq: int, attempts: seq<Attempt>): (seq<Row>, int)
    decreases |attempts|
  {
    if attempts == [] then ([], maxSeq)
    else
      var rest := Round(Numbered(maxSeq, attempts[0].outcome), attempts[1..]);
      (Added(maxSeq, attempts[0]) + rest.0, rest.1)
  }

  function Script(maxSeq: int, rounds: seq<seq<Attempt>>): seq<seq<Row>>
    decreases |rounds|
  {
    if rounds == [] then []
    else
      var first := Round(maxSeq, rounds[0]);
      [first.0] + Script(first.1, rounds[1..])
  }

  predicate Below(rows: seq<Row>, maxSeq: int) {
    forall i :: 0 <= i < |rows| ==> rows[i].n <= maxSeq
  }

  lemma {:induction false} RoundKeepsOrder(rows: seq<Row>, maxSeq: int, attempts: seq<Attempt>)
    requires Increasing(rows) && Below(rows, maxSeq)
    ensures var r := Round(maxSeq, attempts); Increasing(rows + r.0) && Below(rows + r.0, r.1)
    decreases |attempts|
  {
    if attempts == [] {
      assert rows + [] == rows;
    } else {
      var added := Added(maxSeq, attempts[0]);
      var next := Numbered(maxSeq, attempts[0].outcome);
      var rest := Round(next, attempts[1..]);
      RoundKeepsOrder(rows + added, next, attempts[1..]);
      assert rows + added + rest.0 == rows + (added + rest.0);
    }
  }

  lemma {:induction false} ScriptGrows(rows: seq<Row>, maxSeq: int, rounds: seq<seq<Attempt>>)
    requires Increasing(rows) && Below(rows, maxSeq)
    ensures Grows(rows, Script(maxSeq, rounds))
    decreases |rounds|
  {
    if rounds != [] {
      var first := Round(maxSeq, rounds[0]);
      RoundKeepsOrder(rows, maxSeq, rounds[0]);
      ScriptGrows(rows + first.0, first.1, rounds[1..]);
      assert Script(maxSeq, rounds)[1..] == Script(first.1, rounds[1..]);
    }
  }

  /** So for any rounds of sends, failing wherever they may, catching up yields
      every stored row above the start exactly once, in order. */
  lemma CatchUpAlongSends(rows: seq<Row>, maxSeq: int, start: int, limit: int, rounds: seq<seq<Attempt>>)
    requires limit >= 1 && Increasing(rows) && Below(rows, maxSeq)
    ensures var script := Script(maxSeq, rounds);
      Fetch(rows, start, limit, script) == Newer(AtLastPage(rows, start, limit, script), start)
  {
    ScriptGrows(rows, maxSeq, rounds);
    CatchUpIsComplete(rows, start, limit, Script(maxSeq, rounds));
  }

  // ------------------------------------------- sends interleaved inside each other

  /** What the client collects when page k is read from `tables[k]`. Sends that run
      inside each other may store a lower number later, so a table need not begin
      with the one before. The client is served no further when `tables` ends. */
  function FetchFrom(tables: seq<seq<Row>>, last: int, limit: int): seq<Row>
    requires limit >= 1
    decreases |tables|
  {
    if tables == [] then []
    else
      var page := Page(tables[0], last, limit);
      if |page| < limit then page else page + FetchFrom(tables[1..], page[|page| - 1].n, limit)
  }

  predicate AllIncreasing(tables: seq<seq<Row>>) {
    forall k :: 0 <= k < |tables| ==> Increasing(tables[k])
  }

  /** The number up to which a page reads, None for a last page, which reads to the
      end. */
  function PageEnd(rows: seq<Row>, last: int, limit: int): (end: Option<int>)
    requires limit >= 1
  {
    var page := Page(rows, last, limit);
    if |page| < limit then None else Some(page[|page| - 1].n)
  }

  /** A full page reads past the row's number while the row is not stored: its send
      still holds the number. */
  predicate StoredBehind(tables: seq<seq<Row>>, last: int, limit: int, r: Row)
    requires limit >= 1
    decreases |tables|
  {
    && tables != []
    && PageEnd(tables[0], last, limit).Some?
    && var end := PageEnd(tables[0], last, limit).value;
       if r.n <= end then r !in tables[0] else StoredBehind(tables[1..], end, limit, r)
  }

  /** The client is told that there are no more pages. */
  predicate Ends(tables: seq<seq<Row>>, last: int, limit: int)
    requires limit >= 1
    decreases |tables|
  {
    && tables != []
    && var end := PageEnd(tables[0], last, limit); end.None? || Ends(tables[1..], end.value, limit)
  }

  /** The table the last page is read from. */
  function LastTable(tables: seq<seq<Row>>, last: int, limit: int): seq<Row>
    requires limit >= 1 && Ends(tables, last, limit)
    decreases |tables|
  {
    var end := PageEnd(tables[0], last, limit);
    if end.None? then tables[0] else LastTable(tables[1..], end.value, limit)
  }

  lemma {:induction false} NewerHas(rows: seq<Row>, after: int, r: Row)
    ensures r in Newer(rows, after) <==> r in rows && r.n > after
  {
    if rows != [] {
      NewerHas(rows[1..], after, r);
      assert rows == [rows[0]] + rows[1..];
    }
  }

  lemma NewerIncreasing(rows: seq<Row>, after: int)
    requires Increasing(rows)
    ensures Increasing(Newer(rows, after))
  {
    NewerIsSuffix(rows, after);
    hide Newer;
    var d := |rows| - |Newer(rows, after)|;
    assert forall i :: 0 <= i < |Newer(rows, after)| ==> Newer(rows, after)[i] == rows[d + i];
  }

  /** The first `k` of increasing rows are those up to the k-th number. */
  lemma FirstOf(all: seq<Row>, k: nat, r: Row)
    requires Increasing(all) && 0 < k <= |all|
    ensures r in all[..k] <==> r in all && r.n <= all[k - 1].n
  {
    if r in all {
      var i :| 0 <= i < |all| && all[i] == r;
      if r.n <= all[k - 1].n {
        assert i < k && all[..k][i] == r;
      }
    }
    if r in all[..k] {
      var i :| 0 <= i < k && all[..k][i] == r;
      assert all[i] == r;
    }
  }

  /** A page holds exactly the rows above its start, up to its end. */
  lemma PageHas(rows: seq<Row>, last: int, limit: int, r: Row)
    requires limit >= 1 && Increasing(rows)
    ensures var end := PageEnd(rows, last, limit);
      r in Page(rows, last, limit) <==> r in rows && r.n > last && (end.Some? ==> r.n <= end.value)
    ensures var end := PageEnd(rows, last, limit); end.Some? ==> end.value > last
  {
    hide Newer, Increasing;
    NewerHas(rows, last, r);
    NewerAbove(rows, last);
    NewerIncreasing(rows, last);
    var all := Newer(rows, last);
    if |all| >= limit {
      FirstOf(all, limit, r);
      assert Page(rows, last, limit) == all[..limit];
    }
  }

  lemma {:induction false} FetchedAbove(tables: seq<seq<Row>>, last: int, limit: int, r: Row)
    requires limit >= 1 && AllIncreasing(tables) && r in FetchFrom(tables, last, limit)
    ensures r.n > last
    decreases |tables|
  {
    hide Page, Increasing;
    PageHas(tables[0], last, limit, r);
    var page := Page(tables[0], last, limit);
    if r !in page {
      FetchedAbove(tables[1..], page[|page| - 1].n, limit, r);
    }
  }

  /** Exactly when a page loop misses a row that is stored when it ends: a page had
      read past its number before it was stored. */
  lemma {:induction false} MissedIff(tables: seq<seq<Row>>, start: int, limit: int, r: Row)
    requires limit >= 1 && AllIncreasing(tables) && Ends(tables, start, limit)
    requires r in LastTable(tables, start, limit) && r.n > start
    ensures r !in FetchFrom(tables, start, limit) <==> StoredBehind(tables, start, limit, r)
    decreases |tables|
  {
    hide Page, Increasing;
    PageHas(tables[0], start, limit, r);
    var page := Page(tables[0], start, limit);
    if |page| >= limit {
      var end := page[|page| - 1].n;
      if r.n > end {
        MissedIff(tables[1..], end, limit, r);
      } else if r in FetchFrom(tables[1..], end, limit) {
        FetchedAbove(tables[1..], end, limit, r);
      }
    }
  }

  // -------------------------------------------------------------- the limit

  /** A request within the maximum gets what it asks for, a larger one the maximum, and
      one that asks for nothing what it would get by asking for the default. */
  lemma LimitIs(requested: int, byDefault: int, atMost: int)
    ensures 1 <= requested <= atMost ==> Limit(requested, byDefault, atMost) == requested
    ensures requested >= 1 && requested > atMost ==> Limit(requested, byDefault, atMost) == atMost
    ensures requested <= 0 && byDefault <= atMost ==> Limit(requested, byDefault, atMost) == byDefault
    ensures requested <= 0 && byDefault > atMost ==> Limit(requested, byDefault, atMost) == atMost
  {
  }
}
