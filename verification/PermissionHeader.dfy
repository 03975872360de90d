/** The permission list travels from AuthMiddleware to the handlers as one
    comma-joined header (server/admin/admin_server.cpp,
    server/admin/http_helper.h). */
module PermissionHeader {

  // ----------------------------------------------------------- joining

  function Joined(ps: seq<string>): string {
    if ps == [] then ""
    else if |ps| == 1 then ps[0]
    else Joined(ps[..|ps| - 1]) + "," + ps[|ps| - 1]
  }

  method Join(ps: seq<string>) returns (h: string)
    ensures h == Joined(ps)
  {
    h := "";
    for i := 0 to |ps|
      invariant h == Joined(ps[..i])
    {
      assert ps[..i + 1][..i] == ps[..i];
      if i > 0 {
        h := h + [','];
      }
      h := h + ps[i];
    }
    assert ps[..|ps|] == ps;
  }

  // ---------------------------------------------------------- splitting

  predicate CommaFree(s: string) {
    ',' !in s
  }

  /** The first comma, or the end. */
  function Comma(s: string): (i: nat)
    ensures i <= |s| && CommaFree(s[..i]) && (i < |s| ==> s[i] == ',')
  {
    if s == "" then 0
    else if s[0] == ',' then 0
    else
      assert s[..1 + Comma(s[1..])] == [s[0]] + s[1..][..Comma(s[1..])];
      1 + Comma(s[1..])
  }

  /** The pieces HasPermission looks at: an empty piece after a last comma is not
      one of them. */
  function Pieces(h: string): (ps: seq<string>)
    ensures forall p :: p in ps ==> CommaFree(p)
    ensures h != "" ==> ps != []
  {
    if h == "" then []
    else
      var end := Comma(h);
      [h[..end]] + if end < |h| then Pieces(h[end + 1..]) else []
  }

  /** `find(',', start)`. */
  method FindComma(h: string, start: nat) returns (end: nat)
    requires start <= |h|
    ensures end == start + Comma(h[start..])
  {
    end := start;
    while end < |h| && h[end] != ','
      invariant start <= end <= |h|
      invariant start + Comma(h[start..]) == end + Comma(h[end..])
    {
      assert h[end..][1..] == h[end + 1..];
      end := end + 1;
    }
  }

  lemma NextPiece(h: string, start: nat, end: nat)
    requires start < |h| && end == start + Comma(h[start..])
    ensures Pieces(h[start..]) == [h[start..end]] + if end < |h| then Pieces(h[end + 1..]) else []
  {
    assert h[start..][..end - start] == h[start..end];
    assert end < |h| ==> h[start..][end - start + 1..] == h[end + 1..];
  }

  lemma NoPieces()
    ensures Pieces("") == []
  {
  }

  method HasPermission(h: string, perm: string) returns (ok: bool)
    ensures ok <==> perm in Pieces(h)
  {
    hide Pieces, Comma;
    var start := 0;
    assert h[0..] == h;
    while start < |h|
      invariant 0 <= start
      invariant perm in Pieces(h) <==> start <= |h| && perm in Pieces(h[start..])
      decreases |h| - start
    {
      var end := FindComma(h, start);
      NextPiece(h, start, end);
      if h[start..end] == perm {
        return true;
      }
      start := end + 1;
    }
    NoPieces();
    return false;
  }

  // -------------------------------------------------------- round trips

  lemma {:induction false} JoinedFront(p: string, ps: seq<string>)
    requires ps != []
    ensures Joined([p] + ps) == p + "," + Joined(ps)
  {
    var n := |ps| - 1;
    assert ([p] + ps)[..|ps|] == [p] + ps[..n];
    if n == 0 {
      assert [p] + ps[..0] == [p];
      assert Joined([p]) == p;
    } else {
      JoinedFront(p, ps[..n]);
      assert p + "," + Joined(ps[..n]) + "," + ps[n] == p + "," + (Joined(ps[..n]) + "," + ps[n]);
    }
  }

  lemma {:induction false} CommaAfter(p: string, rest: string)
    requires CommaFree(p) && (rest == "" || rest[0] == ',')
    ensures Comma(p + rest) == |p|
  {
    if p != "" {
      CommaAfter(p[1..], rest);
      assert (p + rest)[1..] == p[1..] + rest;
    } else {
      assert p + rest == rest;
    }
  }

  lemma SplitCons(p: string, rest: string)
    requires CommaFree(p)
    ensures Pieces(p + "," + rest) == [p] + Pieces(rest)
  {
    var tail := "," + rest;
    assert p + "," + rest == p + tail;
    CommaAfter(p, tail);
    assert (p + tail)[..|p|] == p && (p + tail)[|p| + 1..] == rest;
    assert rest == "" ==> Pieces(rest) == [];
  }

  lemma SplitOne(p: string)
    requires CommaFree(p)
    ensures Pieces(p) == if p == "" then [] else [p]
  {
    CommaAfter(p, "");
    assert p + "" == p;
    assert p[..|p|] == p;
  }

  /** Splitting undoes joining exactly when the last code is not empty. */
  lemma {:induction false} SplitJoin(ps: seq<string>)
    requires forall p :: p in ps ==> CommaFree(p)
    ensures Pieces(Joined(ps)) == if ps != [] && ps[|ps| - 1] == "" then ps[..|ps| - 1] else ps
    decreases |ps|
  {
    hide Pieces, CommaFree;
    if ps == [] {
      NoPieces();
    } else if |ps| == 1 {
      SplitOne(ps[0]);
      assert ps == [ps[0]];
    } else {
      var rest := ps[1..];
      SplitJoin(rest);
      assert ps == [ps[0]] + rest;
      JoinedFront(ps[0], rest);
      SplitCons(ps[0], Joined(rest));
      assert rest[|rest| - 1] == ps[|ps| - 1];
      assert [ps[0]] + rest[..|rest| - 1] == ps[..|ps| - 1];
    }
  }

  lemma EmptyHeader()
    ensures Pieces("") == [] && Joined([]) == ""
  {
  }

  lemma JoinedOne(p: string)
    ensures Joined([p]) == p
  {
  }

  lemma FirstPiece(h: string)
    requires h != ""
    ensures var end := Comma(h);
      Pieces(h) == [h[..end]] + if end < |h| then Pieces(h[end + 1..]) else []
  {
    hide Comma;
  }

  /** Joining undoes splitting exactly when the header does not end in a comma. */
  lemma {:induction false} JoinSplit(h: string)
    ensures Joined(Pieces(h)) == h <==> h == "" || h[|h| - 1] != ','
    ensures h != "" && h[|h| - 1] == ',' ==> Joined(Pieces(h)) == h[..|h| - 1]
    decreases |h|
  {
    hide Comma, Pieces, Joined;
    if h == "" {
      EmptyHeader();
    } else {
      var end := Comma(h);
      FirstPiece(h);
      if end == |h| {
        assert h[..end] == h;
        assert Pieces(h) == [h];
        JoinedOne(h);
        assert h[|h| - 1] in h[..end];
      } else {
        var rest := h[end + 1..];
        JoinSplit(rest);
        assert h == h[..end] + "," + rest;
        if rest == "" {
          EmptyHeader();
          assert Pieces(h) == [h[..end]];
          JoinedOne(h[..end]);
          assert h[|h| - 1] == ',';
        } else {
          JoinedFront(h[..end], Pieces(rest));
          assert h[|h| - 1] == rest[|rest| - 1];
          if rest[|rest| - 1] == ',' {
            assert h[..|h| - 1] == h[..end] + "," + rest[..|rest| - 1];
          }
        }
      }
    }
  }

  /** For codes as they are stored, non-empty and without commas, a code is found
      in the header exactly when it is in the list. */
  lemma HasPermissionIff(ps: seq<string>, perm: string)
    requires forall p :: p in ps ==> p != "" && CommaFree(p)
    ensures perm in Pieces(Joined(ps)) <==> perm in ps
  {
    SplitJoin(ps);
  }

  /** A code with a comma is never found, also when it is in the list. */
  lemma CommaCodeLost(ps: seq<string>, perm: string)
    requires !CommaFree(perm)
    ensures perm !in Pieces(Joined(ps))
  {
  }
}
