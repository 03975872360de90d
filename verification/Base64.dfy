/** The vendored base64 of thirdparty/l8w8jwt/src/base64.c: the standard alphabet
    with padding and 72-column lines, and the URL alphabet without either (sections
    4 and 5 of RFC 4648). Shifts and masks of bytes are written as arithmetic. */
module Base64 {
  import opened Wrappers

  type Byte = x: int | 0 <= x < 256

  /** A size_t; sizes wrap around at this bound. */
  const SIZE_BOUND := 0x1_0000_0000_0000_0000

  const NEWLINE: Byte := 10
  const EQUALS: Byte := 61
  const COLUMNS := 72

  /** What a byte outside the alphabet is looked up as. */
  const NONE := 0x80

  // ------------------------------------------------------------- alphabets

  function Symbol(url: bool, v: int): Byte
    requires 0 <= v < 64
  {
    if v < 26 then 65 + v
    else if v < 52 then 97 + (v - 26)
    else if v < 62 then 48 + (v - 52)
    else if v == 62 then (if url then 45 else 43)
    else (if url then 95 else 47)
  }

  /** The decoding table: the padding sign counts as zero. */
  function ValueOf(url: bool, c: Byte): (v: int)
    ensures v == NONE || 0 <= v < 64
  {
    if 65 <= c < 91 then c - 65
    else if 97 <= c < 123 then c - 97 + 26
    else if 48 <= c < 58 then c - 48 + 52
    else if c == (if url then 45 else 43) then 62
    else if c == (if url then 95 else 47) then 63
    else if c == EQUALS then 0
    else NONE
  }

  lemma SymbolValue(url: bool, v: int)
    requires 0 <= v < 64
    ensures ValueOf(url, Symbol(url, v)) == v && Symbol(url, v) != EQUALS && Symbol(url, v) != 0
  {
  }

  /** Every symbol but the padding sign belongs to one value. */
  lemma ValueSymbol(url: bool, c: Byte)
    requires ValueOf(url, c) != NONE && c != EQUALS
    ensures Symbol(url, ValueOf(url, c)) == c
  {
  }

  // -------------------------------------------------------------- encoding

  function Quad(url: bool, a: Byte, b: Byte, c: Byte): (q: seq<Byte>)
    ensures |q| == 4
  {
    [Symbol(url, a / 4), Symbol(url, a % 4 * 16 + b / 16), Symbol(url, b % 16 * 4 + c / 64), Symbol(url, c % 64)]
  }

  /** The last one or two bytes, with padding signs outside URL mode. */
  function Tail(url: bool, data: seq<Byte>): seq<Byte>
    requires 1 <= |data| <= 2
  {
    if |data| == 1 then
      [Symbol(url, data[0] / 4), Symbol(url, data[0] % 4 * 16)] + if url then [] else [EQUALS, EQUALS]
    else
      [Symbol(url, data[0] / 4), Symbol(url, data[0] % 4 * 16 + data[1] / 16), Symbol(url, data[1] % 16 * 4)]
      + if url then [] else [EQUALS]
  }

  /** The text for `data` when the current line already holds `line` columns. */
  function Encoded(url: bool, data: seq<Byte>, line: nat): seq<Byte> {
    if |data| >= 3 then
      Quad(url, data[0], data[1], data[2])
      + if line + 4 >= COLUMNS && !url then [NEWLINE] + Encoded(url, data[3..], 0)
        else Encoded(url, data[3..], line + 4)
    else if |data| == 0 then if line > 0 && !url then [NEWLINE] else []
    else Tail(url, data) + if url then [] else [NEWLINE]
  }

  /** The buffer size, computed in size_t arithmetic. */
  function SizeFor(n: nat): nat {
    var a := (n * 4 % SIZE_BOUND / 3 + 4) % SIZE_BOUND;
    ((a + a / 72) % SIZE_BOUND + 1) % SIZE_BOUND
  }

  lemma SmallMod(n: nat)
    requires n < SIZE_BOUND
    ensures n % SIZE_BOUND == n
  {
  }

  lemma SizeExact(n: nat)
    requires n < 0x4000_0000_0000_0000
    ensures SizeFor(n) == (n * 4 / 3 + 4) + (n * 4 / 3 + 4) / 72 + 1
    ensures SizeFor(n) >= n
  {
    SmallMod(n * 4);
    var a := n * 4 / 3 + 4;
    assert n <= a < 0x6000_0000_0000_0000;
    SmallMod(a);
    SmallMod(a + a / 72);
    SmallMod(a + a / 72 + 1);
  }

  lemma SizeWraps(n: nat, k: nat)
    requires 1 <= k <= 3 && 0x4000_0000_0000_0000 * k <= n < 0x4000_0000_0000_0000 * (k + 1)
    ensures SizeFor(n) < n
  {
    var m := n - 0x4000_0000_0000_0000 * k;
    assert n * 4 == m * 4 + SIZE_BOUND * k;
    assert n * 4 % SIZE_BOUND == m * 4;
    var a := m * 4 / 3 + 4;
    assert 3 * a <= m * 4 + 12 && 72 * (a / 72) <= a;
    SmallMod(a);
    SmallMod(a + a / 72);
    SmallMod(a + a / 72 + 1);
  }

  /** The overflow test refuses exactly the lengths whose fourfold wraps. */
  lemma OverflowIff(n: nat)
    requires n < SIZE_BOUND
    ensures SizeFor(n) < n <==> n >= 0x4000_0000_0000_0000
  {
    if n < 0x4000_0000_0000_0000 {
      SizeExact(n);
    } else if n < 0x8000_0000_0000_0000 {
      SizeWraps(n, 1);
    } else if n < 0xC000_0000_0000_0000 {
      SizeWraps(n, 2);
    } else {
      SizeWraps(n, 3);
    }
  }

  function Columns(n: nat): nat {
    4 * ((n + 2) / 3)
  }

  /** Lines begun by so many columns. */
  function Lines(columns: nat): nat {
    columns / COLUMNS + if columns % COLUMNS > 0 then 1 else 0
  }

  /** Text length: bare symbols, or padded columns plus line ends. */
  function TextLength(url: bool, n: nat, line: nat): int {
    if url then Columns(n) - (if n % 3 == 0 then 0 else 3 - n % 3)
    else Columns(n) + Lines(line + Columns(n))
  }

  lemma TextLengthStep(url: bool, n: nat, line: nat)
    requires n >= 3 && (!url ==> line % 4 == 0 && line < COLUMNS)
    ensures TextLength(url, n, line) ==
      if line + 4 >= COLUMNS && !url then 5 + TextLength(url, n - 3, 0) else 4 + TextLength(url, n - 3, line + 4)
  {
    assert Columns(n) == 4 + Columns(n - 3) && n % 3 == (n - 3) % 3;
    if line + 4 == COLUMNS && !url {
      var rest := Columns(n - 3);
      assert (COLUMNS + rest) / COLUMNS == 1 + rest / COLUMNS && (COLUMNS + rest) % COLUMNS == rest % COLUMNS;
    }
  }

  lemma ShortLength(url: bool, data: seq<Byte>, line: nat)
    requires |data| < 3 && (!url ==> line % 4 == 0 && line < COLUMNS)
    ensures |Encoded(url, data, line)| == TextLength(url, |data|, line)
  {
  }

  lemma {:induction false} EncodedLength(url: bool, data: seq<Byte>, line: nat)
    requires !url ==> line % 4 == 0 && line < COLUMNS
    ensures |Encoded(url, data, line)| == TextLength(url, |data|, line)
    decreases |data|
  {
    hide Quad, Encoded, TextLength;
    if |data| < 3 {
      ShortLength(url, data, line);
    } else {
      assert data[0..] == data;
      GroupFirst(url, data, 0, line);
      TextLengthStep(url, |data|, line);
      EncodedLength(url, data[3..], if line + 4 >= COLUMNS && !url then 0 else line + 4);
    }
  }

  /** The buffer holds the text, the NUL bytes of URL mode and the final NUL. */
  lemma SizeEnough(url: bool, data: seq<Byte>)
    requires |data| < 0x4000_0000_0000_0000
    ensures |Encoded(url, data, 0)| + (if url && |data| % 3 > 0 then 3 - |data| % 3 else 0) + 1 <= SizeFor(|data|)
  {
    hide Encoded, SizeFor;
    EncodedLength(url, data, 0);
    SizeExact(|data|);
  }

  datatype Encoding = InvalidLength | Overflow | Text(buffer: array<Byte>, length: nat)

  method EmitQuad(out: array<Byte>, pos: nat, url: bool, a: Byte, b: Byte, c: Byte)
    requires pos + 4 <= out.Length
    modifies out
    ensures out[..pos + 4] == old(out[..pos]) + Quad(url, a, b, c)
  {
    out[pos] := Symbol(url, a / 4);
    out[pos + 1] := Symbol(url, a % 4 * 16 + b / 16);
    out[pos + 2] := Symbol(url, b % 16 * 4 + c / 64);
    out[pos + 3] := Symbol(url, c % 64);
  }

  /** The bytes after the last full group; `sub` counts the NUL bytes of URL mode,
      which are written but do not belong to the text. */
  method EmitTail(out: array<Byte>, start: nat, url: bool, data: seq<Byte>) returns (pos: nat, sub: nat)
    requires 1 <= |data| <= 2 && start + 4 <= out.Length
    modifies out
    ensures pos == start + 4 && sub == (if url then 3 - |data| else 0)
    ensures out[..pos - sub] == old(out[..start]) + Tail(url, data)
    ensures forall k :: pos - sub <= k < pos ==> out[k] == 0
  {
    pos, sub := start, 0;
    out[pos] := Symbol(url, data[0] / 4);
    if |data| == 1 {
      out[pos + 1] := Symbol(url, data[0] % 4 * 16);
      out[pos + 2] := if url then 0 else EQUALS;
      if url {
        sub := sub + 1;
      }
    } else {
      out[pos + 1] := Symbol(url, data[0] % 4 * 16 + data[1] / 16);
      out[pos + 2] := Symbol(url, data[1] % 16 * 4);
    }
    out[pos + 3] := if url then 0 else EQUALS;
    if url {
      sub := sub + 1;
    }
    pos := pos + 4;
  }

  /** The loop over full groups: `i` bytes are done, the line holds `line`. */
  method EmitGroups(out: array<Byte>, url: bool, data: seq<Byte>) returns (pos: nat, i: nat, line: nat)
    requires |Encoded(url, data, 0)| < out.Length
    modifies out
    ensures i <= |data| < i + 3
    ensures pos <= out.Length && out[..pos] + Encoded(url, data[i..], line) == Encoded(url, data, 0)
    ensures i % 3 == 0
  {
    hide Quad, Encoded, Symbol;
    pos, i, line := 0, 0, 0;
    assert data[0..] == data;
    while |data| - i >= 3
      invariant 0 <= i <= |data| && 0 <= pos <= out.Length && i % 3 == 0
      invariant out[..pos] + Encoded(url, data[i..], line) == Encoded(url, data, 0)
      decreases |data| - i
    {
      ghost var before := out[..pos];
      GroupFirst(url, data, i, line);
      assert |before| + |Encoded(url, data[i..], line)| == |Encoded(url, data, 0)|;
      EmitQuad(out, pos, url, data[i], data[i + 1], data[i + 2]);
      ghost var quad := Quad(url, data[i], data[i + 1], data[i + 2]);
      pos := pos + 4;
      i := i + 3;
      line := line + 4;
      if line >= COLUMNS && !url {
        out[pos] := NEWLINE;
        pos := pos + 1;
        line := 0;
        assert out[..pos] == before + quad + [NEWLINE];
      }
    }
  }

  lemma GroupFirst(url: bool, data: seq<Byte>, i: nat, line: nat)
    requires i + 3 <= |data|
    ensures Encoded(url, data[i..], line) ==
      Quad(url, data[i], data[i + 1], data[i + 2])
      + if line + 4 >= COLUMNS && !url then [NEWLINE] + Encoded(url, data[i + 3..], 0)
        else Encoded(url, data[i + 3..], line + 4)
  {
    assert data[i..][3..] == data[i + 3..];
  }

  lemma LastGroup(url: bool, rest: seq<Byte>, line: nat)
    requires |rest| < 3
    ensures Encoded(url, rest, line) ==
      (if |rest| == 0 then [] else Tail(url, rest))
      + if !url && (|rest| > 0 || line > 0) then [NEWLINE] else []
    ensures |rest| > 0 ==> |Tail(url, rest)| == if url then |rest| + 1 else 4
  {
  }

  /** What follows the full groups: the last bytes, the line end and the NUL. */
  method EmitEnd(out: array<Byte>, start: nat, url: bool, rest: seq<Byte>, line: nat) returns (length: nat)
    requires |rest| < 3
    requires start + |Encoded(url, rest, line)| + (if url && |rest| > 0 then 3 - |rest| else 0) < out.Length
    modifies out
    ensures length < out.Length && out[..length] == old(out[..start]) + Encoded(url, rest, line) && out[length] == 0
  {
    hide *;
    LastGroup(url, rest, line);
    var pos, sub, columns := start, 0, line;
    if |rest| > 0 {
      pos, sub := EmitTail(out, pos, url, rest);
      columns := columns + 4;
    }
    if columns > 0 && !url {
      out[pos] := NEWLINE;
      pos := pos + 1;
    }
    out[pos] := 0;
    length := pos - sub;
  }

  /** The whole encoder; nothing is written outside the buffer. */
  method Encode(url: bool, data: seq<Byte>) returns (r: Encoding)
    requires |data| < SIZE_BOUND
    ensures r == InvalidLength <==> data == []
    ensures r == Overflow <==> |data| >= 0x4000_0000_0000_0000
    ensures r.Text? ==>
      && r.length < r.buffer.Length == SizeFor(|data|)
      && r.buffer[..r.length] == Encoded(url, data, 0)
      && r.buffer[r.length] == 0
  {
    hide *;
    if |data| == 0 {
      return InvalidLength;
    }
    var size := SizeFor(|data|);
    OverflowIff(|data|);
    if size < |data| {
      return Overflow;
    }
    SizeEnough(url, data);
    var out := new Byte[size](_ => 0);
    var pos, i, line := EmitGroups(out, url, data);
    ghost var before := out[..pos];
    assert |before| + |Encoded(url, data[i..], line)| == |Encoded(url, data, 0)|;
    var length := EmitEnd(out, pos, url, data[i..], line);
    return Text(out, length);
  }

  // -------------------------------------------------------------- decoding

  /** The bytes that count: letters of the alphabet and padding signs. */
  function Symbols(url: bool, text: seq<Byte>): (r: seq<Byte>)
    ensures |r| <= |text|
    ensures forall i :: 0 <= i < |r| ==> ValueOf(url, r[i]) != NONE
  {
    if text == [] then []
    else
      var n := |text| - 1;
      Symbols(url, text[..n]) + if ValueOf(url, text[n]) == NONE then [] else [text[n]]
  }

  /** How many padding signs are supplied; None refuses the text. */
  function Missing(url: bool, count: nat): Option<nat> {
    var r := count % 4;
    if count == 0 || r == 1 || (!url && r > 0) then None
    else Some(if r == 3 then 1 else r)
  }

  function Pad(n: nat): (r: seq<Byte>)
    ensures |r| == n && forall i :: 0 <= i < n ==> r[i] == EQUALS
  {
    seq(n, _ => EQUALS)
  }

  function PadCount(q: seq<Byte>): (n: nat)
    ensures n <= |q|
  {
    if q == [] then 0 else PadCount(q[..|q| - 1]) + if q[|q| - 1] == EQUALS then 1 else 0
  }

  /** Three bytes from four symbol values, kept to eight bits. */
  function Triple(url: bool, q: seq<Byte>): (r: seq<Byte>)
    requires |q| == 4 && forall i :: 0 <= i < 4 ==> ValueOf(url, q[i]) != NONE
    ensures |r| == 3
  {
    var a, b, c, d := ValueOf(url, q[0]), ValueOf(url, q[1]), ValueOf(url, q[2]), ValueOf(url, q[3]);
    [a * 4 + b / 16, b % 16 * 16 + c / 4, c % 4 * 64 + d]
  }

  /** Groups of four until one carries padding. */
  function Groups(url: bool, syms: seq<Byte>): (r: Option<seq<Byte>>)
    requires forall i :: 0 <= i < |syms| ==> ValueOf(url, syms[i]) != NONE
  {
    if |syms| < 4 then Some([])
    else
      var q := syms[..4];
      var pad := PadCount(q);
      if pad > 2 then None
      else if pad > 0 then Some(Triple(url, q)[..3 - pad])
      else
        match Groups(url, syms[4..])
        case None => None
        case Some(rest) => Some(Triple(url, q) + rest)
  }

  /** One trailing NUL is not part of the text. */
  function Trimmed(text: seq<Byte>): seq<Byte>
    requires text != []
  {
    if text[|text| - 1] == 0 then text[..|text| - 1] else text
  }

  function Decoded(url: bool, text: seq<Byte>): Option<seq<Byte>> {
    if text == [] then None
    else
      var syms := Symbols(url, Trimmed(text));
      match Missing(url, |syms|)
      case None => None
      case Some(m) => Groups(url, syms + Pad(m))
  }

  // ------------------------------------------------------------ round trip

  /** The symbols of an encoding, with the padding that URL mode leaves out. */
  function Padded(url: bool, data: seq<Byte>): seq<Byte> {
    if |data| >= 3 then Quad(url, data[0], data[1], data[2]) + Padded(url, data[3..])
    else if data == [] then []
    else Tail(url, data) + if url then Pad(3 - |data|) else []
  }

  lemma {:induction false} SymbolsConcat(url: bool, a: seq<Byte>, b: seq<Byte>)
    ensures Symbols(url, a + b) == Symbols(url, a) + Symbols(url, b)
  {
    hide Symbols, ValueOf;
    if b == [] {
      assert a + b == a;
      NoSymbols(url, b);
    } else {
      var n := |b| - 1;
      SymbolsConcat(url, a, b[..n]);
      assert (a + b)[..|a| + n] == a + b[..n];
      SymbolsLast(url, a + b);
      SymbolsLast(url, b);
    }
  }

  lemma SymbolsLast(url: bool, text: seq<Byte>)
    requires text != []
    ensures var n := |text| - 1;
      Symbols(url, text) == Symbols(url, text[..n]) + if ValueOf(url, text[n]) == NONE then [] else [text[n]]
  {
    hide ValueOf;
  }

  lemma {:induction false} AllSymbols(url: bool, s: seq<Byte>)
    requires forall i :: 0 <= i < |s| ==> ValueOf(url, s[i]) != NONE
    ensures Symbols(url, s) == s
  {
    if s != [] {
      AllSymbols(url, s[..|s| - 1]);
    }
  }

  lemma QuadSymbols(url: bool, a: Byte, b: Byte, c: Byte)
    ensures Symbols(url, Quad(url, a, b, c)) == Quad(url, a, b, c)
    ensures forall i :: 0 <= i < 4 ==>
      ValueOf(url, Quad(url, a, b, c)[i]) != NONE && Quad(url, a, b, c)[i] != EQUALS && Quad(url, a, b, c)[i] != 0
  {
    AllSymbols(url, Quad(url, a, b, c));
  }

  lemma TailSymbols(url: bool, data: seq<Byte>)
    requires 1 <= |data| <= 2
    ensures Symbols(url, Tail(url, data)) == Tail(url, data)
    ensures forall i :: 0 <= i < |Tail(url, data)| ==>
      ValueOf(url, Tail(url, data)[i]) != NONE && Tail(url, data)[i] != 0
  {
    AllSymbols(url, Tail(url, data));
  }

  lemma NewlineSkipped(url: bool, s: seq<Byte>)
    ensures Symbols(url, [NEWLINE] + s) == Symbols(url, s) && Symbols(url, s + [NEWLINE]) == Symbols(url, s)
    ensures Symbols(url, [NEWLINE]) == []
  {
    assert Symbols(url, [NEWLINE]) == [] by { assert [NEWLINE][..0] == []; }
    SymbolsConcat(url, [NEWLINE], s);
    SymbolsConcat(url, s, [NEWLINE]);
  }

  function Supplied(url: bool, n: nat): seq<Byte> {
    if url && n % 3 > 0 then Pad(3 - n % 3) else []
  }

  lemma ShortSymbols(url: bool, data: seq<Byte>, line: nat)
    requires |data| < 3
    ensures Symbols(url, Encoded(url, data, line)) + Supplied(url, |data|) == Padded(url, data)
  {
    hide Symbols, Tail;
    if |data| > 0 {
      TailSymbols(url, data);
      NewlineSkipped(url, Tail(url, data));
      assert Tail(url, data) + [] == Tail(url, data);
    } else {
      NewlineSkipped(url, []);
      AllSymbols(url, []);
    }
  }

  lemma PaddedFirst(url: bool, data: seq<Byte>)
    requires |data| >= 3
    ensures Padded(url, data) == Quad(url, data[0], data[1], data[2]) + Padded(url, data[3..])
    ensures Supplied(url, |data|) == Supplied(url, |data| - 3)
  {
    hide Quad, Tail, Pad, Symbol;
    ModThree(|data|);
  }

  lemma ModThree(n: nat)
    requires n >= 3
    ensures n % 3 == (n - 3) % 3
  {
  }

  /** Line ends are skipped; outside URL mode the symbols carry their padding. */
  lemma {:induction false} EncodedSymbols(url: bool, data: seq<Byte>, line: nat)
    ensures Symbols(url, Encoded(url, data, line)) + Supplied(url, |data|) == Padded(url, data)
    decreases |data|
  {
    hide Quad, Symbols, Tail, Encoded, Padded, Supplied;
    if |data| < 3 {
      ShortSymbols(url, data, line);
    } else {
      var q := Quad(url, data[0], data[1], data[2]);
      var wrap := line + 4 >= COLUMNS && !url;
      var rest := Encoded(url, data[3..], if wrap then 0 else line + 4);
      EncodedSymbols(url, data[3..], if wrap then 0 else line + 4);
      assert data[0..] == data;
      GroupFirst(url, data, 0, line);
      PaddedFirst(url, data);
      QuadSymbols(url, data[0], data[1], data[2]);
      SymbolsConcat(url, q, if wrap then [NEWLINE] + rest else rest);
      NewlineSkipped(url, rest);
      assert q + Symbols(url, rest) + Supplied(url, |data|) == q + (Symbols(url, rest) + Supplied(url, |data|));
    }
  }

  // bytes come back

  /** Six-bit pieces put together again. */
  lemma Pieces(a: Byte, b: Byte, c: Byte)
    ensures var v1, v2 := a % 4 * 16 + b / 16, b % 16 * 4 + c / 64;
      a / 4 * 4 + v1 / 16 == a && v1 % 16 * 16 + v2 / 4 == b && v2 % 4 * 64 + c % 64 == c
  {
    assert (a % 4 * 16 + b / 16) / 16 == a % 4;
    assert (a % 4 * 16 + b / 16) % 16 == b / 16;
    assert (b % 16 * 4 + c / 64) / 4 == b % 16;
    assert (b % 16 * 4 + c / 64) % 4 == c / 64;
  }

  lemma QuadTriple(url: bool, a: Byte, b: Byte, c: Byte)
    ensures forall i :: 0 <= i < 4 ==> ValueOf(url, Quad(url, a, b, c)[i]) != NONE
    ensures PadCount(Quad(url, a, b, c)) == 0
    ensures Triple(url, Quad(url, a, b, c)) == [a, b, c]
  {
    hide Symbol, ValueOf, PadCount;
    var q := Quad(url, a, b, c);
    QuadSymbols(url, a, b, c);
    NoPadding(q);
    SymbolValue(url, a / 4);
    SymbolValue(url, a % 4 * 16 + b / 16);
    SymbolValue(url, b % 16 * 4 + c / 64);
    SymbolValue(url, c % 64);
    Pieces(a, b, c);
  }

  lemma {:induction false} NoPadding(q: seq<Byte>)
    requires forall i :: 0 <= i < |q| ==> q[i] != EQUALS
    ensures PadCount(q) == 0
  {
    if q != [] {
      NoPadding(q[..|q| - 1]);
    }
  }

  lemma PadCountFour(q: seq<Byte>)
    requires |q| == 4
    ensures PadCount(q) ==
      (if q[0] == EQUALS then 1 else 0) + (if q[1] == EQUALS then 1 else 0)
      + (if q[2] == EQUALS then 1 else 0) + (if q[3] == EQUALS then 1 else 0)
  {
    assert q[..3][..2] == q[..2] && q[..2][..1] == q[..1] && q[..1][..0] == [];
    assert PadCount(q[..1]) == if q[0] == EQUALS then 1 else 0;
    assert PadCount(q[..2]) == PadCount(q[..1]) + if q[1] == EQUALS then 1 else 0;
    assert PadCount(q[..3]) == PadCount(q[..2]) + if q[2] == EQUALS then 1 else 0;
  }

  lemma PadSymbol(url: bool)
    ensures ValueOf(url, EQUALS) == 0
  {
  }

  lemma PaddedTail(url: bool, data: seq<Byte>)
    requires 1 <= |data| <= 2
    ensures Padded(url, data) ==
      if |data| == 1 then [Symbol(url, data[0] / 4), Symbol(url, data[0] % 4 * 16), EQUALS, EQUALS]
      else [Symbol(url, data[0] / 4), Symbol(url, data[0] % 4 * 16 + data[1] / 16), Symbol(url, data[1] % 16 * 4), EQUALS]
  {
    hide Symbol;
  }

  lemma TailGroup(url: bool, data: seq<Byte>)
    requires 1 <= |data| <= 2
    ensures var q := Padded(url, data);
      && |q| == 4
      && (forall i :: 0 <= i < 4 ==> ValueOf(url, q[i]) != NONE)
      && PadCount(q) == 3 - |data|
      && Triple(url, q)[..|data|] == data
  {
    hide Symbol, ValueOf, PadCount, Padded, Tail;
    var q := Padded(url, data);
    PaddedTail(url, data);
    PadSymbol(url);
    PadCountFour(q);
    SymbolValue(url, data[0] / 4);
    Pieces(data[0], if |data| == 2 then data[1] else 0, 0);
    if |data| == 1 {
      SymbolValue(url, data[0] % 4 * 16);
    } else {
      SymbolValue(url, data[0] % 4 * 16 + data[1] / 16);
      SymbolValue(url, data[1] % 16 * 4);
    }
  }

  lemma {:induction false} PaddedDecodes(url: bool, data: seq<Byte>)
    ensures var p := Padded(url, data);
      && (forall i :: 0 <= i < |p| ==> ValueOf(url, p[i]) != NONE)
      && Groups(url, p) == Some(data)
    decreases |data|
  {
    if |data| >= 3 {
      PaddedDecodes(url, data[3..]);
      hide Quad, Triple, PadCount, Groups, ValueOf, Padded;
      var q, rest := Quad(url, data[0], data[1], data[2]), Padded(url, data[3..]);
      PaddedFirst(url, data);
      QuadTriple(url, data[0], data[1], data[2]);
      assert (q + rest)[..4] == q && (q + rest)[4..] == rest;
      GroupsFirst(url, q + rest);
      assert [data[0], data[1], data[2]] + data[3..] == data;
    } else if |data| > 0 {
      hide Tail, Triple, PadCount;
      TailGroup(url, data);
      var p := Padded(url, data);
      assert p[..4] == p;
    }
  }

  lemma {:induction false} PaddedCount(url: bool, data: seq<Byte>)
    ensures |Padded(url, data)| == Columns(|data|)
    decreases |data|
  {
    hide Padded, Columns, Symbol;
    if |data| >= 3 {
      PaddedFirst(url, data);
      NextColumns(|data|);
      PaddedCount(url, data[3..]);
    } else {
      ShortPadded(url, data);
    }
  }

  lemma NextColumns(n: nat)
    requires n >= 3
    ensures Columns(n) == 4 + Columns(n - 3)
  {
  }

  lemma ShortPadded(url: bool, data: seq<Byte>)
    requires |data| < 3
    ensures |Padded(url, data)| == Columns(|data|)
  {
    hide Symbol;
  }

  lemma {:induction false} LastNotNul(url: bool, data: seq<Byte>, line: nat)
    requires data != []
    ensures var e := Encoded(url, data, line); e != [] && e[|e| - 1] != 0
    decreases |data|
  {
    if |data| > 3 {
      LastNotNul(url, data[3..], if line + 4 >= COLUMNS && !url then 0 else line + 4);
    } else if |data| == 3 {
      QuadSymbols(url, data[0], data[1], data[2]);
      assert data[3..] == [];
    } else {
      TailSymbols(url, data);
    }
  }

  /** Decoding an encoding gives the bytes back, with or without its NUL. */
  lemma RoundTrip(url: bool, data: seq<Byte>)
    requires data != []
    ensures Decoded(url, Encoded(url, data, 0)) == Some(data)
    ensures Decoded(url, Encoded(url, data, 0) + [0]) == Some(data)
  {
    hide Symbols, Encoded, Groups, Padded, Pad;
    var e := Encoded(url, data, 0);
    LastNotNul(url, data, 0);
    EncodedSymbols(url, data, 0);
    PaddedCount(url, data);
    PaddedDecodes(url, data);
    assert (e + [0])[..|e|] == e;
    var syms := Symbols(url, e);
    assert |syms| == Columns(|data|) - |Supplied(url, |data|)|;
    MissingIsSupplied(url, |data|);
  }

  /** The padding the decoder supplies is the one the encoder left out. */
  lemma MissingIsSupplied(url: bool, n: nat)
    requires n > 0
    ensures var m := Missing(url, Columns(n) - |Supplied(url, n)|);
      m.Some? && Pad(m.value) == Supplied(url, n)
  {
  }

  // ------------------------------------------------------------ the decoder

  /** The lookup table: 64 letters, then the padding sign as zero. */
  method BuildTable(url: bool) returns (table: array<int>)
    ensures fresh(table) && table.Length == 256
    ensures forall c: Byte :: table[c] == ValueOf(url, c)
  {
    table := new int[256](_ => NONE);
    for i := 0 to 64
      invariant forall c: Byte ::
        table[c] == if c != EQUALS && ValueOf(url, c) < i then ValueOf(url, c) else NONE
    {
      SymbolValue(url, i);
      forall c: Byte | c != EQUALS && ValueOf(url, c) == i ensures c == Symbol(url, i) {
        ValueSymbol(url, c);
      }
      table[Symbol(url, i)] := i;
    }
    table[EQUALS] := 0;
  }

  method CountSymbols(url: bool, table: array<int>, text: seq<Byte>) returns (count: nat)
    requires table.Length == 256 && forall c: Byte :: table[c] == ValueOf(url, c)
    ensures count == |Symbols(url, text)|
  {
    count := 0;
    for i := 0 to |text|
      invariant count == |Symbols(url, text[..i])|
    {
      assert text[..i + 1][..i] == text[..i];
      if table[text[i]] != NONE {
        count := count + 1;
      }
    }
    assert text[..|text|] == text;
  }

  function Prepend(front: seq<Byte>, rest: Option<seq<Byte>>): Option<seq<Byte>> {
    match rest
    case None => None
    case Some(r) => Some(front + r)
  }

  lemma PrependNothing(r: Option<seq<Byte>>)
    ensures Prepend([], r) == r
  {
    assert r.Some? ==> [] + r.value == r.value;
  }

  lemma NoSymbols(url: bool, all: seq<Byte>)
    ensures Symbols(url, all[|all|..]) == [] && PadCount([]) == 0
  {
  }

  lemma NoGroups(url: bool, done: seq<Byte>)
    ensures Prepend(done, Groups(url, [])) == Some(done)
  {
    assert done + [] == done;
  }

  lemma GroupsFirst(url: bool, syms: seq<Byte>)
    requires |syms| >= 4 && forall i :: 0 <= i < |syms| ==> ValueOf(url, syms[i]) != NONE
    ensures var q := syms[..4];
      Groups(url, syms) ==
        if PadCount(q) > 2 then None
        else if PadCount(q) > 0 then Some(Triple(url, q)[..3 - PadCount(q)])
        else Prepend(Triple(url, q), Groups(url, syms[4..]))
  {
  }

  lemma GroupsStep(url: bool, done: seq<Byte>, q: seq<Byte>, rest: seq<Byte>)
    requires |q| == 4
    requires forall i :: 0 <= i < |q| ==> ValueOf(url, q[i]) != NONE
    requires forall i :: 0 <= i < |rest| ==> ValueOf(url, rest[i]) != NONE
    ensures Prepend(done, Groups(url, q + rest)) ==
      if PadCount(q) > 2 then None
      else if PadCount(q) > 0 then Some(done + Triple(url, q)[..3 - PadCount(q)])
      else Prepend(done + Triple(url, q), Groups(url, rest))
  {
    hide PadCount, Triple, ValueOf, Groups;
    assert (q + rest)[..4] == q && (q + rest)[4..] == rest;
    GroupsFirst(url, q + rest);
    var g := Groups(url, rest);
    assert g.Some? ==> done + (Triple(url, q) + g.value) == done + Triple(url, q) + g.value;
  }

  /** Dropping the bits above the eighth. */
  lemma EightBits(b: int, c: int)
    requires 0 <= b < 64 && 0 <= c < 64
    ensures b * 16 % 256 == b % 16 * 16 && c * 64 % 256 == c % 4 * 64
  {
    assert b * 16 == b / 16 * 256 + b % 16 * 16;
    assert c * 64 == c / 4 * 256 + c % 4 * 64;
  }

  /** Three bytes from the block, in eight-bit arithmetic. */
  method EmitTriple(out: array<Byte>, pos: nat, url: bool, block: array<int>, ghost q: seq<Byte>)
    requires pos + 3 <= out.Length && block.Length == 4 && |q| == 4
    requires forall i :: 0 <= i < 4 ==> ValueOf(url, q[i]) != NONE && block[i] == ValueOf(url, q[i])
    modifies out
    ensures out[..pos + 3] == old(out[..pos]) + Triple(url, q)
  {
    hide ValueOf;
    EightBits(block[1], block[2]);
    out[pos] := block[0] * 4 + block[1] / 16;
    out[pos + 1] := block[1] * 16 % 256 + block[2] / 4;
    out[pos + 2] := block[2] * 64 % 256 + block[3];
  }

  lemma PadCountAppend(q: seq<Byte>, c: Byte)
    ensures PadCount(q + [c]) == PadCount(q) + if c == EQUALS then 1 else 0
  {
    assert (q + [c])[..|q|] == q;
  }

  lemma SymbolsFirst(url: bool, s: seq<Byte>)
    requires s != []
    ensures Symbols(url, s) == (if ValueOf(url, s[0]) == NONE then [] else [s[0]]) + Symbols(url, s[1..])
  {
    assert s == [s[0]] + s[1..];
    SymbolsConcat(url, [s[0]], s[1..]);
    OneSymbol(url, s[0]);
    hide Symbols, ValueOf;
  }

  lemma OneSymbol(url: bool, c: Byte)
    ensures Symbols(url, [c]) == if ValueOf(url, c) == NONE then [] else [c]
  {
    hide ValueOf;
    assert [c][..0] == [];
  }

  datatype Verdict = GoOn | Stop | Refuse

  /** Writes out a full block and looks at its padding. */
  method CloseGroup(url: bool, out: array<Byte>, start: nat, block: array<int>, pad: nat,
                    ghost q: seq<Byte>, ghost rest: seq<Byte>)
    returns (pos: nat, verdict: Verdict)
    requires start + 3 <= out.Length && block.Length == 4 && |q| == 4 && pad == PadCount(q)
    requires forall i :: 0 <= i < 4 ==> ValueOf(url, q[i]) != NONE && block[i] == ValueOf(url, q[i])
    requires forall i :: 0 <= i < |rest| ==> ValueOf(url, rest[i]) != NONE
    modifies out
    ensures pos <= out.Length && (verdict == GoOn ==> pad == 0 && pos == start + 3)
    ensures Prepend(old(out[..start]), Groups(url, q + rest)) ==
      match verdict
      case GoOn => Prepend(out[..pos], Groups(url, rest))
      case Stop => Some(out[..pos])
      case Refuse => None
  {
    hide Groups, PadCount, Triple, ValueOf, Prepend;
    ghost var before := out[..start];
    GroupsStep(url, before, q, rest);
    EmitTriple(out, start, url, block, q);
    pos := start + 3;
    if pad > 0 {
      if pad > 2 {
        return pos, Refuse;
      }
      assert out[..pos - pad] == out[..pos][..pos - pad];
      assert (before + Triple(url, q))[..pos - pad] == before + Triple(url, q)[..3 - pad];
      return pos - pad, Stop;
    }
    return pos, GoOn;
  }

  /** The main loop over the text and the padding signs supplied after it. None
      stands for refused padding. */
  method DecodeLoop(url: bool, table: array<int>, all: seq<Byte>, out: array<Byte>, ghost groups: nat)
    returns (length: Option<nat>)
    requires table.Length == 256 && forall c: Byte :: table[c] == ValueOf(url, c)
    requires |Symbols(url, all)| == 4 * groups && 3 * groups <= out.Length
    modifies out
    ensures length.Some? ==> length.value <= out.Length
    ensures Groups(url, Symbols(url, all)) ==
      if length.Some? then Some(out[..length.value]) else None
  {
    hide *;
    var block := new int[4];
    var count, pad, pos: nat := 0, 0, 0;
    ghost var q: seq<Byte>, full: nat := [], 0;
    ghost var total := Symbols(url, all);
    NoSymbols(url, all);
    assert all[0..] == all;
    assert [] + total == total;
    PrependNothing(Groups(url, total));
    for i := 0 to |all|
      invariant |q| == count < 4 && pad == PadCount(q)
      invariant forall k :: 0 <= k < count ==> ValueOf(url, q[k]) != NONE && block[k] == ValueOf(url, q[k])
      invariant 4 * full + count + |Symbols(url, all[i..])| == 4 * groups && pos == 3 * full <= out.Length
      invariant Groups(url, total) == Prepend(out[..pos], Groups(url, q + Symbols(url, all[i..])))
    {
      var c := all[i];
      SymbolsFirst(url, all[i..]);
      assert all[i..][1..] == all[i + 1..];
      var tmp := table[c];
      ghost var rest := Symbols(url, all[i + 1..]);
      if tmp == NONE {
        assert [] + rest == rest;
        continue;
      }
      if c == EQUALS {
        pad := pad + 1;
      }
      block[count] := tmp;
      count := count + 1;
      PadCountAppend(q, c);
      assert q + ([c] + rest) == q + [c] + rest;
      q := q + [c];
      if count == 4 {
        var verdict;
        pos, verdict := CloseGroup(url, out, pos, block, pad, q, rest);
        count := 0;
        if verdict == Refuse {
          return None;
        }
        if verdict == Stop {
          return Some(pos);
        }
        q, full := [], full + 1;
        assert q + rest == rest;
      }
    }
    NoSymbols(url, all);
    NoGroups(url, out[..pos]);
    return Some(pos);
  }

  /** The whole decoder: refused, or the bytes and their number. */
  method Decode(url: bool, text: seq<Byte>) returns (r: Option<(array<Byte>, nat)>)
    ensures r.None? <==> Decoded(url, text).None?
    ensures r.Some? ==>
      r.value.1 <= r.value.0.Length && Decoded(url, text) == Some(r.value.0[..r.value.1])
  {
    hide Groups, Symbols, ValueOf;
    if |text| == 0 {
      return None;
    }
    var trimmed := text;
    if text[|text| - 1] == 0 {
      trimmed := text[..|text| - 1];
    }
    var table := BuildTable(url);
    var count := CountSymbols(url, table, trimmed);
    var m := count % 4;
    if count == 0 || m == 1 || (!url && m > 0) {
      return None;
    }
    if m == 3 {
      m := 1;
    }
    var out := new Byte[count / 4 * 3 + 16](_ => 0);
    PadSymbol(url);
    AllSymbols(url, Pad(m));
    SymbolsConcat(url, trimmed, Pad(m));
    var length := DecodeLoop(url, table, trimmed + Pad(m), out, (count + m) / 4);
    return if length.Some? then Some((out, length.value)) else None;
  }

  // ------------------------------------------------- against RFC 4648 itself

  /** The letters of its tables 1 and 2. */
  lemma AlphabetIs(url: bool, v: int)
    requires 0 <= v < 64
    ensures v < 26 ==> Symbol(url, v) == 'A' as int + v <= 'Z' as int
    ensures 26 <= v < 52 ==> Symbol(url, v) == 'a' as int + v - 26 <= 'z' as int
    ensures 52 <= v < 62 ==> Symbol(url, v) == '0' as int + v - 52 <= '9' as int
    ensures v >= 62 ==> Symbol(url, v) == (if url then "-_" else "+/")[v - 62] as int
  {
  }

  /** The number whose base-64 digits, highest first, these letters are. */
  function Digits(url: bool, text: seq<Byte>): int {
    if text == [] then 0 else Digits(url, text[..|text| - 1]) * 64 + ValueOf(url, text[|text| - 1])
  }

  /** The number whose bytes, highest first, these are. */
  function BigEndian(data: seq<Byte>): int {
    if data == [] then 0 else BigEndian(data[..|data| - 1]) * 256 + data[|data| - 1]
  }

  /** A group of letters and the bytes it stands for are the same number, with zero
      bits added below the last one or two bytes. */
  lemma GroupIsNumber(url: bool, data: seq<Byte>)
    requires 1 <= |data| <= 3
    ensures |data| == 3 ==> Digits(url, Quad(url, data[0], data[1], data[2])) == BigEndian(data)
    ensures |data| == 2 ==> Digits(url, Tail(url, data)[..3]) == BigEndian(data) * 4
    ensures |data| == 1 ==> Digits(url, Tail(url, data)[..2]) == BigEndian(data) * 16
  {
    hide Symbol, ValueOf, Digits, BigEndian, Tail, Quad;
    BigEndianIs(data);
    if |data| == 3 {
      QuadIsNumber(url, data[0], data[1], data[2]);
    } else {
      TailIsNumber(url, data);
    }
  }

  lemma QuadIsNumber(url: bool, a: Byte, b: Byte, c: Byte)
    ensures Digits(url, Quad(url, a, b, c)) == (a as int) * 65536 + (b as int) * 256 + c
  {
    hide Symbol, ValueOf, Digits;
    DigitsIs(url, Quad(url, a, b, c));
    SymbolValue(url, a / 4);
    SymbolValue(url, a % 4 * 16 + b / 16);
    SymbolValue(url, b % 16 * 4 + c / 64);
    SymbolValue(url, c % 64);
    SixBits(a, b, c);
  }

  lemma TailIsNumber(url: bool, data: seq<Byte>)
    requires 1 <= |data| <= 2
    ensures |data| == 2 ==> Digits(url, Tail(url, data)[..3]) == ((data[0] as int) * 256 + data[1]) * 4
    ensures |data| == 1 ==> Digits(url, Tail(url, data)[..2]) == (data[0] as int) * 16
  {
    hide Symbol, ValueOf, Digits;
    var b := if |data| == 2 then data[1] else 0;
    DigitsIs(url, Tail(url, data)[..|data| + 1]);
    SymbolValue(url, data[0] / 4);
    SymbolValue(url, data[0] % 4 * 16 + b / 16);
    SymbolValue(url, b % 16 * 4);
    SixBits(data[0], b, 0);
  }

  lemma SixBits(a: Byte, b: Byte, c: Byte)
    ensures var v0: int, v1: int, v2: int, v3: int := a / 4, a % 4 * 16 + b / 16, b % 16 * 4 + c / 64, c % 64;
      var x: int, y: int, z: int := a, b, c;
      v0 * 262144 + v1 * 4096 + v2 * 64 + v3 == x * 65536 + y * 256 + z
  {
    assert a == a / 4 * 4 + a % 4 && b == b / 16 * 16 + b % 16 && c == c / 64 * 64 + c % 64;
  }

  lemma BigEndianIs(data: seq<Byte>)
    requires 1 <= |data| <= 3
    ensures |data| == 1 ==> BigEndian(data) == data[0]
    ensures |data| == 2 ==> BigEndian(data) == (data[0] as int) * 256 + data[1]
    ensures |data| == 3 ==> BigEndian(data) == (data[0] as int) * 65536 + (data[1] as int) * 256 + data[2]
  {
    assert BigEndian(data[..0]) == 0;
    assert data[..1][..0] == data[..0] && BigEndian(data[..1]) == data[0];
    if |data| >= 2 {
      assert data[..2][..1] == data[..1] && BigEndian(data[..2]) == (data[0] as int) * 256 + data[1];
    }
    assert data[..|data|] == data;
  }

  lemma DigitsIs(url: bool, t: seq<Byte>)
    requires 2 <= |t| <= 4
    ensures |t| == 2 ==> Digits(url, t) == ValueOf(url, t[0]) * 64 + ValueOf(url, t[1])
    ensures |t| == 3 ==> Digits(url, t) == ValueOf(url, t[0]) * 4096 + ValueOf(url, t[1]) * 64 + ValueOf(url, t[2])
    ensures |t| == 4 ==>
      Digits(url, t) == ValueOf(url, t[0]) * 262144 + ValueOf(url, t[1]) * 4096 + ValueOf(url, t[2]) * 64 + ValueOf(url, t[3])
  {
    hide ValueOf;
    assert Digits(url, t[..0]) == 0;
    assert t[..1][..0] == t[..0] && t[..2][..1] == t[..1] && t[..|t|] == t;
    if |t| >= 3 {
      assert t[..3][..2] == t[..2];
    }
  }

  lemma {:induction false} NoLetterPadded(syms: seq<Byte>)
    requires EQUALS !in syms
    ensures PadCount(syms) == 0
  {
    if syms != [] {
      NoLetterPadded(syms[..|syms| - 1]);
    }
  }

  /** Reading ends at the first group with a padding sign, and that may have two. */
  ghost predicate FirstPaddingFits(syms: seq<Byte>) {
    forall k: nat :: 4 * k + 4 <= |syms| && EQUALS !in syms[..4 * k] ==> PadCount(syms[4 * k..4 * k + 4]) <= 2
  }

  lemma {:induction false} GroupsAcceptedIff(url: bool, syms: seq<Byte>)
    requires forall i :: 0 <= i < |syms| ==> ValueOf(url, syms[i]) != NONE
    ensures Groups(url, syms).Some? <==> FirstPaddingFits(syms)
  {
    if |syms| >= 4 {
      var q, rest := syms[..4], syms[4..];
      assert syms[4 * 0..4 * 0 + 4] == q && syms[..4 * 0] == [];
      if PadCount(q) == 0 {
        GroupsAcceptedIff(url, rest);
        NoPaddingIn(q);
        assert q + rest == syms;
        LaterGroups(q, rest);
      } else if PadCount(q) <= 2 {
        forall k: nat | 4 * k + 4 <= |syms| && EQUALS !in syms[..4 * k] ensures PadCount(syms[4 * k..4 * k + 4]) <= 2 {
          if k > 0 {
            assert q == syms[..4 * k][..4];
            NoLetterPadded(q);
          }
        }
      }
    }
  }

  lemma {:induction false} NoPaddingIn(syms: seq<Byte>)
    requires PadCount(syms) == 0
    ensures EQUALS !in syms
  {
    if syms != [] {
      NoPaddingIn(syms[..|syms| - 1]);
      assert syms == syms[..|syms| - 1] + [syms[|syms| - 1]];
    }
  }

  lemma LaterGroups(q: seq<Byte>, rest: seq<Byte>)
    requires |q| == 4 && EQUALS !in q
    ensures FirstPaddingFits(q + rest) <==> FirstPaddingFits(rest)
  {
    var syms := q + rest;
    NoLetterPadded(q);
    forall k: nat | 4 * k + 4 <= |rest|
      ensures syms[4 * (k + 1)..4 * (k + 1) + 4] == rest[4 * k..4 * k + 4]
      ensures syms[..4 * (k + 1)] == q + rest[..4 * k]
    {
    }
    if FirstPaddingFits(rest) {
      forall k: nat | 4 * k + 4 <= |syms| && EQUALS !in syms[..4 * k] ensures PadCount(syms[4 * k..4 * k + 4]) <= 2 {
        if k == 0 {
          assert syms[4 * k..4 * k + 4] == q;
        } else {
          var j: nat := k - 1;
          assert syms[..4 * k] == q + rest[..4 * j];
          assert syms[4 * k..4 * k + 4] == rest[4 * j..4 * j + 4];
        }
      }
    }
    if FirstPaddingFits(syms) {
      forall k: nat | 4 * k + 4 <= |rest| && EQUALS !in rest[..4 * k] ensures PadCount(rest[4 * k..4 * k + 4]) <= 2 {
        assert syms[..4 * (k + 1)] == q + rest[..4 * k];
        assert syms[4 * (k + 1)..4 * (k + 1) + 4] == rest[4 * k..4 * k + 4];
      }
    }
  }

  /** Accepted is exactly a text with letters, or padding signs, in whole groups (in URL
      mode the last group may lack two of four, one, or none) in which the first group
      with padding has at most two signs; bytes outside the alphabet are skipped. */
  lemma AcceptedIff(url: bool, text: seq<Byte>)
    requires text != []
    ensures var syms := Symbols(url, Trimmed(text));
      Decoded(url, text).Some? <==>
        && syms != [] && |syms| % 4 != 1 && (!url ==> |syms| % 4 == 0)
        && FirstPaddingFits(syms + Pad(-|syms| % 4))
  {
    var syms := Symbols(url, Trimmed(text));
    if Missing(url, |syms|).Some? {
      var m := Missing(url, |syms|).value;
      assert m == -|syms| % 4;
      assert ValueOf(url, EQUALS) != NONE;
      GroupsAcceptedIff(url, syms + Pad(m));
    }
  }
}
