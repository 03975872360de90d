/** The binary frame of protocol/nova/packet.h: an 18-byte little-endian header
    (command, sequence number, user id, body length) and the body; and the stream
    of frames that server/net/gateway.cpp cuts by the length field. */
module Frame {
  import opened Wrappers
  import PowersOfTwo

  type Byte = x: int | 0 <= x < 256
  type Word16 = x: int | 0 <= x < 0x1_0000
  type Word32 = x: int | 0 <= x < 0x1_0000_0000
  type Word64 = x: int | 0 <= x < 0x1_0000_0000_0000_0000

  const HEADER := 18
  const MAX_BODY := 0x10_0000
  const LENGTH_OFFSET := 14

  datatype Packet = Packet(cmd: Word16, number: Word32, uid: Word64, body: seq<Byte>)

  // ---------------------------------------------------------- little endian

  /** 256 to the power n. */
  function Base(n: nat): (b: nat)
    ensures b > 0
  {
    if n == 0 then 1 else 256 * Base(n - 1)
  }

  /** The value of bytes, lowest first. */
  function Value(bs: seq<Byte>): (v: nat)
    ensures v < Base(|bs|)
  {
    if bs == [] then 0 else bs[0] + 256 * Value(bs[1..])
  }

  /** The low n bytes of v. */
  function Bytes(v: nat, n: nat): (bs: seq<Byte>)
    ensures |bs| == n
  {
    if n == 0 then [] else [v % 256] + Bytes(v / 256, n - 1)
  }

  lemma {:induction false} ValueOfBytes(v: nat, n: nat)
    requires v < Base(n)
    ensures Value(Bytes(v, n)) == v
  {
    if n > 0 {
      ValueOfBytes(v / 256, n - 1);
      assert Bytes(v, n)[1..] == Bytes(v / 256, n - 1);
    }
  }

  lemma {:induction false} BytesOfValue(bs: seq<Byte>)
    ensures Bytes(Value(bs), |bs|) == bs
  {
    if bs != [] {
      BytesOfValue(bs[1..]);
      assert Value(bs) % 256 == bs[0] && Value(bs) / 256 == Value(bs[1..]);
    }
  }

  lemma ScaleUp(b: nat, n: nat)
    ensures b * Base(n + 1) == 256 * (b * Base(n))
  {
  }

  lemma {:induction false} ValueAppend(bs: seq<Byte>, b: Byte)
    ensures Value(bs + [b]) == Value(bs) + b * Base(|bs|)
  {
    hide Base;
    if bs == [] {
      assert bs + [b] == [b] && [b][1..] == [];
      ValueOne(b);
    } else {
      ValueAppend(bs[1..], b);
      ValueFirst(bs);
      ValueFirst(bs + [b]);
      assert (bs + [b])[1..] == bs[1..] + [b];
      ScaleUp(b, |bs| - 1);
    }
  }

  lemma ValueOne(b: Byte)
    ensures Value([b]) == b == Value([]) + b * Base(0)
  {
  }

  lemma ValueFirst(bs: seq<Byte>)
    requires bs != []
    ensures Value(bs) == bs[0] + 256 * Value(bs[1..])
  {
  }

  lemma {:induction false} BytesAppend(v: nat, n: nat)
    ensures Bytes(v, n + 1) == Bytes(v, n) + [v / Base(n) % 256]
  {
    if n > 0 {
      BytesAppend(v / 256, n - 1);
      DivDiv(v, 256, Base(n - 1));
    }
  }

  lemma DivDiv(v: nat, a: nat, b: nat)
    requires a > 0 && b > 0
    ensures a * b > 0 && v / a / b == v / (a * b)
  {
    var q, r1, r2 := v / a / b, v % a, v / a % b;
    assert v / a == b * q + r2;
    Regroup(v, a, b, q, r1, r2);
    PowersOfTwo.DivModUnique(v, a * b, q, a * r2 + r1);
  }

  lemma Regroup(v: nat, a: nat, b: nat, q: nat, r1: nat, r2: nat)
    requires a > 0 && b > 0 && v == a * (b * q + r2) + r1 && r1 < a && r2 < b
    ensures v == q * (a * b) + (a * r2 + r1) && 0 <= a * r2 + r1 < a * b
  {
    assert a * (b * q + r2) == a * (b * q) + a * r2;
    assert a * (b * q) == q * (a * b);
    assert a * (r2 + 1) <= a * b;
  }

  lemma Bases()
    ensures Base(2) == 0x1_0000 && Base(4) == 0x1_0000_0000 && Base(8) == 0x1_0000_0000_0000_0000
  {
    assert Base(3) == 0x100_0000;
    assert Base(5) == 256 * Base(4);
    assert Base(6) == 256 * Base(5);
    assert Base(7) == 256 * Base(6);
  }

  method WriteLE16(out: array<Byte>, at: nat, v: Word16)
    requires at + 2 <= out.Length
    modifies out
    ensures out[..] == old(out[..at]) + Bytes(v, 2) + old(out[at + 2..])
  {
    ghost var before := out[..];
    out[at] := v % 256;
    out[at + 1] := v / 256 % 256;
    assert Bytes(v, 2) == [v % 256] + Bytes(v / 256, 1);
    assert Bytes(v / 256, 1) == [v / 256 % 256];
  }

  method WriteLE32(out: array<Byte>, at: nat, v: Word32)
    requires at + 4 <= out.Length
    modifies out
    ensures out[..] == old(out[..at]) + Bytes(v, 4) + old(out[at + 4..])
  {
    out[at] := v % 256;
    out[at + 1] := v / 0x100 % 256;
    out[at + 2] := v / 0x1_0000 % 256;
    out[at + 3] := v / 0x100_0000 % 256;
    Bases();
    BytesAppend(v, 0);
    BytesAppend(v, 1);
    BytesAppend(v, 2);
    BytesAppend(v, 3);
    assert Base(1) == 0x100 && Base(3) == 0x100_0000;
    assert Bytes(v, 4) == [v % 256, v / 0x100 % 256, v / 0x1_0000 % 256, v / 0x100_0000 % 256];
  }

  lemma NoBytes(v: nat)
    ensures Bytes(v, 0) == []
  {
  }

  lemma PutNext(before: seq<Byte>, done: seq<Byte>, rest: seq<Byte>, b: Byte)
    requires rest != []
    ensures (before + done + rest)[|before| + |done| := b] == before + (done + [b]) + rest[1..]
  {
  }

  /** The loop over eight bytes; `scale` is the shift's power of two. */
  method WriteLE64(out: array<Byte>, at: nat, v: Word64)
    requires at + 8 <= out.Length
    modifies out
    ensures out[..] == old(out[..at]) + Bytes(v, 8) + old(out[at + 8..])
  {
    hide Bytes;
    var scale: nat := 1;
    NoBytes(v);
    for i := 0 to 8
      invariant scale == Base(i)
      invariant out[..] == old(out[..at]) + Bytes(v, i) + old(out[at + i..])
    {
      BytesAppend(v, i);
      ghost var was := out[..];
      out[at + i] := v / scale % 256;
      assert out[..] == was[at + i := out[at + i]];
      PutNext(old(out[..at]), Bytes(v, i), old(out[at + i..]), out[at + i]);
      scale := 256 * scale;
    }
  }

  function ReadLE16(p: seq<Byte>): (v: Word16)
    requires |p| >= 2
    ensures v == Value(p[..2])
  {
    assert p[..2][1..] == [p[1]] && [p[1]][1..] == [];
    p[0] as int + p[1] as int * 0x100
  }

  function ReadLE32(p: seq<Byte>): (v: Word32)
    requires |p| >= 4
    ensures v == Value(p[..4])
  {
    assert p[..4][1..] == [p[1], p[2], p[3]] && [p[1], p[2], p[3]][1..] == [p[2], p[3]]
        && [p[2], p[3]][1..] == [p[3]] && [p[3]][1..] == [];
    assert Value([p[3]]) == p[3] && Value([p[2], p[3]]) == p[2] as int + 256 * p[3] as int;
    p[0] as int + p[1] as int * 0x100 + p[2] as int * 0x1_0000 + p[3] as int * 0x100_0000
  }

  method ReadLE64(p: seq<Byte>) returns (v: Word64)
    requires |p| >= 8
    ensures v == Value(p[..8])
  {
    Bases();
    var sum: nat, scale: nat := 0, 1;
    for i := 0 to 8
      invariant scale == Base(i) && sum == Value(p[..i])
    {
      assert p[..i + 1] == p[..i] + [p[i]];
      ValueAppend(p[..i], p[i]);
      sum := sum + p[i] as int * scale;
      scale := 256 * scale;
    }
    assert Value(p[..8]) < Base(8) by { assert |p[..8]| == 8; }
    v := sum;
  }

  // ----------------------------------------------------------------- frames

  function Header(p: Packet): (h: seq<Byte>)
    requires |p.body| <= MAX_BODY
    ensures |h| == HEADER
  {
    Bytes(p.cmd, 2) + Bytes(p.number, 4) + Bytes(p.uid, 8) + Bytes(|p.body|, 4)
  }

  /** A body over the limit gives no bytes at all. */
  function Encoded(p: Packet): seq<Byte> {
    if |p.body| > MAX_BODY then [] else Header(p) + p.body
  }

  method Encode(p: Packet) returns (r: seq<Byte>)
    ensures r == Encoded(p)
  {
    if |p.body| > MAX_BODY {
      return [];
    }
    var size := |p.body|;
    var out := new Byte[HEADER + size](_ => 0);
    WriteHeader(out, p);
    CopyBody(out, p.body);
    return out[..];
  }

  method WriteHeader(out: array<Byte>, p: Packet)
    requires |p.body| <= MAX_BODY && out.Length >= HEADER
    modifies out
    ensures out[..HEADER] == Header(p)
  {
    hide Bytes;
    WriteLE16(out, 0, p.cmd);
    WriteLE32(out, 2, p.number);
    WriteLE64(out, 6, p.uid);
    WriteLE32(out, LENGTH_OFFSET, |p.body|);
  }

  /** `memcpy` behind the header. */
  method CopyBody(out: array<Byte>, body: seq<Byte>)
    requires out.Length == HEADER + |body|
    modifies out
    ensures out[..] == old(out[..HEADER]) + body
  {
    for i := 0 to |body|
      invariant out[..HEADER + i] == old(out[..HEADER]) + body[..i]
    {
      out[HEADER + i] := body[i];
      assert body[..i + 1] == body[..i] + [body[i]];
    }
    assert body[..|body|] == body;
  }

  /** The body length a header announces. */
  function Announced(data: seq<Byte>): nat
    requires |data| >= HEADER
  {
    Value(data[LENGTH_OFFSET..HEADER])
  }

  /** Bytes after the announced body are ignored. */
  function Decoded(data: seq<Byte>): Option<Packet> {
    if |data| < HEADER then None
    else
      var n := Announced(data);
      if n > MAX_BODY || |data| - HEADER < n then None
      else
        Bases();
        Some(Packet(Value(data[..2]), Value(data[2..6]), Value(data[6..14]), data[HEADER..HEADER + n]))
  }

  method Decode(data: seq<Byte>) returns (r: Option<Packet>)
    ensures r == Decoded(data)
  {
    if |data| < HEADER {
      return None;
    }
    var cmd := ReadLE16(data);
    var number := ReadLE32(data[2..]);
    assert data[2..][..4] == data[2..6];
    var uid := ReadLE64(data[6..]);
    assert data[6..][..8] == data[6..14];
    var n := ReadLE32(data[14..]);
    assert data[14..][..4] == data[14..18];
    if n > MAX_BODY {
      return None;
    }
    if |data| - HEADER < n {
      return None;
    }
    return Some(Packet(cmd, number, uid, data[HEADER..HEADER + n]));
  }

  lemma HeaderParts(p: Packet, rest: seq<Byte>)
    requires |p.body| <= MAX_BODY
    ensures var d := Header(p) + rest;
      && Value(d[..2]) == p.cmd && Value(d[2..6]) == p.number && Value(d[6..14]) == p.uid
      && Announced(d) == |p.body|
  {
    var d := Header(p) + rest;
    assert d[..2] == Bytes(p.cmd, 2) && d[2..6] == Bytes(p.number, 4);
    assert d[6..14] == Bytes(p.uid, 8) && d[LENGTH_OFFSET..HEADER] == Bytes(|p.body|, 4);
    Bases();
    ValueOfBytes(p.cmd, 2);
    ValueOfBytes(p.number, 4);
    ValueOfBytes(p.uid, 8);
    ValueOfBytes(|p.body|, 4);
  }

  /** Decoding gives the packet back, whatever follows its frame. */
  lemma RoundTrip(p: Packet, rest: seq<Byte>)
    requires |p.body| <= MAX_BODY
    ensures Decoded(Encoded(p) + rest) == Some(p)
  {
    assert Encoded(p) + rest == Header(p) + (p.body + rest);
    HeaderParts(p, p.body + rest);
    assert (Header(p) + (p.body + rest))[HEADER..HEADER + |p.body|] == p.body;
  }

  /** Encoding what was decoded gives the frame back, without what follows it. */
  lemma ReEncode(data: seq<Byte>, p: Packet)
    requires Decoded(data) == Some(p)
    ensures |p.body| <= MAX_BODY && Encoded(p) == data[..HEADER + |p.body|]
  {
    BytesOfValue(data[..2]);
    BytesOfValue(data[2..6]);
    BytesOfValue(data[6..14]);
    BytesOfValue(data[LENGTH_OFFSET..HEADER]);
    assert data[..HEADER] == data[..2] + data[2..6] + data[6..14] + data[14..18];
  }

  /** Exactly the byte strings that begin with a frame are accepted. */
  lemma AcceptedIff(data: seq<Byte>)
    ensures Decoded(data).Some? <==> exists p: Packet :: |p.body| <= MAX_BODY && Encoded(p) <= data
  {
    if Decoded(data).Some? {
      ReEncode(data, Decoded(data).value);
    }
    if exists p: Packet :: |p.body| <= MAX_BODY && Encoded(p) <= data {
      var p: Packet :| |p.body| <= MAX_BODY && Encoded(p) <= data;
      RoundTrip(p, data[|Encoded(p)|..]);
      assert data == Encoded(p) + data[|Encoded(p)|..];
    }
  }

  /** No frame is a prefix of another frame. */
  lemma PrefixFree(p: Packet, q: Packet)
    requires |p.body| <= MAX_BODY && |q.body| <= MAX_BODY && Encoded(p) <= Encoded(q)
    ensures p == q
  {
    var rest := Encoded(q)[|Encoded(p)|..];
    assert Encoded(q) == Encoded(p) + rest;
    RoundTrip(p, rest);
    RoundTrip(q, []);
    assert Encoded(q) + [] == Encoded(q);
  }

  // ---------------------------------------------------------------- streams

  function Stream(ps: seq<Packet>): seq<Byte> {
    if ps == [] then [] else Encoded(ps[0]) + Stream(ps[1..])
  }

  /** Cutting a stream by the length field; what is not yet a whole frame stays. */
  function Frames(data: seq<Byte>): seq<seq<Byte>>
    decreases |data|
  {
    if |data| < HEADER || |data| - HEADER < Announced(data) then []
    else
      var n := HEADER + Announced(data);
      [data[..n]] + Frames(data[n..])
  }

  predicate Sendable(ps: seq<Packet>) {
    forall p :: p in ps ==> |p.body| <= MAX_BODY
  }

  function EncodedAll(ps: seq<Packet>): seq<seq<Byte>> {
    if ps == [] then [] else [Encoded(ps[0])] + EncodedAll(ps[1..])
  }

  /** A stream of frames is cut exactly where the frames were put together. */
  lemma {:induction false} StreamSplits(ps: seq<Packet>)
    requires Sendable(ps)
    ensures Frames(Stream(ps)) == EncodedAll(ps)
  {
    if ps != [] {
      StreamSplits(ps[1..]);
      var e, rest := Encoded(ps[0]), Stream(ps[1..]);
      assert ps[0] in ps;
      assert e + rest == Header(ps[0]) + (ps[0].body + rest);
      HeaderParts(ps[0], ps[0].body + rest);
      assert (e + rest)[..|e|] == e && (e + rest)[|e|..] == rest;
    }
  }

  /** So no two packet sequences make the same stream. */
  lemma {:induction false} StreamUnique(ps: seq<Packet>, qs: seq<Packet>)
    requires Sendable(ps) && Sendable(qs) && Stream(ps) == Stream(qs)
    ensures ps == qs
  {
    StreamSplits(ps);
    StreamSplits(qs);
    AllEncoded(ps, qs);
  }

  lemma {:induction false} AllEncoded(ps: seq<Packet>, qs: seq<Packet>)
    requires Sendable(ps) && Sendable(qs) && EncodedAll(ps) == EncodedAll(qs)
    ensures ps == qs
  {
    if ps != [] && qs != [] {
      assert EncodedAll(ps)[0] == Encoded(ps[0]) && EncodedAll(qs)[0] == Encoded(qs[0]);
      assert ps[0] in ps && qs[0] in qs;
      PrefixFree(ps[0], qs[0]);
      assert EncodedAll(ps)[1..] == EncodedAll(ps[1..]) && EncodedAll(qs)[1..] == EncodedAll(qs[1..]);
      AllEncoded(ps[1..], qs[1..]);
    }
  }
}
