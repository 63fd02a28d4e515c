/** Server frames on the wire: what the relay's writer emits, and a strict decoder
    for unmasked binary frames after section 5.2 of RFC 6455. */
module FrameModel {
  import opened Common

  const LENGTH_LIMIT := 0x8000_0000_0000_0000

  function Pow256(k: nat): nat
  {
    if k == 0 then 1 else 256 * Pow256(k - 1)
  }

  function BigEndian(n: nat, k: nat): (b: bytes)
    ensures |b| == k
  {
    if k == 0 then [] else BigEndian(n / 256, k - 1) + [n % 256]
  }

  function FromBigEndian(b: bytes): nat
  {
    if b == [] then 0 else 256 * FromBigEndian(b[..|b| - 1]) + b[|b| - 1]
  }

  lemma FromBigEndianSnoc(front: bytes, d: byte)
    ensures FromBigEndian(front + [d]) == 256 * FromBigEndian(front) + d
  {
    var b := front + [d];
    assert b[..|b| - 1] == front;
  }

  lemma {:induction false} BigEndianInverse(n: nat, k: nat)
    requires n < Pow256(k)
    ensures FromBigEndian(BigEndian(n, k)) == n
  {
    if k > 0 {
      FromBigEndianSnoc(BigEndian(n / 256, k - 1), n % 256);
      BigEndianInverse(n / 256, k - 1);
    }
  }

  lemma {:induction false} FromBigEndianInverse(b: bytes)
    ensures FromBigEndian(b) < Pow256(|b|) && BigEndian(FromBigEndian(b), |b|) == b
  {
    if b != [] {
      var front := b[..|b| - 1];
      FromBigEndianInverse(front);
      assert FromBigEndian(b) / 256 == FromBigEndian(front) && FromBigEndian(b) % 256 == b[|b| - 1];
      assert b == front + [b[|b| - 1]];
    }
  }

  /** The top bit of the first byte tells whether the number is in the lower half. */
  lemma {:induction false} TopBit(n: nat, k: nat)
    requires 1 <= k && n < Pow256(k)
    ensures BigEndian(n, k)[0] < 128 <==> n < 128 * Pow256(k - 1)
  {
    if k == 1 {
      assert BigEndian(n, 1) == [n % 256];
    } else {
      TopBit(n / 256, k - 1);
      assert BigEndian(n, k)[0] == BigEndian(n / 256, k - 1)[0];
    }
  }

  lemma PowValues()
    ensures Pow256(2) == 65536 && Pow256(7) * 128 == LENGTH_LIMIT && Pow256(8) == 2 * LENGTH_LIMIT
  {
    assert Pow256(3) == 16777216 && Pow256(4) == 4294967296;
    assert Pow256(5) == 1099511627776 && Pow256(6) == 281474976710656;
  }

  /** FIN and the binary opcode, then the length without a mask bit. */
  function Header(length: nat): bytes
    requires length < LENGTH_LIMIT
  {
    if length < 126 then [0x82, length]
    else if length < 65536 then [0x82, 126] + BigEndian(length, 2)
    else [0x82, 127] + BigEndian(length, 8)
  }

  predicate Sendable(payloads: seq<bytes>)
  {
    forall i :: 0 <= i < |payloads| ==> |payloads[i]| < LENGTH_LIMIT
  }

  function Wire(payloads: seq<bytes>): bytes
    requires Sendable(payloads)
  {
    if payloads == [] then []
    else Header(|payloads[0]|) + payloads[0] + Wire(payloads[1..])
  }

  // -------------------------------------------------------------------- decoder

  /** (header size, payload length) of the frame at the front, if its header is
      there, names an unmasked final binary frame and uses the shortest length form. */
  function ReadHeader(b: bytes): Option<(nat, nat)>
  {
    if |b| < 2 || b[0] != 0x82 || b[1] >= 0x80 then None
    else if b[1] < 126 then Some((2, b[1]))
    else if b[1] == 126 then
      if |b| < 4 || FromBigEndian(b[2..4]) < 126 then None else Some((4, FromBigEndian(b[2..4])))
    else
      if |b| < 10 || b[2] >= 0x80 || FromBigEndian(b[2..10]) < 65536 then None
      else Some((10, FromBigEndian(b[2..10])))
  }

  function Decode(b: bytes): Option<seq<bytes>>
    decreases |b|
  {
    if b == [] then Some([])
    else
      var h := ReadHeader(b);
      if h.None? || |b| < h.value.0 + h.value.1 then None
      else
        var (size, length) := h.value;
        var rest := Decode(b[size + length..]);
        if rest.None? then None else Some([b[size..size + length]] + rest.value)
  }

  lemma HeaderReadsBack(length: nat, tail: bytes)
    requires length < LENGTH_LIMIT
    ensures ReadHeader(Header(length) + tail) == Some((|Header(length)|, length))
  {
    PowValues();
    var h := Header(length);
    var b := h + tail;
    if length >= 126 {
      var k := if length < 65536 then 2 else 8;
      BigEndianInverse(length, k);
      TopBit(length, k);
      assert b[2..2 + k] == BigEndian(length, k);
      assert b[2] == BigEndian(length, k)[0];
    }
  }

  lemma FrameDecodes(b: bytes, size: nat, p: bytes, rest: bytes)
    requires ReadHeader(b) == Some((size, |p|)) && 0 < size && |b| >= size + |p|
    requires b[size..size + |p|] == p && b[size + |p|..] == rest && Decode(rest).Some?
    ensures Decode(b) == Some([p] + Decode(rest).value)
  {
  }

  lemma FrameLayout(h: bytes, p: bytes, rest: bytes)
    ensures var b := h + p + rest;
      && b == h + (p + rest) && |b| >= |h| + |p|
      && b[|h|..|h| + |p|] == p && b[|h| + |p|..] == rest
  {
  }

  lemma FrontFrame(b: bytes, p: bytes, rest: bytes) returns (size: nat)
    requires |p| < LENGTH_LIMIT && b == Header(|p|) + p + rest
    ensures ReadHeader(b) == Some((size, |p|)) && 0 < size && |b| >= size + |p|
    ensures b[size..size + |p|] == p && b[size + |p|..] == rest
  {
    size := |Header(|p|)|;
    HeaderReadsBack(|p|, p + rest);
    FrameLayout(Header(|p|), p, rest);
  }

  lemma {:induction false} WireDecodes(b: bytes, payloads: seq<bytes>)
    requires Sendable(payloads) && b == Wire(payloads)
    ensures Decode(b) == Some(payloads)
    decreases |payloads|
  {
    if payloads != [] {
      WireDecodes(Wire(payloads[1..]), payloads[1..]);
      FrontDecodes(b, payloads[0], payloads[1..]);
      assert payloads == [payloads[0]] + payloads[1..];
    }
  }

  /** Any list of payloads survives the wire. */
  lemma WireRoundTrip(payloads: seq<bytes>)
    requires Sendable(payloads)
    ensures Decode(Wire(payloads)) == Some(payloads)
  {
    WireDecodes(Wire(payloads), payloads);
  }

  lemma FrontDecodes(b: bytes, p: bytes, ps: seq<bytes>)
    requires |p| < LENGTH_LIMIT && Sendable(ps) && b == Header(|p|) + p + Wire(ps)
    requires Decode(Wire(ps)) == Some(ps)
    ensures Decode(b) == Some([p] + ps)
  {
    var size := FrontFrame(b, p, Wire(ps));
    FrameDecodes(b, size, p, Wire(ps));
  }

  lemma HeaderIsUnique(b: bytes)
    requires ReadHeader(b).Some?
    ensures var (size, length) := ReadHeader(b).value;
            size <= |b| && length < LENGTH_LIMIT && b[..size] == Header(length)
  {
    PowValues();
    if b[1] == 126 {
      FromBigEndianInverse(b[2..4]);
      assert b[..4] == [b[0], b[1]] + b[2..4];
    } else if b[1] == 127 {
      var n := FromBigEndian(b[2..10]);
      FromBigEndianInverse(b[2..10]);
      TopBit(n, 8);
      assert b[..10] == [b[0], b[1]] + b[2..10];
    } else {
      assert b[..2] == [b[0], b[1]];
    }
  }

  lemma Cut(b: bytes, i: nat, n: nat)
    requires i + n <= |b|
    ensures b == b[..i] + b[i..i + n] + b[i + n..]
  {
  }

  lemma WireCons(p: bytes, ps: seq<bytes>)
    requires |p| < LENGTH_LIMIT && Sendable(ps)
    ensures Sendable([p] + ps) && Wire([p] + ps) == Header(|p|) + p + Wire(ps)
  {
    assert ([p] + ps)[1..] == ps;
  }

  /** The decoder accepts nothing but what the writer emits, so every frame on the
      wire uses the shortest form of its length. */
  lemma {:induction false} DecodedIsWire(b: bytes)
    requires Decode(b).Some?
    ensures Sendable(Decode(b).value) && Wire(Decode(b).value) == b
    decreases |b|
  {
    if b != [] {
      HeaderIsUnique(b);
      var (size, length) := ReadHeader(b).value;
      DecodedIsWire(b[size + length..]);
      WireCons(b[size..size + length], Decode(b[size + length..]).value);
      Cut(b, size, length);
    }
  }
}
