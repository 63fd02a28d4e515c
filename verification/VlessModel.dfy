/** VLESS request headers: the grammar, an encoder, the parser's verdict, and the
    relation between them (`_parse_vless_header`, `_vless_uuid_from_header`). */
module VlessModel {
  import opened Common

  const MIN_PREFIX := 19
  const HEADER_MAX := 16 * 1024
  const LONGEST_REQUEST := 533

  /** A decoded host name; what the IDNA codec yields is left abstract. */
  type Host = string

  type Codec = bytes -> Option<Host>

  datatype Address =
    | IPv4(octets: bytes)
    | Domain(name: Host)
    | IPv6(octets: bytes)

  datatype Error = Incomplete | Malformed

  datatype Parsed =
    | Ok(command: byte, address: Address, port: nat, payload: bytes)
    | Bad(error: Error)

  function U16(hi: byte, lo: byte): nat { hi * 256 + lo }

  /** The parser's decision. `Malformed` marks the errors no further byte can cure;
      the source raises the same exception for both kinds. */
  function Parse(b: bytes, idna: Codec): Parsed
  {
    if |b| < MIN_PREFIX then Bad(Incomplete)
    else
      var addons: nat := b[17];
      if |b| < 18 + addons + 4 then Bad(Incomplete)
      else
        var p: nat := 18 + addons;
        if b[p] != 1 then Bad(Malformed)
        else if U16(b[p + 1], b[p + 2]) == 0 then Bad(Malformed)
        else ParseAddress(b, p + 4, b[p + 3], U16(b[p + 1], b[p + 2]), idna)
  }

  function ParseAddress(b: bytes, p: nat, kind: byte, port: nat, idna: Codec): Parsed
    requires p <= |b|
  {
    if kind == 1 then
      if |b| < p + 4 then Bad(Incomplete) else Ok(1, IPv4(b[p..p + 4]), port, b[p + 4..])
    else if kind == 2 then
      if |b| < p + 1 then Bad(Incomplete)
      else
        var n := b[p];
        if n == 0 then Bad(Malformed)
        else if |b| < p + 1 + n then Bad(Incomplete)
        else
          var name := idna(b[p + 1..p + 1 + n]);
          if name.None? then Bad(Malformed) else Ok(1, Domain(name.value), port, b[p + 1 + n..])
    else if kind == 3 then
      if |b| < p + 16 then Bad(Incomplete) else Ok(1, IPv6(b[p..p + 16]), port, b[p + 16..])
    else Bad(Malformed)
  }

  // ------------------------------------------------------------------- grammar

  datatype Target =
    | ToIPv4(octets: bytes)
    | ToDomain(host: bytes)
    | ToIPv6(octets: bytes)

  datatype Request = Request(version: byte, id: bytes, addons: bytes, port: nat, target: Target)

  predicate TargetOk(t: Target, idna: Codec)
  {
    match t
    case ToIPv4(o) => |o| == 4
    case ToDomain(d) => 1 <= |d| <= 255 && idna(d).Some?
    case ToIPv6(o) => |o| == 16
  }

  predicate RequestOk(r: Request, idna: Codec)
  {
    |r.id| == 16 && |r.addons| <= 255 && 1 <= r.port <= 65535 && TargetOk(r.target, idna)
  }

  function EncodeTarget(t: Target): bytes
    requires t.ToDomain? ==> |t.host| <= 255
  {
    match t
    case ToIPv4(o) => [1] + o
    case ToDomain(d) => [2] + [|d|] + d
    case ToIPv6(o) => [3] + o
  }

  function Encode(r: Request, idna: Codec): (b: bytes)
    requires RequestOk(r, idna)
    ensures MIN_PREFIX <= |b| <= LONGEST_REQUEST
  {
    [r.version] + r.id + [|r.addons|] + r.addons + [1] + [r.port / 256, r.port % 256] + EncodeTarget(r.target)
  }

  function AddressOf(t: Target, idna: Codec): Address
    requires TargetOk(t, idna)
  {
    match t
    case ToIPv4(o) => IPv4(o)
    case ToDomain(d) => Domain(idna(d).value)
    case ToIPv6(o) => IPv6(o)
  }

  lemma EncodeLayout(r: Request, idna: Codec, tail: bytes)
    requires RequestOk(r, idna)
    ensures var b := Encode(r, idna) + tail;
            var p := 18 + |r.addons|;
      && |b| >= p + 4 && b[0] == r.version && b[1..17] == r.id && b[17] == |r.addons|
      && b[p] == 1 && b[p + 1] == r.port / 256 && b[p + 2] == r.port % 256
      && b[p + 3..] == EncodeTarget(r.target) + tail
  {
    var head := [r.version] + r.id + [|r.addons|] + r.addons;
    var b := Encode(r, idna) + tail;
    var p := 18 + |r.addons|;
    assert b == head + [1] + [r.port / 256, r.port % 256] + (EncodeTarget(r.target) + tail);
    assert |head| == p;
    assert b[1..17] == r.id;
    assert b[p + 3..] == EncodeTarget(r.target) + tail;
  }

  lemma Associate(x: bytes, y: bytes, z: bytes)
    ensures x + y + z == x + (y + z)
  {
  }

  lemma SliceOfTail(b: bytes, q: nat, x: bytes, y: bytes)
    requires q <= |b| && b[q..] == x + y
    ensures |b| == q + |x| + |y| && b[q..q + |x|] == x && b[q + |x|..] == y
  {
    assert b[q..q + |x|] == b[q..][..|x|];
    assert b[q + |x|..] == b[q..][|x|..];
  }

  lemma FixedInvertsEncode(b: bytes, q: nat, kind: byte, o: bytes, tail: bytes)
    requires 1 <= q <= |b| && b[q - 1..] == [kind] + o + tail
    ensures b[q - 1] == kind && |b| == q + |o| + |tail| && b[q..q + |o|] == o && b[q + |o|..] == tail
  {
    Associate([kind], o, tail);
    SliceOfTail(b, q - 1, [kind], o + tail);
    SliceOfTail(b, q, o, tail);
  }

  lemma DomainInvertsEncode(b: bytes, q: nat, d: bytes, tail: bytes)
    requires 1 <= q <= |b| && |d| <= 255 && b[q - 1..] == [2] + [|d|] + d + tail
    ensures b[q - 1] == 2 && |b| == q + 1 + |d| + |tail| && b[q] == |d|
    ensures b[q + 1..q + 1 + |d|] == d && b[q + 1 + |d|..] == tail
  {
    var n: byte := |d|;
    assert [2] + [|d|] + d + tail == [2] + [n] + (d + tail);
    FixedInvertsEncode(b, q, 2, [n], d + tail);
    SliceOfTail(b, q + 1, d, tail);
  }

  lemma AddressInvertsEncode(b: bytes, q: nat, t: Target, port: nat, idna: Codec, tail: bytes)
    requires TargetOk(t, idna) && 1 <= q <= |b| && b[q - 1..] == EncodeTarget(t) + tail
    ensures ParseAddress(b, q, b[q - 1], port, idna) == Ok(1, AddressOf(t, idna), port, tail)
  {
    match t
    case ToIPv4(o) => FixedInvertsEncode(b, q, 1, o, tail);
    case ToIPv6(o) => FixedInvertsEncode(b, q, 3, o, tail);
    case ToDomain(d) => DomainAddressInvertsEncode(b, q, d, port, idna, tail);
  }

  lemma DomainAddressInvertsEncode(b: bytes, q: nat, d: bytes, port: nat, idna: Codec, tail: bytes)
    requires TargetOk(ToDomain(d), idna) && 1 <= q <= |b| && b[q - 1..] == [2] + [|d|] + d + tail
    ensures ParseAddress(b, q, b[q - 1], port, idna) == Ok(1, Domain(idna(d).value), port, tail)
  {
    DomainInvertsEncode(b, q, d, tail);
  }

  /** Parsing undoes encoding and leaves exactly the bytes after the request. */
  lemma ParseInvertsEncode(r: Request, idna: Codec, tail: bytes)
    requires RequestOk(r, idna)
    ensures Parse(Encode(r, idna) + tail, idna) == Ok(1, AddressOf(r.target, idna), r.port, tail)
  {
    EncodeLayout(r, idna, tail);
    AddressInvertsEncode(Encode(r, idna) + tail, 18 + |r.addons| + 4, r.target, r.port, idna, tail);
  }

  /** The converse of `EncodeLayout`. */
  lemma LayoutIsEncoded(r: Request, idna: Codec, b: bytes, tail: bytes)
    requires RequestOk(r, idna)
    requires var p := 18 + |r.addons|;
      && |b| >= p + 3 && b[0] == r.version && b[1..17] == r.id && b[17] == |r.addons| && b[18..p] == r.addons
      && b[p] == 1 && b[p + 1] == r.port / 256 && b[p + 2] == r.port % 256
      && b[p + 3..] == EncodeTarget(r.target) + tail
    ensures b == Encode(r, idna) + tail
  {
    var p := 18 + |r.addons|;
    Reassemble(b, p);
    var head := [b[0]] + b[1..17] + [b[17]] + b[18..p] + [b[p]] + [b[p + 1], b[p + 2]];
    Associate(head, EncodeTarget(r.target), tail);
    assert head + EncodeTarget(r.target) == Encode(r, idna);
  }

  lemma Reassemble(b: bytes, p: nat)
    requires 18 <= p && p + 3 <= |b|
    ensures b == [b[0]] + b[1..17] + [b[17]] + b[18..p] + [b[p]] + [b[p + 1], b[p + 2]] + b[p + 3..]
  {
  }

  lemma AddressIsEncoded(b: bytes, q: nat, port: nat, idna: Codec) returns (t: Target)
    requires 1 <= q <= |b| && ParseAddress(b, q, b[q - 1], port, idna).Ok?
    ensures TargetOk(t, idna)
    ensures b[q - 1..] == EncodeTarget(t) + ParseAddress(b, q, b[q - 1], port, idna).payload
    ensures AddressOf(t, idna) == ParseAddress(b, q, b[q - 1], port, idna).address
    ensures ParseAddress(b, q, b[q - 1], port, idna).port == port
  {
    var kind := b[q - 1];
    if kind == 1 {
      t := ToIPv4(b[q..q + 4]);
      assert b[q - 1..] == [kind] + b[q..q + 4] + b[q + 4..];
    } else if kind == 3 {
      t := ToIPv6(b[q..q + 16]);
      assert b[q - 1..] == [kind] + b[q..q + 16] + b[q + 16..];
    } else {
      var n: nat := b[q];
      t := ToDomain(b[q + 1..q + 1 + n]);
      assert b[q - 1..] == [kind] + [b[q]] + b[q + 1..q + 1 + n] + b[q + 1 + n..];
    }
  }

  /** Whatever the parser accepts is some well-formed request followed by the payload. */
  lemma ParsedIsEncoded(b: bytes, idna: Codec) returns (r: Request)
    requires Parse(b, idna).Ok?
    ensures RequestOk(r, idna)
    ensures b == Encode(r, idna) + Parse(b, idna).payload
    ensures AddressOf(r.target, idna) == Parse(b, idna).address && r.port == Parse(b, idna).port
  {
    var n: nat := b[17];
    var p: nat := 18 + n;
    var port := U16(b[p + 1], b[p + 2]);
    var t := AddressIsEncoded(b, p + 4, port, idna);
    r := Request(b[0], b[1..17], b[18..p], port, t);
    LayoutIsEncoded(r, idna, b, Parse(b, idna).payload);
  }

  lemma AcceptedExactlyWellFormed(b: bytes, idna: Codec)
    ensures Parse(b, idna).Ok? <==>
      exists r: Request, tail: bytes :: RequestOk(r, idna) && b == Encode(r, idna) + tail
  {
    if Parse(b, idna).Ok? {
      var r := ParsedIsEncoded(b, idna);
    }
    forall r: Request, tail: bytes | RequestOk(r, idna) && b == Encode(r, idna) + tail
      ensures Parse(b, idna).Ok?
    {
      ParseInvertsEncode(r, idna, tail);
    }
  }

  /** A successful parse is final: more bytes only extend the payload. */
  lemma ParseExtends(b: bytes, more: bytes, idna: Codec)
    requires Parse(b, idna).Ok?
    ensures Parse(b + more, idna) == Parse(b, idna).(payload := Parse(b, idna).payload + more)
  {
    var r := ParsedIsEncoded(b, idna);
    var tail := Parse(b, idna).payload;
    Associate(Encode(r, idna), tail, more);
    ParseInvertsEncode(r, idna, tail);
    ParseInvertsEncode(r, idna, tail + more);
  }

  lemma MalformedAddressIsFinal(b: bytes, more: bytes, q: nat, kind: byte, port: nat, idna: Codec)
    requires q <= |b| && ParseAddress(b, q, kind, port, idna) == Bad(Malformed)
    ensures ParseAddress(b + more, q, kind, port, idna) == Bad(Malformed)
  {
    if kind == 2 {
      var n: nat := b[q];
      assert (b + more)[q] == b[q];
      if n != 0 {
        assert (b + more)[q + 1..q + 1 + n] == b[q + 1..q + 1 + n];
      }
    }
  }

  /** A malformed request stays malformed. */
  lemma MalformedIsFinal(b: bytes, more: bytes, idna: Codec)
    requires Parse(b, idna) == Bad(Malformed)
    ensures Parse(b + more, idna) == Bad(Malformed)
  {
    var n: nat := b[17];
    var p: nat := 18 + n;
    assert (b + more)[17] == b[17] && (b + more)[p] == b[p];
    assert (b + more)[p + 1] == b[p + 1] && (b + more)[p + 2] == b[p + 2] && (b + more)[p + 3] == b[p + 3];
    if b[p] == 1 && U16(b[p + 1], b[p + 2]) != 0 {
      MalformedAddressIsFinal(b, more, p + 4, b[p + 3], U16(b[p + 1], b[p + 2]), idna);
    }
  }

  /** Cut anywhere before its end, a well-formed request is merely incomplete. */
  lemma ProperPrefixIsIncomplete(r: Request, idna: Codec, b: bytes)
    requires RequestOk(r, idna) && b <= Encode(r, idna) && b != Encode(r, idna)
    ensures Parse(b, idna) == Bad(Incomplete)
  {
    var e := Encode(r, idna);
    var more := e[|b|..];
    assert e == b + more && e == e + [];
    ParseInvertsEncode(r, idna, []);
    match Parse(b, idna)
    case Ok(_, _, _, tail) =>
      ParseExtends(b, more, idna);
      assert false;
    case Bad(Malformed) =>
      MalformedIsFinal(b, more, idna);
      assert false;
    case Bad(Incomplete) =>
  }

  // ------------------------------------------------------------------ identity

  /** The 16 identity bytes of a version 0 request, for connections whose user is
      not known from the URL. */
  function Identity(b: bytes): Option<bytes>
  {
    if |b| < 17 || b[0] != 0 then None else Some(b[1..17])
  }

  lemma IdentityOfEncoded(r: Request, idna: Codec, tail: bytes)
    requires RequestOk(r, idna)
    ensures Identity(Encode(r, idna) + tail) == if r.version == 0 then Some(r.id) else None
  {
    EncodeLayout(r, idna, tail);
  }
}
