/** The sender that writes a frame as a header followed by the caller's payload. */
module FrameWriter {
  import opened Common
  import opened FrameModel

  /** `_binary_header` */
  method BinaryHeader(length: nat) returns (header: bytes)
    requires length < LENGTH_LIMIT
    ensures header == Header(length)
  {
    if length < 126 { return [0x82, length]; }
    if length < 65536 { return [0x82, 126] + BigEndian(length, 2); }
    return [0x82, 127] + BigEndian(length, 8);
  }

  class Sender {
    var out: bytes                 // everything handed to the transport
    ghost var sent: seq<bytes>     // the payloads of the frames among it
    var disconnected: bool
    var closeSent: bool
    var handshakeComplete: bool
    var closing: bool

    ghost predicate Valid()
      reads this
    {
      Sendable(sent) && out == Wire(sent)
    }

    constructor ()
      ensures Valid() && out == []
    {
      out, sent := [], [];
      disconnected, closeSent, handshakeComplete, closing := false, false, true, false;
    }

    /** Without compression; false stands for the source's ClientDisconnected. */
    method SendBytes(data: bytes) returns (ok: bool)
      requires Valid() && |data| < LENGTH_LIMIT
      modifies this`out, this`sent
      ensures Valid()
      ensures ok == !(disconnected || closeSent || !handshakeComplete || closing)
      ensures sent == if ok then old(sent) + [data] else old(sent)
      ensures Decode(out) == Some(sent)
    {
      WireRoundTrip(sent);
      if disconnected || closeSent || !handshakeComplete || closing { return false; }
      WireAppend(sent, data);
      WireRoundTrip(sent + [data]);
      var header := BinaryHeader(|data|);
      out := out + header;
      out := out + data;
      sent := sent + [data];
      return true;
    }
  }

  lemma {:induction false} WireAppend(payloads: seq<bytes>, last: bytes)
    requires Sendable(payloads) && |last| < LENGTH_LIMIT
    ensures Sendable(payloads + [last])
    ensures Wire(payloads + [last]) == Wire(payloads) + Header(|last|) + last
  {
    var all := payloads + [last];
    if payloads == [] {
      assert all == [last] && all[1..] == [];
    } else {
      assert all[0] == payloads[0] && all[1..] == payloads[1..] + [last];
      WireAppend(payloads[1..], last);
    }
  }
}
