/** The two handshakes as the connector speaks them, step by step over one socket. */
module Handshake {
  import opened Common
  import opened HttpModel
  import opened HandshakeModel

  /** `input` is all the proxy will ever answer; reading past it fails. */
  class ProxySocket {
    const input: bytes
    var pos: nat
    var output: bytes
    var isOpen: bool

    predicate Valid() reads this { pos <= |input| }

    constructor (input: bytes)
      ensures Valid() && this.input == input && pos == 0 && output == [] && isOpen
    {
      this.input, pos, output, isOpen := input, 0, [], true;
    }

    method Write(data: bytes)
      modifies this`output
      ensures output == old(output) + data
    {
      output := output + data;
    }

    method ReadExactly(n: nat) returns (piece: Option<bytes>)
      requires Valid()
      modifies this`pos
      ensures Valid()
      ensures if old(pos) + n <= |input|
        then pos == old(pos) + n && piece == Some(input[old(pos)..pos]) else piece == None && pos == old(pos)
    {
      if |input| - pos < n { return None; }
      pos := pos + n;
      return Some(input[pos - n..pos]);
    }

    method ReadUntilBlankLine() returns (head: Option<bytes>)
      requires Valid() && pos == 0
      modifies this`pos
      ensures Valid()
      ensures match HeadEnd(input, 0)
              case None => head == None
              case Some(n) => pos == n && head == Some(input[..n])
    {
      var i := 0;
      while i + 4 <= |input|
        invariant 0 <= i && (i <= |input| || i == 0)
        invariant HeadEnd(input, 0) == HeadEnd(input, i)
      {
        if input[i..i + 4] == BLANK_LINE {
          pos := i + 4;
          return Some(input[..i + 4]);
        }
        i := i + 1;
      }
      return None;
    }

    method Close()
      modifies this`isOpen
      ensures !isOpen
    {
      isOpen := false;
    }

    /** `_read_socks_reply` */
    method ReadReply() returns (v: Verdict)
      requires Valid()
      modifies this`pos
      ensures Valid() && v == ReplyEnd(input, old(pos)).0
      ensures v.Tunnel? ==> pos == ReplyEnd(input, old(pos)).1
    {
      var head := ReadExactly(4);
      if head.None? { return Starved; }
      assert forall k :: 0 <= k < 4 ==> head.value[k] == input[old(pos) + k];
      if head.value[0] != 5 || head.value[1] != 0 { return Declined; }
      var rest: nat := 0;
      if head.value[3] == 1 { rest := 6; }
      else if head.value[3] == 4 { rest := 18; }
      else if head.value[3] == 3 {
        var length := ReadExactly(1);
        if length.None? { return Starved; }
        assert length.value[0] == input[old(pos) + 4];
        rest := length.value[0] as nat + 2;
      } else {
        return Declined;
      }
      var bound := ReadExactly(rest);
      return if bound.None? then Starved else Tunnel;
    }

    method AskForTarget(target: Option<bytes>, packet: bytes, drains: bool) returns (v: Verdict)
      requires Valid()
      modifies this`pos, this`output
      ensures Valid()
      ensures var t := Request(old(output), input, old(pos), target, packet, drains);
        v == t.verdict && output == t.written && (v.Tunnel? ==> pos == t.used)
    {
      if target.None? { return Declined; }
      Write([5, 1, 0] + target.value);
      assert output == old(output) + [5, 1, 0] + target.value;
      v := ReadReply();
      if v.Tunnel? {
        Write(packet);
        if packet != [] && !drains { return Stuck; }
      }
    }

    /** `_socks_once` after its dial. */
    method SpeakSocks(l: Login, target: Option<bytes>, packet: bytes, drains: bool) returns (v: Verdict)
      requires Valid() && pos == 0 && output == []
      modifies this`pos, this`output
      ensures Valid()
      ensures var t := Socks(l, target, packet, drains, input);
        v == t.verdict && output == t.written && (v.Tunnel? ==> pos == t.used)
    {
      Write(if HasLogin(l) then [5, 2, 0, 2] else [5, 1, 0]);
      assert output == Greeting(l);
      var response := ReadExactly(2);
      if response.None? { return Starved; }
      assert response.value[0] == input[0] && response.value[1] == input[1];
      if response.value[0] != 5 { return Declined; }
      if response.value[1] == 2 {
        if !HasLogin(l) { return Declined; }
        if |l.user| > 255 || |l.secret| > 255 { return Declined; }
        Write([1, |l.user|] + l.user + [|l.secret|] + l.secret);
        assert output == Greeting(l) + LoginBytes(l);
        var auth := ReadExactly(2);
        if auth.None? { return Starved; }
        assert auth.value[0] == input[2] && auth.value[1] == input[3];
        if auth.value[0] != 1 || auth.value[1] != 0 { return Declined; }
      } else if response.value[1] != 0 {
        return Declined;
      }
      v := AskForTarget(target, packet, drains);
    }

    /** `_http_once` after its dial and its upgrade to TLS, if any. */
    method SpeakConnect(request: bytes, packet: bytes, drains: bool) returns (v: Verdict)
      requires Valid() && pos == 0 && output == []
      modifies this`pos, this`output
      ensures Valid()
      ensures var t := Connect(request, packet, drains, input);
        v == t.verdict && output == t.written && (v.Tunnel? ==> pos == t.used)
    {
      Write(request);
      assert output == request;
      var head := ReadUntilBlankLine();
      HeadEndWithin(input, 0);
      if head.None? { return Starved; }
      if |head.value| > HEAD_MAX { return Declined; }
      FirstLineWithin(head.value, 0);
      var status := Status(head.value[..FirstLine(head.value, 0)]);
      if status.None? || !(200 <= status.value < 300) { return Declined; }
      Write(packet);
      return if packet != [] && !drains then Stuck else Tunnel;
    }
  }
}
