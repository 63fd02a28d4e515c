/** The parser and the collector loop as the relay runs them. */
module VlessCollector {
  import opened Common
  import opened VlessModel
  import opened CollectModel

  /** Walks the buffer with a moving position. */
  method ParseHeader(view: bytes, idna: Codec) returns (r: Parsed)
    ensures r == Parse(view, idna)
  {
    var length := |view|;
    if length < 19 { return Bad(Incomplete); }
    var pos: nat := 1 + 16;
    var addonLen: nat := view[pos];
    pos := pos + 1;
    if length < pos + addonLen + 4 { return Bad(Incomplete); }
    pos := pos + addonLen;
    var command := view[pos];
    pos := pos + 1;
    if command != 1 { return Bad(Malformed); }
    var port := U16(view[pos], view[pos + 1]);
    pos := pos + 2;
    if port == 0 { return Bad(Malformed); }
    var kind := view[pos];
    pos := pos + 1;
    var address: Address;
    if kind == 1 {
      if length < pos + 4 { return Bad(Incomplete); }
      address := IPv4(view[pos..pos + 4]);
      pos := pos + 4;
    } else if kind == 2 {
      if length < pos + 1 { return Bad(Incomplete); }
      var domainLen: nat := view[pos];
      pos := pos + 1;
      if domainLen == 0 { return Bad(Malformed); }
      if length < pos + domainLen { return Bad(Incomplete); }
      var name := idna(view[pos..pos + domainLen]);
      if name.None? { return Bad(Malformed); }
      address := Domain(name.value);
      pos := pos + domainLen;
    } else if kind == 3 {
      if length < pos + 16 { return Bad(Incomplete); }
      address := IPv6(view[pos..pos + 16]);
      pos := pos + 16;
    } else {
      return Bad(Malformed);
    }
    return Ok(command, address, port, view[pos..]);
  }

  method CollectHeader(early: bytes, turns: seq<Turn>, o: Options, idna: Codec) returns (out: Outcome)
    ensures out == Collect(early, turns, o, idna)
  {
    var buffer := early;
    var i := 0;
    while true
      invariant 0 <= i <= |turns|
      invariant Collect(early, turns, o, idna) == Collect(buffer, turns[i..], o, idna)
      decreases |turns| - i
    {
      if o.includeId && buffer != [] && buffer[0] != 0 { return Rejected(BadVersion); }
      var parsed := Bad(Incomplete);
      if |buffer| >= 19 { parsed := ParseHeader(buffer, idna); }
      if parsed.Ok? {
        var payload := parsed.payload;
        if !o.prefetch { return Accept(buffer, parsed, o.includeId); }
        if payload != [] && (payload[0] != 0x16 || (|payload| >= 2 && payload[1] != 0x03)) {
          return Accept(buffer, parsed, o.includeId);
        }
        if |payload| >= 5 {
          var recordSize := 5 + U16(payload[3], payload[4]);
          if |payload| >= recordSize { return Accept(buffer, parsed, o.includeId); }
        }
      } else if |buffer| >= HEADER_MAX {
        return Rejected(TooLarge);
      }
      if i == |turns| { return Waiting; }
      if parsed.Ok? && turns[i].expired { return Accept(buffer, parsed, o.includeId); }
      match turns[i].got
      case Silence =>
        return if parsed.Ok? then Accept(buffer, parsed, false) else Rejected(TimedOut);
      case Disconnect =>
        return Rejected(Disconnected);
      case Chunk(data) =>
        buffer := buffer + data;
        assert turns[i..][1..] == turns[i + 1..];
        i := i + 1;
    }
  }
}
