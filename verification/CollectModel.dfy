/** What the header collector decides about a client that sends its request in
    arbitrary pieces (`_collect_header`). */
module CollectModel {
  import opened Common
  import opened VlessModel

  /** What one receive yields; `Silence` is its timeout. */
  datatype Received = Chunk(data: bytes) | Disconnect | Silence

  /** `expired`: the prefetch window, if one is open, is over when this turn starts. */
  datatype Turn = Turn(expired: bool, got: Received)

  datatype Reason = BadVersion | TooLarge | TimedOut | Disconnected

  datatype Outcome =
    | Accepted(command: byte, address: Address, port: nat, payload: bytes, headerBytes: nat, id: Option<bytes>)
    | Rejected(reason: Reason)
    | Waiting

  datatype Options = Options(prefetch: bool, includeId: bool)

  /** The prefetched payload cannot get more useful: it is no TLS handshake, or
      holds its first record entirely. */
  predicate Complete(payload: bytes)
  {
    || (payload != [] && (payload[0] != 0x16 || (|payload| >= 2 && payload[1] != 0x03)))
    || (|payload| >= 5 && |payload| >= 5 + U16(payload[3], payload[4]))
  }

  function Accept(buffer: bytes, p: Parsed, includeId: bool): Outcome
    requires p.Ok?
  {
    Accepted(p.command, p.address, p.port, p.payload, |buffer|, if includeId then Identity(buffer) else None)
  }

  function Collect(buffer: bytes, turns: seq<Turn>, o: Options, idna: Codec): Outcome
    decreases |turns|
  {
    if o.includeId && buffer != [] && buffer[0] != 0 then Rejected(BadVersion)
    else
      var p := Parse(buffer, idna);
      if p.Ok? && (!o.prefetch || Complete(p.payload)) then Accept(buffer, p, o.includeId)
      else if p.Bad? && |buffer| >= HEADER_MAX then Rejected(TooLarge)
      else if turns == [] then Waiting
      else if p.Ok? && turns[0].expired then Accept(buffer, p, o.includeId)
      else
        match turns[0].got
        case Silence => if p.Ok? then Accept(buffer, p, false) else Rejected(TimedOut)
        case Disconnect => Rejected(Disconnected)
        case Chunk(data) => Collect(buffer + data, turns[1..], o, idna)
  }

  // ------------------------------------------------------------------ soundness

  predicate AllChunks(turns: seq<Turn>)
  {
    forall k :: 0 <= k < |turns| ==> turns[k].got.Chunk?
  }

  function Bytes(turns: seq<Turn>): bytes
    requires AllChunks(turns)
  {
    if turns == [] then [] else turns[0].got.data + Bytes(turns[1..])
  }

  /** The buffer after the first `n` receives, all of them data. */
  function BufferAfter(early: bytes, turns: seq<Turn>, n: nat): bytes
    requires n <= |turns| && AllChunks(turns[..n])
  {
    early + Bytes(turns[..n])
  }

  lemma BufferStep(early: bytes, turns: seq<Turn>, n: nat)
    requires 0 < n <= |turns| && AllChunks(turns[..n])
    ensures turns[0].got.Chunk? && AllChunks(turns[1..][..n - 1])
    ensures BufferAfter(early, turns, n) == BufferAfter(early + turns[0].got.data, turns[1..], n - 1)
  {
    assert turns[..n][0] == turns[0];
    assert turns[..n][1..] == turns[1..][..n - 1];
    assert early + (turns[0].got.data + Bytes(turns[1..][..n - 1]))
        == early + turns[0].got.data + Bytes(turns[1..][..n - 1]);
  }

  /** `out` accepts what `buffer` parses to, and charges for exactly that. */
  predicate Accepts(out: Outcome, buffer: bytes, o: Options, idna: Codec)
  {
    && out.Accepted? && Parse(buffer, idna) == Ok(out.command, out.address, out.port, out.payload)
    && out.headerBytes == |buffer|
    && (o.includeId ==> |buffer| > 0 && buffer[0] == 0)
    && (out.id.Some? ==> o.includeId && out.id == Identity(buffer))
    && (o.includeId && !o.prefetch ==> out.id.Some?)
  }

  /** An accepted request is what some received prefix parses to, and it is charged
      for exactly that prefix. Holds for every option, timeout and split. */
  lemma {:induction false} AcceptedIsReceived(early: bytes, turns: seq<Turn>, o: Options, idna: Codec)
    returns (n: nat)
    requires Collect(early, turns, o, idna).Accepted?
    ensures n <= |turns| && AllChunks(turns[..n])
    ensures Accepts(Collect(early, turns, o, idna), BufferAfter(early, turns, n), o, idna)
    decreases |turns|
  {
    var here := AcceptsHere(early, turns, o, idna);
    if here {
      n := 0;
      StartsHere(early, turns);
    } else {
      var m := AcceptedIsReceived(early + turns[0].got.data, turns[1..], o, idna);
      n := m + 1;
      PrefixGrows(early, turns, m);
    }
  }

  lemma StartsHere(early: bytes, turns: seq<Turn>)
    ensures turns[0..] == turns && AllChunks(turns[..0]) && BufferAfter(early, turns, 0) == early
  {
    assert turns[..0] == [];
  }

  lemma PrefixGrows(early: bytes, turns: seq<Turn>, m: nat)
    requires m < |turns| && turns[0].got.Chunk? && AllChunks(turns[1..][..m])
    ensures AllChunks(turns[..m + 1])
    ensures BufferAfter(early, turns, m + 1) == BufferAfter(early + turns[0].got.data, turns[1..], m)
  {
    assert turns[..m + 1] == [turns[0]] + turns[1..][..m];
    BufferStep(early, turns, m + 1);
  }

  /** Whether the collector is done with this buffer or reads on. */
  lemma AcceptsHere(buffer: bytes, turns: seq<Turn>, o: Options, idna: Codec) returns (here: bool)
    requires Collect(buffer, turns, o, idna).Accepted?
    ensures here ==> Accepts(Collect(buffer, turns, o, idna), buffer, o, idna)
    ensures !here ==> turns != [] && turns[0].got.Chunk?
    ensures !here ==> Collect(buffer, turns, o, idna) == Collect(buffer + turns[0].got.data, turns[1..], o, idna)
  {
    var p := Parse(buffer, idna);
    here := p.Ok? && (!o.prefetch || Complete(p.payload) || turns == [] || turns[0].expired || !turns[0].got.Chunk?);
  }

  lemma {:induction false} BytesSplit(turns: seq<Turn>, n: nat)
    requires AllChunks(turns) && n <= |turns|
    ensures Bytes(turns) == Bytes(turns[..n]) + Bytes(turns[n..])
  {
    if n == 0 {
      assert turns[..0] == [] && turns[0..] == turns;
    } else {
      BytesSplit(turns[1..], n - 1);
      assert turns[..n][1..] == turns[1..][..n - 1];
      assert turns[n..] == turns[1..][n - 1..];
    }
  }

  lemma BufferGrows(early: bytes, turns: seq<Turn>, m: nat, n: nat) returns (more: bytes)
    requires m <= n <= |turns| && AllChunks(turns[..n])
    ensures AllChunks(turns[..m])
    ensures BufferAfter(early, turns, n) == BufferAfter(early, turns, m) + more
  {
    BytesSplit(turns[..n], m);
    assert turns[..n][..m] == turns[..m];
    more := Bytes(turns[..n][m..]);
    Associate(early, Bytes(turns[..m]), more);
  }

  /** A request that some received prefix shows to be malformed is never accepted,
      however the rest arrives. */
  lemma MalformedNeverAccepted(early: bytes, turns: seq<Turn>, k: nat, o: Options, idna: Codec)
    requires k <= |turns| && AllChunks(turns[..k])
    requires Parse(BufferAfter(early, turns, k), idna) == Bad(Malformed)
    ensures !Collect(early, turns, o, idna).Accepted?
  {
    if Collect(early, turns, o, idna).Accepted? {
      var n := AcceptedIsReceived(early, turns, o, idna);
      if n <= k {
        var more := BufferGrows(early, turns, n, k);
        ParseExtends(BufferAfter(early, turns, n), more, idna);
      } else {
        var more := BufferGrows(early, turns, k, n);
        MalformedIsFinal(BufferAfter(early, turns, k), more, idna);
      }
      assert false;
    }
  }

  // --------------------------------------------------------------- completeness

  const DIRECT := Options(false, false)

  /** Any split of a well-formed request is accepted as soon as it is complete, and
      the payload handed on plus what is still to come is exactly what follows it. */
  lemma {:induction false} SplitIsAccepted(
    r: Request, early: bytes, turns: seq<Turn>, tail: bytes, o: Options, idna: Codec)
    returns (n: nat)
    requires RequestOk(r, idna) && AllChunks(turns) && !o.prefetch && (o.includeId ==> r.version == 0)
    requires early + Bytes(turns) == Encode(r, idna) + tail
    ensures n <= |turns|
    ensures var out := Collect(early, turns, o, idna);
      && out.Accepted? && out.command == 1 && out.address == AddressOf(r.target, idna) && out.port == r.port
      && out.payload + Bytes(turns[n..]) == tail
      && out.headerBytes + |Bytes(turns[n..])| == |Encode(r, idna)| + |tail|
      && out.id == if o.includeId then Some(r.id) else None
    decreases |turns|
  {
    var e := Encode(r, idna);
    FirstByte(r, idna, early, Bytes(turns), tail);
    if |early| >= |e| {
      n := 0;
      var payload := CutAfter(early, Bytes(turns), e, tail);
      ParseInvertsEncode(r, idna, payload);
      IdentityOfEncoded(r, idna, payload);
      assert turns[0..] == turns;
    } else {
      CutInside(early, Bytes(turns), e, tail);
      ProperPrefixIsIncomplete(r, idna, early);
      Associate(early, turns[0].got.data, Bytes(turns[1..]));
      var m := SplitIsAccepted(r, early + turns[0].got.data, turns[1..], tail, o, idna);
      n := m + 1;
      assert turns[n..] == turns[1..][m..];
    }
  }

  lemma FirstByte(r: Request, idna: Codec, early: bytes, rest: bytes, tail: bytes)
    requires RequestOk(r, idna) && early + rest == Encode(r, idna) + tail
    ensures early != [] ==> early[0] == r.version
  {
    EncodeLayout(r, idna, tail);
    if early != [] { assert (early + rest)[0] == early[0]; }
  }

  /** `early` holds all of `e`: what is over belongs to the tail. */
  lemma CutAfter(early: bytes, rest: bytes, e: bytes, tail: bytes) returns (payload: bytes)
    requires early + rest == e + tail && |early| >= |e|
    ensures early == e + payload && payload + rest == tail
  {
    payload := early[|e|..];
    assert early[..|e|] == (early + rest)[..|e|] == (e + tail)[..|e|] == e;
    assert payload + rest == (early + rest)[|e|..] == (e + tail)[|e|..] == tail;
  }

  /** `early` holds only part of `e`. */
  lemma CutInside(early: bytes, rest: bytes, e: bytes, tail: bytes)
    requires early + rest == e + tail && |early| < |e|
    ensures early <= e && early != e && rest != []
  {
    assert early == (early + rest)[..|early|] == (e + tail)[..|early|] == e[..|early|];
    assert |early + rest| >= |e|;
  }

  // ------------------------------------------------------------------- prefetching

  /** The acceptance of `r` with the payload received so far. */
  function AcceptedWith(r: Request, payload: bytes, withId: bool, idna: Codec): Outcome
    requires RequestOk(r, idna)
  {
    Accepted(1, AddressOf(r.target, idna), r.port, payload, |Encode(r, idna)| + |payload|,
             if withId then Some(r.id) else None)
  }

  /** With prefetching a well-formed request is accepted at the first moment its payload
      is complete or the window is over, with the payload received by then; until then
      the collector waits, and it never refuses. */
  lemma {:induction false} PrefetchWaitsForPayload(
    r: Request, early: bytes, turns: seq<Turn>, tail: bytes, o: Options, idna: Codec)
    returns (n: nat, payload: bytes)
    requires RequestOk(r, idna) && AllChunks(turns) && o.prefetch && (o.includeId ==> r.version == 0)
    requires early + Bytes(turns) == Encode(r, idna) + tail
    ensures n <= |turns| && payload + Bytes(turns[n..]) == tail
    ensures BufferAfter(early, turns, n) == Encode(r, idna) + payload
    ensures Collect(early, turns, o, idna) ==
      if Complete(payload) || (n < |turns| && turns[n].expired) then AcceptedWith(r, payload, o.includeId, idna)
      else Waiting
    ensures Complete(payload) || n == |turns| || turns[n].expired
    decreases |turns|
  {
    var e := Encode(r, idna);
    if |early| >= |e| {
      payload := CutAfter(early, Bytes(turns), e, tail);
      PrefetchAt(r, early, turns, payload, o, idna);
      if Complete(payload) || turns == [] || turns[0].expired {
        n := 0;
        StartsHere(early, turns);
        return;
      }
    } else {
      PrefetchBefore(r, early, turns, tail, o, idna);
    }
    Associate(early, turns[0].got.data, Bytes(turns[1..]));
    var m;
    m, payload := PrefetchWaitsForPayload(r, early + turns[0].got.data, turns[1..], tail, o, idna);
    n := m + 1;
    ContinuesHere(early, turns, n);
  }

  /** Before the request is complete the collector reads on. */
  lemma PrefetchBefore(r: Request, early: bytes, turns: seq<Turn>, tail: bytes, o: Options, idna: Codec)
    requires RequestOk(r, idna) && AllChunks(turns) && (o.includeId ==> r.version == 0)
    requires early + Bytes(turns) == Encode(r, idna) + tail && |early| < |Encode(r, idna)|
    ensures turns != []
    ensures Collect(early, turns, o, idna) == Collect(early + turns[0].got.data, turns[1..], o, idna)
  {
    FirstByte(r, idna, early, Bytes(turns), tail);
    CutInside(early, Bytes(turns), Encode(r, idna), tail);
    ProperPrefixIsIncomplete(r, idna, early);
  }

  /** The collector's next move once the request is in the buffer. */
  lemma PrefetchAt(r: Request, buffer: bytes, turns: seq<Turn>, payload: bytes, o: Options, idna: Codec)
    requires RequestOk(r, idna) && AllChunks(turns) && o.prefetch && (o.includeId ==> r.version == 0)
    requires buffer == Encode(r, idna) + payload
    ensures Collect(buffer, turns, o, idna) ==
      if Complete(payload) || (turns != [] && turns[0].expired) then AcceptedWith(r, payload, o.includeId, idna)
      else if turns == [] then Waiting
      else Collect(buffer + turns[0].got.data, turns[1..], o, idna)
  {
    ParseInvertsEncode(r, idna, payload);
    IdentityOfEncoded(r, idna, payload);
    FirstByte(r, idna, buffer, [], payload);
    assert buffer + [] == buffer;
  }

  lemma ContinuesHere(early: bytes, turns: seq<Turn>, n: nat)
    requires 0 < n <= |turns| && AllChunks(turns)
    ensures turns[n..] == turns[1..][n - 1..]
    ensures AllChunks(turns[..n])
    ensures BufferAfter(early, turns, n) == BufferAfter(early + turns[0].got.data, turns[1..], n - 1)
  {
    BufferStep(early, turns, n);
  }

  /** Collecting goes on where it stopped to wait. */
  lemma {:induction false} CollectGoesOn(early: bytes, turns: seq<Turn>, last: Turn, o: Options, idna: Codec)
    requires AllChunks(turns) && Collect(early, turns, o, idna).Waiting?
    ensures Collect(early, turns + [last], o, idna) == Collect(early + Bytes(turns), [last], o, idna)
    decreases |turns|
  {
    if turns == [] {
      assert turns + [last] == [last] && early + Bytes(turns) == early;
    } else {
      assert (turns + [last])[0] == turns[0] && (turns + [last])[1..] == turns[1..] + [last];
      CollectGoesOn(early + turns[0].got.data, turns[1..], last, o, idna);
      Associate(early, turns[0].got.data, Bytes(turns[1..]));
    }
  }

  /** A prefetch that is still waiting ends with the window, with a silence (which hands
      on no identity), or with a disconnect, which loses the complete request. */
  lemma PrefetchEnds(
    r: Request, early: bytes, turns: seq<Turn>, payload: bytes, last: Turn, o: Options, idna: Codec)
    requires RequestOk(r, idna) && AllChunks(turns) && o.prefetch && (o.includeId ==> r.version == 0)
    requires early + Bytes(turns) == Encode(r, idna) + payload
    requires Collect(early, turns, o, idna).Waiting? && !last.got.Chunk?
    ensures Collect(early, turns + [last], o, idna) ==
      if !last.expired && last.got.Disconnect? then Rejected(Disconnected)
      else AcceptedWith(r, payload, o.includeId && last.expired, idna)
  {
    CollectGoesOn(early, turns, last, o, idna);
    var n, rest := PrefetchWaitsForPayload(r, early, turns, payload, o, idna);
    assert turns[|turns|..] == [] && rest + [] == rest;
    ParseInvertsEncode(r, idna, payload);
    IdentityOfEncoded(r, idna, payload);
    FirstByte(r, idna, early + Bytes(turns), [], payload);
    assert (early + Bytes(turns)) + [] == early + Bytes(turns);
  }

  // --------------------------------------------------------------------- the verdict

  /** Whether a client is accepted depends on the bytes it sends and not on how
      they were cut; one that is not is still waited for, or is over the limit. */
  lemma VerdictIgnoresSplit(early: bytes, turns: seq<Turn>, idna: Codec)
    requires AllChunks(turns)
    ensures var out := Collect(early, turns, DIRECT, idna);
            var all := early + Bytes(turns);
      && (out.Accepted? <==> Parse(all, idna).Ok?)
      && (!out.Accepted? ==> out == if |all| >= HEADER_MAX then Rejected(TooLarge) else Waiting)
  {
    var all := early + Bytes(turns);
    if Parse(all, idna).Ok? {
      var r := ParsedIsEncoded(all, idna);
      var n := SplitIsAccepted(r, early, turns, Parse(all, idna).payload, DIRECT, idna);
    } else {
      NotAccepted(early, turns, idna);
    }
  }

  lemma {:induction false} NotAccepted(early: bytes, turns: seq<Turn>, idna: Codec)
    requires AllChunks(turns) && Parse(early + Bytes(turns), idna).Bad?
    ensures Collect(early, turns, DIRECT, idna)
         == if |early| + |Bytes(turns)| >= HEADER_MAX then Rejected(TooLarge) else Waiting
    decreases |turns|
  {
    if Parse(early, idna).Ok? {
      ParseExtends(early, Bytes(turns), idna);
      assert false;
    } else if turns == [] {
      assert early + Bytes(turns) == early;
    } else if |early| < HEADER_MAX {
      assert early + turns[0].got.data + Bytes(turns[1..]) == early + Bytes(turns);
      NotAccepted(early + turns[0].got.data, turns[1..], idna);
    }
  }
}
