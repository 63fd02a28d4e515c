/** The relay loops: bursts of queued frames up, whole read buffers down. */
module Pump {
  import opened Common
  import opened QuotaModel
  import opened PumpModel

  const BURST_MESSAGES := 32
  const BURST_BYTES := 4 * 1024 * 1024

  /** Stages one frame and commits a batch that is due. */
  method AccountFrame(g: Gate, nbytes: nat, now: real, allowed: bool, cut: bool) returns (a: Admission)
    requires GateOk(g) && nbytes > 0
    ensures a == Admit(g, nbytes, now, allowed, cut)
  {
    var (gate, batch) := Stage(g, nbytes, now);
    if batch < 0 { return Refused(gate, 0); }
    if batch > 0 {
      if cut { return Dropped(gate, nbytes - batch); }
      if !allowed { return Refused(gate.(ok := false), nbytes - batch); }
    }
    return Admitted(gate, batch);
  }

  /** `gate.flush()` in the `finally` of both directions. */
  method FlushGate(g: Gate, allowed: bool) returns (gate: Gate, charged: nat, lost: nat)
    ensures (gate, charged, lost) == Flush(g, allowed)
  {
    gate, charged, lost := g, 0, 0;
    if g.pending > 0 {
      var amount := g.pending;
      gate := gate.(pending := 0);
      if allowed { charged := amount; } else { gate, lost := gate.(ok := false), amount; }
    }
  }

  // ----------------------------------------------------------------------- upload

  method HandleMessage(g: Gate, t: Turn) returns (s: Sent)
    requires GateOk(g)
    ensures s == Handle(g, t)
  {
    if t.msg.Disconnect? { return Sent([], 0, g, Finished); }
    var data := if t.msg.Binary? then t.msg.data else t.msg.encoded;
    var gate, recorded := g, 0;
    if data != [] {
      var a := AccountFrame(g, |data|, t.now, t.allowed, t.fault.AtCommit?);
      match a
      case Refused(h, over) => return Sent([], 0, h, Denied(over));
      case Dropped(h, over) => return Sent([], 0, h, Broken(over));
      case Admitted(h, charged) =>
        gate, recorded := h, charged;
        if t.limited && t.fault.AtThrottle? { return Sent([], recorded, gate, Broken(|data|)); }
    }
    return Sent(data, recorded, gate, if t.pressure && t.fault.AtWrite? then Broken(0) else Open);
  }

  /** `so` was done before the message at `i`; `whole` is all the frame-by-frame loop does. */
  ghost predicate Reached(whole: Sent, so: Sent, turns: seq<Turn>, i: nat)
  {
    && i <= |turns| && GateOk(so.gate)
    && whole == if so.end.Open? then Prepend(so.written, so.recorded, Direct(so.gate, turns[i..])) else so
  }

  function Join(so: Sent, s: Sent): Sent
  {
    Sent(so.written + s.written, so.recorded + s.recorded, s.gate, s.end)
  }

  lemma ReachesNext(whole: Sent, so: Sent, turns: seq<Turn>, i: nat)
    requires i < |turns| && so.end.Open? && Reached(whole, so, turns, i)
    ensures Reached(whole, Join(so, Handle(so.gate, turns[i])), turns, i + 1)
  {
    HandleConserves(so.gate, turns[i]);
    assert turns[i..][0] == turns[i] && turns[i..][1..] == turns[i + 1..];
    var s := Handle(so.gate, turns[i]);
    if s.end.Open? {
      var rest := Direct(s.gate, turns[i + 1..]);
      assert so.written + (s.written + rest.written) == so.written + s.written + rest.written;
    }
  }

  /** One burst: the message at `from`, then whatever is already queued, until the
      write buffer fills, the link is throttled, or the burst is big enough. */
  method Burst(start: Sent, turns: seq<Turn>, from: nat, counted: nat, ghost whole: Sent)
    returns (i: nat, r: Sent, connBytes: nat)
    requires from < |turns| && start.end.Open? && Reached(whole, start, turns, from)
    requires counted >= |start.written|
    ensures from < i <= |turns| && i - from <= BURST_MESSAGES
    ensures Reached(whole, r, turns, i)
    ensures connBytes - |r.written| == counted - |start.written|
  {
    r, i, connBytes := start, from, counted;
    var burstMessages, burstBytes := 0, 0;
    var more := true;                 // the awaited receive, then receive_nowait
    while more
      invariant from <= i <= |turns| && Reached(whole, r, turns, i)
      invariant burstMessages == i - from <= BURST_MESSAGES
      invariant connBytes - |r.written| == counted - |start.written|
      invariant if more then r.end.Open? && i < |turns| && burstMessages < BURST_MESSAGES else burstMessages >= 1
      decreases |turns| - i, more
    {
      var t := turns[i];
      var s := HandleMessage(r.gate, t);
      ReachesNext(whole, r, turns, i);
      r := Join(r, s);
      i := i + 1;
      burstMessages := burstMessages + 1;
      connBytes, burstBytes := connBytes + |s.written|, burstBytes + |s.written|;
      if !r.end.Open? || t.pressure { break; }
      if t.limited || burstMessages >= BURST_MESSAGES || burstBytes >= BURST_BYTES { break; }
      more := i < |turns| && turns[i].queued;
    }
  }

  /** `relay_client_to_tcp`: an awaited receive starts a burst. However awaited and
      immediate receives mix, it writes what the frame-by-frame loop writes, and the
      gate is flushed on the way out. */
  method RelayClientToTcp(start: Gate, turns: seq<Turn>, counted: nat, flushAllowed: bool)
    returns (r: Sent, connBytes: nat, gate: Gate, flushed: nat, lost: nat, ghost bursts: seq<nat>)
    requires GateOk(start)
    ensures r == Direct(start, turns)
    ensures (gate, flushed, lost) == Flush(r.gate, flushAllowed)
    ensures connBytes == counted + |r.written|
    ensures forall k :: 0 <= k < |bursts| ==> 1 <= bursts[k] <= BURST_MESSAGES
    ensures SumN(bursts) <= |turns| && (r.end.Open? ==> SumN(bursts) == |turns|)
  {
    ghost var whole := Direct(start, turns);
    r, connBytes := Sent([], 0, start, Open), counted;
    var i := 0;
    bursts := [];
    assert turns[0..] == turns && Prepend([], 0, whole) == whole;
    while r.end.Open? && i < |turns|
      invariant 0 <= i <= |turns| && Reached(whole, r, turns, i)
      invariant SumN(bursts) == i && connBytes == counted + |r.written|
      invariant forall k :: 0 <= k < |bursts| ==> 1 <= bursts[k] <= BURST_MESSAGES
      decreases |turns| - i
    {
      ghost var from := i;
      i, r, connBytes := Burst(r, turns, i, connBytes, whole);
      SumNAppend(bursts, i - from);
      bursts := bursts + [i - from];
    }
    gate, flushed, lost := FlushGate(r.gate, flushAllowed);
  }

  function SumN(xs: seq<nat>): nat
  {
    if xs == [] then 0 else xs[0] + SumN(xs[1..])
  }

  lemma {:induction false} SumNAppend(xs: seq<nat>, x: nat)
    ensures SumN(xs + [x]) == SumN(xs) + x
  {
    if xs == [] {
      assert xs + [x] == [x];
    } else {
      assert (xs + [x])[1..] == xs[1..] + [x];
      SumNAppend(xs[1..], x);
    }
  }

  // --------------------------------------------------------------------- download

  class StreamBuffer {
    var buffer: bytes
    var eof: bool

    function View(): Reader
      reads this
    {
      Reader(buffer, eof)
    }

    constructor ()
      ensures View() == Reader([], false)
    {
      buffer, eof := [], false;
    }

    method Arrive(data: bytes, closes: bool)
      modifies this
      ensures View() == Feed(old(View()), data, closes)
    {
      if !eof { buffer, eof := buffer + data, closes; }
    }

    /** Everything the read gets to see; returns what is still on its way. */
    method Await(a: Arrival, coalesce: bool) returns (rest: bytes)
      modifies this
      ensures (View(), rest) == Gather(old(View()), a, coalesce)
    {
      Arrive(a.before, a.closes && a.first + a.late == []);
      rest := a.first + a.late;
      if buffer == [] && !eof {
        Arrive(a.first, a.closes && a.late == []);
        rest := a.late;
      }
      if (buffer == [] && !eof) || (coalesce && |buffer| < READ_MIN && !eof) {
        Arrive(rest, a.closes);
        rest := [];
      }
    }

    /** `_read_stream_chunk`: the whole buffer is detached when it fits, else cut. */
    method ReadChunk(a: Arrival, coalesce: bool) returns (data: bytes)
      modifies this
      ensures (data, View()) == Read(old(View()), a, coalesce)
    {
      var rest := Await(a, coalesce);
      var count := Min(|buffer|, READ_MAX);
      if count == |buffer| {
        data := buffer;
        assert buffer[..count] == buffer && buffer[count..] == [];
        buffer := [];
      } else {
        data := buffer[..count];
        buffer := buffer[count..];
      }
      Arrive(rest, a.closes);
    }
  }

  /** One chunk on its way to the client. */
  method ForwardChunk(g: Gate, a: Arrival, data: bytes, left: Reader) returns (d: Received)
    requires GateOk(g) && data != []
    ensures d == Forward(g, a, data, left)
  {
    var admission := AccountFrame(g, |data|, a.now, a.allowed, a.fault.AtCommit?);
    match admission
    case Refused(h, over) => return Received([], data, 0, 0, h, Denied(over), left);
    case Dropped(h, over) => return Received([], data, 0, 0, h, Broken(over), left);
    case Admitted(h, charged) =>
      if a.limited && a.fault.AtThrottle? { return Received([], data, 0, charged, h, Broken(|data|), left); }
      var counted := |data|;
      if a.fault.AtWrite? { return Received([], data, counted, charged, h, Broken(|data|), left); }
      return Received(data, [], counted, charged, h, Open, left);
  }

  method ServeTurn(g: Gate, reader: StreamBuffer, a: Arrival, bulkStreak: nat) returns (d: Received)
    requires GateOk(g)
    modifies reader
    ensures d == TakeTurn(g, old(reader.View()), a, bulkStreak) && reader.View() == d.reader
  {
    if a.fault.AtRead? { return Received([], [], 0, 0, g, Broken(0), reader.View()); }
    var data := reader.ReadChunk(a, bulkStreak >= BULK_STREAK_TRIGGER);
    if data == [] {
      return Received([], [], 0, 0, g, if reader.eof then Finished else Open, reader.View());
    }
    d := ForwardChunk(g, a, data, reader.View());
    ForwardConserves(g, a, data, reader.View());
  }

  /** `so` was done before the turn at `i`; `whole` is all the chunk-by-chunk loop does. */
  ghost predicate Passed(whole: Received, so: Received, arrivals: seq<Arrival>, i: nat, streak: nat)
  {
    && i <= |arrivals| && GateOk(so.gate)
    && whole == if so.end.Open? then Onto(so, Download(so.gate, so.reader, arrivals[i..], streak)) else so
  }

  lemma PassesTurn(whole: Received, so: Received, arrivals: seq<Arrival>, i: nat, streak: nat)
    requires i < |arrivals| && so.end.Open? && Passed(whole, so, arrivals, i, streak)
    ensures var d := TakeTurn(so.gate, so.reader, arrivals[i], streak);
      Passed(whole, Onto(so, d), arrivals, i + 1, NextStreak(streak, |d.sent|))
  {
    assert arrivals[i..][0] == arrivals[i] && arrivals[i..][1..] == arrivals[i + 1..];
    TurnConserves(so.gate, so.reader, arrivals[i], streak);
    var d := TakeTurn(so.gate, so.reader, arrivals[i], streak);
    if d.end.Open? {
      var rest := Download(d.gate, d.reader, arrivals[i + 1..], NextStreak(streak, |d.sent|));
      assert so.sent + (d.sent + rest.sent) == so.sent + d.sent + rest.sent;
    }
  }

  method PumpDown(start: Gate, reader: StreamBuffer, arrivals: seq<Arrival>) returns (d: Received)
    requires GateOk(start)
    modifies reader
    ensures d == Download(start, old(reader.View()), arrivals, 0) && reader.View() == d.reader
  {
    ghost var whole := Download(start, reader.View(), arrivals, 0);
    d := Received([], [], 0, 0, start, Open, reader.View());
    var bulkStreak: nat := 0;
    var i := 0;
    assert arrivals[0..] == arrivals && [] + whole.sent == whole.sent;
    while i < |arrivals| && d.end.Open?
      invariant 0 <= i <= |arrivals| && d.reader == reader.View()
      invariant Passed(whole, d, arrivals, i, bulkStreak)
      invariant d.end.Open? ==> d.dropped == []
      decreases |arrivals| - i
    {
      PassesTurn(whole, d, arrivals, i, bulkStreak);
      TurnConserves(d.gate, reader.View(), arrivals[i], bulkStreak);
      var turn := ServeTurn(d.gate, reader, arrivals[i], bulkStreak);
      bulkStreak := NextStreak(bulkStreak, |turn.sent|);
      d := Onto(d, turn);
      i := i + 1;
    }
    if d.end.Open? { assert arrivals[i..] == [] && d.sent + [] == d.sent; }
  }

  /** `relay_tcp_to_client`: two zero bytes, then the target's stream chunk by chunk, and
      the final flush. Nothing is read if the greeting cannot be sent. */
  method RelayTcpToClient(
    start: Gate, reader: StreamBuffer, arrivals: seq<Arrival>, connBytes: nat, greeted: bool, flushAllowed: bool)
    returns (out: bytes, counted: nat, d: Received, gate: Gate, flushed: nat, lost: nat)
    requires GateOk(start)
    modifies reader
    ensures d == if greeted then Download(start, old(reader.View()), arrivals, 0)
                 else Received([], [], 0, 0, start, Broken(0), old(reader.View()))
    ensures out == if greeted then [0, 0] + d.sent else []
    ensures reader.View() == d.reader && counted == connBytes + d.counted
    ensures (gate, flushed, lost) == Flush(d.gate, flushAllowed)
  {
    if greeted {
      d := PumpDown(start, reader, arrivals);
      out := [0, 0] + d.sent;
    } else {
      d, out := Received([], [], 0, 0, start, Broken(0), reader.View()), [];
    }
    counted := connBytes + d.counted;
    gate, flushed, lost := FlushGate(d.gate, flushAllowed);
  }
}
