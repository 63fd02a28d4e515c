/** What the two relay pumps must do, one frame at a time: the semantics the burst loop
    and the buffer-detaching reader refine (`relay_client_to_tcp`, `relay_tcp_to_client`). */
module PumpModel {
  import opened Common
  import opened QuotaModel

  /** Where an error or a cancellation strikes, if the turn gets there. */
  datatype Fault = Fine | AtRead | AtCommit | AtThrottle | AtWrite

  /** `over` is what was recorded, or waits in the gate, beyond what was forwarded. */
  datatype End = Finished | Open | Denied(over: int) | Broken(over: int)

  function Over(end: End): int
  {
    match end
    case Denied(over) => over
    case Broken(over) => over
    case _ => 0
  }

  // ------------------------------------------------------------------- accounting

  datatype Admission =
    | Admitted(gate: Gate, recorded: nat)
    | Refused(gate: Gate, over: int)
    | Dropped(gate: Gate, over: int)

  /** The verdict on one frame. A batch that is refused, or whose commit is cut off, is
      charged to nobody. */
  function Admit(g: Gate, nbytes: nat, now: real, allowed: bool, cut: bool): Admission
    requires GateOk(g)
  {
    var (h, out) := Stage(g, nbytes, now);
    if out < 0 then Refused(h, 0)
    else if out == 0 then Admitted(h, 0)
    else if cut then Dropped(h, nbytes - out)
    else if allowed then Admitted(h, out)
    else Refused(h.(ok := false), nbytes - out)
  }

  lemma AdmitConserves(g: Gate, nbytes: nat, now: real, allowed: bool, cut: bool)
    requires GateOk(g) && nbytes > 0
    ensures var a := Admit(g, nbytes, now, allowed, cut);
      && GateOk(a.gate)
      && match a
         case Admitted(h, recorded) => g.ok && h.ok && recorded + h.pending == g.pending + nbytes
         case Refused(h, over) => !h.ok && h.pending == g.pending + over && over <= 0
         case Dropped(h, over) => h.pending == g.pending + over && over <= 0
  {
    StageConserves(g, nbytes, now);
  }

  /** The flush that ends every direction: (gate, charged, lost). */
  function Flush(g: Gate, allowed: bool): (Gate, nat, nat)
  {
    if g.pending == 0 then (g, 0, 0)
    else if allowed then (g.(pending := 0), g.pending, 0)
    else (g.(pending := 0, ok := false), 0, g.pending)
  }

  // ----------------------------------------------------------------------- upload

  /** A failed receive ends the direction like a disconnect. */
  datatype Message =
    | Disconnect
    | Binary(data: bytes)
    | Text(encoded: bytes)

  function Payload(m: Message): bytes
  {
    match m
    case Disconnect => []
    case Binary(d) => d
    case Text(e) => e
  }

  /** A message together with what the world answers while it is handled: the
      clock at staging, the usage record's verdict if a batch is committed, whether
      the message was already queued when the burst asked for it, and whether the
      write buffer is full or the link speed-limited afterwards. */
  datatype Turn = Turn(
    msg: Message, now: real, allowed: bool,
    queued: bool, pressure: bool, limited: bool, fault: Fault)

  datatype Sent = Sent(written: bytes, recorded: nat, gate: Gate, end: End)

  function Drained(t: Turn, written: bytes, recorded: nat, g: Gate): Sent
  {
    Sent(written, recorded, g, if t.pressure && t.fault.AtWrite? then Broken(0) else Open)
  }

  /** What one message adds to the stream, and how it ends the direction, if it does. */
  function Handle(g: Gate, t: Turn): Sent
    requires GateOk(g)
  {
    var data := Payload(t.msg);
    if t.msg.Disconnect? then Sent([], 0, g, Finished)
    else if data == [] then Drained(t, [], 0, g)
    else
      match Admit(g, |data|, t.now, t.allowed, t.fault.AtCommit?)
      case Refused(h, over) => Sent([], 0, h, Denied(over))
      case Dropped(h, over) => Sent([], 0, h, Broken(over))
      case Admitted(h, recorded) =>
        if t.limited && t.fault.AtThrottle? then Sent([], recorded, h, Broken(|data|))
        else Drained(t, data, recorded, h)
  }

  lemma HandleConserves(g: Gate, t: Turn)
    requires GateOk(g)
    ensures var s := Handle(g, t);
      && GateOk(s.gate)
      && s.recorded + s.gate.pending == g.pending + |s.written| + Over(s.end)
      && (s.written == [] || s.written == Payload(t.msg))
      && (s.end.Open? ==> s.written == Payload(t.msg) && !t.msg.Disconnect?)
      && (s.end.Finished? ==> t.msg.Disconnect? && s.written == [])
      && (s.end.Denied? ==> !s.gate.ok && s.written == [] && Payload(t.msg) != [])
      && (!g.ok ==> s.written == [] && s.recorded == 0)
  {
    var data := Payload(t.msg);
    if data != [] { AdmitConserves(g, |data|, t.now, t.allowed, t.fault.AtCommit?); }
  }

  function Prepend(written: bytes, recorded: nat, s: Sent): Sent
  {
    s.(written := written + s.written, recorded := recorded + s.recorded)
  }

  /** Frames one by one, in order, until something ends the direction. */
  function Direct(g: Gate, turns: seq<Turn>): Sent
    requires GateOk(g)
    decreases |turns|
  {
    if turns == [] then Sent([], 0, g, Open)
    else
      HandleConserves(g, turns[0]);
      var s := Handle(g, turns[0]);
      if s.end.Open? then Prepend(s.written, s.recorded, Direct(s.gate, turns[1..])) else s
  }

  function Payloads(turns: seq<Turn>): bytes
  {
    if turns == [] then [] else Payload(turns[0].msg) + Payloads(turns[1..])
  }

  /** The bytes written are the payloads of the messages before the one that ended
      the direction, all of them and in order; only a failed drain ends it after the
      payload was written. */
  lemma {:induction false} WritesAPrefix(g: Gate, turns: seq<Turn>) returns (k: nat)
    requires GateOk(g)
    ensures k <= |turns| && Direct(g, turns).written == Payloads(turns[..k])
    ensures match Direct(g, turns).end
            case Open => k == |turns|
            case Finished => k < |turns| && turns[k].msg.Disconnect?
            case Denied(_) => k < |turns| && Payload(turns[k].msg) != []
            case Broken(_) =>
              || (k < |turns| && Payload(turns[k].msg) != [] && !turns[k].fault.Fine?)
              || (0 < k && turns[k - 1].pressure && turns[k - 1].fault.AtWrite?)
    ensures forall i :: 0 <= i < k ==> !turns[i].msg.Disconnect?
    decreases |turns|
  {
    k := 0;
    if turns != [] {
      HandleConserves(g, turns[0]);
      var s := Handle(g, turns[0]);
      if s.end.Open? {
        var m := WritesAPrefix(s.gate, turns[1..]);
        k := m + 1;
        assert turns[..k][1..] == turns[1..][..m];
      } else {
        k := EndsHere(g, turns);
      }
    }
  }

  lemma EndsHere(g: Gate, turns: seq<Turn>) returns (k: nat)
    requires GateOk(g) && turns != [] && !Handle(g, turns[0]).end.Open?
    ensures k <= 1 && Handle(g, turns[0]).written == Payloads(turns[..k])
    ensures match Handle(g, turns[0]).end
            case Finished => k == 0 && turns[0].msg.Disconnect?
            case Denied(_) => k == 0 && Payload(turns[0].msg) != []
            case _ =>
              && !turns[0].msg.Disconnect?
              && (k == 0 ==> Payload(turns[0].msg) != [] && !turns[0].fault.Fine?)
              && (k == 1 ==> turns[0].pressure && turns[0].fault.AtWrite?)
  {
    HandleConserves(g, turns[0]);
    var s := Handle(g, turns[0]);
    k := if s.end.Broken? && s.written == Payload(turns[0].msg) then 1 else 0;
    if k == 1 {
      assert turns[..1] == [turns[0]] && [turns[0]][1..] == [];
      assert Payloads(turns[..1]) == Payload(turns[0].msg) + Payloads([]);
    }
  }

  /** Written bytes are recorded or wait in the gate, up to the one frame the ending
      names; a gate that denied never writes again. */
  lemma {:induction false} WrittenIsAccounted(g: Gate, turns: seq<Turn>)
    requires GateOk(g)
    ensures var s := Direct(g, turns);
      && GateOk(s.gate)
      && s.recorded + s.gate.pending == g.pending + |s.written| + Over(s.end)
      && (s.end.Denied? ==> !s.gate.ok)
      && (!g.ok ==> s.written == [] && s.recorded == 0)
    decreases |turns|
  {
    if turns != [] {
      HandleConserves(g, turns[0]);
      var s := Handle(g, turns[0]);
      if s.end.Open? {
        WrittenIsAccounted(s.gate, turns[1..]);
        if !g.ok { NeverReopens(g, turns[0]); }
      }
    }
  }

  lemma NeverReopens(g: Gate, t: Turn)
    requires GateOk(g) && !g.ok
    ensures !Handle(g, t).gate.ok
  {
  }

  /** After the final flush of a fresh direction the record differs from what was
      written by exactly what the ending and the flush name. */
  lemma UploadTotals(g: Gate, turns: seq<Turn>, allowed: bool)
    requires GateOk(g) && g.pending == 0
    ensures var s := Direct(g, turns);
            var (h, charged, lost) := Flush(s.gate, allowed);
      && h.pending == 0
      && s.recorded + charged == |s.written| + Over(s.end) - lost
      && (s.recorded + charged == |s.written| <==> lost == Over(s.end))
  {
    WrittenIsAccounted(g, turns);
  }

  // --------------------------------------------------------------------- download

  const READ_MIN := 128 * 1024
  const READ_MAX := 8 * 1024 * 1024
  const BULK_TRIGGER := 128 * 1024
  const BULK_STREAK_TRIGGER := 2

  datatype Reader = Reader(buffer: bytes, eof: bool)

  /** What the target sends around one read, cut where the reader may look: `before` it
      starts, until its wait is over (`first`), and after that (`late`), which a
      coalescing read still sees. Whatever a read does not see arrives while its chunk is
      sent on. `closes` ends the stream. The rest are the answers to the chunk. */
  datatype Arrival = Arrival(
    before: bytes, first: bytes, late: bytes, closes: bool,
    now: real, allowed: bool, limited: bool, fault: Fault)

  function Pieces(a: Arrival): bytes { a.before + a.first + a.late }

  /** `feed_data` and `feed_eof`. */
  function Feed(r: Reader, data: bytes, closes: bool): Reader
  {
    if r.eof then r else Reader(r.buffer + data, closes)
  }

  predicate Waits(r: Reader) { r.buffer == [] && !r.eof }

  /** The reader as the read finds it, and what is still to arrive. */
  function Gather(r: Reader, a: Arrival, coalesce: bool): (Reader, bytes)
  {
    var r1 := Feed(r, a.before, a.closes && a.first + a.late == []);
    var r2 := if Waits(r1) then Feed(r1, a.first, a.closes && a.late == []) else r1;
    var rest := if Waits(r1) then a.late else a.first + a.late;
    if Waits(r2) || (coalesce && |r2.buffer| < READ_MIN && !r2.eof) then (Feed(r2, rest, a.closes), [])
    else (r2, rest)
  }

  lemma FeedInOrder(r: Reader, x: bytes, y: bytes, closes: bool)
    requires !r.eof
    ensures Feed(Feed(r, x, closes && y == []), y, closes) == Feed(r, x + y, closes)
  {
    assert r.buffer + x + y == r.buffer + (x + y);
    if y == [] { assert x + y == x; }
  }

  /** Whatever has arrived so far, the rest completes the turn. */
  lemma GatherKeepsOrder(r: Reader, a: Arrival, coalesce: bool)
    ensures var (seen, rest) := Gather(r, a, coalesce);
      && Feed(seen, rest, a.closes) == Feed(r, Pieces(a), a.closes)
      && (seen.eof ==> rest == [] || r.eof)
      && (r.eof ==> seen == r)
      && (Waits(seen) ==> rest == [])
  {
    if !r.eof {
      assert Pieces(a) == a.before + (a.first + a.late);
      FeedInOrder(r, a.before, a.first + a.late, a.closes);
      var r1 := Feed(r, a.before, a.closes && a.first + a.late == []);
      if !r1.eof { FeedInOrder(r1, a.first, a.late, a.closes); }
    }
  }

  /** One read: the chunk, and the reader once everything of this turn has arrived. */
  function Read(r: Reader, a: Arrival, coalesce: bool): (bytes, Reader)
  {
    var (seen, rest) := Gather(r, a, coalesce);
    var n := Min(|seen.buffer|, READ_MAX);
    (seen.buffer[..n], Feed(seen.(buffer := seen.buffer[n..]), rest, a.closes))
  }

  lemma CutThenFeed(seen: Reader, rest: bytes, closes: bool, n: nat)
    requires n <= |seen.buffer|
    ensures var left := Feed(seen.(buffer := seen.buffer[n..]), rest, closes);
      && seen.buffer[..n] + left.buffer == Feed(seen, rest, closes).buffer
      && left.eof == Feed(seen, rest, closes).eof
  {
    assert seen.buffer[..n] + seen.buffer[n..] == seen.buffer;
    assert seen.buffer[..n] + (seen.buffer[n..] + rest) == seen.buffer[..n] + seen.buffer[n..] + rest;
  }

  /** A read loses, repeats and reorders nothing, and an empty chunk that is not merely a
      longer wait is the end of the stream. */
  lemma ReadKeepsOrder(r: Reader, a: Arrival, coalesce: bool)
    ensures var (data, left) := Read(r, a, coalesce);
      && data + left.buffer == r.buffer + (if r.eof then [] else Pieces(a))
      && left.eof == (r.eof || a.closes)
      && |data| <= READ_MAX
      && (data == [] ==> left.buffer == [])
  {
    GatherKeepsOrder(r, a, coalesce);
    var (seen, rest) := Gather(r, a, coalesce);
    CutThenFeed(seen, rest, a.closes, Min(|seen.buffer|, READ_MAX));
  }

  /** An empty chunk is a wait that goes on and leaves the streak alone. */
  function NextStreak(streak: nat, nbytes: nat): nat
  {
    if nbytes == 0 then streak
    else if nbytes >= BULK_TRIGGER then Min(streak + 1, BULK_STREAK_TRIGGER + 2)
    else if nbytes < READ_MIN / 4 then Max(streak - 1, 0)
    else streak
  }

  /** `dropped` is the chunk that was read but not sent; `counted` is what the
      connection's byte counter gained. */
  datatype Received = Received(
    sent: bytes, dropped: bytes, counted: nat, recorded: nat, gate: Gate, end: End, reader: Reader)

  /** One chunk: sent on, or not. */
  function Forward(g: Gate, a: Arrival, data: bytes, left: Reader): Received
    requires GateOk(g)
  {
    match Admit(g, |data|, a.now, a.allowed, a.fault.AtCommit?)
    case Refused(h, over) => Received([], data, 0, 0, h, Denied(over), left)
    case Dropped(h, over) => Received([], data, 0, 0, h, Broken(over), left)
    case Admitted(h, recorded) =>
      if a.limited && a.fault.AtThrottle? then Received([], data, 0, recorded, h, Broken(|data|), left)
      else if a.fault.AtWrite? then Received([], data, |data|, recorded, h, Broken(|data|), left)
      else Received(data, [], |data|, recorded, h, Open, left)
  }

  lemma ForwardConserves(g: Gate, a: Arrival, data: bytes, left: Reader)
    requires GateOk(g) && data != []
    ensures var d := Forward(g, a, data, left);
      && GateOk(d.gate) && d.reader == left && d.sent + d.dropped == data
      && d.recorded + d.gate.pending == g.pending + |d.sent| + Over(d.end)
      && (d.end.Open? ==> d.dropped == []) && !d.end.Finished?
      && (d.counted == |d.sent| || (d.end.Broken? && d.counted == |d.sent| + |d.dropped|))
  {
    AdmitConserves(g, |data|, a.now, a.allowed, a.fault.AtCommit?);
  }

  /** One turn: a read that may fail, wait on, find the end of the stream, or bring a
      chunk to send on. */
  function TakeTurn(g: Gate, r: Reader, a: Arrival, streak: nat): Received
    requires GateOk(g)
  {
    if a.fault.AtRead? then Received([], [], 0, 0, g, Broken(0), r)
    else
      var (data, left) := Read(r, a, streak >= BULK_STREAK_TRIGGER);
      if data == [] then Received([], [], 0, 0, g, if left.eof then Finished else Open, left)
      else Forward(g, a, data, left)
  }

  /** What the turn brought; a failed read brings nothing. */
  function Brought(r: Reader, a: Arrival): bytes
  {
    if r.eof || a.fault.AtRead? then [] else Pieces(a)
  }

  /** What a turn keeps, rather than what it does. */
  ghost predicate Kept(d: Received, r: Reader, a: Arrival)
  {
    && d.sent + d.dropped + d.reader.buffer == r.buffer + Brought(r, a)
    && d.reader.eof == (r.eof || (a.closes && !a.fault.AtRead?))
    && (d.end.Open? ==> d.dropped == [] && !a.fault.AtRead?)
    && (d.end.Finished? ==> d.dropped == [] && d.reader == Reader([], true))
  }

  lemma TurnConserves(g: Gate, r: Reader, a: Arrival, streak: nat)
    requires GateOk(g)
    ensures var d := TakeTurn(g, r, a, streak);
      && GateOk(d.gate) && Kept(d, r, a)
      && d.recorded + d.gate.pending == g.pending + |d.sent| + Over(d.end)
      && (d.counted == |d.sent| || (d.end.Broken? && d.counted == |d.sent| + |d.dropped|))
  {
    if !a.fault.AtRead? {
      ReadKeepsOrder(r, a, streak >= BULK_STREAK_TRIGGER);
      var (data, left) := Read(r, a, streak >= BULK_STREAK_TRIGGER);
      if data != [] { ForwardConserves(g, a, data, left); }
    }
  }

  function Onto(first: Received, d: Received): Received
  {
    d.(sent := first.sent + d.sent, counted := first.counted + d.counted, recorded := first.recorded + d.recorded)
  }

  /** Chunk after chunk, until the stream ends or something ends the direction. */
  function Download(g: Gate, r: Reader, arrivals: seq<Arrival>, streak: nat): Received
    requires GateOk(g)
    decreases |arrivals|
  {
    if arrivals == [] then Received([], [], 0, 0, g, Open, r)
    else
      TurnConserves(g, r, arrivals[0], streak);
      var d := TakeTurn(g, r, arrivals[0], streak);
      if d.end.Open? then Onto(d, Download(d.gate, d.reader, arrivals[1..], NextStreak(streak, |d.sent|))) else d
  }

  /** What the target has sent over some turns; nothing follows its close. */
  function Stream(eof: bool, arrivals: seq<Arrival>): bytes
    decreases |arrivals|
  {
    if eof || arrivals == [] then [] else Pieces(arrivals[0]) + Stream(arrivals[0].closes, arrivals[1..])
  }

  /** `d` took the first `k` turns: what it sent, what it read but did not send, and what
      is still buffered are exactly what the target sent in them, in order. A direction
      that ends with the stream has sent all of it. */
  ghost predicate Forwards(d: Received, r: Reader, arrivals: seq<Arrival>, k: nat)
  {
    && k <= |arrivals|
    && d.sent + d.dropped + d.reader.buffer == r.buffer + Stream(r.eof, arrivals[..k])
    && (d.end.Open? ==> k == |arrivals| && d.dropped == [])
    && (d.end.Finished? ==> d.dropped == [] && d.reader.buffer == [] && d.reader.eof)
  }

  ghost predicate Chain(r: Reader, arrivals: seq<Arrival>, turns: seq<Received>)
    decreases |turns|
  {
    if turns == [] then arrivals == []
    else
      && arrivals != [] && Kept(turns[0], r, arrivals[0])
      && (turns[0].end.Open? ==> Chain(turns[0].reader, arrivals[1..], turns[1..]))
  }

  function Summed(g: Gate, r: Reader, turns: seq<Received>): Received
    decreases |turns|
  {
    if turns == [] then Received([], [], 0, 0, g, Open, r)
    else if turns[0].end.Open? then Onto(turns[0], Summed(turns[0].gate, turns[0].reader, turns[1..]))
    else turns[0]
  }

  lemma {:induction false} DownloadIsChain(g: Gate, r: Reader, arrivals: seq<Arrival>, streak: nat)
    returns (turns: seq<Received>)
    requires GateOk(g)
    ensures Chain(r, arrivals, turns) && Download(g, r, arrivals, streak) == Summed(g, r, turns)
    decreases |arrivals|
  {
    turns := [];
    if arrivals != [] {
      TurnConserves(g, r, arrivals[0], streak);
      var d := TakeTurn(g, r, arrivals[0], streak);
      var rest := [];
      if d.end.Open? { rest := DownloadIsChain(d.gate, d.reader, arrivals[1..], NextStreak(streak, |d.sent|)); }
      turns := [d] + rest;
      assert turns[1..] == rest;
    }
  }

  lemma {:induction false} ChainForwards(g: Gate, r: Reader, arrivals: seq<Arrival>, turns: seq<Received>)
    returns (k: nat)
    requires Chain(r, arrivals, turns)
    ensures Forwards(Summed(g, r, turns), r, arrivals, k)
    decreases |turns|
  {
    k := 0;
    if turns == [] {
      assert arrivals[..0] == [];
    } else {
      var d := turns[0];
      if d.end.Open? {
        var m := ChainForwards(d.gate, d.reader, arrivals[1..], turns[1..]);
        ForwardsMore(d, Summed(d.gate, d.reader, turns[1..]), r, arrivals, m);
        k := m + 1;
      } else {
        k := if arrivals[0].fault.AtRead? then 0 else 1;
        ForwardsLast(d, r, arrivals, k);
      }
    }
  }

  lemma DownloadForwardsTheStream(g: Gate, r: Reader, arrivals: seq<Arrival>, streak: nat) returns (k: nat)
    requires GateOk(g)
    ensures Forwards(Download(g, r, arrivals, streak), r, arrivals, k)
  {
    var turns := DownloadIsChain(g, r, arrivals, streak);
    k := ChainForwards(g, r, arrivals, turns);
  }

  lemma StreamCons(eof: bool, arrivals: seq<Arrival>, m: nat)
    requires m < |arrivals|
    ensures Stream(eof, arrivals[..m + 1])
         == if eof then [] else Pieces(arrivals[0]) + Stream(arrivals[0].closes, arrivals[1..][..m])
  {
    var now := arrivals[..m + 1];
    assert now[0] == arrivals[0] && now[1..] == arrivals[1..][..m];
  }

  lemma ForwardsMore(d: Received, rest: Received, r: Reader, arrivals: seq<Arrival>, m: nat)
    requires arrivals != [] && d.end.Open? && Kept(d, r, arrivals[0])
    requires Forwards(rest, d.reader, arrivals[1..], m)
    ensures Forwards(Onto(d, rest), r, arrivals, m + 1)
  {
    StreamCons(r.eof, arrivals, m);
    var later := Stream(d.reader.eof, arrivals[1..][..m]);
    Regroup(d.sent, rest.sent, rest.dropped, rest.reader.buffer);
    assert d.sent + (d.reader.buffer + later) == (d.sent + d.reader.buffer) + later;
    assert r.buffer + Brought(r, arrivals[0]) + later == r.buffer + (Brought(r, arrivals[0]) + later);
  }

  lemma ForwardsLast(d: Received, r: Reader, arrivals: seq<Arrival>, k: nat)
    requires arrivals != [] && !d.end.Open? && k == if arrivals[0].fault.AtRead? then 0 else 1
    requires Kept(d, r, arrivals[0])
    ensures Forwards(d, r, arrivals, k)
  {
    if k == 1 {
      StreamCons(r.eof, arrivals, 0);
      assert arrivals[1..][..0] == [];
    } else {
      assert arrivals[..0] == [];
    }
  }

  lemma Regroup(data: bytes, sent: bytes, dropped: bytes, buffer: bytes)
    ensures data + sent + dropped + buffer == data + (sent + dropped + buffer)
  {
  }

  /** Sent bytes are recorded or wait in the gate, up to the one chunk the ending names,
      and the connection counts what was sent, or one chunk more when sending it broke. */
  lemma {:induction false} DownloadIsAccounted(g: Gate, r: Reader, arrivals: seq<Arrival>, streak: nat)
    requires GateOk(g)
    ensures var d := Download(g, r, arrivals, streak);
      && GateOk(d.gate)
      && d.recorded + d.gate.pending == g.pending + |d.sent| + Over(d.end)
      && (d.counted == |d.sent| || (d.end.Broken? && d.counted == |d.sent| + |d.dropped|))
    decreases |arrivals|
  {
    if arrivals != [] {
      TurnConserves(g, r, arrivals[0], streak);
      var d := TakeTurn(g, r, arrivals[0], streak);
      if d.end.Open? { DownloadIsAccounted(d.gate, d.reader, arrivals[1..], NextStreak(streak, |d.sent|)); }
    }
  }

  /** After the final flush of a fresh direction the record differs from what was sent by
      exactly what the ending and the flush name. */
  lemma DownloadTotals(g: Gate, r: Reader, arrivals: seq<Arrival>, allowed: bool)
    requires GateOk(g) && g.pending == 0
    ensures var d := Download(g, r, arrivals, 0);
            var (h, charged, lost) := Flush(d.gate, allowed);
      && h.pending == 0
      && d.recorded + charged == |d.sent| + Over(d.end) - lost
      && (d.recorded + charged == |d.sent| <==> lost == Over(d.end))
  {
    DownloadIsAccounted(g, r, arrivals, 0);
  }
}
