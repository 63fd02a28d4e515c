/** The receive queue's byte counter and its pause/resume hysteresis
    (`turbo_ws_protocol.py`). */
module QueueModel {
  import opened Common

  // -------------------------------------------------------------- configuration

  /** `_env_int` for a variable that is absent or not a number (None). */
  function EnvInt(value: Option<int>, default: int, minimum: int, maximum: int): int
  {
    Max(minimum, Min(maximum, if value.Some? then value.value else default))
  }

  datatype Config = Config(high: int, low: int, bytesHigh: int, bytesLow: int)

  const MIB := 1024 * 1024

  function Configure(high: Option<int>, low: Option<int>, bytesHigh: Option<int>, bytesLow: Option<int>): Config
  {
    var h := EnvInt(high, 256, 8, 2048);
    var bh := EnvInt(bytesHigh, 64 * MIB, 4 * MIB, 512 * MIB);
    Config(h, EnvInt(low, 64, 1, h - 1), bh, Min(EnvInt(bytesLow, 16 * MIB, MIB, 128 * MIB), bh / 2))
  }

  predicate Sane(c: Config)
  {
    1 <= c.low < c.high && 0 < c.bytesLow < c.bytesHigh
  }

  /** No environment can configure a low mark at or above its high mark. */
  lemma ConfigureIsSane(high: Option<int>, low: Option<int>, bytesHigh: Option<int>, bytesLow: Option<int>)
    ensures Sane(Configure(high, low, bytesHigh, bytesLow))
  {
  }

  // ---------------------------------------------------------------------- queue

  /** A complete message, or the notice of a connect or disconnect, which carries no
      bytes. A text is counted by its encoded bytes on the way in and by its characters on
      the way out. */
  datatype Item =
    | Binary(data: bytes)
    | Text(encoded: bytes, chars: nat)
    | Notice

  predicate ItemOk(x: Item)
  {
    x.Text? ==> x.chars <= |x.encoded|
  }

  function SizeIn(x: Item): nat
  {
    match x
    case Binary(data) => |data|
    case Text(encoded, _) => |encoded|
    case Notice => 0
  }

  function SizeOut(x: Item): nat
  {
    match x
    case Binary(data) => |data|
    case Text(_, chars) => chars
    case Notice => 0
  }

  /** How many of the queued items are messages. */
  function Messages(queue: seq<Item>): nat
  {
    if queue == [] then 0 else Messages(queue[1..]) + (if queue[0].Notice? then 0 else 1)
  }

  /** `drift` is what past texts were counted too much: a history value, for the proofs. */
  datatype Rx = Rx(queue: seq<Item>, counter: nat, paused: bool, drift: nat)

  const FRESH := Rx([], 0, false, 0)

  function Load(queue: seq<Item>): nat
  {
    if queue == [] then 0 else SizeIn(queue[0]) + Load(queue[1..])
  }

  /** Only messages make reading pause; a notice is put into the queue without a look at
      the marks. */
  function Enqueue(s: Rx, x: Item, c: Config): Rx
  {
    var queue := s.queue + [x];
    var counter := s.counter + SizeIn(x);
    Rx(queue, counter, s.paused || (!x.Notice? && (|queue| >= c.high || counter >= c.bytesHigh)), s.drift)
  }

  function Dequeue(s: Rx, c: Config): Rx
    requires s.queue != []
  {
    var x := s.queue[0];
    var queue := s.queue[1..];
    var counter := Max(0, s.counter - SizeOut(x));
    Rx(queue, counter, s.paused && !(|queue| <= c.low && counter <= c.bytesLow),
       if ItemOk(x) then s.drift + SizeIn(x) - SizeOut(x) else s.drift)
  }

  predicate Inv(s: Rx, c: Config)
  {
    && (forall i :: 0 <= i < |s.queue| ==> ItemOk(s.queue[i]))
    && s.counter == Load(s.queue) + s.drift
    && (s.paused ==> |s.queue| > c.low || s.counter > c.bytesLow)
    && (!s.paused ==> Messages(s.queue) < c.high && s.counter < c.bytesHigh)
  }

  lemma {:induction false} LoadAppend(queue: seq<Item>, x: Item)
    ensures Load(queue + [x]) == Load(queue) + SizeIn(x)
    ensures Messages(queue + [x]) == Messages(queue) + (if x.Notice? then 0 else 1)
    ensures Messages(queue + [x]) <= |queue| + 1
  {
    if queue == [] {
      assert queue + [x] == [x];
    } else {
      assert (queue + [x])[1..] == queue[1..] + [x];
      LoadAppend(queue[1..], x);
    }
  }

  lemma EnqueueKeepsInv(s: Rx, x: Item, c: Config)
    requires Sane(c) && Inv(s, c) && ItemOk(x)
    ensures Inv(Enqueue(s, x, c), c)
  {
    LoadAppend(s.queue, x);
  }

  /** The clamp at zero never acts. */
  lemma DequeueKeepsInv(s: Rx, c: Config)
    requires Sane(c) && Inv(s, c) && s.queue != []
    ensures Inv(Dequeue(s, c), c)
    ensures Dequeue(s, c).counter == s.counter - SizeOut(s.queue[0])
  {
    MessagesAtMostAll(s.queue[1..]);
  }

  lemma {:induction false} MessagesAtMostAll(queue: seq<Item>)
    ensures Messages(queue) <= |queue|
  {
    if queue != [] { MessagesAtMostAll(queue[1..]); }
  }

  // ----------------------------------------------------------------------- runs

  datatype Event = Arrive(item: Item) | Take

  function Step(s: Rx, e: Event, c: Config): Rx
  {
    match e
    case Arrive(x) => Enqueue(s, x, c)
    case Take => if s.queue == [] then s else Dequeue(s, c)
  }

  function Run(s: Rx, events: seq<Event>, c: Config): Rx
    decreases |events|
  {
    if events == [] then s else Run(Step(s, events[0], c), events[1..], c)
  }

  predicate WellFormed(events: seq<Event>)
  {
    forall i :: 0 <= i < |events| && events[i].Arrive? ==> ItemOk(events[i].item)
  }

  predicate BinaryOnly(events: seq<Event>)
  {
    forall i :: 0 <= i < |events| && events[i].Arrive? ==> !events[i].item.Text?
  }

  lemma {:induction false} RunKeepsInv(s: Rx, events: seq<Event>, c: Config)
    requires Sane(c) && Inv(s, c) && WellFormed(events)
    ensures Inv(Run(s, events, c), c)
    decreases |events|
  {
    if events != [] {
      match events[0] {
        case Arrive(x) => EnqueueKeepsInv(s, x, c);
        case Take => if s.queue != [] { DequeueKeepsInv(s, c); }
      }
      RunKeepsInv(Step(s, events[0], c), events[1..], c);
    }
  }

  predicate AllBinary(queue: seq<Item>)
  {
    forall i :: 0 <= i < |queue| ==> !queue[i].Text?
  }

  lemma {:induction false} BinaryHasNoDrift(s: Rx, events: seq<Event>, c: Config)
    requires AllBinary(s.queue) && s.drift == 0 && BinaryOnly(events)
    ensures AllBinary(Run(s, events, c).queue) && Run(s, events, c).drift == 0
    decreases |events|
  {
    if events != [] { BinaryHasNoDrift(Step(s, events[0], c), events[1..], c); }
  }

  /** With binary frames the counter is the queued payload total, reading is paused
      only above a low mark (never with nothing queued), and is on only below both
      high marks. */
  lemma BinaryHysteresis(events: seq<Event>, c: Config)
    requires Sane(c) && BinaryOnly(events)
    ensures var s := Run(FRESH, events, c);
      && s.counter == Load(s.queue)
      && (s.paused ==> |s.queue| > c.low || Load(s.queue) > c.bytesLow)
      && (s.paused ==> s.queue != [])
      && (!s.paused ==> Messages(s.queue) < c.high && Load(s.queue) < c.bytesHigh)
  {
    RunKeepsInv(FRESH, events, c);
    BinaryHasNoDrift(FRESH, events, c);
  }

  /** With texts the counter runs ahead of the queue by what past texts were counted
      too much, and that is all that is known of it. */
  lemma TextCounter(events: seq<Event>, c: Config)
    requires Sane(c) && WellFormed(events)
    ensures var s := Run(FRESH, events, c);
      && s.counter == Load(s.queue) + s.drift
      && (s.paused && s.queue == [] ==> s.drift > c.bytesLow)
  {
    RunKeepsInv(FRESH, events, c);
  }

  predicate Stalled(s: Rx) { s.paused && s.queue == [] }

  /** Taking the last message of a paused queue leaves reading paused
      exactly when the accumulated difference exceeds the low byte mark. */
  lemma StallsExactlyByDrift(s: Rx, c: Config)
    requires Sane(c) && Inv(s, c) && |s.queue| == 1 && s.paused
    ensures Stalled(Dequeue(s, c)) <==> s.drift + (SizeIn(s.queue[0]) - SizeOut(s.queue[0])) > c.bytesLow
  {
    DequeueKeepsInv(s, c);
    assert s.queue[1..] == [];
  }

  /** Once the difference is above the low byte mark a pause never ends, whatever still
      arrives or is taken. */
  lemma {:induction false} PauseIsForever(s: Rx, events: seq<Event>, c: Config)
    requires Sane(c) && Inv(s, c) && WellFormed(events) && s.paused && s.drift > c.bytesLow
    ensures Run(s, events, c).paused && Run(s, events, c).drift > c.bytesLow
    decreases |events|
  {
    if events != [] {
      match events[0] {
        case Arrive(x) => EnqueueKeepsInv(s, x, c);
        case Take => if s.queue != [] { DequeueKeepsInv(s, c); }
      }
      PauseIsForever(Step(s, events[0], c), events[1..], c);
    }
  }

  /** An empty paused queue is in that state: reading is off for good. */
  lemma StallIsForever(s: Rx, events: seq<Event>, c: Config)
    requires Sane(c) && Inv(s, c) && WellFormed(events) && Stalled(s)
    ensures Run(s, events, c).paused
  {
    PauseIsForever(s, events, c);
  }

  /** One 64 MiB text of two-byte characters does it under the default marks. */
  lemma TextCanStall(encoded: bytes)
    requires |encoded| == 64 * MIB
    ensures Stalled(Run(FRESH, [Arrive(Text(encoded, 32 * MIB)), Take], Configure(None, None, None, None)))
  {
    var c := Configure(None, None, None, None);
    var e := [Arrive(Text(encoded, 32 * MIB)), Take];
    var s1 := Enqueue(FRESH, Text(encoded, 32 * MIB), c);
    assert e[1..] == [Take] && e[1..][1..] == [];
    assert s1.queue == [Text(encoded, 32 * MIB)] && s1.paused;
    assert Run(FRESH, e, c) == Run(s1, e[1..], c) == Run(Dequeue(s1, c), [], c);
  }

  /** Once nothing is queued, a binary connection reads again. */
  lemma {:induction false} DrainingResumes(s: Rx, c: Config)
    requires Sane(c) && Inv(s, c) && AllBinary(s.queue) && s.drift == 0
    ensures var t := Run(s, seq(|s.queue|, _ => Take), c); t.queue == [] && !t.paused && t.counter == 0
    decreases |s.queue|
  {
    var takes := seq(|s.queue|, _ => Take);
    if s.queue != [] {
      DequeueKeepsInv(s, c);
      assert takes[1..] == seq(|s.queue| - 1, _ => Take);
      DrainingResumes(Dequeue(s, c), c);
    }
  }
}
