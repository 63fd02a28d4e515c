/** The protocol object's queue, counter and transport switch. */
module ReceiveQueue {
  import opened Common
  import opened QueueModel

  class TurboQueue {
    const config: Config
    var queue: seq<Item>
    var queueBytes: nat
    var readPaused: bool
    var reading: bool             // whether the transport currently reads
    ghost var drift: nat

    ghost function View(): Rx
      reads this
    {
      Rx(queue, queueBytes, readPaused, drift)
    }

    ghost predicate Valid()
      reads this
    {
      Sane(config) && Inv(View(), config) && reading == !readPaused
    }

    constructor (high: Option<int>, low: Option<int>, bytesHigh: Option<int>, bytesLow: Option<int>)
      ensures Valid() && View() == FRESH && config == Configure(high, low, bytesHigh, bytesLow)
    {
      ConfigureIsSane(high, low, bytesHigh, bytesLow);
      config := Configure(high, low, bytesHigh, bytesLow);
      queue, queueBytes, readPaused, reading, drift := [], 0, false, true, 0;
    }

    /** `send_receive_event_to_app`; `decoded` is None for a text that is not UTF-8. */
    method SendReceiveEvent(frames: seq<bytes>, text: bool, decoded: Option<nat>, closeSent: bool)
      requires Valid() && (decoded.Some? ==> decoded.value <= |Flatten(frames)|)
      modifies this
      ensures Valid()
      ensures View() ==
        if closeSent || (text && decoded.None?) then old(View())
        else
          var data := Flatten(frames);
          Enqueue(old(View()), if text then Text(data, decoded.value) else Binary(data), config)
    {
      var data := if |frames| == 1 then frames[0] else Flatten(frames);
      if |frames| == 1 { assert frames[1..] == [] && Flatten(frames) == frames[0] + [] == frames[0]; }
      assert data == Flatten(frames);
      if closeSent { return; }
      var item := Binary(data);
      if text {
        if decoded.None? { return; }
        item := Text(data, decoded.value);
      }
      EnqueueKeepsInv(View(), item, config);
      queue := queue + [item];
      queueBytes := queueBytes + |data|;
      if !readPaused && (|queue| >= config.high || queueBytes >= config.bytesHigh) {
        readPaused := true;
        reading := false;
      }
    }

    /** A connect or disconnect, put into the queue past `send_receive_event_to_app`. */
    method PutNotice()
      requires Valid()
      modifies this
      ensures Valid() && View() == Enqueue(old(View()), Notice, config)
    {
      EnqueueKeepsInv(View(), Notice, config);
      queue := queue + [Notice];
    }

    /** `turbo_receive_nowait` with `_after_receive`. */
    method ReceiveNowait() returns (message: Option<Item>)
      requires Valid()
      modifies this
      ensures Valid()
      ensures old(queue) == [] ==> message.None? && View() == old(View())
      ensures old(queue) != [] ==> message == Some(old(queue)[0]) && View() == Dequeue(old(View()), config)
    {
      if queue == [] { return None; }
      DequeueKeepsInv(View(), config);
      var x := queue[0];
      queue := queue[1..];
      drift := drift + SizeIn(x) - SizeOut(x);
      queueBytes := Max(0, queueBytes - SizeOut(x));
      if readPaused && |queue| <= config.low && queueBytes <= config.bytesLow {
        readPaused := false;
        reading := true;
      }
      return Some(x);
    }
  }
}
