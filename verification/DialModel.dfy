/** Which connections the outbound connector makes for a session, and what it says on them
    (`outbound.py`). */
module DialModel {
  import opened Common
  import opened TargetModel
  import opened RouteModel
  import H = HandshakeModel

  /** Where a session wants to go, and the first packet it wants to send there. */
  datatype Target = Target(host: Text, port: nat, packet: bytes)

  /** What one connection attempt meets: no socket, a cancellation, or a proxy with which
      an upgrade to TLS may succeed, which answers `replies`, and which may take the first
      packet (`drains`). Where that stops short, the stream ends, time runs out, or
      (`cancelled`) the task is cancelled. */
  datatype Attempt =
    | NoSocket
    | CancelledDial
    | Answers(tls: bool, replies: bytes, drains: bool, cancelled: bool)

  datatype Event =
    | DialProxy(endpoint: Text, host: Text, port: int, tls: bool)
    | DialTarget(host: Text, port: int)
    | SocketOpened
    | Wrote(data: bytes)
    | SocketClosed

  datatype Ended = Connected(viaProxy: bool) | Unavailable | Failed | Stopped

  datatype Trace = Trace(events: seq<Event>, ended: Ended)

  /** One proxy, one way to reach it, one thing to ask. */
  datatype Plan = Plan(endpoint: Text, p: Proxy, coding: Coding, to: Target)

  /** The handshake spoken over one transport. */
  function Speak(x: Plan, tls: bool, a: Attempt): H.Talk
    requires a.Answers?
  {
    if tls && !a.tls then H.Talk([], H.Declined, 0)
    else if x.p.scheme == Socks5 then
      H.Socks(x.p.login, SocksTarget(x.coding, x.to.host, x.to.port), x.to.packet, a.drains, a.replies)
    else
      H.Connect(ConnectRequest(x.coding, x.p.login, x.to.host, x.to.port), x.to.packet, a.drains, a.replies)
  }

  predicate Opens(x: Plan, tls: bool, a: Attempt)
  {
    a.Answers? && Speak(x, tls, a).verdict.Tunnel?
  }

  predicate Stops(x: Plan, tls: bool, a: Attempt)
  {
    a.CancelledDial?
    || (a.Answers? && a.cancelled && (Speak(x, tls, a).verdict.Starved? || Speak(x, tls, a).verdict.Stuck?))
  }

  predicate Breaks(x: Plan, tls: bool, a: Attempt)
  {
    !Opens(x, tls, a) && !Stops(x, tls, a)
  }

  /** One dial through the proxy: the socket stays open for the tunnel only. */
  function Once(x: Plan, tls: bool, a: Attempt): Trace
  {
    var dial := DialProxy(x.endpoint, x.p.host, x.p.port, tls);
    if !a.Answers? then Trace([dial], if a.CancelledDial? then Stopped else Failed)
    else
      var said := Wrote(Speak(x, tls, a).written);
      if Opens(x, tls, a) then Trace([dial, SocketOpened, said], Connected(true))
      else Trace([dial, SocketOpened, said, SocketClosed], if Stops(x, tls, a) then Stopped else Failed)
  }

  /** Try the transports in order until one works or the task is cancelled. */
  function Tries(x: Plan, tls: seq<bool>, world: seq<Attempt>): Trace
    requires |world| >= |tls|
    decreases |tls|
  {
    if tls == [] then Trace([], Failed)
    else
      var t := Once(x, tls[0], world[0]);
      if !t.ended.Failed? then t
      else
        var rest := Tries(x, tls[1..], world[1..]);
        Trace(t.events + rest.events, rest.ended)
  }

  /** The CONNECT conventions tried for one proxy. */
  function Transports(p: Proxy): seq<bool>
  {
    match p.scheme
    case Https => if p.ip then [false, true] else [true, false]
    case _ => [false]
  }

  function Through(endpoint: Text, c: Config, to: Target, world: seq<Attempt>): Trace
    requires |world| >= 2
  {
    match c.urls.split(endpoint)
    case None => Trace([], Failed)
    case Some(p) => Tries(Plan(endpoint, p, c.coding, to), Transports(p), world)
  }

  /** A direct dial; all that matters is whether a socket comes of it. */
  function Plain(to: Target, a: Attempt): Trace
  {
    var dial := DialTarget(to.host, to.port);
    match a
    case Answers(_, _, _, _) => Trace([dial, SocketOpened], Connected(false))
    case CancelledDial => Trace([dial], Stopped)
    case NoSocket => Trace([dial], Failed)
  }

  /** The non-empty endpoints, each once, in order. */
  function Exact(endpoints: seq<Text>): seq<Text>
  {
    if endpoints == [] then []
    else
      var front, last := Exact(endpoints[..|endpoints| - 1]), endpoints[|endpoints| - 1];
      if last != "" && last !in front then front + [last] else front
  }

  /** `open_outbound` as the relay calls it: endpoints given, no link. */
  function Open(endpoints: seq<Text>, c: Config, to: Target, world: seq<Attempt>): Trace
    requires |world| >= 2
  {
    var exact := Exact(endpoints);
    if exact == [] then Plain(to, world[0])
    else if |exact| != 1 then Trace([], Unavailable)
    else Through(exact[0], c, to, world)
  }

  /** The first packet, unless a handshake has already passed it on. */
  function WithPacket(t: Trace, packet: bytes): Trace
  {
    if t.ended == Connected(false) && packet != [] then t.(events := t.events + [Wrote(packet)]) else t
  }

  /** The routing step of a session: resolve, open, and send what was not sent yet. */
  function Session(link: Option<Link>, requested: Text, c: Config, to: Target, world: seq<Attempt>): Trace
    requires |world| >= 2
  {
    match Resolve(link, requested, c)
    case Refused(_) => Trace([], Unavailable)
    case Direct => WithPacket(Open([], c, to, world), to.packet)
    case Via(exit) => WithPacket(Open([exit.endpoint], c, to, world), to.packet)
  }

  // ---------------------------------------------------------------------- sockets

  ghost predicate GoesDirect(t: Trace)
  {
    exists e :: e in t.events && e.DialTarget?
  }

  function Change(e: Event): int
  {
    match e
    case SocketOpened => 1
    case SocketClosed => -1
    case _ => 0
  }

  function OpenSockets(events: seq<Event>): int
  {
    if events == [] then 0 else OpenSockets(events[..|events| - 1]) + Change(events[|events| - 1])
  }

  lemma {:induction false} OpenSocketsAppend(a: seq<Event>, b: seq<Event>)
    ensures OpenSockets(a + b) == OpenSockets(a) + OpenSockets(b)
    decreases |b|
  {
    if b == [] {
      assert a + b == a;
    } else {
      var front := b[..|b| - 1];
      assert (a + b)[..|a + b| - 1] == a + front;
      OpenSocketsAppend(a, front);
    }
  }

  lemma OneMore(events: seq<Event>, e: Event)
    ensures OpenSockets(events + [e]) == OpenSockets(events) + Change(e)
  {
    assert (events + [e])[..|events|] == events;
  }

  lemma Count2(a: Event, b: Event)
    ensures OpenSockets([a]) == Change(a) && OpenSockets([a, b]) == Change(a) + Change(b)
  {
    OneMore([], a);
    OneMore([a], b);
    assert [] + [a] == [a] && [a] + [b] == [a, b];
  }

  lemma Count4(a: Event, b: Event, c: Event, d: Event)
    ensures OpenSockets([a, b, c]) == Change(a) + Change(b) + Change(c)
    ensures OpenSockets([a, b, c, d]) == Change(a) + Change(b) + Change(c) + Change(d)
  {
    Count2(a, b);
    OneMore([a, b], c);
    OneMore([a, b, c], d);
    assert [a, b] + [c] == [a, b, c] && [a, b, c] + [d] == [a, b, c, d];
  }

  lemma OnceOpensSockets(x: Plan, tls: bool, a: Attempt)
    ensures var t := Once(x, tls, a); OpenSockets(t.events) == if t.ended.Connected? then 1 else 0
  {
    var dial := DialProxy(x.endpoint, x.p.host, x.p.port, tls);
    Count2(dial, SocketOpened);
    if a.Answers? { Count4(dial, SocketOpened, Wrote(Speak(x, tls, a).written), SocketClosed); }
  }

  /** Exactly the returned connection is left open. */
  lemma {:induction false} TriesConserveSockets(x: Plan, tls: seq<bool>, world: seq<Attempt>)
    requires |world| >= |tls|
    ensures var t := Tries(x, tls, world); OpenSockets(t.events) == if t.ended.Connected? then 1 else 0
    decreases |tls|
  {
    if tls != [] {
      var t := Once(x, tls[0], world[0]);
      OnceOpensSockets(x, tls[0], world[0]);
      if t.ended.Failed? {
        TriesConserveSockets(x, tls[1..], world[1..]);
        OpenSocketsAppend(t.events, Tries(x, tls[1..], world[1..]).events);
      }
    }
  }

  /** Every dial goes to the one proxy, over one of its transports. */
  lemma {:induction false} TriesStayOnTheProxy(x: Plan, tls: seq<bool>, world: seq<Attempt>)
    requires |world| >= |tls|
    ensures forall e :: e in Tries(x, tls, world).events ==>
      !e.DialTarget? && (e.DialProxy? ==> e == DialProxy(x.endpoint, x.p.host, x.p.port, e.tls) && e.tls in tls)
    decreases |tls|
  {
    if tls != [] && Once(x, tls[0], world[0]).ended.Failed? {
      TriesStayOnTheProxy(x, tls[1..], world[1..]);
    }
  }

  /** The connector gives up exactly when every transport broke; a cancellation stops
      it at once, and a working transport after broken ones is used. */
  lemma {:induction false} TriesEnd(x: Plan, tls: seq<bool>, world: seq<Attempt>)
    requires |world| >= |tls|
    ensures var t := Tries(x, tls, world);
      && (t.ended.Failed? <==> forall i :: 0 <= i < |tls| ==> Breaks(x, tls[i], world[i]))
      && (t.ended == Connected(true) <==> exists i :: 0 <= i < |tls| && FirstToOpen(x, tls, world, i))
      && (t.ended.Connected? ==> t.ended.viaProxy)
      && !t.ended.Unavailable?
    decreases |tls|
  {
    if tls != [] && Breaks(x, tls[0], world[0]) {
      var w, u := world[1..], tls[1..];
      TriesEnd(x, u, w);
      forall i | 1 <= i < |tls| ensures world[i] == w[i - 1] && tls[i] == u[i - 1] {}
      if i :| 0 <= i < |tls| && FirstToOpen(x, tls, world, i) { Shift(x, tls, world, i - 1); }
      if k :| 0 <= k < |u| && FirstToOpen(x, u, w, k) { Shift(x, tls, world, k); }
    } else if tls != [] {
      if Opens(x, tls[0], world[0]) { assert FirstToOpen(x, tls, world, 0); }
      forall i | 0 < i < |tls| ensures !FirstToOpen(x, tls, world, i) {}
    }
  }

  predicate FirstToOpen(x: Plan, tls: seq<bool>, world: seq<Attempt>, i: nat)
    requires i < |tls| <= |world|
  {
    Opens(x, tls[i], world[i]) && forall j :: 0 <= j < i ==> Breaks(x, tls[j], world[j])
  }

  lemma Shift(x: Plan, tls: seq<bool>, world: seq<Attempt>, k: nat)
    requires k + 1 < |tls| <= |world| && Breaks(x, tls[0], world[0])
    ensures FirstToOpen(x, tls[1..], world[1..], k) <==> FirstToOpen(x, tls, world, k + 1)
  {
    assert forall j :: 0 <= j <= k ==> tls[1..][j] == tls[j + 1] && world[1..][j] == world[j + 1];
    if FirstToOpen(x, tls[1..], world[1..], k) {
      forall j | 1 <= j < k + 1 ensures Breaks(x, tls[j], world[j]) {
        assert Breaks(x, tls[1..][j - 1], world[1..][j - 1]);
      }
    }
  }

  // ------------------------------------------------------------------ what is said

  /** All that a plan ever says: the handshake of its scheme for its own target. */
  ghost predicate Says(x: Plan, said: bytes)
  {
    if x.p.scheme == Socks5 then
      said == [] || H.AsksFor(said, x.p.login, SocksTarget(x.coding, x.to.host, x.to.port), x.to.packet)
    else
      var request := ConnectRequest(x.coding, x.p.login, x.to.host, x.to.port);
      said == [] || said == request || said == request + x.to.packet
  }

  /** It has been said completely, with the first packet at the end. */
  ghost predicate SaysAll(x: Plan, said: bytes)
  {
    if x.p.scheme == Socks5 then
      H.AsksInFull(said, x.p.login, SocksTarget(x.coding, x.to.host, x.to.port), x.to.packet)
    else
      said == ConnectRequest(x.coding, x.p.login, x.to.host, x.to.port) + x.to.packet
  }

  lemma SpeaksForTarget(x: Plan, tls: bool, a: Attempt)
    requires a.Answers?
    ensures var t := Speak(x, tls, a); Says(x, t.written) && (t.verdict.Tunnel? ==> SaysAll(x, t.written))
  {
    H.SocksAsksForTarget(x.p.login, SocksTarget(x.coding, x.to.host, x.to.port), x.to.packet, a.drains, a.replies);
  }

  /** Over all transports nothing else is said; an open tunnel has been told everything. */
  lemma {:induction false} TriesAskForTarget(x: Plan, tls: seq<bool>, world: seq<Attempt>)
    requires |world| >= |tls|
    ensures var t := Tries(x, tls, world);
      && (forall e :: e in t.events && e.Wrote? ==> Says(x, e.data))
      && (t.ended.Connected? ==>
            t.events != [] && t.events[|t.events| - 1].Wrote? && SaysAll(x, t.events[|t.events| - 1].data))
    decreases |tls|
  {
    if tls != [] {
      if world[0].Answers? { SpeaksForTarget(x, tls[0], world[0]); }
      if Once(x, tls[0], world[0]).ended.Failed? { TriesAskForTarget(x, tls[1..], world[1..]); }
    }
  }

  // --------------------------------------------------------------------- theorems

  lemma {:induction false} ExactMembers(endpoints: seq<Text>)
    ensures NoDup(Exact(endpoints))
    ensures forall e :: e in Exact(endpoints) <==> e in endpoints && e != ""
    decreases |endpoints|
  {
    if endpoints != [] {
      var front, last := endpoints[..|endpoints| - 1], endpoints[|endpoints| - 1];
      ExactMembers(front);
      assert endpoints == front + [last];
    }
  }

  lemma PlainDials(to: Target, a: Attempt)
    ensures GoesDirect(Plain(to, a))
    ensures var t := Plain(to, a); OpenSockets(t.events) == if t.ended.Connected? then 1 else 0
    ensures forall e :: e in Plain(to, a).events ==> e == DialTarget(to.host, to.port) || e.SocketOpened?
  {
    var dial := DialTarget(to.host, to.port);
    assert Plain(to, a).events[0] == dial;
    Count2(dial, SocketOpened);
  }

  lemma ThroughDials(endpoint: Text, c: Config, to: Target, world: seq<Attempt>)
    requires |world| >= 2
    ensures !GoesDirect(Through(endpoint, c, to, world))
    ensures var t := Through(endpoint, c, to, world);
      && OpenSockets(t.events) == (if t.ended.Connected? then 1 else 0)
      && (t.ended.Connected? ==> t.ended.viaProxy)
      && forall e :: e in t.events && e.DialProxy? ==>
           && e.endpoint == endpoint && c.urls.split(endpoint).Some?
           && e.host == c.urls.split(endpoint).value.host && e.port == c.urls.split(endpoint).value.port
  {
    match c.urls.split(endpoint)
    case None =>
    case Some(p) =>
      var x := Plan(endpoint, p, c.coding, to);
      TriesStayOnTheProxy(x, Transports(p), world);
      TriesConserveSockets(x, Transports(p), world);
      TriesEnd(x, Transports(p), world);
  }

  /** Only a direct dial may go to the destination, and it goes nowhere else. */
  lemma OpenIsDirectExactly(endpoints: seq<Text>, c: Config, to: Target, world: seq<Attempt>)
    requires |world| >= 2
    ensures GoesDirect(Open(endpoints, c, to, world)) <==> forall e :: e in endpoints ==> e == ""
    ensures var t := Open(endpoints, c, to, world);
      && OpenSockets(t.events) == (if t.ended.Connected? then 1 else 0)
      && (forall e :: e in t.events && e.DialProxy? ==> e.endpoint in endpoints && e.endpoint != "")
      && (forall e :: e in t.events && e.DialTarget? ==> e == DialTarget(to.host, to.port))
      && (t.ended == Connected(false) ==> GoesDirect(t))
  {
    ExactMembers(endpoints);
    var exact := Exact(endpoints);
    if exact == [] {
      PlainDials(to, world[0]);
    } else {
      assert exact[0] in endpoints && exact[0] != "";
      if |exact| == 1 { ThroughDials(exact[0], c, to, world); }
    }
  }

  lemma PacketChangesNoDial(t: Trace, packet: bytes)
    ensures var u := WithPacket(t, packet);
      && u.ended == t.ended && OpenSockets(u.events) == OpenSockets(t.events)
      && (forall e: Event :: !e.Wrote? ==> (e in u.events <==> e in t.events))
      && (GoesDirect(u) <==> GoesDirect(t))
  {
    OneMore(t.events, Wrote(packet));
    var u := WithPacket(t, packet);
    assert forall e :: e in u.events && e.DialTarget? ==> e in t.events;
  }

  /** What opening some endpoints for a session amounts to, packet included. */
  lemma OpeningIsDirectExactly(endpoints: seq<Text>, c: Config, to: Target, world: seq<Attempt>)
    requires |world| >= 2
    ensures var t := WithPacket(Open(endpoints, c, to, world), to.packet);
      && (GoesDirect(t) <==> forall e :: e in endpoints ==> e == "")
      && OpenSockets(t.events) == (if t.ended.Connected? then 1 else 0)
      && (forall e :: e in t.events && e.DialProxy? ==> e.endpoint in endpoints && e.endpoint != "")
      && (forall e :: e in t.events && e.DialTarget? ==> e == DialTarget(to.host, to.port))
  {
    OpenIsDirectExactly(endpoints, c, to, world);
    PacketChangesNoDial(Open(endpoints, c, to, world), to.packet);
  }

  /** The fail-closed contract, exactly: a session dials its destination directly if
      and only if no proxy is configured for it or the selected endpoint is an empty
      string. A refused resolution dials nothing. Exactly one socket stays open on
      success and none otherwise. */
  lemma FailClosed(link: Option<Link>, requested: Text, c: Config, to: Target, world: seq<Attempt>)
    requires |world| >= 2
    ensures var t := Session(link, requested, c, to, world);
      var choice := Resolve(link, requested, c);
      && (GoesDirect(t) <==> !WantsProxy(link, c) || (choice.Via? && choice.exit.endpoint == ""))
      && (choice.Refused? ==> t == Trace([], Unavailable))
      && (forall e :: e in t.events && e.DialProxy? ==> choice.Via? && e.endpoint == choice.exit.endpoint)
      && (forall e :: e in t.events && e.DialTarget? ==> e == DialTarget(to.host, to.port))
      && OpenSockets(t.events) == (if t.ended.Connected? then 1 else 0)
  {
    DirectExactlyWhenNoProxyWanted(link, requested, c);
    match Resolve(link, requested, c)
    case Refused(_) => assert OpenSockets([]) == 0;
    case Direct => OpeningIsDirectExactly([], c, to, world);
    case Via(exit) =>
      assert [exit.endpoint][0] == exit.endpoint;
      OpeningIsDirectExactly([exit.endpoint], c, to, world);
  }

  /** A session with a selected endpoint says nothing to its proxy but the handshake for
      its own host and port, in whatever order dials fail; if it gets connected it has
      said all of it, and its first packet last. */
  lemma ProxiedSessionAsksForItsTarget(
    link: Option<Link>, requested: Text, c: Config, to: Target, world: seq<Attempt>)
    requires |world| >= 2
    requires Resolve(link, requested, c).Via? && Resolve(link, requested, c).exit.endpoint != ""
    ensures var t := Session(link, requested, c, to, world);
      var endpoint := Resolve(link, requested, c).exit.endpoint;
      match c.urls.split(endpoint)
      case None => t.events == [] && t.ended == Failed
      case Some(p) =>
        var x := Plan(endpoint, p, c.coding, to);
        && (forall e :: e in t.events && e.Wrote? ==> Says(x, e.data))
        && (t.ended.Connected? ==>
              t.events != [] && t.events[|t.events| - 1].Wrote? && SaysAll(x, t.events[|t.events| - 1].data))
  {
    var endpoint := Resolve(link, requested, c).exit.endpoint;
    OneEndpoint(endpoint);
    if c.urls.split(endpoint).Some? {
      var p := c.urls.split(endpoint).value;
      var x := Plan(endpoint, p, c.coding, to);
      TriesAskForTarget(x, Transports(p), world);
      TriesEnd(x, Transports(p), world);
    }
  }

  lemma OneEndpoint(endpoint: Text)
    requires endpoint != ""
    ensures Exact([endpoint]) == [endpoint]
  {
    assert [endpoint][..0] == [] && Exact([]) == [];
  }

  /** A direct session sends its first packet, and nothing before it. */
  lemma DirectSessionSendsItsPacket(
    link: Option<Link>, requested: Text, c: Config, to: Target, world: seq<Attempt>)
    requires |world| >= 2 && Resolve(link, requested, c).Direct?
    ensures var t := Session(link, requested, c, to, world);
      t.events == Plain(to, world[0]).events
                  + (if t.ended.Connected? && to.packet != [] then [Wrote(to.packet)] else [])
  {
    assert Exact([]) == [];
  }

  predicate EndpointsNamed(c: Config)
  {
    forall id :: id in c.records ==> c.records[id].endpoint != ""
  }

  /** With named endpoints a session that wants a proxy never reaches its destination
      directly. */
  lemma NeverLeaks(link: Option<Link>, requested: Text, c: Config, to: Target, world: seq<Attempt>)
    requires |world| >= 2 && EndpointsNamed(c)
    requires forall u :: c.urls.validate(u) != Some("")
    ensures GoesDirect(Session(link, requested, c, to, world)) <==> !WantsProxy(link, c)
  {
    FailClosed(link, requested, c, to, world);
    if link.Some? && EnabledFor(link.value, c).Some? { LocationIsHonoured(link.value, requested, c); }
  }

  /** The record table alone decides it: an empty endpoint in a record does leak. */
  lemma EmptyEndpointLeaks(urls: Urls, coding: Coding, to: Target, world: seq<Attempt>)
    requires |world| >= 2
    ensures var c := Config(map[], map["p" := Record("p", "DE", "")], map[], urls, coding);
      var link := Some(Link("", "repository", "p", ""));
      WantsProxy(link, c) && GoesDirect(Session(link, "", c, to, world))
  {
    var c := Config(map[], map["p" := Record("p", "DE", "")], map[], urls, coding);
    FailClosed(Some(Link("", "repository", "p", "")), "", c, to, world);
  }
}
