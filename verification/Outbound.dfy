/** The outbound connector: one deterministic path a session, its dials recorded in
    order, and the failure table of proxy endpoints. */
module Outbound {
  import opened Common
  import opened RankModel
  import opened TargetModel
  import opened RouteModel
  import opened DialModel
  import opened HealthModel
  import H = HandshakeModel
  import opened Handshake

  method PreferredByCountry(preferred: map<Text, Id>, records: map<Id, Record>, tests: map<Id, Result>)
    returns (valid: map<Text, Id>)
    ensures valid == CurrentPreferred(preferred, records, tests)
  {
    valid := map[];
    var todo := preferred.Keys;
    while todo != {}
      invariant todo <= preferred.Keys
      invariant valid == map code |
        code in preferred && code !in todo && StillPreferred(code, preferred[code], records, tests) :: preferred[code]
      decreases todo
    {
      var code :| code in todo;
      var id := preferred[code];
      if StillPreferred(code, id, records, tests) { valid := valid[code := id]; }
      todo := todo - {code};
    }
  }

  class Connector {
    var events: seq<Event>
    var health: Health

    constructor ()
      ensures events == [] && health == map[]
    {
      events, health := [], map[];
    }

    /** `_http_once` and `_socks_once`: whatever goes wrong after the dial closes the
        socket; an open one is handed on right behind the proxy's answer. */
    method DialOnce(x: Plan, tls: bool, a: Attempt) returns (ended: Ended, socket: Option<ProxySocket>)
      modifies this`events
      ensures events == old(events) + Once(x, tls, a).events
      ensures ended == Once(x, tls, a).ended
      ensures Carries(ended, socket, x, tls, a)
    {
      events := events + [DialProxy(x.endpoint, x.p.host, x.p.port, tls)];
      socket := None;
      if !a.Answers? {
        ended := if a.CancelledDial? then Stopped else Failed;
        return;
      }
      var s := new ProxySocket(a.replies);
      var v := H.Declined;             // a failed upgrade to TLS
      if !tls || a.tls { v := Handshake(s, x, a.drains); }
      events := events + [SocketOpened, Wrote(s.output)];
      if v.Tunnel? { return Connected(true), Some(s); }
      s.Close();
      events := events + [SocketClosed];
      ended := if (v.Starved? || v.Stuck?) && a.cancelled then Stopped else Failed;
    }

    method Handshake(s: ProxySocket, x: Plan, drains: bool) returns (v: H.Verdict)
      requires s.Valid() && s.pos == 0 && s.output == []
      modifies s
      ensures s.isOpen == old(s.isOpen)
      ensures var t := Speak(x, false, Answers(true, s.input, drains, false));
        v == t.verdict && s.output == t.written && (v.Tunnel? ==> s.pos == t.used)
    {
      if x.p.scheme == Socks5 {
        v := s.SpeakSocks(x.p.login, SocksTarget(x.coding, x.to.host, x.to.port), x.to.packet, drains);
      } else {
        v := s.SpeakConnect(ConnectRequest(x.coding, x.p.login, x.to.host, x.to.port), x.to.packet, drains);
      }
    }

    /** `_http_connect` (and `_socks_connect`, whose only transport is plain). */
    method ProxyConnect(x: Plan, world: seq<Attempt>) returns (ended: Ended, socket: Option<ProxySocket>)
      requires |world| >= 2
      modifies this`events
      ensures events == old(events) + Tries(x, Transports(x.p), world).events
      ensures ended == Tries(x, Transports(x.p), world).ended
      ensures socket.Some? <==> ended.Connected?
      ensures socket.Some? ==> Handed(ended, socket, x, Transports(x.p), world)
    {
      var transports := Transports(x.p);
      ghost var whole := Tries(x, transports, world);
      var i := 0;
      socket := None;
      while i < |transports|
        invariant 0 <= i <= |transports| <= 2
        invariant old(events) + whole.events == events + Tries(x, transports[i..], world[i..]).events
        invariant whole.ended == Tries(x, transports[i..], world[i..]).ended
        invariant forall j :: 0 <= j < i ==> Breaks(x, transports[j], world[j])
      {
        ended, socket := DialOnce(x, transports[i], world[i]);
        assert transports[i..][1..] == transports[i + 1..] && world[i..][1..] == world[i + 1..];
        if !ended.Failed? {
          if ended.Connected? { assert FirstToOpen(x, transports, world, i); }
          return;
        }
        i := i + 1;
      }
      return Failed, None;
    }

    method NoteSuccess(endpoint: Text)
      modifies this`health
      ensures health == old(health) - {endpoint}
    {
      health := health - {endpoint};
    }

    /** The entry closest to recovery. */
    method Soonest() returns (least: Text)
      requires health != map[]
      ensures least in health && forall e :: e in health ==> health[least].1 <= health[e].1
    {
      least :| least in health;
      var todo := health.Keys - {least};
      while todo != {}
        invariant todo <= health.Keys && least in health
        invariant forall e :: e in health && e !in todo ==> health[least].1 <= health[e].1
        decreases todo
      {
        var e :| e in todo;
        if health[e].1 < health[least].1 { least := e; }
        todo := todo - {e};
      }
    }

    method Trim()
      requires |health| > HEALTH_MAX
      modifies this`health
      ensures Dropped(old(health), health, HEALTH_DROP)
    {
      for n := 0 to HEALTH_DROP
        invariant Dropped(old(health), health, n)
      {
        var e := Soonest();
        DropOne(old(health), health, e, n);
        health := health - {e};
      }
    }

    method TrimIfFull()
      modifies this`health
      ensures Trimmed(old(health), health)
    {
      if |health| > HEALTH_MAX { Trim(); }
    }

    method NoteFailure(endpoint: Text, now: real)
      requires HealthOk(health)
      modifies this`health
      ensures HealthOk(health) && Trimmed(Noted(old(health), endpoint, now), health)
    {
      NotedKeepsOk(health, endpoint, now);
      var fails := if endpoint in health then health[endpoint].0 else 0;
      fails := Min(fails + 1, 8);
      health := health[endpoint := (fails, now + Cooldown(fails))];
      assert health == Noted(old(health), endpoint, now);
      TrimIfFull();
      TrimmedKeepsOk(Noted(old(health), endpoint, now), health);
    }

    method DialDirectly(to: Target, a: Attempt) returns (ended: Ended)
      modifies this`events
      ensures events == old(events) + Plain(to, a).events && ended == Plain(to, a).ended
    {
      events := events + [DialTarget(to.host, to.port)];
      match a
      case Answers(_, _, _, _) =>
        events := events + [SocketOpened];
        return Connected(false);
      case CancelledDial => return Stopped;
      case NoSocket => return Failed;
    }

    method OpenOutbound(endpoints: seq<Text>, c: Config, to: Target, world: seq<Attempt>, now: real)
      returns (ended: Ended)
      requires HealthOk(health) && |world| >= 2
      modifies this
      ensures HealthOk(health)
      ensures events == old(events) + Open(endpoints, c, to, world).events
      ensures ended == Open(endpoints, c, to, world).ended
      ensures |Exact(endpoints)| != 1 || ended.Stopped? ==> health == old(health)
      ensures |Exact(endpoints)| == 1 && ended.Connected? ==> health == old(health) - {Exact(endpoints)[0]}
      ensures |Exact(endpoints)| == 1 && ended.Failed? ==>
        Trimmed(Noted(old(health), Exact(endpoints)[0], now), health)
    {
      var exact: seq<Text> := [];
      for i := 0 to |endpoints|
        invariant exact == Exact(endpoints[..i])
      {
        assert endpoints[..i + 1][..i] == endpoints[..i];
        if endpoints[i] != "" && endpoints[i] !in exact { exact := exact + [endpoints[i]]; }
      }
      assert endpoints[..|endpoints|] == endpoints;
      if exact == [] {
        ended := DialDirectly(to, world[0]);
        return;
      }
      if |exact| != 1 { return Unavailable; }
      var endpoint := exact[0];
      ended := OpenVia(endpoint, c, to, world);
      if ended.Connected? { NoteSuccess(endpoint); }
      else if ended.Failed? { NoteFailure(endpoint, now); }
    }

    method OpenVia(endpoint: Text, c: Config, to: Target, world: seq<Attempt>) returns (ended: Ended)
      requires |world| >= 2
      modifies this`events
      ensures events == old(events) + Through(endpoint, c, to, world).events
      ensures ended == Through(endpoint, c, to, world).ended && !ended.Unavailable?
    {
      var p := c.urls.split(endpoint);
      if p.None? { return Failed; }
      var x := Plan(endpoint, p.value, c.coding, to);
      TriesEnd(x, Transports(p.value), world);
      var socket;
      ended, socket := ProxyConnect(x, world);
    }

    /** The routing step of a session: a refused resolution ends it before any dial, and
        a packet that no handshake passed on follows the connection. */
    method RouteSession(
      link: Option<Link>, requested: Text, c: Config, to: Target, world: seq<Attempt>, now: real)
      returns (ended: Ended)
      requires HealthOk(health) && |world| >= 2
      modifies this
      ensures HealthOk(health)
      ensures events == old(events) + Session(link, requested, c, to, world).events
      ensures ended == Session(link, requested, c, to, world).ended
      ensures Resolve(link, requested, c).Refused? ==> ended == Unavailable && health == old(health)
    {
      match Resolve(link, requested, c) {
        case Refused(_) => return Unavailable;
        case Direct => ended := OpenOutbound([], c, to, world, now);
        case Via(exit) => ended := OpenOutbound([exit.endpoint], c, to, world, now);
      }
      var payloadSent := ended == Connected(true);
      if ended.Connected? && to.packet != [] && !payloadSent { events := events + [Wrote(to.packet)]; }
    }
  }

  lemma NotedKeepsOk(h: Health, endpoint: Text, now: real)
    requires HealthOk(h)
    ensures HealthOk(Noted(h, endpoint, now))
  {
  }

  lemma TrimmedKeepsOk(full: Health, h: Health)
    requires HealthOk(full) && Trimmed(full, h)
    ensures HealthOk(h)
  {
  }

  /** The open socket has said what the handshake says, and its next byte is the first
      of the tunnel. */
  ghost predicate Carries(ended: Ended, socket: Option<ProxySocket>, x: Plan, tls: bool, a: Attempt)
    reads if socket.Some? then {socket.value} else {}
  {
    && (socket.Some? <==> ended.Connected?)
    && (socket.Some? ==>
          && a.Answers? && socket.value.isOpen && socket.value.input == a.replies
          && socket.value.output == Speak(x, tls, a).written && socket.value.pos == Speak(x, tls, a).used)
  }

  /** It stems from the first transport that opened. */
  ghost predicate Handed(
    ended: Ended, socket: Option<ProxySocket>, x: Plan, tls: seq<bool>, world: seq<Attempt>)
    requires |world| >= |tls|
    reads if socket.Some? then {socket.value} else {}
  {
    exists i :: 0 <= i < |tls| && FirstToOpen(x, tls, world, i) && Carries(ended, socket, x, tls[i], world[i])
  }

  lemma DropOne(full: Health, h: Health, e: Text, n: nat)
    requires Dropped(full, h, n) && e in h
    requires forall k :: k in h ==> h[e].1 <= h[k].1
    ensures Dropped(full, h - {e}, n + 1)
  {
    assert (h - {e}).Keys == h.Keys - {e};
  }
}
