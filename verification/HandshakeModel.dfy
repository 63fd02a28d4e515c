/** The client side of the two proxy handshakes, on the bytes the proxy answers
    (`_socks_once`, `_http_once` in `outbound.py`). */
module HandshakeModel {
  import opened Common
  import opened HttpModel

  /** `Starved` when the answer stops short: the stream ended or time ran out. `Stuck`
      when it was favourable but the first packet could not be passed on in time. */
  datatype Verdict = Tunnel | Declined | Starved | Stuck

  /** The last step of both handshakes; `drains` tells whether its wait succeeds. */
  function PassOn(packet: bytes, drains: bool): Verdict
  {
    if packet == [] || drains then Tunnel else Stuck
  }

  /** What was written, the verdict, and how much of the answer was consumed. */
  datatype Talk = Talk(written: bytes, verdict: Verdict, used: nat)

  // ------------------------------------------------------------------------- SOCKS5

  datatype Login = Login(user: bytes, secret: bytes)

  /** A host name in the form its encoding gives it, or an address. */
  datatype Host = V4(octets: bytes) | V6(octets: bytes) | Name(text: bytes)

  predicate HostOk(h: Host)
  {
    match h
    case V4(o) => |o| == 4
    case V6(o) => |o| == 16
    case Name(_) => true
  }

  function PortBytes(port: nat): bytes
    requires port < 65536
  {
    [port / 256, port % 256]
  }

  /** `_socks_target`; None for a name that is too long. */
  function TargetBytes(h: Host, port: nat): Option<bytes>
    requires port < 65536
  {
    match h
    case V4(o) => Some([1] + o + PortBytes(port))
    case V6(o) => Some([4] + o + PortBytes(port))
    case Name(t) => if |t| > 255 then None else Some([3, |t|] + t + PortBytes(port))
  }

  predicate HasLogin(l: Login) { l.user != [] || l.secret != [] }

  predicate LoginFits(l: Login) { |l.user| <= 255 && |l.secret| <= 255 }

  function Greeting(l: Login): bytes
  {
    if HasLogin(l) then [5, 2, 0, 2] else [5, 1, 0]
  }

  function LoginBytes(l: Login): bytes
    requires LoginFits(l)
  {
    [1, |l.user|] + l.user + [|l.secret|] + l.secret
  }

  /** The verdict on the CONNECT reply read at `i`, and where it ends if it is granted. */
  function ReplyEnd(s: bytes, i: nat): (Verdict, nat)
  {
    if |s| < i + 4 then (Starved, i)
    else if s[i] != 5 || s[i + 1] != 0 then (Declined, i)
    else if s[i + 3] != 1 && s[i + 3] != 4 && s[i + 3] != 3 then (Declined, i)
    else if s[i + 3] == 3 && |s| < i + 5 then (Starved, i)
    else
      var n := i + (if s[i + 3] == 1 then 10 else if s[i + 3] == 4 then 22 else 7 + (s[i + 4] as nat));
      if |s| < n then (Starved, i) else (Tunnel, n)
  }

  /** The part after authentication. */
  function Request(written: bytes, s: bytes, i: nat, target: Option<bytes>, packet: bytes, drains: bool): Talk
  {
    if target.None? then Talk(written, Declined, i)
    else
      var asked := written + [5, 1, 0] + target.value;
      var (v, n) := ReplyEnd(s, i);
      if v.Tunnel? then Talk(asked + packet, PassOn(packet, drains), n) else Talk(asked, v, i)
  }

  function Socks(l: Login, target: Option<bytes>, packet: bytes, drains: bool, s: bytes): Talk
  {
    var greeting := Greeting(l);
    if |s| < 2 then Talk(greeting, Starved, 0)
    else if s[0] != 5 then Talk(greeting, Declined, 2)
    else if s[1] == 2 then
      if !HasLogin(l) || !LoginFits(l) then Talk(greeting, Declined, 2)
      else
        var written := greeting + LoginBytes(l);
        if |s| < 4 then Talk(written, Starved, 2)
        else if s[2] != 1 || s[3] != 0 then Talk(written, Declined, 4)
        else Request(written, s, 4, target, packet, drains)
    else if s[1] != 0 then Talk(greeting, Declined, 2)
    else Request(greeting, s, 2, target, packet, drains)
  }

  /** What a willing server answers: sections 3 and 6 of RFC 1928, section 2 of RFC 1929. */
  datatype Answer = Answer(login: bool, reserved: byte, bound: Host, port: bytes)

  predicate AnswerOk(a: Answer)
  {
    |a.port| == 2 && HostOk(a.bound) && (a.bound.Name? ==> |a.bound.text| <= 255)
  }

  function ReplyBytes(a: Answer): bytes
    requires AnswerOk(a)
  {
    [5, 0, a.reserved] + (match a.bound
                          case V4(o) => [1] + o
                          case V6(o) => [4] + o
                          case Name(t) => [3, |t|] + t) + a.port
  }

  function AnswerBytes(a: Answer): bytes
    requires AnswerOk(a)
  {
    AnswerHead(a.login) + ReplyBytes(a)
  }

  lemma ReplyReadsBack(s: bytes, i: nat, a: Answer)
    requires AnswerOk(a) && At(s, i, ReplyBytes(a))
    ensures ReplyEnd(s, i) == (Tunnel, i + |ReplyBytes(a)|)
  {
    var r := ReplyBytes(a);
    var t := s[i..i + |r|];
    assert s[i] == t[0] && s[i + 1] == t[1] && s[i + 3] == t[3];
    if a.bound.Name? { assert s[i + 4] == t[4]; }
  }

  lemma ReplyIsAnswer(s: bytes, i: nat, login: bool) returns (a: Answer)
    requires ReplyEnd(s, i).0.Tunnel?
    ensures AnswerOk(a) && a.login == login && At(s, i, ReplyBytes(a))
    ensures ReplyEnd(s, i).1 == i + |ReplyBytes(a)|
  {
    var n := ReplyEnd(s, i).1;
    var bound :=
      if s[i + 3] == 1 then V4(s[i + 4..n - 2])
      else if s[i + 3] == 4 then V6(s[i + 4..n - 2])
      else Name(s[i + 5..n - 2]);
    a := Answer(login, s[i + 2], bound, s[n - 2..n]);
    assert s[i..n] == ReplyBytes(a);
  }

  function AnswerHead(login: bool): bytes
  {
    if login then [5, 2, 1, 0] else [5, 0]
  }

  lemma HeadAt(s: bytes, login: bool)
    ensures At(s, 0, AnswerHead(login)) <==>
      && |s| >= |AnswerHead(login)| && s[0] == 5 && s[1] == (if login then 2 else 0)
      && (login ==> s[2] == 1 && s[3] == 0)
  {
    var head := AnswerHead(login);
    if |s| >= |head| {
      var t := s[0..|head|];
      assert t[0] == s[0] && t[1] == s[1];
      if login { assert t[2] == s[2] && t[3] == s[3]; }
      if s[0] == head[0] && s[1] == head[1] && (login ==> s[2] == head[2] && s[3] == head[3]) { assert t == head; }
    }
  }

  lemma AtJoins(s: bytes, i: nat, a: bytes, b: bytes)
    requires At(s, i, a) && At(s, i + |a|, b)
    ensures At(s, i, a + b)
  {
    assert s[i..i + |a + b|] == s[i..i + |a|] + s[i + |a|..i + |a| + |b|];
  }

  lemma Opening(s: bytes, a: Answer)
    requires AnswerOk(a)
    ensures At(s, 0, AnswerBytes(a)) <==>
      && |s| >= |AnswerHead(a.login)| && s[0] == 5 && s[1] == (if a.login then 2 else 0)
      && (a.login ==> s[2] == 1 && s[3] == 0)
      && At(s, |AnswerHead(a.login)|, ReplyBytes(a))
  {
    var head := AnswerHead(a.login);
    HeadAt(s, a.login);
    if At(s, 0, AnswerBytes(a)) { AtSplits(s, 0, head, ReplyBytes(a)); }
    if At(s, 0, head) && At(s, |head|, ReplyBytes(a)) { AtJoins(s, 0, head, ReplyBytes(a)); }
  }

  /** A willing answer leads to the tunnel, or to `Stuck` exactly when there is a first
      packet that is not passed on in time. Exactly the answer's bytes are consumed, so
      that the tunnel starts with the byte after them, and what was written is the
      greeting, the login if it was asked for, one request for the target, and the
      first packet. */
  lemma WillingAnswerOpens(l: Login, target: bytes, packet: bytes, drains: bool, s: bytes, a: Answer)
    requires AnswerOk(a) && At(s, 0, AnswerBytes(a)) && (a.login ==> HasLogin(l) && LoginFits(l))
    ensures Socks(l, Some(target), packet, drains, s) ==
      Talk(Greeting(l) + (if a.login then LoginBytes(l) else []) + [5, 1, 0] + target + packet,
           PassOn(packet, drains), |AnswerBytes(a)|)
  {
    Opening(s, a);
    ReplyReadsBack(s, if a.login then 4 else 2, a);
    assert Greeting(l) + [] == Greeting(l);
  }

  /** Nothing else does: behind every tunnel, even one that got stuck, lies a willing
      answer, to a login only if there is one, and a target whose name fits. */
  lemma TunnelNeedsWillingAnswer(l: Login, target: Option<bytes>, packet: bytes, drains: bool, s: bytes)
    returns (a: Answer)
    requires var v := Socks(l, target, packet, drains, s).verdict; v.Tunnel? || v.Stuck?
    ensures AnswerOk(a) && At(s, 0, AnswerBytes(a)) && target.Some?
    ensures a.login ==> HasLogin(l) && LoginFits(l)
    ensures Socks(l, target, packet, drains, s).used == |AnswerBytes(a)|
    ensures Socks(l, target, packet, drains, s).verdict == PassOn(packet, drains)
  {
    a := ReplyIsAnswer(s, if s[1] == 2 then 4 else 2, s[1] == 2);
    Opening(s, a);
  }

  /** What is said before the request: a greeting, and the login if it was asked for. */
  predicate IsOpening(opening: bytes, l: Login)
  {
    opening == Greeting(l) || (LoginFits(l) && opening == Greeting(l) + LoginBytes(l))
  }

  /** Nothing is said but an opening, then possibly one request for the target, then
      possibly the first packet. */
  ghost predicate AsksFor(said: bytes, l: Login, target: Option<bytes>, packet: bytes)
  {
    exists opening :: IsOpening(opening, l) &&
      (said == opening
       || (target.Some? && said == opening + [5, 1, 0] + target.value)
       || (target.Some? && said == opening + [5, 1, 0] + target.value + packet))
  }

  ghost predicate AsksInFull(said: bytes, l: Login, target: Option<bytes>, packet: bytes)
  {
    exists opening ::
      IsOpening(opening, l) && target.Some? && said == opening + [5, 1, 0] + target.value + packet
  }

  /** Whatever the proxy answers, that is all it hears; with a tunnel it has heard all. */
  lemma SocksAsksForTarget(l: Login, target: Option<bytes>, packet: bytes, drains: bool, s: bytes)
    ensures var t := Socks(l, target, packet, drains, s);
      && AsksFor(t.written, l, target, packet)
      && (t.verdict.Tunnel? ==> AsksInFull(t.written, l, target, packet))
  {
    assert IsOpening(Greeting(l), l);
    if LoginFits(l) { assert IsOpening(Greeting(l) + LoginBytes(l), l); }
  }

  /** The target goes to the proxy by name: an address only if one was given. */
  lemma TargetKeepsItsForm(h: Host, port: nat)
    requires port < 65536 && HostOk(h)
    ensures TargetBytes(h, port).None? <==> h.Name? && |h.text| > 255
    ensures TargetBytes(h, port).Some? ==>
      var b := TargetBytes(h, port).value; var n := |b|;
      && n >= 3 && b[0] == (match h case V4(_) => 1 case V6(_) => 4 case Name(_) => 3)
      && (b[n - 2] as nat) * 256 + (b[n - 1] as nat) == port
      && (if h.Name? then b[1] == |h.text| && b[2..n - 2] == h.text else b[1..n - 2] == h.octets)
  {
  }

  // ------------------------------------------------------------------- HTTP CONNECT

  const HEAD_MAX := 32 * 1024
  const BLANK_LINE: bytes := [13, 10, 13, 10]

  predicate BlankAt(s: bytes, i: nat) { i + 4 <= |s| && s[i..i + 4] == BLANK_LINE }

  predicate BreakAt(s: bytes, i: nat) { i + 2 <= |s| && s[i..i + 2] == CRLF }

  /** Just after the first blank line at or after `i`. */
  function HeadEnd(s: bytes, i: nat): Option<nat>
    decreases |s| - i
  {
    if |s| < i + 4 then None
    else if BlankAt(s, i) then Some(i + 4)
    else HeadEnd(s, i + 1)
  }

  /** The end of the first line: where the first CRLF at or after `i` starts. */
  function FirstLine(s: bytes, i: nat): nat
    decreases |s| - i
  {
    if |s| < i + 2 then |s| else if BreakAt(s, i) then i else FirstLine(s, i + 1)
  }

  function SkipSpaces(s: bytes, i: nat): nat
    decreases |s| - i
  {
    if i < |s| && IsSpace(s[i], false) then SkipSpaces(s, i + 1) else i
  }

  function WordEnd(s: bytes, i: nat): nat
    decreases |s| - i
  {
    if i < |s| && !IsSpace(s[i], false) then WordEnd(s, i + 1) else i
  }

  lemma {:induction false} SkipsForward(s: bytes, i: nat)
    requires i <= |s|
    ensures i <= SkipSpaces(s, i) <= |s| && i <= WordEnd(s, i) <= |s|
    decreases |s| - i
  {
    if i < |s| { SkipsForward(s, i + 1); }
  }

  /** The second word of the status line. */
  function StatusWord(line: bytes): bytes
  {
    SkipsForward(line, 0);
    var w := WordEnd(line, SkipSpaces(line, 0));
    SkipsForward(line, SkipSpaces(line, 0));
    SkipsForward(line, w);
    var b := SkipSpaces(line, w);
    SkipsForward(line, b);
    line[b..WordEnd(line, b)]
  }

  /** The status, or None when there is no number. */
  function Status(line: bytes): Option<nat>
  {
    var w := StatusWord(line);
    if IsNumeral(w, 10) && |w| <= DIGITS_MAX then Some(NumeralValue(w, 10)) else None
  }

  lemma {:induction false} HeadEndWithin(s: bytes, i: nat)
    ensures HeadEnd(s, i).Some? ==> i + 4 <= HeadEnd(s, i).value <= |s|
    decreases |s| - i
  {
    if |s| >= i + 4 && !BlankAt(s, i) { HeadEndWithin(s, i + 1); }
  }

  lemma {:induction false} FirstLineWithin(s: bytes, i: nat)
    requires i <= |s|
    ensures i <= FirstLine(s, i) <= |s|
    decreases |s| - i
  {
    if |s| >= i + 2 && !BreakAt(s, i) { FirstLineWithin(s, i + 1); }
  }

  function Connect(request: bytes, packet: bytes, drains: bool, s: bytes): Talk
  {
    HeadEndWithin(s, 0);
    var end := HeadEnd(s, 0);
    if end.None? then Talk(request, Starved, 0)
    else if end.value > HEAD_MAX then Talk(request, Declined, end.value)
    else
      var head := s[..end.value];
      FirstLineWithin(head, 0);
      var status := Status(head[..FirstLine(head, 0)]);
      if status.Some? && 200 <= status.value < 300 then Talk(request + packet, PassOn(packet, drains), end.value)
      else Talk(request, Declined, end.value)
  }

  predicate IsWord(w: bytes) { w != [] && forall i :: 0 <= i < |w| ==> !IsSpace(w[i], false) }

  /** `p` is the first place of CRLF in `s`. */
  predicate FirstBreak(s: bytes, p: nat)
  {
    BreakAt(s, p) && forall j :: 0 <= j < p ==> !BreakAt(s, j)
  }

  predicate FirstBlank(s: bytes, p: nat)
  {
    BlankAt(s, p) && forall j :: 0 <= j < p ==> !BlankAt(s, j)
  }

  lemma {:induction false} FirstLineIs(s: bytes, p: nat, i: nat)
    requires FirstBreak(s, p) && i <= p
    ensures FirstLine(s, i) == p
    decreases p - i
  {
    if i < p { FirstLineIs(s, p, i + 1); }
  }

  lemma {:induction false} HeadEndIs(s: bytes, p: nat, i: nat)
    requires FirstBlank(s, p) && i <= p
    ensures HeadEnd(s, i) == Some(p + 4)
    decreases p - i
  {
    if i < p { HeadEndIs(s, p, i + 1); }
  }

  lemma {:induction false} WordEndIs(s: bytes, i: nat, n: nat)
    requires i <= n <= |s| && (forall j :: i <= j < n ==> !IsSpace(s[j], false))
    requires n == |s| || IsSpace(s[n], false)
    ensures WordEnd(s, i) == n
    decreases n - i
  {
    if i < n { WordEndIs(s, i + 1, n); }
  }

  lemma SecondWord(line: bytes, a: nat, b: nat, n: nat)
    requires 0 < a < b < n <= |line|
    requires forall j :: 0 <= j < a ==> !IsSpace(line[j], false)
    requires forall j :: a <= j < b ==> IsSpace(line[j], false)
    requires forall j :: b <= j < n ==> !IsSpace(line[j], false)
    requires n == |line| || IsSpace(line[n], false)
    ensures StatusWord(line) == line[b..n]
  {
    WordEndIs(line, 0, a);
    SpacesEndAt(line, a, b);
    WordEndIs(line, b, n);
  }

  lemma {:induction false} SpacesEndAt(s: bytes, i: nat, n: nat)
    requires i <= n < |s| && (forall j :: i <= j < n ==> IsSpace(s[j], false)) && !IsSpace(s[n], false)
    ensures SkipSpaces(s, i) == n
    decreases n - i
  {
    if i < n { SpacesEndAt(s, i + 1, n); }
  }

  /** The status line of section 4 of RFC 9112: version, one blank, code, and a reason
      after another blank, which may be missing. */
  lemma StatusReadsBack(version: bytes, code: bytes, reason: bytes)
    requires IsWord(version) && IsNumeral(code, 10) && |code| <= DIGITS_MAX
    requires reason == [] || reason[0] == 32
    ensures Status(version + [32] + code + reason) == Some(NumeralValue(code, 10))
  {
    var line := version + [32] + code + reason;
    var a, b := |version|, |version| + 1;
    forall j | 0 <= j < a ensures !IsSpace(line[j], false) { assert line[j] == version[j]; }
    forall j | b <= j < b + |code| ensures !IsSpace(line[j], false) {
      assert line[j] == code[j - b] && IsDigit(code[j - b], 10);
    }
    if reason != [] { assert line[b + |code|] == reason[0]; }
    SecondWord(line, a, b, b + |code|);
    assert line[b..b + |code|] == code;
  }

  lemma ConnectOf(request: bytes, packet: bytes, drains: bool, s: bytes, end: nat, line: nat, status: nat)
    requires HeadEnd(s, 0) == Some(end) && line <= end <= |s| && end <= HEAD_MAX
    requires FirstLine(s[..end], 0) == line && Status(s[..line]) == Some(status)
    ensures Connect(request, packet, drains, s) ==
      if 200 <= status < 300 then Talk(request + packet, PassOn(packet, drains), end) else Talk(request, Declined, end)
  {
    assert s[..end][..line] == s[..line];
  }

  /** A complete head of admissible size is favourable if and only if its status is in
      the two hundreds; exactly the head is consumed, whatever follows it. */
  lemma ConnectOpensIffSuccess(
    request: bytes, packet: bytes, drains: bool, s: bytes,
    line: nat, blank: nat, version: bytes, code: bytes, reason: bytes)
    requires FirstBlank(s, blank) && blank + 4 <= HEAD_MAX && line <= blank && FirstBreak(s[..blank + 4], line)
    requires s[..line] == version + [32] + code + reason
    requires IsWord(version) && IsNumeral(code, 10) && |code| <= DIGITS_MAX && (reason == [] || reason[0] == 32)
    ensures Connect(request, packet, drains, s) ==
      if 200 <= NumeralValue(code, 10) < 300 then Talk(request + packet, PassOn(packet, drains), blank + 4)
      else Talk(request, Declined, blank + 4)
  {
    HeadEndIs(s, blank, 0);
    FirstLineIs(s[..blank + 4], line, 0);
    StatusReadsBack(version, code, reason);
    ConnectOf(request, packet, drains, s, blank + 4, line, NumeralValue(code, 10));
  }

  /** A head without its blank line never opens one. */
  lemma UnfinishedHeadIsStarved(request: bytes, packet: bytes, drains: bool, s: bytes)
    requires forall j :: 0 <= j < |s| ==> !BlankAt(s, j)
    ensures Connect(request, packet, drains, s).verdict == Starved
  {
    NoHeadEnd(s, 0);
  }

  lemma {:induction false} NoHeadEnd(s: bytes, i: nat)
    requires forall j :: i <= j < |s| ==> !BlankAt(s, j)
    ensures HeadEnd(s, i).None?
    decreases |s| - i
  {
    if |s| >= i + 4 { NoHeadEnd(s, i + 1); }
  }
}
