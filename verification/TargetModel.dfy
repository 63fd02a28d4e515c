/** How a destination is put to a proxy: the SOCKS address and the CONNECT request
    (`_socks_target`, `_connect_authority`, `_connect_request` in `outbound.py`). */
module TargetModel {
  import opened Common
  import H = HandshakeModel

  type Text = string

  /** The libraries: an address or an encoded name (None when the encoder fails), the
      text encoding, and the authorization token of a login. */
  datatype Coding = Coding(host: Text -> Option<H.Host>, utf8: Text -> bytes, token: H.Login -> Text)

  predicate IsBracket(c: char) { c == '[' || c == ']' }

  /** `host.strip("[]")` */
  function Bare(host: Text): (bare: Text)
    ensures bare != [] ==> !IsBracket(bare[0]) && !IsBracket(bare[|bare| - 1])
    decreases |host|
  {
    if host == [] then []
    else if IsBracket(host[0]) then Bare(host[1..])
    else if IsBracket(host[|host| - 1]) then Bare(host[..|host| - 1])
    else host
  }

  function Digit(d: nat): char
    requires d < 10
  {
    (d + '0' as int) as char
  }

  function Decimal(n: nat): (t: Text)
    ensures t != []
  {
    if n < 10 then [Digit(n)] else Decimal(n / 10) + [Digit(n % 10)]
  }

  function Authority(host: Text, port: nat): Text
  {
    var bare := Bare(host);
    (if ':' in bare then "[" + bare + "]" else bare) + ":" + Decimal(port)
  }

  const AGENT := "\r\nUser-Agent: Mozilla/5.0\r\nProxy-Connection: keep-alive\r\nConnection: keep-alive"

  function ConnectText(c: Coding, l: H.Login, host: Text, port: nat): Text
  {
    "CONNECT " + Authority(host, port) + " HTTP/1.1\r\nHost: " + Authority(host, port) + AGENT
    + (if H.HasLogin(l) then "\r\nProxy-Authorization: Basic " + c.token(l) else "")
    + "\r\n\r\n"
  }

  function ConnectRequest(c: Coding, l: H.Login, host: Text, port: nat): bytes
  {
    c.utf8(ConnectText(c, l, host, port))
  }

  /** None when the host does not encode or the port has no two bytes. */
  function SocksTarget(c: Coding, host: Text, port: nat): Option<bytes>
  {
    if port >= 65536 then None
    else match c.host(Bare(host))
      case None => None
      case Some(h) => H.TargetBytes(h, port)
  }

  // ----------------------------------------------------------------- reading back

  function Value(c: char): nat
  {
    if '0' <= c <= '9' then c as int - '0' as int else 0
  }

  function Number(t: Text): nat
  {
    if t == [] then 0 else 10 * Number(t[..|t| - 1]) + Value(t[|t| - 1])
  }

  lemma {:induction false} DecimalReadsBack(n: nat)
    ensures Number(Decimal(n)) == n && ':' !in Decimal(n)
  {
    if n < 10 {
      assert [Digit(n)][..0] == [];
      assert Number([]) == 0;
    } else {
      DecimalReadsBack(n / 10);
      var t := Decimal(n);
      assert t[..|t| - 1] == Decimal(n / 10) && t[|t| - 1] == Digit(n % 10);
    }
  }

  /** Splits at the last colon and takes brackets off, as any proxy does. */
  function ReadAuthority(a: Text, i: nat): (Text, nat)
    requires i <= |a|
  {
    if i == 0 then (a, 0)
    else if a[i - 1] == ':' then
      var host := a[..i - 1];
      (if |host| >= 2 && host[0] == '[' && host[|host| - 1] == ']' then host[1..|host| - 1] else host, Number(a[i..]))
    else ReadAuthority(a, i - 1)
  }

  lemma {:induction false} SkipsPort(front: Text, port: Text, i: nat)
    requires ':' !in port && |front| < i <= |front| + 1 + |port|
    ensures ReadAuthority(front + ":" + port, i) == ReadAuthority(front + ":" + port, |front| + 1)
  {
    if i > |front| + 1 {
      var a := front + ":" + port;
      assert a[i - 1] == port[i - 2 - |front|];
      SkipsPort(front, port, i - 1);
    }
  }

  /** The authority names the host and the port unmistakably, also when the host is an
      address with colons. */
  lemma AuthorityReadsBack(host: Text, port: nat)
    ensures var a := Authority(host, port); ReadAuthority(a, |a|) == (Bare(host), port)
  {
    var bare := Bare(host);
    var front := if ':' in bare then "[" + bare + "]" else bare;
    var a := front + ":" + Decimal(port);
    assert a == Authority(host, port);
    DecimalReadsBack(port);
    SkipsPort(front, Decimal(port), |a|);
    assert a[|front|] == ':' && a[..|front|] == front && a[|front| + 1..] == Decimal(port);
    if ':' in bare { assert front[1..|front| - 1] == bare; }
  }

  /** So different destinations are put differently. */
  lemma AuthoritiesDiffer(host: Text, port: nat, host': Text, port': nat)
    requires Authority(host, port) == Authority(host', port')
    ensures Bare(host) == Bare(host') && port == port'
  {
    AuthorityReadsBack(host, port);
    AuthorityReadsBack(host', port');
  }
}
