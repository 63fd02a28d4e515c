/** Which exit a session may use (`resolve_exit_selection`). */
module RouteModel {
  import opened Common
  import opened RankModel
  import opened TargetModel
  import H = HandshakeModel

  datatype Record = Record(id: Id, code: Text, endpoint: Text)

  datatype Location = Location(id: Text, active: bool, code: Text, proxyId: Text)

  datatype MultiLocation = MultiLocation(enabled: bool, migration: bool, locations: seq<Location>, mode: Text)

  datatype Link = Link(sub: Text, mode: Text, proxyId: Text, custom: Text)

  datatype Group = Group(ml: Option<MultiLocation>)

  datatype Scheme = Socks5 | Http | Https

  datatype Proxy = Proxy(scheme: Scheme, host: Text, port: int, ip: bool, login: H.Login)

  /** The URL library: validation, which never answers with an empty string, and
      splitting an endpoint into its parts. */
  datatype Urls = Urls(validate: Text -> Option<Text>, split: Text -> Option<Proxy>)

  /** Everything the resolver reads. */
  datatype Config = Config(
    groups: map<Text, Group>, records: map<Id, Record>, preferred: map<Text, Id>,
    urls: Urls, coding: Coding)

  datatype Refusal =
    | NeedsReconfiguration | NoLocation | UnknownLocation | NoPreferred
    | NoRecord | CountryChanged | NotCached | BadCustomUrl

  datatype Exit = Exit(proxyId: Id, endpoint: Text, location: Option<Text>)

  datatype Choice = Direct | Via(exit: Exit) | Refused(why: Refusal)

  const REQUIRED_LOCATIONS := 2

  // ------------------------------------------------------------------- selection

  /** `multi_location_for_link`. */
  function EnabledFor(link: Link, c: Config): Option<MultiLocation>
  {
    var g := Lookup(c.groups, link.sub);
    if g.Some? && g.value.ml.Some? && g.value.ml.value.enabled then g.value.ml else None
  }

  predicate IsSpace(ch: char)
  {
    ch == ' ' || ('\t' <= ch <= '\r') || ('\U{1C}' <= ch <= '\U{1F}') || ch == '\U{85}' || ch == '\U{A0}'
  }

  function Strip(s: Text): Text
    decreases |s|
  {
    if s == [] then []
    else if IsSpace(s[0]) then Strip(s[1..])
    else if IsSpace(s[|s| - 1]) then Strip(s[..|s| - 1])
    else s
  }

  /** The first active location with this id. */
  function Find(locations: seq<Location>, id: Text): Option<Location>
  {
    if locations == [] then None
    else if locations[0].id == id && locations[0].active then Some(locations[0])
    else Find(locations[1..], id)
  }

  function LocationProxy(ml: MultiLocation, location: Location, c: Config): Id
  {
    if ml.mode == "country_preferred" then
      var p := Lookup(c.preferred, location.code);
      if p.Some? then p.value else ""
    else location.proxyId
  }

  function ResolveLocation(ml: MultiLocation, requested: Text, c: Config): Choice
  {
    var id := Strip(requested);
    if ml.migration || |ml.locations| != REQUIRED_LOCATIONS then Refused(NeedsReconfiguration)
    else if id == "" then Refused(NoLocation)
    else match Find(ml.locations, id)
      case None => Refused(UnknownLocation)
      case Some(location) =>
        var pid := LocationProxy(ml, location, c);
        if ml.mode == "country_preferred" && pid == "" then Refused(NoPreferred)
        else match Lookup(c.records, pid)
          case None => Refused(NoRecord)
          case Some(record) =>
            if record.code != location.code then Refused(CountryChanged)
            else Via(Exit(record.id, record.endpoint, Some(id)))
  }

  /** `link` is `None` when the caller has no link record at all. */
  function Resolve(link: Option<Link>, requested: Text, c: Config): Choice
  {
    if link.None? then Direct
    else
      var l := link.value;
      match EnabledFor(l, c)
      case Some(ml) => ResolveLocation(ml, requested, c)
      case None =>
        if l.mode == "repository" then
          match Lookup(c.records, l.proxyId)
          case None => Refused(NotCached)
          case Some(record) => Via(Exit(record.id, record.endpoint, None))
        else if l.mode == "custom" then
          match c.urls.validate(l.custom)
          case None => Refused(BadCustomUrl)
          case Some(url) => Via(Exit("custom", url, None))
        else Direct
  }

  /** The configuration asks for a proxy. */
  predicate WantsProxy(link: Option<Link>, c: Config)
  {
    link.Some? && (EnabledFor(link.value, c).Some? || link.value.mode == "repository" || link.value.mode == "custom")
  }

  /** No failure of any lookup turns a proxied link into a direct one. */
  lemma DirectExactlyWhenNoProxyWanted(link: Option<Link>, requested: Text, c: Config)
    ensures Resolve(link, requested, c) == Direct <==> !WantsProxy(link, c)
  {
  }

  lemma {:induction false} FindFinds(locations: seq<Location>, id: Text)
    ensures Find(locations, id).None? <==> forall l :: l in locations ==> !(l.id == id && l.active)
    ensures Find(locations, id).Some? ==>
      var l := Find(locations, id).value; l in locations && l.id == id && l.active
  {
    if locations != [] { FindFinds(locations[1..], id); }
  }

  /** A multi-location session exits through the record of one active requested
      location, in that location's country, or not at all. */
  lemma LocationIsHonoured(link: Link, requested: Text, c: Config)
    requires EnabledFor(link, c).Some?
    ensures var ml := EnabledFor(link, c).value;
      match Resolve(Some(link), requested, c)
      case Direct => false
      case Refused(_) => true
      case Via(exit) =>
        && !ml.migration && |ml.locations| == 2
        && exit.location == Some(Strip(requested)) && exit.location != Some("")
        && exists l, pid ::
             && l in ml.locations && l.active && l.id == Strip(requested)
             && pid == LocationProxy(ml, l, c) && pid in c.records
             && c.records[pid].code == l.code
             && exit.proxyId == c.records[pid].id && exit.endpoint == c.records[pid].endpoint
  {
    var ml := EnabledFor(link, c).value;
    FindFinds(ml.locations, Strip(requested));
    match Resolve(Some(link), requested, c)
    case Via(exit) =>
      var l := Find(ml.locations, Strip(requested)).value;
      var pid := LocationProxy(ml, l, c);
      assert l in ml.locations && pid in c.records;
    case _ =>
  }

  // -------------------------------------------------------- preferred by country

  predicate StillPreferred(code: Text, id: Id, records: map<Id, Record>, tests: map<Id, Result>)
  {
    id in records && records[id].code == code && Eligible(id, tests)
  }

  /** `current_preferred_proxy_by_country`. */
  function CurrentPreferred(preferred: map<Text, Id>, records: map<Id, Record>, tests: map<Id, Result>): map<Text, Id>
  {
    map code | code in preferred && StillPreferred(code, preferred[code], records, tests) :: preferred[code]
  }

  /** A country-preferred session leaves through a proxy of its country whose last
      probe was healthy, whatever was published before and whatever the record table
      has become in the meantime. */
  lemma PreferredExitIsHealthy(
    link: Link, requested: Text, c: Config, published: map<Text, Id>, former: map<Id, Record>, tests: map<Id, Result>)
    requires EnabledFor(link, c).Some? && EnabledFor(link, c).value.mode == "country_preferred"
    requires c.preferred == CurrentPreferred(published, former, tests)
    requires Resolve(Some(link), requested, c).Via?
    ensures exists code, pid ::
      && code in published && published[code] == pid
      && pid in c.records && c.records[pid].code == code && Eligible(pid, tests)
      && Resolve(Some(link), requested, c).exit.endpoint == c.records[pid].endpoint
  {
    LocationIsHonoured(link, requested, c);
    var ml := EnabledFor(link, c).value;
    var l := Find(ml.locations, Strip(requested)).value;
    var pid := LocationProxy(ml, l, c);
    assert l.code in c.preferred && c.preferred[l.code] == pid;
    assert published[l.code] == pid;
  }
}
