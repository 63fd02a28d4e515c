/** The managed proxy table: which lines of the list become records
    (`parse_text` in `proxy_repository.py`), and what that gives the exit routing. */
module Repository {
  import opened Common
  import opened RankModel
  import opened TargetModel
  import opened RouteModel
  import opened DialModel

  const MAX_PROXIES := 1000

  /** A line that carries country and health after its `#`. */
  datatype Row = Row(raw: Text, code: Text)

  /** The hash that names an endpoint. */
  type Naming = Text -> Id

  function Ids(records: seq<Record>): set<Id>
  {
    set i | 0 <= i < |records| :: records[i].id
  }

  /** Lines one by one: malformed ones and repeated endpoints are skipped, a full table
      takes no more. */
  function Parsed(rows: seq<Row>, urls: Urls, name: Naming): seq<Record>
  {
    if rows == [] then []
    else
      var front, row := Parsed(rows[..|rows| - 1], urls, name), rows[|rows| - 1];
      match urls.validate(row.raw)
      case None => front
      case Some(endpoint) =>
        if |front| >= MAX_PROXIES || name(endpoint) in Ids(front) then front
        else front + [Record(name(endpoint), row.code, endpoint)]
  }

  method ParseText(rows: seq<Row>, urls: Urls, name: Naming) returns (records: seq<Record>)
    ensures records == Parsed(rows, urls, name)
  {
    records := [];
    var seen: set<Id> := {};
    for i := 0 to |rows|
      invariant records == Parsed(rows[..i], urls, name) && |records| < MAX_PROXIES
      invariant seen == Ids(records)
    {
      assert rows[..i + 1][..i] == rows[..i];
      var endpoint := urls.validate(rows[i].raw);
      if endpoint.Some? && name(endpoint.value) !in seen {
        var id := name(endpoint.value);
        IdsAppend(records, Record(id, rows[i].code, endpoint.value));
        seen := seen + {id};
        records := records + [Record(id, rows[i].code, endpoint.value)];
        if |records| >= MAX_PROXIES {
          FullStaysFull(rows, i + 1, urls, name);
          return;
        }
      }
    }
    assert rows[..|rows|] == rows;
  }

  lemma IdsAppend(records: seq<Record>, r: Record)
    ensures Ids(records + [r]) == Ids(records) + {r.id}
  {
    var all := records + [r];
    assert all[|records|] == r;
    forall id | id in Ids(records) ensures id in Ids(all) {
      var i :| 0 <= i < |records| && records[i].id == id;
      assert all[i] == records[i];
    }
  }

  lemma {:induction false} FullStaysFull(rows: seq<Row>, n: nat, urls: Urls, name: Naming)
    requires n <= |rows| && |Parsed(rows[..n], urls, name)| >= MAX_PROXIES
    ensures Parsed(rows, urls, name) == Parsed(rows[..n], urls, name)
    decreases |rows|
  {
    if n == |rows| {
      assert rows[..n] == rows;
    } else {
      var front := rows[..|rows| - 1];
      assert front[..n] == rows[..n];
      FullStaysFull(front, n, urls, name);
    }
  }

  /** A record stems from a valid line, and is named by its endpoint. */
  ghost predicate Stems(r: Record, rows: seq<Row>, urls: Urls, name: Naming)
  {
    r.id == name(r.endpoint) &&
    exists row :: row in rows && urls.validate(row.raw) == Some(r.endpoint) && r.code == row.code
  }

  /** At most 1000 records with different ids; each stems from a line, and every valid
      line is represented unless the table is full. */
  lemma {:induction false} ParsedTable(rows: seq<Row>, urls: Urls, name: Naming)
    ensures var t := Parsed(rows, urls, name);
      && |t| <= MAX_PROXIES
      && (forall i, j :: 0 <= i < j < |t| ==> t[i].id != t[j].id)
      && (forall r :: r in t ==> Stems(r, rows, urls, name))
      && (forall row :: row in rows && urls.validate(row.raw).Some? ==>
            |t| == MAX_PROXIES || name(urls.validate(row.raw).value) in Ids(t))
    decreases |rows|
  {
    if rows != [] {
      var front, row := rows[..|rows| - 1], rows[|rows| - 1];
      assert rows == front + [row];
      ParsedTable(front, urls, name);
      var before, t := Parsed(front, urls, name), Parsed(rows, urls, name);
      forall r | r in t ensures Stems(r, rows, urls, name) {
        if r in before {
          assert Stems(r, front, urls, name);
          var q :| q in front && urls.validate(q.raw) == Some(r.endpoint) && r.code == q.code;
          assert q in rows;
        } else {
          assert row in rows;
        }
      }
      if t != before {
        IdsAppend(before, t[|before|]);
        forall i | 0 <= i < |before| ensures t[i].id != t[|before|].id {
          assert before[i].id in Ids(before);
        }
      }
    }
  }

  /** The cache that lookups use. */
  function Table(records: seq<Record>): map<Id, Record>
  {
    if records == [] then map[]
    else Table(records[..|records| - 1])[records[|records| - 1].id := records[|records| - 1]]
  }

  lemma {:induction false} TableEntries(records: seq<Record>)
    ensures forall id :: id in Table(records) ==> Table(records)[id] in records && Table(records)[id].id == id
    decreases |records|
  {
    if records != [] { TableEntries(records[..|records| - 1]); }
  }

  /** With the table as the loader builds it, and a validation that never answers with an
      empty URL, a session goes direct if and only if no proxy is configured for it, and a
      repository link exits through exactly the record it names. */
  lemma LoadedTableNeverLeaks(
    rows: seq<Row>, name: Naming, link: Option<Link>, requested: Text, c: Config, to: Target,
    world: seq<Attempt>)
    requires |world| >= 2 && c.records == Table(Parsed(rows, c.urls, name))
    requires forall u :: c.urls.validate(u) != Some("")
    ensures GoesDirect(Session(link, requested, c, to, world)) <==> !WantsProxy(link, c)
    ensures link.Some? && EnabledFor(link.value, c).None? && link.value.mode == "repository" ==>
      match Resolve(link, requested, c)
      case Via(exit) => exit.proxyId == link.value.proxyId == name(exit.endpoint)
      case _ => link.value.proxyId !in c.records
  {
    var t := Parsed(rows, c.urls, name);
    ParsedTable(rows, c.urls, name);
    TableEntries(t);
    forall id | id in c.records ensures c.records[id].endpoint != "" {
      assert Stems(c.records[id], rows, c.urls, name);
    }
    NeverLeaks(link, requested, c, to, world);
    if link.Some? && link.value.proxyId in c.records {
      assert Stems(c.records[link.value.proxyId], rows, c.urls, name);
    }
  }
}
