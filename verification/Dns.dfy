/** DNS reconciliation: `UpdateDNS` points the records of a namespace at an address. */
module Dns {
  import opened Wrappers

  /** `id`, `host`, `kind` (the source's `Type`) and `value` of a record; the rest is never looked at. */
  datatype Record = Record(id: int, host: string, kind: string, value: string)

  /** A read request, and whether the provider granted it: the list of DNS zones, or the records of a zone. */
  datatype Get = Zones(granted: bool) | RecordsOf(zone: int, granted: bool)

  /** A request to give the record with an id a new value. */
  datatype Put = Put(id: int, value: string)

  datatype Outcome = Updated | InfosFailed | NotFound | RecordsFailed | PutFailed

  ghost predicate UniqueIds(records: seq<Record>) {
    forall i, j :: 0 <= i < j < |records| ==> records[i].id != records[j].id
  }

  /** The effect of a successful PUT. */
  function Stored(records: seq<Record>, p: Put): (r: seq<Record>)
    ensures |r| == |records|
    ensures forall i :: 0 <= i < |records| ==>
              r[i] == if records[i].id == p.id then records[i].(value := p.value) else records[i]
  {
    seq(|records|, i requires 0 <= i < |records| =>
      if records[i].id == p.id then records[i].(value := p.value) else records[i])
  }

  function StoredAll(records: seq<Record>, puts: seq<Put>): (r: seq<Record>)
    ensures |r| == |records|
  {
    if puts == [] then records else Stored(StoredAll(records, puts[..|puts| - 1]), puts[|puts| - 1])
  }

  /** The provider: an ordered list of records, one DNS zone or more, and requests that may fail. A request
      that fails changes nothing. `gets` is the history of the read requests, `attempted` that of the PUTs
      sent, and `accepted` that of the successful ones. */
  class Server {
    var zones: seq<int>
    var records: seq<Record>
    ghost var gets: seq<Get>
    ghost var attempted: seq<Put>
    ghost var accepted: seq<Put>

    method GetInfos() returns (ok: bool, infos: seq<int>)
      modifies this`gets
      ensures ok ==> infos == zones
      ensures gets == old(gets) + [Zones(ok)]
    {
      ok := *;
      gets := gets + [Zones(ok)];
      infos := if ok then zones else [];
    }

    method GetRecords(zone: int) returns (ok: bool, list: seq<Record>)
      modifies this`gets
      ensures ok ==> list == records
      ensures gets == old(gets) + [RecordsOf(zone, ok)]
    {
      ok := *;
      gets := gets + [RecordsOf(zone, ok)];
      list := if ok then records else [];
    }

    method Update(id: int, value: string) returns (ok: bool)
      modifies this`records, this`attempted, this`accepted
      ensures records == if ok then Stored(old(records), Put(id, value)) else old(records)
      ensures attempted == old(attempted) + [Put(id, value)]
      ensures accepted == if ok then old(accepted) + [Put(id, value)] else old(accepted)
    {
      ok := *;
      attempted := attempted + [Put(id, value)];
      if ok {
        accepted := accepted + [Put(id, value)];
        records := Stored(records, Put(id, value));
      }
    }
  }

  /** The last record of type A with a host, found by scanning the list. */
  function LastA(records: seq<Record>, host: string): (r: Option<nat>)
    ensures r.Some? ==> r.value < |records| && records[r.value].kind == "A" && records[r.value].host == host
    ensures forall j :: (if r.Some? then r.value + 1 else 0) <= j < |records| ==>
              !(records[j].kind == "A" && records[j].host == host)
  {
    if records == [] then None
    else if records[|records| - 1].kind == "A" && records[|records| - 1].host == host then Some(|records| - 1)
    else LastA(records[..|records| - 1], host)
  }

  /** The PUTs a namespace calls for: each name in order, the last A record of the name with a final dot. */
  function Plan(records: seq<Record>, names: seq<string>, ip: string): seq<Put> {
    if names == [] then []
    else
      var rest, hit := Plan(records, names[..|names| - 1], ip), LastA(records, names[|names| - 1] + ".");
      if hit.Some? then rest + [Put(records[hit.value].id, ip)] else rest
  }

  datatype HTTPClient = HTTPClient(prepared: bool, namespaces: map<string, seq<string>>)

  /** The index agrees with a scan: it maps exactly the hosts of A records, each to its last A record. */
  ghost predicate Indexes(index: map<string, Record>, records: seq<Record>) {
    forall host :: (host in index <==> LastA(records, host).Some?)
                   && (host in index ==> index[host] == records[LastA(records, host).value])
  }

  lemma IndexStep(index: map<string, Record>, records: seq<Record>, k: nat)
    requires k < |records| && Indexes(index, records[..k])
    ensures Indexes(if records[k].kind == "A" then index[records[k].host := records[k]] else index, records[..k + 1])
  {
    assert records[..k + 1][..k] == records[..k];
    assert records[..k + 1][k] == records[k];
  }

  method BuildIndex(records: seq<Record>) returns (index: map<string, Record>)
    ensures Indexes(index, records)
    ensures forall host :: host in index ==> index[host].kind == "A"
  {
    index := map[];
    var k := 0;
    while k < |records|
      invariant 0 <= k <= |records|
      invariant Indexes(index, records[..k])
    {
      IndexStep(index, records, k);
      var record := records[k];
      k := k + 1;
      if record.kind != "A" {
        continue;
      }
      index := index[record.host := record];
    }
    assert records[..k] == records;
  }

  lemma PlanStep(records: seq<Record>, names: seq<string>, ip: string, k: nat)
    requires k < |names|
    ensures var hit := LastA(records, names[k] + ".");
            Plan(records, names[..k + 1], ip)
            == Plan(records, names[..k], ip) + (if hit.Some? then [Put(records[hit.value].id, ip)] else [])
  {
    assert names[..k + 1][..k] == names[..k];
  }

  lemma {:induction false} PlanPrefix(records: seq<Record>, names: seq<string>, ip: string, k: nat)
    requires k <= |names|
    ensures Plan(records, names[..k], ip) <= Plan(records, names, ip)
    decreases |names| - k
  {
    if k == |names| {
      assert names[..k] == names;
    } else {
      PlanStep(records, names, ip, k);
      PlanPrefix(records, names, ip, k + 1);
    }
  }

  lemma StoredSnoc(records: seq<Record>, puts: seq<Put>, p: Put)
    ensures StoredAll(records, puts + [p]) == Stored(StoredAll(records, puts), p)
  {
    assert (puts + [p])[..|puts|] == puts;
  }

  /** What a run of the update loop sent and what the provider accepted. On success both are the whole plan; on
      failure the next PUT of the plan was sent too, refused, and nothing after it. */
  ghost predicate Sent(sent: seq<Put>, done: seq<Put>, plan: seq<Put>, failed: bool) {
    && done <= plan
    && if failed then |done| < |plan| && sent == done + [plan[|done|]] else sent == done == plan
  }

  predicate HasA(records: seq<Record>, host: string) {
    exists r :: r in records && r.kind == "A" && r.host == host
  }

  lemma LastAExists(records: seq<Record>, host: string)
    ensures LastA(records, host).Some? <==> HasA(records, host)
  {
    if r :| r in records && r.kind == "A" && r.host == host {
      var i :| 0 <= i < |records| && records[i] == r;
    }
  }

  /** The positions of the names that are hosts of A records, once a dot is added. */
  function Hosts(records: seq<Record>, names: seq<string>): set<nat> {
    set k: nat | k < |names| && HasA(records, names[k] + ".")
  }

  /** The plan holds one PUT for each name, in order, that is the host of an A record once a dot is added: for the
      last such record. */
  lemma {:induction false} PlanInOrder(records: seq<Record>, names: seq<string>, ip: string) returns (places: seq<nat>)
    ensures Enumerates(places, Hosts(records, names))
    ensures |places| == |Plan(records, names, ip)|
    ensures forall j :: 0 <= j < |places| ==>
              && places[j] < |names| && LastA(records, names[places[j]] + ".").Some?
              && Plan(records, names, ip)[j] == Put(records[LastA(records, names[places[j]] + ".").value].id, ip)
    decreases |names|
  {
    if names == [] {
      places := [];
    } else {
      var init, n := names[..|names| - 1], |names| - 1;
      places := PlanInOrder(records, init, ip);
      LastAExists(records, names[n] + ".");
      HostsMore(records, names);
      if LastA(records, names[n] + ".").Some? {
        EnumerateMore(places, Hosts(records, init), n);
        places := places + [n];
      }
    }
  }

  lemma HostsMore(records: seq<Record>, names: seq<string>)
    requires names != []
    ensures var init, n := names[..|names| - 1], |names| - 1;
            Hosts(records, names) == Hosts(records, init) + if HasA(records, names[n] + ".") then {n} else {}
  {
  }

  /** One PUT of the update loop: on success, the next PUT of the plan is done; on failure, it is not. */
  lemma PutStep(records: seq<Record>, names: seq<string>, ip: string, k: nat, done: seq<Put>)
    requires k < |names| && done == Plan(records, names[..k], ip)
    requires LastA(records, names[k] + ".").Some?
    ensures var p := Put(records[LastA(records, names[k] + ".").value].id, ip);
            && Plan(records, names[..k + 1], ip) == done + [p]
            && StoredAll(records, done + [p]) == Stored(StoredAll(records, done), p)
            && Sent(done + [p], done, Plan(records, names, ip), true)
  {
    PlanStep(records, names, ip, k);
    PlanPrefix(records, names, ip, k + 1);
    StoredSnoc(records, done, Put(records[LastA(records, names[k] + ".").value].id, ip));
  }

  lemma HistoryMore(before: seq<Put>, done: seq<Put>, p: Put)
    ensures before + done + [p] == before + (done + [p])
  {
  }

  /** The update loop. */
  method UpdateRecords(server: Server, index: map<string, Record>, names: seq<string>, ip: string)
    returns (failed: bool, ghost sent: seq<Put>, ghost done: seq<Put>)
    requires Indexes(index, server.records) && forall host :: host in index ==> index[host].kind == "A"
    modifies server`records, server`attempted, server`accepted
    ensures server.attempted == old(server.attempted) + sent && server.accepted == old(server.accepted) + done
    ensures server.records == StoredAll(old(server.records), done)
    ensures Sent(sent, done, Plan(old(server.records), names, ip), failed)
  {
    done := [];
    ghost var records := server.records;
    var k := 0;
    while k < |names|
      invariant 0 <= k <= |names|
      invariant done == Plan(records, names[..k], ip)
      invariant server.attempted == old(server.attempted) + done && server.accepted == old(server.accepted) + done
      invariant server.records == StoredAll(records, done)
    {
      var name := names[k] + ".";
      if name !in index {
        assert Plan(records, names[..k + 1], ip) == done by { PlanStep(records, names, ip, k); }
        k := k + 1;
        continue;
      }
      var record := index[name];
      assert record.kind == "A";
      if record.kind == "A" {
        record := record.(value := ip);
        ghost var p := Put(record.id, ip);
        assert Plan(records, names[..k + 1], ip) == done + [p] && Sent(done + [p], done, Plan(records, names, ip), true)
               && StoredAll(records, done + [p]) == Stored(server.records, p) by {
          PutStep(records, names, ip, k, done);
        }
        HistoryMore(old(server.attempted), done, p);
        HistoryMore(old(server.accepted), done, p);
        var ok := server.Update(record.id, record.value);
        if !ok {
          return true, done + [p], done;
        }
        done := done + [p];
      }
      k := k + 1;
    }
    assert names[..k] == names;
    return false, done, done;
  }

  /** The read requests of an update with a given outcome. */
  predicate GetsMade(c: HTTPClient, zones: seq<int>, gets: seq<Get>, outcome: Outcome) {
    match outcome
    case InfosFailed => gets == if c.prepared then [Zones(false)] else []
    case NotFound => c.prepared && zones == [] && gets == [Zones(true)]
    case RecordsFailed => c.prepared && zones != [] && gets == [Zones(true), RecordsOf(zones[0], false)]
    case Updated => c.prepared && zones != [] && gets == [Zones(true), RecordsOf(zones[0], true)]
    case PutFailed => c.prepared && zones != [] && gets == [Zones(true), RecordsOf(zones[0], true)]
  }

  /** Updates the provider. The PUTs sent and accepted are those of the plan, in order, up to the first one
      refused; none is sent after any other error. Every error has its reason: a client that is not prepared, a
      request refused, or no zone. */
  method UpdateDNS(c: HTTPClient, server: Server, namespace: string, ip: string)
    returns (outcome: Outcome, ghost gets: seq<Get>, ghost sent: seq<Put>, ghost done: seq<Put>)
    modifies server`gets, server`records, server`attempted, server`accepted
    ensures server.gets == old(server.gets) + gets && GetsMade(c, server.zones, gets, outcome)
    ensures server.attempted == old(server.attempted) + sent && server.accepted == old(server.accepted) + done
    ensures server.records == StoredAll(old(server.records), done)
    ensures var names := if namespace in c.namespaces then c.namespaces[namespace] else [];
            if outcome == Updated || outcome == PutFailed
            then Sent(sent, done, Plan(old(server.records), names, ip), outcome == PutFailed)
            else sent == done == []
    ensures c.prepared && server.zones != [] && (forall g :: g in gets ==> g.granted) && sent == done ==>
              outcome == Updated
  {
    gets, sent, done := [], [], [];
    if !c.prepared {
      return InfosFailed, gets, sent, done;
    }
    var ok, infos := server.GetInfos();
    gets := gets + [Zones(ok)];
    if !ok {
      return InfosFailed, gets, sent, done;
    }
    if |infos| == 0 {
      return NotFound, gets, sent, done;
    }
    var records;
    ok, records := server.GetRecords(infos[0]);
    gets := gets + [RecordsOf(infos[0], ok)];
    if !ok {
      return RecordsFailed, gets, sent, done;
    }
    var index := BuildIndex(records);
    var names := if namespace in c.namespaces then c.namespaces[namespace] else [];
    var failed;
    failed, sent, done := UpdateRecords(server, index, names, ip);
    outcome := if failed then PutFailed else Updated;
  }
}
