/** What a run of `UpdateDNS` leaves on the server, after success, failure and retry. */
module DnsProperties {
  import opened Wrappers
  import opened Dns

  /** Some name of the namespace selects the record at position `i`. */
  ghost predicate Chosen(records: seq<Record>, names: seq<string>, i: nat) {
    exists k :: 0 <= k < |names| && LastA(records, names[k] + ".") == Some(i)
  }

  ghost predicate Hit(puts: seq<Put>, id: int) {
    exists p :: p in puts && p.id == id
  }

  ghost predicate AllTo(puts: seq<Put>, ip: string) {
    forall p :: p in puts ==> p.value == ip
  }

  lemma {:induction false} StoredAllEffect(records: seq<Record>, puts: seq<Put>, ip: string)
    requires AllTo(puts, ip)
    ensures forall i :: 0 <= i < |records| ==>
              StoredAll(records, puts)[i] == if Hit(puts, records[i].id) then records[i].(value := ip) else records[i]
    decreases |puts|
  {
    if puts != [] {
      var init, last := puts[..|puts| - 1], puts[|puts| - 1];
      assert forall p :: p in puts <==> p in init || p == last;
      StoredAllEffect(records, init, ip);
      forall i | 0 <= i < |records|
        ensures Hit(puts, records[i].id) <==> Hit(init, records[i].id) || last.id == records[i].id
      {
        if last.id == records[i].id {
          assert last in puts;
        }
      }
    }
  }

  lemma {:induction false} PlanHits(records: seq<Record>, names: seq<string>, ip: string)
    ensures AllTo(Plan(records, names, ip), ip)
    ensures forall p :: p in Plan(records, names, ip) ==>
              exists i: nat :: i < |records| && Chosen(records, names, i) && p.id == records[i].id
    ensures forall i: nat :: i < |records| && Chosen(records, names, i) ==>
              Hit(Plan(records, names, ip), records[i].id)
    decreases |names|
  {
    if names != [] {
      var init, n := names[..|names| - 1], |names| - 1;
      PlanHits(records, init, ip);
      assert names[..n + 1] == names;
      PlanStep(records, names, ip, n);
      var hit := LastA(records, names[n] + ".");
      forall i: nat ensures Chosen(records, names, i) <==> Chosen(records, init, i) || hit == Some(i) {
        ChosenStep(records, names, i);
      }
      if hit.Some? {
        assert Put(records[hit.value].id, ip) in Plan(records, names, ip);
        assert Chosen(records, names, hit.value);
      }
      forall i: nat | i < |records| && Chosen(records, names, i)
        ensures Hit(Plan(records, names, ip), records[i].id)
      {
        if Chosen(records, init, i) {
          var p :| p in Plan(records, init, ip) && p.id == records[i].id;
          assert p in Plan(records, names, ip);
        }
      }
    }
  }

  lemma ChosenStep(records: seq<Record>, names: seq<string>, i: nat)
    requires names != []
    ensures Chosen(records, names, i)
            <==> Chosen(records, names[..|names| - 1], i) || LastA(records, names[|names| - 1] + ".") == Some(i)
  {
    var init := names[..|names| - 1];
    if Chosen(records, init, i) {
      var k :| 0 <= k < |init| && LastA(records, init[k] + ".") == Some(i);
      assert names[k] == init[k];
    }
    if Chosen(records, names, i) {
      var k :| 0 <= k < |names| && LastA(records, names[k] + ".") == Some(i);
      assert k < |init| ==> init[k] == names[k];
    }
  }

  /** Effect and frame. After a successful run, for each name of the namespace the last A record of its host
      holds the new address, and every other record is as it was. */
  lemma {:induction false} EffectAndFrame(records: seq<Record>, names: seq<string>, ip: string)
    requires UniqueIds(records)
    ensures var after := StoredAll(records, Plan(records, names, ip));
            forall i: nat :: i < |records| ==>
              after[i] == if Chosen(records, names, i) then records[i].(value := ip) else records[i]
  {
    PlanHits(records, names, ip);
    var plan := Plan(records, names, ip);
    StoredAllEffect(records, plan, ip);
    forall i: nat | i < |records| ensures Hit(plan, records[i].id) <==> Chosen(records, names, i) {
      if Hit(plan, records[i].id) {
        var p :| p in plan && p.id == records[i].id;
        var j: nat :| j < |records| && Chosen(records, names, j) && p.id == records[j].id;
        assert i == j;
      }
    }
  }

  /** A run that fails at a PUT has gone exactly through the names before some name that selects a record, so
      it leaves what a successful run over those names would (see `EffectAndFrame`). */
  lemma {:induction false} FailureStopsAtAName(records: seq<Record>, names: seq<string>, ip: string, done: seq<Put>)
    returns (m: nat)
    requires done < Plan(records, names, ip)
    ensures m < |names| && LastA(records, names[m] + ".").Some?
    ensures done == Plan(records, names[..m], ip)
    decreases |names|
  {
    var n := |names| - 1;
    assert names[..n + 1] == names;
    PlanStep(records, names, ip, n);
    var before := Plan(records, names[..n], ip);
    if |done| < |before| {
      assert done < before;
      m := FailureStopsAtAName(records, names[..n], ip, done);
      assert names[..n][..m] == names[..m];
    } else {
      assert done == before;
      m := n;
    }
  }

  /** Which records a name selects does not depend on the values. */
  lemma {:induction false} LastAIgnoresValues(a: seq<Record>, b: seq<Record>, host: string)
    requires |a| == |b| && forall i :: 0 <= i < |a| ==> a[i].(value := "") == b[i].(value := "")
    ensures LastA(a, host) == LastA(b, host)
    decreases |a|
  {
    if a != [] {
      var n := |a| - 1;
      assert a[n].(value := "").kind == a[n].kind && b[n].(value := "").kind == b[n].kind;
      assert a[n].(value := "").host == a[n].host && b[n].(value := "").host == b[n].host;
      LastAIgnoresValues(a[..n], b[..n], host);
    }
  }

  lemma {:induction false} PlanIgnoresValues(a: seq<Record>, b: seq<Record>, names: seq<string>, ip: string)
    requires |a| == |b| && forall i :: 0 <= i < |a| ==> a[i].(value := "") == b[i].(value := "")
    ensures Plan(a, names, ip) == Plan(b, names, ip)
    decreases |names|
  {
    if names != [] {
      PlanIgnoresValues(a, b, names[..|names| - 1], ip);
      var host := names[|names| - 1] + ".";
      LastAIgnoresValues(a, b, host);
      var hit := LastA(a, host);
      if hit.Some? {
        assert a[hit.value].(value := "").id == b[hit.value].(value := "").id;
      }
    }
  }

  /** One attempt, complete or not, leaves the plan as it was, and a full run after it ends where a full run
      without it would. */
  lemma {:induction false} AttemptIsHarmless(records: seq<Record>, names: seq<string>, ip: string, done: seq<Put>)
    requires done <= Plan(records, names, ip)
    ensures var after := StoredAll(records, done);
            && Plan(after, names, ip) == Plan(records, names, ip)
            && StoredAll(after, Plan(after, names, ip)) == StoredAll(records, Plan(records, names, ip))
  {
    var plan := Plan(records, names, ip);
    PlanHits(records, names, ip);
    assert forall p :: p in done ==> p in plan;
    StoredAllEffect(records, done, ip);
    PlanIgnoresValues(StoredAll(records, done), records, names, ip);
    OverwriteAll(records, done, plan, ip);
  }

  /** Redoing some PUTs among all of them makes no difference. */
  lemma OverwriteAll(records: seq<Record>, done: seq<Put>, plan: seq<Put>, ip: string)
    requires AllTo(plan, ip) && forall p :: p in done ==> p in plan
    ensures StoredAll(StoredAll(records, done), plan) == StoredAll(records, plan)
  {
    var after := StoredAll(records, done);
    StoredAllEffect(records, done, ip);
    StoredAllEffect(after, plan, ip);
    StoredAllEffect(records, plan, ip);
    forall i | 0 <= i < |records| ensures StoredAll(after, plan)[i] == StoredAll(records, plan)[i] {
      assert after[i].id == records[i].id;
      if Hit(done, records[i].id) {
        var p :| p in done && p.id == records[i].id;
        assert p in plan;
      }
    }
  }

  /** The server after a series of attempts, each given by the PUTs it got through. */
  function AfterAttempts(records: seq<Record>, attempts: seq<seq<Put>>): seq<Record> {
    if attempts == [] then records
    else StoredAll(AfterAttempts(records, attempts[..|attempts| - 1]), attempts[|attempts| - 1])
  }

  /** Every attempt gets through a prefix of what the records it finds call for. */
  ghost predicate AreAttempts(records: seq<Record>, attempts: seq<seq<Put>>, names: seq<string>, ip: string) {
    forall n :: 0 <= n < |attempts| ==> attempts[n] <= Plan(AfterAttempts(records, attempts[..n]), names, ip)
  }

  /** Retry converges. After any number of attempts that fail anywhere (or succeed), a successful run leaves
      the server exactly as one successful run at the start would have; another successful run after that
      changes nothing. */
  lemma {:induction false} RetryConverges(records: seq<Record>, attempts: seq<seq<Put>>, names: seq<string>, ip: string)
    requires AreAttempts(records, attempts, names, ip)
    ensures var mid := AfterAttempts(records, attempts);
            var end := StoredAll(mid, Plan(mid, names, ip));
            && end == StoredAll(records, Plan(records, names, ip))
            && StoredAll(end, Plan(end, names, ip)) == end
    decreases |attempts|
  {
    if attempts == [] {
      Idempotent(records, names, ip);
    } else {
      var init, n := attempts[..|attempts| - 1], |attempts| - 1;
      forall k | 0 <= k < |init| ensures init[k] <= Plan(AfterAttempts(records, init[..k]), names, ip) {
        assert init[..k] == attempts[..k] && init[k] == attempts[k];
      }
      RetryConverges(records, init, names, ip);
      assert attempts[..n] == init;
      AttemptIsHarmless(AfterAttempts(records, init), names, ip, attempts[n]);
      Idempotent(AfterAttempts(records, attempts), names, ip);
    }
  }

  lemma Idempotent(records: seq<Record>, names: seq<string>, ip: string)
    ensures var end := StoredAll(records, Plan(records, names, ip));
            StoredAll(end, Plan(end, names, ip)) == end
  {
    AttemptIsHarmless(records, names, ip, Plan(records, names, ip));
  }
}
