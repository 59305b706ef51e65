/** Timed properties of whole runs: how soon a silent device is found, and that a device that keeps
    pinging is never reported. */
module Timing {
  import opened Wrappers
  import opened Devices
  import opened Times
  import opened Runs

  /** The record of a device after the first `k` operations. */
  function Record(s: State, ops: seq<Op>, id: string, k: nat): Option<Device>
    requires k <= |ops|
  {
    Lookup(Run(s, ops[..k]).devices, id)
  }

  /** The operation at position `k` is a ping of the device that the store accepts: a first ping, a ping of
      the stored type, or a ping by id of a stored device. */
  predicate Accepted(s: State, ops: seq<Op>, id: string, k: nat)
    requires k < |ops|
  {
    var found := Record(s, ops, id, k);
    About(ops[k], id) && if found.Some? then Accepts(ops[k].req, found.value.msg.kind) else ops[k].req.Ping?
  }

  predicate IsCheck(op: Op, id: string) {
    op.Call? && op.req == Check(id)
  }

  lemma RunPrefix(s: State, ops: seq<Op>, k: nat)
    requires k < |ops|
    ensures Run(s, ops[..k + 1]) == Apply(Run(s, ops[..k]), ops[k])
  {
    assert ops[..k + 1][..k] == ops[..k];
  }

  lemma RecordStep(s: State, ops: seq<Op>, id: string, k: nat)
    requires KeysMatch(s.devices) && k < |ops|
    ensures Record(s, ops, id, k + 1)
            == if About(ops[k], id) then Settled(ops[k].req, Record(s, ops, id, k), ops[k].now)
               else Record(s, ops, id, k)
  {
    RunPrefix(s, ops, k);
    RunIsLocal(s, ops[..k], id);
    ApplyIsLocal(Run(s, ops[..k]), ops[k], id);
  }

  /** An accepted ping leaves the device online, with the ping's clock sample. */
  lemma AcceptedPing(s: State, ops: seq<Op>, id: string, k: nat)
    requires KeysMatch(s.devices) && k < |ops| && Accepted(s, ops, id, k)
    ensures var d := Record(s, ops, id, k + 1);
            d.Some? && d.value.isOnline && d.value.pingedAt == ops[k].now
  {
    RecordStep(s, ops, id, k);
  }

  lemma OtherCall(r: Request, d: Device, now: int)
    requires !Accepts(r, d.msg.kind)
    ensures var after := Settled(r, Some(d), now).value;
            after.pingedAt == d.pingedAt && (!d.isOnline ==> !after.isOnline)
  {
    match r
    case Ping(m) => assert Respond(r, Some(d), now) == [];
    case MarkOffline(_) =>
    case Check(_) =>
  }

  /** Without an accepted ping, the time of the last ping stands and nothing brings the device online. */
  lemma {:induction false} Silence(s: State, ops: seq<Op>, id: string, i: nat, k: nat)
    requires KeysMatch(s.devices) && i <= k <= |ops|
    requires Record(s, ops, id, i).Some?
    requires forall j :: i <= j < k ==> !Accepted(s, ops, id, j)
    ensures var before, after := Record(s, ops, id, i), Record(s, ops, id, k);
            && after.Some? && after.value.pingedAt == before.value.pingedAt
            && (!before.value.isOnline ==> !after.value.isOnline)
    decreases k - i
  {
    if i < k {
      Silence(s, ops, id, i, k - 1);
      RecordStep(s, ops, id, k - 1);
      if About(ops[k - 1], id) {
        assert !Accepted(s, ops, id, k - 1);
        OtherCall(ops[k - 1].req, Record(s, ops, id, k - 1).value, ops[k - 1].now);
      }
    }
  }

  /** A stored device marked offline stays stored offline until its next accepted ping. */
  lemma {:induction false} MarkedStaysOffline(s: State, ops: seq<Op>, id: string, i: nat, k: nat)
    requires KeysMatch(s.devices) && i < k <= |ops|
    requires ops[i].Call? && ops[i].req == MarkOffline(id) && Record(s, ops, id, i).Some?
    requires forall j :: i < j < k ==> !Accepted(s, ops, id, j)
    ensures var before, after := Record(s, ops, id, i), Record(s, ops, id, k);
            after.Some? && !after.value.isOnline && after.value.pingedAt == before.value.pingedAt
  {
    RecordStep(s, ops, id, i);
    Silence(s, ops, id, i + 1, k);
  }

  predicate NewsAt(s: State, ops: seq<Op>, id: string, k: nat)
    requires k < |ops|
  {
    var found := Record(s, ops, id, k);
    About(ops[k], id) && found.Some? && BringsNews(ops[k].req, found.value)
  }

  lemma NewsStep(s: State, ops: seq<Op>, id: string, k: nat)
    requires KeysMatch(s.devices) && k < |ops| && Record(s, ops, id, k).Some?
    ensures var before, after := Record(s, ops, id, k), Record(s, ops, id, k + 1);
            && after.Some?
            && after.value.updatedAt == if NewsAt(s, ops, id, k) then ops[k].now else before.value.updatedAt
  {
    RecordStep(s, ops, id, k);
    if About(ops[k], id) {
      NewsSetsUpdatedAt(ops[k].req, Record(s, ops, id, k).value, ops[k].now);
    }
  }

  lemma {:induction false} NoNews(s: State, ops: seq<Op>, id: string, i: nat, k: nat)
    requires KeysMatch(s.devices) && i <= k <= |ops| && Record(s, ops, id, i).Some?
    requires forall j :: i <= j < k ==> !NewsAt(s, ops, id, j)
    ensures var before, after := Record(s, ops, id, i), Record(s, ops, id, k);
            after.Some? && after.value.updatedAt == before.value.updatedAt
    decreases k - i
  {
    if i < k {
      NoNews(s, ops, id, i, k - 1);
      NewsStep(s, ops, id, k - 1);
    }
  }

  /** The update time of a stored device is the time of the last call that brought news of it. */
  lemma {:induction false} UpdatedAtIsLastNews(s: State, ops: seq<Op>, id: string, i: nat, k: nat)
    requires KeysMatch(s.devices) && i < k <= |ops| && NewsAt(s, ops, id, i)
    requires forall j :: i < j < k ==> !NewsAt(s, ops, id, j)
    ensures var after := Record(s, ops, id, k); after.Some? && after.value.updatedAt == ops[i].now
  {
    NewsStep(s, ops, id, i);
    NoNews(s, ops, id, i + 1, k);
  }

  /** A chain of checks of one device, neighbours at most `gap` apart. */
  ghost predicate CheckChain(ops: seq<Op>, id: string, chain: seq<nat>, gap: int) {
    && chain != []
    && (forall x :: 0 <= x < |chain| ==> chain[x] < |ops| && IsCheck(ops[chain[x]], id))
    && (forall x :: 0 < x < |chain| ==> ops[chain[x]].now - ops[chain[x - 1]].now <= gap)
  }

  /** A chain that starts by time `lo` and ends after time `hi` has a check in between, if the window is
      no shorter than the gap. */
  lemma {:induction false} ChainHits(ops: seq<Op>, id: string, chain: seq<nat>, gap: int, lo: int, hi: int)
    returns (x: nat)
    requires CheckChain(ops, id, chain, gap)
    requires 0 <= gap
    requires ops[chain[0]].now <= lo && lo + gap <= hi < ops[chain[|chain| - 1]].now
    ensures x < |chain| && lo < ops[chain[x]].now <= hi
    decreases |chain|
  {
    assert |chain| > 1;
    if ops[chain[1]].now > lo {
      x := 1;
    } else {
      var rest := chain[1..];
      forall y | 0 < y < |rest| ensures ops[rest[y]].now - ops[rest[y - 1]].now <= gap {
        assert rest[y] == chain[y + 1] && rest[y - 1] == chain[y];
      }
      assert rest[|rest| - 1] == chain[|chain| - 1];
      var y := ChainHits(ops, id, rest, gap, lo, hi);
      x := y + 1;
    }
  }

  lemma StaleCheck(d: Device, id: string, now: int)
    requires Stale(d, now)
    ensures var after := Settled(Check(id), Some(d), now); after.Some? && !after.value.isOnline
  {
  }

  /** A check more than a minute after the last accepted ping leaves the device offline until the next one. */
  lemma LateCheck(s: State, ops: seq<Op>, id: string, i: nat, c: nat, k: nat)
    requires KeysMatch(s.devices)
    requires i < c < k <= |ops| && Accepted(s, ops, id, i) && IsCheck(ops[c], id)
    requires forall j :: i < j < k ==> !Accepted(s, ops, id, j)
    requires ops[c].now > ops[i].now + MINUTE
    ensures var found := Record(s, ops, id, k); found.Some? && !found.value.isOnline
  {
    assert Record(s, ops, id, c).Some? && Record(s, ops, id, c).value.pingedAt == ops[i].now by {
      AcceptedPing(s, ops, id, i);
      Silence(s, ops, id, i + 1, c);
    }
    RecordStep(s, ops, id, c);
    StaleCheck(Record(s, ops, id, c).value, id, ops[c].now);
    Silence(s, ops, id, c + 1, k);
  }

  /** Detection latency. A device last pinged at time p, in a run whose checks of it are at most
      60 s + d apart from some time no later than p + 60 s until after the instant `at`, is stored offline
      at `at` whenever p + 120 s + d <= at. (`k` is how far the run has come at that instant.) */
  lemma {:induction false} DetectionLatency(
    s: State, ops: seq<Op>, id: string, i: nat, k: nat, at: int, d: nat, chain: seq<nat>)
    requires KeysMatch(s.devices) && Timely(ops)
    requires i < k <= |ops| && Accepted(s, ops, id, i)
    requires forall j :: i < j < k ==> !Accepted(s, ops, id, j)
    requires forall j :: k <= j < |ops| && ops[j].Call? ==> at < ops[j].now
    requires CheckChain(ops, id, chain, MINUTE + d)
    requires ops[chain[0]].now <= ops[i].now + MINUTE
    requires at < ops[chain[|chain| - 1]].now
    requires ops[i].now + 2 * MINUTE + d <= at
    ensures var found := Record(s, ops, id, k); found.Some? && !found.value.isOnline
  {
    var p := ops[i].now;
    var x := ChainHits(ops, id, chain, MINUTE + d, p + MINUTE, at);
    LateCheck(s, ops, id, i, chain[x], k);
  }

  /** No check turns a device offline within a minute of its last accepted ping: it changes nothing. */
  lemma {:induction false} NoEarlyAlarm(s: State, ops: seq<Op>, id: string, i: nat, c: nat)
    requires KeysMatch(s.devices)
    requires i < c < |ops| && Accepted(s, ops, id, i) && IsCheck(ops[c], id)
    requires forall j :: i < j < c ==> !Accepted(s, ops, id, j)
    requires ops[c].now <= ops[i].now + MINUTE
    ensures Run(s, ops[..c + 1]) == Run(s, ops[..c])
  {
    AcceptedPing(s, ops, id, i);
    Silence(s, ops, id, i + 1, c);
    RunPrefix(s, ops, c);
    assert Respond(Check(id), Record(s, ops, id, c), ops[c].now) == [];
  }

  /** Accepted pings that follow one another come at most a minute apart. */
  ghost predicate Lively(s: State, ops: seq<Op>, id: string) {
    forall i, j {:trigger Accepted(s, ops, id, i), Accepted(s, ops, id, j)} ::
      && 0 <= i < j < |ops| && Accepted(s, ops, id, i) && Accepted(s, ops, id, j)
      && (forall n :: i < n < j ==> !Accepted(s, ops, id, n))
      ==> ops[j].now - ops[i].now <= MINUTE
  }

  lemma {:induction false} LastAccepted(s: State, ops: seq<Op>, id: string, c: nat) returns (i: nat)
    requires 0 < c <= |ops| && Accepted(s, ops, id, 0)
    ensures i < c && Accepted(s, ops, id, i)
    ensures forall j :: i < j < c ==> !Accepted(s, ops, id, j)
    decreases c
  {
    if c == 1 || Accepted(s, ops, id, c - 1) {
      i := c - 1;
    } else {
      i := LastAccepted(s, ops, id, c - 1);
    }
  }

  lemma {:induction false} NextAccepted(s: State, ops: seq<Op>, id: string, c: nat) returns (i: nat)
    requires c < |ops| && Accepted(s, ops, id, |ops| - 1)
    ensures c <= i < |ops| && Accepted(s, ops, id, i)
    ensures forall j :: c <= j < i ==> !Accepted(s, ops, id, j)
    decreases |ops| - c
  {
    if Accepted(s, ops, id, c) {
      i := c;
    } else {
      i := NextAccepted(s, ops, id, c + 1);
    }
  }

  lemma PingedRecently(s: State, ops: seq<Op>, id: string, c: nat) returns (i: nat)
    requires Timely(ops)
    requires ops != [] && Accepted(s, ops, id, 0) && Accepted(s, ops, id, |ops| - 1) && Lively(s, ops, id)
    requires 0 < c < |ops| && ops[c].Call? && !Accepted(s, ops, id, c)
    ensures i < c && Accepted(s, ops, id, i) && ops[c].now <= ops[i].now + MINUTE
    ensures forall j :: i < j < c ==> !Accepted(s, ops, id, j)
  {
    i := LastAccepted(s, ops, id, c);
    var j := NextAccepted(s, ops, id, c);
    assert ops[j].now - ops[i].now <= MINUTE;
    assert ops[c].now <= ops[j].now;
  }

  /** No false alarm. In a window that opens and closes with an accepted ping, and in which accepted pings
      are never more than a minute apart, every check of the device leaves the whole store as it was:
      nothing is stored and nobody is told. */
  lemma {:induction false} NoFalseAlarm(s: State, ops: seq<Op>, id: string, c: nat)
    requires KeysMatch(s.devices) && Timely(ops)
    requires ops != [] && Accepted(s, ops, id, 0) && Accepted(s, ops, id, |ops| - 1) && Lively(s, ops, id)
    requires c < |ops| && IsCheck(ops[c], id)
    ensures Run(s, ops[..c + 1]) == Run(s, ops[..c])
  {
    var i := PingedRecently(s, ops, id, c);
    NoEarlyAlarm(s, ops, id, i, c);
  }

  /** In such a window, a device nobody marks offline is online from its first ping on, and nothing is
      announced about it after that ping. */
  lemma {:induction false} LivelyStaysOnline(s: State, ops: seq<Op>, id: string, k: nat)
    requires KeysMatch(s.devices) && Timely(ops)
    requires ops != [] && Accepted(s, ops, id, 0) && Accepted(s, ops, id, |ops| - 1) && Lively(s, ops, id)
    requires forall j :: 0 <= j < |ops| && ops[j].Call? ==> ops[j].req != MarkOffline(id)
    requires 0 < k <= |ops|
    ensures Online(Record(s, ops, id, k))
    ensures NotesOf(Run(s, ops[..k]).events, id) == NotesOf(Run(s, ops[..1]).events, id)
    decreases k
  {
    if k == 1 {
      AcceptedPing(s, ops, id, 0);
    } else {
      LivelyStaysOnline(s, ops, id, k - 1);
      if IsCheck(ops[k - 1], id) {
        NoFalseAlarm(s, ops, id, k - 1);
      } else {
        PingKeepsOnline(s, ops, id, k - 1);
      }
    }
  }

  lemma PingKeepsOnline(s: State, ops: seq<Op>, id: string, k: nat)
    requires KeysMatch(s.devices) && k < |ops| && Online(Record(s, ops, id, k))
    requires !IsCheck(ops[k], id) && (ops[k].Call? ==> ops[k].req != MarkOffline(id))
    ensures Online(Record(s, ops, id, k + 1))
    ensures NotesOf(Run(s, ops[..k + 1]).events, id) == NotesOf(Run(s, ops[..k]).events, id)
  {
    RunPrefix(s, ops, k);
    RunIsLocal(s, ops[..k], id);
    ApplyIsLocal(Run(s, ops[..k]), ops[k], id);
    if About(ops[k], id) {
      OnlinePing(ops[k].req, Record(s, ops, id, k), ops[k].now);
    }
  }

  lemma OnlinePing(r: Request, found: Option<Device>, now: int)
    requires Online(found) && (r.Ping? || r.PingDevice?)
    ensures Online(Settled(r, found, now)) && Told(r, found, now) == []
  {
  }
}
