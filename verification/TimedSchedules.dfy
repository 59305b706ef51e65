/** The timed results carried over to interleavings in which calls on one device do not overlap. */
module TimedSchedules {
  import opened Devices
  import opened Times
  import opened Runs
  import opened Interleaving
  import opened LockSafety
  import opened Serial
  import opened Serialisability
  import opened Timing

  /** At every moment at which no call has work left on a device, its record and its subscriber calls are those of
      the serial run so far. */
  lemma RecordAtRest(devices: Registry, subs: seq<Callback>, clock: int, steps: seq<Step>, id: string)
    requires RegistryOk(devices, clock) && NeverOverlapping(Start(devices, |subs|, clock), steps)
    requires forall t :: !Busy(After(Start(devices, |subs|, clock), steps), t, id)
    ensures var c := After(Start(devices, |subs|, clock), steps);
            var serial := Run(State(devices, subs, [], []), OrderOps(c.order));
            Lookup(c.devices, id) == Lookup(serial.devices, id) && SentOf(c.log, id) == SentOf(serial.sent, id)
  {
    var c, s0 := After(Start(devices, |subs|, clock), steps), State(devices, subs, [], []);
    assert AgreesOn(SerialState(s0, c), c, id) by { AlwaysAgrees(devices, subs, clock, steps); }
    assert Ahead(SerialState(s0, c), c, id, []);
  }

  /** A call that samples the clock later does so at a later time. */
  lemma {:induction false} LaterSamples(c: Config, steps: seq<Step>)
    ensures c.order <= After(c, steps).order && c.clock <= After(c, steps).clock
    ensures forall j :: |c.order| <= j < |After(c, steps).order| ==> c.clock <= After(c, steps).order[j].now
    decreases |steps|
  {
    if steps != [] {
      var init, last := steps[..|steps| - 1], steps[|steps| - 1];
      LaterSamples(c, init);
      StepOrder(After(c, init), last);
      StepEntry(After(c, init), last, 0);
    }
  }

  lemma {:induction false} SerialRunSoFar(c0: Config, steps: seq<Step>, m: nat)
    requires m <= |steps|
    ensures var mid, end := After(c0, steps[..m]), After(c0, steps);
            && |mid.order| <= |end.order|
            && OrderOps(mid.order) == OrderOps(end.order)[..|mid.order|]
            && forall j :: |mid.order| <= j < |end.order| ==> mid.clock <= end.order[j].now
  {
    LaterSamples(After(c0, steps[..m]), steps[m..]);
    AfterConcat(c0, steps[..m], steps[m..]);
    assert steps[..m] + steps[m..] == steps;
  }

  lemma {:induction false} SerialRunIsTimely(devices: Registry, fans: nat, clock: int, steps: seq<Step>)
    ensures Timely(OrderOps(After(Start(devices, fans, clock), steps).order))
  {
    assert OrderInv(Start(devices, fans, clock)) by {
      assert SampledCalls(Start(devices, fans, clock)) == {} && Ordered([]) == {};
    }
    OrderAlways(Start(devices, fans, clock), steps);
  }

  /** Detection latency in interleavings. Take a moment `m` of a schedule up to which no calls on one device have
      overlapped, and at which no call has work left on the device. If the device was last pinged at time p, and
      its checks are at most 60 s + d apart from some time no later than p + 60 s until the moment's or later,
      then it is stored offline whenever the moment is later than p + 120 s + d. Pings and checks are those of
      the serial run. */
  lemma {:induction false} DetectionInSchedules(
    devices: Registry, subs: seq<Callback>, clock: int, steps: seq<Step>, m: nat, id: string, i: nat, d: nat,
    chain: seq<nat>)
    requires RegistryOk(devices, clock) && m <= |steps|
    requires NeverOverlapping(Start(devices, |subs|, clock), steps[..m])
    requires var c0, s0 := Start(devices, |subs|, clock), State(devices, subs, [], []);
             var mid, ops := After(c0, steps[..m]), OrderOps(After(c0, steps).order);
             && (forall t :: !Busy(mid, t, id))
             && i < |mid.order| <= |ops| && Accepted(s0, ops, id, i)
             && (forall j :: i < j < |mid.order| ==> !Accepted(s0, ops, id, j))
             && CheckChain(ops, id, chain, MINUTE + d)
             && ops[chain[0]].now <= ops[i].now + MINUTE && mid.clock <= ops[chain[|chain| - 1]].now
             && ops[i].now + 2 * MINUTE + d < mid.clock
    ensures var found := Lookup(After(Start(devices, |subs|, clock), steps[..m]).devices, id);
            found.Some? && !found.value.isOnline
  {
    var c0, s0 := Start(devices, |subs|, clock), State(devices, subs, [], []);
    var mid, ops := After(c0, steps[..m]), OrderOps(After(c0, steps).order);
    SerialRunSoFar(c0, steps, m);
    SerialRunIsTimely(devices, |subs|, clock, steps);
    assert Lookup(mid.devices, id) == Record(s0, ops, id, |mid.order|) by {
      RecordAtRest(devices, subs, clock, steps[..m], id);
    }
    DetectionLatency(s0, ops, id, i, |mid.order|, mid.clock - 1, d, chain);
  }

  /** No early alarm in interleavings. A check that samples the clock within a minute of the last accepted ping of
      the serial run changes nothing, calls nobody and has nothing left to do. */
  lemma {:induction false} NoEarlyAlarmInSchedules(
    devices: Registry, subs: seq<Callback>, clock: int, steps: seq<Step>, t: nat, id: string, i: nat)
    requires RegistryOk(devices, clock) && NeverOverlapping(Start(devices, |subs|, clock), steps)
    requires var s0, c := State(devices, subs, [], []), After(Start(devices, |subs|, clock), steps);
             var ops := OrderOps(c.order);
             && t in c.threads && c.threads[t].Updating? && c.threads[t].req == Check(id) && c.threads[t].pc.Have?
             && i < |ops| && Accepted(s0, ops, id, i) && (forall j :: i < j < |ops| ==> !Accepted(s0, ops, id, j))
             && c.clock <= ops[i].now + MINUTE
    ensures var c := After(Start(devices, |subs|, clock), steps);
            Exec(c, Go(t, "")) == Replace(c.(order := c.order + [Entry(t, Check(id), c.clock)]), t,
                                          Updating(Check(id), Working([])))
  {
    var s0, c := State(devices, subs, [], []), After(Start(devices, |subs|, clock), steps);
    var ops := OrderOps(c.order);
    HeldRecord(devices, subs, clock, steps, t, id);
    assert ops[..|ops|] == ops;
    AcceptedPing(s0, ops, id, i);
    Silence(s0, ops, id, i + 1, |ops|);
    assert Respond(Check(id), c.threads[t].pc.found, c.clock) == [];
    assert Expand(c.fans, []) == [];
  }

  /** The copy of a call about to sample the clock is the record of the serial run so far. */
  lemma HeldRecord(devices: Registry, subs: seq<Callback>, clock: int, steps: seq<Step>, t: nat, id: string)
    requires RegistryOk(devices, clock) && NeverOverlapping(Start(devices, |subs|, clock), steps)
    requires var c := After(Start(devices, |subs|, clock), steps);
             t in c.threads && c.threads[t].Updating? && c.threads[t].pc.Have? && Target(c.threads[t].req) == id
    ensures var c := After(Start(devices, |subs|, clock), steps);
            c.threads[t].pc.found == Lookup(Run(State(devices, subs, [], []), OrderOps(c.order)).devices, id)
  {
    var c := After(Start(devices, |subs|, clock), steps);
    assert CopiesFresh(c) by { AlwaysAgrees(devices, subs, clock, steps); }
    assert CopyFresh(c.threads[t], c.devices);
    assert steps[..|steps|] == steps;
    NobodyElse(c, t, id);
    RecordAtRest(devices, subs, clock, steps, id);
  }
}
