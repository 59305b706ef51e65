/** The serial run of an interleaving, and what it means for the devices. */
module Serialisability {
  import opened Devices
  import opened Runs
  import opened Isolation
  import opened Interleaving
  import opened LockSafety
  import opened Serial

  /** The call has sampled the clock. */
  predicate Sampled(pc: UpdatePc) {
    pc.Working? || pc.WriteLocked? || pc.WriteDone? || pc.Finished?
  }

  function Ordered(order: seq<Entry>): set<nat> {
    set e | e in order :: e.t
  }

  function SampledCalls(c: Config): set<nat> {
    set t | t in c.threads && c.threads[t].Updating? && Sampled(c.threads[t].pc)
  }

  /** The serial order holds every call that has sampled the clock, once, as it was made, and its clock
      samples do not go back. */
  ghost predicate OrderInv(c: Config) {
    && Ordered(c.order) == SampledCalls(c)
    && (forall i :: 0 <= i < |c.order| ==> EntryOk(c, c.order[i]))
    && (forall i, j :: 0 <= i < j < |c.order| ==> c.order[i].t != c.order[j].t && c.order[i].now <= c.order[j].now)
  }

  predicate EntryOk(c: Config, e: Entry) {
    e.t in c.threads && c.threads[e.t].Updating? && c.threads[e.t].req == e.req && e.now <= c.clock
  }

  lemma StepEntry(c: Config, st: Step, t: nat)
    ensures var c' := Exec(c, st);
            && c.clock <= c'.clock
            && (t in c.threads ==> t in c'.threads)
            && (t in c.threads && c.threads[t].Updating? ==>
                  c'.threads[t].Updating? && c'.threads[t].req == c.threads[t].req)
            && (if t in c'.threads && c'.threads[t].Updating? && Sampled(c'.threads[t].pc)
                then t in c.threads && c.threads[t].Updating?
                     && (Sampled(c.threads[t].pc) || (c.threads[t].pc.Have? && st.Go? && st.t == t))
                else !(t in c.threads && c.threads[t].Updating? && Sampled(c.threads[t].pc)))
  {
    if st.Go? && st.t in c.threads && c.threads[st.t].Updating? {
      GoUpdateFrame(c, st.t);
      if t == st.t {
        OwnPc(c, t);
      }
    } else {
      UnmovedThread(c, st, t);
    }
  }

  lemma OwnPc(c: Config, t: nat)
    requires t in c.threads && c.threads[t].Updating?
    ensures var c' := GoUpdate(c, t, c.threads[t].req, c.threads[t].pc);
            && t in c'.threads && c'.threads[t].Updating?
            && (Sampled(c'.threads[t].pc) <==> Sampled(c.threads[t].pc) || c.threads[t].pc.Have?)
  {
  }

  /** The order grows exactly when a call samples the clock, by that call. */
  lemma StepOrder(c: Config, st: Step)
    ensures var c' := Exec(c, st);
            if st.Go? && st.t in c.threads && c.threads[st.t].Updating? && c.threads[st.t].pc.Have?
            then c'.order == c.order + [Entry(st.t, c.threads[st.t].req, c.clock)]
                 && st.t in c'.threads && c'.threads[st.t].Updating? && Sampled(c'.threads[st.t].pc)
            else c'.order == c.order
  {
  }

  lemma StepKeepsOrder(c: Config, st: Step)
    requires OrderInv(c)
    ensures OrderInv(Exec(c, st)) && c.order <= Exec(c, st).order
  {
    var c' := Exec(c, st);
    StepOrder(c, st);
    forall t: nat ensures t in Ordered(c'.order) <==> t in SampledCalls(c') {
      StepEntry(c, st, t);
      assert t in Ordered(c.order) <==> t in SampledCalls(c);
      if c'.order != c.order {
        assert forall e :: e in c'.order <==> e in c.order || e == c'.order[|c.order|];
      }
    }
    forall i | 0 <= i < |c.order| ensures EntryOk(c', c.order[i]) && c.order[i].t in SampledCalls(c) {
      StepEntry(c, st, c.order[i].t);
      assert c.order[i] in c.order;
      assert c.order[i].t in Ordered(c.order);
    }
  }

  ghost predicate Concurrent(c: Config, s0: State) {
    && LockInv(c) && DataInv(c) && CopiesFresh(c) && OrderInv(c)
    && KeysMatch(SerialState(s0, c).devices) && |SerialState(s0, c).subs| == c.fans
    && forall id :: AgreesOn(SerialState(s0, c), c, id)
  }

  lemma StepKeepsAll(s0: State, c: Config, st: Step)
    requires Exclusive(c) && Concurrent(c, s0)
    ensures Concurrent(Exec(c, st), s0)
  {
    StepKeepsLock(c, st);
    StepKeepsData(c, st);
    StepKeepsFresh(c, st);
    StepKeepsOrder(c, st);
    forall id ensures AgreesOn(SerialState(s0, Exec(c, st)), Exec(c, st), id) {
      StepKeepsAgreement(s0, c, st, id);
    }
    SerialStep(s0, c, st);
  }

  lemma SerialStep(s0: State, c: Config, st: Step)
    requires KeysMatch(SerialState(s0, c).devices) && |SerialState(s0, c).subs| == c.fans
    ensures KeysMatch(SerialState(s0, Exec(c, st)).devices)
    ensures |SerialState(s0, Exec(c, st)).subs| == Exec(c, st).fans
  {
    StepOrder(c, st);
    StepFans(c, st);
    if Exec(c, st).order != c.order {
      var e := Entry(st.t, c.threads[st.t].req, c.clock);
      OrderSnoc(s0, c.order, e);
      ApplyCall(SerialState(s0, c), e.req, e.now);
    }
  }

  lemma StepFans(c: Config, st: Step)
    ensures Exec(c, st).fans == c.fans
  {
  }

  lemma AgreesAtStart(devices: Registry, subs: seq<Callback>, clock: int)
    requires RegistryOk(devices, clock)
    ensures Concurrent(Start(devices, |subs|, clock), State(devices, subs, [], []))
  {
    var c0, s0 := Start(devices, |subs|, clock), State(devices, subs, [], []);
    SafeAtStart(devices, |subs|, clock);
    assert OrderOps([]) == [];
    assert SerialState(s0, c0) == s0;
    assert OrderInv(c0) by {
      assert SampledCalls(c0) == {} && Ordered([]) == {};
    }
    forall id ensures AgreesOn(s0, c0, id) {
      assert forall t :: !Busy(c0, t, id);
      assert Ahead(s0, c0, id, []);
    }
  }

  lemma NotOverlappingBefore(c0: Config, steps: seq<Step>)
    requires steps != [] && NeverOverlapping(c0, steps)
    ensures var init := steps[..|steps| - 1]; NeverOverlapping(c0, init) && Exclusive(After(c0, init))
  {
    var init := steps[..|steps| - 1];
    forall k | 0 <= k <= |init| ensures Exclusive(After(c0, init[..k])) {
      assert init[..k] == steps[..k];
    }
    assert init[..|init|] == init;
  }

  lemma {:induction false} StaysConcurrent(c0: Config, s0: State, steps: seq<Step>)
    requires Concurrent(c0, s0) && NeverOverlapping(c0, steps)
    ensures Concurrent(After(c0, steps), s0)
    decreases |steps|
  {
    if steps != [] {
      var init, last := steps[..|steps| - 1], steps[|steps| - 1];
      assert After(c0, steps) == Exec(After(c0, init), last);
      assert Exclusive(After(c0, init)) && Concurrent(After(c0, init), s0) by {
        NotOverlappingBefore(c0, steps);
        StaysConcurrent(c0, s0, init);
      }
      StepKeepsAll(s0, After(c0, init), last);
    }
  }

  lemma AlwaysAgrees(devices: Registry, subs: seq<Callback>, clock: int, steps: seq<Step>)
    requires RegistryOk(devices, clock)
    requires NeverOverlapping(Start(devices, |subs|, clock), steps)
    ensures Concurrent(After(Start(devices, |subs|, clock), steps), State(devices, subs, [], []))
  {
    AgreesAtStart(devices, subs, clock);
    StaysConcurrent(Start(devices, |subs|, clock), State(devices, subs, [], []), steps);
  }

  /** Every call that changes records has returned. */
  ghost predicate Quiet(c: Config) {
    forall t :: !Active(c, t)
  }

  /** Per-device serialisability. If no two calls on the same device are engaged at once (each counting from
      its read to its last action), then whatever the interleaving, once all calls have returned the map is
      the one a serial run of the same calls with the same clock samples ends with, and each device's
      subscriber calls are those of the serial run. The serial run holds every call exactly once, and its
      clock does not go back. */
  lemma {:induction false} Serialisable(devices: Registry, subs: seq<Callback>, clock: int, steps: seq<Step>)
    requires RegistryOk(devices, clock)
    requires NeverOverlapping(Start(devices, |subs|, clock), steps)
    requires Quiet(After(Start(devices, |subs|, clock), steps))
    ensures var c := After(Start(devices, |subs|, clock), steps);
            var serial := Run(State(devices, subs, [], []), OrderOps(c.order));
            && c.devices == serial.devices
            && (forall id :: SentOf(c.log, id) == SentOf(serial.sent, id))
            && Timely(OrderOps(c.order))
            && OrderInv(c)
            && (forall t :: t in c.threads && c.threads[t].Updating? ==> t in Ordered(c.order))
  {
    var c := After(Start(devices, |subs|, clock), steps);
    var s0 := State(devices, subs, [], []);
    AlwaysAgrees(devices, subs, clock, steps);
    var serial := SerialState(s0, c);
    forall id
      ensures Lookup(c.devices, id) == Lookup(serial.devices, id)
      ensures SentOf(c.log, id) == SentOf(serial.sent, id)
    {
      assert forall t :: Busy(c, t, id) ==> Active(c, t);
      assert AgreesOn(serial, c, id);
      assert Ahead(serial, c, id, []);
    }
    assert forall id :: id in c.devices <==> Lookup(c.devices, id).Some?;
    assert forall id :: id in serial.devices <==> Lookup(serial.devices, id).Some?;
    forall t | t in c.threads && c.threads[t].Updating? ensures t in Ordered(c.order) {
      assert !Active(c, t);
      assert t in SampledCalls(c);
    }
  }

  lemma {:induction false} SentInRun(s: State, ops: seq<Op>, id: string)
    requires KeysMatch(s.devices) && forall i :: 0 <= i < |ops| ==> ops[i].Call?
    ensures Run(s, ops).subs == s.subs && KeysMatch(Run(s, ops).devices)
    ensures SentOf(Run(s, ops).sent, id)
            == SentOf(s.sent, id) + FanoutAll(|s.subs|, RunView(Lookup(s.devices, id), ops, id).notes)
    decreases |ops|
  {
    if ops != [] {
      var init := ops[..|ops| - 1];
      SentInRun(s, init, id);
      RunIsLocal(s, init, id);
      SentStep(Run(s, init), SentOf(s.sent, id), RunView(Lookup(s.devices, id), init, id), ops[|ops| - 1], id);
    }
  }

  lemma SentStep(s: State, before: seq<Delivery>, v: View, op: Op, id: string)
    requires KeysMatch(s.devices) && op.Call? && Lookup(s.devices, id) == v.found
    requires SentOf(s.sent, id) == before + FanoutAll(|s.subs|, v.notes)
    ensures Apply(s, op).subs == s.subs && KeysMatch(Apply(s, op).devices)
    ensures SentOf(Apply(s, op).sent, id) == before + FanoutAll(|s.subs|, StepView(v, op, id).notes)
  {
    var told := if About(op, id) then Told(op.req, v.found, op.now) else [];
    assert KeysMatch(Apply(s, op).devices) && Apply(s, op).subs == s.subs by {
      ApplyIsLocal(s, op, id);
      SubsAfter(s, op);
    }
    assert SentOf(Apply(s, op).sent, id) == SentOf(s.sent, id) + FanoutAll(|s.subs|, told) by {
      ApplyIsLocal(s, op, id);
    }
    assert StepView(v, op, id).notes == v.notes + told && |told| <= 1;
    TellMore(|s.subs|, before, v.notes, told);
  }

  lemma TellMore(n: nat, before: seq<Delivery>, notes: seq<Device>, told: seq<Device>)
    requires |told| <= 1
    ensures before + FanoutAll(n, notes) + FanoutAll(n, told) == before + FanoutAll(n, notes + told)
  {
    FanoutConcat(n, notes, told);
  }

  lemma FanoutConcat(n: nat, notes: seq<Device>, told: seq<Device>)
    requires |told| <= 1
    ensures FanoutAll(n, notes + told) == FanoutAll(n, notes) + FanoutAll(n, told)
  {
    if told == [] {
      assert notes + told == notes;
    } else {
      assert (notes + told)[..|notes|] == notes;
      assert told == [told[0]];
      FanoutOne(n, told[0], "");
    }
  }

  /** What subscribers hear of a device alternates in every interleaving in which calls on one device do not
      overlap: each announcement goes to every subscriber in order before the next one, and they flip the
      state back and forth from the one stored at the start to the one stored at the end. */
  lemma {:induction false} InterleavedAlternation(
    devices: Registry, subs: seq<Callback>, clock: int, steps: seq<Step>, id: string) returns (notes: seq<Device>)
    requires RegistryOk(devices, clock)
    requires NeverOverlapping(Start(devices, |subs|, clock), steps)
    requires Quiet(After(Start(devices, |subs|, clock), steps))
    ensures var c := After(Start(devices, |subs|, clock), steps);
            && SentOf(c.log, id) == FanoutAll(|subs|, notes)
            && Alternates(Online(Lookup(devices, id)), notes)
            && Online(Lookup(c.devices, id)) == LastState(Online(Lookup(devices, id)), notes)
  {
    var c := After(Start(devices, |subs|, clock), steps);
    var s0 := State(devices, subs, [], []);
    Serialisable(devices, subs, clock, steps);
    notes := RunView(Lookup(devices, id), OrderOps(c.order), id).notes;
    SentInRun(s0, OrderOps(c.order), id);
    Alternation(s0, OrderOps(c.order), id);
    assert SentOf([], id) + FanoutAll(|subs|, notes) == FanoutAll(|subs|, notes);
  }

  lemma {:induction false} OrderAlways(c: Config, steps: seq<Step>)
    requires OrderInv(c)
    ensures OrderInv(After(c, steps))
    decreases |steps|
  {
    if steps != [] {
      OrderAlways(c, steps[..|steps| - 1]);
      StepKeepsOrder(After(c, steps[..|steps| - 1]), steps[|steps| - 1]);
    }
  }

  lemma {:induction false} OrderGrows(c: Config, steps: seq<Step>)
    requires OrderInv(c)
    ensures c.order <= After(c, steps).order
    decreases |steps|
  {
    if steps != [] {
      OrderGrows(c, steps[..|steps| - 1]);
      OrderAlways(c, steps[..|steps| - 1]);
      StepKeepsOrder(After(c, steps[..|steps| - 1]), steps[|steps| - 1]);
    }
  }

  /** The serial order respects real time, in every interleaving: a call that had returned at a moment when
      another had not been made comes before it. */
  lemma {:induction false} RealTimeOrder(
    devices: Registry, fans: nat, clock: int, steps: seq<Step>, k: nat, i: nat, j: nat)
    requires k <= |steps|
    requires var order := After(Start(devices, fans, clock), steps).order; i < |order| && j < |order|
    requires var mid := After(Start(devices, fans, clock), steps[..k]);
             var order := After(Start(devices, fans, clock), steps).order;
             && order[j].t !in mid.threads
             && order[i].t in mid.threads && mid.threads[order[i].t].Updating?
             && mid.threads[order[i].t].pc.Finished?
    ensures i < j
  {
    var c0 := Start(devices, fans, clock);
    var mid, order := After(c0, steps[..k]), After(c0, steps).order;
    assert OrderInv(c0) by {
      assert SampledCalls(c0) == {} && Ordered(c0.order) == {};
    }
    assert OrderInv(mid) by { OrderAlways(c0, steps[..k]); }
    assert OrderInv(After(c0, steps)) by { OrderAlways(c0, steps); }
    assert mid.order <= order by {
      OrderGrows(mid, steps[k..]);
      AfterConcat(c0, steps[..k], steps[k..]);
      assert steps[..k] + steps[k..] == steps;
    }
    assert order[i].t in SampledCalls(mid);
    assert forall m :: 0 <= m < |mid.order| ==> EntryOk(mid, mid.order[m]);
    PlacesInOrder(mid.order, order, i, j);
  }

  /** In a longer order without repetition, the calls of a shorter one come before the others. */
  lemma PlacesInOrder(part: seq<Entry>, order: seq<Entry>, i: nat, j: nat)
    requires part <= order && i < |order| && j < |order|
    requires forall n, m :: 0 <= n < m < |order| ==> order[n].t != order[m].t
    requires order[i].t in Ordered(part) && forall m :: 0 <= m < |part| ==> part[m].t != order[j].t
    ensures i < j
  {
    var e :| e in part && e.t == order[i].t;
    var n :| 0 <= n < |part| && part[n] == e;
    assert order[n] == part[n];
    assert n == i;
    assert forall m :: 0 <= m < |part| ==> part[m] == order[m];
  }
}
