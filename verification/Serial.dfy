/** Calls on one device that never overlap make every interleaving equivalent to a serial run. */
module Serial {
  import opened Wrappers
  import opened Devices
  import opened Runs
  import opened Interleaving
  import opened LockSafety

  /** A call that changes records, made and not returned. */
  predicate Active(c: Config, t: nat) {
    t in c.threads && c.threads[t].Updating? && !c.threads[t].pc.Finished?
  }

  /** What a call has left to do. */
  function Todo(pc: UpdatePc): seq<Work> {
    match pc
    case Working(todo) => todo
    case WriteLocked(d, rest) => [Write(d)] + rest
    case WriteDone(rest) => rest
    case _ => []
  }

  /** A call is engaged from the moment it has read its record until it has done its last action. */
  predicate Engaged(c: Config, t: nat) {
    && t in c.threads && c.threads[t].Updating?
    && (c.threads[t].pc.ReadDone? || c.threads[t].pc.Have? || Todo(c.threads[t].pc) != [])
  }

  predicate On(c: Config, t: nat, id: string) {
    Engaged(c, t) && Target(c.threads[t].req) == id
  }

  /** At most one call is engaged on each device. */
  ghost predicate Exclusive(c: Config) {
    forall t, u :: Engaged(c, t) && Engaged(c, u) && Target(c.threads[t].req) == Target(c.threads[u].req) ==> t == u
  }

  ghost predicate NeverOverlapping(c0: Config, steps: seq<Step>) {
    forall k :: 0 <= k <= |steps| ==> Exclusive(After(c0, steps[..k]))
  }

  /** A copy of a record held between the read and the clock sample is what the map still holds. */
  ghost predicate CopiesFresh(c: Config) {
    forall t :: t in c.threads && c.threads[t].Updating? ==> CopyFresh(c.threads[t], c.devices)
  }

  predicate CopyFresh(th: Thread, devices: Registry)
    requires th.Updating?
  {
    && (th.pc.ReadDone? ==> th.pc.found == Lookup(devices, Target(th.req)))
    && (th.pc.Have? ==> th.pc.found == Lookup(devices, Target(th.req)))
  }

  /** A call with work left on a device. */
  predicate Busy(c: Config, t: nat, id: string) {
    On(c, t, id) && Todo(c.threads[t].pc) != []
  }

  /** The record once the remaining work is done. */
  function Landed(todo: seq<Work>, found: Option<Device>): Option<Device>
    decreases |todo|
  {
    if todo == [] then found else Landed(todo[1..], if todo[0].Write? then Some(todo[0].d) else found)
  }

  /** The subscriber calls in the remaining work. */
  function CallsOf(todo: seq<Work>): seq<Delivery>
    decreases |todo|
  {
    if todo == [] then []
    else (if todo[0].Deliver? then [Delivery(todo[0].slot, todo[0].d)] else []) + CallsOf(todo[1..])
  }

  /** The serial run: the calls in the order of their clock samples. */
  function OrderOps(order: seq<Entry>): (ops: seq<Op>)
    ensures |ops| == |order|
    ensures forall i :: 0 <= i < |order| ==> ops[i] == Call(order[i].req, order[i].now)
  {
    seq(|order|, i requires 0 <= i < |order| => Call(order[i].req, order[i].now))
  }

  /** For one device, the serial run is ahead of the configuration by exactly the work `todo`. */
  ghost predicate Ahead(s: State, c: Config, id: string, todo: seq<Work>) {
    && Lookup(s.devices, id) == Landed(todo, Lookup(c.devices, id))
    && SentOf(s.sent, id) == SentOf(c.log, id) + CallsOf(todo)
  }

  ghost predicate AgreesOn(s: State, c: Config, id: string) {
    && (forall t :: Busy(c, t, id) ==> Ahead(s, c, id, Todo(c.threads[t].pc)))
    && ((forall t :: t in c.threads ==> !Busy(c, t, id)) ==> Ahead(s, c, id, []))
  }

  lemma {:induction false} LandedConcat(a: seq<Work>, b: seq<Work>, found: Option<Device>)
    ensures Landed(a + b, found) == Landed(b, Landed(a, found))
    decreases |a|
  {
    if a == [] {
      assert a + b == b;
    } else {
      assert (a + b)[1..] == a[1..] + b;
      LandedConcat(a[1..], b, if a[0].Write? then Some(a[0].d) else found);
    }
  }

  lemma {:induction false} CallsConcat(a: seq<Work>, b: seq<Work>)
    ensures CallsOf(a + b) == CallsOf(a) + CallsOf(b)
    decreases |a|
  {
    if a == [] {
      assert a + b == b;
    } else {
      var head := if a[0].Deliver? then [Delivery(a[0].slot, a[0].d)] else [];
      assert (a + b)[1..] == a[1..] + b && (a + b)[0] == a[0];
      CallsConcat(a[1..], b);
      var x, y := CallsOf(a[1..]), CallsOf(b);
      assert CallsOf(a + b) == head + (x + y) && CallsOf(a) == head + x;
      assert head + (x + y) == (head + x) + y;
    }
  }

  lemma WorkConcat(a: seq<Work>, b: seq<Work>, found: Option<Device>)
    ensures Landed(a + b, found) == Landed(b, Landed(a, found))
    ensures CallsOf(a + b) == CallsOf(a) + CallsOf(b)
  {
    LandedConcat(a, b, found);
    CallsConcat(a, b);
  }

  lemma {:induction false} DeliverAllIsFanout(n: nat, d: Device, found: Option<Device>)
    ensures CallsOf(DeliverAll(n, d)) == Fanout(n, d)
    ensures Landed(DeliverAll(n, d), found) == found
  {
    if n > 0 {
      DeliverAllIsFanout(n - 1, d, found);
      assert DeliverAll(n, d) == DeliverAll(n - 1, d) + [Deliver(n - 1, d)];
      WorkConcat(DeliverAll(n - 1, d), [Deliver(n - 1, d)], found);
      assert CallsOf([Deliver(n - 1, d)]) == [Delivery(n - 1, d)];
      assert Fanout(n, d) == Fanout(n - 1, d) + [Delivery(n - 1, d)];
    }
  }

  lemma {:induction false} ExpandTwo(n: nat, acts: seq<Action>, found: Option<Device>, d: Device)
    requires IsResponse(acts, d)
    ensures Landed(Expand(n, acts), found) == if acts == [] then found else Some(d)
    ensures CallsOf(Expand(n, acts)) == if |acts| == 2 then Fanout(n, d) else []
  {
    DeliverAllIsFanout(n, d, found);
    DeliverAllIsFanout(n, d, Some(d));
    if acts == [Put(d)] {
      assert acts[1..] == [];
      assert Expand(n, acts) == [Write(d)];
    } else if acts == [Put(d), Notify(d)] {
      assert acts[1..] == [Notify(d)] && acts[1..][1..] == [];
      assert Expand(n, [Notify(d)]) == DeliverAll(n, d);
      assert Expand(n, acts) == [Write(d)] + DeliverAll(n, d);
      WorkConcat([Write(d)], DeliverAll(n, d), found);
    } else if acts == [Notify(d), Put(d)] {
      assert acts[1..] == [Put(d)] && acts[1..][1..] == [];
      assert Expand(n, [Put(d)]) == [Write(d)];
      assert Expand(n, acts) == DeliverAll(n, d) + [Write(d)];
      WorkConcat(DeliverAll(n, d), [Write(d)], found);
    }
  }

  /** The work a call sets out to do is what the serial store does at once, if the map still holds what the call
      read. Whatever it holds (`current`), the record the call stores ends up there. */
  lemma ExpandMatches(n: nat, r: Request, found: Option<Device>, now: int, current: Option<Device>)
    requires HasId(found, Target(r))
    ensures var acts := Respond(r, found, now);
            && Landed(Expand(n, acts), current) == (if acts == [] then current else Settled(r, found, now))
            && CallsOf(Expand(n, acts)) == FanoutAll(n, Told(r, found, now))
    ensures current == found ==> Landed(Expand(n, Respond(r, found, now)), current) == Settled(r, found, now)
  {
    var acts := Respond(r, found, now);
    var d := if acts == [] then Device(Message("", "", "", "", "", 0, ""), false, 0, 0, 0) else acts[0].d;
    RespondShape(r, found, now, d);
    ExpandTwo(n, acts, current, d);
    FanoutOne(n, d, "");
  }

  lemma GoUpdateKeepsFresh(c: Config, t: nat)
    requires DataInv(c) && Exclusive(c) && CopiesFresh(c)
    requires t in c.threads && c.threads[t].Updating?
    ensures CopiesFresh(GoUpdate(c, t, c.threads[t].req, c.threads[t].pc))
  {
    var req, pc := c.threads[t].req, c.threads[t].pc;
    var c' := GoUpdate(c, t, req, pc);
    assert PcOk(pc, Target(req), c.clock) && CopyFresh(c.threads[t], c.devices);
    forall u | u in c'.threads && c'.threads[u].Updating?
      ensures CopyFresh(c'.threads[u], c'.devices)
    {
      if u != t {
        assert c'.threads[u] == c.threads[u] && CopyFresh(c.threads[u], c.devices);
        if pc.WriteLocked? && (c.threads[u].pc.ReadDone? || c.threads[u].pc.Have?) {
          assert Engaged(c, t) && Engaged(c, u);
        }
      }
    }
  }

  lemma StepKeepsFresh(c: Config, st: Step)
    requires DataInv(c) && Exclusive(c) && CopiesFresh(c)
    ensures CopiesFresh(Exec(c, st))
  {
    if st.Go? && st.t in c.threads && c.threads[st.t].Updating? {
      GoUpdateKeepsFresh(c, st.t);
    } else {
      var c' := Exec(c, st);
      assert c'.devices == c.devices;
      forall u | u in c'.threads && c'.threads[u].Updating? ensures CopyFresh(c'.threads[u], c'.devices) {
        if u in c.threads && c.threads[u].Updating? {
          assert c'.threads[u] == c.threads[u];
          assert CopyFresh(c.threads[u], c.devices);
        }
      }
    }
  }

  /** A step of a call seen from another device. */
  lemma OtherDevice(s: State, c: Config, t: nat, id: string)
    requires KeysMatch(s.devices) && DataInv(c) && AgreesOn(s, c, id)
    requires t in c.threads && c.threads[t].Updating? && Target(c.threads[t].req) != id
    ensures var c' := GoUpdate(c, t, c.threads[t].req, c.threads[t].pc);
            AgreesOn(s, c', id)
  {
    var c' := GoUpdate(c, t, c.threads[t].req, c.threads[t].pc);
    assert PcOk(c.threads[t].pc, Target(c.threads[t].req), c.clock);
    OthersAsBusy(c, t, id);
    GoUpdateFrame(c, t);
    assert !Busy(c, t, id) && !Busy(c', t, id);
    OtherDeviceUntouched(c, t, id);
  }

  lemma OtherDeviceUntouched(c: Config, t: nat, id: string)
    requires t in c.threads && c.threads[t].Updating? && Target(c.threads[t].req) != id
    requires PcOk(c.threads[t].pc, Target(c.threads[t].req), c.clock)
    ensures var c' := GoUpdate(c, t, c.threads[t].req, c.threads[t].pc);
            Lookup(c'.devices, id) == Lookup(c.devices, id) && SentOf(c'.log, id) == SentOf(c.log, id)
  {
    var pc := c.threads[t].pc;
    if pc.Working? && pc.todo != [] && pc.todo[0].Deliver? {
      assert pc.todo[0] in pc.todo;
      SentOfConcat(c.log, [Delivery(pc.todo[0].slot, pc.todo[0].d)], id);
      assert SentOf([Delivery(pc.todo[0].slot, pc.todo[0].d)], id) == [];
    }
  }

  /** While a call is engaged on a device, no other call has work on it. */
  lemma NobodyElse(c: Config, t: nat, id: string)
    requires Exclusive(c) && On(c, t, id)
    ensures forall u :: u != t ==> !Busy(c, u, id)
  {
    forall u | u != t ensures !On(c, u, id) {
      assert On(c, u, id) ==> Engaged(c, u);
    }
  }

  /** A step of one call leaves the others as busy as they were. */
  lemma OthersAsBusy(c: Config, t: nat, id: string)
    requires t in c.threads && c.threads[t].Updating?
    ensures var c' := GoUpdate(c, t, c.threads[t].req, c.threads[t].pc);
            forall u :: u != t ==> (Busy(c', u, id) <==> Busy(c, u, id))
  {
    GoUpdateFrame(c, t);
  }

  /** Where only one call can be busy on a device, agreement is about that call. */
  lemma AgreedBefore(s: State, c: Config, t: nat, id: string)
    requires t in c.threads && c.threads[t].Updating? && AgreesOn(s, c, id)
    requires forall u :: u != t ==> !Busy(c, u, id)
    ensures Ahead(s, c, id, if Busy(c, t, id) then Todo(c.threads[t].pc) else [])
  {
  }

  lemma AgreesNow(s: State, c: Config, t: nat, id: string)
    requires t in c.threads && c.threads[t].Updating?
    requires Ahead(s, c, id, if Busy(c, t, id) then Todo(c.threads[t].pc) else [])
    requires forall u :: u != t ==> !Busy(c, u, id)
    ensures AgreesOn(s, c, id)
  {
  }

  /** A step of a call seen from its own device, the clock sample aside. */
  lemma OwnDevice(s: State, c: Config, t: nat)
    requires KeysMatch(s.devices) && DataInv(c) && Exclusive(c)
    requires t in c.threads && c.threads[t].Updating? && !c.threads[t].pc.Have?
    requires AgreesOn(s, c, Target(c.threads[t].req))
    ensures var c' := GoUpdate(c, t, c.threads[t].req, c.threads[t].pc);
            AgreesOn(s, c', Target(c.threads[t].req))
  {
    var req, pc := c.threads[t].req, c.threads[t].pc;
    var id := Target(req);
    var c' := GoUpdate(c, t, req, pc);
    OthersAsBusy(c, t, id);
    if Todo(pc) == [] {
      IdleStep(c, t);
      assert !Busy(c, t, id) && !Busy(c', t, id);
      SameAgreement(s, c, c', id);
    } else {
      assert PcOk(pc, id, c.clock);
      NobodyElse(c, t, id);
      AgreedBefore(s, c, t, id);
      WorkStep(s, c, t, id);
      AgreesNow(s, c', t, id);
    }
  }

  /** A step of a call with no work to do, the clock sample aside, changes nothing anybody can see. */
  lemma IdleStep(c: Config, t: nat)
    requires t in c.threads && c.threads[t].Updating? && !c.threads[t].pc.Have? && Todo(c.threads[t].pc) == []
    ensures var c' := GoUpdate(c, t, c.threads[t].req, c.threads[t].pc);
            && c'.devices == c.devices && c'.log == c.log
            && t in c'.threads && c'.threads[t].Updating? && Todo(c'.threads[t].pc) == []
            && forall u :: u in c.threads && u != t ==> u in c'.threads && c'.threads[u] == c.threads[u]
  {
  }

  /** Agreement depends on the map, the log and the busy calls only. */
  lemma SameAgreement(s: State, c: Config, c': Config, id: string)
    requires AgreesOn(s, c, id) && c'.devices == c.devices && c'.log == c.log
    requires forall u :: Busy(c', u, id) <==> Busy(c, u, id)
    requires forall u :: Busy(c', u, id) ==> c'.threads[u] == c.threads[u]
    ensures AgreesOn(s, c', id)
  {
    if forall t :: t in c'.threads ==> !Busy(c', t, id) {
      forall t | t in c.threads ensures !Busy(c, t, id) {
        assert Busy(c, t, id) ==> Busy(c', t, id);
      }
    }
  }

  /** One piece of work done. */
  function Worked(c: Config, w: Work): Config {
    match w
    case Deliver(slot, d) => c.(log := c.log + [Delivery(slot, d)])
    case Write(d) => c.(devices := c.devices[d.msg.id := d])
  }

  /** Waiting for the write lock, or taking it, leaves the same work to do. */
  lemma LockStep(c: Config, t: nat, todo: seq<Work>)
    requires t in c.threads && c.threads[t].Updating? && c.threads[t].pc == Working(todo)
    requires todo != [] && todo[0].Write?
    ensures var c' := GoUpdate(c, t, c.threads[t].req, c.threads[t].pc);
            && c'.devices == c.devices && c'.log == c.log
            && t in c'.threads && c'.threads[t].Updating? && Todo(c'.threads[t].pc) == todo
  {
    assert [Write(todo[0].d)] + todo[1..] == todo;
  }

  /** A step of a call, the clock sample aside: it leaves the work as it is, or does the next piece. */
  lemma TodoStep(c: Config, t: nat)
    requires t in c.threads && c.threads[t].Updating? && !c.threads[t].pc.Have?
    ensures var c' := GoUpdate(c, t, c.threads[t].req, c.threads[t].pc);
            && t in c'.threads && c'.threads[t].Updating?
            && var todo, todo' := Todo(c.threads[t].pc), Todo(c'.threads[t].pc);
            || (todo' == todo && c'.devices == c.devices && c'.log == c.log)
            || (todo != [] && todo' == todo[1..] && c'.devices == Worked(c, todo[0]).devices
                && c'.log == Worked(c, todo[0]).log)
  {
    var pc := c.threads[t].pc;
    if pc.Working? && pc.todo != [] && pc.todo[0].Write? {
      LockStep(c, t, pc.todo);
    } else if pc.WriteLocked? {
      assert ([Write(pc.d)] + pc.rest)[1..] == pc.rest;
    }
  }

  lemma CallsMore(log: seq<Delivery>, todo: seq<Work>)
    requires todo != []
    ensures todo[0].Deliver? ==> log + [Delivery(todo[0].slot, todo[0].d)] + CallsOf(todo[1..]) == log + CallsOf(todo)
    ensures todo[0].Write? ==> CallsOf(todo[1..]) == CallsOf(todo)
  {
  }

  lemma AheadMore(s: State, c: Config, c': Config, id: string, todo: seq<Work>)
    requires todo != [] && todo[0].d.msg.id == id && Ahead(s, c, id, todo)
    requires c'.devices == Worked(c, todo[0]).devices && c'.log == Worked(c, todo[0]).log
    ensures Ahead(s, c', id, todo[1..])
  {
    CallsMore(SentOf(c.log, id), todo);
    if todo[0].Deliver? {
      SentMore(c.log, Delivery(todo[0].slot, todo[0].d), id);
    }
  }

  lemma SentMore(log: seq<Delivery>, call: Delivery, id: string)
    requires call.device.msg.id == id
    ensures SentOf(log + [call], id) == SentOf(log, id) + [call]
  {
    assert (log + [call])[..|log|] == log;
  }

  lemma WorkStep(s: State, c: Config, t: nat, id: string)
    requires t in c.threads && c.threads[t].Updating? && Todo(c.threads[t].pc) != []
    requires PcOk(c.threads[t].pc, id, c.clock) && Ahead(s, c, id, Todo(c.threads[t].pc))
    ensures var c' := GoUpdate(c, t, c.threads[t].req, c.threads[t].pc);
            t in c'.threads && c'.threads[t].Updating? && Ahead(s, c', id, Todo(c'.threads[t].pc))
  {
    var todo := Todo(c.threads[t].pc);
    var c' := GoUpdate(c, t, c.threads[t].req, c.threads[t].pc);
    TodoStep(c, t);
    assert todo[0].d.msg.id == id by { assert todo[0] in todo; }
    if Todo(c'.threads[t].pc) != todo {
      AheadMore(s, c, c', id, todo);
    }
  }

  /** The clock sample: the call takes effect in the serial run, and the configuration falls behind by its
      whole work. */
  lemma SampleStep(s: State, c: Config, t: nat, id: string)
    requires KeysMatch(s.devices) && |s.subs| == c.fans && DataInv(c) && Exclusive(c) && CopiesFresh(c)
    requires t in c.threads && c.threads[t].Updating? && c.threads[t].pc.Have?
    requires AgreesOn(s, c, id)
    ensures var c' := GoUpdate(c, t, c.threads[t].req, c.threads[t].pc);
            AgreesOn(Apply(s, Call(c.threads[t].req, c.clock)), c', id)
  {
    var req, found := c.threads[t].req, c.threads[t].pc.found;
    var s' := Apply(s, Call(req, c.clock));
    ApplyIsLocal(s, Call(req, c.clock), id);
    assert PcOk(c.threads[t].pc, Target(req), c.clock) && CopyFresh(c.threads[t], c.devices);
    if Target(req) != id {
      SampleElsewhere(s, s', c, t, id);
    } else {
      SampleHere(s, s', c, t, id);
    }
  }

  lemma SampleElsewhere(s: State, s': State, c: Config, t: nat, id: string)
    requires t in c.threads && c.threads[t].Updating? && c.threads[t].pc.Have? && Target(c.threads[t].req) != id
    requires AgreesOn(s, c, id)
    requires Lookup(s'.devices, id) == Lookup(s.devices, id) && SentOf(s'.sent, id) == SentOf(s.sent, id) + []
    ensures AgreesOn(s', GoUpdate(c, t, c.threads[t].req, c.threads[t].pc), id)
  {
    var c' := GoUpdate(c, t, c.threads[t].req, c.threads[t].pc);
    GoUpdateFrame(c, t);
    assert c'.devices == c.devices && c'.log == c.log;
    forall u ensures Busy(c', u, id) <==> Busy(c, u, id) {
    }
  }

  lemma SampleHere(s: State, s': State, c: Config, t: nat, id: string)
    requires Exclusive(c) && t in c.threads && c.threads[t].Updating? && c.threads[t].pc.Have?
    requires Target(c.threads[t].req) == id
    requires c.threads[t].pc.found == Lookup(c.devices, id) && HasId(c.threads[t].pc.found, id)
    requires AgreesOn(s, c, id)
    requires Lookup(s'.devices, id) == Settled(c.threads[t].req, Lookup(s.devices, id), c.clock)
    requires SentOf(s'.sent, id)
             == SentOf(s.sent, id) + FanoutAll(c.fans, Told(c.threads[t].req, Lookup(s.devices, id), c.clock))
    ensures AgreesOn(s', GoUpdate(c, t, c.threads[t].req, c.threads[t].pc), id)
  {
    var req := c.threads[t].req;
    assert On(c, t, id);
    NobodyElse(c, t, id);
    AgreedBefore(s, c, t, id);
    SetOut(s, s', c, id, req);
    Launch(s', c, t, id);
  }

  /** A call that has its whole work before it agrees with a serial run that has done it. */
  lemma Launch(s: State, c: Config, t: nat, id: string)
    requires t in c.threads && c.threads[t].Updating? && c.threads[t].pc.Have?
    requires Target(c.threads[t].req) == id && forall u :: u != t ==> !Busy(c, u, id)
    requires Ahead(s, c, id, Expand(c.fans, Respond(c.threads[t].req, c.threads[t].pc.found, c.clock)))
    ensures AgreesOn(s, GoUpdate(c, t, c.threads[t].req, c.threads[t].pc), id)
  {
    var c' := GoUpdate(c, t, c.threads[t].req, c.threads[t].pc);
    OthersAsBusy(c, t, id);
    assert c'.threads[t].pc.Working? && c'.devices == c.devices && c'.log == c.log;
    AgreesNow(s, c', t, id);
  }

  /** A call that takes effect in the serial run has its whole work before it. */
  lemma SetOut(s: State, s': State, c: Config, id: string, req: Request)
    requires Target(req) == id && HasId(Lookup(c.devices, id), id) && Ahead(s, c, id, [])
    requires Lookup(s'.devices, id) == Settled(req, Lookup(s.devices, id), c.clock)
    requires SentOf(s'.sent, id) == SentOf(s.sent, id) + FanoutAll(c.fans, Told(req, Lookup(s.devices, id), c.clock))
    ensures Ahead(s', c, id, Expand(c.fans, Respond(req, Lookup(c.devices, id), c.clock)))
  {
    ExpandMatches(c.fans, req, Lookup(c.devices, id), c.clock, Lookup(c.devices, id));
    assert Lookup(s.devices, id) == Lookup(c.devices, id);
    assert SentOf(s.sent, id) == SentOf(c.log, id);
  }

  function SerialState(s0: State, c: Config): State {
    Run(s0, OrderOps(c.order))
  }

  lemma OpsMore(order: seq<Entry>, e: Entry)
    ensures OrderOps(order + [e]) == OrderOps(order) + [Call(e.req, e.now)]
  {
  }

  lemma OrderSnoc(s0: State, order: seq<Entry>, e: Entry)
    ensures Run(s0, OrderOps(order + [e])) == Apply(Run(s0, OrderOps(order)), Call(e.req, e.now))
  {
    OpsMore(order, e);
    RunSnoc(s0, OrderOps(order), Call(e.req, e.now));
  }

  lemma StepKeepsAgreement(s0: State, c: Config, st: Step, id: string)
    requires KeysMatch(SerialState(s0, c).devices) && |SerialState(s0, c).subs| == c.fans
    requires DataInv(c) && Exclusive(c) && CopiesFresh(c)
    requires AgreesOn(SerialState(s0, c), c, id)
    ensures AgreesOn(SerialState(s0, Exec(c, st)), Exec(c, st), id)
  {
    var s, c' := SerialState(s0, c), Exec(c, st);
    if st.Go? && st.t in c.threads && c.threads[st.t].Updating? {
      var t := st.t;
      GoUpdateFrame(c, t);
      if c.threads[t].pc.Have? {
        SampleStep(s, c, t, id);
        OrderSnoc(s0, c.order, Entry(t, c.threads[t].req, c.clock));
      } else if Target(c.threads[t].req) == id {
        OwnDevice(s, c, t);
      } else {
        OtherDevice(s, c, t, id);
      }
    } else {
      Unmoved(s, c, st, id);
    }
  }

  lemma UnmovedThread(c: Config, st: Step, u: nat)
    requires !(st.Go? && st.t in c.threads && c.threads[st.t].Updating?)
    ensures var c' := Exec(c, st);
            && c'.devices == c.devices && c'.log == c.log && c'.order == c.order && c'.fans == c.fans
            && (if u in c.threads then u in c'.threads && (if c.threads[u].Updating? then c'.threads[u] == c.threads[u]
                                                           else c'.threads[u].Reading?)
                else u in c'.threads ==> c'.threads[u].Reading? || c'.threads[u].pc.Begin?)
  {
  }

  /** Ticks, new calls and listing calls change nothing the serial run talks about. */
  lemma Unmoved(s: State, c: Config, st: Step, id: string)
    requires AgreesOn(s, c, id)
    requires !(st.Go? && st.t in c.threads && c.threads[st.t].Updating?)
    ensures AgreesOn(s, Exec(c, st), id) && Exec(c, st).order == c.order
  {
    var c' := Exec(c, st);
    UnmovedThread(c, st, 0);
    forall u: nat
      ensures Busy(c', u, id) <==> Busy(c, u, id)
      ensures Busy(c', u, id) ==> c'.threads[u] == c.threads[u]
    {
      UnmovedThread(c, st, u);
    }
    SameAgreement(s, c, c', id);
  }
}
