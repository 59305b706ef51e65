/** What goes wrong when two calls on one device overlap: the reason `Serialisable` asks that they do not. */
module Overlap {
  import opened Wrappers
  import opened Devices
  import opened Times
  import opened Runs
  import opened Deliveries
  import opened Interleaving
  import opened Serial
  import opened Serialisability

  /** A schedule, one move longer. */
  lemma Extend(c0: Config, steps: seq<Step>, st: Step) returns (more: seq<Step>)
    ensures After(c0, more) == Exec(After(c0, steps), st)
  {
    more := steps + [st];
    assert more[..|steps|] == steps;
  }

  lemma AwaitClock(c0: Config, steps: seq<Step>, now: int) returns (more: seq<Step>)
    requires After(c0, steps).clock <= now
    ensures After(c0, more) == After(c0, steps).(clock := now)
  {
    more := Extend(c0, steps, Tick(now));
  }

  /** A new call reads the record, and gets as far as the clock sample. */
  lemma CallAndRead(c0: Config, steps: seq<Step>, t: nat, req: Request) returns (more: seq<Step>)
    requires var c := After(c0, steps); t !in c.threads && !c.writer
    ensures var c := After(c0, steps);
            After(c0, more) == Replace(c, t, Updating(req, Have(Lookup(c.devices, Target(req)))))
  {
    var c := After(c0, steps);
    more := Extend(c0, steps, Update(t, req));
    more := Extend(c0, more, Go(t, ""));
    if !req.Check? {
      assert After(c0, more) == Replace(c.(readers := c.readers + 1), t, Updating(req, ReadLocked));
      more := Extend(c0, more, Go(t, ""));
      more := Extend(c0, more, Go(t, ""));
    }
  }

  lemma Sample(c0: Config, steps: seq<Step>, t: nat) returns (more: seq<Step>)
    requires var c := After(c0, steps); t in c.threads && c.threads[t].Updating? && c.threads[t].pc.Have?
    ensures var c := After(c0, steps);
            var req, found := c.threads[t].req, c.threads[t].pc.found;
            After(c0, more) == Replace(c.(order := c.order + [Entry(t, req, c.clock)]), t,
                                       Updating(req, Working(Expand(c.fans, Respond(req, found, c.clock)))))
  {
    more := Extend(c0, steps, Go(t, ""));
  }

  /** While nobody holds the lock, a call does the next piece of its work. */
  lemma WorkOne(c0: Config, steps: seq<Step>, t: nat, w: Work, rest: seq<Work>) returns (more: seq<Step>)
    requires var c := After(c0, steps);
             && !c.writer && c.readers == 0
             && t in c.threads && c.threads[t].Updating? && c.threads[t].pc == Working([w] + rest)
    ensures var c := After(c0, steps);
            After(c0, more) == Replace(Worked(c, w), t, Updating(c.threads[t].req, Working(rest)))
  {
    var c := After(c0, steps);
    assert ([w] + rest)[1..] == rest;
    more := Extend(c0, steps, Go(t, ""));
    if w.Write? {
      more := Extend(c0, more, Go(t, ""));
      more := Extend(c0, more, Go(t, ""));
      WriteSection(c, t, c.threads[t].req, w.d, rest);
    }
  }

  lemma WriteSection(c: Config, t: nat, req: Request, d: Device, rest: seq<Work>)
    requires !c.writer
    ensures var locked := Replace(c.(writer := true), t, Updating(req, WriteLocked(d, rest)));
            Exec(Exec(locked, Go(t, "")), Go(t, ""))
            == Replace(c.(devices := c.devices[d.msg.id := d]), t, Updating(req, Working(rest)))
  {
    var locked := Replace(c.(writer := true), t, Updating(req, WriteLocked(d, rest)));
    var written := Exec(locked, Go(t, ""));
    assert written.threads[t] == Updating(req, WriteDone(rest));
  }

  /** The state of a call's device and the subscriber calls once a call has done its work and returned. */
  ghost predicate Returned(c: Config, c': Config, t: nat, id: string, after: Option<Device>, calls: seq<Delivery>) {
    && t in c.threads && c.threads[t].Updating?
    && c' == Replace(c.(devices := c'.devices, log := c.log + calls), t, Updating(c.threads[t].req, Finished))
    && forall k :: Lookup(c'.devices, k) == if k == id then after else Lookup(c.devices, k)
  }

  /** While nobody holds the lock, a call does all of its work and returns. */
  lemma {:induction false} Finish(c0: Config, steps: seq<Step>, t: nat, todo: seq<Work>, id: string)
    returns (more: seq<Step>)
    requires var c := After(c0, steps);
             && !c.writer && c.readers == 0
             && t in c.threads && c.threads[t].Updating? && c.threads[t].pc == Working(todo)
    requires forall w :: w in todo ==> w.d.msg.id == id
    ensures var c := After(c0, steps);
            Returned(c, After(c0, more), t, id, Landed(todo, Lookup(c.devices, id)), CallsOf(todo))
    decreases |todo|
  {
    var c := After(c0, steps);
    if todo == [] {
      more := Extend(c0, steps, Go(t, ""));
      assert c.log + [] == c.log;
    } else {
      assert todo == [todo[0]] + todo[1..];
      more := WorkOne(c0, steps, t, todo[0], todo[1..]);
      more := Finish(c0, more, t, todo[1..], id);
      WorkedThenReturned(c, t, id, todo, After(c0, more));
    }
  }

  lemma WorkedThenReturned(c: Config, t: nat, id: string, todo: seq<Work>, c': Config)
    requires t in c.threads && c.threads[t].Updating? && todo != [] && todo[0].d.msg.id == id
    requires var mid := Replace(Worked(c, todo[0]), t, Updating(c.threads[t].req, Working(todo[1..])));
             Returned(mid, c', t, id, Landed(todo[1..], Lookup(mid.devices, id)), CallsOf(todo[1..]))
    ensures Returned(c, c', t, id, Landed(todo, Lookup(c.devices, id)), CallsOf(todo))
  {
    var mid := Worked(c, todo[0]);
    assert mid.log + CallsOf(todo[1..]) == c.log + CallsOf(todo) by { CallsMore(c.log, todo); }
    assert Landed(todo[1..], Lookup(mid.devices, id)) == Landed(todo, Lookup(c.devices, id));
  }

  lemma {:induction false} ExpandOf(n: nat, acts: seq<Action>, d: Device)
    requires forall a :: a in acts ==> a.d == d
    ensures forall w :: w in Expand(n, acts) ==> w.d == d
    decreases |acts|
  {
    if acts != [] {
      assert acts[0] in acts && forall a :: a in acts[1..] ==> a in acts;
      ExpandOf(n, acts[1..], d);
    }
  }

  /** All the work a call sets out to do is about the record it settles on. */
  lemma WorkIsSettled(n: nat, r: Request, found: Option<Device>, now: int)
    requires HasId(found, Target(r))
    ensures forall w :: w in Expand(n, Respond(r, found, now)) ==>
              w.d.msg.id == Target(r) && Some(w.d) == Settled(r, found, now)
  {
    RespondIsAnEdge(r, found, now);
    var acts := Respond(r, found, now);
    if acts == [] {
      assert Expand(n, acts) == [];
    } else {
      ExpandOf(n, acts, Settled(r, found, now).value);
    }
  }

  /** The actions of a call on a record, the record it leaves and what it announces, at its own clock sample. */
  function Acts(e: Entry, found: Option<Device>): seq<Action> {
    Respond(e.req, found, e.now)
  }

  function Leaves(e: Entry, found: Option<Device>): Option<Device> {
    Settled(e.req, found, e.now)
  }

  function Says(e: Entry, found: Option<Device>): seq<Device> {
    Told(e.req, found, e.now)
  }

  /** Two calls on one device: the record found, the number of subscribers, the time at the start, and the calls
      in the order in which they sample the clock, each with its sample. */
  datatype Pair = Pair(id: string, found: Option<Device>, fans: nat, start: int, first: Entry, second: Entry)

  predicate PairOk(p: Pair) {
    && HasId(p.found, p.id) && Target(p.first.req) == p.id && Target(p.second.req) == p.id
    && p.first.t != p.second.t && p.start <= p.first.now <= p.second.now
  }

  predicate Finds(p: Pair, devices: Registry) {
    PairOk(p) && Lookup(devices, p.id) == p.found
  }

  function Opening(p: Pair, devices: Registry): Config {
    Start(devices, p.fans, p.start)
  }

  /** The two calls were made and no other call that changes records was, they sampled the clock as `p` says, and
      both have returned. */
  ghost predicate TwoCalls(p: Pair, c: Config) {
    && p.first.t in c.threads && c.threads[p.first.t] == Updating(p.first.req, Finished)
    && p.second.t in c.threads && c.threads[p.second.t] == Updating(p.second.req, Finished)
    && (forall t :: t in c.threads && t != p.first.t && t != p.second.t ==> c.threads[t].Reading?)
    && c.order == [p.first, p.second]
  }

  /** What every subscriber heard. */
  ghost predicate AllHeard(c: Config, notes: seq<Device>) {
    forall slot :: 0 <= slot < c.fans ==> Received(c.log, slot) == notes
  }

  lemma {:induction false} HeardFanouts(n: nat, notes: seq<Device>, slot: nat)
    requires slot < n
    ensures Received(FanoutAll(n, notes), slot) == notes
    decreases |notes|
  {
    if notes != [] {
      var init, last := notes[..|notes| - 1], notes[|notes| - 1];
      HeardFanouts(n, init, slot);
      ReceivedConcat(FanoutAll(n, init), Fanout(n, last), slot);
      ReceivedFromFanout(n, last, slot);
    }
  }

  lemma HeardAll(c: Config, notes: seq<Device>)
    requires c.log == FanoutAll(c.fans, notes)
    ensures AllHeard(c, notes)
  {
    forall slot | 0 <= slot < c.fans ensures Received(c.log, slot) == notes {
      HeardFanouts(c.fans, notes, slot);
    }
  }

  function WorkOf(p: Pair, e: Entry, found: Option<Device>): seq<Work> {
    Expand(p.fans, Acts(e, found))
  }

  /** Both calls have read the record and sampled the clock, and neither has done anything. */
  function BothSampled(p: Pair, devices: Registry): Config {
    Start(devices, p.fans, p.second.now).(
      threads := map[p.first.t := Updating(p.first.req, Working(WorkOf(p, p.first, p.found))),
                     p.second.t := Updating(p.second.req, Working(WorkOf(p, p.second, p.found)))],
      order := [p.first, p.second])
  }

  lemma SampleBoth(p: Pair, devices: Registry) returns (steps: seq<Step>)
    requires Finds(p, devices)
    ensures After(Opening(p, devices), steps) == BothSampled(p, devices)
  {
    var c0 := Opening(p, devices);
    assert After(c0, []) == c0;
    steps := CallAndRead(c0, [], p.first.t, p.first.req);
    steps := CallAndRead(c0, steps, p.second.t, p.second.req);
    steps := AwaitClock(c0, steps, p.first.now);
    steps := Sample(c0, steps, p.first.t);
    steps := AwaitClock(c0, steps, p.second.now);
    steps := Sample(c0, steps, p.second.t);
    SampledBoth(p, devices, After(c0, steps));
  }

  lemma SampledBoth(p: Pair, devices: Registry, c: Config)
    requires PairOk(p)
    requires c == Start(devices, p.fans, p.second.now).(
                    threads := c.threads,
                    order := [] + [Entry(p.first.t, p.first.req, p.first.now)]
                             + [Entry(p.second.t, p.second.req, p.second.now)])
    requires c.threads.Keys == {p.first.t, p.second.t}
    requires c.threads[p.first.t] == Updating(p.first.req, Working(WorkOf(p, p.first, p.found)))
    requires c.threads[p.second.t] == Updating(p.second.req, Working(WorkOf(p, p.second, p.found)))
    ensures c == BothSampled(p, devices)
  {
  }

  /** Both calls read the record before either changes it. Then one of them, `x`, does all of its work, and then
      the other, `y`, does its own. Both announcements are made, and the record stored is that of `y`, if it
      stores one. */
  lemma BothRead(p: Pair, devices: Registry, x: Entry, y: Entry) returns (steps: seq<Step>)
    requires Finds(p, devices) && ((x == p.first && y == p.second) || (x == p.second && y == p.first))
    ensures var c := After(Opening(p, devices), steps);
            && TwoCalls(p, c) && c.fans == p.fans
            && AllHeard(c, Says(x, p.found) + Says(y, p.found))
            && Lookup(c.devices, p.id) == if Acts(y, p.found) == [] then Leaves(x, p.found) else Leaves(y, p.found)
  {
    var c0 := Opening(p, devices);
    steps := SampleBoth(p, devices);
    var half := FinishOne(c0, steps, p, x, p.found);
    steps := FinishOne(c0, half, p, y, p.found);
    var after := if Acts(x, p.found) == [] then p.found else Leaves(x, p.found);
    BothReturned(p, BothSampled(p, devices), After(c0, half), After(c0, steps), x, y, after,
                 if Acts(y, p.found) == [] then after else Leaves(y, p.found), Says(x, p.found), Says(y, p.found));
  }

  /** One call has returned, and then the other. */
  lemma BothReturned(
    p: Pair, c: Config, mid: Config, end: Config, x: Entry, y: Entry, after1: Option<Device>, after2: Option<Device>,
    told1: seq<Device>, told2: seq<Device>)
    requires (x == p.first && y == p.second) || (x == p.second && y == p.first)
    requires x.t != y.t && c.threads.Keys == {x.t, y.t} && c.log == [] && c.order == [p.first, p.second]
    requires c.threads[x.t].Updating? && c.threads[x.t].req == x.req
    requires c.threads[y.t].Updating? && c.threads[y.t].req == y.req
    requires Returned(c, mid, x.t, p.id, after1, FanoutAll(c.fans, told1))
    requires Returned(mid, end, y.t, p.id, after2, FanoutAll(c.fans, told2))
    requires |told1| <= 1 && |told2| <= 1
    ensures TwoCalls(p, end) && end.fans == c.fans && AllHeard(end, told1 + told2)
    ensures Lookup(end.devices, p.id) == after2
  {
    assert end.log == [] + FanoutAll(c.fans, told1) + FanoutAll(c.fans, told2);
    assert AllHeard(end, told1 + told2) by { HeardTwice(end, told1, told2); }
  }

  lemma HeardTwice(c: Config, a: seq<Device>, b: seq<Device>)
    requires c.log == [] + FanoutAll(c.fans, a) + FanoutAll(c.fans, b) && |b| <= 1
    ensures AllHeard(c, a + b)
  {
    assert [] + FanoutAll(c.fans, a) == FanoutAll(c.fans, a);
    FanoutConcat(c.fans, a, b);
    HeardAll(c, a + b);
  }

  /** Undisturbed, a call that has sampled the clock does its work and returns. */
  lemma FinishOne(c0: Config, steps: seq<Step>, p: Pair, e: Entry, found: Option<Device>) returns (more: seq<Step>)
    requires var c := After(c0, steps);
             && !c.writer && c.readers == 0 && c.fans == p.fans
             && e.t in c.threads && c.threads[e.t] == Updating(e.req, Working(WorkOf(p, e, found)))
    requires HasId(found, p.id) && Target(e.req) == p.id
    ensures var c := After(c0, steps);
            Returned(c, After(c0, more), e.t, p.id,
                     if Acts(e, found) == [] then Lookup(c.devices, p.id) else Leaves(e, found),
                     FanoutAll(p.fans, Says(e, found)))
  {
    var c := After(c0, steps);
    ExpandMatches(p.fans, e.req, found, e.now, Lookup(c.devices, p.id));
    WorkIsSettled(p.fans, e.req, found, e.now);
    more := Finish(c0, steps, e.t, WorkOf(p, e, found), p.id);
  }

  /** The first call registers the device; it has stored the record and has not announced it. */
  function Registered(p: Pair, devices: Registry, d: Device): Config {
    Start(devices[p.id := d], p.fans, p.first.now).(
      threads := map[p.first.t := Updating(p.first.req, Working(DeliverAll(p.fans, d)))], order := [p.first])
  }

  lemma StoreFirst(p: Pair, devices: Registry, d: Device) returns (steps: seq<Step>)
    requires Finds(p, devices) && p.found.None? && Says(p.first, None) == [d]
    ensures After(Opening(p, devices), steps) == Registered(p, devices, d)
  {
    var c0 := Opening(p, devices);
    AnnounceOrder(p.first.req, None, p.first.now);
    RespondIsAnEdge(p.first.req, None, p.first.now);
    assert Acts(p.first, None) == [Put(d), Notify(d)];
    RegistrationWork(p.fans, d);
    assert After(c0, []) == c0;
    steps := CallAndRead(c0, [], p.first.t, p.first.req);
    steps := AwaitClock(c0, steps, p.first.now);
    steps := Sample(c0, steps, p.first.t);
    steps := WorkOne(c0, steps, p.first.t, Write(d), DeliverAll(p.fans, d));
    assert After(c0, steps).order == [p.first];
  }

  lemma RegistrationWork(n: nat, d: Device)
    ensures Expand(n, [Put(d), Notify(d)]) == [Write(d)] + DeliverAll(n, d)
    ensures FanoutAll(n, [d]) == Fanout(n, d)
  {
    assert [Put(d), Notify(d)][1..] == [Notify(d)] && [Notify(d)][1..] == [];
    assert Expand(n, [Notify(d)]) == DeliverAll(n, d) + [];
    FanoutOne(n, d, "");
  }

  /** The second call reads the record registered by the first, and samples the clock. */
  lemma ReadRegistered(p: Pair, devices: Registry, d: Device) returns (steps: seq<Step>)
    requires Finds(p, devices) && p.found.None? && Says(p.first, None) == [d]
    ensures After(Opening(p, devices), steps)
            == Registered(p, devices, d).(
                 threads := map[p.first.t := Updating(p.first.req, Working(DeliverAll(p.fans, d))),
                                p.second.t := Updating(p.second.req, Working(WorkOf(p, p.second, Some(d))))],
                 clock := p.second.now, order := [p.first, p.second])
  {
    var c0 := Opening(p, devices);
    steps := StoreFirst(p, devices, d);
    steps := CallAndRead(c0, steps, p.second.t, p.second.req);
    steps := AwaitClock(c0, steps, p.second.now);
    steps := Sample(c0, steps, p.second.t);
    assert [p.first] + [Entry(p.second.t, p.second.req, p.second.now)] == [p.first, p.second];
  }

  /** The second call runs between the store and the announcement of a registration. */
  lemma BetweenStoreAndAnnouncement(p: Pair, devices: Registry, d: Device) returns (steps: seq<Step>)
    requires Finds(p, devices) && p.found.None? && Says(p.first, None) == [d]
    ensures var c := After(Opening(p, devices), steps);
            && TwoCalls(p, c) && c.fans == p.fans
            && AllHeard(c, Says(p.second, Some(d)) + [d])
            && Lookup(c.devices, p.id) == Leaves(p.second, Some(d))
  {
    var c0 := Opening(p, devices);
    RespondIsAnEdge(p.first.req, None, p.first.now);
    steps := ReadRegistered(p, devices, d);
    var begin, after := After(c0, steps), Leaves(p.second, Some(d));
    var half := FinishOne(c0, steps, p, p.second, Some(d));
    DeliverAllIsFanout(p.fans, d, after);
    RegistrationWork(p.fans, d);
    assert Returned(begin, After(c0, half), p.second.t, p.id, after, FanoutAll(p.fans, Says(p.second, Some(d))));
    steps := Finish(c0, half, p.first.t, DeliverAll(p.fans, d), p.id);
    BothReturned(p, begin, After(c0, half), After(c0, steps), p.second, p.first, after, after,
                 Says(p.second, Some(d)), [d]);
  }

  /** Two overlapping pings that an offline device accepts, of whichever kind: every subscriber is told twice in
      a row that it is online. */
  lemma OverlapBreaksAlternation(p: Pair, devices: Registry) returns (steps: seq<Step>)
    requires Finds(p, devices) && p.found.Some? && !p.found.value.isOnline
    requires Accepts(p.first.req, p.found.value.msg.kind) && Accepts(p.second.req, p.found.value.msg.kind)
    ensures var c := After(Opening(p, devices), steps);
            TwoCalls(p, c) && exists d: Device, e: Device :: d.isOnline && e.isOnline && AllHeard(c, [d, e])
  {
    steps := BothRead(p, devices, p.first, p.second);
    var d, e := Says(p.first, p.found)[0], Says(p.second, p.found)[0];
    assert d.isOnline && e.isOnline && AllHeard(After(Opening(p, devices), steps), [d, e]);
  }

  /** Two overlapping first pings of a device: it is registered twice and announced twice. */
  lemma OverlapRegistersTwice(p: Pair, devices: Registry, m1: Message, m2: Message) returns (steps: seq<Step>)
    requires Finds(p, devices) && p.found.None? && p.first.req == Ping(m1) && p.second.req == Ping(m2)
    ensures var c, t1, t2 := After(Opening(p, devices), steps), p.first.now, p.second.now;
            && TwoCalls(p, c)
            && AllHeard(c, [Device(m1, true, t1, t1, t1), Device(m2, true, t2, t2, t2)])
            && Lookup(c.devices, p.id) == Some(Device(m2, true, t2, t2, t2))
  {
    steps := BothRead(p, devices, p.first, p.second);
  }

  /** The second call marks a device offline, or checks it more than a minute after the first call sampled the
      clock for a registration. */
  predicate TurnsOff(p: Pair) {
    p.second.req.MarkOffline? || (p.second.req.Check? && p.second.now - p.first.now > MINUTE)
  }

  /** A device marked offline, or checked more than a minute late, between the store and the announcement of its
      first ping is heard to go offline before it is heard to be online, and the last thing heard is not what is
      stored. */
  lemma OverlapReordersAnnouncements(p: Pair, devices: Registry) returns (steps: seq<Step>)
    requires Finds(p, devices) && p.found.None? && p.first.req.Ping? && TurnsOff(p)
    ensures var c := After(Opening(p, devices), steps);
            && TwoCalls(p, c) && c.fans == p.fans && !Online(Lookup(c.devices, p.id))
            && exists off: Device, on: Device :: !off.isOnline && on.isOnline && AllHeard(c, [off, on])
  {
    var on := Says(p.first, None)[0];
    var off := Says(p.second, Some(on))[0];
    steps := BetweenStoreAndAnnouncement(p, devices, on);
    assert !off.isOnline && on.isOnline && AllHeard(After(Opening(p, devices), steps), [off, on]);
  }

  /** The serial run of one call and then the other. */
  lemma SerialSteps(found: Option<Device>, id: string, x: Entry, y: Entry)
    requires Target(x.req) == id && Target(y.req) == id
    ensures RunView(found, OrderOps([x, y]), id)
            == View(Leaves(y, Leaves(x, found)), Says(x, found) + Says(y, Leaves(x, found)))
  {
    var a, b := Call(x.req, x.now), Call(y.req, y.now);
    assert OrderOps([x, y]) == [a, b];
    assert [a, b][..1] == [a] && [a][..0] == [];
    assert RunView(found, [a], id) == StepView(View(found, []), a, id);
    assert RunView(found, [a, b], id) == StepView(RunView(found, [a], id), b, id);
    assert [] + Says(x, found) == Says(x, found);
  }

  /** A sweep that read a stale record while the device pinged overwrites the ping: both calls return, the last
      clock sample is the ping's, and the device is stored offline. In both serial runs of the two calls with
      the same clock samples it ends online. */
  lemma OverlapLosesPing(devices: Registry, subs: seq<Callback>, d: Device, m: Message, checked: int, pinged: int)
    returns (steps: seq<Step>)
    requires KeysMatch(devices) && Lookup(devices, m.id) == Some(d) && d.msg.kind == m.kind
    requires d.isOnline && Stale(d, checked) && checked <= pinged
    ensures var c := After(Start(devices, |subs|, checked), steps);
            var check, ping := Entry(0, Check(m.id), checked), Entry(1, Ping(m), pinged);
            && Quiet(c) && c.order == [check, ping] && Lookup(c.devices, m.id) == Some(d.(isOnline := false))
            && forall order :: order == [check, ping] || order == [ping, check] ==>
                 Online(Lookup(Run(State(devices, subs, [], []), OrderOps(order)).devices, m.id))
  {
    var check, ping := Entry(0, Check(m.id), checked), Entry(1, Ping(m), pinged);
    steps := BothRead(Pair(m.id, Some(d), |subs|, checked, check, ping), devices, ping, check);
    SerialEndsOnline(devices, subs, d, check, ping);
  }

  lemma SerialEndsOnline(devices: Registry, subs: seq<Callback>, d: Device, check: Entry, ping: Entry)
    requires KeysMatch(devices) && Lookup(devices, d.msg.id) == Some(d) && d.isOnline
    requires check.req == Check(d.msg.id) && check.now <= ping.now
    requires ping.req.Ping? && ping.req.m.id == d.msg.id && ping.req.m.kind == d.msg.kind
    ensures forall order :: order == [check, ping] || order == [ping, check] ==>
              Online(Lookup(Run(State(devices, subs, [], []), OrderOps(order)).devices, d.msg.id))
  {
    var s0, id := State(devices, subs, [], []), d.msg.id;
    forall order | order == [check, ping] || order == [ping, check]
      ensures Online(Lookup(Run(s0, OrderOps(order)).devices, id))
    {
      assert Lookup(Run(s0, OrderOps(order)).devices, id) == RunView(Some(d), OrderOps(order), id).found by {
        RunIsLocal(s0, OrderOps(order), id);
      }
      SerialSteps(Some(d), id, order[0], order[1]);
      assert order == [order[0], order[1]];
      PingThenCheck(d, check, ping);
    }
  }

  lemma PingThenCheck(d: Device, check: Entry, ping: Entry)
    requires d.isOnline && check.req.Check? && check.now <= ping.now && ping.req.Ping? && ping.req.m.kind == d.msg.kind
    ensures Online(Leaves(check, Leaves(ping, Some(d)))) && Online(Leaves(ping, Leaves(check, Some(d))))
  {
  }
}
