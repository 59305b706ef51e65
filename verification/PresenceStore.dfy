/** The presence store as the object it is: fields updated in place by methods, each method taken as
    one atomic step. Every method is tied to `Runs.Apply` or `Runs.Run`. */
module PresenceStore {
  import opened Wrappers
  import opened Devices
  import opened Times
  import opened Runs

  /** The wall clock: it never goes backwards. */
  class Clock {
    var time: int

    method Now() returns (t: int)
      modifies this
      ensures t == time >= old(time)
    {
      var elapsed: int :| elapsed >= 0;
      time := time + elapsed;
      t := time;
    }
  }

  /** One iteration of a sweep: the device looked at and the clock sample taken for it. */
  datatype Visit = Visit(id: string, now: int)

  /** The run a sweep amounts to. */
  function SweepOps(visits: seq<Visit>): (ops: seq<Op>)
    ensures |ops| == |visits|
    ensures forall i :: 0 <= i < |visits| ==> ops[i] == Call(Check(visits[i].id), visits[i].now)
  {
    seq(|visits|, i requires 0 <= i < |visits| => Call(Check(visits[i].id), visits[i].now))
  }

  /** The visits name every key of the map exactly once; their order is free. */
  ghost predicate VisitsAll(visits: seq<Visit>, keys: set<string>) {
    && (set v | v in visits :: v.id) == keys
    && (forall i, j :: 0 <= i < j < |visits| ==> visits[i].id != visits[j].id)
  }

  ghost predicate InOrder(visits: seq<Visit>) {
    forall i, j :: 0 <= i < j < |visits| ==> visits[i].now <= visits[j].now
  }

  /** `list` names the records of `devices`, each exactly once, and no two entries share an id. */
  ghost predicate Lists(list: seq<Device>, devices: Registry) {
    && |list| == |devices|
    && (forall i :: 0 <= i < |list| ==> list[i].msg.id in devices && devices[list[i].msg.id] == list[i])
    && (forall i, j :: 0 <= i < j < |list| ==> list[i].msg.id != list[j].msg.id)
    && (forall id :: id in devices ==> devices[id] in list)
  }

  class Store {
    var devices: Registry
    var subs: seq<Callback>
    var sent: seq<Delivery>
    ghost var events: seq<Event>
    const clock: Clock

    ghost function Contents(): State
      reads this
    {
      State(devices, subs, events, sent)
    }

    constructor (clock: Clock)
      ensures Contents() == EMPTY
      ensures this.clock == clock
    {
      this.clock := clock;
      devices, subs, sent, events := map[], [], [], [];
    }

    method Subscribe(fn: Callback)
      modifies this
      ensures Contents() == Apply(old(Contents()), Runs.Op.Subscribe(fn))
    {
      subs := subs + [fn];
      events := events + [Joined(fn)];
    }

    method NotifyAll(d: Device)
      modifies this
      ensures Contents() == Do(old(Contents()), Notify(d))
    {
      events := events + [Announced(d)];
      if |subs| == 0 {
        assert Fanout(0, d) == [];
        return;
      }
      var k := 0;
      while k < |subs|
        invariant 0 <= k <= |subs|
        invariant subs == old(subs) && devices == old(devices) && events == old(events) + [Announced(d)]
        invariant sent == old(sent) + Fanout(|subs|, d)[..k]
      {
        sent := sent + [Delivery(k, d)];
        k := k + 1;
      }
    }

    method GetDevice(id: string) returns (found: Option<Device>)
      ensures found == Lookup(devices, id)
    {
      found := if id in devices then Some(devices[id]) else None;
    }

    method UpsertDevice(d: Device)
      modifies this
      ensures Contents() == Do(old(Contents()), Put(d))
    {
      devices := devices[d.msg.id := d];
    }

    method Ping(m: Message)
      modifies this, clock
      ensures clock.time >= old(clock.time)
      ensures Contents() == Apply(old(Contents()), Call(Request.Ping(m), clock.time))
    {
      var found := GetDevice(m.id);
      var now := clock.Now();
      ghost var start := Contents();
      ghost var acts := Respond(Request.Ping(m), found, now);
      if found.None? {
        var registered := Device(m, true, now, now, now);
        UpsertDevice(registered);
        NotifyAll(registered);
        PerformInOrder(start, acts);
        return;
      }
      var device := found.value;
      if device.msg.kind != m.kind {
        return;
      }
      device := device.(pingedAt := now);
      if |m.revision| > 0 && device.msg.revision != m.revision {
        device := device.(msg := device.msg.(revision := m.revision), updatedAt := now);
      }
      if |m.branch| > 0 && device.msg.branch != m.branch {
        device := device.(msg := device.msg.(branch := m.revision), updatedAt := now);
      }
      if m.buildTime != ZERO_TIME && device.msg.buildTime != m.buildTime {
        device := device.(msg := device.msg.(buildTime := m.buildTime));
      }
      assert device == Refreshed(found.value, m, now);
      if !device.isOnline {
        device := device.(isOnline := true);
        NotifyAll(device);
      }
      UpsertDevice(device);
      PerformInOrder(start, acts);
    }

    method PingDevice(id: string)
      modifies this, clock
      ensures clock.time >= old(clock.time)
      ensures Contents() == Apply(old(Contents()), Call(Request.PingDevice(id), clock.time))
    {
      var found := GetDevice(id);
      if found.None? {
        return;
      }
      var device := found.value;
      var now := clock.Now();
      ghost var start := Contents();
      device := device.(pingedAt := now);
      if !device.isOnline {
        device := device.(isOnline := true, updatedAt := now);
        NotifyAll(device);
      }
      UpsertDevice(device);
      PerformInOrder(start, Respond(Request.PingDevice(id), found, now));
    }

    method MarkOffline(id: string)
      modifies this, clock
      ensures clock.time >= old(clock.time)
      ensures Contents() == Apply(old(Contents()), Call(Request.MarkOffline(id), clock.time))
    {
      var found := GetDevice(id);
      if found.None? {
        return;
      }
      var device := found.value;
      var now := clock.Now();
      ghost var start := Contents();
      if device.isOnline {
        device := device.(isOnline := false, updatedAt := now);
        NotifyAll(device);
      }
      UpsertDevice(device);
      PerformInOrder(start, Respond(Request.MarkOffline(id), found, now));
    }

    /** One iteration of the sweep loop, for a key of the map. */
    method CheckDevice(k: string)
      requires k in devices
      modifies this, clock
      ensures clock.time >= old(clock.time)
      ensures Contents() == Apply(old(Contents()), Call(Check(k), clock.time))
    {
      var device := devices[k];
      var now := clock.Now();
      ghost var start := Contents();
      if now - device.pingedAt > MINUTE && device.isOnline {
        device := device.(isOnline := false);
        NotifyAll(device);
        UpsertDevice(device);
        PerformInOrder(start, Respond(Check(k), Some(start.devices[k]), now));
      }
    }

    /** The sweep: every key once, in an order the caller cannot know, each with its own clock sample. */
    method UpdateDevicesState() returns (ghost visits: seq<Visit>)
      requires KeysMatch(devices)
      modifies this, clock
      ensures VisitsAll(visits, old(devices.Keys)) && InOrder(visits)
      ensures forall v :: v in visits ==> old(clock.time) <= v.now <= clock.time
      ensures Contents() == Run(old(Contents()), SweepOps(visits))
    {
      visits := [];
      var todo := devices.Keys;
      while todo != {}
        invariant KeysMatch(devices) && devices.Keys == old(devices.Keys) && todo <= devices.Keys
        invariant VisitsAll(visits, old(devices.Keys) - todo) && InOrder(visits)
        invariant old(clock.time) <= clock.time
        invariant forall v :: v in visits ==> old(clock.time) <= v.now <= clock.time
        invariant Contents() == Run(old(Contents()), SweepOps(visits))
        decreases todo
      {
        var k :| k in todo;
        ghost var before := Contents();
        CheckDevice(k);
        ghost var visit := Visit(k, clock.time);
        CheckedMore(old(Contents()), before, Contents(), visits, visit);
        assert VisitsAll(visits + [visit], old(devices.Keys) - (todo - {k})) by {
          assert old(devices.Keys) - todo + {k} == old(devices.Keys) - (todo - {k});
          VisitsMore(visits, visit, old(devices.Keys) - todo);
        }
        visits := visits + [visit];
        todo := todo - {k};
      }
      assert old(devices.Keys) - {} == old(devices.Keys);
    }

    /** All records, in no particular order. */
    method GetDevices() returns (list: seq<Device>)
      requires KeysMatch(devices)
      ensures Lists(list, devices)
    {
      list := [];
      if |devices| == 0 {
        return;
      }
      var todo := devices.Keys;
      while todo != {}
        invariant todo <= devices.Keys && |list| + |todo| == |devices.Keys|
        invariant forall i :: 0 <= i < |list| ==>
                    list[i].msg.id in devices.Keys - todo && devices[list[i].msg.id] == list[i]
        invariant forall i, j :: 0 <= i < j < |list| ==> list[i].msg.id != list[j].msg.id
        invariant forall id :: id in devices.Keys - todo ==> devices[id] in list
        decreases todo
      {
        var k :| k in todo;
        var device := devices[k];
        list := list + [device];
        todo := todo - {k};
      }
    }
  }

  /** Carrying out the (at most two) actions of a call one after the other is performing the list. */
  lemma PerformInOrder(s: State, acts: seq<Action>)
    requires |acts| <= 2
    ensures acts == [] ==> Perform(s, acts) == s
    ensures |acts| == 1 ==> Perform(s, acts) == Do(s, acts[0])
    ensures |acts| == 2 ==> Perform(s, acts) == Do(Do(s, acts[0]), acts[1])
  {
    if acts != [] {
      PerformStep(s, acts[0], acts[1..]);
      assert acts == [acts[0]] + acts[1..];
      if |acts| == 2 {
        PerformStep(Do(s, acts[0]), acts[1], []);
        assert acts[1..] == [acts[1]] + [];
      }
    }
  }

  /** One more visit extends a sweep. */
  lemma VisitsMore(visits: seq<Visit>, v: Visit, keys: set<string>)
    requires VisitsAll(visits, keys) && v.id !in keys
    ensures VisitsAll(visits + [v], keys + {v.id})
  {
    assert forall w :: w in visits + [v] <==> w in visits || w == v;
    forall i | 0 <= i < |visits| ensures visits[i].id in keys {
      assert visits[i] in visits;
    }
  }

  lemma CheckedMore(s: State, before: State, after: State, visits: seq<Visit>, v: Visit)
    requires KeysMatch(before.devices) && v.id in before.devices
    requires before == Run(s, SweepOps(visits)) && after == Apply(before, Call(Check(v.id), v.now))
    ensures after == Run(s, SweepOps(visits + [v]))
    ensures KeysMatch(after.devices) && after.devices.Keys == before.devices.Keys
  {
    SweepMore(s, visits, v);
    ApplyCall(before, Check(v.id), v.now);
  }

  lemma SweepMore(s: State, visits: seq<Visit>, v: Visit)
    ensures Run(s, SweepOps(visits + [v])) == Apply(Run(s, SweepOps(visits)), Call(Check(v.id), v.now))
  {
    assert SweepOps(visits + [v]) == SweepOps(visits) + [Call(Check(v.id), v.now)];
    RunSnoc(s, SweepOps(visits), Call(Check(v.id), v.now));
  }
}
