/** The meaning of the presence store as a function on values: the state it keeps, what one operation
    does to it, and runs of operations. */
module Runs {
  import opened Wrappers
  import opened Devices

  /** A registered notification function, known by its name. */
  datatype Callback = Callback(name: string)

  /** One call of the subscriber at position `slot` with a device. */
  datatype Delivery = Delivery(slot: nat, device: Device)

  /** The history of the store: who joined and what was announced, in order. */
  datatype Event = Joined(fn: Callback) | Announced(d: Device)

  /** `sent` lists the calls of subscribers made so far; `events` is a history variable. */
  datatype State = State(devices: Registry, subs: seq<Callback>, events: seq<Event>, sent: seq<Delivery>)

  /** An operation, with the clock sample it takes. A sweep is a sequence of `Call(Check(id), now)`. */
  datatype Op = Call(req: Request, now: int) | Subscribe(fn: Callback)

  const EMPTY := State(map[], [], [], [])

  /** Every subscriber, in subscription order, is called with `d`. */
  function Fanout(n: nat, d: Device): (r: seq<Delivery>)
    ensures |r| == n && forall k :: 0 <= k < n ==> r[k] == Delivery(k, d)
  {
    seq(n, k requires 0 <= k < n => Delivery(k, d))
  }

  function Do(s: State, a: Action): State {
    match a
    case Put(d) => s.(devices := s.devices[d.msg.id := d])
    case Notify(d) => s.(events := s.events + [Announced(d)], sent := s.sent + Fanout(|s.subs|, d))
  }

  function Perform(s: State, acts: seq<Action>): State
    decreases |acts|
  {
    if acts == [] then s else Perform(Do(s, acts[0]), acts[1..])
  }

  function Apply(s: State, op: Op): State {
    match op
    case Call(r, now) => Perform(s, Respond(r, Lookup(s.devices, Target(r)), now))
    case Subscribe(fn) => s.(subs := s.subs + [fn], events := s.events + [Joined(fn)])
  }

  function Run(s: State, ops: seq<Op>): State {
    if ops == [] then s else Apply(Run(s, ops[..|ops| - 1]), ops[|ops| - 1])
  }

  lemma RunSnoc(s: State, ops: seq<Op>, op: Op)
    ensures Run(s, ops + [op]) == Apply(Run(s, ops), op)
  {
    assert (ops + [op])[..|ops|] == ops;
  }

  lemma {:induction false} RunConcat(s: State, a: seq<Op>, b: seq<Op>)
    ensures Run(s, a + b) == Run(Run(s, a), b)
    decreases |b|
  {
    if b == [] {
      assert a + b == a;
    } else {
      var init, last := b[..|b| - 1], b[|b| - 1];
      assert a + b == (a + init) + [last] && b == init + [last];
      RunConcat(s, a, init);
      RunSnoc(s, a + init, last);
      RunSnoc(Run(s, a), init, last);
    }
  }

  lemma RunAround(s: State, a: seq<Op>, op: Op, b: seq<Op>)
    ensures Run(s, a + [op] + b) == Run(Apply(Run(s, a), op), b)
  {
    RunSnoc(s, a, op);
    RunConcat(s, a + [op], b);
  }

  /** Every record is stored under its own id. */
  ghost predicate KeysMatch(devices: Registry) {
    forall id :: id in devices ==> devices[id].msg.id == id
  }

  /** Clock samples never go backwards. */
  ghost predicate Timely(ops: seq<Op>) {
    forall i, j :: 0 <= i < j < |ops| && ops[i].Call? && ops[j].Call? ==> ops[i].now <= ops[j].now
  }

  predicate About(op: Op, id: string) {
    op.Call? && Target(op.req) == id
  }

  /** What one device sees of a run: its record, and what was announced about it. */
  datatype View = View(found: Option<Device>, notes: seq<Device>)

  function StepView(v: View, op: Op, id: string): View {
    if About(op, id)
    then View(Settled(op.req, v.found, op.now), v.notes + Told(op.req, v.found, op.now))
    else v
  }

  /** The run of one device alone. */
  function RunView(found: Option<Device>, ops: seq<Op>, id: string): View {
    if ops == [] then View(found, [])
    else StepView(RunView(found, ops[..|ops| - 1], id), ops[|ops| - 1], id)
  }

  function NotesOf(events: seq<Event>, id: string): seq<Device> {
    if events == [] then []
    else
      var rest, e := NotesOf(events[..|events| - 1], id), events[|events| - 1];
      if e.Announced? && e.d.msg.id == id then rest + [e.d] else rest
  }

  /** The calls of subscribers that were about one device. */
  function SentOf(sent: seq<Delivery>, id: string): seq<Delivery> {
    if sent == [] then []
    else
      var rest, d := SentOf(sent[..|sent| - 1], id), sent[|sent| - 1];
      if d.device.msg.id == id then rest + [d] else rest
  }

  lemma NotesOfSnoc(events: seq<Event>, e: Event, id: string)
    ensures NotesOf(events + [e], id)
            == NotesOf(events, id) + (if e.Announced? && e.d.msg.id == id then [e.d] else [])
  {
    assert (events + [e])[..|events|] == events;
  }

  lemma {:induction false} SentOfConcat(a: seq<Delivery>, b: seq<Delivery>, id: string)
    ensures SentOf(a + b, id) == SentOf(a, id) + SentOf(b, id)
    decreases |b|
  {
    if b == [] {
      assert a + b == a;
    } else {
      assert (a + b)[..|a + b| - 1] == a + b[..|b| - 1];
      SentOfConcat(a, b[..|b| - 1], id);
    }
  }

  lemma {:induction false} SentOfFanout(n: nat, d: Device, id: string)
    ensures SentOf(Fanout(n, d), id) == if d.msg.id == id then Fanout(n, d) else []
  {
    if n > 0 {
      SentOfFanout(n - 1, d, id);
      assert Fanout(n, d)[..n - 1] == Fanout(n - 1, d);
    }
  }

  /** Fanned-out notifications, one after the other. */
  function FanoutAll(n: nat, notes: seq<Device>): seq<Delivery> {
    if notes == [] then [] else FanoutAll(n, notes[..|notes| - 1]) + Fanout(n, notes[|notes| - 1])
  }

  lemma FanoutOne(n: nat, d: Device, id: string)
    ensures FanoutAll(n, [d]) == Fanout(n, d)
    ensures SentOf(FanoutAll(n, [d]), id) == if d.msg.id == id then FanoutAll(n, [d]) else []
  {
    assert [d][..0] == [];
    assert FanoutAll(n, [d]) == [] + Fanout(n, d);
    SentOfFanout(n, d, id);
  }

  lemma PerformStep(s: State, a: Action, rest: seq<Action>)
    ensures Perform(s, [a] + rest) == Perform(Do(s, a), rest)
  {
    assert ([a] + rest)[1..] == rest;
  }

  /** A list of actions about one device, performed: the record is stored if there is any action, and
      announced once if there are two. */
  lemma PerformEffect(s: State, acts: seq<Action>, d: Device)
    requires IsResponse(acts, d)
    ensures var s' := Perform(s, acts);
            && s'.subs == s.subs
            && s'.devices == (if acts == [] then s.devices else s.devices[d.msg.id := d])
            && s'.events == s.events + (if |acts| == 2 then [Announced(d)] else [])
            && s'.sent == s.sent + (if |acts| == 2 then FanoutAll(|s.subs|, [d]) else [])
  {
    if acts == [] {
    } else {
      PerformStep(s, acts[0], acts[1..]);
      assert acts == [acts[0]] + acts[1..];
      if |acts| == 2 {
        PerformStep(Do(s, acts[0]), acts[1], []);
        assert acts[1..] == [acts[1]] + [];
        FanoutOne(|s.subs|, d, d.msg.id);
      }
    }
  }

  /** What a call does to the whole state, in one equation. */
  lemma ApplyCall(s: State, r: Request, now: int)
    requires KeysMatch(s.devices)
    ensures var found := Lookup(s.devices, Target(r));
            var told := Told(r, found, now);
            var s' := Apply(s, Call(r, now));
            && KeysMatch(s'.devices)
            && s'.subs == s.subs
            && s'.devices == (if Respond(r, found, now) == [] then s.devices
                              else s.devices[Target(r) := Settled(r, found, now).value])
            && s'.events == s.events + (if told == [] then [] else [Announced(told[0])])
            && s'.sent == s.sent + FanoutAll(|s.subs|, told)
  {
    var found := Lookup(s.devices, Target(r));
    var acts := Respond(r, found, now);
    RespondIsAnEdge(r, found, now);
    var d := if acts == [] then Device(Message("", "", "", "", "", 0, ""), false, 0, 0, 0) else acts[0].d;
    RespondShape(r, found, now, d);
    PerformEffect(s, acts, d);
  }

  /** The state moved from `s` to `s'`: one device has a new record, and it was announced at most once. */
  ghost predicate Effect(s: State, s': State, id: string, after: Option<Device>, told: seq<Device>) {
    && KeysMatch(s'.devices) && s'.subs == s.subs
    && (forall other :: Lookup(s'.devices, other) == if other == id then after else Lookup(s.devices, other))
    && (told == [] || (after.Some? && told == [after.value] && after.value.msg.id == id))
    && s'.events == s.events + (if told == [] then [] else [Announced(told[0])])
    && s'.sent == s.sent + FanoutAll(|s.subs|, told)
  }

  lemma CallHasEffect(s: State, r: Request, now: int)
    requires KeysMatch(s.devices)
    ensures var found := Lookup(s.devices, Target(r));
            Effect(s, Apply(s, Call(r, now)), Target(r), Settled(r, found, now), Told(r, found, now))
  {
    ApplyCall(s, r, now);
    RespondIsAnEdge(r, Lookup(s.devices, Target(r)), now);
  }

  lemma EffectIsLocal(s: State, s': State, target: string, after: Option<Device>, told: seq<Device>, id: string)
    requires Effect(s, s', target, after, told)
    ensures NotesOf(s'.events, id) == NotesOf(s.events, id) + (if target == id then told else [])
    ensures SentOf(s'.sent, id) == SentOf(s.sent, id) + (if target == id then FanoutAll(|s.subs|, told) else [])
  {
    SentOfConcat(s.sent, FanoutAll(|s.subs|, told), id);
    if told == [] {
      assert s.events + [] == s.events;
    } else {
      NotesOfSnoc(s.events, Announced(told[0]), id);
      FanoutOne(|s.subs|, told[0], id);
    }
  }

  /** One operation changes the record, the announcements and the deliveries of the device it is about,
      as that device alone would see it, and no other device's. */
  lemma ApplyIsLocal(s: State, op: Op, id: string)
    requires KeysMatch(s.devices)
    ensures var s' := Apply(s, op);
            && KeysMatch(s'.devices)
            && View(Lookup(s'.devices, id), NotesOf(s'.events, id))
               == StepView(View(Lookup(s.devices, id), NotesOf(s.events, id)), op, id)
            && SentOf(s'.sent, id) == SentOf(s.sent, id)
               + (if About(op, id) then FanoutAll(|s.subs|, Told(op.req, Lookup(s.devices, id), op.now)) else [])
  {
    match op
    case Subscribe(fn) =>
      NotesOfSnoc(s.events, Joined(fn), id);
    case Call(r, now) =>
      var found := Lookup(s.devices, Target(r));
      CallHasEffect(s, r, now);
      EffectIsLocal(s, Apply(s, op), Target(r), Settled(r, found, now), Told(r, found, now), id);
  }

  /** A whole run is, for each device, the run of that device alone. */
  lemma {:induction false} RunIsLocal(s: State, ops: seq<Op>, id: string)
    requires KeysMatch(s.devices)
    ensures KeysMatch(Run(s, ops).devices)
    ensures Lookup(Run(s, ops).devices, id) == RunView(Lookup(s.devices, id), ops, id).found
    ensures NotesOf(Run(s, ops).events, id)
            == NotesOf(s.events, id) + RunView(Lookup(s.devices, id), ops, id).notes
    decreases |ops|
  {
    if ops != [] {
      RunIsLocal(s, ops[..|ops| - 1], id);
      ApplyIsLocal(Run(s, ops[..|ops| - 1]), ops[|ops| - 1], id);
    }
  }

  lemma {:induction false} ViewHasId(found: Option<Device>, ops: seq<Op>, id: string)
    requires HasId(found, id)
    ensures HasId(RunView(found, ops, id).found, id)
    ensures found.Some? ==> RunView(found, ops, id).found.Some?
    ensures forall n :: n in RunView(found, ops, id).notes ==> n.msg.id == id
    decreases |ops|
  {
    if ops != [] {
      var init := ops[..|ops| - 1];
      ViewHasId(found, init, id);
      var op := ops[|ops| - 1];
      if About(op, id) {
        RespondIsAnEdge(op.req, RunView(found, init, id).found, op.now);
      }
    }
  }
}
