/** What each subscriber hears. */
module Deliveries {
  import opened Wrappers
  import opened Devices
  import opened Runs

  function JoinedOf(events: seq<Event>): seq<Callback> {
    if events == [] then []
    else
      var rest, e := JoinedOf(events[..|events| - 1]), events[|events| - 1];
      if e.Joined? then rest + [e.fn] else rest
  }

  function AnnouncedOf(events: seq<Event>): seq<Device> {
    if events == [] then []
    else
      var rest, e := AnnouncedOf(events[..|events| - 1]), events[|events| - 1];
      if e.Announced? then rest + [e.d] else rest
  }

  /** The calls a history amounts to: each announcement goes to everyone who joined before it, in the
      order of joining, and before the next announcement is made. */
  function Broadcast(events: seq<Event>): seq<Delivery> {
    if events == [] then []
    else
      var init, e := events[..|events| - 1], events[|events| - 1];
      if e.Announced? then Broadcast(init) + Fanout(|JoinedOf(init)|, e.d) else Broadcast(init)
  }

  /** What the subscriber at one position received. */
  function Received(sent: seq<Delivery>, slot: nat): seq<Device> {
    if sent == [] then []
    else
      var rest, d := Received(sent[..|sent| - 1], slot), sent[|sent| - 1];
      if d.slot == slot then rest + [d.device] else rest
  }

  ghost predicate Consistent(s: State) {
    s.subs == JoinedOf(s.events) && s.sent == Broadcast(s.events)
  }

  lemma EventSnoc(events: seq<Event>, e: Event)
    ensures JoinedOf(events + [e]) == JoinedOf(events) + (if e.Joined? then [e.fn] else [])
    ensures AnnouncedOf(events + [e]) == AnnouncedOf(events) + (if e.Announced? then [e.d] else [])
    ensures Broadcast(events + [e])
            == Broadcast(events) + (if e.Announced? then Fanout(|JoinedOf(events)|, e.d) else [])
  {
    assert (events + [e])[..|events|] == events;
  }

  lemma {:induction false} ReceivedConcat(a: seq<Delivery>, b: seq<Delivery>, slot: nat)
    ensures Received(a + b, slot) == Received(a, slot) + Received(b, slot)
    decreases |b|
  {
    if b == [] {
      assert a + b == a;
    } else {
      assert (a + b)[..|a + b| - 1] == a + b[..|b| - 1];
      ReceivedConcat(a, b[..|b| - 1], slot);
    }
  }

  lemma {:induction false} ReceivedFromFanout(n: nat, d: Device, slot: nat)
    ensures Received(Fanout(n, d), slot) == if slot < n then [d] else []
  {
    if n > 0 {
      ReceivedFromFanout(n - 1, d, slot);
      assert Fanout(n, d)[..n - 1] == Fanout(n - 1, d);
    }
  }

  lemma EffectKeepsConsistent(s: State, s': State, id: string, after: Option<Device>, told: seq<Device>)
    requires Consistent(s) && Effect(s, s', id, after, told)
    ensures Consistent(s') && s.events <= s'.events
  {
    if told == [] {
      assert s'.events == s.events && s'.sent == s.sent;
    } else {
      EventSnoc(s.events, Announced(told[0]));
      FanoutOne(|s.subs|, told[0], id);
    }
  }

  lemma ApplyKeepsConsistent(s: State, op: Op)
    requires KeysMatch(s.devices) && Consistent(s)
    ensures KeysMatch(Apply(s, op).devices) && Consistent(Apply(s, op))
    ensures s.events <= Apply(s, op).events
  {
    match op
    case Subscribe(fn) => EventSnoc(s.events, Joined(fn));
    case Call(r, now) =>
      var found := Lookup(s.devices, Target(r));
      CallHasEffect(s, r, now);
      EffectKeepsConsistent(s, Apply(s, op), Target(r), Settled(r, found, now), Told(r, found, now));
  }

  /** In every run the calls made so far are exactly the broadcast of the history. */
  lemma {:induction false} RunBroadcasts(s: State, ops: seq<Op>)
    requires KeysMatch(s.devices) && Consistent(s)
    ensures KeysMatch(Run(s, ops).devices) && Consistent(Run(s, ops))
    ensures s.events <= Run(s, ops).events
    decreases |ops|
  {
    if ops != [] {
      RunBroadcasts(s, ops[..|ops| - 1]);
      ApplyKeepsConsistent(Run(s, ops[..|ops| - 1]), ops[|ops| - 1]);
    }
  }

  /** The subscriber that joins at position `j` of a history hears exactly the later announcements. */
  lemma {:induction false} JoinerHearsSuffix(events: seq<Event>, j: nat)
    requires j < |events| && events[j].Joined?
    ensures Received(Broadcast(events), |JoinedOf(events[..j])|) == AnnouncedOf(events[j + 1..])
    ensures |JoinedOf(events)| > |JoinedOf(events[..j])|
    decreases |events|
  {
    var init, e := events[..|events| - 1], events[|events| - 1];
    var slot := |JoinedOf(events[..j])|;
    if j == |events| - 1 {
      NobodyHearsEarly(init, slot);
      assert events[j + 1..] == [];
    } else {
      assert init[..j] == events[..j];
      JoinerHearsSuffix(init, j);
      assert events[j + 1..] == init[j + 1..] + [e];
      EventSnoc(init[j + 1..], e);
      if e.Announced? {
        ReceivedConcat(Broadcast(init), Fanout(|JoinedOf(init)|, e.d), slot);
        ReceivedFromFanout(|JoinedOf(init)|, e.d, slot);
      }
    }
  }

  lemma {:induction false} NobodyHearsEarly(events: seq<Event>, slot: nat)
    requires slot >= |JoinedOf(events)|
    ensures Received(Broadcast(events), slot) == []
    decreases |events|
  {
    if events != [] {
      var init, e := events[..|events| - 1], events[|events| - 1];
      NobodyHearsEarly(init, slot);
      if e.Announced? {
        ReceivedConcat(Broadcast(init), Fanout(|JoinedOf(init)|, e.d), slot);
        ReceivedFromFanout(|JoinedOf(init)|, e.d, slot);
      }
    }
  }

  /** A callback registered in the middle of a run has been called, at the end of it, with exactly what
      was announced since, in that order. */
  lemma {:induction false} SubscriberReceivesSuffix(s: State, a: seq<Op>, fn: Callback, b: seq<Op>)
    requires KeysMatch(s.devices) && Consistent(s)
    ensures var joined := Run(s, a);
            var end := Run(s, a + [Subscribe(fn)] + b);
            && joined.events + [Joined(fn)] <= end.events
            && |joined.subs| < |end.subs| && end.subs[|joined.subs|] == fn
            && Received(end.sent, |joined.subs|) == AnnouncedOf(end.events[|joined.events| + 1..])
  {
    RunBroadcasts(s, a);
    RunAround(s, a, Subscribe(fn), b);
    JoinedThenRun(Run(s, a), fn, b);
  }

  lemma JoinedThenRun(joined: State, fn: Callback, ops: seq<Op>)
    requires KeysMatch(joined.devices) && Consistent(joined)
    ensures var end, slot := Run(Apply(joined, Subscribe(fn)), ops), |joined.subs|;
            && joined.events + [Joined(fn)] <= end.events
            && slot < |end.subs| && end.subs[slot] == fn
            && Received(end.sent, slot) == AnnouncedOf(end.events[|joined.events| + 1..])
  {
    ApplyKeepsConsistent(joined, Subscribe(fn));
    RunBroadcasts(Apply(joined, Subscribe(fn)), ops);
    SplitHistory(joined.events, Joined(fn), Run(Apply(joined, Subscribe(fn)), ops).events);
    LaterHistory(joined.events, fn, Run(Apply(joined, Subscribe(fn)), ops).events[|joined.events| + 1..]);
  }

  lemma SplitHistory(before: seq<Event>, e: Event, events: seq<Event>)
    requires before + [e] <= events
    ensures events == before + [e] + events[|before| + 1..]
  {
  }

  lemma LaterHistory(before: seq<Event>, fn: Callback, after: seq<Event>)
    ensures var events, slot := before + [Joined(fn)] + after, |JoinedOf(before)|;
            && slot < |JoinedOf(events)| && JoinedOf(events)[slot] == fn
            && Received(Broadcast(events), slot) == AnnouncedOf(after)
  {
    var n, events := |before|, before + [Joined(fn)] + after;
    assert events[..n] == before && events[n + 1..] == after;
    JoinerHearsSuffix(events, n);
    EventSnoc(before, Joined(fn));
    JoinedPrefix(before + [Joined(fn)], after);
  }

  lemma {:induction false} JoinedPrefix(a: seq<Event>, b: seq<Event>)
    ensures JoinedOf(a) <= JoinedOf(a + b)
    decreases |b|
  {
    if b == [] {
      assert a + b == a;
    } else {
      JoinedPrefix(a, b[..|b| - 1]);
      assert (a + b)[..|a + b| - 1] == a + b[..|b| - 1];
    }
  }
}
