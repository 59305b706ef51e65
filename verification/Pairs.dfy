/** What two overlapping calls on one device can end with, and exactly when they are harmless to the subscribers. */
module Pairs {
  import opened Wrappers
  import opened Devices
  import opened Runs
  import opened Isolation
  import opened Deliveries
  import opened Interleaving
  import opened Serial
  import opened Serialisability
  import opened Overlap

  /** On a stored device, one of the calls does nothing to the record found, or neither tells anybody. On an
      unregistered one, the first to sample the clock is no ping, or the second neither is a ping nor turns off
      the device that the first registers. */
  predicate Harmless(p: Pair) {
    if p.found.Some?
    then
      || Acts(p.first, p.found) == [] || Acts(p.second, p.found) == []
      || (Says(p.first, p.found) == [] && Says(p.second, p.found) == [])
    else
      !(p.first.req.Ping? && (p.second.req.Ping? || TurnsOff(p)))
  }

  /** What each subscriber heard alternates from the state found, and the last thing heard is what is stored. */
  ghost predicate Sound(p: Pair, c: Config) {
    forall slot :: 0 <= slot < c.fans ==> SoundFor(p, Received(c.log, slot), Lookup(c.devices, p.id))
  }

  ghost predicate SoundFor(p: Pair, heard: seq<Device>, stored: Option<Device>) {
    Alternates(Online(p.found), heard) && Online(stored) == LastState(Online(p.found), heard)
  }

  /** The device in the serial run of the first call and then the second. */
  function SerialView(p: Pair): View {
    RunView(p.found, OrderOps([p.first, p.second]), p.id)
  }

  function Swap(p: Pair): Pair {
    p.(first := p.second, second := p.first)
  }

  /** The record stored and what every subscriber heard are those of that run. */
  ghost predicate AsIfInOrder(p: Pair, c: Config) {
    Lookup(c.devices, p.id) == SerialView(p).found && AllHeard(c, SerialView(p).notes)
  }

  /** Both calls write, and neither tells anybody. */
  predicate BothWrite(p: Pair) {
    && Acts(p.first, p.found) != [] && Acts(p.second, p.found) != []
    && Says(p.first, p.found) == [] && Says(p.second, p.found) == []
  }

  /** What a call still has to do, and the copy of the record it holds. */
  function Left(c: Config, t: nat): seq<Work> {
    if t in c.threads && c.threads[t].Updating? then Todo(c.threads[t].pc) else []
  }

  predicate HasCopy(pc: UpdatePc) {
    pc.ReadDone? || pc.Have?
  }

  function Copy(c: Config, t: nat, none: Option<Device>): Option<Device> {
    if t in c.threads && c.threads[t].Updating? && HasCopy(c.threads[t].pc) then c.threads[t].pc.found else none
  }

  predicate NoWrites(todo: seq<Work>) {
    forall i :: 0 <= i < |todo| ==> todo[i].Deliver?
  }

  predicate WritesOnce(todo: seq<Work>) {
    forall i, j :: 0 <= i < j < |todo| ==> todo[i].Deliver? || todo[j].Deliver?
  }

  predicate OnlyOf(todo: seq<Work>, found: Option<Device>, id: string) {
    forall w :: w in todo ==> w.d.msg.id == id && Some(w.d) == found
  }

  /** The first call has sampled the clock, and has `todo` left to do. */
  predicate Begun(p: Pair, todo: seq<Work>, current: Option<Device>, log: seq<Delivery>) {
    && OnlyOf(todo, Leaves(p.first, p.found), p.id)
    && Landed(todo, current) == Leaves(p.first, p.found)
    && log + CallsOf(todo) == FanoutAll(p.fans, Says(p.first, p.found))
    && (current == p.found || NoWrites(todo)) && WritesOnce(todo)
    && (p.found.Some? && todo != [] ==> todo[|todo| - 1].Write?)
    && (Acts(p.first, p.found) == [] ==> todo == [])
    && (Says(p.first, p.found) == [] ==> |todo| <= 1 && (todo != [] ==> todo[0].Write?))
  }

  /** What is left of two calls does not interfere, and leads to the end of a serial run. */
  predicate Free(fans: nat, v: View, a: seq<Work>, b: seq<Work>, current: Option<Device>, log: seq<Delivery>) {
    && Landed(b, Landed(a, current)) == v.found
    && log + CallsOf(a) + CallsOf(b) == FanoutAll(fans, v.notes)
    && (CallsOf(a) == [] || CallsOf(b) == [])
    && (NoWrites(a) || NoWrites(b))
  }

  predicate OneWrite(todo: seq<Work>, found: Option<Device>) {
    todo == [] || (|todo| == 1 && todo[0].Write? && Some(todo[0].d) == found)
  }

  /** Each call is about to write what it made of the record found, or has. */
  predicate Writers(p: Pair, a: seq<Work>, b: seq<Work>, current: Option<Device>, log: seq<Delivery>) {
    && BothWrite(p) && log == []
    && OneWrite(a, Leaves(p.first, p.found)) && OneWrite(b, Leaves(p.second, p.found))
    && (a == [] || b == [] ==> current == Leaves(p.first, p.found) || current == Leaves(p.second, p.found))
  }

  predicate Ending(p: Pair, a: seq<Work>, b: seq<Work>, current: Option<Device>, log: seq<Delivery>) {
    && (forall w :: w in a + b ==> w.d.msg.id == p.id)
    && (Free(p.fans, SerialView(p), a, b, current, log) || Free(p.fans, SerialView(Swap(p)), a, b, current, log)
        || Writers(p, a, b, current, log))
  }

  ghost predicate PairInv(p: Pair, c: Config) {
    var current, a, b := Lookup(c.devices, p.id), p.first.t, p.second.t;
    && c.fans == p.fans
    && (c.order == [] ==>
          && current == p.found && c.log == []
          && Copy(c, a, p.found) == p.found && Copy(c, b, p.found) == p.found)
    && (c.order == [p.first] ==>
          && Begun(p, Left(c, a), current, c.log)
          && (Copy(c, b, p.found) == p.found
              || (Copy(c, b, p.found) == Leaves(p.first, p.found) == current && NoWrites(Left(c, a)))))
    && (c.order == [p.first, p.second] ==> Ending(p, Left(c, a), Left(c, b), current, c.log))
  }

  ghost predicate OnlyPair(p: Pair, c: Config) {
    && c.order <= [p.first, p.second]
    && forall t :: t in c.threads && c.threads[t].Updating? ==>
         (t == p.first.t && c.threads[t].req == p.first.req) || (t == p.second.t && c.threads[t].req == p.second.req)
  }

  lemma OnlyPairBefore(p: Pair, c: Config, st: Step)
    requires OnlyPair(p, Exec(c, st))
    ensures OnlyPair(p, c)
  {
    StepOrder(c, st);
    forall t | t in c.threads && c.threads[t].Updating?
      ensures || (t == p.first.t && c.threads[t].req == p.first.req)
              || (t == p.second.t && c.threads[t].req == p.second.req)
    {
      StepEntry(c, st, t);
    }
  }

  // ---- The work of the two calls, on values.

  /** What `Expand` makes of the actions of a call. */
  lemma WorkShape(n: nat, e: Entry, found: Option<Device>)
    ensures var acts, todo := Acts(e, found), Expand(n, Acts(e, found));
            && (acts == [] ==> todo == [])
            && (Says(e, found) == [] && acts != [] ==> todo == [Write(acts[0].d)])
            && (found.Some? && acts != [] ==> todo != [] && todo[|todo| - 1].Write?)
            && WritesOnce(todo)
  {
    var acts := Acts(e, found);
    assert Expand(n, []) == [];
    if |acts| == 1 {
      assert acts[1..] == [];
      assert Expand(n, acts) == [Write(acts[0].d)] + [];
    } else if |acts| == 2 {
      assert acts[1..] == [acts[1]] && acts[1..][1..] == [];
      if found.None? {
        RegistrationWork(n, acts[0].d);
        assert acts == [Put(acts[0].d), Notify(acts[0].d)];
      } else {
        assert Expand(n, acts[1..]) == [Write(acts[1].d)] + [];
        assert Expand(n, acts) == DeliverAll(n, acts[0].d) + [Write(acts[1].d)];
      }
    }
  }

  lemma FirstWork(p: Pair)
    requires PairOk(p)
    ensures Begun(p, WorkOf(p, p.first, p.found), p.found, [])
  {
    WorkShape(p.fans, p.first, p.found);
    ExpandMatches(p.fans, p.first.req, p.found, p.first.now, p.found);
    WorkIsSettled(p.fans, p.first.req, p.found, p.first.now);
  }

  lemma {:induction false} NoWritesLand(todo: seq<Work>, found: Option<Device>)
    requires NoWrites(todo)
    ensures Landed(todo, found) == found
    decreases |todo|
  {
    if todo != [] {
      NoWritesLand(todo[1..], found);
    }
  }

  /** One piece of work, on values. */
  predicate Done(w: Work, current: Option<Device>, current': Option<Device>, log: seq<Delivery>, log': seq<Delivery>) {
    if w.Write? then current' == Some(w.d) && log' == log
    else current' == current && log' == log + [Delivery(w.slot, w.d)]
  }

  lemma TailOf(todo: seq<Work>)
    requires todo != []
    ensures todo[0] in todo && forall w :: w in todo[1..] ==> w in todo
  {
  }

  lemma BegunStep(p: Pair, todo: seq<Work>, current: Option<Device>, current': Option<Device>,
                  log: seq<Delivery>, log': seq<Delivery>)
    requires Begun(p, todo, current, log) && todo != [] && Done(todo[0], current, current', log, log')
    ensures Begun(p, todo[1..], current', log')
    ensures NoWrites(todo) ==> NoWrites(todo[1..]) && current' == current
  {
    TailOf(todo);
    CallsMore(log, todo);
  }

  /** It does not matter which of the two is said to come first. */
  lemma FreeEitherWay(fans: nat, v: View, a: seq<Work>, b: seq<Work>, current: Option<Device>, log: seq<Delivery>)
    requires Free(fans, v, a, b, current, log)
    ensures Free(fans, v, b, a, current, log)
  {
    if NoWrites(a) {
      NoWritesLand(a, current);
      NoWritesLand(a, Landed(b, current));
    } else {
      NoWritesLand(b, current);
      NoWritesLand(b, Landed(a, current));
    }
    assert log + CallsOf(a) + CallsOf(b) == log + CallsOf(b) + CallsOf(a);
  }

  lemma FreeStep(fans: nat, v: View, a: seq<Work>, b: seq<Work>, current: Option<Device>, current': Option<Device>,
                 log: seq<Delivery>, log': seq<Delivery>)
    requires Free(fans, v, a, b, current, log) && a != [] && Done(a[0], current, current', log, log')
    ensures Free(fans, v, a[1..], b, current', log')
  {
    TailOf(a);
    CallsMore(log, a);
    CallsMore([], a);
  }

  lemma EndingStep(p: Pair, a: seq<Work>, b: seq<Work>, current: Option<Device>, current': Option<Device>,
                   log: seq<Delivery>, log': seq<Delivery>)
    requires Ending(p, a, b, current, log)
    ensures a != [] && Done(a[0], current, current', log, log') ==> Ending(p, a[1..], b, current', log')
    ensures b != [] && Done(b[0], current, current', log, log') ==> Ending(p, a, b[1..], current', log')
  {
    if a != [] && Done(a[0], current, current', log, log') {
      TailOf(a);
      if Free(p.fans, SerialView(p), a, b, current, log) {
        FreeStep(p.fans, SerialView(p), a, b, current, current', log, log');
      } else if Free(p.fans, SerialView(Swap(p)), a, b, current, log) {
        FreeStep(p.fans, SerialView(Swap(p)), a, b, current, current', log, log');
      }
    }
    if b != [] && Done(b[0], current, current', log, log') {
      TailOf(b);
      if Free(p.fans, SerialView(p), a, b, current, log) {
        LaterStep(p.fans, SerialView(p), a, b, current, current', log, log');
      } else if Free(p.fans, SerialView(Swap(p)), a, b, current, log) {
        LaterStep(p.fans, SerialView(Swap(p)), a, b, current, current', log, log');
      }
    }
  }

  lemma LaterStep(fans: nat, v: View, a: seq<Work>, b: seq<Work>, current: Option<Device>, current': Option<Device>,
                  log: seq<Delivery>, log': seq<Delivery>)
    requires Free(fans, v, a, b, current, log) && b != [] && Done(b[0], current, current', log, log')
    ensures Free(fans, v, a, b[1..], current', log')
  {
    FreeEitherWay(fans, v, a, b, current, log);
    FreeStep(fans, v, b, a, current, current', log, log');
    FreeEitherWay(fans, v, b[1..], a, current', log');
  }

  /** If the first call of a serial run does nothing, the run is that of the second alone. */
  lemma SerialAlone(p: Pair)
    requires PairOk(p) || PairOk(Swap(p))
    requires Acts(p.first, p.found) == []
    ensures SerialView(p) == View(Leaves(p.second, p.found), Says(p.second, p.found))
  {
    SerialSteps(p.found, p.id, p.first, p.second);
    assert [] + Says(p.second, p.found) == Says(p.second, p.found);
  }

  lemma FreeAlone(fans: nat, v: View, todo: seq<Work>, current: Option<Device>, log: seq<Delivery>)
    requires Landed(todo, current) == v.found && log + CallsOf(todo) == FanoutAll(fans, v.notes)
    ensures Free(fans, v, todo, [], current, log)
  {
    assert log + CallsOf(todo) + [] == log + CallsOf(todo);
  }

  /** The second call samples the clock, holding the record found. */
  lemma SecondFound(p: Pair, todo: seq<Work>, current: Option<Device>, log: seq<Delivery>)
    requires PairOk(p) && Harmless(p) && Begun(p, todo, current, log)
    ensures Ending(p, todo, WorkOf(p, p.second, p.found), current, log)
  {
    WorkIsSettled(p.fans, p.second.req, p.found, p.second.now);
    assert OnlyOf(WorkOf(p, p.second, p.found), Leaves(p.second, p.found), p.id);
    WorkShape(p.fans, p.second, p.found);
    if Acts(p.second, p.found) == [] {
      SerialAlone(Swap(p));
      FreeAlone(p.fans, SerialView(Swap(p)), todo, current, log);
    } else if Acts(p.first, p.found) == [] {
      FirstSilent(p, todo, current, log);
    } else {
      assert BothWrite(p);
      BothAboutToWrite(p, todo, current, log);
    }
  }

  /** The first call did nothing, and the second holds the record found. */
  lemma FirstSilent(p: Pair, todo: seq<Work>, current: Option<Device>, log: seq<Delivery>)
    requires PairOk(p) && Begun(p, todo, current, log) && Acts(p.first, p.found) == []
    ensures todo == [] && Free(p.fans, SerialView(p), [], WorkOf(p, p.second, p.found), current, log)
  {
    var work := WorkOf(p, p.second, p.found);
    ExpandMatches(p.fans, p.second.req, p.found, p.second.now, p.found);
    SerialAlone(p);
    assert log == [];
    assert [] + CallsOf(work) == CallsOf(work);
    FreeAlone(p.fans, SerialView(p), work, current, log);
    FreeEitherWay(p.fans, SerialView(p), work, [], current, log);
  }

  lemma BothAboutToWrite(p: Pair, todo: seq<Work>, current: Option<Device>, log: seq<Delivery>)
    requires PairOk(p) && BothWrite(p) && Begun(p, todo, current, log)
    ensures Writers(p, todo, WorkOf(p, p.second, p.found), current, log)
  {
    WorkShape(p.fans, p.second, p.found);
    WorkIsSettled(p.fans, p.second.req, p.found, p.second.now);
    assert todo != [] ==> todo[0] in todo;
    assert CallsOf(todo) == [];
  }

  /** The second call samples the clock, holding the record the first has written. */
  lemma SecondWritten(p: Pair, todo: seq<Work>, log: seq<Delivery>)
    requires PairOk(p) && Harmless(p) && Begun(p, todo, Leaves(p.first, p.found), log) && NoWrites(todo)
    requires Leaves(p.first, p.found) != p.found
    ensures Ending(p, todo, WorkOf(p, p.second, Leaves(p.first, p.found)), Leaves(p.first, p.found), log)
  {
    var one := Leaves(p.first, p.found);
    var work := WorkOf(p, p.second, one);
    RespondIsAnEdge(p.first.req, p.found, p.first.now);
    WorkIsSettled(p.fans, p.second.req, one, p.second.now);
    assert Landed(work, Landed(todo, one)) == Leaves(p.second, one)
           && CallsOf(work) == FanoutAll(p.fans, Says(p.second, one)) by {
      ExpandMatches(p.fans, p.second.req, one, p.second.now, one);
      NoWritesLand(todo, one);
    }
    assert SerialView(p) == View(Leaves(p.second, one), Says(p.first, p.found) + Says(p.second, one)) by {
      SerialSteps(p.found, p.id, p.first, p.second);
    }
    FanoutConcat(p.fans, Says(p.first, p.found), Says(p.second, one));
    if p.found.Some? {
      assert todo == [];
    } else {
      LateArrival(p, one);
    }
  }

  /** A call that finds a registration not yet announced has nothing to announce. */
  lemma LateArrival(p: Pair, one: Option<Device>)
    requires PairOk(p) && Harmless(p) && p.found.None? && one == Leaves(p.first, None) && one.Some?
    ensures Says(p.second, one) == []
  {
  }

  // ---- The steps of a schedule.

  /** What a step of a call does to its copy of the record. */
  lemma CopyStep(c: Config, t: nat)
    requires t in c.threads && c.threads[t].Updating?
    ensures var c' := GoUpdate(c, t, c.threads[t].req, c.threads[t].pc);
            && t in c'.threads && c'.threads[t].Updating?
            && var pc, pc' := c.threads[t].pc, c'.threads[t].pc;
            && (HasCopy(pc') ==>
                  && !Sampled(pc)
                  && pc'.found == if HasCopy(pc) then pc.found else Lookup(c.devices, Target(c.threads[t].req)))
            && (Sampled(pc') <==> Sampled(pc) || pc.Have?)
  {
  }

  /** A step of a call other than the clock sample does the next piece of its work, or none. */
  lemma WorkStepOf(c: Config, t: nat, id: string)
    requires t in c.threads && c.threads[t].Updating? && !c.threads[t].pc.Have?
    requires forall w :: w in Left(c, t) ==> w.d.msg.id == id
    ensures var c' := GoUpdate(c, t, c.threads[t].req, c.threads[t].pc);
            var current, current' := Lookup(c.devices, id), Lookup(c'.devices, id);
            || (Left(c', t) == Left(c, t) && current' == current && c'.log == c.log)
            || (Left(c, t) != [] && Left(c', t) == Left(c, t)[1..]
                && Done(Left(c, t)[0], current, current', c.log, c'.log))
  {
    TodoStep(c, t);
    if Left(c, t) != [] {
      TailOf(Left(c, t));
    }
  }

  /** A step of one call leaves the work and the copy of another alone. */
  lemma OtherCallStands(c: Config, t: nat, u: nat)
    requires t in c.threads && c.threads[t].Updating? && u != t
    ensures var c' := GoUpdate(c, t, c.threads[t].req, c.threads[t].pc);
            Left(c', u) == Left(c, u) && forall none :: Copy(c', u, none) == Copy(c, u, none)
  {
    GoUpdateFrame(c, t);
  }

  lemma SampledIsOrdered(c: Config, t: nat)
    requires OrderInv(c) && t in c.threads && c.threads[t].Updating?
    ensures Sampled(c.threads[t].pc) <==> exists e :: e in c.order && e.t == t
  {
    assert t in Ordered(c.order) <==> t in SampledCalls(c);
  }

  lemma FirstSamples(p: Pair, c: Config, c': Config)
    requires PairOk(p) && PairInv(p, c) && c.order == [] && c'.order == [p.first]
    requires c'.devices == c.devices && c'.log == c.log && c'.fans == c.fans
    requires Left(c', p.first.t) == WorkOf(p, p.first, p.found)
    requires Copy(c', p.second.t, p.found) == Copy(c, p.second.t, p.found)
    ensures PairInv(p, c')
  {
    FirstWork(p);
  }

  lemma SecondSamples(p: Pair, c: Config, c': Config, found: Option<Device>)
    requires PairOk(p) && Harmless(p) && PairInv(p, c) && c.order == [p.first] && c'.order == [p.first, p.second]
    requires c'.devices == c.devices && c'.log == c.log && c'.fans == c.fans
    requires found == Copy(c, p.second.t, p.found) && Left(c', p.second.t) == WorkOf(p, p.second, found)
    requires Left(c', p.first.t) == Left(c, p.first.t)
    ensures PairInv(p, c')
  {
    var todo, current := Left(c, p.first.t), Lookup(c.devices, p.id);
    if found == p.found {
      SecondFound(p, todo, current, c.log);
    } else {
      SecondWritten(p, todo, c.log);
    }
  }

  lemma SampleStepOf(p: Pair, c: Config, t: nat)
    requires PairOk(p) && Harmless(p) && PairInv(p, c)
    requires t in c.threads && c.threads[t].Updating? && c.threads[t].pc.Have?
    requires OnlyPair(p, c) && OnlyPair(p, GoUpdate(c, t, c.threads[t].req, c.threads[t].pc))
    ensures PairInv(p, GoUpdate(c, t, c.threads[t].req, c.threads[t].pc))
  {
    var c' := GoUpdate(c, t, c.threads[t].req, c.threads[t].pc);
    var found, e := c.threads[t].pc.found, Entry(t, c.threads[t].req, c.clock);
    assert c'.order == c.order + [e] && Left(c', t) == Expand(c.fans, Acts(e, found));
    assert c'.devices == c.devices && c'.log == c.log && c'.fans == c.fans && c.fans == p.fans;
    if c.order == [] {
      assert c'.order == [p.first] && e == p.first by { assert c'.order[0] == p.first; }
      OtherCallStands(c, t, p.second.t);
      assert found == p.found;
      FirstSamples(p, c, c');
    } else {
      assert c.order == [p.first] && e == p.second by { assert c'.order[1] == p.second; }
      OtherCallStands(c, t, p.first.t);
      SecondSamples(p, c, c', found);
    }
  }

  lemma GoStepOf(p: Pair, c: Config, t: nat)
    requires PairOk(p) && PairInv(p, c) && OrderInv(c) && OnlyPair(p, c)
    requires t in c.threads && c.threads[t].Updating? && !c.threads[t].pc.Have?
    ensures PairInv(p, GoUpdate(c, t, c.threads[t].req, c.threads[t].pc))
  {
    var c' := GoUpdate(c, t, c.threads[t].req, c.threads[t].pc);
    var current, current' := Lookup(c.devices, p.id), Lookup(c'.devices, p.id);
    GoUpdateFrame(c, t);
    CopyStep(c, t);
    SampledIsOrdered(c, t);
    OtherCallStands(c, t, if t == p.first.t then p.second.t else p.first.t);
    if c.order == [] {
      assert Left(c, t) == [];
      WorkStepOf(c, t, p.id);
    } else if c.order == [p.first] {
      if t == p.first.t {
        WorkStepOf(c, t, p.id);
        if Left(c', t) != Left(c, t) {
          BegunStep(p, Left(c, t), current, current', c.log, c'.log);
        }
      } else {
        assert Left(c, t) == [] && (NoWrites(Left(c, p.first.t)) ==> current == Leaves(p.first, p.found)) by {
          if NoWrites(Left(c, p.first.t)) {
            NoWritesLand(Left(c, p.first.t), current);
          }
        }
        WorkStepOf(c, t, p.id);
      }
    } else {
      assert forall w :: w in Left(c, t) ==> w in Left(c, p.first.t) + Left(c, p.second.t);
      WorkStepOf(c, t, p.id);
      EndingStep(p, Left(c, p.first.t), Left(c, p.second.t), current, current', c.log, c'.log);
    }
  }

  lemma PairKept(p: Pair, c: Config, st: Step)
    requires PairOk(p) && Harmless(p) && PairInv(p, c) && OrderInv(c) && OnlyPair(p, c) && OnlyPair(p, Exec(c, st))
    ensures PairInv(p, Exec(c, st))
  {
    if st.Go? && st.t in c.threads && c.threads[st.t].Updating? {
      if c.threads[st.t].pc.Have? {
        SampleStepOf(p, c, st.t);
      } else {
        GoStepOf(p, c, st.t);
      }
    } else {
      LeftUnmoved(c, st, p.first.t);
      LeftUnmoved(c, st, p.second.t);
      Unchanged(p, c, Exec(c, st));
    }
  }

  lemma LeftUnmoved(c: Config, st: Step, t: nat)
    requires !(st.Go? && st.t in c.threads && c.threads[st.t].Updating?)
    ensures var c' := Exec(c, st);
            && c'.devices == c.devices && c'.log == c.log && c'.order == c.order && c'.fans == c.fans
            && Left(c', t) == Left(c, t) && forall none :: Copy(c', t, none) == Copy(c, t, none)
  {
    UnmovedThread(c, st, t);
  }

  lemma Unchanged(p: Pair, c: Config, c': Config)
    requires PairInv(p, c)
    requires c'.devices == c.devices && c'.log == c.log && c'.order == c.order && c'.fans == c.fans
    requires forall t | t == p.first.t || t == p.second.t ::
               Left(c', t) == Left(c, t) && Copy(c', t, p.found) == Copy(c, t, p.found)
    ensures PairInv(p, c')
  {
  }

  lemma {:induction false} PairAlways(p: Pair, devices: Registry, steps: seq<Step>)
    requires Finds(p, devices) && Harmless(p) && OnlyPair(p, After(Opening(p, devices), steps))
    ensures PairInv(p, After(Opening(p, devices), steps)) && OrderInv(After(Opening(p, devices), steps))
    decreases |steps|
  {
    if steps == [] {
      assert SampledCalls(Opening(p, devices)) == {} && Ordered([]) == {};
    } else {
      var init, last := steps[..|steps| - 1], steps[|steps| - 1];
      var c := After(Opening(p, devices), init);
      OnlyPairBefore(p, c, last);
      PairAlways(p, devices, init);
      StepKeepsOrder(c, last);
      PairKept(p, c, last);
    }
  }

  /** Two harmless calls end as a serial run of them does, or, if both write and neither tells anybody, with what
      one of them made of the record found. */
  lemma HarmlessEndings(p: Pair, devices: Registry, steps: seq<Step>)
    requires Finds(p, devices) && Harmless(p) && TwoCalls(p, After(Opening(p, devices), steps))
    ensures var c := After(Opening(p, devices), steps);
            || AsIfInOrder(p, c) || AsIfInOrder(Swap(p), c)
            || (BothWrite(p) && AllHeard(c, [])
                && (Lookup(c.devices, p.id) == Leaves(p.first, p.found)
                    || Lookup(c.devices, p.id) == Leaves(p.second, p.found)))
  {
    var c := After(Opening(p, devices), steps);
    assert c.fans == p.fans && Ending(p, [], [], Lookup(c.devices, p.id), c.log) by {
      PairAlways(p, devices, steps);
      EverythingDone(p, c);
    }
    EndingHeard(p, c);
  }

  lemma EverythingDone(p: Pair, c: Config)
    requires TwoCalls(p, c) && PairInv(p, c)
    ensures c.fans == p.fans && Ending(p, [], [], Lookup(c.devices, p.id), c.log)
  {
    assert Left(c, p.first.t) == [] && Left(c, p.second.t) == [];
  }

  lemma EndingHeard(p: Pair, c: Config)
    requires c.fans == p.fans && Ending(p, [], [], Lookup(c.devices, p.id), c.log)
    ensures || AsIfInOrder(p, c) || AsIfInOrder(Swap(p), c)
            || (BothWrite(p) && AllHeard(c, [])
                && (Lookup(c.devices, p.id) == Leaves(p.first, p.found)
                    || Lookup(c.devices, p.id) == Leaves(p.second, p.found)))
  {
    assert c.log + CallsOf([]) + CallsOf([]) == c.log;
    var current := Lookup(c.devices, p.id);
    if Free(p.fans, SerialView(p), [], [], current, c.log) {
      HeardAll(c, SerialView(p).notes);
    } else if Free(p.fans, SerialView(Swap(p)), [], [], current, c.log) {
      HeardAll(c, SerialView(Swap(p)).notes);
    } else {
      assert AllHeard(c, []);
    }
  }

  // ---- The two directions.

  /** Serial runs are sound. */
  lemma SerialIsSound(p: Pair, c: Config)
    requires HasId(p.found, p.id) && AsIfInOrder(p, c)
    ensures Sound(p, c)
  {
    ViewAlternates(p.found, OrderOps([p.first, p.second]), p.id);
  }

  lemma HarmlessIsSound(p: Pair, devices: Registry, steps: seq<Step>)
    requires Finds(p, devices) && Harmless(p) && TwoCalls(p, After(Opening(p, devices), steps))
    ensures Sound(p, After(Opening(p, devices), steps))
  {
    var c := After(Opening(p, devices), steps);
    HarmlessEndings(p, devices, steps);
    if AsIfInOrder(p, c) {
      SerialIsSound(p, c);
    } else if AsIfInOrder(Swap(p), c) {
      SerialIsSound(Swap(p), c);
    } else {
      RespondIsAnEdge(p.first.req, p.found, p.first.now);
      RespondIsAnEdge(p.second.req, p.found, p.second.now);
    }
  }

  /** One call, `x`, tells and does its work first; the other tells too, or stores a record in the old state. */
  lemma BothReadIsUnsound(p: Pair, devices: Registry, x: Entry, y: Entry) returns (steps: seq<Step>)
    requires p.fans > 0 && Finds(p, devices)
    requires (x == p.first && y == p.second) || (x == p.second && y == p.first)
    requires Says(x, p.found) != [] && Acts(y, p.found) != []
    ensures TwoCalls(p, After(Opening(p, devices), steps)) && !Sound(p, After(Opening(p, devices), steps))
  {
    steps := BothRead(p, devices, x, y);
    RespondIsAnEdge(x.req, p.found, x.now);
    RespondIsAnEdge(y.req, p.found, y.now);
    var c := After(Opening(p, devices), steps);
    assert Received(c.log, 0) == Says(x, p.found) + Says(y, p.found);
    if Says(y, p.found) != [] {
      assert Says(x, p.found) + Says(y, p.found) == [Says(x, p.found)[0], Says(y, p.found)[0]];
    }
    assert !SoundFor(p, Received(c.log, 0), Lookup(c.devices, p.id));
  }

  lemma RegistrationIsUnsound(p: Pair, devices: Registry) returns (steps: seq<Step>)
    requires p.fans > 0 && Finds(p, devices) && p.found.None? && p.first.req.Ping? && TurnsOff(p)
    ensures TwoCalls(p, After(Opening(p, devices), steps)) && !Sound(p, After(Opening(p, devices), steps))
  {
    steps := OverlapReordersAnnouncements(p, devices);
    var c := After(Opening(p, devices), steps);
    var off: Device, on: Device :| !off.isOnline && on.isOnline && AllHeard(c, [off, on]);
    assert Received(c.log, 0) == [off, on];
    assert !SoundFor(p, Received(c.log, 0), Lookup(c.devices, p.id));
  }

  lemma HarmfulIsUnsound(p: Pair, devices: Registry) returns (steps: seq<Step>)
    requires p.fans > 0 && Finds(p, devices) && !Harmless(p)
    ensures TwoCalls(p, After(Opening(p, devices), steps)) && !Sound(p, After(Opening(p, devices), steps))
  {
    if p.found.None? && TurnsOff(p) {
      steps := RegistrationIsUnsound(p, devices);
    } else if Says(p.first, p.found) != [] {
      steps := BothReadIsUnsound(p, devices, p.first, p.second);
    } else {
      steps := BothReadIsUnsound(p, devices, p.second, p.first);
    }
  }

  /** The exact condition for two calls. Take two calls on one device and the instants at which they sample the
      clock. Every interleaving that completes them with these samples (listing calls may go on besides) keeps
      what each subscriber hears alternating and ending with the stored state if and only if the calls are
      `Harmless`. */
  lemma OverlapIsHarmlessIff(p: Pair, devices: Registry)
    requires p.fans > 0 && Finds(p, devices)
    ensures (forall steps ::
               TwoCalls(p, After(Opening(p, devices), steps)) ==> Sound(p, After(Opening(p, devices), steps)))
            <==> Harmless(p)
  {
    if Harmless(p) {
      forall steps | TwoCalls(p, After(Opening(p, devices), steps))
        ensures Sound(p, After(Opening(p, devices), steps))
      {
        HarmlessIsSound(p, devices, steps);
      }
    } else {
      var steps := HarmfulIsUnsound(p, devices);
    }
  }
}
