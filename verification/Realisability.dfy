/** The converse of `Serialisable`: every serial run is one of the interleavings. */
module Realisability {
  import opened Devices
  import opened Runs
  import opened Interleaving
  import opened LockSafety
  import opened Progress
  import opened Serial
  import opened Serialisability

  /** Nobody but `t` is doing anything, and the lock is held only as its program point says. */
  ghost predicate Alone(c: Config, t: nat) {
    && (forall u :: Active(c, u) ==> u == t)
    && (if t in c.threads && c.threads[t].Updating? then Undisturbed(c, t) else c.readers == 0 && !c.writer)
  }

  lemma AloneIsExclusive(c: Config, t: nat)
    requires Alone(c, t)
    ensures Exclusive(c)
  {
    assert forall u :: Engaged(c, u) ==> Active(c, u);
  }

  lemma {:induction false} NotOverlappingMore(c0: Config, steps: seq<Step>, st: Step)
    requires NeverOverlapping(c0, steps) && Exclusive(Exec(After(c0, steps), st))
    ensures NeverOverlapping(c0, steps + [st])
    ensures After(c0, steps + [st]) == Exec(After(c0, steps), st)
  {
    var more := steps + [st];
    assert more[..|steps|] == steps;
    forall k | 0 <= k <= |more| ensures Exclusive(After(c0, more[..k])) {
      if k <= |steps| {
        assert more[..k] == steps[..k];
      } else {
        assert more[..k] == more;
      }
    }
  }

  /** A call alone in the store is never blocked: its step brings it closer to its return, and it samples the
      clock once on the way. */
  lemma GoAlone(c: Config, t: nat)
    requires Alone(c, t) && t in c.threads && c.threads[t].Updating? && !c.threads[t].pc.Finished?
    ensures var c', req, pc := Exec(c, Go(t, "")), c.threads[t].req, c.threads[t].pc;
            && Alone(c', t) && t in c'.threads && c'.threads[t].Updating? && c'.threads[t].req == req
            && c'.clock == c.clock && c'.threads.Keys == c.threads.Keys
            && c'.order == c.order + (if Before(pc) == 1 then [Entry(t, req, c.clock)] else [])
            && (if Before(pc) > 0
                then Before(c'.threads[t].pc) < Before(pc) && (Before(c'.threads[t].pc) == 0 <==> Before(pc) == 1)
                else Before(c'.threads[t].pc) == 0 && Remaining(c'.threads[t].pc) < Remaining(pc))
  {
    GoUndisturbed(c, t);
    assert forall u :: u != t ==> (Active(Exec(c, Go(t, "")), u) <==> Active(c, u));
  }

  /** Left to itself, a call returns. */
  lemma {:induction false} Drive(c0: Config, steps: seq<Step>, t: nat) returns (more: seq<Step>)
    requires NeverOverlapping(c0, steps) && Alone(After(c0, steps), t)
    requires t in After(c0, steps).threads && After(c0, steps).threads[t].Updating?
    ensures NeverOverlapping(c0, more) && Alone(After(c0, more), t)
    ensures var c, c' := After(c0, steps), After(c0, more);
            && t in c'.threads && c'.threads[t].Updating? && c'.threads[t].pc.Finished?
            && c'.clock == c.clock && c'.threads.Keys == c.threads.Keys
            && c'.order == c.order + (if Before(c.threads[t].pc) > 0 then [Entry(t, c.threads[t].req, c.clock)] else [])
    decreases Before(After(c0, steps).threads[t].pc), Remaining(After(c0, steps).threads[t].pc)
  {
    var c := After(c0, steps);
    if c.threads[t].pc.Finished? {
      more := steps;
    } else {
      GoAlone(c, t);
      AloneIsExclusive(Exec(c, Go(t, "")), t);
      NotOverlappingMore(c0, steps, Go(t, ""));
      more := Drive(c0, steps + [Go(t, "")], t);
    }
  }

  /** Nothing is going on. */
  ghost predicate Resting(c: Config) {
    Quiet(c) && c.readers == 0 && !c.writer
  }

  /** A call made at a given time while nothing else is going on. */
  lemma OneCall(c0: Config, steps: seq<Step>, t: nat, req: Request, now: int) returns (more: seq<Step>)
    requires NeverOverlapping(c0, steps)
    requires var c := After(c0, steps); Resting(c) && t !in c.threads && c.clock <= now
    ensures NeverOverlapping(c0, more)
    ensures var c, c' := After(c0, steps), After(c0, more);
            && Resting(c') && c'.clock == now && c'.threads.Keys == c.threads.Keys + {t}
            && c'.order == c.order + [Entry(t, req, now)]
  {
    var c := After(c0, steps);
    var c1 := Exec(c, Tick(now));
    assert forall u :: Active(c1, u) <==> Active(c, u);
    AloneIsExclusive(c1, t);
    NotOverlappingMore(c0, steps, Tick(now));
    var c2 := Exec(c1, Update(t, req));
    assert forall u :: u != t ==> (Active(c2, u) <==> Active(c1, u));
    AloneIsExclusive(c2, t);
    NotOverlappingMore(c0, steps + [Tick(now)], Update(t, req));
    more := Drive(c0, steps + [Tick(now)] + [Update(t, req)], t);
  }

  /** Every serial run with a clock that does not go back is the serial run of some interleaving in which
      calls on one device do not overlap. */
  lemma {:induction false} EverySerialRunIsReachable(
    devices: Registry, subs: seq<Callback>, clock: int, ops: seq<Op>) returns (steps: seq<Step>)
    requires RegistryOk(devices, clock) && Timely(ops)
    requires forall i :: 0 <= i < |ops| ==> ops[i].Call? && clock <= ops[i].now
    ensures var c0 := Start(devices, |subs|, clock);
            NeverOverlapping(c0, steps) && Resting(After(c0, steps)) && OrderOps(After(c0, steps).order) == ops
    ensures After(Start(devices, |subs|, clock), steps).devices == Run(State(devices, subs, [], []), ops).devices
  {
    steps := Realise(Start(devices, |subs|, clock), ops);
    Serialisable(devices, subs, clock, steps);
  }

  lemma {:induction false} Realise(c0: Config, ops: seq<Op>) returns (steps: seq<Step>)
    requires Resting(c0) && c0.threads == map[] && c0.order == [] && Timely(ops)
    requires forall i :: 0 <= i < |ops| ==> ops[i].Call? && c0.clock <= ops[i].now
    ensures NeverOverlapping(c0, steps) && Resting(After(c0, steps)) && OrderOps(After(c0, steps).order) == ops
    ensures forall t :: t in After(c0, steps).threads ==> t < |ops|
    ensures After(c0, steps).clock == if ops == [] then c0.clock else ops[|ops| - 1].now
    decreases |ops|
  {
    if ops == [] {
      steps := [];
      assert forall k :: 0 <= k <= |steps| ==> After(c0, steps[..k]) == c0;
    } else {
      var init, last := ops[..|ops| - 1], ops[|ops| - 1];
      var before := Realise(c0, init);
      steps := OneCall(c0, before, |init|, last.req, last.now);
      OpsMore(After(c0, before).order, Entry(|init|, last.req, last.now));
      assert init + [last] == ops;
    }
  }
}
