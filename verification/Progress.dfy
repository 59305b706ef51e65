/** No call waits for ever: who waits for the lock, and how every call under way can be brought to its return. */
module Progress {
  import opened Devices
  import opened PresenceStore
  import opened Interleaving
  import opened LockSafety
  import opened Snapshots

  predicate HasReturned(th: Thread) {
    match th
    case Updating(_, pc) => pc.Finished?
    case Reading(pc) => pc.Listed?
  }

  /** The call waits for the lock: for reading while the writer flag is up, or for writing while anybody holds it. */
  predicate Waits(c: Config, t: nat)
    requires t in c.threads
  {
    match c.threads[t]
    case Updating(req, pc) =>
      || (pc.Begin? && !req.Check? && c.writer)
      || (pc.Working? && pc.todo != [] && pc.todo[0].Write? && (c.writer || c.readers != 0))
    case Reading(pc) => pc.ListWait? && c.writer
  }

  /** `pick` is a key that the call may visit next. */
  predicate MayPick(c: Config, t: nat, pick: string)
    requires t in c.threads
  {
    match c.threads[t]
    case Updating(_, _) => true
    case Reading(pc) => pc.Listing? && pc.todo != {} ==> pick in pc.todo && pick in c.devices
  }

  /** A call stays where it is if and only if it has returned or waits for the lock. */
  lemma BlockedIff(c: Config, t: nat, pick: string)
    requires t in c.threads && MayPick(c, t, pick)
    ensures Exec(c, Go(t, pick)) == c <==> HasReturned(c.threads[t]) || Waits(c, t)
  {
    var c' := Exec(c, Go(t, pick));
    match c.threads[t]
    case Reading(lpc) =>
      assert lpc.Listing? && lpc.todo != {} ==> pick !in lpc.todo - {pick};
      assert c' == c || c'.threads[t] != c.threads[t];
    case Updating(req, pc) =>
      assert pc.Working? && pc.todo != [] ==> |pc.todo[1..]| < |pc.todo|;
      assert c' == c || c'.threads[t] != c.threads[t];
  }

  /** What holds in every configuration that a schedule can reach. */
  ghost predicate Reachable(c: Config) {
    LockInv(c) && DataInv(c) && SnapInv(c)
  }

  lemma ReachableStep(c: Config, st: Step)
    requires Reachable(c)
    ensures Reachable(Exec(c, st))
  {
    StepKeepsLock(c, st);
    StepKeepsData(c, st);
    StepKeepsSnap(c, st);
  }

  lemma {:induction false} ReachableAfter(c: Config, steps: seq<Step>)
    requires Reachable(c)
    ensures Reachable(After(c, steps))
    decreases |steps|
  {
    if steps != [] {
      ReachableAfter(c, steps[..|steps| - 1]);
      ReachableStep(After(c, steps[..|steps| - 1]), steps[|steps| - 1]);
    }
  }

  lemma ReachableFromStart(devices: Registry, fans: nat, clock: int, steps: seq<Step>)
    requires RegistryOk(devices, clock)
    ensures Reachable(After(Start(devices, fans, clock), steps))
  {
    SafeAtStart(devices, fans, clock);
    ReachableAfter(Start(devices, fans, clock), steps);
  }

  lemma AfterCons(c: Config, st: Step, rest: seq<Step>)
    ensures After(c, [st] + rest) == After(Exec(c, st), rest)
  {
    AfterConcat(c, [st], rest);
    assert [st][..0] == [];
  }

  /** Moves of one call only. */
  predicate MovesOf(steps: seq<Step>, t: nat) {
    forall st :: st in steps ==> st.Go? && st.t == t
  }


  /** The configuration in which a listing call has returned `out`, and nothing else has changed. */
  function ListedConfig(c: Config, t: nat, out: seq<Device>): Config
    requires t in c.threads
  {
    Replace(c.(readers := c.readers - Count(HoldsRead(c.threads[t]))), t, Reading(Listed(c.devices, out)))
  }

  /** The last step of an iteration, and any other. */
  lemma LastVisited(c: Config, t: nat)
    requires Reachable(c) && t in c.threads && c.threads[t].Reading? && c.threads[t].lpc.Listing?
    requires c.threads[t].lpc.todo == {}
    ensures Exec(c, Go(t, "")) == ListedConfig(c, t, c.threads[t].lpc.out) && Lists(c.threads[t].lpc.out, c.devices)
  {
    assert ListOk(c.threads[t].lpc, c.devices);
    ListAll(c.threads[t].lpc.out, c.devices);
  }

  lemma NextVisited(c: Config, t: nat, pick: string)
    requires Reachable(c) && t in c.threads && c.threads[t].Reading? && c.threads[t].lpc.Listing?
    requires pick in c.threads[t].lpc.todo
    ensures var c' := Exec(c, Go(t, pick));
            && c'.devices == c.devices && t in c'.threads && c'.threads[t].Reading? && c'.threads[t].lpc.Listing?
            && |c'.threads[t].lpc.todo| < |c.threads[t].lpc.todo|
            && forall out :: ListedConfig(c', t, out) == ListedConfig(c, t, out)
  {
    var pc := c.threads[t].lpc;
    assert pick in c.devices by { assert ListOk(pc, c.devices); }
    var c' := Exec(c, Go(t, pick));
    assert c' == Replace(c, t, Reading(Listing(pc.snap, pc.todo - {pick}, pc.out + [c.devices[pick]])));
    assert pc.todo == (pc.todo - {pick}) + {pick};
    forall out ensures ListedConfig(c', t, out) == ListedConfig(c, t, out) {
      assert c'.threads[t := Reading(Listed(c.devices, out))] == c.threads[t := Reading(Listed(c.devices, out))];
    }
  }

  /** These moves of a listing call bring it to its return, with the list of the map of this moment. */
  ghost predicate BringsBack(c: Config, t: nat, moves: seq<Step>, out: seq<Device>)
    requires t in c.threads
  {
    MovesOf(moves, t) && After(c, moves) == ListedConfig(c, t, out) && Lists(out, c.devices)
  }

  lemma OneMoveMore(c: Config, t: nat, pick: string, rest: seq<Step>, out: seq<Device>)
    requires t in c.threads && t in Exec(c, Go(t, pick)).threads
    requires BringsBack(Exec(c, Go(t, pick)), t, rest, out)
    requires Exec(c, Go(t, pick)).devices == c.devices
    requires ListedConfig(Exec(c, Go(t, pick)), t, out) == ListedConfig(c, t, out)
    ensures BringsBack(c, t, [Go(t, pick)] + rest, out)
  {
    AfterCons(c, Go(t, pick), rest);
  }

  lemma LastMove(c: Config, t: nat, pick: string, out: seq<Device>)
    requires t in c.threads && Exec(c, Go(t, pick)) == ListedConfig(c, t, out) && Lists(out, c.devices)
    ensures BringsBack(c, t, [Go(t, pick)], out)
  {
    AfterCons(c, Go(t, pick), []);
    assert [Go(t, pick)] + [] == [Go(t, pick)];
  }

  /** A listing call that iterates goes through its keys, leaves the lock and returns. */
  lemma {:induction false} IterationReturns(c: Config, t: nat, n: nat) returns (more: seq<Step>, out: seq<Device>)
    requires Reachable(c) && t in c.threads && c.threads[t].Reading? && c.threads[t].lpc.Listing?
    requires |c.threads[t].lpc.todo| <= n
    ensures BringsBack(c, t, more, out)
    decreases n
  {
    var todo := c.threads[t].lpc.todo;
    if todo == {} {
      out, more := c.threads[t].lpc.out, [Go(t, "")];
      LastVisited(c, t);
      LastMove(c, t, "", out);
    } else {
      var pick :| pick in todo;
      NextVisited(c, t, pick);
      ReachableStep(c, Go(t, pick));
      var rest: seq<Step>;
      rest, out := IterationReturns(Exec(c, Go(t, pick)), t, n - 1);
      OneMoveMore(c, t, pick, rest, out);
      more := [Go(t, pick)] + rest;
    }
  }

  /** The emptiness test, and then the read lock. */
  lemma ListMoves(c: Config, t: nat)
    requires Reachable(c) && !c.writer && t in c.threads && c.threads[t].Reading?
    ensures c.threads[t].lpc.ListBegin? ==>
              Exec(c, Go(t, ""))
              == if c.devices == map[] then ListedConfig(c, t, []) else Replace(c, t, Reading(ListWait))
    ensures c.threads[t].lpc.ListWait? ==>
              Exec(c, Go(t, ""))
              == Replace(c.(readers := c.readers + 1), t, Reading(Listing(c.devices, c.devices.Keys, [])))
  {
    assert |c.devices| == 0 <==> c.devices == map[];
  }

  /** Whenever no call holds the write lock, a listing call under way can be brought to its return by moves of its
      own, and the list it returns is that of the map of this moment. */
  lemma {:induction false} GetDevicesReturns(c: Config, t: nat) returns (more: seq<Step>, out: seq<Device>)
    requires Reachable(c) && !c.writer
    requires t in c.threads && c.threads[t].Reading? && !c.threads[t].lpc.Listed?
    ensures BringsBack(c, t, more, out)
    decreases c.threads[t].lpc.ListBegin?
  {
    var pc := c.threads[t].lpc;
    if pc.Listing? {
      more, out := IterationReturns(c, t, |pc.todo|);
    } else {
      ListMoves(c, t);
      ReachableStep(c, Go(t, ""));
      if pc.ListBegin? && c.devices == map[] {
        more, out := [Go(t, "")], [];
        LastMove(c, t, "", out);
      } else {
        var c' := Exec(c, Go(t, ""));
        var rest: seq<Step>;
        if pc.ListWait? {
          rest, out := IterationReturns(c', t, |c.devices.Keys|);
        } else {
          rest, out := GetDevicesReturns(c', t);
        }
        OneMoveMore(c, t, "", rest, out);
        more := [Go(t, "")] + rest;
      }
    }
  }

  // ---- Calls that change records.

  /** The lock is held by this call, as its program point says, and by nobody else. */
  predicate Undisturbed(c: Config, t: nat)
    requires t in c.threads && c.threads[t].Updating?
  {
    c.readers == Count(HoldsRead(c.threads[t])) && c.writer == HoldsWrite(c.threads[t])
  }

  /** Steps a call still has to take before, and after, it samples the clock. */
  function Before(pc: UpdatePc): nat {
    match pc
    case Begin => 4
    case ReadLocked => 3
    case ReadDone(_) => 2
    case Have(_) => 1
    case _ => 0
  }

  function Remaining(pc: UpdatePc): nat {
    match pc
    case Working(todo) => 3 * |todo| + 1
    case WriteLocked(_, rest) => 3 * |rest| + 3
    case WriteDone(rest) => 3 * |rest| + 2
    case _ => 0
  }

  /** Undisturbed, a call is never blocked: its step brings it closer to its return, and it samples the clock once
      on the way. */
  lemma GoUndisturbed(c: Config, t: nat)
    requires t in c.threads && c.threads[t].Updating? && Undisturbed(c, t) && !c.threads[t].pc.Finished?
    ensures var c', req, pc := Exec(c, Go(t, "")), c.threads[t].req, c.threads[t].pc;
            && t in c'.threads && c'.threads[t].Updating? && c'.threads[t].req == req && Undisturbed(c', t)
            && c'.clock == c.clock && c'.threads == c.threads[t := c'.threads[t]]
            && c'.order == c.order + (if Before(pc) == 1 then [Entry(t, req, c.clock)] else [])
            && (if Before(pc) > 0
                then Before(c'.threads[t].pc) < Before(pc) && (Before(c'.threads[t].pc) == 0 <==> Before(pc) == 1)
                else Before(c'.threads[t].pc) == 0 && Remaining(c'.threads[t].pc) < Remaining(pc))
  {
    match c.threads[t].pc
    case Begin =>
    case ReadLocked =>
    case ReadDone(_) =>
    case Have(_) =>
    case Working(_) =>
    case WriteLocked(_, _) =>
    case WriteDone(_) =>
    case Finished =>
  }

  lemma {:induction false} UpdateReturns(c: Config, t: nat) returns (more: seq<Step>)
    requires t in c.threads && c.threads[t].Updating? && Undisturbed(c, t)
    ensures MovesOf(more, t)
    ensures var c' := After(c, more);
            && c'.threads == c.threads[t := Updating(c.threads[t].req, Finished)] && c'.readers == 0 && !c'.writer
    decreases Before(c.threads[t].pc), Remaining(c.threads[t].pc)
  {
    if c.threads[t].pc.Finished? {
      more := [];
    } else {
      GoUndisturbed(c, t);
      var rest := UpdateReturns(Exec(c, Go(t, "")), t);
      AfterCons(c, Go(t, ""), rest);
      more := [Go(t, "")] + rest;
    }
  }

  // ---- All calls.

  /** The calls under way. */
  function Open(c: Config): set<nat> {
    set t | t in c.threads && !HasReturned(c.threads[t])
  }

  /** The moves lead to a configuration with the same calls, those that had returned still returned. */
  ghost predicate LeadsTo(c: Config, moves: seq<Step>, c': Config) {
    && (forall st :: st in moves ==> st.Go?)
    && After(c, moves) == c' && c'.threads.Keys == c.threads.Keys && Open(c') <= Open(c)
  }

  lemma LeadsFurther(c: Config, a: seq<Step>, mid: Config, b: seq<Step>, c': Config)
    requires LeadsTo(c, a, mid) && LeadsTo(mid, b, c')
    ensures LeadsTo(c, a + b, c')
  {
    AfterConcat(c, a, b);
  }

  /** A call inside its read section leaves the lock. */
  lemma LeaveRead(c: Config, t: nat) returns (more: seq<Step>)
    requires Reachable(c) && t in Readers(c) && !c.writer
    ensures LeadsTo(c, more, After(c, more)) && Readers(After(c, more)) == Readers(c) - {t}
    ensures !After(c, more).writer
    decreases c.threads[t].Updating? && c.threads[t].pc.ReadLocked?
  {
    if c.threads[t].Reading? {
      var out;
      more, out := IterationReturns(c, t, |c.threads[t].lpc.todo|);
      HasListed(c, t, out);
    } else {
      ReadSectionStep(c, t);
      var c' := Exec(c, Go(t, ""));
      more := [Go(t, "")];
      AfterCons(c, Go(t, ""), []);
      assert [Go(t, "")] + [] == more;
      if t in Readers(c') {
        ReachableStep(c, Go(t, ""));
        var rest := LeaveRead(c', t);
        LeadsFurther(c, more, c', rest, After(c', rest));
        more := more + rest;
      }
    }
  }

  lemma HasListed(c: Config, t: nat, out: seq<Device>)
    requires t in c.threads && c.threads[t].Reading?
    ensures var c' := ListedConfig(c, t, out);
            Readers(c') == Readers(c) - {t} && c'.threads.Keys == c.threads.Keys && Open(c') == Open(c) - {t}
  {
  }

  lemma ReadSectionStep(c: Config, t: nat)
    requires t in Readers(c) && c.threads[t].Updating? && !c.writer
    ensures var c' := Exec(c, Go(t, ""));
            && !c'.writer && c'.threads.Keys == c.threads.Keys && Open(c') == Open(c)
            && if c.threads[t].pc.ReadDone? then Readers(c') == Readers(c) - {t}
               else Readers(c') == Readers(c) && c'.threads[t].Updating? && c'.threads[t].pc.ReadDone?
  {
  }

  /** Whoever holds the lock can be brought to leave it. */
  lemma {:induction false} Release(c: Config) returns (more: seq<Step>)
    requires Reachable(c)
    ensures LeadsTo(c, more, After(c, more)) && !After(c, more).writer && After(c, more).readers == 0
    decreases |Readers(c)|
  {
    if c.writer {
      assert Writers(c) != {};
      var t :| t in Writers(c);
      more := UpdateReturns(c, t);
    } else if Readers(c) != {} {
      var t :| t in Readers(c);
      var first := LeaveRead(c, t);
      var mid := After(c, first);
      ReachableAfter(c, first);
      assert |Readers(mid)| < |Readers(c)| by { assert Readers(c) == Readers(mid) + {t}; }
      var rest := Release(mid);
      LeadsFurther(c, first, mid, rest, After(mid, rest));
      more := first + rest;
    } else {
      more := [];
    }
  }

  /** With the lock free, one call after the other can be brought to its return. */
  lemma {:induction false} ReturnAll(c: Config) returns (more: seq<Step>)
    requires Reachable(c) && !c.writer && c.readers == 0
    ensures LeadsTo(c, more, After(c, more)) && Open(After(c, more)) == {}
    decreases |Open(c)|
  {
    if Open(c) == {} {
      more := [];
    } else {
      var t :| t in Open(c);
      var first := ReturnOne(c, t);
      var mid := After(c, first);
      ReachableAfter(c, first);
      assert |Open(mid)| < |Open(c)| by { assert Open(c) == Open(mid) + {t}; }
      var rest := ReturnAll(mid);
      LeadsFurther(c, first, mid, rest, After(mid, rest));
      more := first + rest;
    }
  }

  lemma ReturnOne(c: Config, t: nat) returns (more: seq<Step>)
    requires Reachable(c) && !c.writer && c.readers == 0 && t in Open(c)
    ensures LeadsTo(c, more, After(c, more)) && Open(After(c, more)) == Open(c) - {t}
    ensures !After(c, more).writer && After(c, more).readers == 0
  {
    assert t !in Readers(c) && t !in Writers(c);
    if c.threads[t].Reading? {
      var out;
      more, out := GetDevicesReturns(c, t);
      HasListed(c, t, out);
    } else {
      more := UpdateReturns(c, t);
    }
  }

  /** No deadlock. From every configuration a schedule can reach, further moves of the calls made so far bring all of
      them to their return. */
  lemma EveryCallCanReturn(devices: Registry, fans: nat, clock: int, steps: seq<Step>) returns (more: seq<Step>)
    requires RegistryOk(devices, clock)
    ensures forall st :: st in more ==> st.Go?
    ensures var c, c' := After(Start(devices, fans, clock), steps), After(Start(devices, fans, clock), steps + more);
            c'.threads.Keys == c.threads.Keys && forall t :: t in c'.threads ==> HasReturned(c'.threads[t])
  {
    var c := After(Start(devices, fans, clock), steps);
    ReachableFromStart(devices, fans, clock, steps);
    var first := Release(c);
    ReachableAfter(c, first);
    var rest := ReturnAll(After(c, first));
    LeadsFurther(c, first, After(c, first), rest, After(After(c, first), rest));
    more := first + rest;
    AfterConcat(Start(devices, fans, clock), steps, more);
    var c' := After(c, more);
    forall t | t in c'.threads ensures HasReturned(c'.threads[t]) {
      assert t !in Open(c');
    }
  }
}
