/** The data races of the store: steps that read the map while another call is writing to it. */
module Races {
  import opened Devices
  import opened Interleaving
  import opened LockSafety
  import opened Overlap

  /** The step reads the map: on some other map it would leave its call, or another, in another state. */
  ghost predicate ReadsMap(c: Config, st: Step) {
    exists devices: Registry :: Exec(c.(devices := devices), st).threads != Exec(c, st).threads
  }

  /** The step reads the map while another call is inside its write section. */
  ghost predicate IsRace(c: Config, st: Step, u: nat) {
    ReadsMap(c, st) && u != st.t && u in c.threads && HoldsWrite(c.threads[u])
  }

  /** The two reads that the source does without the lock. */
  predicate Unlocked(th: Thread) {
    match th
    case Updating(req, pc) => pc.Begin? && req.Check?
    case Reading(pc) => pc.ListBegin?
  }

  /** They go through whatever the state of the lock, and get what the map holds at the moment. */
  lemma UnlockedReadsGoThrough(c: Config, t: nat, pick: string)
    requires t in c.threads && Unlocked(c.threads[t])
    ensures Exec(c, Go(t, pick))
            == match c.threads[t]
               case Updating(req, _) => Replace(c, t, Updating(req, Have(Lookup(c.devices, Target(req)))))
               case Reading(_) => Replace(c, t, Reading(if c.devices == map[] then Listed(map[], []) else ListWait))
  {
    assert |c.devices| == 0 <==> c.devices == map[];
  }

  lemma UnlockedReadsMap(c: Config, t: nat, pick: string)
    requires t in c.threads && Unlocked(c.threads[t])
    ensures ReadsMap(c, Go(t, pick))
  {
    var d := Device(Message("", "", "", "", "", 0, ""), true, 0, 0, 0);
    var id := if c.threads[t].Updating? then Target(c.threads[t].req) else "";
    var other: Registry := if c.threads[t].Reading? then (if c.devices == map[] then map[id := d] else map[])
                           else if id in c.devices then map[] else map[id := d];
    var c' := c.(devices := other);
    UnlockedReadsGoThrough(c, t, pick);
    UnlockedReadsGoThrough(c', t, pick);
    assert Exec(c', Go(t, pick)).threads[t] != Exec(c, Go(t, pick)).threads[t];
  }

  /** While a call is inside its write section, no other step reads the map. */
  lemma OthersReadNothing(c: Config, t: nat, pick: string)
    requires t in c.threads && !Unlocked(c.threads[t]) && !HoldsRead(c.threads[t]) && c.writer
    ensures !ReadsMap(c, Go(t, pick))
  {
    forall devices: Registry ensures Exec(c.(devices := devices), Go(t, pick)).threads == Exec(c, Go(t, pick)).threads {
      match c.threads[t]
      case Reading(_) =>
      case Updating(_, pc) =>
        match pc
        case Begin =>
        case ReadLocked =>
        case ReadDone(_) =>
        case Have(_) =>
        case Working(_) =>
        case WriteLocked(_, _) =>
        case WriteDone(_) =>
        case Finished =>
    }
  }

  /** In every interleaving, the step of a call races with a call that is inside its write section if and only if
      it is a check of the sweep reading its record or the emptiness test of `GetDevices`. */
  lemma RacesAreUnlockedReads(
    devices: Registry, fans: nat, clock: int, steps: seq<Step>, t: nat, pick: string, u: nat)
    requires RegistryOk(devices, clock)
    requires var c := After(Start(devices, fans, clock), steps);
             t in c.threads && u in c.threads && HoldsWrite(c.threads[u])
    ensures var c := After(Start(devices, fans, clock), steps);
            IsRace(c, Go(t, pick), u) <==> Unlocked(c.threads[t])
  {
    var c := After(Start(devices, fans, clock), steps);
    EveryScheduleIsSafe(devices, fans, clock, steps);
    assert u in Writers(c);
    assert t in Readers(c) <==> HoldsRead(c.threads[t]);
    if Unlocked(c.threads[t]) {
      UnlockedReadsMap(c, t, pick);
    } else {
      OthersReadNothing(c, t, pick);
    }
  }

  /** Both races happen: while a device is being registered, a check and a listing call each have their next step
      open to them. */
  lemma RacesHappen(devices: Registry, fans: nat, clock: int, m: Message) returns (steps: seq<Step>)
    requires m.id !in devices
    ensures var c := After(Start(devices, fans, clock), steps);
            && IsRace(c, Go(1, ""), 0) && c.threads[1] == Updating(Check(m.id), Begin)
            && IsRace(c, Go(2, ""), 0) && c.threads[2] == Reading(ListBegin)
  {
    var c0, d := Start(devices, fans, clock), Device(m, true, clock, clock, clock);
    RegistrationWork(fans, d);
    assert After(c0, []) == c0;
    steps := CallAndRead(c0, [], 0, Ping(m));
    steps := Sample(c0, steps, 0);
    assert After(c0, steps).threads[0] == Updating(Ping(m), Working([Write(d)] + DeliverAll(fans, d)));
    steps := Extend(c0, steps, Go(0, ""));
    steps := Extend(c0, steps, Update(1, Check(m.id)));
    steps := Extend(c0, steps, List(2));
    UnlockedReadsMap(After(c0, steps), 1, "");
    UnlockedReadsMap(After(c0, steps), 2, "");
  }
}
