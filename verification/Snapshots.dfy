/** `GetDevices` under concurrent writers. */
module Snapshots {
  import opened Wrappers
  import opened Devices
  import opened Runs
  import opened PresenceStore
  import opened Interleaving
  import opened LockSafety

  /** `out` lists the records stored under `keys`, each once. */
  ghost predicate ListsPart(out: seq<Device>, devices: Registry, keys: set<string>) {
    && |out| == |keys| && keys <= devices.Keys
    && (forall i :: 0 <= i < |out| ==> out[i].msg.id in keys && devices[out[i].msg.id] == out[i])
    && (forall i, j :: 0 <= i < j < |out| ==> out[i].msg.id != out[j].msg.id)
    && (forall id :: id in keys ==> devices[id] in out)
  }

  ghost predicate ListOk(pc: ListPc, devices: Registry) {
    match pc
    case ListBegin => true
    case ListWait => true
    case Listing(snap, todo, out) =>
      && snap == devices && todo <= snap.Keys
      && ListsPart(out, snap, snap.Keys - todo)
    case Listed(snap, out) => Lists(out, snap)
  }

  /** A call that iterates works on a map that has not moved since it took the lock. */
  ghost predicate SnapInv(c: Config) {
    forall t :: t in c.threads && c.threads[t].Reading? ==> ListOk(c.threads[t].lpc, c.devices)
  }

  lemma ListMore(out: seq<Device>, devices: Registry, todo: set<string>, pick: string)
    requires ListsPart(out, devices, devices.Keys - todo) && pick in todo && todo <= devices.Keys
    requires devices[pick].msg.id == pick
    ensures ListsPart(out + [devices[pick]], devices, devices.Keys - (todo - {pick}))
  {
    assert devices.Keys - (todo - {pick}) == (devices.Keys - todo) + {pick};
    ListSnoc(out, devices, devices.Keys - todo, pick);
  }

  lemma ListSnoc(out: seq<Device>, devices: Registry, keys: set<string>, pick: string)
    requires ListsPart(out, devices, keys) && pick !in keys && pick in devices
    requires devices[pick].msg.id == pick
    ensures ListsPart(out + [devices[pick]], devices, keys + {pick})
  {
    var more := out + [devices[pick]];
    ListDistinct(out, devices[pick], keys);
    forall id | id in keys + {pick} ensures devices[id] in more {
      if id == pick {
        assert more[|out|] == devices[pick];
      } else {
        assert devices[id] in out;
      }
    }
  }

  lemma ListDistinct(out: seq<Device>, d: Device, keys: set<string>)
    requires forall i :: 0 <= i < |out| ==> out[i].msg.id in keys
    requires forall i, j :: 0 <= i < j < |out| ==> out[i].msg.id != out[j].msg.id
    requires d.msg.id !in keys
    ensures var more := out + [d]; forall i, j :: 0 <= i < j < |more| ==> more[i].msg.id != more[j].msg.id
  {
  }

  lemma ListAll(out: seq<Device>, devices: Registry)
    requires ListsPart(out, devices, devices.Keys - {})
    ensures Lists(out, devices)
  {
    assert devices.Keys - {} == devices.Keys;
  }

  /** A call can change the map only while it holds the write lock, and nobody holds the read lock then. */
  lemma WriteLockExcludes(c: Config, t: nat, u: nat)
    requires LockInv(c)
    requires t in c.threads && HoldsWrite(c.threads[t]) && u in c.threads
    ensures !HoldsRead(c.threads[u])
    ensures HoldsWrite(c.threads[u]) ==> u == t
  {
    assert t in Writers(c);
    assert u !in Readers(c);
    if HoldsWrite(c.threads[u]) && u != t {
      TwoMembers(Writers(c), t, u);
    }
  }

  lemma TwoMembers(s: set<nat>, t: nat, u: nat)
    requires t in s && u in s && t != u
    ensures |s| >= 2
  {
    assert s == {t, u} + (s - {t, u});
  }

  /** A step of a listing call, which leaves the map and the other calls alone. */
  lemma GoListFrame(c: Config, t: nat, pick: string)
    requires t in c.threads && c.threads[t].Reading?
    ensures var c' := GoList(c, t, c.threads[t].lpc, pick);
            && c'.devices == c.devices && c'.threads.Keys == c.threads.Keys
            && (forall u :: u in c.threads && u != t ==> c'.threads[u] == c.threads[u])
            && c'.threads[t].Reading?
  {
  }

  lemma GoListKeepsOk(c: Config, t: nat, pick: string)
    requires KeysMatch(c.devices)
    requires t in c.threads && c.threads[t].Reading? && ListOk(c.threads[t].lpc, c.devices)
    ensures var c' := GoList(c, t, c.threads[t].lpc, pick);
            t in c'.threads && c'.threads[t].Reading? && ListOk(c'.threads[t].lpc, c.devices)
  {
    match c.threads[t].lpc
    case ListBegin => assert |c.devices| == 0 ==> Lists([], c.devices);
    case ListWait => assert ListsPart([], c.devices, c.devices.Keys - c.devices.Keys);
    case Listed(_, _) =>
    case Listing(snap, todo, out) =>
      if todo == {} {
        ListAll(out, snap);
      } else if pick in todo {
        ListMore(out, snap, todo, pick);
      }
  }

  lemma StepKeepsSnap(c: Config, st: Step)
    requires LockInv(c) && DataInv(c) && SnapInv(c)
    ensures SnapInv(Exec(c, st))
  {
    var c' := Exec(c, st);
    forall u | u in c'.threads && c'.threads[u].Reading?
      ensures ListOk(c'.threads[u].lpc, c'.devices)
    {
      StepKeepsOk(c, st, u);
    }
  }

  lemma StepKeepsOk(c: Config, st: Step, u: nat)
    requires LockInv(c) && DataInv(c)
    requires u in c.threads && c.threads[u].Reading? ==> ListOk(c.threads[u].lpc, c.devices)
    requires u in Exec(c, st).threads && Exec(c, st).threads[u].Reading?
    ensures ListOk(Exec(c, st).threads[u].lpc, Exec(c, st).devices)
  {
    if st.Go? && st.t in c.threads {
      var t := st.t;
      if c.threads[t].Reading? {
        GoListFrame(c, t, st.pick);
        if u == t {
          GoListKeepsOk(c, t, st.pick);
        }
      } else {
        GoUpdateFrame(c, t);
        if c.threads[t].pc.WriteLocked? {
          WriteLockExcludes(c, t, u);
        }
      }
    }
  }

  lemma {:induction false} SnapAlways(devices: Registry, fans: nat, clock: int, steps: seq<Step>)
    requires RegistryOk(devices, clock)
    ensures SnapInv(After(Start(devices, fans, clock), steps))
    decreases |steps|
  {
    if steps != [] {
      var c := After(Start(devices, fans, clock), steps[..|steps| - 1]);
      SnapAlways(devices, fans, clock, steps[..|steps| - 1]);
      EveryScheduleIsSafe(devices, fans, clock, steps[..|steps| - 1]);
      StepKeepsSnap(c, steps[|steps| - 1]);
    }
  }

  function SnapOf(pc: ListPc): Option<Registry> {
    match pc
    case ListBegin => None
    case ListWait => None
    case Listing(snap, _, _) => Some(snap)
    case Listed(snap, _) => Some(snap)
  }

  /** The listing call has been made and has not returned. */
  ghost predicate UnderWay(c: Config, t: nat) {
    t in c.threads && c.threads[t].Reading? && (c.threads[t].lpc.ListBegin? || c.threads[t].lpc.ListWait?)
  }

  /** The history variable of a listing call is the map of an instant at which that call was under way. */
  ghost predicate SnapIsReal(c0: Config, steps: seq<Step>, t: nat, k: nat) {
    var c := After(c0, steps);
    && t in c.threads && c.threads[t].Reading? && k <= |steps|
    && UnderWay(After(c0, steps[..k]), t)
    && SnapOf(c.threads[t].lpc) == Some(After(c0, steps[..k]).devices)
  }

  lemma {:induction false} SnapWasReal(c0: Config, steps: seq<Step>, t: nat) returns (k: nat)
    requires c0.threads == map[]
    requires var c := After(c0, steps);
             t in c.threads && c.threads[t].Reading? && SnapOf(c.threads[t].lpc).Some?
    ensures SnapIsReal(c0, steps, t, k)
    decreases |steps|
  {
    var init, last := steps[..|steps| - 1], steps[|steps| - 1];
    var before, c := After(c0, init), After(c0, steps);
    SnapStep(before, last, t);
    assert t in before.threads;
    if SnapOf(before.threads[t].lpc).Some? {
      k := SnapWasReal(c0, init, t);
      assert init[..k] == steps[..k];
    } else {
      k := |init|;
      assert steps[..k] == init;
    }
  }

  lemma SnapStep(c: Config, st: Step, t: nat)
    requires var c' := Exec(c, st);
             t in c'.threads && c'.threads[t].Reading? && SnapOf(c'.threads[t].lpc).Some?
    ensures t in c.threads && c.threads[t].Reading?
    ensures var was := SnapOf(c.threads[t].lpc);
            SnapOf(Exec(c, st).threads[t].lpc) == if was.Some? then was else Some(c.devices)
  {
    if st.Go? && st.t in c.threads {
      if c.threads[st.t].Reading? {
        GoListFrame(c, st.t, st.pick);
        GoListSnap(c, st.t, st.pick);
      } else {
        GoUpdateFrame(c, st.t);
      }
    }
  }

  lemma GoListSnap(c: Config, t: nat, pick: string)
    requires t in c.threads && c.threads[t].Reading?
    ensures var was, now := SnapOf(c.threads[t].lpc), SnapOf(GoList(c, t, c.threads[t].lpc, pick).threads[t].lpc);
            now.Some? ==> now == if was.Some? then was else Some(c.devices)
  {
  }

  /** Snapshot. In every interleaving, the list a finished `GetDevices` call returns names, each exactly
      once, the devices of the map the store really had at one instant while that call was under way; no
      two entries share an id. */
  lemma {:induction false} GetDevicesReturnsASnapshot(
    devices: Registry, fans: nat, clock: int, steps: seq<Step>, t: nat) returns (k: nat)
    requires RegistryOk(devices, clock)
    requires var c := After(Start(devices, fans, clock), steps);
             t in c.threads && c.threads[t].Reading? && c.threads[t].lpc.Listed?
    ensures k <= |steps|
    ensures var during := After(Start(devices, fans, clock), steps[..k]);
            && UnderWay(during, t)
            && Lists(After(Start(devices, fans, clock), steps).threads[t].lpc.out, during.devices)
  {
    SnapAlways(devices, fans, clock, steps);
    k := SnapWasReal(Start(devices, fans, clock), steps, t);
  }
}
