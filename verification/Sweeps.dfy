/** One background sweep, for every order in which it may visit the devices. */
module Sweeps {
  import opened Wrappers
  import opened Devices
  import opened Runs
  import opened PresenceStore

  /** The sweep turns a device offline at a visit: it is stored online and its last ping is too old. */
  predicate GoesOffline(d: Device, now: int) {
    d.isOnline && Stale(d, now)
  }

  /** Distinct stored devices, each with its own clock sample. */
  ghost predicate ValidVisits(visits: seq<Visit>, devices: Registry) {
    && (forall i :: 0 <= i < |visits| ==> visits[i].id in devices)
    && (forall i, j :: 0 <= i < j < |visits| ==> visits[i].id != visits[j].id)
  }

  /** The announcements of a sweep, judged on the map the sweep started from. */
  function Alarms(devices: Registry, visits: seq<Visit>): seq<Device> {
    if visits == [] then []
    else
      var init, v := visits[..|visits| - 1], visits[|visits| - 1];
      if v.id in devices && GoesOffline(devices[v.id], v.now)
      then Alarms(devices, init) + [devices[v.id].(isOnline := false)]
      else Alarms(devices, init)
  }

  function Announcements(notes: seq<Device>): (r: seq<Event>)
    ensures |r| == |notes|
  {
    seq(|notes|, i requires 0 <= i < |notes| => Announced(notes[i]))
  }

  lemma LastVisit(found: Option<Device>, visits: seq<Visit>, id: string)
    requires visits != []
    ensures var init, last := visits[..|visits| - 1], visits[|visits| - 1];
            RunView(found, SweepOps(visits), id)
            == StepView(RunView(found, SweepOps(init), id), Call(Check(last.id), last.now), id)
  {
    assert SweepOps(visits)[..|visits| - 1] == SweepOps(visits[..|visits| - 1]);
  }

  /** One device in a sweep that does not visit it. */
  lemma {:induction false} NotVisited(found: Option<Device>, visits: seq<Visit>, id: string)
    requires forall i :: 0 <= i < |visits| ==> visits[i].id != id
    ensures RunView(found, SweepOps(visits), id) == View(found, [])
    decreases |visits|
  {
    if visits == [] {
      assert SweepOps(visits) == [];
    } else {
      NotVisited(found, visits[..|visits| - 1], id);
      LastVisit(found, visits, id);
    }
  }

  function Judged(d: Device, now: int): View {
    var after := if GoesOffline(d, now) then d.(isOnline := false) else d;
    View(Some(after), if GoesOffline(d, now) then [after] else [])
  }

  lemma CheckJudges(d: Device, v: Visit)
    ensures StepView(View(Some(d), []), Call(Check(v.id), v.now), v.id) == Judged(d, v.now)
    ensures Settled(Check(v.id), Some(d), v.now) == Judged(d, v.now).found
    ensures Told(Check(v.id), Some(d), v.now) == Judged(d, v.now).notes
  {
  }

  /** One device in a sweep that visits it once. */
  lemma {:induction false} VisitedOnce(d: Device, visits: seq<Visit>, i: nat)
    requires i < |visits|
    requires forall j :: 0 <= j < |visits| && j != i ==> visits[j].id != visits[i].id
    ensures RunView(Some(d), SweepOps(visits), visits[i].id) == Judged(d, visits[i].now)
    decreases |visits|
  {
    var init := visits[..|visits| - 1];
    LastVisit(Some(d), visits, visits[i].id);
    if i == |init| {
      NotVisited(Some(d), init, visits[i].id);
      CheckJudges(d, visits[i]);
    } else {
      VisitedOnce(d, init, i);
    }
  }

  /** The map after a sweep in any order: each visited record is judged on its own. */
  lemma {:induction false} SweptMap(s: State, visits: seq<Visit>)
    requires KeysMatch(s.devices) && ValidVisits(visits, s.devices)
    ensures var after := Run(s, SweepOps(visits));
            && KeysMatch(after.devices)
            && after.devices.Keys == s.devices.Keys
            && (forall i :: 0 <= i < |visits| ==>
                  var was := s.devices[visits[i].id];
                  after.devices[visits[i].id]
                  == if GoesOffline(was, visits[i].now) then was.(isOnline := false) else was)
            && (forall id :: id in s.devices && (forall i :: 0 <= i < |visits| ==> visits[i].id != id) ==>
                  after.devices[id] == s.devices[id])
  {
    var after := Run(s, SweepOps(visits));
    RunIsLocal(s, SweepOps(visits), "");
    forall id
      ensures id in after.devices <==> id in s.devices
      ensures id in s.devices && (forall i :: 0 <= i < |visits| ==> visits[i].id != id) ==>
                after.devices[id] == s.devices[id]
    {
      RunIsLocal(s, SweepOps(visits), id);
      if i :| 0 <= i < |visits| && visits[i].id == id {
        VisitedOnce(s.devices[id], visits, i);
      } else {
        NotVisited(Lookup(s.devices, id), visits, id);
      }
    }
    forall i | 0 <= i < |visits|
      ensures var was := s.devices[visits[i].id];
              after.devices[visits[i].id]
              == if GoesOffline(was, visits[i].now) then was.(isOnline := false) else was
    {
      RunIsLocal(s, SweepOps(visits), visits[i].id);
      VisitedOnce(s.devices[visits[i].id], visits, i);
    }
  }

  /** What has been announced since `s` is `notes`. */
  ghost predicate Since(s: State, after: State, notes: seq<Device>) {
    && after.subs == s.subs
    && after.events == s.events + Announcements(notes)
    && after.sent == s.sent + FanoutAll(|s.subs|, notes)
  }

  /** The announcements and the deliveries of a sweep in any order. */
  lemma {:induction false} SweepTells(s: State, visits: seq<Visit>)
    requires KeysMatch(s.devices) && ValidVisits(visits, s.devices)
    ensures Since(s, Run(s, SweepOps(visits)), Alarms(s.devices, visits))
    decreases |visits|
  {
    if visits == [] {
      assert SweepOps(visits) == [] && Announcements([]) == [];
    } else {
      var init, v := visits[..|visits| - 1], visits[|visits| - 1];
      assert visits == init + [v];
      SweepTells(s, init);
      BeforeItsVisit(s, init, v);
      SweepMore(s, init, v);
      CheckTells(s, Run(s, SweepOps(init)), Alarms(s.devices, init), v);
      AlarmsMore(s.devices, init, v);
    }
  }

  lemma AlarmsMore(devices: Registry, init: seq<Visit>, v: Visit)
    requires v.id in devices
    ensures Alarms(devices, init + [v]) == Alarms(devices, init) + Judged(devices[v.id], v.now).notes
  {
    assert (init + [v])[..|init|] == init;
  }

  lemma BeforeItsVisit(s: State, init: seq<Visit>, v: Visit)
    requires KeysMatch(s.devices) && ValidVisits(init + [v], s.devices)
    ensures var mid := Run(s, SweepOps(init));
            KeysMatch(mid.devices) && Lookup(mid.devices, v.id) == Lookup(s.devices, v.id)
    ensures v.id in s.devices
  {
    var visits := init + [v];
    assert visits[|init|] == v;
    assert forall i :: 0 <= i < |init| ==> init[i] == visits[i] && visits[i].id != visits[|init|].id;
    NotVisited(Lookup(s.devices, v.id), init, v.id);
    RunIsLocal(s, SweepOps(init), v.id);
  }

  lemma CheckTells(s: State, mid: State, notes: seq<Device>, v: Visit)
    requires KeysMatch(mid.devices) && v.id in mid.devices && Since(s, mid, notes)
    ensures Since(s, Apply(mid, Call(Check(v.id), v.now)), notes + Judged(mid.devices[v.id], v.now).notes)
  {
    var d := mid.devices[v.id];
    CallHasEffect(mid, Check(v.id), v.now);
    CheckJudges(d, v);
    EffectTells(s, mid, Apply(mid, Call(Check(v.id), v.now)), notes, v.id, Judged(d, v.now));
  }

  lemma EffectTells(s: State, mid: State, after: State, notes: seq<Device>, id: string, v: View)
    requires Since(s, mid, notes) && Effect(mid, after, id, v.found, v.notes)
    ensures Since(s, after, notes + v.notes)
  {
    if v.notes == [] {
      assert notes + v.notes == notes && after.events == mid.events && after.sent == mid.sent;
    } else {
      var d := v.notes[0];
      TellOne(|s.subs|, notes, d);
      Regroup(s.events, Announcements(notes), [Announced(d)]);
      Regroup(s.sent, FanoutAll(|s.subs|, notes), FanoutAll(|s.subs|, [d]));
    }
  }

  lemma Regroup<T>(a: seq<T>, b: seq<T>, c: seq<T>)
    ensures a + b + c == a + (b + c)
  {
  }

  lemma TellOne(n: nat, notes: seq<Device>, d: Device)
    ensures Announcements(notes + [d]) == Announcements(notes) + [Announced(d)]
    ensures FanoutAll(n, notes + [d]) == FanoutAll(n, notes) + FanoutAll(n, [d])
  {
    FanoutOne(n, d, "");
    assert (notes + [d])[..|notes|] == notes;
  }

  /** Exactly one announcement per device turned offline, none for any other. */
  lemma {:induction false} AlarmsAreExact(devices: Registry, visits: seq<Visit>)
    requires KeysMatch(devices) && ValidVisits(visits, devices)
    ensures forall i, j :: 0 <= i < j < |Alarms(devices, visits)| ==>
              Alarms(devices, visits)[i].msg.id != Alarms(devices, visits)[j].msg.id
    ensures forall d :: d in Alarms(devices, visits) <==>
              exists i :: 0 <= i < |visits| && GoesOffline(devices[visits[i].id], visits[i].now)
                          && d == devices[visits[i].id].(isOnline := false)
    decreases |visits|
  {
    if visits != [] {
      var init, v := visits[..|visits| - 1], visits[|visits| - 1];
      assert visits == init + [v];
      AlarmsAreExact(devices, init);
      forall d | d in Alarms(devices, init)
        ensures d.msg.id != v.id
        ensures exists i :: 0 <= i < |visits| && GoesOffline(devices[visits[i].id], visits[i].now)
                            && d == devices[visits[i].id].(isOnline := false)
      {
        var i :| 0 <= i < |init| && GoesOffline(devices[init[i].id], init[i].now)
                 && d == devices[init[i].id].(isOnline := false);
        assert init[i] == visits[i] && devices[init[i].id].msg.id == init[i].id;
      }
    }
  }

  /** A sweep over all devices with a clock that does not go back: whoever was already stale at the
      first check ends offline, and whoever was turned offline was stale when checked. */
  lemma {:induction false} SweepCatchesTheStale(s: State, visits: seq<Visit>, id: string)
    requires KeysMatch(s.devices) && VisitsAll(visits, s.devices.Keys) && InOrder(visits)
    requires id in s.devices
    ensures var after := Run(s, SweepOps(visits)).devices;
            && id in after
            && (visits != [] && GoesOffline(s.devices[id], visits[0].now) ==> !after[id].isOnline)
            && (after[id] != s.devices[id] ==>
                  s.devices[id].isOnline && after[id] == s.devices[id].(isOnline := false)
                  && exists i :: 0 <= i < |visits| && visits[i].id == id && Stale(s.devices[id], visits[i].now))
  {
    VisitsAreValid(visits, s.devices);
    SweptMap(s, visits);
    var v :| v in visits && v.id == id by { assert id in set v | v in visits :: v.id; }
    var i :| 0 <= i < |visits| && visits[i] == v;
    assert visits[0].now <= visits[i].now;
  }

  lemma VisitsAreValid(visits: seq<Visit>, devices: Registry)
    requires VisitsAll(visits, devices.Keys)
    ensures ValidVisits(visits, devices)
  {
    forall i | 0 <= i < |visits| ensures visits[i].id in devices {
      assert visits[i] in visits;
      assert visits[i].id in set v | v in visits :: v.id;
    }
  }

  /** With the clock standing still, two sweeps in different orders end with the same map and announce
      the same devices, each once. */
  lemma {:induction false} OrderDoesNotMatter(s: State, a: seq<Visit>, b: seq<Visit>, now: int)
    requires KeysMatch(s.devices) && VisitsAll(a, s.devices.Keys) && VisitsAll(b, s.devices.Keys)
    requires forall v :: v in a || v in b ==> v.now == now
    ensures Run(s, SweepOps(a)).devices == Run(s, SweepOps(b)).devices
    ensures forall d :: d in Alarms(s.devices, a) <==> d in Alarms(s.devices, b)
    ensures |Alarms(s.devices, a)| == |Alarms(s.devices, b)|
  {
    SweepAtOnce(s, a, now);
    SweepAtOnce(s, b, now);
    var sa, sb := Alarms(s.devices, a), Alarms(s.devices, b);
    assert (set d | d in sa) == (set d | d in sb);
    DistinctLength(sa);
    DistinctLength(sb);
  }

  lemma SweepAtOnce(s: State, visits: seq<Visit>, now: int)
    requires KeysMatch(s.devices) && VisitsAll(visits, s.devices.Keys)
    requires forall v :: v in visits ==> v.now == now
    ensures Run(s, SweepOps(visits)).devices
            == map id | id in s.devices :: if GoesOffline(s.devices[id], now)
                                           then s.devices[id].(isOnline := false) else s.devices[id]
    ensures forall d :: d in Alarms(s.devices, visits) <==>
              exists id :: id in s.devices && GoesOffline(s.devices[id], now)
                           && d == s.devices[id].(isOnline := false)
    ensures forall i, j :: 0 <= i < j < |Alarms(s.devices, visits)| ==>
              Alarms(s.devices, visits)[i].msg.id != Alarms(s.devices, visits)[j].msg.id
  {
    VisitsAreValid(visits, s.devices);
    SweptMap(s, visits);
    AlarmsAreExact(s.devices, visits);
    forall id | id in s.devices ensures exists i :: 0 <= i < |visits| && visits[i].id == id && visits[i].now == now {
      var v :| v in visits && v.id == id by { assert id in set v | v in visits :: v.id; }
      var i :| 0 <= i < |visits| && visits[i] == v;
    }
    forall i | 0 <= i < |visits| ensures visits[i].now == now {
      assert visits[i] in visits;
    }
  }

  lemma {:induction false} DistinctLength(list: seq<Device>)
    requires forall i, j :: 0 <= i < j < |list| ==> list[i].msg.id != list[j].msg.id
    ensures |set d | d in list| == |list|
    decreases |list|
  {
    if list != [] {
      var init, last := list[..|list| - 1], list[|list| - 1];
      DistinctLength(init);
      assert (set d | d in list) == (set d | d in init) + {last};
      assert last !in init;
    }
  }
}
