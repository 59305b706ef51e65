/** What every step of every schedule keeps, overlapping calls included. */
module LockSafety {
  import opened Wrappers
  import opened Devices
  import opened Interleaving

  predicate HoldsRead(th: Thread) {
    match th
    case Updating(_, pc) => pc.ReadLocked? || pc.ReadDone?
    case Reading(pc) => pc.Listing?
  }

  predicate HoldsWrite(th: Thread) {
    th.Updating? && (th.pc.WriteLocked? || th.pc.WriteDone?)
  }

  function Readers(c: Config): set<nat> {
    set t | t in c.threads && HoldsRead(c.threads[t])
  }

  function Writers(c: Config): set<nat> {
    set t | t in c.threads && HoldsWrite(c.threads[t])
  }

  /** The lock's counters tell the truth: the reader count is the number of calls inside a read section, the
      writer flag is up exactly if one is inside a write section, and these exclude each other. */
  ghost predicate LockInv(c: Config) {
    && c.readers == |Readers(c)|
    && |Writers(c)| == (if c.writer then 1 else 0)
    && (c.writer ==> Readers(c) == {})
  }

  function Count(b: bool): int {
    if b then 1 else 0
  }

  /** One call moved from `was` to `th`, and the lock moved with it. */
  ghost predicate LockMove(c: Config, c': Config, t: nat, was: Thread, th: Thread) {
    && c'.threads == c.threads[t := th]
    && c'.readers == c.readers + Count(HoldsRead(th)) - Count(HoldsRead(was))
    && Count(c'.writer) == Count(c.writer) + Count(HoldsWrite(th)) - Count(HoldsWrite(was))
    && (HoldsRead(th) && !HoldsRead(was) ==> !c.writer && !HoldsWrite(th))
    && (HoldsWrite(th) && !HoldsWrite(was) ==> c.readers == 0 && !HoldsRead(th))
  }

  lemma LockMoveKeepsInv(c: Config, c': Config, t: nat, was: Thread, th: Thread)
    requires LockInv(c) && LockMove(c, c', t, was, th)
    requires if t in c.threads then was == c.threads[t] else !HoldsRead(was) && !HoldsWrite(was)
    ensures LockInv(c')
  {
    HolderSets(c, c', t, was, th);
  }

  lemma HolderSets(c: Config, c': Config, t: nat, was: Thread, th: Thread)
    requires c'.threads == c.threads[t := th]
    requires if t in c.threads then was == c.threads[t] else !HoldsRead(was) && !HoldsWrite(was)
    ensures t in Readers(c) <==> HoldsRead(was)
    ensures t in Writers(c) <==> HoldsWrite(was)
    ensures Readers(c') == if HoldsRead(th) then Readers(c) + {t} else Readers(c) - {t}
    ensures Writers(c') == if HoldsWrite(th) then Writers(c) + {t} else Writers(c) - {t}
  {
  }

  lemma GoMovesLock(c: Config, t: nat, pick: string)
    requires t in c.threads && LockInv(c)
    ensures var c' := Exec(c, Go(t, pick)); c' == c || LockMove(c, c', t, c.threads[t], c'.threads[t])
  {
    assert t in Writers(c) <==> HoldsWrite(c.threads[t]);
    match c.threads[t]
    case Reading(_) =>
    case Updating(_, pc) =>
      match pc
      case Begin =>
      case ReadLocked =>
      case ReadDone(_) =>
      case Have(_) =>
      case Working(_) =>
      case WriteLocked(_, _) =>
      case WriteDone(_) =>
      case Finished =>
  }

  lemma StepKeepsLock(c: Config, st: Step)
    requires LockInv(c)
    ensures LockInv(Exec(c, st))
  {
    var c' := Exec(c, st);
    match st
    case Tick(to) => assert Readers(c') == Readers(c) && Writers(c') == Writers(c);
    case Update(t, req) =>
      if t !in c.threads {
        LockMoveKeepsInv(c, c', t, Reading(ListBegin), Updating(req, Begin));
      }
    case List(t) =>
      if t !in c.threads {
        LockMoveKeepsInv(c, c', t, Reading(ListBegin), Reading(ListBegin));
      }
    case Go(t, pick) =>
      if t in c.threads {
        GoMovesLock(c, t, pick);
        if c' != c {
          LockMoveKeepsInv(c, c', t, c.threads[t], c'.threads[t]);
        }
      }
  }

  /** The times kept in a record are in order and not in the future. */
  predicate TimesOk(d: Device, clock: int) {
    d.createdAt <= d.updatedAt <= clock && d.createdAt <= d.pingedAt <= clock
  }

  predicate RecordOk(found: Option<Device>, id: string, clock: int) {
    found.Some? ==> found.value.msg.id == id && TimesOk(found.value, clock)
  }

  ghost predicate WorkOk(todo: seq<Work>, id: string, clock: int) {
    forall w :: w in todo ==> w.d.msg.id == id && TimesOk(w.d, clock)
  }

  ghost predicate PcOk(pc: UpdatePc, id: string, clock: int) {
    match pc
    case Begin => true
    case ReadLocked => true
    case ReadDone(found) => RecordOk(found, id, clock)
    case Have(found) => RecordOk(found, id, clock)
    case Working(todo) => WorkOk(todo, id, clock)
    case WriteLocked(d, rest) => d.msg.id == id && TimesOk(d, clock) && WorkOk(rest, id, clock)
    case WriteDone(rest) => WorkOk(rest, id, clock)
    case Finished => true
  }

  ghost predicate RegistryOk(devices: Registry, clock: int) {
    forall id :: id in devices ==> devices[id].msg.id == id && TimesOk(devices[id], clock)
  }

  /** Every stored record, every local copy and every record on its way to the map or to a subscriber
      belongs to its key and has its times in order. */
  ghost predicate DataInv(c: Config) {
    && RegistryOk(c.devices, c.clock)
    && forall t :: t in c.threads && c.threads[t].Updating? ==>
         PcOk(c.threads[t].pc, Target(c.threads[t].req), c.clock)
  }

  /** The clock is sampled after the read, so whatever a call stores is dated no earlier than what it read. */
  lemma RespondTimes(r: Request, found: Option<Device>, now: int)
    requires RecordOk(found, Target(r), now)
    ensures forall a :: a in Respond(r, found, now) ==> a.d.msg.id == Target(r) && TimesOk(a.d, now)
  {
  }

  lemma {:induction false} ExpandOk(n: nat, acts: seq<Action>, id: string, clock: int)
    requires forall a :: a in acts ==> a.d.msg.id == id && TimesOk(a.d, clock)
    ensures WorkOk(Expand(n, acts), id, clock)
    decreases |acts|
  {
    if acts != [] {
      assert acts[0] in acts;
      forall a | a in acts[1..] ensures a.d.msg.id == id && TimesOk(a.d, clock) {
        assert a in acts;
      }
      ExpandOk(n, acts[1..], id, clock);
    }
  }

  lemma GoUpdateKeepsData(c: Config, t: nat)
    requires DataInv(c) && t in c.threads && c.threads[t].Updating?
    ensures DataInv(GoUpdate(c, t, c.threads[t].req, c.threads[t].pc))
  {
    var req, pc := c.threads[t].req, c.threads[t].pc;
    if pc.Have? {
      RespondTimes(req, pc.found, c.clock);
      ExpandOk(c.fans, Respond(req, pc.found, c.clock), Target(req), c.clock);
    } else if pc.Working? && pc.todo != [] {
      assert pc.todo[0] in pc.todo;
      assert forall w :: w in pc.todo[1..] ==> w in pc.todo;
    }
  }

  lemma StepKeepsData(c: Config, st: Step)
    requires DataInv(c)
    ensures DataInv(Exec(c, st))
  {
    match st
    case Tick(to) =>
      forall t | c.clock <= to && t in c.threads && c.threads[t].Updating?
        ensures PcOk(c.threads[t].pc, Target(c.threads[t].req), to)
      {
        assert PcOk(c.threads[t].pc, Target(c.threads[t].req), c.clock);
      }
    case Update(t, req) =>
    case List(t) =>
    case Go(t, pick) =>
      if t in c.threads && c.threads[t].Updating? {
        GoUpdateKeepsData(c, t);
      }
  }

  lemma StepKeepsKeys(c: Config, st: Step)
    ensures c.devices.Keys <= Exec(c, st).devices.Keys
    ensures c.clock <= Exec(c, st).clock
  {
  }

  lemma SafeAtStart(devices: Registry, fans: nat, clock: int)
    requires RegistryOk(devices, clock)
    ensures LockInv(Start(devices, fans, clock)) && DataInv(Start(devices, fans, clock))
  {
    assert Readers(Start(devices, fans, clock)) == {};
    assert Writers(Start(devices, fans, clock)) == {};
  }

  /** Invariants of every interleaving, overlapping calls included. */
  lemma {:induction false} EveryScheduleIsSafe(devices: Registry, fans: nat, clock: int, steps: seq<Step>)
    requires RegistryOk(devices, clock)
    ensures var c := After(Start(devices, fans, clock), steps);
            LockInv(c) && DataInv(c) && devices.Keys <= c.devices.Keys && clock <= c.clock
    decreases |steps|
  {
    if steps == [] {
      SafeAtStart(devices, fans, clock);
    } else {
      var c := After(Start(devices, fans, clock), steps[..|steps| - 1]);
      EveryScheduleIsSafe(devices, fans, clock, steps[..|steps| - 1]);
      StepKeepsLock(c, steps[|steps| - 1]);
      StepKeepsData(c, steps[|steps| - 1]);
      StepKeepsKeys(c, steps[|steps| - 1]);
    }
  }

  /** The keys stored at one moment are stored at every later one. */
  lemma {:induction false} KeysNeverShrink(c: Config, steps: seq<Step>, k: nat)
    requires k <= |steps|
    ensures After(c, steps[..k]).devices.Keys <= After(c, steps).devices.Keys
    decreases |steps|
  {
    if k == |steps| {
      assert steps[..k] == steps;
    } else {
      var init := steps[..|steps| - 1];
      assert init[..k] == steps[..k];
      KeysNeverShrink(c, init, k);
      StepKeepsKeys(After(c, init), steps[|steps| - 1]);
    }
  }

  /** Ids of the length the HTTP handler lets in. */
  predicate PcLong(req: Request, pc: UpdatePc) {
    match pc
    case Begin => req.Ping? ==> |Target(req)| == ID_LENGTH
    case ReadLocked => req.Ping? ==> |Target(req)| == ID_LENGTH
    case ReadDone(found) => found.Some? || req.Ping? ==> |Target(req)| == ID_LENGTH
    case Have(found) => found.Some? || req.Ping? ==> |Target(req)| == ID_LENGTH
    case Working(todo) => todo != [] ==> |Target(req)| == ID_LENGTH
    case WriteLocked(_, _) => |Target(req)| == ID_LENGTH
    case WriteDone(rest) => rest != [] ==> |Target(req)| == ID_LENGTH
    case Finished => true
  }

  ghost predicate LongIds(c: Config) {
    && (forall id :: id in c.devices ==> |id| == ID_LENGTH)
    && (forall t :: t in c.threads && c.threads[t].Updating? ==> PcLong(c.threads[t].req, c.threads[t].pc))
  }

  lemma StepKeepsLongIds(c: Config, st: Step)
    requires DataInv(c) && LongIds(c)
    requires st.Update? && st.req.Ping? ==> |st.req.m.id| == ID_LENGTH
    ensures LongIds(Exec(c, st))
  {
    if st.Go? && st.t in c.threads && c.threads[st.t].Updating? {
      GoUpdateKeepsLongIds(c, st.t);
    } else {
      assert Exec(c, st).devices == c.devices;
    }
  }

  lemma GoUpdateKeepsLongIds(c: Config, t: nat)
    requires DataInv(c) && LongIds(c) && t in c.threads && c.threads[t].Updating?
    ensures LongIds(GoUpdate(c, t, c.threads[t].req, c.threads[t].pc))
  {
    PcStaysLong(c, t);
    var c' := GoUpdate(c, t, c.threads[t].req, c.threads[t].pc);
    assert c'.threads == c.threads[t := c'.threads[t]];
    assert PcOk(c.threads[t].pc, Target(c.threads[t].req), c.clock);
    assert PcLong(c.threads[t].req, c.threads[t].pc);
    var written := if c.threads[t].pc.WriteLocked? then {Target(c.threads[t].req)} else {};
    assert c'.devices.Keys <= c.devices.Keys + written;
  }

  lemma PcStaysLong(c: Config, t: nat)
    requires LongIds(c) && t in c.threads && c.threads[t].Updating?
    ensures var c' := GoUpdate(c, t, c.threads[t].req, c.threads[t].pc);
            t in c'.threads && c'.threads[t].Updating? && PcLong(c'.threads[t].req, c'.threads[t].pc)
  {
    var req, pc := c.threads[t].req, c.threads[t].pc;
    assert PcLong(req, pc);
    if pc.Have? {
      assert Expand(c.fans, []) == [];
      assert Respond(req, pc.found, c.clock) == [] || pc.found.Some? || req.Ping?;
    }
  }

  /** If all pings carry ids of that length, so does every stored record, in every interleaving. */
  lemma {:induction false} OnlyLongIdsStored(devices: Registry, fans: nat, clock: int, steps: seq<Step>)
    requires RegistryOk(devices, clock) && forall id :: id in devices ==> |id| == ID_LENGTH
    requires forall st :: st in steps && st.Update? && st.req.Ping? ==> |st.req.m.id| == ID_LENGTH
    ensures LongIds(After(Start(devices, fans, clock), steps))
    decreases |steps|
  {
    if steps != [] {
      var init, last := steps[..|steps| - 1], steps[|steps| - 1];
      assert last in steps && forall st :: st in init ==> st in steps;
      OnlyLongIdsStored(devices, fans, clock, init);
      EveryScheduleIsSafe(devices, fans, clock, init);
      StepKeepsLongIds(After(Start(devices, fans, clock), init), last);
    }
  }
}
