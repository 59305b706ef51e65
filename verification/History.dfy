/** A stored record is determined by the pings the device sent. */
module History {
  import opened Wrappers
  import opened Devices
  import opened Times
  import opened Runs

  predicate IsPingOf(op: Op, id: string) {
    About(op, id) && op.req.Ping?
  }

  /** A ping that a device registered with a type accepts. */
  predicate Counts(op: Op, id: string, kind: string) {
    About(op, id) && Accepts(op.req, kind)
  }

  predicate CarriesRevision(op: Op, id: string, kind: string) {
    Counts(op, id, kind) && op.req.Ping? && |op.req.m.revision| > 0
  }

  predicate CarriesBuild(op: Op, id: string, kind: string) {
    Counts(op, id, kind) && op.req.Ping? && op.req.m.buildTime != ZERO_TIME
  }

  predicate CarriesBranch(op: Op, id: string, kind: string, stored: string) {
    Counts(op, id, kind) && op.req.Ping? && op.req.m.branch != "" && op.req.m.branch != stored
  }

  /** The first ping of a device in a run. */
  ghost predicate FirstPing(ops: seq<Op>, id: string, f: nat) {
    f < |ops| && IsPingOf(ops[f], id) && forall j :: 0 <= j < f ==> !IsPingOf(ops[j], id)
  }

  ghost predicate LastCounted(ops: seq<Op>, id: string, kind: string, f: nat, i: nat) {
    f <= i < |ops| && Counts(ops[i], id, kind) && forall j :: i < j < |ops| ==> !Counts(ops[j], id, kind)
  }

  ghost predicate LastRevision(ops: seq<Op>, id: string, kind: string, f: nat, i: nat) {
    && f <= i < |ops| && CarriesRevision(ops[i], id, kind)
    && forall j :: i < j < |ops| ==> !CarriesRevision(ops[j], id, kind)
  }

  ghost predicate LastBuild(ops: seq<Op>, id: string, kind: string, f: nat, i: nat) {
    && f <= i < |ops| && CarriesBuild(ops[i], id, kind)
    && forall j :: i < j < |ops| ==> !CarriesBuild(ops[j], id, kind)
  }

  /** The branch after a run: that of the first ping, until a ping that counts carries another than the stored one,
      and so on; each time the *revision* of that ping takes its place. */
  function BranchAfter(ops: seq<Op>, id: string, f: nat): string
    requires f < |ops| && ops[f].Call? && ops[f].req.Ping?
  {
    var op := ops[|ops| - 1];
    if f == |ops| - 1 then op.req.m.branch
    else
      var stored := BranchAfter(ops[..|ops| - 1], id, f);
      if CarriesBranch(op, id, ops[f].req.m.kind, stored) then op.req.m.revision else stored
  }

  /** Identity and registration time come from the first ping; the ping time from the last one that
      counts; revision and build time from the last one that carries them; the branch from all of them. */
  ghost predicate Remembers(d: Device, ops: seq<Op>, id: string, f: nat)
    requires FirstPing(ops, id, f)
  {
    var m := ops[f].req.m;
    && d.msg.id == id && d.createdAt == ops[f].now
    && d.msg.name == m.name && d.msg.kind == m.kind && d.msg.ip == m.ip
    && (exists i: nat :: LastCounted(ops, id, m.kind, f, i) && d.pingedAt == ops[i].now)
    && (if exists i: nat :: LastRevision(ops, id, m.kind, f, i)
        then exists i: nat :: LastRevision(ops, id, m.kind, f, i) && d.msg.revision == ops[i].req.m.revision
        else d.msg.revision == "")
    && (if exists i: nat :: LastBuild(ops, id, m.kind, f, i)
        then exists i: nat :: LastBuild(ops, id, m.kind, f, i) && d.msg.buildTime == ops[i].req.m.buildTime
        else d.msg.buildTime == ZERO_TIME)
    && d.msg.branch == BranchAfter(ops, id, f)
  }

  lemma {:induction false} UnseenStaysUnknown(ops: seq<Op>, id: string)
    requires forall j :: 0 <= j < |ops| ==> !IsPingOf(ops[j], id)
    ensures RunView(None, ops, id) == View(None, [])
    decreases |ops|
  {
    if ops != [] {
      UnseenStaysUnknown(ops[..|ops| - 1], id);
    }
  }

  /** What one operation does to the fields the history determines. */
  predicate Carried(op: Op, id: string, d: Device, e: Device) {
    var kind := d.msg.kind;
    && e.msg.id == d.msg.id && e.createdAt == d.createdAt
    && e.msg.name == d.msg.name && e.msg.kind == d.msg.kind && e.msg.ip == d.msg.ip
    && e.pingedAt == (if Counts(op, id, kind) then op.now else d.pingedAt)
    && e.msg.revision == (if CarriesRevision(op, id, kind) then op.req.m.revision else d.msg.revision)
    && e.msg.buildTime == (if CarriesBuild(op, id, kind) then op.req.m.buildTime else d.msg.buildTime)
    && e.msg.branch == (if CarriesBranch(op, id, kind, d.msg.branch) then op.req.m.revision else d.msg.branch)
  }

  lemma FieldsAfter(v: View, op: Op, id: string)
    requires v.found.Some? && v.found.value.msg.id == id
    ensures var after := StepView(v, op, id).found; after.Some? && Carried(op, id, v.found.value, after.value)
  {
    if About(op, id) {
      RecordOfKnownDevice(op.req, v.found.value, op.now);
    }
  }

  lemma {:induction false} ViewRemembers(ops: seq<Op>, id: string, f: nat)
    requires FirstPing(ops, id, f)
    ensures var found := RunView(None, ops, id).found; found.Some? && Remembers(found.value, ops, id, f)
    decreases |ops|
  {
    var init, op := ops[..|ops| - 1], ops[|ops| - 1];
    if f == |init| {
      FirstRecord(ops, id, f);
    } else {
      ViewRemembers(init, id, f);
      var before := RunView(None, init, id);
      FieldsAfter(before, op, id);
      assert ops == init + [op];
      RemembersMore(init, op, before.found.value, RunView(None, ops, id).found.value, id, f);
    }
  }

  lemma FirstRecord(ops: seq<Op>, id: string, f: nat)
    requires FirstPing(ops, id, f) && f == |ops| - 1
    ensures var found := RunView(None, ops, id).found; found.Some? && Remembers(found.value, ops, id, f)
  {
    UnseenStaysUnknown(ops[..f], id);
    var m, now := ops[f].req.m, ops[f].now;
    assert RunView(None, ops, id).found == Some(Device(m, true, now, now, now));
    FirstIsLast(ops, id, f);
  }

  lemma FirstIsLast(ops: seq<Op>, id: string, f: nat)
    requires FirstPing(ops, id, f) && f == |ops| - 1
    ensures var m, now := ops[f].req.m, ops[f].now; Remembers(Device(m, true, now, now, now), ops, id, f)
  {
    var m := ops[f].req.m;
    assert LastCounted(ops, id, m.kind, f, f);
    assert |m.revision| > 0 ==> LastRevision(ops, id, m.kind, f, f);
    assert m.buildTime != ZERO_TIME ==> LastBuild(ops, id, m.kind, f, f);
  }

  lemma RemembersMore(init: seq<Op>, op: Op, d: Device, e: Device, id: string, f: nat)
    requires FirstPing(init, id, f) && Remembers(d, init, id, f) && Carried(op, id, d, e)
    ensures FirstPing(init + [op], id, f) && Remembers(e, init + [op], id, f)
  {
    var ops, kind, n := init + [op], d.msg.kind, |init|;
    assert BranchAfter(ops, id, f) == e.msg.branch by {
      assert ops[..n] == init && ops[f] == init[f];
    }
    LastOnes(init, op, id, kind, f);
    assert forall j :: 0 <= j < n ==> ops[j] == init[j];
    assert Counts(op, id, kind) ==> LastCounted(ops, id, kind, f, n);
    assert CarriesRevision(op, id, kind) ==> LastRevision(ops, id, kind, f, n);
    assert CarriesBuild(op, id, kind) ==> LastBuild(ops, id, kind, f, n);
  }

  lemma LastOnes(init: seq<Op>, op: Op, id: string, kind: string, f: nat)
    requires f < |init|
    ensures forall i: nat
              {:trigger LastCounted(init + [op], id, kind, f, i)} {:trigger LastCounted(init, id, kind, f, i)} ::
              LastCounted(init + [op], id, kind, f, i)
              <==> if Counts(op, id, kind) then i == |init| else LastCounted(init, id, kind, f, i)
    ensures forall i: nat
              {:trigger LastRevision(init + [op], id, kind, f, i)} {:trigger LastRevision(init, id, kind, f, i)} ::
              LastRevision(init + [op], id, kind, f, i)
              <==> if CarriesRevision(op, id, kind) then i == |init| else LastRevision(init, id, kind, f, i)
    ensures forall i: nat
              {:trigger LastBuild(init + [op], id, kind, f, i)} {:trigger LastBuild(init, id, kind, f, i)} ::
              LastBuild(init + [op], id, kind, f, i)
              <==> if CarriesBuild(op, id, kind) then i == |init| else LastBuild(init, id, kind, f, i)
  {
    var ops, n := init + [op], |init|;
    assert forall j :: 0 <= j < n ==> ops[j] == init[j];
    forall i: nat
      ensures LastCounted(ops, id, kind, f, i) <==>
                (if Counts(op, id, kind) then i == n else LastCounted(init, id, kind, f, i))
      ensures LastRevision(ops, id, kind, f, i) <==>
                (if CarriesRevision(op, id, kind) then i == n else LastRevision(init, id, kind, f, i))
      ensures LastBuild(ops, id, kind, f, i) <==>
                (if CarriesBuild(op, id, kind) then i == n else LastBuild(init, id, kind, f, i))
    {
      assert ops[n] == op;
    }
  }

  /** History refinement. At the end of any run, a device not stored at the start is stored exactly if it
      has pinged, and its record is determined by its pings as `Remembers` says. */
  lemma {:induction false} HistoryRefinement(s: State, ops: seq<Op>, id: string)
    requires KeysMatch(s.devices) && id !in s.devices
    ensures var found := Lookup(Run(s, ops).devices, id);
            && (found.Some? <==> exists f: nat :: FirstPing(ops, id, f))
            && (forall f: nat :: FirstPing(ops, id, f) ==> Remembers(found.value, ops, id, f))
  {
    RunIsLocal(s, ops, id);
    if exists j :: 0 <= j < |ops| && IsPingOf(ops[j], id) {
      var f := FindFirst(ops, id, 0);
      ViewRemembers(ops, id, f);
      assert forall g: nat :: FirstPing(ops, id, g) ==> g == f;
    } else {
      UnseenStaysUnknown(ops, id);
    }
  }

  lemma {:induction false} FindFirst(ops: seq<Op>, id: string, from: nat) returns (f: nat)
    requires exists j :: from <= j < |ops| && IsPingOf(ops[j], id)
    requires forall j :: 0 <= j < from ==> !IsPingOf(ops[j], id)
    ensures FirstPing(ops, id, f)
    decreases |ops| - from
  {
    if IsPingOf(ops[from], id) {
      f := from;
    } else {
      f := FindFirst(ops, id, from + 1);
    }
  }

  /** Dropping a ping of another type from a run changes nothing at all. */
  lemma {:induction false} RejectedPingLeavesNoTrace(s: State, a: seq<Op>, m: Message, now: int, b: seq<Op>)
    requires KeysMatch(s.devices)
    requires var found := Lookup(Run(s, a).devices, m.id); found.Some? && found.value.msg.kind != m.kind
    ensures Run(s, a + [Call(Ping(m), now)] + b) == Run(s, a + b)
  {
    RunAround(s, a, Call(Ping(m), now), b);
    RunConcat(s, a, b);
  }
}
