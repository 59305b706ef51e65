/** Whole runs seen from one device: alternation of its notifications, and independence of the others. */
module Isolation {
  import opened Wrappers
  import opened Devices
  import opened Runs

  /** Announcements that alternate, starting from a given stored state. */
  ghost predicate Alternates(before: bool, notes: seq<Device>) {
    && (notes != [] ==> notes[0].isOnline == !before)
    && (forall i :: 0 < i < |notes| ==> notes[i].isOnline == !notes[i - 1].isOnline)
  }

  function LastState(before: bool, notes: seq<Device>): bool {
    if notes == [] then before else notes[|notes| - 1].isOnline
  }

  lemma {:induction false} ViewAlternates(found: Option<Device>, ops: seq<Op>, id: string)
    requires HasId(found, id)
    ensures var v := RunView(found, ops, id);
            Alternates(Online(found), v.notes) && Online(v.found) == LastState(Online(found), v.notes)
    decreases |ops|
  {
    if ops != [] {
      var init, op := ops[..|ops| - 1], ops[|ops| - 1];
      ViewAlternates(found, init, id);
      ViewHasId(found, init, id);
      if About(op, id) {
        RespondIsAnEdge(op.req, RunView(found, init, id).found, op.now);
      }
    }
  }

  /** The notifications about one device strictly alternate over any run, starting with the opposite of
      the stored state (with "online" for a device not stored), and the last one announced is the state
      stored at the end. */
  lemma {:induction false} Alternation(s: State, ops: seq<Op>, id: string)
    requires KeysMatch(s.devices)
    ensures var before := Lookup(s.devices, id);
            var notes := RunView(before, ops, id).notes;
            && NotesOf(Run(s, ops).events, id) == NotesOf(s.events, id) + notes
            && Alternates(Online(before), notes)
            && Online(Lookup(Run(s, ops).devices, id)) == LastState(Online(before), notes)
  {
    RunIsLocal(s, ops, id);
    ViewAlternates(Lookup(s.devices, id), ops, id);
  }

  /** The operations one device can notice: the calls about it, and subscriptions. */
  function Only(ops: seq<Op>, id: string): seq<Op> {
    if ops == [] then []
    else
      var rest, op := Only(ops[..|ops| - 1], id), ops[|ops| - 1];
      if op.Subscribe? || About(op, id) then rest + [op] else rest
  }

  /** Two states that one device cannot tell apart. */
  ghost predicate SameFor(a: State, b: State, id: string) {
    && Lookup(a.devices, id) == Lookup(b.devices, id)
    && NotesOf(a.events, id) == NotesOf(b.events, id)
    && SentOf(a.sent, id) == SentOf(b.sent, id)
    && a.subs == b.subs
  }

  lemma {:induction false} OnlyOwnCallsMatter(s: State, ops: seq<Op>, id: string)
    requires KeysMatch(s.devices)
    ensures KeysMatch(Run(s, ops).devices) && KeysMatch(Run(s, Only(ops, id)).devices)
    ensures SameFor(Run(s, ops), Run(s, Only(ops, id)), id)
    decreases |ops|
  {
    if ops != [] {
      var init, op := ops[..|ops| - 1], ops[|ops| - 1];
      OnlyOwnCallsMatter(s, init, id);
      ApplyIsLocal(Run(s, init), op, id);
      SubsAfter(Run(s, init), op);
      if op.Subscribe? || About(op, id) {
        RunSnoc(s, Only(init, id), op);
        ApplyIsLocal(Run(s, Only(init, id)), op, id);
        SubsAfter(Run(s, Only(init, id)), op);
      }
    }
  }

  lemma SubsAfter(s: State, op: Op)
    requires KeysMatch(s.devices)
    ensures Apply(s, op).subs == if op.Subscribe? then s.subs + [op.fn] else s.subs
  {
    if op.Call? {
      CallHasEffect(s, op.req, op.now);
    }
  }

  /** Runs that agree on the calls about a device and on the subscriptions give that device the same
      record, the same announcements and the same deliveries, whatever else they contain. */
  lemma {:induction false} NonInterference(s: State, ops: seq<Op>, others: seq<Op>, id: string)
    requires KeysMatch(s.devices)
    requires Only(ops, id) == Only(others, id)
    ensures SameFor(Run(s, ops), Run(s, others), id)
  {
    OnlyOwnCallsMatter(s, ops, id);
    OnlyOwnCallsMatter(s, others, id);
  }
}
