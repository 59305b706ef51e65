/** Exactly when two overlapping calls on one device are always as if one had been made after the other. */
module SerialPairs {
  import opened Wrappers
  import opened Devices
  import opened Times
  import opened Interleaving
  import opened Overlap
  import opened Pairs

  ghost predicate AsIfSerial(p: Pair, c: Config) {
    AsIfInOrder(p, c) || AsIfInOrder(Swap(p), c)
  }

  /** What either call leaves by itself is what they leave together, in one order or the other. */
  predicate NothingLost(p: Pair) {
    var first, second := Leaves(p.first, p.found), Leaves(p.second, p.found);
    var either := [Leaves(p.second, first), Leaves(p.first, second)];
    first in either && second in either
  }

  /** The calls are harmless to the subscribers, and if both write, neither can lose what the other wrote. */
  predicate Commuting(p: Pair) {
    Harmless(p) && (Acts(p.first, p.found) != [] && Acts(p.second, p.found) != [] ==> NothingLost(p))
  }

  /** Calls that write without telling do so in either order too. */
  lemma WritersStayQuiet(p: Pair)
    requires BothWrite(p)
    ensures Says(p.second, Leaves(p.first, p.found)) == [] && Says(p.first, Leaves(p.second, p.found)) == []
  {
  }

  lemma CommutingIsSerial(p: Pair, devices: Registry, steps: seq<Step>)
    requires Finds(p, devices) && Commuting(p) && TwoCalls(p, After(Opening(p, devices), steps))
    ensures AsIfSerial(p, After(Opening(p, devices), steps))
  {
    HarmlessEndings(p, devices, steps);
    if BothWrite(p) {
      WritersStayQuiet(p);
      SerialSteps(p.found, p.id, p.first, p.second);
      SerialSteps(p.found, p.id, p.second, p.first);
    }
  }

  /** What `y` leaves by itself is lost in both serial orders. */
  lemma LossIsNotSerial(p: Pair, devices: Registry, x: Entry, y: Entry) returns (steps: seq<Step>)
    requires Finds(p, devices) && ((x == p.first && y == p.second) || (x == p.second && y == p.first))
    requires Acts(y, p.found) != []
    requires var alone := Leaves(y, p.found);
             alone != Leaves(y, Leaves(x, p.found)) && alone != Leaves(x, alone)
    ensures TwoCalls(p, After(Opening(p, devices), steps)) && !AsIfSerial(p, After(Opening(p, devices), steps))
  {
    steps := BothRead(p, devices, x, y);
    SerialSteps(p.found, p.id, p.first, p.second);
    SerialSteps(p.found, p.id, p.second, p.first);
  }

  lemma OthersAreNotSerial(p: Pair, devices: Registry) returns (steps: seq<Step>)
    requires p.fans > 0 && Finds(p, devices) && !Commuting(p)
    ensures TwoCalls(p, After(Opening(p, devices), steps)) && !AsIfSerial(p, After(Opening(p, devices), steps))
  {
    var first, second := Leaves(p.first, p.found), Leaves(p.second, p.found);
    if !Harmless(p) {
      steps := HarmfulIsUnsound(p, devices);
      var c := After(Opening(p, devices), steps);
      if AsIfInOrder(p, c) {
        SerialIsSound(p, c);
      } else if AsIfInOrder(Swap(p), c) {
        SerialIsSound(Swap(p), c);
      }
    } else if second != Leaves(p.second, first) && second != Leaves(p.first, second) {
      steps := LossIsNotSerial(p, devices, p.first, p.second);
    } else {
      steps := LossIsNotSerial(p, devices, p.second, p.first);
    }
  }

  /** The exact condition for two calls to be serialisable. Take two calls on one device and the instants at
      which they sample the clock. Every interleaving that completes them with these samples stores a record
      and makes the subscriber calls of one of their two serial runs, if and only if they are `Commuting`. */
  lemma OverlapIsSerialIff(p: Pair, devices: Registry)
    requires p.fans > 0 && Finds(p, devices)
    ensures (forall steps ::
               TwoCalls(p, After(Opening(p, devices), steps)) ==> AsIfSerial(p, After(Opening(p, devices), steps)))
            <==> Commuting(p)
  {
    if Commuting(p) {
      forall steps | TwoCalls(p, After(Opening(p, devices), steps))
        ensures AsIfSerial(p, After(Opening(p, devices), steps))
      {
        CommutingIsSerial(p, devices, steps);
      }
    } else {
      var steps := OthersAreNotSerial(p, devices);
    }
  }

  // ---- The condition for pings of an online device, in the fields of the messages.

  /** A ping by id and an overlapping message: harmless to the subscribers, but the message's news can be lost,
      unless it carries none. */
  lemma PingByIdCanUndoNews(p: Pair, d: Device, ping: Entry, message: Entry)
    requires PairOk(p) && p.found == Some(d) && d.isOnline
    requires (p.first == ping && p.second == message) || (p.first == message && p.second == ping)
    requires ping.req.PingDevice? && message.req.Ping? && message.req.m.kind == d.msg.kind
    ensures Harmless(p)
    ensures Commuting(p) <==> Refreshed(d, message.req.m, message.now) == d.(pingedAt := message.now)
  {
  }

  predicate NewRevision(m: Message, revision: string) {
    m.revision != "" && m.revision != revision
  }

  predicate NewBranch(m: Message, branch: string) {
    m.branch != "" && m.branch != branch
  }

  predicate NewBuild(m: Message, buildTime: int) {
    m.buildTime != ZERO_TIME && m.buildTime != buildTime
  }

  /** Revision, branch, build time and update time of a record after a message. */
  function RevisionAfter(m: Message, revision: string): string {
    if NewRevision(m, revision) then m.revision else revision
  }

  function BranchAfter(m: Message, branch: string): string {
    if NewBranch(m, branch) then m.revision else branch
  }

  function BuildAfter(m: Message, buildTime: int): int {
    if NewBuild(m, buildTime) then m.buildTime else buildTime
  }

  function UpdatedAfter(m: Message, now: int, revision: string, branch: string, updatedAt: int): int {
    if NewRevision(m, revision) || NewBranch(m, branch) then now else updatedAt
  }

  /** Message `m` at time `t` leaves nothing of what message `o` changed at time `u`: it carries a revision, or
      `o` no new one; likewise for the build time; the branch ends up the same; and so does the update time. */
  predicate Overrides(d: Device, m: Message, t: int, o: Message, u: int) {
    var revision, branch := RevisionAfter(o, d.msg.revision), BranchAfter(o, d.msg.branch);
    var updatedAt := UpdatedAfter(o, u, d.msg.revision, d.msg.branch, d.updatedAt);
    && (m.revision != "" || !NewRevision(o, d.msg.revision))
    && (m.buildTime != ZERO_TIME || !NewBuild(o, d.msg.buildTime))
    && BranchAfter(m, branch) == BranchAfter(m, d.msg.branch)
    && UpdatedAfter(m, t, revision, branch, updatedAt) == UpdatedAfter(m, t, d.msg.revision, d.msg.branch, d.updatedAt)
  }

  /** After message `o`, message `m` at the same time changes nothing. */
  predicate AddsNothing(d: Device, m: Message, o: Message, t: int) {
    var revision, branch := RevisionAfter(o, d.msg.revision), BranchAfter(o, d.msg.branch);
    var updatedAt := UpdatedAfter(o, t, d.msg.revision, d.msg.branch, d.updatedAt);
    && !NewRevision(m, revision) && BranchAfter(m, branch) == branch
    && !NewBuild(m, BuildAfter(o, d.msg.buildTime))
    && UpdatedAfter(m, t, revision, branch, updatedAt) == updatedAt
  }

  lemma RefreshedFields(d: Device, m: Message, now: int)
    ensures Refreshed(d, m, now)
            == d.(msg := d.msg.(revision := RevisionAfter(m, d.msg.revision), branch := BranchAfter(m, d.msg.branch),
                                buildTime := BuildAfter(m, d.msg.buildTime)),
                  updatedAt := UpdatedAfter(m, now, d.msg.revision, d.msg.branch, d.updatedAt), pingedAt := now)
  {
  }

  lemma OverridesIsExact(d: Device, m: Message, t: int, o: Message, u: int)
    ensures Refreshed(Refreshed(d, o, u), m, t) == Refreshed(d, m, t) <==> Overrides(d, m, t, o, u)
  {
    RefreshedFields(d, o, u);
    RefreshedFields(d, m, t);
    RefreshedFields(Refreshed(d, o, u), m, t);
  }

  lemma AddsNothingIsExact(d: Device, m: Message, t: int, o: Message, u: int)
    ensures Refreshed(Refreshed(d, o, u), m, t) == Refreshed(d, o, u) <==> t == u && AddsNothing(d, m, o, t)
  {
    RefreshedFields(d, o, u);
    RefreshedFields(Refreshed(d, o, u), m, t);
  }

  /** Two overlapping messages are harmless to the subscribers, and serialisable if and only if each overrides
      the other, or is at the same time as the other and leaves nothing for it to add. */
  lemma MessagesCommuteIff(p: Pair, d: Device, m1: Message, m2: Message)
    requires PairOk(p) && p.found == Some(d) && d.isOnline
    requires p.first.req == Ping(m1) && p.second.req == Ping(m2) && m1.kind == m2.kind == d.msg.kind
    ensures Harmless(p)
    ensures var t1, t2 := p.first.now, p.second.now;
            Commuting(p) <==>
              && (Overrides(d, m1, t1, m2, t2) || (t1 == t2 && AddsNothing(d, m2, m1, t1)))
              && (Overrides(d, m2, t2, m1, t1) || (t1 == t2 && AddsNothing(d, m1, m2, t1)))
  {
    OverridesIsExact(d, m1, p.first.now, m2, p.second.now);
    OverridesIsExact(d, m2, p.second.now, m1, p.first.now);
    AddsNothingIsExact(d, m2, p.second.now, m1, p.first.now);
    AddsNothingIsExact(d, m1, p.first.now, m2, p.second.now);
    PingLeaves(p.first, d);
    PingLeaves(p.second, d);
    PingLeaves(p.first, Refreshed(d, m2, p.second.now));
    PingLeaves(p.second, Refreshed(d, m1, p.first.now));
  }

  lemma PingLeaves(e: Entry, d: Device)
    requires e.req.Ping? && e.req.m.kind == d.msg.kind && d.isOnline
    ensures Leaves(e, Some(d)) == Some(Refreshed(d, e.req.m, e.now))
    ensures Acts(e, Some(d)) == [Put(Refreshed(d, e.req.m, e.now))] && Says(e, Some(d)) == []
    ensures Refreshed(d, e.req.m, e.now).isOnline && Refreshed(d, e.req.m, e.now).msg.kind == d.msg.kind
  {
  }

  /** The same message sent twice, with a new revision and no new branch, at two instants: the two requests are not
      serialisable, since the record can end with the earlier update time and the earlier ping time. */
  lemma RepeatedNewsIsLost(p: Pair, d: Device, m: Message)
    requires PairOk(p) && p.found == Some(d) && d.isOnline && p.first.now < p.second.now
    requires p.first.req == Ping(m) && p.second.req == Ping(m) && m.kind == d.msg.kind
    requires NewRevision(m, d.msg.revision) && !NewBranch(m, d.msg.branch)
    ensures Harmless(p) && !Commuting(p)
  {
    MessagesCommuteIff(p, d, m, m);
  }
}
