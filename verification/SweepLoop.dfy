/** The background loop: it sweeps, sleeps for a minute, and sweeps again, while other calls go on. */
module SweepLoop {
  import opened Times
  import opened Runs
  import opened PresenceStore
  import opened Timing

  /** One turn of the loop: when the sweep began and ended, how far the run had come when it began, and where
      in the run its checks are. */
  datatype Turn = Turn(begin: int, end: int, start: nat, visits: seq<Visit>, places: seq<nat>)

  /** The sweep of a turn visits every device stored when it began, once, and possibly devices registered
      since; any other operations may come between its checks. */
  ghost predicate IsTurn(s: State, ops: seq<Op>, turn: Turn) {
    var keys := set v | v in turn.visits :: v.id;
    && turn.start <= |ops| && Run(s, ops[..turn.start]).devices.Keys <= keys && VisitsAll(turn.visits, keys)
    && |turn.places| == |turn.visits|
    && (forall n :: 0 <= n < |turn.places| ==>
          && turn.start <= turn.places[n] < |ops| && ops[turn.places[n]] == SweepOps(turn.visits)[n]
          && turn.begin <= turn.visits[n].now <= turn.end)
    && (forall m, n :: 0 <= m < n < |turn.places| ==> turn.places[m] < turn.places[n])
    && (forall j :: 0 <= j < |ops| && ops[j].Call? ==>
          if j < turn.start then ops[j].now <= turn.begin else turn.begin <= ops[j].now)
  }

  /** Sweeps take at most `work`, and the loop wakes up at most `lag` late from its minute of sleep. */
  ghost predicate IsLoop(s: State, ops: seq<Op>, turns: seq<Turn>, work: nat, lag: nat) {
    && (forall n :: 0 <= n < |turns| ==> IsTurn(s, ops, turns[n]) && 0 <= turns[n].end - turns[n].begin <= work)
    && (forall n :: 0 < n < |turns| ==> MINUTE <= turns[n].begin - turns[n - 1].end <= MINUTE + lag)
  }

  /** A sweep that nothing interrupts is a turn. */
  lemma SweepIsTurn(s: State, a: seq<Op>, visits: seq<Visit>, b: seq<Op>, begin: int, end: int) returns (turn: Turn)
    requires VisitsAll(visits, Run(s, a).devices.Keys)
    requires forall v :: v in visits ==> begin <= v.now <= end
    requires forall op :: op in a && op.Call? ==> op.now <= begin
    requires forall op :: op in b && op.Call? ==> begin <= op.now
    ensures IsTurn(s, a + SweepOps(visits) + b, turn) && turn.begin == begin && turn.end == end
  {
    var ops := a + SweepOps(visits) + b;
    var places := seq(|visits|, n requires 0 <= n < |visits| => |a| + n);
    turn := Turn(begin, end, |a|, visits, places);
    assert ops[..|a|] == a;
    SweepTimes(a, visits, b, begin);
    forall n | 0 <= n < |visits|
      ensures ops[places[n]] == SweepOps(visits)[n] && begin <= visits[n].now <= end
    {
      assert visits[n] in visits;
      SweepPlace(a, SweepOps(visits), b, n);
    }
  }

  lemma SweepPlace(a: seq<Op>, sweep: seq<Op>, b: seq<Op>, n: nat)
    requires n < |sweep|
    ensures (a + sweep + b)[|a| + n] == sweep[n]
  {
  }

  lemma SweepTimes(a: seq<Op>, visits: seq<Visit>, b: seq<Op>, begin: int)
    requires forall v :: v in visits ==> begin <= v.now
    requires forall op :: op in a && op.Call? ==> op.now <= begin
    requires forall op :: op in b && op.Call? ==> begin <= op.now
    ensures var ops := a + SweepOps(visits) + b;
            forall j :: 0 <= j < |ops| && ops[j].Call? ==>
              if j < |a| then ops[j].now <= begin else begin <= ops[j].now
  {
    var sweep := SweepOps(visits);
    forall n | 0 <= n < |visits| ensures begin <= sweep[n].now {
      assert visits[n] in visits;
    }
    assert forall op :: op in sweep && op.Call? ==> begin <= op.now;
    assert forall j :: 0 <= j < |sweep + b| ==> (sweep + b)[j] in sweep || (sweep + b)[j] in b;
    assert a + sweep + b == a + (sweep + b);
  }

  /** Every turn checks every device stored when it began. */
  lemma TurnChecks(s: State, ops: seq<Op>, turn: Turn, id: string) returns (c: nat)
    requires IsTurn(s, ops, turn) && Record(s, ops, id, turn.start).Some?
    ensures turn.start <= c < |ops| && IsCheck(ops[c], id) && turn.begin <= ops[c].now <= turn.end
  {
    assert id in set v | v in turn.visits :: v.id;
    var v :| v in turn.visits && v.id == id;
    var n :| 0 <= n < |turn.visits| && turn.visits[n] == v;
    c := turn.places[n];
  }

  lemma {:induction false} StaysStored(s: State, ops: seq<Op>, id: string, i: nat, k: nat)
    requires KeysMatch(s.devices) && i <= k <= |ops| && Record(s, ops, id, i).Some?
    ensures Record(s, ops, id, k).Some?
    decreases k - i
  {
    if i < k {
      StaysStored(s, ops, id, i, k - 1);
      RecordStep(s, ops, id, k - 1);
    }
  }

  /** The first turn that begins after an instant. */
  lemma {:induction false} TurnAfter(turns: seq<Turn>, time: int) returns (n: nat)
    requires turns != [] && turns[0].begin <= time < turns[|turns| - 1].begin
    ensures 0 < n < |turns| && turns[n - 1].begin <= time < turns[n].begin
    decreases |turns|
  {
    n := |turns| - 1;
    if turns[n - 1].begin > time {
      n := TurnAfter(turns[..n], time);
    }
  }

  /** Detection by the loop. If the loop is running by the time p + 60 s, p being the time of the last accepted
      ping of a device, and is still running after the instant `at`, then the device is stored offline at
      `at` whenever p + 120 s + 2 * work + lag <= at. (`k` is how far the run has come at that instant.) */
  lemma {:induction false} LoopDetects(
    s: State, ops: seq<Op>, turns: seq<Turn>, work: nat, lag: nat, id: string, i: nat, k: nat, at: int)
    requires KeysMatch(s.devices)
    requires turns != [] && IsLoop(s, ops, turns, work, lag)
    requires i < k <= |ops| && Accepted(s, ops, id, i)
    requires forall j :: i < j < k ==> !Accepted(s, ops, id, j)
    requires forall j :: k <= j < |ops| && ops[j].Call? ==> at < ops[j].now
    requires turns[0].begin <= ops[i].now + MINUTE && at < turns[|turns| - 1].begin
    requires ops[i].now + 2 * MINUTE + 2 * work + lag <= at
    ensures var found := Record(s, ops, id, k); found.Some? && !found.value.isOnline
  {
    var n := TurnAfter(turns, ops[i].now + MINUTE);
    assert turns[n].end <= at;
    AcceptedPing(s, ops, id, i);
    StaysStored(s, ops, id, i + 1, turns[n].start);
    var c := TurnChecks(s, ops, turns[n], id);
    LateCheck(s, ops, id, i, c, k);
  }
}
