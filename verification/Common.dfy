/** Vocabulary shared by the models: optional values and clock arithmetic. */
module Wrappers {
  datatype Option<+T> = None | Some(value: T)

  /** `places` lists exactly the positions in `wanted`, in increasing order. */
  ghost predicate Enumerates(places: seq<nat>, wanted: set<nat>) {
    && (forall i, j :: 0 <= i < j < |places| ==> places[i] < places[j])
    && (forall k: nat :: k in places <==> k in wanted)
  }

  lemma EnumerateMore(places: seq<nat>, wanted: set<nat>, k: nat)
    requires Enumerates(places, wanted) && forall j :: j in wanted ==> j < k
    ensures Enumerates(places + [k], wanted + {k})
  {
    assert forall i :: 0 <= i < |places| ==> places[i] in places;
    assert forall j :: j in places + [k] <==> j in places || j == k;
  }
}

/** Instants and durations are integers counted in nanoseconds, as in Go's `time` package.
    Instant 0 is the zero value of `time.Time`. */
module Times {
  const SECOND: int := 1_000_000_000
  const MINUTE: int := 60 * SECOND
  const HOUR: int := 60 * MINUTE
  const DAY: int := 24 * HOUR

  const ZERO_TIME: int := 0

  /** The calendar day an instant falls on. */
  function DayOf(t: int): int {
    t / DAY
  }

  /** The hour shown by a clock at an instant, 0 to 23. */
  function HourOf(t: int): int {
    (t / HOUR) % 24
  }

  /** Day and hour are what a clock and a calendar show: an instant lies in that hour of that day. */
  lemma ClockReading(t: int)
    ensures 0 <= HourOf(t) < 24
    ensures DayOf(t) * DAY + HourOf(t) * HOUR <= t < DayOf(t) * DAY + (HourOf(t) + 1) * HOUR
  {
    var q, r := t / DAY, t % DAY;
    assert t == q * DAY + r && 0 <= r < DAY;
    var h := r / HOUR;
    assert 0 <= h < 24;
    assert t == (q * 24 + h) * HOUR + r % HOUR;
    assert t / HOUR == q * 24 + h;
  }
}
