/** The next-bus request: which of the arrivals at a stop is served. */
module NextBus {
  import opened Wrappers
  import opened Times
  import opened Transit

  datatype Answer = Unprocessable | ServerError | NotFound | Served(tr: TransportInfo)

  /** `sub` occurs in `s`. */
  predicate Contains(s: string, sub: string) {
    exists i :: 0 <= i <= |s| && sub <= s[i..]
  }

  lemma ContainsIsSplit(s: string, sub: string)
    ensures Contains(s, sub) <==> exists before: string, after: string :: s == before + sub + after
  {
    if Contains(s, sub) {
      var i :| 0 <= i <= |s| && sub <= s[i..];
      assert s == s[..i] + sub + s[i..][|sub|..];
    }
    if before: string, after: string :| s == before + sub + after {
      assert sub <= s[|before|..];
    }
  }

  /** The arrivals on a route, in order. */
  function Matching(list: seq<TransportInfo>, route: string): seq<TransportInfo> {
    if list == [] then []
    else
      var rest, tr := Matching(list[..|list| - 1], route), list[|list| - 1];
      if Contains(tr.name, route) then rest + [tr] else rest
  }

  /** `Matching` is the subsequence of the arrivals on the route: all of them, in the order of the list. */
  lemma {:induction false} MatchingInOrder(list: seq<TransportInfo>, route: string) returns (places: seq<nat>)
    ensures Enumerates(places, set i: nat | i < |list| && Contains(list[i].name, route))
    ensures |places| == |Matching(list, route)|
    ensures forall k :: 0 <= k < |places| ==> places[k] < |list| && Matching(list, route)[k] == list[places[k]]
    decreases |list|
  {
    if list == [] {
      places := [];
    } else {
      var init, n := list[..|list| - 1], |list| - 1;
      var before := set i: nat | i < n && Contains(init[i].name, route);
      var wanted := set i: nat | i < |list| && Contains(list[i].name, route);
      places := MatchingInOrder(init, route);
      if Contains(list[n].name, route) {
        EnumerateMore(places, before, n);
        places := places + [n];
        assert wanted == before + {n};
      } else {
        assert wanted == before;
      }
    }
  }

  lemma {:induction false} MatchingIsExact(list: seq<TransportInfo>, route: string)
    ensures forall tr :: tr in Matching(list, route) <==> tr in list && Contains(tr.name, route)
    decreases |list|
  {
    if list != [] {
      MatchingIsExact(list[..|list| - 1], route);
      assert forall tr :: tr in list <==> tr in list[..|list| - 1] || tr == list[|list| - 1];
    }
  }

  /** The arrivals the selection loop considers: the first match, and those whose hour of day is not below
      the current hour. */
  predicate Considered(list: seq<TransportInfo>, i: nat, now: int) {
    i < |list| && (i == 0 || HourOf(list[i].arrive) >= HourOf(now))
  }

  /** Position `i` is the first among the earliest arrivals considered. */
  ghost predicate Selects(list: seq<TransportInfo>, now: int, i: nat) {
    && Considered(list, i, now)
    && forall j: nat :: Considered(list, j, now) ==>
         list[i].arrive <= list[j].arrive && (list[i].arrive == list[j].arrive ==> i <= j)
  }

  ghost predicate Earliest(list: seq<TransportInfo>, tr: TransportInfo) {
    tr in list && forall x :: x in list ==> tr.arrive <= x.arrive
  }

  /** The loop that looks for the first arrival among several matches. */
  method PickFirst(transports: seq<TransportInfo>, route: string, now: int)
    returns (first: TransportInfo, found: bool)
    requires |transports| > 0 && forall tr :: tr in transports ==> Contains(tr.name, route)
    ensures exists i: nat :: Selects(transports, now, i) && first == transports[i] && (found <==> i != 0)
  {
    first, found := transports[0], false;
    ghost var best: nat := 0;
    var k := 0;
    while k < |transports|
      invariant 0 <= k <= |transports|
      invariant Considered(transports, best, now) && (best < k || best == 0) && first == transports[best]
      invariant found <==> best != 0
      invariant forall j: nat :: j < k && Considered(transports, j, now) ==>
                  first.arrive <= transports[j].arrive && (first.arrive == transports[j].arrive ==> best <= j)
    {
      var tr := transports[k];
      assert Contains(tr.name, route);
      if Contains(tr.name, route) {
        if HourOf(tr.arrive) >= HourOf(now) && tr.arrive < first.arrive {
          found, first, best := true, tr, k;
        }
      }
      k := k + 1;
    }
    assert Selects(transports, now, best);
  }

  /** An arrival that is not past, on the route. */
  predicate Wanted(ti: TransportInfo, route: string, now: int) {
    ti.arrive >= now && Contains(ti.name, route)
  }

  /** Every arrival `Fetch` keeps falls on the current day. */
  ghost predicate AllToday(transports: seq<Transport>, now: int) {
    forall tr :: tr in Kept(transports, now) ==> DayOf(tr.arrive) == DayOf(now)
  }

  /** Two hours of one day are ordered as the instants are. */
  lemma HoursOfOneDay(a: int, b: int)
    requires a <= b && DayOf(a) == DayOf(b)
    ensures HourOf(a) <= HourOf(b)
  {
    ClockReading(a);
    ClockReading(b);
  }

  /** End to end. If every arrival `Fetch` keeps falls on the current day, the request serves the earliest
      not-yet-past arrival among all reported means of transport whose name contains the route, and answers
      "not found" exactly when there is none. */
  lemma EndToEnd(transports: seq<Transport>, route: string, now: int, i: nat)
    requires AllToday(transports, now)
    requires var due := Matching(Kept(transports, now), route); due != [] ==> Selects(due, now, i)
    ensures var due := Matching(Kept(transports, now), route);
            && (due == [] <==> forall tr :: tr in transports ==> !Wanted(ExtractTransportInfo(tr, now), route, now))
            && (due != [] ==>
                  && (exists tr :: tr in transports && due[i] == ExtractTransportInfo(tr, now))
                  && Wanted(due[i], route, now)
                  && forall tr :: tr in transports && Wanted(ExtractTransportInfo(tr, now), route, now) ==>
                       due[i].arrive <= ExtractTransportInfo(tr, now).arrive)
  {
    var kept, due := Kept(transports, now), Matching(Kept(transports, now), route);
    KeptIsExact(transports, now);
    MatchingIsExact(kept, route);
    forall tr | tr in transports && Wanted(ExtractTransportInfo(tr, now), route, now)
      ensures ExtractTransportInfo(tr, now) in due
    {
      assert ExtractTransportInfo(tr, now) in kept;
    }
    if due != [] {
      assert due[0] in due && due[i] in due;
      forall x | x in due ensures due[i].arrive <= x.arrive {
        assert x in kept;
        HoursOfOneDay(now, x.arrive);
        var j :| 0 <= j < |due| && due[j] == x;
        assert Considered(due, j, now);
      }
    }
  }

  /** The answer for the arrivals on the route: "not found" exactly when there are none, else the one selected. */
  ghost predicate Answers(answer: Answer, due: seq<TransportInfo>, now: int) {
    && (answer == NotFound <==> due == [])
    && (due != [] ==> answer.Served? && exists i: nat :: Selects(due, now, i) && answer.tr == due[i])
  }

  /** The answer is the earliest reported arrival on the route that is not past, or "not found" if there is none. */
  ghost predicate ServesEarliest(answer: Answer, transports: seq<Transport>, route: string, now: int) {
    && (answer == NotFound <==> forall tr :: tr in transports ==> !Wanted(ExtractTransportInfo(tr, now), route, now))
    && (answer.Served? ==>
          && Wanted(answer.tr, route, now)
          && (exists tr :: tr in transports && answer.tr == ExtractTransportInfo(tr, now))
          && (forall tr :: tr in transports && Wanted(ExtractTransportInfo(tr, now), route, now) ==>
                answer.tr.arrive <= ExtractTransportInfo(tr, now).arrive))
  }

  lemma TodayServesEarliest(answer: Answer, transports: seq<Transport>, route: string, now: int)
    requires AllToday(transports, now) && Answers(answer, Matching(Kept(transports, now), route), now)
    ensures ServesEarliest(answer, transports, route, now)
  {
    var due := Matching(Kept(transports, now), route);
    var i: nat := 0;
    if due != [] {
      i :| Selects(due, now, i) && answer.tr == due[i];
    }
    EndToEnd(transports, route, now, i);
  }

  /** The whole request. `resp` is what the map service answers for the stop; one clock sample serves for
      the request. */
  method HandleNextBus(stopID: string, route: string, resp: Response, now: int) returns (answer: Answer)
    ensures |stopID| == 0 <==> answer == Unprocessable
    ensures |stopID| > 0 ==> (resp.Failed? <==> answer == ServerError)
    ensures |stopID| > 0 && resp.NoData? ==> answer == NotFound
    ensures |stopID| > 0 && resp.Data? ==> Answers(answer, Matching(Kept(resp.transports, now), route), now)
    ensures |stopID| > 0 && resp.Data? && AllToday(resp.transports, now) ==>
              ServesEarliest(answer, resp.transports, route, now)
  {
    if |stopID| == 0 {
      return Unprocessable;
    }
    var incoming := Fetch(resp, now);
    if incoming.None? {
      return ServerError;
    }
    var all := incoming.value;
    var transports: seq<TransportInfo> := [];
    var k := 0;
    while k < |all|
      invariant 0 <= k <= |all|
      invariant transports == Matching(all[..k], route)
    {
      assert all[..k + 1][..k] == all[..k];
      if Contains(all[k].name, route) {
        transports := transports + [all[k]];
      }
      k := k + 1;
    }
    assert all[..k] == all;
    assert forall tr :: tr in transports ==> Contains(tr.name, route) by { MatchingIsExact(all, route); }
    var first, found;
    if |transports| == 0 {
      assert Answers(NotFound, transports, now);
      if resp.Data? && AllToday(resp.transports, now) {
        TodayServesEarliest(NotFound, resp.transports, route, now);
      }
      return NotFound;
    } else if |transports| == 1 {
      first, found := transports[0], true;
      assert Selects(transports, now, 0);
    } else {
      first, found := PickFirst(transports, route, now);
    }
    answer := NotFound;
    assert first in transports;
    if Contains(first.name, route) || found {
      answer := Served(first);
    }
    assert Answers(answer, transports, now);
    if resp.Data? && AllToday(resp.transports, now) {
      TodayServesEarliest(answer, resp.transports, route, now);
    }
  }

  /** Exactly when the served arrival is the earliest: the first match arrives at the earliest time, or the
      earliest time does not show a smaller hour of day than the clock. */
  lemma ServedIsEarliest(list: seq<TransportInfo>, now: int, i: nat, e: TransportInfo)
    requires Selects(list, now, i) && Earliest(list, e)
    ensures Earliest(list, list[i]) <==> (list[0].arrive == e.arrive || HourOf(e.arrive) >= HourOf(now))
  {
    var j: nat :| j < |list| && list[j] == e;
    if list[0].arrive == e.arrive {
      assert Considered(list, 0, now);
    }
    if HourOf(e.arrive) >= HourOf(now) {
      assert Considered(list, j, now);
    }
    if Earliest(list, list[i]) {
      assert list[i].arrive == e.arrive;
    }
  }

  /** A bus scheduled at an instant, as the map service reports it. */
  function BusAt(name: string, at: int): Transport {
    Transport(name, [Line([Event(at, ZERO_TIME)], Frequency(ZERO_TIME, ZERO_TIME, 0))])
  }

  /** Shortly before midnight the earliest bus is passed over: asked at 23:30, when the map service reports
      buses at 00:20 and 00:10 of the next day in this order, the request can only serve the one at 00:20. */
  lemma MidnightSkipsTheNextBus(name: string)
    ensures var now := 23 * HOUR + 30 * MINUTE;
            var reported := [BusAt(name, DAY + 20 * MINUTE), BusAt(name, DAY + 10 * MINUTE)];
            var due, soon := Matching(Kept(reported, now), name), ExtractTransportInfo(reported[1], now);
            && |due| == 2 && soon == due[1] && Wanted(soon, name, now) && soon.arrive < due[0].arrive
            && (forall i: nat :: Selects(due, now, i) <==> i == 0)
  {
    var now := 23 * HOUR + 30 * MINUTE;
    var late, soon := BusAt(name, DAY + 20 * MINUTE), BusAt(name, DAY + 10 * MINUTE);
    var x, y := ExtractTransportInfo(late, now), ExtractTransportInfo(soon, now);
    assert Contains(name, name) by { assert name <= name[0..]; }
    TwoKept(late, soon, now);
    TwoMatching(x, y, name);
    assert HourOf(DAY + 10 * MINUTE) == 0 && HourOf(now) == 23;
    assert forall i: nat :: Considered([x, y], i, now) <==> i == 0;
  }

  lemma TwoKept(a: Transport, b: Transport, now: int)
    requires ExtractTransportInfo(a, now).arrive >= now && ExtractTransportInfo(b, now).arrive >= now
    ensures Kept([a, b], now) == [ExtractTransportInfo(a, now), ExtractTransportInfo(b, now)]
  {
    assert [a, b][..1] == [a] && [a][..0] == [];
    assert Kept([a], now) == [] + [ExtractTransportInfo(a, now)];
  }

  lemma TwoMatching(a: TransportInfo, b: TransportInfo, route: string)
    requires Contains(a.name, route) && Contains(b.name, route)
    ensures Matching([a, b], route) == [a, b]
  {
    assert [a, b][..1] == [a] && [a][..0] == [];
    assert Matching([a], route) == [] + [a];
  }
}
