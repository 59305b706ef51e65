/** Arrivals at a bus stop, as the map service reports them and as the client keeps them. */
module Transit {
  import opened Wrappers
  import opened Times

  datatype Event = Event(scheduled: int, estimated: int)

  datatype Frequency = Frequency(begin: int, end: int, value: int)

  datatype Line = Line(events: seq<Event>, frequency: Frequency)

  /** One means of transport with its threads. */
  datatype Transport = Transport(name: string, threads: seq<Line>)

  datatype TransportInfo = TransportInfo(name: string, arrive: int, how: string)

  /** The answer of the map service: an error, an answer without data, or a list. */
  datatype Response = Failed | NoData | Data(transports: seq<Transport>)

  const NO_INFO := TransportInfo("", ZERO_TIME, "")

  function ExtractTransportInfo(tr: Transport, now: int): TransportInfo {
    if |tr.threads| == 0 then NO_INFO
    else
      var first := tr.threads[0];
      if |first.events| > 0 then
        if first.events[0].scheduled != ZERO_TIME
        then TransportInfo(tr.name, first.events[0].scheduled, "scheduled (best)")
        else TransportInfo(tr.name, first.events[0].estimated, "estimated (good)")
      else if now > first.frequency.end then TransportInfo(tr.name, first.frequency.begin, "end (worst)")
      else TransportInfo(tr.name, now + SECOND * first.frequency.value, "frequency (so-so)")
  }

  /** The arrivals not yet past, in the service's order. */
  function Kept(transports: seq<Transport>, now: int): seq<TransportInfo> {
    if transports == [] then []
    else
      var rest := Kept(transports[..|transports| - 1], now);
      var ti := ExtractTransportInfo(transports[|transports| - 1], now);
      if now > ti.arrive then rest else rest + [ti]
  }

  /** What an entry of the map service says about the next arrival, read at `now`: the first event of the first
      line, by its scheduled time if it has one and else by its estimated time; without events, the time that
      the frequency promises, or the beginning of the service window once that is over; nothing without lines. */
  ghost predicate Reports(tr: Transport, now: int, ti: TransportInfo) {
    if tr.threads == [] then ti == TransportInfo("", ZERO_TIME, "")
    else
      var events, frequency := tr.threads[0].events, tr.threads[0].frequency;
      && ti.name == tr.name
      && (events != [] && events[0].scheduled != ZERO_TIME ==>
            ti.arrive == events[0].scheduled && ti.how == "scheduled (best)")
      && (events != [] && events[0].scheduled == ZERO_TIME ==>
            ti.arrive == events[0].estimated && ti.how == "estimated (good)")
      && (events == [] && now <= frequency.end ==>
            ti.arrive == now + frequency.value * SECOND && ti.how == "frequency (so-so)")
      && (events == [] && now > frequency.end ==> ti.arrive == frequency.begin && ti.how == "end (worst)")
  }

  lemma ReportIsExtracted(tr: Transport, now: int, ti: TransportInfo)
    ensures Reports(tr, now, ti) <==> ti == ExtractTransportInfo(tr, now)
  {
  }

  /** `list` holds, in the order of `transports`, what its entries at `places` report, which are the entries that
      report an arrival not yet past. */
  ghost predicate ListsReports(list: seq<TransportInfo>, transports: seq<Transport>, now: int, places: seq<nat>) {
    && |places| == |list|
    && (forall i, j :: 0 <= i < j < |places| ==> places[i] < places[j])
    && (forall k :: 0 <= k < |places| ==>
          places[k] < |transports| && Reports(transports[places[k]], now, list[k]) && list[k].arrive >= now)
    && (forall i: nat, ti :: i < |transports| && i !in places && Reports(transports[i], now, ti) ==> ti.arrive < now)
  }

  lemma {:induction false} KeptInOrder(transports: seq<Transport>, now: int) returns (places: seq<nat>)
    ensures ListsReports(Kept(transports, now), transports, now, places)
    decreases |transports|
  {
    if transports == [] {
      places := [];
    } else {
      var init, last := transports[..|transports| - 1], transports[|transports| - 1];
      places := KeptInOrder(init, now);
      assert transports == init + [last];
      OneMoreReport(Kept(init, now), init, last, now, places);
      if now <= ExtractTransportInfo(last, now).arrive {
        places := places + [|init|];
      }
    }
  }

  lemma OneMoreReport(list: seq<TransportInfo>, init: seq<Transport>, last: Transport, now: int, places: seq<nat>)
    requires ListsReports(list, init, now, places)
    ensures var ti := ExtractTransportInfo(last, now);
            if now > ti.arrive then ListsReports(list, init + [last], now, places)
            else ListsReports(list + [ti], init + [last], now, places + [|init|])
  {
    var transports, ti := init + [last], ExtractTransportInfo(last, now);
    ReportIsExtracted(last, now, ti);
    forall i: nat, ti' | i < |transports| && Reports(transports[i], now, ti')
      ensures i < |init| ==> transports[i] == init[i]
      ensures i == |init| ==> ti' == ti
    {
      if i == |init| {
        ReportIsExtracted(last, now, ti');
      }
    }
    assert forall k :: 0 <= k < |places| ==> transports[places[k]] == init[places[k]];
  }

  /** `None` stands for the error the source passes on. */
  method Fetch(resp: Response, now: int) returns (incoming: Option<seq<TransportInfo>>)
    ensures incoming == match resp
                        case Failed => None
                        case NoData => Some([])
                        case Data(transports) => Some(Kept(transports, now))
    ensures resp.Data? ==>
              incoming.Some? && exists places :: ListsReports(incoming.value, resp.transports, now, places)
  {
    if resp.Data? {
      ghost var places := KeptInOrder(resp.transports, now);
    }
    if resp.Failed? {
      return None;
    }
    if resp.NoData? || |resp.transports| == 0 {
      return Some([]);
    }
    var list: seq<TransportInfo> := [];
    var k := 0;
    while k < |resp.transports|
      invariant 0 <= k <= |resp.transports|
      invariant list == Kept(resp.transports[..k], now)
    {
      var ti := ExtractTransportInfo(resp.transports[k], now);
      assert resp.transports[..k + 1][..k] == resp.transports[..k];
      k := k + 1;
      if now > ti.arrive {
        continue;
      }
      list := list + [ti];
    }
    assert resp.transports[..k] == resp.transports;
    return Some(list);
  }

  /** `Fetch` keeps exactly the arrivals that are not past. */
  lemma {:induction false} KeptIsExact(transports: seq<Transport>, now: int)
    ensures forall ti :: ti in Kept(transports, now) <==>
              ti.arrive >= now && exists tr :: tr in transports && ti == ExtractTransportInfo(tr, now)
    decreases |transports|
  {
    if transports != [] {
      var init, last := transports[..|transports| - 1], transports[|transports| - 1];
      KeptIsExact(init, now);
      assert forall tr :: tr in transports <==> tr in init || tr == last;
    }
  }

  /** A line whose service window is over falls back to the start of that window, and `Fetch` then drops it
      unless the window is to start again: with begin <= end, always. */
  lemma EndedServiceIsDropped(tr: Transport, now: int)
    requires |tr.threads| > 0 && |tr.threads[0].events| == 0 && now > tr.threads[0].frequency.end
    ensures var f := tr.threads[0].frequency;
            && (Kept([tr], now) != [] <==> f.begin >= now)
            && (f.begin <= f.end ==> Kept([tr], now) == [])
  {
    assert [tr][..0] == [];
    var ti := ExtractTransportInfo(tr, now);
    assert Kept([tr], now) == if now > ti.arrive then [] else [] + [ti];
  }
}
