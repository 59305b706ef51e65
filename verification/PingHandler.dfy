/** The HTTP handler through which pings reach the store. */
module PingHandler {
  import opened Wrappers
  import opened Devices
  import opened Runs
  import opened PresenceStore

  datatype Status = Served | NotDecoded | BadRequest

  ghost predicate FullIds(devices: Registry) {
    forall id :: id in devices ==> |id| == ID_LENGTH
  }

  /** `body` is the decoded message, if the request body could be decoded; `forwarded` is the value of the
      forwarding header and `remoteHost` the host part of the peer address (each empty if there is none). */
  method HandlePingMessage(store: Store, body: Option<Message>, forwarded: string, remoteHost: string)
    returns (status: Status)
    requires KeysMatch(store.devices)
    modifies store, store.clock
    ensures status == if body.None? then NotDecoded else if |body.value.id| != ID_LENGTH then BadRequest else Served
    ensures status != Served ==> store.Contents() == old(store.Contents())
    ensures status == Served ==>
              store.Contents() == Apply(old(store.Contents()),
                Call(Ping(body.value.(ip := if |forwarded| == 0 then remoteHost else forwarded)), store.clock.time))
    ensures KeysMatch(store.devices)
    ensures old(FullIds(store.devices)) ==> FullIds(store.devices)
  {
    if body.None? {
      return NotDecoded;
    }
    var msg := body.value;
    if |msg.id| != ID_LENGTH {
      return BadRequest;
    }
    var addr := forwarded;
    if |addr| == 0 {
      addr := remoteHost;
    }
    msg := msg.(ip := addr);
    ghost var before := store.Contents();
    store.Ping(msg);
    ApplyCall(before, Ping(msg), store.clock.time);
    status := Served;
  }
}
