/** Records of the presence store, and what one call does to one record.

    Every call of the store reads the record of one device, samples the clock, and then performs a
    short list of actions: tell the subscribers, write the record back. `Respond` gives that list.
    The sequential store performs it at once; the interleaved model performs it step by step. */
module Devices {
  import opened Wrappers
  import opened Times

  /** A ping message (`kind` is the source's `Type`). */
  datatype Message = Message(
    id: string, name: string, kind: string, revision: string, branch: string, buildTime: int, ip: string)

  datatype Device = Device(msg: Message, isOnline: bool, createdAt: int, updatedAt: int, pingedAt: int)

  type Registry = map<string, Device>

  /** The length of the ids the HTTP handler lets in. */
  const ID_LENGTH := 64

  /** The calls that change the store. `Check` is one iteration of the background sweep. */
  datatype Request = Ping(m: Message) | PingDevice(id: string) | MarkOffline(id: string) | Check(id: string)

  datatype Action = Notify(d: Device) | Put(d: Device)

  function Target(r: Request): string {
    match r
    case Ping(m) => m.id
    case PingDevice(id) => id
    case MarkOffline(id) => id
    case Check(id) => id
  }

  function Lookup(devices: Registry, id: string): Option<Device> {
    if id in devices then Some(devices[id]) else None
  }

  /** A ping that a device of a given type takes: a message of that type, or a ping by id. */
  predicate Accepts(r: Request, kind: string) {
    r.PingDevice? || (r.Ping? && r.m.kind == kind)
  }

  /** More than a minute has passed since the last ping. */
  predicate Stale(d: Device, now: int) {
    now - d.pingedAt > MINUTE
  }

  /** A known device after a ping of its own type, before its online flag is looked at.
      The stored branch receives the message's revision: that is what the source assigns. */
  function Refreshed(d: Device, m: Message, now: int): Device {
    var d0 := d.(pingedAt := now);
    var d1 := if |m.revision| > 0 && d0.msg.revision != m.revision
              then d0.(msg := d0.msg.(revision := m.revision), updatedAt := now) else d0;
    var d2 := if |m.branch| > 0 && d1.msg.branch != m.branch
              then d1.(msg := d1.msg.(branch := m.revision), updatedAt := now) else d1;
    if m.buildTime != ZERO_TIME && d2.msg.buildTime != m.buildTime
    then d2.(msg := d2.msg.(buildTime := m.buildTime)) else d2
  }

  /** The actions of one call, in the source's order, given the record it read and its clock sample. */
  function Respond(r: Request, found: Option<Device>, now: int): seq<Action> {
    match r
    case Ping(m) =>
      if found.None? then
        var d := Device(m, true, now, now, now);
        [Put(d), Notify(d)]
      else if found.value.msg.kind != m.kind then
        []
      else
        var d := Refreshed(found.value, m, now);
        if d.isOnline then [Put(d)] else [Notify(d.(isOnline := true)), Put(d.(isOnline := true))]
    case PingDevice(_) =>
      if found.None? then [] else
      var d := found.value.(pingedAt := now);
      if d.isOnline then [Put(d)]
      else [Notify(d.(isOnline := true, updatedAt := now)), Put(d.(isOnline := true, updatedAt := now))]
    case MarkOffline(_) =>
      if found.None? then [] else
      var d := found.value;
      if !d.isOnline then [Put(d)]
      else [Notify(d.(isOnline := false, updatedAt := now)), Put(d.(isOnline := false, updatedAt := now))]
    case Check(_) =>
      if found.None? || !Stale(found.value, now) || !found.value.isOnline then []
      else [Notify(found.value.(isOnline := false)), Put(found.value.(isOnline := false))]
  }

  /** The record after the actions of one call, for the device the call is about. */
  function Settled(r: Request, found: Option<Device>, now: int): Option<Device> {
    var acts := Respond(r, found, now);
    if acts == [] then found else Some(acts[0].d)
  }

  /** The notifications of one call. */
  function Told(r: Request, found: Option<Device>, now: int): seq<Device> {
    var acts := Respond(r, found, now);
    if |acts| == 2 then [acts[0].d] else []
  }

  predicate Online(found: Option<Device>) {
    found.Some? && found.value.isOnline
  }

  predicate HasId(found: Option<Device>, id: string) {
    found.Some? ==> found.value.msg.id == id
  }

  /** A call notifies exactly when it flips the online state, it notifies once and with the record it
      stores, and everything it stores or announces is about the device it was called for. */
  lemma RespondIsAnEdge(r: Request, found: Option<Device>, now: int)
    requires HasId(found, Target(r))
    ensures HasId(Settled(r, found, now), Target(r))
    ensures forall a :: a in Respond(r, found, now) ==>
              a.d.msg.id == Target(r) && Settled(r, found, now) == Some(a.d)
    ensures (Told(r, found, now) == []) <==> (Online(Settled(r, found, now)) == Online(found))
    ensures Told(r, found, now) != [] ==> Told(r, found, now) == [Settled(r, found, now).value]
    ensures found.Some? ==> Settled(r, found, now).Some?
  {
  }

  /** Who acts at all: a ping of an unregistered device, a ping that a registered one accepts, an explicit offline
      mark (even of an offline device), and a check of an online device last pinged more than a minute ago. */
  lemma WhoActs(r: Request, found: Option<Device>, now: int)
    ensures Respond(r, found, now) != [] <==>
              match r
              case Ping(m) => found.None? || found.value.msg.kind == m.kind
              case PingDevice(_) => found.Some?
              case MarkOffline(_) => found.Some?
              case Check(_) => found.Some? && found.value.isOnline && now - found.value.pingedAt > MINUTE
  {
  }

  /** An unregistered device becomes what its first ping says, online, with all times those of the ping; no other
      call registers a device. */
  lemma RecordOfNewDevice(r: Request, now: int)
    ensures var after := Settled(r, None, now);
            if r.Ping?
            then after.Some? && after.value.msg == r.m && after.value.isOnline
                 && after.value.createdAt == after.value.updatedAt == after.value.pingedAt == now
            else after.None?
  {
  }

  /** What every call makes of a registered device, field by field. Only a ping that the device accepts reaches
      the message fields and the ping time: a revision or a build time that it carries replaces the stored one,
      and a branch that it carries and that differs from the stored one puts the *revision* it carries in its
      place. Identity, address and registration time never change; the update time does on such news and on an
      explicit change of state. */
  lemma RecordOfKnownDevice(r: Request, d: Device, now: int)
    ensures var after := Settled(r, Some(d), now);
            var message := r.Ping? && r.m.kind == d.msg.kind;
            && after.Some?
            && var e := after.value;
            && e.msg.id == d.msg.id && e.msg.name == d.msg.name && e.msg.kind == d.msg.kind && e.msg.ip == d.msg.ip
            && e.msg.revision == (if message && r.m.revision != "" then r.m.revision else d.msg.revision)
            && e.msg.branch == (if message && r.m.branch != "" && r.m.branch != d.msg.branch then r.m.revision
                                else d.msg.branch)
            && e.msg.buildTime == (if message && r.m.buildTime != ZERO_TIME then r.m.buildTime else d.msg.buildTime)
            && e.createdAt == d.createdAt
            && e.updatedAt == (if (message && r.m.revision != "" && r.m.revision != d.msg.revision)
                                  || (message && r.m.branch != "" && r.m.branch != d.msg.branch)
                                  || (r.PingDevice? && !d.isOnline) || (r.MarkOffline? && d.isOnline)
                               then now else d.updatedAt)
            && e.pingedAt == (if message || r.PingDevice? then now else d.pingedAt)
            && e.isOnline == (if message || r.PingDevice? then true
                              else if r.MarkOffline? || (r.Check? && now - d.pingedAt > MINUTE) then false
                              else d.isOnline)
  {
  }

  /** A new device is stored before it is announced; every other change is announced before it is stored. */
  lemma AnnounceOrder(r: Request, found: Option<Device>, now: int)
    requires Told(r, found, now) != []
    ensures Respond(r, found, now)[0].Put? <==> found.None?
    ensures Respond(r, found, now)[1].Notify? <==> found.None?
  {
  }

  /** A call brings news of a stored device: another revision or branch, or an explicit change of state. The
      sweep never does, nor does coming back online by an ordinary ping. */
  predicate BringsNews(r: Request, d: Device) {
    match r
    case Ping(m) =>
      && m.kind == d.msg.kind
      && ((m.revision != "" && m.revision != d.msg.revision) || (m.branch != "" && m.branch != d.msg.branch))
    case PingDevice(_) => !d.isOnline
    case MarkOffline(_) => d.isOnline
    case Check(_) => false
  }

  lemma NewsSetsUpdatedAt(r: Request, d: Device, now: int)
    ensures var after := Settled(r, Some(d), now);
            after.Some? && after.value.updatedAt == if BringsNews(r, d) then now else d.updatedAt
  {
  }

  predicate IsResponse(acts: seq<Action>, d: Device) {
    acts == [] || acts == [Put(d)] || acts == [Put(d), Notify(d)] || acts == [Notify(d), Put(d)]
  }

  /** A call does nothing, stores a record, or stores and announces it, in one order or the other. */
  lemma RespondShape(r: Request, found: Option<Device>, now: int, d: Device)
    requires var acts := Respond(r, found, now); acts != [] ==> acts[0].d == d
    ensures IsResponse(Respond(r, found, now), d)
  {
  }

  /** A ping of a known device that carries a branch leaves that branch in the record exactly when it
      was stored already or happens to equal the revision sent along. */
  lemma BranchFollowsPing(d: Device, m: Message, now: int)
    requires d.msg.kind == m.kind && |m.branch| > 0
    ensures Settled(Ping(m), Some(d), now).value.msg.branch == m.branch
            <==> (d.msg.branch == m.branch || m.revision == m.branch)
  {
  }

  /** The branch sent by a ping is lost, for any id the handler lets in: the record ends with an empty branch. */
  lemma BranchIsLost(id: string)
    requires |id| == ID_LENGTH
    ensures var d := Device(Message(id, "", "", "", "main", 0, ""), true, 0, 0, 0);
            Settled(Ping(d.msg.(branch := "dev")), Some(d), 1).value.msg.branch == ""
  {
    assert "main" != "dev" by { assert |"main"| != |"dev"|; }
  }
}
