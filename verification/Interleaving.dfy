/** The presence store at the granularity of its lock: any number of calls in progress, each at its own
    program point with its own copy of a record, scheduled in any order.

    A call that changes a record reads it under the read lock, releases the lock, samples the clock, and
    then calls the subscribers one by one and writes the record under the write lock. Nothing protects
    the stretch between the read and the write. An iteration of the sweep reads without any lock; the sweep
    itself is any series of such checks. A call that finds no record and returns at once is given a clock
    sample like the others, which nothing depends on. */
module Interleaving {
  import opened Wrappers
  import opened Devices
  import opened Runs

  /** What a call still has to do after it sampled the clock. */
  datatype Work = Deliver(slot: nat, d: Device) | Write(d: Device)

  datatype UpdatePc =
    | Begin
    | ReadLocked
    | ReadDone(found: Option<Device>)
    | Have(found: Option<Device>)
    | Working(todo: seq<Work>)
    | WriteLocked(d: Device, rest: seq<Work>)
    | WriteDone(rest: seq<Work>)
    | Finished

  /** Program points of `GetDevices`. `snap` is a history variable: the map at the moment of the emptiness
      test that returned early, or at the moment the read lock was taken. */
  datatype ListPc =
    | ListBegin
    | ListWait
    | Listing(snap: Registry, todo: set<string>, out: seq<Device>)
    | Listed(snap: Registry, out: seq<Device>)

  datatype Thread = Updating(req: Request, pc: UpdatePc) | Reading(lpc: ListPc)

  datatype Entry = Entry(t: nat, req: Request, now: int)

  /** The shared state and all calls made so far. The lock is a count of readers and a writer flag; `fans`
      is the number of subscribers; `log` lists the calls of subscribers. `order` is a history variable: it
      records each call at the moment it samples the clock. */
  datatype Config = Config(
    devices: Registry, readers: int, writer: bool, clock: int, fans: nat, log: seq<Delivery>,
    threads: map<nat, Thread>, order: seq<Entry>)

  /** A move of the scheduler. `Go` lets one call take its next step; `pick` is the key visited if the call
      is iterating over the map. A call that is blocked stays where it is. */
  datatype Step = Tick(to: int) | Update(t: nat, req: Request) | List(t: nat) | Go(t: nat, pick: string)

  function DeliverAll(n: nat, d: Device): (r: seq<Work>)
    ensures |r| == n && forall k :: 0 <= k < n ==> r[k] == Deliver(k, d)
  {
    seq(n, k requires 0 <= k < n => Deliver(k, d))
  }

  function Expand(n: nat, acts: seq<Action>): seq<Work>
    decreases |acts|
  {
    if acts == [] then []
    else (match acts[0] case Put(d) => [Write(d)] case Notify(d) => DeliverAll(n, d)) + Expand(n, acts[1..])
  }

  function Replace(c: Config, t: nat, th: Thread): Config {
    c.(threads := c.threads[t := th])
  }

  function GoUpdate(c: Config, t: nat, req: Request, pc: UpdatePc): Config {
    match pc
    case Begin =>
      if req.Check? then Replace(c, t, Updating(req, Have(Lookup(c.devices, req.id))))
      else if c.writer then c
      else Replace(c.(readers := c.readers + 1), t, Updating(req, ReadLocked))
    case ReadLocked => Replace(c, t, Updating(req, ReadDone(Lookup(c.devices, Target(req)))))
    case ReadDone(found) => Replace(c.(readers := c.readers - 1), t, Updating(req, Have(found)))
    case Have(found) =>
      Replace(c.(order := c.order + [Entry(t, req, c.clock)]), t,
              Updating(req, Working(Expand(c.fans, Respond(req, found, c.clock)))))
    case Working(todo) =>
      if todo == [] then Replace(c, t, Updating(req, Finished))
      else (
        match todo[0]
        case Deliver(slot, d) =>
          Replace(c.(log := c.log + [Delivery(slot, d)]), t, Updating(req, Working(todo[1..])))
        case Write(d) =>
          if c.writer || c.readers != 0 then c
          else Replace(c.(writer := true), t, Updating(req, WriteLocked(d, todo[1..]))))
    case WriteLocked(d, rest) =>
      Replace(c.(devices := c.devices[d.msg.id := d]), t, Updating(req, WriteDone(rest)))
    case WriteDone(rest) => Replace(c.(writer := false), t, Updating(req, Working(rest)))
    case Finished => c
  }

  function GoList(c: Config, t: nat, pc: ListPc, pick: string): Config {
    match pc
    case ListBegin =>
      if |c.devices| == 0 then Replace(c, t, Reading(Listed(c.devices, []))) else Replace(c, t, Reading(ListWait))
    case ListWait =>
      if c.writer then c
      else Replace(c.(readers := c.readers + 1), t, Reading(Listing(c.devices, c.devices.Keys, [])))
    case Listing(snap, todo, out) =>
      if todo == {} then Replace(c.(readers := c.readers - 1), t, Reading(Listed(snap, out)))
      else if pick in todo && pick in c.devices then
        Replace(c, t, Reading(Listing(snap, todo - {pick}, out + [c.devices[pick]])))
      else c
    case Listed(_, _) => c
  }

  function Exec(c: Config, st: Step): Config {
    match st
    case Tick(to) => if c.clock <= to then c.(clock := to) else c
    case Update(t, req) => if t in c.threads then c else Replace(c, t, Updating(req, Begin))
    case List(t) => if t in c.threads then c else Replace(c, t, Reading(ListBegin))
    case Go(t, pick) =>
      if t !in c.threads then c
      else (
        match c.threads[t]
        case Updating(req, pc) => GoUpdate(c, t, req, pc)
        case Reading(pc) => GoList(c, t, pc, pick))
  }

  /** The configuration after a schedule. */
  function After(c: Config, steps: seq<Step>): Config {
    if steps == [] then c else Exec(After(c, steps[..|steps| - 1]), steps[|steps| - 1])
  }

  function Start(devices: Registry, fans: nat, clock: int): Config {
    Config(devices, 0, false, clock, fans, [], map[], [])
  }

  /** What a step of a call that changes records leaves alone. */
  lemma GoUpdateFrame(c: Config, t: nat)
    requires t in c.threads && c.threads[t].Updating?
    ensures var c' := GoUpdate(c, t, c.threads[t].req, c.threads[t].pc);
            && c'.threads.Keys == c.threads.Keys && c'.fans == c.fans && c'.clock == c.clock
            && (forall u :: u in c.threads && u != t ==> c'.threads[u] == c.threads[u])
            && c'.threads[t].Updating? && c'.threads[t].req == c.threads[t].req
            && (!c.threads[t].pc.Have? ==> c'.order == c.order)
            && (!c.threads[t].pc.WriteLocked? ==> c'.devices == c.devices)
  {
    match c.threads[t].pc
    case Begin =>
    case ReadLocked =>
    case ReadDone(_) =>
    case Have(_) =>
    case Working(_) =>
    case WriteLocked(_, _) =>
    case WriteDone(_) =>
    case Finished =>
  }

  lemma {:induction false} AfterConcat(c: Config, a: seq<Step>, b: seq<Step>)
    ensures After(c, a + b) == After(After(c, a), b)
    decreases |b|
  {
    if b == [] {
      assert a + b == a;
    } else {
      AfterConcat(c, a, b[..|b| - 1]);
      assert (a + b)[..|a + b| - 1] == a + b[..|b| - 1];
    }
  }
}
