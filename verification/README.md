# Verified model of flightcontrolcenter

A Dafny 4.11 model of the three parts of flightcontrolcenter that carry logic of their own, with proofs about
them. `dafny verify dfyconfig.toml` checks everything.

**The device presence store** (`internal/ping/store.go`) keeps a record per device, marks devices offline when
they have not pinged for more than a minute, and tells its subscribers about every change of state. It is
modelled twice, on one definition of what a call does to a record (`Devices.Respond`).

- *Sequentially.* `PresenceStore.Store` is the object with its fields, each method one atomic step; every
  method is proved to do what `Runs.Apply` or `Runs.Run` says. The theorems about whole runs are in
  `Isolation` (alternation, non-interference), `Deliveries` (what a subscriber hears), `Sweeps` (every visiting
  order), `Timing` (detection latency, no false alarm), `SweepLoop` (how soon the background loop finds a silent
  device) and `History` (a record is determined by its pings).
- *At the granularity of the lock.* `Interleaving` runs any number of calls under an arbitrary scheduler: a
  reader count and a writer flag, a program counter and a private copy of the record per call, and clock
  samples taken after the read, one step per subscriber call. A schedule is any sequence of scheduler moves; a
  call that is blocked stays where it is. `LockSafety` and `Snapshots` hold for every schedule.
  `Serialisability` relates the two models: if no two calls on one device overlap, each counting from its read
  of the record to its last action, every schedule amounts to a sequential run, and `Realisability` adds that
  every sequential run is one of the schedules. `TimedSchedules` carries the detection latency and the absence of
  early alarms over to such schedules. `Progress` says who waits for the lock, and that every call under way can
  always be brought to its return. `Overlap` shows what goes wrong without that condition. `Pairs` says exactly
  which two calls, at which clock samples, may overlap without harm to what subscribers hear, and `SerialPairs`
  exactly which two always end as if one had been made after the other. `Races` says which steps read the map
  while another call writes to it.

**DNS reconciliation** (`internal/vpsmanager/client.go`): `Dns.UpdateDNS` with its index loop and update loop,
against a server whose requests may fail at any point; `DnsProperties` states what is left on the server after
success, after a failure at any PUT, and after retries.

**Next-bus selection** (`internal/yandex/service.go`, `internal/api/fcchttp/handlers.go`): `Transit` and
`NextBus`, composed end to end.

## Where the code does not do what its names suggest

- A ping that carries a new branch stores the message's *revision* as the branch (store.go:132).
  `Devices.BranchIsLost` gives a ping after which the stored branch is empty; `Devices.BranchFollowsPing` says
  exactly when the branch sent is the branch stored.
- Overlapping calls on one device: two pings of an offline device announce it online twice in a row
  (`Overlap.OverlapBreaksAlternation`), two first pings register and announce it twice
  (`Overlap.OverlapRegistersTwice`), a device marked offline, or checked more than a minute late, between the store
  and the announcement of its first ping is heard offline first and online last
  (`Overlap.OverlapReordersAnnouncements`), and a sweep can overwrite a ping so that a device that has just pinged
  is stored offline (`Overlap.OverlapLosesPing`). `Pairs.OverlapIsHarmlessIff` gives the exact condition, on the
  record found, the two calls and their clock samples, under which subscribers are not misled.
- Overlapping pings of an online device mislead nobody but can lose each other's changes.
  `SerialPairs.OverlapIsSerialIff` says exactly when they cannot, `SerialPairs.PingByIdCanUndoNews` spells it out for
  a ping by id, which can undo any news that an overlapping message brings, and `SerialPairs.MessagesCommuteIff` for
  two messages, in their revision, branch and build time. The same message sent twice at two instants, with a new
  revision, is among those that can (`SerialPairs.RepeatedNewsIsLost`).
- The sweep and the emptiness test of `GetDevices` read the map without the lock. `Races.RacesAreUnlockedReads` shows
  that they are the only reads that can coincide with a write, and `Races.RacesHappen` that they do.
- Around midnight the next bus can be passed over, because hours of the day are compared (handlers.go:105).
  `NextBus.MidnightSkipsTheNextBus` is such an answer of the map service; `NextBus.ServedIsEarliest` says exactly when the served
  arrival is the earliest.
- An arrival labelled "end (worst)" is always past, unless its window begins after it ends, so `Fetch` drops it
  (`Transit.EndedServiceIsDropped`).

## Model

| member | source | states |
|---|---|---|
| `Devices.RespondIsAnEdge` | internal/ping/store.go:89-180 | a call notifies if and only if it flips the stored online state, once, with the record it stores, and only about the device it was called for; a stored device stays stored |
| `Devices.WhoActs` | internal/ping/store.go:89-180 | a call acts if and only if it is a ping of an unregistered device or one that the device accepts, an offline mark or a ping by id of a stored device, or a check of an online device last pinged more than a minute ago |
| `Devices.RecordOfNewDevice` | internal/ping/store.go:102-117 | a first ping registers its message, online, with all times those of the ping; nothing else registers a device |
| `Devices.RecordOfKnownDevice` | internal/ping/store.go:89-180 | every field of a stored record after every call: what an accepted ping replaces, when the state and the times change, and that the rest stands |
| `Devices.AnnounceOrder` | internal/ping/store.go:114-146 | a new device is stored before it is announced, every other change is announced before it is stored |
| `Devices.NewsSetsUpdatedAt` | internal/ping/store.go:125-178 | the update time moves exactly on a new revision or branch of an accepted ping and on an explicit change of state, never by the sweep |
| `Devices.BranchFollowsPing` | internal/ping/store.go:131-134 | the branch sent is the branch stored if and only if it was stored already or equals the revision sent |
| `Devices.BranchIsLost` | internal/ping/store.go:131-134 | a concrete ping, for any id of length 64, after which the stored branch is empty |
| `Runs.ApplyIsLocal` | internal/ping/store.go:89-180 | one operation changes the record, the announcements and the subscriber calls of its own device, as that device alone would see it, and of no other |
| `Runs.RunIsLocal` | internal/ping/store.go:89-222 | a whole run of the store is, for each device, the run of that device alone |
| `PresenceStore.Store.constructor` | internal/ping/store.go:34-45 | a new store is empty |
| `PresenceStore.Store.Subscribe` | internal/ping/store.go:47-49 | the callback joins at the end of the list |
| `PresenceStore.Store.NotifyAll` | internal/ping/store.go:51-59 | every subscriber is called once with the device, in subscription order |
| `PresenceStore.Store.UpdateDevicesState` | internal/ping/store.go:70-98 | the sweep visits every key once, in some order, with clock samples that do not go back, and amounts to the run of those checks |
| `PresenceStore.Store.CheckDevice` | internal/ping/store.go:89-97 | one iteration of the sweep is one `Check` of the sequential model |
| `PresenceStore.Store.Ping` | internal/ping/store.go:101-147 | a ping is one `Ping` of the sequential model, at a clock sample taken in the call |
| `PresenceStore.Store.PingDevice` | internal/ping/store.go:150-164 | likewise for a ping by id |
| `PresenceStore.Store.MarkOffline` | internal/ping/store.go:167-180 | likewise for an explicit offline mark |
| `PresenceStore.Store.GetDevices` | internal/ping/store.go:183-197 | the list names every stored record exactly once and no id twice |
| `PresenceStore.Store.GetDevice` | internal/ping/store.go:200-215 | the record stored under the id, or none |
| `PresenceStore.Store.UpsertDevice` | internal/ping/store.go:205-222 | the record is stored under its own id |
| `Isolation.Alternation` | internal/ping/store.go:89-180 | in every run the notifications about one device alternate, the first being the opposite of the stored state, and the last one is the state stored at the end |
| `Isolation.NonInterference` | internal/ping/store.go:89-222 | runs with the same calls about a device and the same subscriptions give it the same record, announcements and subscriber calls, whatever else they contain |
| `Deliveries.RunBroadcasts` | internal/ping/store.go:47-59 | in every run the subscriber calls are exactly the announcements in order, each fanned out in subscription order to those subscribed before it |
| `Deliveries.SubscriberReceivesSuffix` | internal/ping/store.go:47-59 | a subscriber has received exactly what was announced since it subscribed |
| `Sweeps.SweptMap` | internal/ping/store.go:89-97 | after a sweep in any order each visited record is offline if it was online and stale at its visit and unchanged otherwise, and all others are unchanged |
| `Sweeps.SweepTells` | internal/ping/store.go:89-97 | the announcements and subscriber calls of a sweep are those of the devices it turned offline, in visiting order |
| `Sweeps.AlarmsAreExact` | internal/ping/store.go:91-95 | exactly one announcement per device turned offline and none for any other |
| `Sweeps.SweepCatchesTheStale` | internal/ping/store.go:89-97 | with a clock that does not go back every online device stale at the first check ends offline, and any device changed was stale when checked |
| `Sweeps.OrderDoesNotMatter` | internal/ping/store.go:89-97 | with a fixed clock neither the final map nor the set of announcements depends on the visiting order |
| `Timing.UpdatedAtIsLastNews` | internal/ping/store.go:125-178 | the update time is the time of the last call that brought news |
| `Timing.Silence` | internal/ping/store.go:89-180 | without an accepted ping the ping time stands and nothing brings the device online |
| `Timing.MarkedStaysOffline` | internal/ping/store.go:167-180 | a stored device marked offline stays offline, its ping time untouched, until its next accepted ping |
| `Timing.DetectionLatency` | internal/ping/store.go:61-97 | with checks at most 60 s + d apart, a device last pinged at p is stored offline from p + 120 s + d on, until its next accepted ping |
| `SweepLoop.SweepIsTurn` | internal/ping/store.go:89-97 | a sweep as `UpdateDevicesState` performs it, anywhere in a run, is a turn of the loop |
| `SweepLoop.LoopDetects` | internal/ping/store.go:61-97 | in any run with such a loop, a device last pinged at p, first ping included, is stored offline from p + 120 s + two sweeps + the lag on, until its next accepted ping |
| `Timing.NoEarlyAlarm` | internal/ping/store.go:91-95 | a check within a minute of the last accepted ping changes nothing |
| `Timing.NoFalseAlarm` | internal/ping/store.go:89-97 | between accepted pings never more than a minute apart no check stores or announces anything |
| `Timing.LivelyStaysOnline` | internal/ping/store.go:89-164 | such a device, unless marked offline, stays online and silent |
| `History.HistoryRefinement` | internal/ping/store.go:101-164 | a device is stored if and only if it pinged, with identity and creation time of the first ping, ping time of the last accepted one, last non-empty revision and last non-zero build time, and the branch that its pings leave one after the other |
| `History.RejectedPingLeavesNoTrace` | internal/ping/store.go:120-123 | dropping a ping of another type from a run changes nothing |
| `LockSafety.StepKeepsLock` | internal/ping/store.go:188-221 | every step keeps the lock sound: the reader count is the number of calls reading, at most one call writes, and not while one reads |
| `LockSafety.EveryScheduleIsSafe` | internal/ping/store.go:102-180 | in every interleaving, overlapping calls included, each record is stored under its own id with creation time not after update and ping time and none in the future, and no key is lost |
| `LockSafety.RespondTimes` | internal/ping/store.go:102-111 | because the clock is sampled after the read, what a call stores is dated no earlier than what it read |
| `LockSafety.KeysNeverShrink` | internal/ping/store.go:217-222 | the keys stored at one moment are stored at every later one |
| `LockSafety.OnlyLongIdsStored` | internal/api/fcchttp/handlers.go:189-209 | if all pings carry ids of length 64, so does every stored record, in every interleaving |
| `Snapshots.WriteLockExcludes` | internal/ping/store.go:188-221 | while a call holds the write lock, nobody holds the read lock and no other call holds the write lock |
| `Snapshots.GetDevicesReturnsASnapshot` | internal/ping/store.go:183-197 | in every interleaving the list returned names, each once, the devices of the map at one instant at which the call was under way |
| `Progress.BlockedIff` | internal/ping/store.go:183-221 | a call cannot take its next step if and only if it has returned, waits to read while a call writes, or waits to write while a call reads or writes |
| `Progress.GetDevicesReturns` | internal/ping/store.go:183-197 | whenever no call holds the write lock, a listing call under way is brought to its return by moves of its own, with the list of the map of that moment |
| `Progress.EveryCallCanReturn` | internal/ping/store.go:89-221 | no deadlock: from every configuration a schedule can reach, further moves bring all calls to their return |
| `Races.UnlockedReadsGoThrough` | internal/ping/store.go:89-187 | a check and the emptiness test get what the map holds at the moment, whatever the state of the lock |
| `Races.RacesAreUnlockedReads` | internal/ping/store.go:89-221 | in every interleaving, the outcome of a step depends on the map while another call is inside its write section if and only if it is a check of the sweep reading its record or the emptiness test of `GetDevices` |
| `Races.RacesHappen` | internal/ping/store.go:89-90 | a schedule after which both reads are open while a registration is inside its write section |
| `Serial.ExpandMatches` | internal/ping/store.go:101-180 | the steps a call takes after its clock sample add up to what the sequential call does at once |
| `Serialisability.Serialisable` | internal/ping/store.go:89-222 | if no two calls on one device overlap, each counting from its read to its last action, the final map and each device's subscriber calls are those of a serial run of the same calls with the same clock samples |
| `Serialisability.InterleavedAlternation` | internal/ping/store.go:89-180 | under the same condition, what subscribers hear of a device alternates and ends with the stored state |
| `Serialisability.RealTimeOrder` | internal/ping/store.go:89-222 | a call that had returned before another was made comes before it in the serial run |
| `Realisability.EverySerialRunIsReachable` | internal/ping/store.go:89-222 | every serial run is the serial run of some interleaving without overlap, which ends with the same map |
| `TimedSchedules.RecordAtRest` | internal/ping/store.go:89-222 | without overlap, at every moment at which no call has work left on a device, its record and its subscriber calls are those of the serial run so far |
| `TimedSchedules.DetectionInSchedules` | internal/ping/store.go:61-97 | without overlap, with checks at most 60 s + d apart, a device last pinged at p is stored offline at every such moment later than p + 120 s + d, until its next accepted ping |
| `TimedSchedules.NoEarlyAlarmInSchedules` | internal/ping/store.go:91-95 | without overlap, a check that samples the clock within a minute of the last accepted ping changes nothing and calls nobody |
| `Overlap.OverlapBreaksAlternation` | internal/ping/store.go:101-164 | two overlapping pings that an offline device accepts, by message or by id, announce it online twice in a row to every subscriber, whatever their clock samples |
| `Overlap.OverlapRegistersTwice` | internal/ping/store.go:101-117 | two overlapping first pings register the device twice and announce it twice |
| `Overlap.OverlapReordersAnnouncements` | internal/ping/store.go:89-176 | a device marked offline, or checked more than a minute after the ping's clock sample, between the store and the announcement of its first ping is heard offline, then online, and is stored offline |
| `Overlap.OverlapLosesPing` | internal/ping/store.go:89-147 | a sweep overlapping a ping message of the stored type leaves a device that has just pinged stored offline, while it ends online in both serial orders of the two calls |
| `Pairs.OverlapIsHarmlessIff` | internal/ping/store.go:89-180 | two calls on one device with given clock samples: every interleaving that completes them keeps what each subscriber hears alternating and ending with the stored state if and only if, for a stored device, one call does nothing to the record found or neither tells, and for an unregistered one, they are not a ping followed by a ping, an offline mark or a check more than a minute later |
| `SerialPairs.OverlapIsSerialIff` | internal/ping/store.go:89-222 | every interleaving that completes the two calls with these clock samples stores the record and makes the subscriber calls of one of their two serial orders if and only if they are harmless in that sense and, where both write, what either leaves by itself is what both leave in one order or the other |
| `SerialPairs.PingByIdCanUndoNews` | internal/ping/store.go:119-163 | a ping by id and an accepted message for an online device are harmless in that sense, and serialisable if and only if the message carries nothing new |
| `SerialPairs.MessagesCommuteIff` | internal/ping/store.go:119-146 | two accepted messages for an online device are harmless in that sense, and serialisable if and only if each overrides the other in revision, branch, build time and update time, or at equal times leaves nothing for it to add |
| `SerialPairs.RepeatedNewsIsLost` | internal/ping/store.go:119-146 | the same message sent twice at two instants, with a new revision and no new branch, is not serialisable |
| `PingHandler.HandlePingMessage` | internal/api/fcchttp/handlers.go:176-211 | only a decoded message with an id of length 64 reaches the store, with the forwarded or else the peer address; otherwise the store is untouched |
| `Dns.BuildIndex` | internal/vpsmanager/client.go:100-111 | the index maps exactly the hosts of A records, each to its last A record, and holds A records only |
| `Dns.PlanInOrder` | internal/vpsmanager/client.go:115-141 | the plan holds one PUT for each name that is the host of an A record once a dot is added, in the order of the names, to the last such record |
| `Dns.UpdateRecords` | internal/vpsmanager/client.go:113-141 | the PUTs sent are, for each name in order, one to the last A record of the name with a dot; on failure the last PUT sent is the next of that plan and was refused, those before it were accepted, and none follows |
| `Dns.UpdateDNS` | internal/vpsmanager/client.go:76-142 | the read requests made and the reason of every error: not prepared, a request refused, or no zone; the PUTs sent and accepted are the whole plan for the namespace's names on success, its accepted part and the one refused after a failed PUT, and none after any other error; with everything granted, success |
| `DnsProperties.EffectAndFrame` | internal/vpsmanager/client.go:115-161 | after success the last A record of each name holds the address and every other record is unchanged |
| `DnsProperties.FailureStopsAtAName` | internal/vpsmanager/client.go:135-138 | after a failed PUT exactly the names before some name with an A record have been dealt with |
| `DnsProperties.AttemptIsHarmless` | internal/vpsmanager/client.go:115-141 | an attempt, complete or not, changes neither the plan nor where a full run ends |
| `DnsProperties.RetryConverges` | internal/vpsmanager/client.go:76-142 | after any attempts that fail anywhere, a successful run leaves the server as a single successful run would, and one more changes nothing |
| `Transit.ReportIsExtracted` | internal/yandex/service.go:58-87 | the arrival of an entry: its scheduled time, else its estimate, else the frequency's promise or the beginning of a closed window, each with its label; nothing without lines |
| `Transit.Fetch` | internal/yandex/service.go:29-55 | what the entries report, read off their fields, in the service's order, for exactly those not past; none without data, or the service's error |
| `Transit.KeptInOrder` | internal/yandex/service.go:43-52 | the kept arrivals are those of the entries at increasing positions, all of them that report an arrival not past |
| `Transit.KeptIsExact` | internal/yandex/service.go:45-52 | exactly the arrivals that are not past are kept |
| `Transit.EndedServiceIsDropped` | internal/yandex/service.go:77-81 | a line whose window is over is kept if and only if the window begins again later |
| `NextBus.MatchingInOrder` | internal/api/fcchttp/handlers.go:63-71 | the arrivals filtered for the route are those at increasing positions, all of them whose name contains it |
| `NextBus.PickFirst` | internal/api/fcchttp/handlers.go:98-113 | the lowest-index earliest arrival among the first match and all matches whose hour is not below the current hour |
| `NextBus.HandleNextBus` | internal/api/fcchttp/handlers.go:23-139 | the answer to every request: which errors, "not found" exactly when no kept arrival is on the route, otherwise the selection; on one day, the earliest arrival on the route that is not past |
| `NextBus.EndToEnd` | internal/api/fcchttp/handlers.go:61-113 | if all kept arrivals fall on the current day, the selection is the earliest not-yet-past arrival among all reported ones on the route |
| `NextBus.ServedIsEarliest` | internal/api/fcchttp/handlers.go:98-113 | the served arrival is the earliest if and only if the first match arrives at the earliest time or that time shows no smaller hour than the clock |
| `NextBus.MidnightSkipsTheNextBus` | internal/api/fcchttp/handlers.go:105-107 | a concrete answer of the map service near midnight for which the later of two buses is the only selection |

## Left out

- Serialisability.Serialisable: for any number of calls its condition is sufficient only; the exact condition is proved for two calls (`SerialPairs.OverlapIsSerialIff`).
- Deliveries.SubscriberReceivesSuffix: a subscriber that joins while a notification is under way is not modelled; in the interleaved model the subscribers are fixed.
- Dns.UpdateDNS: the server changes only through the run's own PUTs, a failed PUT changes nothing, record ids are unique, and only the records of the first DNS zone are modelled.
- NextBus.HandleNextBus: one clock sample serves for the whole request (the source takes several), all times are in one time zone, and durations do not overflow.
- The Go runtime's detection of unsynchronised map access (the sweep and the emptiness test read without the lock): such reads are single steps here.
- Fairness of the lock and of the scheduler (that every call can be brought to its return is proved, not that a given scheduler does so), and the lock's preference for waiting writers, which only removes schedules.
- The empty critical section at the start of a sweep, its timing report, log lines and Sentry reports: no effect on the state.
- `UpsertDevice` called from outside the store: it can change the online state without a notification; the repository does not call it so, and the run theorems quantify over the other operations.
- Strings are sequences of bytes; time is a count of nanoseconds with zero as the zero time, and build times are compared as such instants.
- HTTP, JSON, authorisation and the network: their outcomes are parameters or free choices.
- The remaining handlers, the GOB API, Telegram, configuration, the other DNS updater, middleware and templates: plumbing with no state of its own.
