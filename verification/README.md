# A verified model of the DT241M controller

The controller keeps three views of a LAN of HDMI transmitters and receivers in
agreement: an in-memory registry keyed by MAC, retained MQTT messages for Home
Assistant, and a SQLite table. It also changes channels, under a protocol that
proves an address belongs to a device before writing to it. This project models
those parts on one `Adapter` type and proves what holds over all their runs.

| file | models |
|---|---|
| `Text`, `Mac`, `Model` | strings, MAC forms, adapters, roles, names |
| `Registry` | the inventory, its operations, the evidence behind its contents; the registry as a class |
| `Sources` | the table of selectable transmitter labels |
| `Topics`, `Publisher` | topics and their texts, entities per role, payloads, the broker as a map in which an empty payload deletes (RETAIN, section 3.3.1.3 of MQTT Version 5.0) |
| `Presenter`, `PresenterObject` | the incremental publisher and the full sweep; the publisher as a class |
| `Store` | rows, column ownership, hydration; the store as a class |
| `Agreement`, `AgreementLimit` | the three views as one transition system, and where agreement ends |
| `Wire` | the same over a broker keyed by topic texts, and what a subscriber reads there |
| `ControllerObject` | observe, mark offline, rename, connect and restart, one at a time |
| `WriteProtocol`, `WriteOutcome`, `WriteSession` | locate, verify, write once, read back; what the call answers; the same as a class |
| `Queue`, `Admission` | the keyed queue; commands, jobs, scans, polls and renames together, and what devices are sent |
| `SingleFlight`, `WorkerPool` | the discovery gate and the bounded worker pool |
| `Poll` | polling and scanning a network that stays still |
| `Cidr` | scan ranges and their hosts |

Conventions. State the source updates in place is a class whose methods are
proved equal to functions on values; the theorems are about those functions.
Goroutine code is a labelled transition system: a label is one atomic stretch of
one goroutine, and theorems quantify over every enabled sequence of labels. The
network, timeouts, cancellation and other goroutines are a script of arbitrary
answers and registry operations. Replies, clocks and contexts are parameters.
JSON payloads are constructors over the fields they depend on.

What the proofs found in the code:

- A reply whose MAC does not normalise counts as "another device" but displaces
  nobody, so a device shown online stays so and the write goes out unverified.
  An answer is safe against every schedule exactly when it is not of that kind or
  the device is not shown online when the call begins
  (`WriteProtocol.SafeExactlyWhenNotMisled`).
- Two overlapping renames that change the source table and change it back leave
  receivers with an option that no longer exists, although every publication
  succeeded (`AgreementLimit.OverlappingTableChangesGoStale`). Operations that
  change the table may overlap otherwise, as when a scan finds two transmitters at
  once (`AgreementLimit.DiscoveriesMayOverlap`). An operation harms exactly when
  it brings the table back to the one last sent while a receiver topic that no
  operation in flight will send carries something else
  (`AgreementLimit.AgreesExactlyWhenHarmless`).
- A transmitter named like another one's disambiguated label takes over its
  option. Labels determine channels exactly when no name does that
  (`Sources.LabelsDetermineChannels`).
- A caller that arrives after a scan has ended and before the gate is cleared
  joins it and returns although no scan ran during its call
  (`SingleFlight.JoinsAfterTheEnd`). A joiner sees its scan end exactly when it
  came before that end (`SingleFlight.JoinedScanOverlaps`).
- An adapter that is gone while another device answers at its address counts as
  "another device" at every poll, so every poll scans all ranges again, although
  the comment speaks of one rescan for a device that has gone quiet. A poll of a
  still network that was polled before scans exactly when some recorded address
  has been taken over (`Poll.NextPollRescansIff`,
  `Poll.ReplacedDeviceRescansForEver`).
- The comment on `forEach` says that items already taken by a worker still run;
  the code checks the context once more and drops them
  (`WorkerPool.TakenItemIsDropped`). The comment holds of a run exactly when no
  worker makes that check after the context has ended
  (`WorkerPool.TakenItemsRunExactlyWhen`).

## Model

| member | source | states |
|---|---|---|
| Agreement.ViewsAgree | dt241m-controller/internal/controller/publish.go:19-104 | after one sweep, however operations with disjoint footprints, their publications and saves, sweeps and recounts interleave, once nothing is in flight a sweep changes no retained message, both caches are right, and a restart reproduces the registry offline |
| Agreement.StepKeepsInv | dt241m-controller/internal/controller/publish.go:37-104 | each registry step, publication, save, completion, sweep and recount keeps: a topic not owed by an operation in flight carries the goal, and a row not owed carries the adapter |
| Agreement.HarmlessIsExact | dt241m-controller/internal/controller/publish.go:175-192 | starting an operation keeps the broker's part of the invariant if and only if it does not bring the table back to the one last sent, or every receiver topic nobody owes already carries the new goal |
| Agreement.SweepEstablishes | dt241m-controller/internal/controller/publish.go:86-104 | a sweep establishes the broker's part of the invariant from any retained messages and caches, with operations in flight |
| Agreement.StartKeepsSlots | dt241m-controller/internal/registry/registry.go:125-192 | a topic not covered by the change flags of an operation wants what it wanted before it |
| Agreement.StartMovesTable | dt241m-controller/internal/controller/publish.go:57-59 | an operation that does not refresh sources cannot have changed the source table |
| Agreement.NoStraggler | dt241m-controller/internal/controller/publish.go:114-121 | with nothing in flight, an adapter's retained config topics are exactly those of its current role, whatever roles it had |
| Agreement.QuietAgrees | dt241m-controller/internal/controller/publish.go:86-104 | the invariant with nothing in flight implies agreement of the three views |
| Agreement.RestartIsSound | dt241m-controller/internal/controller/controller.go:130-147 | the registry hydrated from a quiet store is again a sound starting state, over any broker |
| AgreementLimit.AgreesExactlyWhenHarmless | dt241m-controller/internal/controller/publish.go:175-192 | after such a start, when everything in flight has been published, saved and finished in any order, the views agree if and only if the start was harmless |
| AgreementLimit.DiscoveriesMayOverlap | dt241m-controller/internal/controller/discovery.go:42-58 | two devices never seen before may be found at once, transmitters or not: both starts are allowed |
| AgreementLimit.OverlappingTableChangesGoStale | dt241m-controller/internal/controller/publish.go:175-192 | for every settled state with two such transmitters and a receiver, two overlapping renames end with everything published and a sweep that would still change the broker |
| AgreementLimit.OverlapCanHappen | dt241m-controller/internal/controller/publish.go:62-70 | for any three devices, names and two channels there is a settled state from which that happens |
| AgreementLimit.TablesReturn | dt241m-controller/internal/registry/sources.go:29-50 | the two renames bring the table back to what was last sent |
| ControllerObject.SerialViewsAgree | dt241m-controller/internal/controller/discovery.go:133-174 | operations completed one at a time leave the views in agreement at every boundary, with no further condition |
| ControllerObject.AgreeAcrossRestarts | dt241m-controller/internal/controller/controller.go:130-158 | the same from an empty store over any number of restarts with any broker contents |
| ControllerObject.CompleteIsARun | dt241m-controller/internal/controller/discovery.go:133-168 | an undisturbed operation is an allowed run, and the order of its publication and its save does not matter |
| ControllerObject.Controller.Observe | dt241m-controller/internal/controller/discovery.go:133-158 | registry, broker and store after recording, publishing and, if changed, saving an observation |
| ControllerObject.Controller.MarkOffline | dt241m-controller/internal/controller/discovery.go:160-174 | the three views after a device went quiet; nothing moves if it was offline |
| ControllerObject.Controller.Rename | dt241m-controller/internal/controller/controller.go:225-245 | the three views after an accepted, cleared, refused or unknown rename |
| ControllerObject.Controller.OnConnected | dt241m-controller/internal/controller/controller.go:216-221 | a sweep of the broker, registry and store untouched |
| ControllerObject.Controller.constructor | dt241m-controller/internal/controller/controller.go:140-144 | start-up hydrates the registry with exactly the stored rows, offline |
| WriteProtocol.WriteSafety | dt241m-controller/internal/controller/write.go:62-106 | in every environment, unless the device is shown online and its verification answer is malformed, each send goes to an address at which that MAC was observed after the call began |
| WriteProtocol.SafeExactlyWhenNotMisled | dt241m-controller/internal/controller/discovery.go:116-131 | for every sound registry and every MAC, an answer is safe against every schedule if and only if it is well-formed or the device is not shown online |
| WriteProtocol.MisledGoesUnverified | dt241m-controller/internal/controller/discovery.go:123-127 | for every device shown online, whatever its role, a malformed answer can lead to a write at an address it was not observed at |
| WriteProtocol.MalformedReplyGoesUnverified | dt241m-controller/internal/controller/discovery.go:123-127 | with a malformed answer from a writable device and an idle environment the write is issued unverified |
| WriteProtocol.VerifiedIPJustified | dt241m-controller/internal/controller/write.go:144-166 | an address it answers was observed for that MAC since the call began, whether the scan ran, was skipped, cancelled or joined |
| WriteProtocol.AtMostOneSend | dt241m-controller/internal/controller/write.go:62-106 | a call sends at most once, to its own MAC, the requested channel, and keeps the registry's evidence |
| WriteProtocol.ReadBackMeaning | dt241m-controller/internal/controller/write.go:110-140 | at most `attempts` reads, no sends, and the requested channel is reported only if such a reply by that MAC at that address was recorded |
| WriteProtocol.MatchedIsReal | dt241m-controller/internal/controller/write.go:74-89 | a matched outcome means one write, not rejected, and after it, within the allowed reads, a recorded reply by that MAC at that address with the requested channel |
| WriteOutcome.OutcomeIsExact | dt241m-controller/internal/controller/write.go:62-89 | for every call: matched if and only if one request went out, the environment's answer to it was not a rejection and the requested channel was read back; failed if and only if nothing went out or it was rejected; the write status is that answer, and each reason has its exact condition |
| WriteOutcome.AnsweringDeviceIsWritten | dt241m-controller/internal/controller/write.go:62-89 | a known device that answers at its address in a writable role is sent the request there exactly once, and the call matches if and only if the write is not rejected and the reads confirm it, whatever others do |
| WriteOutcome.MovedDeviceIsWritten | dt241m-controller/internal/controller/write.go:144-166 | the same for a device that is silent, replaced at its address or without one: it is written to where the scan finds it |
| WriteOutcome.ReadBackExact | dt241m-controller/internal/controller/write.go:110-140 | the requested channel is reported if and only if a reply within the attempts carries it, after only silence and other channels of that device |
| WriteOutcome.LastReplyIsReported | dt241m-controller/internal/controller/write.go:110-140 | the last reply heard decides: the device's channel, or nothing if it is somebody else's |
| WriteOutcome.ReportedWasRead | dt241m-controller/internal/controller/write.go:110-140 | any channel reported after a write was recorded after it from that MAC at that address |
| WriteOutcome.UnlocatedMeansOffline | dt241m-controller/internal/controller/write.go:158-166 | a call that could not locate the device leaves it unknown or shown offline |
| WriteSession.Controller.ChangeChannel | dt241m-controller/internal/controller/write.go:62-89 | the imperative call computes the protocol's world and outcome |
| WriteSession.Controller.VerifiedIP | dt241m-controller/internal/controller/write.go:144-166 | the imperative form of locating and verifying equals the protocol's |
| WriteSession.Controller.ReadBack | dt241m-controller/internal/controller/write.go:110-140 | the readback loop equals the protocol's recursion |
| Registry.EvidenceAlways | dt241m-controller/internal/registry/registry.go:53-192 | over every run, an adapter stands where the last event about it says, an online one's last observation is also the last at its address, and no two online adapters share an address |
| Registry.RecordKeepsEvidence | dt241m-controller/internal/registry/registry.go:125-192 | recording an observation keeps that invariant |
| Registry.HydrateKeepsEvidence | dt241m-controller/internal/registry/registry.go:53-61 | hydrating keeps it |
| Registry.EvidenceMakesOnlineUnique | dt241m-controller/internal/registry/registry.go:136-144 | the evidence implies that no two online adapters share an address |
| Registry.OccupantIsDisplaced | dt241m-controller/internal/registry/registry.go:136-144 | at most one adapter is displaced and it is the one reported |
| Registry.ChangedIsTheDiff | dt241m-controller/internal/registry/registry.go:31-33 | Changed is raised if and only if some adapter field other than the last contact moved; otherwise nothing was displaced |
| Registry.CountsFollowFlags | dt241m-controller/internal/registry/registry.go:87-97 | known rises by Created, online by CameOnline minus Displaced |
| Registry.CountsMeaning | dt241m-controller/internal/registry/registry.go:87-97 | with the evidence, known is the number of devices ever loaded or heard and online the number of those shown online |
| Registry.RecordShowsTheReply | dt241m-controller/internal/registry/registry.go:125-192 | after a reply every field of the adapter is the device's, a new one has no user name and was first seen now, a known one keeps both; others only lose their online flag at that address |
| Registry.OfflineCounts | dt241m-controller/internal/registry/registry.go:112-121 | going offline lowers the online count by one and keeps the known count |
| Registry.SortedByMac | dt241m-controller/internal/registry/registry.go:75-84 | the listing is ordered by MAC and has the same adapters |
| Registry.Registry.RecordObservation | dt241m-controller/internal/registry/registry.go:125-192 | the method with its change flags equals the specification, though its loop stops at the first occupant |
| Registry.Registry.DisplaceFirst | dt241m-controller/internal/registry/registry.go:136-144 | stopping at the first match, in any map order, puts every occupant offline |
| Registry.Registry.Hydrate | dt241m-controller/internal/registry/registry.go:53-61 | loads the rows in order, offline |
| Registry.Registry.MarkOffline | dt241m-controller/internal/registry/registry.go:112-121 | answers the adapter only if it was online |
| Registry.Registry.SetName | dt241m-controller/internal/registry/registry.go:100-109 | sets the name of a known adapter and nothing else |
| Registry.Registry.All | dt241m-controller/internal/registry/registry.go:75-84 | every adapter exactly once, ordered by MAC |
| Registry.Registry.Counts | dt241m-controller/internal/registry/registry.go:87-97 | the number of adapters and of online ones |
| Presenter.EverythingReachesGoal | dt241m-controller/internal/controller/publish.go:86-104 | from any broker a sweep puts the goal on every topic it has one for and touches no other |
| Presenter.EverythingIdle | dt241m-controller/internal/controller/publish.go:86-104 | where the goal is met and the caches are right a sweep changes nothing |
| Presenter.SweepOrderIrrelevant | dt241m-controller/internal/controller/publish.go:95-101 | the order in which adapters are swept does not matter |
| Presenter.DirectConforms | dt241m-controller/internal/controller/publish.go:37-84 | an update's own messages agree with the goal and cover exactly the topics it owes |
| Presenter.CountsEffect | dt241m-controller/internal/controller/publish.go:153-160 | the cached counts step leaves the counters at the goal if the cache was right |
| Presenter.RefreshEffect | dt241m-controller/internal/controller/publish.go:175-192 | the cached refresh brings every receiver topic to the goal when the table differs from the last one sent |
| Presenter.UpdateEffect | dt241m-controller/internal/controller/publish.go:37-84 | what a whole update does to any topic |
| PresenterObject.MqttPublisher.Observation | dt241m-controller/internal/controller/publish.go:37-60 | broker and caches after an observation |
| PresenterObject.MqttPublisher.Renamed | dt241m-controller/internal/controller/publish.go:62-70 | broker and caches after a rename |
| PresenterObject.MqttPublisher.Offline | dt241m-controller/internal/controller/publish.go:72-78 | broker and caches after a device went quiet |
| PresenterObject.MqttPublisher.RejectedName | dt241m-controller/internal/controller/publish.go:80-84 | only the name topic is sent again |
| PresenterObject.MqttPublisher.Everything | dt241m-controller/internal/controller/publish.go:86-104 | broker and caches after a sweep |
| PresenterObject.MqttPublisher.Counts | dt241m-controller/internal/controller/publish.go:153-173 | the counters are sent only if they differ from the last ones |
| PresenterObject.MqttPublisher.RefreshSources | dt241m-controller/internal/controller/publish.go:175-192 | receivers are sent again only if the table differs from the last one |
| PresenterObject.MqttPublisher.DiscoveryWith | dt241m-controller/internal/controller/publish.go:114-121 | stale config topics are cleared and current ones sent |
| PresenterObject.MqttPublisher.StateWith | dt241m-controller/internal/controller/publish.go:139-151 | the state topics of the adapter's role |
| Publisher.RolesPartitionConfigs | dt241m-controller/internal/mqtt/discovery.go:148-181 | for each role, published and stale config topics are disjoint and together the topics of all roles |
| Publisher.OneComponentPerObject | dt241m-controller/internal/mqtt/discovery.go:183-215 | no role publishes one unique id under two components |
| Publisher.StaleByRole | dt241m-controller/internal/mqtt/discovery.go:163-181 | the stale entities of each role |
| Publisher.SendConforming | dt241m-controller/internal/controller/publish.go:194-205 | messages that agree with a goal bring exactly their topics to it, in any order and number |
| Publisher.SameTopicsSameEffect | dt241m-controller/internal/controller/publish.go:194-205 | two such message sequences on the same topics have the same effect |
| Publisher.DiscoveryConforms | dt241m-controller/internal/mqtt/discovery.go:208-221 | discovery messages and clearings agree with the goal and cover all config topics |
| Sources.LabelsDetermineChannels | dt241m-controller/internal/registry/sources.go:29-50 | equal labels mean equal channels if and only if no display name reads like another transmitter's disambiguated label on another channel |
| Sources.AmbiguousNameExample | dt241m-controller/internal/registry/sources.go:41-47 | three transmitters for which it fails |
| Sources.DisambiguatedInjective | dt241m-controller/internal/registry/sources.go:43-45 | "name (ch N)" determines name and channel |
| Sources.ShownSourceSelectsItsChannel | dt241m-controller/internal/registry/sources.go:62-83 | the label shown for a carried channel selects that channel |
| Sources.SelectedSourceIsShown | dt241m-controller/internal/registry/sources.go:62-97 | without channel collisions a selected label is shown again for its channel |
| Sources.ForChannelMeaning | dt241m-controller/internal/registry/sources.go:73-83 | "none" without a channel or on one nobody carries, otherwise the label of a transmitter on that channel |
| Sources.LeastLabelWins | dt241m-controller/internal/registry/sources.go:73-83 | among transmitters on one channel the least label is shown |
| Sources.OrderedUnique | dt241m-controller/internal/registry/sources.go:48-49 | a set of entries has one ordered table |
| Sources.TableEntries | dt241m-controller/internal/registry/sources.go:29-50 | the table holds exactly the labelled transmitters, in order |
| Sources.FirstOnMeaning | dt241m-controller/internal/registry/sources.go:73-83 | an entry on the channel is found if and only if there is one |
| Sources.ByLabelMeaning | dt241m-controller/internal/registry/sources.go:62-69 | an entry with the label is found if and only if there is one |
| Sources.BuildTable | dt241m-controller/internal/registry/sources.go:29-50 | the loops over the registry build that table |
| Sources.Collisions | dt241m-controller/internal/registry/sources.go:86-97 | the channels with more than one transmitter, with their MACs in table order |
| Store.ColumnsAreOwned | dt241m-controller/internal/store/store.go:169-201 | however saves of old snapshots interleave with renames of a row, its name is the last one set and its other columns those last saved |
| Store.MilliTruncates | dt241m-controller/internal/store/store.go:169-190 | times are cut downwards to the millisecond |
| Store.RowRoundTrip | dt241m-controller/internal/store/store.go:126-223 | a row loses only the online flag and sub-millisecond times |
| Store.HydrateRestores | dt241m-controller/internal/store/store.go:126-166 | hydrating the loaded rows gives exactly the stored adapters |
| Store.SQLite.Save | dt241m-controller/internal/store/store.go:169-190 | upsert of all columns but the name of an existing row |
| Store.SQLite.SetName | dt241m-controller/internal/store/store.go:193-202 | changes the name column of an existing row, or reports that there is none |
| Store.SQLite.LoadAll | dt241m-controller/internal/store/store.go:126-166 | every row as an adapter exactly once, ordered by MAC |
| Queue.FifoAlways | dt241m-controller/internal/controller/queue.go:18-42 | per key, jobs start in enqueue order and never overlap, in every reachable state and in its history |
| Queue.AbsentTailMeansIdle | dt241m-controller/internal/controller/queue.go:28-46 | a key without a tail has only jobs whose channel is closed; a zero wait group means an empty map |
| Queue.KeyCanMove | dt241m-controller/internal/controller/queue.go:26-40 | a key with an unfinished job has an enabled step of its own |
| Queue.OtherKeysDoNotDisable | dt241m-controller/internal/controller/queue.go:18-42 | a step of another key disables none of a key's steps |
| Queue.KeyDrains | dt241m-controller/internal/controller/queue.go:18-42 | however others are scheduled, each move of a key uses up one unit of its work, and using it up finishes all its jobs |
| Queue.SendsFollowRequests | dt241m-controller/internal/controller/queue.go:18-42 | over every run whose functions send nothing or once their own request, what a device is sent is a subsequence of what was enqueued for it, at most once per job, in 0 to 255 |
| Admission.BodyIsOwn | dt241m-controller/internal/controller/write.go:62-106 | in every environment changeChannel is such a function: it sends nothing, or once its own channel to its own device |
| Admission.SendsFollowCommands | dt241m-controller/internal/controller/write.go:14-106 | over every run of commands, jobs, scans, polls, renames and sweeps, what a device is sent is a subsequence of the commands accepted for it, in order of acceptance, at most once for each, in 0 to 255 |
| Admission.OthersSendNothing | dt241m-controller/internal/controller/discovery.go:42-106 | scans, polls, renames and sweeps leave the queue and what was sent alone |
| Admission.QueueHoldsGranted | dt241m-controller/internal/controller/write.go:30-35 | the queue holds exactly the accepted commands of each device in order |
| Admission.AcceptedIsSendable | dt241m-controller/internal/controller/write.go:14-36 | accepted if and only if running, in range, known and of a known role; the key is the canonical MAC however it was spelled |
| Admission.ChannelRefusals | dt241m-controller/internal/controller/write.go:15-29 | which reason a refused channel command gets, in order of the checks |
| Admission.SourceAcceptedExactly | dt241m-controller/internal/controller/write.go:39-56 | a source command is accepted if and only if the controller runs, the device is a known receiver, some entry has the label and the first such is in range, and the device is still known with a role; it is queued under the canonical MAC for that entry's channel |
| Admission.ListedSourceVerdict | dt241m-controller/internal/controller/write.go:49-55 | for a receiver and a listed label, the exact condition of acceptance and of each refusal |
| Admission.SourceRefusals | dt241m-controller/internal/controller/write.go:40-53 | an unknown device, a device that is no receiver and an unlisted label are refused with their own reasons |
| Admission.ShownSourceIsAccepted | dt241m-controller/internal/controller/write.go:39-56 | with unambiguous labels, asking for the label shown for a channel is accepted for that channel |
| Admission.UnlistedSourceIsRefused | dt241m-controller/internal/controller/write.go:49-53 | a label no transmitter carries is refused |
| SingleFlight.SingleFlightAlways | dt241m-controller/internal/controller/discovery.go:17-40 | in every interleaving scans never overlap, the gate is set exactly while one call is busy, no channel is closed twice, and a joiner returns after its scan ended |
| SingleFlight.WaiterIsServed | dt241m-controller/internal/controller/discovery.go:17-40 | a waiter's channel is closed, or owned by exactly one call whose next step is enabled |
| SingleFlight.OwnerCloses | dt241m-controller/internal/controller/discovery.go:34-40 | whatever else happens, after at most three steps of its own an owner has closed its channel |
| SingleFlight.EnterMeaning | dt241m-controller/internal/controller/discovery.go:17-33 | in every reachable state a caller joins if a call is busy, even while stopping; otherwise it is refused if stopping and scans if not |
| SingleFlight.NoScanAfterStop | dt241m-controller/internal/controller/discovery.go:26-29 | once stopping, no run starts another scan |
| SingleFlight.JoinedScanOverlaps | dt241m-controller/internal/controller/discovery.go:19-25 | a joiner's scan ended during its call if and only if it had not ended on arrival |
| SingleFlight.SecondScanInTheWindow | dt241m-controller/internal/controller/discovery.go:36-39 | a second scan can run while a waiter of the first still waits |
| SingleFlight.JoinsAfterTheEnd | dt241m-controller/internal/controller/discovery.go:34-38 | a run in which a caller joins after the end of the scan and returns although no scan ran during its call |
| WorkerPool.BoundedAlways | dt241m-controller/internal/controller/probe.go:12-35 | in every run at most max(1, min(limit, n)) calls are in progress and no item is started twice |
| WorkerPool.PoolSize | dt241m-controller/internal/controller/probe.go:13-13 | as many workers as limit and items allow, and at least one |
| WorkerPool.FeedingStops | dt241m-controller/internal/controller/probe.go:27-32 | once the context has ended at most the item already on offer is handed over |
| WorkerPool.ReturnedMeansDone | dt241m-controller/internal/controller/probe.go:27-35 | on return every started call has finished; without cancellation every item was processed exactly once |
| WorkerPool.NoCallAfterCancel | dt241m-controller/internal/controller/probe.go:20-24 | once the context has ended no call is started |
| WorkerPool.TakenRunsIffInTime | dt241m-controller/internal/controller/probe.go:20-24 | in every run a taken item is called if and only if the context had not ended when its worker looked; otherwise it is skipped for good |
| WorkerPool.TakenItemsRunExactlyWhen | dt241m-controller/internal/controller/probe.go:11-25 | every taken item that is no longer held was called if and only if no worker looked after the context had ended |
| WorkerPool.TakenItemIsDropped | dt241m-controller/internal/controller/probe.go:11-25 | a run in which a taken item is never called |
| WorkerPool.NoDeadlock | dt241m-controller/internal/controller/probe.go:12-35 | until it returns some step other than cancellation is enabled, cancelled or not |
| WorkerPool.EveryRunEnds | dt241m-controller/internal/controller/probe.go:12-35 | runs have bounded length, and one that cannot go on has returned |
| Poll.PollConverges | dt241m-controller/internal/controller/discovery.go:79-106 | against a still, tidy network a completed poll in any order leaves every online adapter truly at its address with its true channel; after a rescan every device in range is online |
| Poll.RescanCoversRanges | dt241m-controller/internal/controller/discovery.go:42-58 | with the configured ranges as targets, after a rescan every device at a host address of a range is online there with its true channel |
| Poll.NoAlarmNoLoss | dt241m-controller/internal/controller/discovery.go:87-105 | if no item asked for a rescan, nobody who was online moved or went offline |
| Poll.PollRevives | dt241m-controller/internal/controller/discovery.go:88-102 | whoever answers at its recorded address, online before or not, is shown online there after the poll |
| Poll.RescanMeaning | dt241m-controller/internal/controller/discovery.go:88-105 | a rescan is asked for exactly by an adapter whose address somebody else answers, or one that was online and is silent |
| Poll.NextPollRescansIff | dt241m-controller/internal/controller/discovery.go:79-106 | after a completed poll of a still network the next poll scans again if and only if a recorded address has been taken over |
| Poll.ReplacedDeviceRescansForEver | dt241m-controller/internal/controller/discovery.go:92-105 | a device gone and replaced at its address makes this and, the condition being kept, every later poll scan again |
| Poll.ScanFinds | dt241m-controller/internal/controller/discovery.go:42-58 | a scan finds every device at a target and spoils no true entry |
| Poll.PollKnownDevices | dt241m-controller/internal/controller/discovery.go:79-106 | the loops compute that poll for some order that covers every adapter |
| Poll.ObserveAt | dt241m-controller/internal/controller/discovery.go:116-131 | records whoever answers and says whether it was the expected device |
| Cidr.ParseScanRange | dt241m-controller/internal/config/cidr.go:18-31 | accepted if and only if an IPv4 prefix of 16 bits or more lies wholly inside one private block (section 3 of RFC 1918); the result covers the same addresses; at most 65534 hosts |
| Cidr.IsPrivate | dt241m-controller/internal/config/cidr.go:33-40 | true if and only if one private block contains every address of the range |
| Cidr.InsideIff | dt241m-controller/internal/config/cidr.go:35-37 | comparing prefix lengths and one address decides containment of whole ranges |
| Cidr.HostsExact | dt241m-controller/internal/config/cidr.go:44-60 | 2^(32-b)-2 strictly increasing addresses without the first and last, or all of them for /31 and /32 |
| Cidr.Hosts | dt241m-controller/internal/config/cidr.go:44-60 | the loop lists the texts of those addresses |
| Cidr.DottedRoundTrip | dt241m-controller/internal/config/cidr.go:55-55 | the text of an address, split at its dots into four octets, reads back as that address |
| Cidr.PrivateBlocksAre | dt241m-controller/internal/config/cidr.go:11-15 | an address is in a block if and only if its octets are 10.x, 172.16 to 172.31 or 192.168 (section 3 of RFC 1918) |
| Cidr.HostTextsArePrivate | dt241m-controller/internal/config/cidr.go:33-60 | every text listed for an accepted range reads back as a host of it, is private, and begins with "10.", "172." or "192.168." |
| Cidr.DottedInjective | dt241m-controller/internal/config/cidr.go:55-55 | distinct addresses have distinct texts |
| Cidr.ScanHosts | dt241m-controller/internal/config/cidr.go:63-76 | the nested loops keep the first occurrence of each host |
| Cidr.FirstsMeaning | dt241m-controller/internal/config/cidr.go:67-73 | first occurrences have the same elements, no repetition, and the order of first occurrence |
| Cidr.ScanTargets | dt241m-controller/internal/config/cidr.go:63-76 | the targets are exactly the hosts of the ranges, each once |
| Wire.WireAgrees | dt241m-controller/internal/controller/publish.go:86-104 | agreement in topic texts: after a sweep onto whatever the broker holds and any allowed run, a further sweep changes no retained text |
| Wire.RunCarries | dt241m-controller/internal/controller/publish.go:194-205 | over every run the texts sent keep the broker in step with the structured one, and every MAC in the registry is a normalised one |
| Wire.SomeBroker | dt241m-controller/internal/mqtt/topics.go:46-74 | whatever a broker retains, a structured broker describes the part the controller can name |
| Wire.WireIdleAcrossRestarts | dt241m-controller/internal/controller/controller.go:130-158 | at every operation boundary of every lifetime a sweep changes no retained text |
| Wire.QuietWireIsAtRest | dt241m-controller/internal/controller/publish.go:37-104 | with nothing in flight every topic that should carry something carries it |
| Wire.DeviceReads | dt241m-controller/internal/controller/publish.go:123-151 | availability, name and role of an adapter, by the text of topic and payload |
| Wire.DeviceStateReads | dt241m-controller/internal/controller/publish.go:139-146 | channel and address on their own topics |
| Wire.SourceReads | dt241m-controller/internal/controller/publish.go:148-150 | a receiver's source state is the label shown for its channel |
| Wire.ControllerReads | dt241m-controller/internal/controller/publish.go:86-104 | the controller's availability and both counters, by the text of topic and payload |
| Wire.NumberReads | dt241m-controller/internal/mqtt/discovery.go:148-161 | receivers and transmitters have their channel number entity, others have none |
| Wire.SensorReads | dt241m-controller/internal/mqtt/discovery.go:148-161 | devices of unknown role alone have the channel sensor |
| Wire.SelectReads | dt241m-controller/internal/mqtt/discovery.go:208-221 | receivers alone have the source select, with the labels of the current table |
| Wire.EveryDeviceHas | dt241m-controller/internal/mqtt/discovery.go:148-206 | every device has its name, address and role entities with its own unique ids and device block |
| Wire.UniqueIdsDiffer | dt241m-controller/internal/mqtt/discovery.go:183-188 | no two entities of the devices share a unique id |
| Wire.NothingNewNothingSent | dt241m-controller/internal/controller/publish.go:37-60 | an observation that changed nothing sends nothing while the sources shown are current |
| Topics.StateTopicTexts | dt241m-controller/internal/mqtt/topics.go:46-59 | the text of each state topic names what it carries |
| Topics.AvailabilityText | dt241m-controller/internal/mqtt/topics.go:46-59 | the text of the availability topic |
| Topics.SetAndStatePair | dt241m-controller/internal/mqtt/topics.go:46-59 | for each command the state topic is the set topic with "set" replaced by "state" |
| Topics.ConfigTopicTexts | dt241m-controller/internal/mqtt/topics.go:62-74 | the text of each discovery topic of a device |
| Topics.ControllerTopicTexts | dt241m-controller/internal/mqtt/topics.go:10-26 | the texts of the controller's topics |
| Topics.RescanConfigText | dt241m-controller/internal/mqtt/discovery.go:267-271 | the text of the rescan button's discovery topic |
| Topics.KnownConfigText | dt241m-controller/internal/mqtt/discovery.go:286-294 | the text of the known-devices sensor's discovery topic |
| Topics.OnlineConfigText | dt241m-controller/internal/mqtt/discovery.go:287-294 | the text of the online-devices sensor's discovery topic |
| Topics.RenderInjective | dt241m-controller/internal/mqtt/topics.go:46-74 | no two topics of adapters, discovery and controller share a text |
| Topics.CommandRoundTrip | dt241m-controller/internal/mqtt/topics.go:76-91 | a topic parses to a MAC and command if and only if it is that MAC's set topic |
| Mac.NormalizeMeaning | dt241m-controller/internal/mac/mac.go:14-24 | a text is a MAC if and only if it has exactly twelve hex digits in either case, whatever stands around them; its form has those digits, in order and in lower case, in pairs between colons |
| Mac.SpellingsOf | dt241m-controller/internal/mac/mac.go:14-29 | every spelling of a MAC, and nothing else, normalises to it |
| Mac.NormalizeIdempotent | dt241m-controller/internal/mac/mac.go:14-24 | the answer is empty or a fixed point |
| Mac.CompactRoundTrip | dt241m-controller/internal/mac/mac.go:27-29 | the compact form is twelve hex digits and normalises back |
| Mac.HexIsCompact | dt241m-controller/internal/mac/mac.go:14-29 | twelve hex digits are the compact form of one MAC |
| Mac.CompactInjective | dt241m-controller/internal/mac/mac.go:27-34 | distinct MACs have distinct compact forms |
| Mac.NormalizeByPairs | dt241m-controller/internal/mac/mac.go:14-24 | the loop over pairs computes the canonical form |
| Model.ClassifyMeaning | dt241m-controller/internal/dt241m/dt241m.go:149-163 | transmitter if product name or model mentions ProAVTx in any case and neither mentions ProAVRx, receiver the other way round, unknown otherwise |
| Model.ValidateNameExactly | dt241m-controller/internal/registry/adapter.go:55-67 | padding is dropped; nothing left clears the name, more than 64 characters or a control character refuse it, anything else is used |
| Model.NameAndPadding | dt241m-controller/internal/registry/adapter.go:55-57 | every text is some name with padding, so that says it for every text |
| Model.DisplayNameMeaning | dt241m-controller/internal/registry/adapter.go:38-49 | the user's name before the device's, that before the product's, and the id last |
| Text.AtMostMeaning | dt241m-controller/internal/registry/registry.go:82-82 | the order of listings: a beginning comes first, otherwise the smaller character where two texts first differ |
| Model.AcceptedNameIsStable | dt241m-controller/internal/registry/adapter.go:55-67 | an accepted name is bounded, unpadded and printable and is accepted again unchanged |

## Left out

- Concurrent updates of the same MAC: the publisher does not order them, so agreement assumes disjoint footprints of the operations in flight.
- Failed publishes, failed saves and lost connections: agreement is for successful ones; a sweep after reconnection re-establishes it.
- A rename racing with the first insert of its row: the store reports that there is no row, and the name is not kept.
- Ambiguity of `sort.Slice` among equal labels: the model orders them by MAC.
- Sources.AmbiguousNameExample: a witness only; the general statement is Sources.LabelsDetermineChannels.
- SingleFlight.SecondScanInTheWindow: a witness that the window exists, not a claim about every run.
- SingleFlight.JoinsAfterTheEnd: a witness; the statement about every run is SingleFlight.JoinedScanOverlaps.
- WorkerPool.TakenItemIsDropped: a witness; the statement about every run is WorkerPool.TakenItemsRunExactlyWhen.
- Admission.SendsFollowCommands: a job's function meets an arbitrary script of answers and of other goroutines' registry steps, not only the one that matches the surrounding run, so it covers more runs than there are.
- HTTP, JSON-RPC, multipart requests and JSON decoding of replies: a client answers with a device info, nothing, or an accepted, rejected or ambiguous write.
- The MQTT session, subscriptions and command routing, including float parsing of payloads.
- SQL text, pragmas and migrations; the table is a map of rows.
- Configuration files, environment, signals, start and stop timing, the poll loop's ticker and logging.
- Parsing of CIDR text: a range starts from what `netip.ParsePrefix` makes of it.
- JSON texts of discovery payloads, icons and the origin block.
- Case folding outside ASCII in MAC texts.
- A registry step in the middle of a sweep or of a publication: the publisher's lock makes each of them one step against other publications, and the model makes it one step against the registry too.
