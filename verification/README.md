# App-Core in Dafny

App-Core is a small C11 application framework. Its core resolves and runs components found in a link section,
moves reference-counted buffers through bounded channels, delivers events to subscribers and keeps a registry of
services; a Python tool and the build files agree on which modules are enabled. This project models these five
pieces and two compositions of them, and proves what they promise over every run.

Each piece has up to three layers. A `...Model` module gives every locked section (or, for the sequential
component engine and the configuration tool, every routine) as a function of values. Classes keep the data as the
program does: arrays, counters, flags updated in place by loops. Their methods are proved to do what the functions
say. `...Steps` modules run the same functions as step systems of any number of threads, `...Theorems` modules state
what holds in every reachable state and over whole runs, and `...Answers` modules what each call answers its caller and
changes, told without the functions themselves.

* **Components** (`Component*.dfy`). The trace of lifecycle calls is a value; callbacks are arbitrary functions of
  the whole trace so far. `ComponentTable` describes the accepted tables. `ComponentLifecycle` says when a call is
  allowed and proves that every call made is; `ComponentAnswers` tells the error code, the hooks called and the final
  records from the trace; `ComponentResolve` proves that giving up means a cycle; `ComponentConfluence` proves that the
  link order is irrelevant to start-ups whose phases resolve, and `ComponentOrder` when it is irrelevant to failing ones
  too; `ComponentDeinit` says when dependents are always deinitialised first. `ComponentLimits` holds the sections for
  which these last two fail.
* **Channels and pool** (`Channel*.dfy`). A blocked thread resumes after a signal, spuriously, or, when it was not
  signalled, with a failed wait.
* **Event bus** (`Event*.dfy`). Every thread has a stack of publishes in progress, so callbacks may publish and
  subscribe. Two logs record accepted and completed asynchronous deliveries.
* **Services** (`Service*.dfy`). Slots as an array, as a map by key, and under concurrent use.
* **Module configuration** (`ModuleGraph.dfy`, `Menu*.dfy`). The validator, the fixpoint, the menu and the file.
* **Core** (`SysCore.dfy`). Components, bus and registry under one life cycle. What other threads, and the
  components' own callbacks, do to the bus and the registry during a call is an arbitrary legal run of their step
  systems, given as ghost arguments.
* **Stream** (`Stream*.dfy`). The camera's producer and the media server's consumer on one channel, from start to
  the end of stop or rollback, on the pool and channel functions of the channel model.

`SysTypes.dfy` and `Sums.dfy` hold the error codes and facts about sequences and sums. `dafny verify dfyconfig.toml`
checks the project.

Lemmas over maps carry `{:induction false}`; their proofs are their bodies.

## Model

| member | source | states |
|---|---|---|
| ComponentEngine.Components.FindComponent | core/sys_component.c:47-55 | finds the first record with an id, or none |
| ComponentEngine.Components.CheckDependencies | core/sys_component.c:57-74 | waiting, ready or failed, decided by the first unsatisfied dependency in descriptor order |
| ComponentEngine.Components.ValidateComponents | core/sys_component.c:76-101 | the error of the first descriptor that is incomplete, duplicated later, or depends on something unknown or of a later phase |
| ComponentEngine.Components.CollectComponents | core/sys_component.c:103-130 | overflow leaves everything as it was; otherwise the table holds exactly the descriptors with an init hook, in section order, freshly discovered |
| ComponentEngine.Components.HandleDependencyFailure | core/sys_component.c:132-140 | the record is skipped with a dependency error, which is reported only for a required component |
| ComponentEngine.Components.InitializeComponent | core/sys_component.c:142-156 | one init call, recorded; on success the component is appended to the initialisation order, on failure it is failed and the error kept only if required |
| ComponentEngine.Components.Scan | core/sys_component.c:165-186 | one pass over the table: skips, pending count and candidate exactly as the scan of the model |
| ComponentEngine.Components.Round | core/sys_component.c:160-200 | one round of the retry loop: the scan, then at most one init |
| ComponentEngine.Components.InitializePhase | core/sys_component.c:158-201 | the whole retry loop, which ends because the discovered components of the phase become fewer each round |
| ComponentEngine.Components.StartComponent | core/sys_component.c:203-237 | start, degradation of an optional failure by an immediate deinit, or the error of a required one |
| ComponentEngine.Components.StopStartedComponents | core/sys_component.c:239-264 | stops everything on the started list and returns the first stop error |
| ComponentEngine.Components.DeinitializeComponents | core/sys_component.c:266-281 | deinitialises what is still initialised and empties the list; failed and skipped states are kept |
| ComponentEngine.Components.RollbackComponents | core/sys_component.c:283-289 | stops, then deinitialises |
| ComponentEngine.Components.StartAll | core/sys_component.c:291-312 | collection, phases, starts, and rollback on the first error; both order arrays stay within their 64 slots |
| ComponentEngine.Components.StopAll | core/sys_component.c:314-317 | a rollback, from any state a call of the engine leaves behind |
| ComponentTable.ValidateIff | core/sys_component.c:76-101 | validation accepts exactly the tables whose entries are complete, whose ids are unique, and whose dependencies exist in the same or an earlier phase |
| ComponentTable.ValidationAnswers | core/sys_component.c:76-101 | the error of a refused table is that of the first faulty descriptor: incomplete, else a later duplicate, else a dependency whose first bearer is missing or in a later phase |
| ComponentTable.CollectKeepsOrder | core/sys_component.c:119-128 | collection keeps the link order |
| ComponentModel.FullScanFacts | core/sys_component.c:165-195 | a scan only skips pending components that cannot be ready, and its candidate is the smallest ready id whatever the table order |
| ComponentLifecycle.InitializeKeepsStage | core/sys_component.c:142-201 | through all phases every init comes after the successful init of every dependency, flags, orders and trace agree, and a run that ends well leaves no component unresolved and no required one lost |
| ComponentLifecycle.StartNeverWaits | core/sys_component.c:57-74 | while components are started check_dependencies never answers "waiting", because each dependency was initialised, and so started, before |
| ComponentLifecycle.StartsKeepStage | core/sys_component.c:203-237 | every start happens while all dependencies run, and a running component keeps only running dependencies |
| ComponentLifecycle.OrdersFit | core/sys_component.c:31-36 | both order arrays hold distinct components, so 64 slots are enough |
| ComponentLifecycle.RollbackReleases | core/sys_component.c:239-289 | from any reachable state, whatever the callbacks answer: stops only after started dependents were stopped, deinits only after dependents were released, and nothing is left initialised, started or in a state between discovery and rest |
| ComponentResolve.NoProgressMeansCycle | core/sys_component.c:190-195 | the no-progress error is returned only when the components still pending contain a dependency cycle, which the lemma constructs |
| ComponentResolve.AcyclicAlwaysResolves | core/sys_component.c:158-201 | on a valid acyclic table no phase ever gives up for lack of progress |
| ComponentResolve.NoProgressIffCycle | core/sys_component.c:158-201 | on a valid table, if every init succeeds, the phases give up for lack of progress iff the table contains a dependency cycle |
| ComponentResolve.CycleStaysOut | core/sys_component.c:158-201 | no member of a dependency cycle is ever on the initialisation order, whatever the callbacks answer |
| ComponentTheorems.GivesUpIffCycle | core/sys_component.c:291-312 | start_all on a section the validation accepts, with every init succeeding: it ends for lack of progress iff there is a cycle |
| ComponentTheorems.CycleNeverUp | core/sys_component.c:291-312 | after any start_all the members of a cycle are not initialised, and if it succeeded they are all optional and failed or skipped |
| ComponentLimits.CycleCanBeSkipped | core/sys_component.c:57-74 | a section with a cycle that start_all accepts: the failed init of another dependency, looked at first, gets both members skipped |
| ComponentConfluence.PhaseConfluent | core/sys_component.c:158-201 | one phase over two link orders of the same table: it resolves for one iff for the other, and then both end in the same engine |
| ComponentConfluence.LaunchConfluent | core/sys_component.c:291-312 | the same for all phases, starts and a rollback, with callbacks whose answers may depend on everything called before |
| ComponentTheorems.LinkOrderIrrelevant | docs/architecture.md:30 | for any permutation of the linked descriptors: validation agrees, all phases resolve for one iff for the other, and then calls, orders, records and error code are identical |
| ComponentTheorems.LaunchEnds | core/sys_component.c:297-311 | every launch ends with everything up or with everything released |
| ComponentTheorems.StartAllSafe | core/sys_component.c:291-317 | start_all, failed or followed by stop_all: on success required components run, running ones stand on running ones and the rest is degraded; otherwise, and after stop_all, all is released |
| ComponentTheorems.BadTableRefused | core/sys_component.c:76-130 | a table that is too long or ill-formed is refused before any callback is called, with overflow or with the fault of the first faulty descriptor in link order |
| ComponentTheorems.LifeCounts | core/sys_component.c:142-281 | the state of a component fixes how often it was initialised, started, stopped and deinitialised |
| ComponentTheorems.ReleasedIsPaired | core/sys_component.c:239-312 | once released, each successful init has exactly one deinit and each successful start exactly one stop |
| ComponentTheorems.StopsReverseStarts | core/sys_component.c:239-264 | the stops are exactly the started components in reverse start order, and the error is the first one among them |
| ComponentTheorems.DeinitsReverseInits | core/sys_component.c:266-281 | the deinits of a rollback are exactly the still initialised components in reverse initialisation order |
| ComponentAnswers.StartAllCode | core/sys_component.c:291-312 | start_all answers OK iff no init or start of a required component failed, no required one was skipped and nothing stayed unresolved; a failed init or start of a required component is the only one, its answer is the code and only stops and deinits follow it; any other failure is a dependency error |
| ComponentAnswers.StopAllCode | core/sys_component.c:239-289 | stop_all after any start_all calls the stops of the started components in reverse start order, then the deinits of the initialised ones in reverse initialisation order, and answers the first error among the stops |
| ComponentAnswers.HooksAreCalled | core/sys_component.c:142-281 | every call of a start_all and of the following stop_all went to the descriptor's own init, start, stop or deinit if it has one, and carries the answer given after exactly the calls before it |
| ComponentAnswers.RecordsAreTold | core/sys_component.c:132-281 | after start_all and after stop_all the state and last error of every component follow from the calls made on it, and a skipped one has a failed or skipped dependency |
| ComponentAnswers.StartedExactly | core/sys_component.c:203-237 | after a successful start_all a component runs iff nothing it did failed and all its dependencies run, has failed iff its init or start did, and is skipped otherwise |
| ComponentTheorems.AcyclicLaunchResolves | core/sys_component.c:158-201 | a start-up of a valid acyclic table fails only through a required component |
| ComponentDeinit.DeinitsFindNobody | core/sys_component.c:203-281 | if no optional component with a start hook is anybody's dependency, every deinit of a start-up and of the following stop_all, the early ones of start_component included, finds all dependents deinitialised |
| ComponentDeinit.DependentsFirstIff | core/sys_component.c:203-281 | on a valid acyclic table that condition holds iff no answers of the callbacks make a start-up deinitialise a component before a dependent |
| ComponentDeinit.FailingStartIsUntimely | core/sys_component.c:219-231 | on a valid acyclic table a single failing start of an optional dependency is enough: it is deinitialised while its dependent is initialised |
| ComponentDeinit.DegradingPrecedesDependents | core/sys_component.c:203-237 | an optional component that is not brought up, through a failed start or a lost dependency, is deinitialised while every dependent still to be started is initialised |
| ComponentLimits.DeinitializedTooEarly | core/sys_component.c:219-231 | a section and callbacks for which start_all deinitialises component 1 while component 2, which depends on it, is still initialised |
| ComponentOrder.FailuresAgreeToo | docs/architecture.md:30 | if no required component depends on an optional one of its own phase that itself has dependencies, any two link orders make the same calls with the same answers and return the same code, failing start-ups included |
| ComponentOrder.LaunchAgreesAnyway | core/sys_component.c:158-201 | under that condition the two launches make the same calls and end alike, but for the name of the refused component |
| ComponentOrder.NoScanRefused | core/sys_component.c:132-140 | if required components only depend on required ones, no scan is ever refused over a required component |
| ComponentOrder.PhaseAgreesAnyway | core/sys_component.c:158-201 | one phase, however it ends: same end and calls in both orders, and, unless a callback failed or a scan was refused, the same engine |
| ComponentLimits.FailingStartsDiffer | core/sys_component.c:165-186 | two orders of one section and one set of callbacks for which the failing start-ups make different calls |
| ChannelRing.BufferPool.Acquire | core/sys_channel.c:188-217 | hands out the first buffer with no reference, or none exactly when all are in use |
| ChannelRing.BufferPool.Retain | core/sys_channel.c:219-236 | adds a reference, refusing an unreferenced buffer and a full counter |
| ChannelRing.BufferPool.Release | core/sys_channel.c:238-255 | drops a reference and lowers the count of buffers in use with the last one |
| ChannelRing.BufferPool.Idle | core/sys_channel.c:132-146 | the pool may be destroyed exactly when no buffer is referenced |
| ChannelRing.Ring.Admit | core/sys_channel.c:473-483 | notes a full queue and, under drop-oldest on an open channel, takes the oldest buffer out of the ring |
| ChannelRing.Ring.Offer | core/sys_channel.c:484-513 | the send's loop test and commit: the ring contents become the old sequence followed by the buffer |
| ChannelRing.Ring.Poll | core/sys_channel.c:535-555 | the receive's loop test and commit: the head of the sequence is taken |
| ChannelRing.Ring.Close | core/sys_channel.c:424-434 | only the closed flag changes |
| ChannelRing.Ring.Drain | core/sys_channel.c:402-416 | the last release gives back every queued buffer, across the wrap of the ring: each count falls by the times the buffer is queued |
| ChannelModel.AcquireKeepsPool | core/sys_channel.c:188-217 | buffers_in_use stays the number of referenced buffers, and acquire fails exactly when all are referenced |
| ChannelModel.IdleIff | core/sys_channel.c:132-146 | buffers_in_use is zero iff every reference count is |
| ChannelModel.ReleaseAllCounts | core/sys_channel.c:238-255 | giving back a list of references lowers each count by the occurrences of its buffer, no further than zero, and buffers_in_use stays right |
| ChannelProofs.StepConserves | core/sys_channel.c:188-255 | every step of any thread keeps each reference count equal to user-held references plus queue entries plus references inside sends and releases |
| ChannelProofs.StepKeepsWakeful | core/sys_channel.c:424-453 | every step keeps, for each side of each channel: while somebody waits unsignalled, what there is to take is covered by signalled waiters |
| ChannelProofs.StepKeepsInv | core/sys_channel.c:402-557 | shape, counts, conservation and wake-up invariant survive every step of every thread, with both policies, barging, spurious wake-ups and failed waits |
| ChannelTheorems.Reachable | core/sys_channel.c:335-380 | all of that holds after every run from fresh channels and a fresh pool |
| ChannelTheorems.DestroyOnlyIdle | core/sys_channel.c:132-154 | after any run destroy succeeds exactly when no user, queue or call in progress refers to a buffer |
| ChannelTheorems.AcquireAnswers | core/sys_channel.c:188-217 | an acquire answers BUSY iff every buffer is owed to somebody, and otherwise gives the caller the first one that is not |
| ChannelTheorems.RetainAnswers | core/sys_channel.c:219-236 | a retain, the caller's own or that of a send, is refused exactly for a buffer nobody is owed and for a count at its limit |
| ChannelTheorems.ReleaseNeverSaturates | core/sys_channel.c:246-252 | the guard against a zero count in release never takes effect |
| ChannelTheorems.FifoAndCounters | core/sys_channel.c:501-555 | after any run removed buffers followed by the queue are exactly the sent buffers in order, and on a live channel the counters are the lengths of these logs |
| ChannelTheorems.CountersCount | core/sys_channel.c:455-557 | each counter of a live channel moves exactly with what it is named for: a send that finds the queue full, a drop, a time-out, a send answered OK, a receive answered OK, the longest queue |
| ChannelTheorems.LogsGrow | core/sys_channel.c:473-555 | a step only appends to what was sent and removed, and sends nothing on a closed channel |
| ChannelTheorems.CloseCloses | core/sys_channel.c:424-434 | a close closes the channel, moves no buffer and leaves nobody on it waiting unsignalled |
| ChannelTheorems.ClosedForGood | core/sys_channel.c:424-434 | after close no send succeeds, over the whole rest of any run |
| ChannelTheorems.ClosedMeansDrained | core/sys_channel.c:534-547 | receive answers CLOSED iff the channel is closed and everything sent was removed |
| ChannelTheorems.DropOldestNeverFull | core/sys_channel.c:474-501 | a drop-oldest send never waits nor reports a full queue; it drops the oldest buffer exactly when the queue was full |
| ChannelTheorems.SendAnswers | core/sys_channel.c:484-519 | a send answers OK exactly when its buffer was queued, CLOSED exactly on a closed channel, QUEUE_FULL exactly when it would have had to wait and was told not to; it waits on only on a full, open, non-dropping channel |
| ChannelTheorems.ReceiveAnswers | core/sys_channel.c:534-557 | a receive answers OK exactly when it took the oldest buffer, whose reference passes to the caller; TIMEOUT without a wait is counted |
| ChannelTheorems.StallIsJustified | core/sys_channel.c:436-453 | after any run, if nobody on a channel can move, it is open, and either only receivers wait on an empty queue or only senders on a full one |
| EventBus.Dispatcher.Start | core/sys_event.c:113-127 | a running bus is refused; otherwise the queue is empty and the bus runs and accepts |
| EventBus.Dispatcher.BeginStop | core/sys_event.c:154-163 | the flags are cleared, and there is a worker to join iff the bus was running |
| EventBus.Dispatcher.HasInFlightCallbacks | core/sys_event.c:140-148 | true iff a registered subscription has a callback in flight |
| EventBus.Dispatcher.FreeAll | core/sys_event.c:173-177 | exactly the registered records are freed and the table is emptied |
| EventBus.Dispatcher.Subscribe | core/sys_event.c:182-226 | a new record with that event and client is appended to the table, or the first applicable error is returned and nothing changes |
| EventBus.Dispatcher.Detach | core/sys_event.c:241-258 | removes one record from the table, keeping the order of the rest, and marks it inactive |
| EventBus.Dispatcher.FinishCallback | core/sys_event.c:52-62 | one reference fewer; it broadcasts iff none is left |
| EventBus.Dispatcher.RetainMatchingSubscribers | core/sys_event.c:268-281 | collects exactly the active subscribers of the event in table order and counts one callback in flight for each |
| EventBus.Dispatcher.PublishAsync | core/sys_event.c:323-375 | queues a copy of the bytes with the retained subscribers, or the first applicable error, or nothing when nobody subscribed |
| EventBus.Dispatcher.TakeWork | core/sys_event.c:80-83 | takes the oldest event out of the ring |
| EventModel.MatchingIs | core/sys_event.c:268-281 | a publish retains exactly the registered subscribers of the event, each once |
| EventProofs.StepKeepsCounts | core/sys_event.c:52-111 | every step keeps in_flight equal to the occurrences in queued events plus undelivered entries of all publishes in progress, nested ones included |
| EventProofs.StepKeepsThreads | core/sys_event.c:228-281 | blocked threads hold nothing; a waiter that was not woken still has something to wait for; the worker sleeps only on an empty queue of a running bus |
| EventProofs.StepKeepsOrder | core/sys_event.c:64-111 | delivered, in the worker's hand and queued are together, in order, exactly what was accepted |
| EventProofs.StepKeepsKeys | core/sys_event.c:214-222 | no two registered subscriptions share event, callback and private data |
| EventProofs.StartFindsNothing | core/sys_event.c:122-126 | the reset of the queue at start loses no event |
| EventProofs.StepKeepsInv | core/sys_event.c:52-375 | the whole invariant survives every step of worker, publishers, unsubscribers, stop and start |
| EventTheorems.Reachable | core/sys_event.c:52-375 | it holds after every run from a bus that was never started |
| EventTheorems.FreedOnlyIdle | core/sys_event.c:259-263 | a subscription is freed only when nothing queued or in progress can still call it |
| EventTheorems.DetachedOnlyFalls | core/sys_event.c:241-263 | once a record is unsubscribed, over any run: it is never registered again, its callbacks in flight only become fewer, and once freed it stays freed and no frame or queued event names it |
| EventTheorems.CallsFindTheirRecord | core/sys_event.c:90-107 | every callback about to be called belongs to a record not freed, and finish_callback never finds a zero count |
| EventTheorems.BlockedHoldsNothing | core/sys_event.c:237-262 | after any run a thread blocked in unsubscribe or stop is in no callback and holds no reference |
| EventTheorems.WaiterHasRunner | core/sys_event.c:52-62 | each record an unwoken waiter of unsubscribe or stop waits for is held by another thread that can take a step towards finish_callback, or by a queued event in front of a worker that is awake |
| EventTheorems.AdvancingWakes | core/sys_event.c:259-261 | every run in which only other threads step, each towards finishing what it has begun, is at most as long as the work outstanding, and when none of them can go on the waiter has been woken |
| EventTheorems.WaiterIsWoken | core/sys_event.c:259-261 | such a run that wakes the waiter exists from every state the bus can reach |
| EventTheorems.LastFinishWakes | core/sys_event.c:54-60 | the decrement to zero wakes every waiter, and no other decrement wakes anybody |
| EventTheorems.WorkerNotLost | core/sys_event.c:72-74 | with something queued, or after a stop, the worker is not in an unwoken sleep; with something queued it can take its next step |
| EventTheorems.PublishAnswers | core/sys_event.c:302-320 | a publish that returns has called exactly its subscribers, each once and in table order, and reports the first failure among their answers |
| EventTheorems.SyncTargets | core/sys_event.c:293-300 | a synchronous publish works for exactly the subscribers registered for the event at that moment |
| EventTheorems.DeliveredInOrder | core/sys_event.c:80-107 | after any run what was delivered is a prefix of what was accepted, and all of it once the worker is idle |
| EventTheorems.AcceptedForRegistered | core/sys_event.c:352-370 | an accepted event is logged exactly once for each subscriber registered at that moment, with the bytes it was published with |
| EventTheorems.DrainTerminates | core/sys_event.c:75-83 | after a stop nothing is queued any more, and each turn of the worker shortens the queue or ends it |
| EventTheorems.StopLeavesNothing | core/sys_event.c:164-179 | when a stop that joined the worker returns, table and queue are empty, every accepted event was delivered and every registered record freed |
| EventAnswers.SubscribeAnswers | core/sys_event.c:182-226 | a subscribe answers each error exactly when it is the first to apply, and otherwise registers one new record with exactly that event and client, active and with nothing in flight |
| EventAnswers.StaysRegistered | core/sys_event.c:228-258 | over any run a registered record keeps its event and client, and stays registered until its own unsubscribe or the end of a stop |
| EventAnswers.SubscriberIsServed | core/sys_event.c:268-375 | after a subscribe that answered OK, over any run in which the record is not detached, every accepted publish of that event, synchronous or not, reaches it and no publish of another event does |
| EventAnswers.SyncAnswers | core/sys_event.c:283-300 | a synchronous publish is refused exactly for event 0 and by a bus that does not accept, and then changes nothing |
| EventAnswers.AsyncAnswers | core/sys_event.c:323-375 | an asynchronous publish answers each error exactly when it is the first to apply; otherwise it queues one event with the same bytes, last, iff somebody is registered |
| EventAnswers.CalledInOrderOfSubscription | core/sys_event.c:268-281 | over every run, the subscribers of an event are called in the order in which they subscribed |
| EventAnswers.StartAnswers | core/sys_event.c:113-127 | a start is refused exactly by a running bus; otherwise the bus runs and accepts, with an empty queue and a worker |
| EventAnswers.StopAnswers | core/sys_event.c:154-163 | a stop ends acceptance at once, keeps what is queued, and waits for the worker iff the bus was running |
| EventAnswers.AcceptsUntilStopped | core/sys_event.c:113-163 | a bus that accepts goes on accepting over any run without a stop |
| EventAnswers.UnsubscribeAnswers | core/sys_event.c:228-266 | an unsubscribe answers BUSY in a callback, NOT_FOUND for an unregistered record, and otherwise detaches exactly that record; it answers OK at once iff none of its callbacks is in flight, and waits otherwise |
| EventAnswers.UnsubscribeResumes | core/sys_event.c:259-266 | a waiting unsubscribe frees its record and answers OK exactly when nothing queued or in progress refers to it any more |
| ServiceRegistry.Registry.FindService | core/sys_service.c:25-35 | the first used slot with the key |
| ServiceRegistry.Registry.Register | core/sys_service.c:37-69 | fills the first free slot, or the first applicable error and no change |
| ServiceRegistry.Registry.BeginUnregister | core/sys_service.c:75-82 | finds the entry and stops it accepting references |
| ServiceRegistry.Registry.Acquire | core/sys_service.c:91-125 | one more reference on the matching, accepting, compatible entry, or the first applicable error and no change |
| ServiceRegistry.Registry.Release | core/sys_service.c:127-146 | one reference fewer; broadcasts iff it was the last |
| ServiceRegistry.Registry.BeginReset | core/sys_service.c:176-179 | no slot accepts references any more, nothing else changes |
| ServiceRegistry.Registry.HasReferences | core/sys_service.c:181-191 | true iff some slot is referenced |
| ServiceRegistry.Registry.ClearSlots | core/sys_service.c:194-196 | every slot is blank |
| ServiceModel.FindsTheHolder | core/sys_service.c:25-35 | with unique keys, a key is found exactly in the slot that holds it |
| ServiceModel.RegisterInserts | core/sys_service.c:37-69 | as a map by key: inserts a fresh entry iff the descriptor is complete, the key new and a slot free |
| ServiceModel.AcquireUpdates | core/sys_service.c:91-125 | as a map: raises the count of the entry under the key iff it accepts references, matches the version and is large enough |
| ServiceModel.UnregisterCloses | core/sys_service.c:75-82 | as a map: closes the entry under the key iff there is one |
| ServiceModel.ReleaseUpdates | core/sys_service.c:135-143 | as a map: lowers the count of one entry only |
| ServiceModel.BlankIsDelete | core/sys_service.c:86 | clearing a slot deletes exactly its key |
| ServiceSteps.StepKeepsInv | core/sys_service.c:37-198 | unique keys, counts equal to outstanding references, valid references and justified waits survive every step |
| ServiceTheorems.Reachable | core/sys_service.c:37-198 | they hold after every run from an empty registry |
| ServiceTheorems.HeldIsStable | core/sys_service.c:120-138 | a held reference denotes the very descriptor it was acquired for, and its slot is still found under that key |
| ServiceTheorems.DrainingOnlyFalls | core/sys_service.c:82-88 | once accepting is cleared the count only falls, over any run, until the slot is cleared |
| ServiceTheorems.WaiterHasHolder | core/sys_service.c:83-85 | an unwoken waiter waits for a reference some thread holds |
| ServiceTheorems.LastReleaseWakes | core/sys_service.c:137-142 | the release of a slot's last reference wakes every waiter, and no other release wakes anybody |
| ServiceTheorems.RemovesWhatItFound | core/sys_service.c:75-88 | if every unregister starts on an accepting entry and no reset overlaps a drain, an unregister that had to wait removes exactly the entry it found |
| ServiceTheorems.UnregisterAtOnce | core/sys_service.c:75-88 | an unregister of an unreferenced entry removes exactly that entry at once, of an unknown key it changes nothing, and of a referenced entry it closes the entry and waits |
| ServiceTheorems.OverlapRemovesAnother | core/sys_service.c:76-86 | whenever two unregisters drain one slot, the second can go on to remove an entry of another key registered in between |
| ServiceTheorems.OverlapHappens | core/sys_service.c:76-86 | such an overlap is reachable from an empty registry |
| ServiceTheorems.ResetOverlapRemovesAnother | core/sys_service.c:174-198 | an unregister overtaken by a reset can go on to remove an entry registered after the reset |
| ServiceTheorems.ResetOverlapHappens | core/sys_service.c:174-198 | that overlap is reachable from an empty registry too |
| ServiceAnswers.FullIff | core/sys_service.c:50-58 | no slot is free exactly when as many keys are registered as there are slots |
| ServiceAnswers.RegisterAnswers | core/sys_service.c:37-69 | a register answers each error exactly when it is the first to apply, NO_MEMORY exactly for a new key on a full registry, and otherwise inserts exactly one fresh entry |
| ServiceAnswers.AcquireAnswers | core/sys_service.c:91-125 | an acquire answers each error exactly when it is the first to apply, and otherwise hands out a reference to the entry under the key and raises its count |
| ServiceAnswers.ReleaseAnswers | core/sys_service.c:127-146 | a release lowers the count of exactly the entry its reference was acquired for |
| ServiceAnswers.ResetAnswers | core/sys_service.c:174-198 | a reset closes every entry at once, empties the registry and answers exactly when no reference is held, and waits otherwise |
| ModuleGraph.DependencyValidator.Visit | tools/menuconfig.py:27-37 | the visit with its visited set answers exactly what the plain recursion answers, error included |
| ModuleGraph.DependencyValidator.Validate | tools/menuconfig.py:23-40 | the whole validation equals the plain recursion, and returns normally iff all dependencies are known and the graph is acyclic |
| ModuleGraph.CheckAllDecides | app/features/CMakeLists.txt:136-159 | the unmemoised recursion of the build accepts exactly the known, acyclic graphs, in any order of modules |
| ModuleGraph.PathFits | tools/menuconfig.py:27-36 | the path never repeats a module, which bounds the recursion |
| ModuleGraph.SoundAnywhere | tools/menuconfig.py:31-32 | a module validated once is valid at the end of any path leading to it, which justifies the early return |
| ModuleGraph.CheckJustified | tools/menuconfig.py:28-35 | a reported cycle is a walk that returns to itself, a reported unknown dependency is really declared and unknown |
| MenuConfig.Normalize | tools/menuconfig.py:105-114 | in place, the enabled flags become the greatest dependency-closed subset of what was enabled |
| MenuConfig.NormalIsGreatest | tools/menuconfig.py:105-114 | that subset is closed and contains every other closed subset |
| MenuConfig.NormalIdempotent | tools/menuconfig.py:105-114 | normalising twice changes nothing more |
| MenuConfig.NormalOrderFree | tools/menuconfig.py:110 | the order of the modules does not matter |
| Menu.EnableTouchesOne | tools/menuconfig.py:201-211 | enabling a module whose dependencies are enabled changes no other module |
| Menu.DisableDropsDependents | tools/menuconfig.py:209-210 | disabling a module disables exactly it and the enabled modules that need it, directly or through others |
| Menu.BuildAcceptsIff | app/features/CMakeLists.txt:110-126 | the dependency check of the build passes iff the enabled set is closed under the dependencies the menu knows and no enabled module has a blank item in its list |
| Menu.RefusalNamesBlank | app/features/CMakeLists.txt:113-119 | a closed set is refused only with an unknown dependency of empty name, by an enabled module |
| Menu.BlankItemSplitsThem | tools/menuconfig.py:94-95 | with `A,` as dependency list the graph is valid, the menu saves and loads the module as enabled, and the build refuses the file |
| Menu.SessionStaysSane | tools/menuconfig.py:188-226 | after any keys the enabled set is closed, and every file saved on the way loads back to what was saved and passes the build check iff no saved module has a blank dependency |
| Menu.LoadStartsSane | tools/menuconfig.py:117-138 | a session starts with a closed set of known modules whenever the load is accepted |
| MenuAnswers.KeySaves | tools/menuconfig.py:212-226 | in a sane session S, asked or not, writes exactly one file, which loads to the enabled set whatever was enabled before; no other key writes any |
| MenuAnswers.KeyToggles | tools/menuconfig.py:201-211 | Space enables exactly the selected module if its dependencies are, disables exactly it and those that need it, and otherwise changes nothing; no other key changes what is enabled |
| MenuAnswers.KeyMoves | tools/menuconfig.py:197-226 | the cursor is clamped to the list; a change makes the session dirty and S makes it clean; it ends by Escape with nothing unsaved, or by Escape or S when asked |
| MenuAnswers.NothingIsLost | tools/menuconfig.py:188-226 | after any keys, a session that reports nothing unsaved has the enabled set in its newest file, unless it saved nothing and enables what it did at first |
| MenuAnswers.BuildNames | app/features/CMakeLists.txt:110-126 | a refusal of the build names the first unmet dependency of the first enabled module that has one, as unknown or as required; without one the build accepts |
| MenuAnswers.GraphIs | tools/menuconfig.py:23-26 | the validated graph maps each module to the dependencies the menu works with |
| MenuAnswers.DependsAre | tools/menuconfig.py:94-95 | a module depends on exactly the stripped pieces of its list that are not blank |
| MenuAnswers.SplitIs | tools/menuconfig.py:94-95 | the pieces hold no comma and, joined by commas, give the text back |
| MenuText.LineReadsBack | tools/menuconfig.py:124-131 | a printed line reads back as the module and flag it was printed for |
| MenuText.SaveLoadRoundTrip | tools/menuconfig.py:117-154 | loading the saved lines of a closed set gives that set, whatever was enabled before |
| MenuAnswers.LineMeans | tools/menuconfig.py:123-131 | a line sets a module iff, stripped, it is the line printed for it, and is invalid iff it begins like one that switches a module on and is none |
| MenuAnswers.ReadIs | tools/menuconfig.py:121-131 | the first invalid line is reported; without one the last line about a module decides, and a module no line is about keeps its value |
| MenuAnswers.LoadIs | tools/menuconfig.py:117-138 | a load reports the first invalid line, else exactly the unknown modules set; else it enables the greatest closed part of the modules set last and of those not mentioned and enabled before |
| MenuAnswers.MissingFileIs | tools/menuconfig.py:118-120 | without a file the greatest closed part of what was enabled stays enabled |
| MenuSession.ConfigMenu.LoadConfig | tools/menuconfig.py:117-138 | flags after a load, or the error and unchanged flags |
| MenuSession.ConfigMenu.SaveConfig | tools/menuconfig.py:141-154 | the file holds the header and one line per module for the normalised flags |
| MenuSession.ConfigMenu.ToggleSelected | tools/menuconfig.py:201-211 | the space bar, refused without change when a dependency is missing |
| MenuSession.ConfigMenu.Run | tools/menuconfig.py:188-226 | the menu loop over any keys does what the keys mean one by one; MenuAnswers says what that is |
| SysCore.Framework.constructor | core/sys_core.c:13-16 | a framework in which nothing was started yet is stopped and clean |
| SysCore.Framework.Init | core/sys_core.c:18-48 | ERR_STATE unless stopped; otherwise the answer of start_all, which ComponentAnswers.StartAllCode tells from the calls made, or that no worker could be created; everything up on success, and on failure, unless the worker could not be joined, nothing left: no component, subscription, queued event or service |
| SysCore.Framework.Shutdown | core/sys_core.c:50-84 | ERR_STATE unless running; a component's first stop error before the bus's before left-over threads, and, if the worker was joined, nothing left behind |
| SysCore.Framework.StopBus | core/sys_event.c:150-180 | a stop that joins the worker leaves the bus empty; one that cannot join leaves the table as it was |
| SysCore.Framework.ResetServices | core/sys_service.c:174-198 | after the reset every slot is blank |
| SysCore.StopRun | core/sys_event.c:150-180 | over any run of the other threads, a stop is still under way or has left table, queue and worker empty |
| SysCore.ResetRun | core/sys_service.c:174-198 | over any run without other registrations, a reset is still under way or has left every slot blank |
| SysCore.StartAllOutcome | core/sys_core.c:31-34 | the component side of init: all up, or nothing up |
| StreamTheorems.StepKeepsInv | app/features/camera_mod.c:53-290 | reference counts, channel references, phases and frame order survive every step of camera, producer, consumer and a concurrent stop of the media server |
| StreamTheorems.CompleteRunEnds | app/features/camera_mod.c:243-290 | every run that nobody can continue has ended the stop or rollback with the producer joined: STOPPED with everything given back, or ERROR iff the wait for the pool timed out, which needs the media server to have been stopped on its own |
| StreamTheorems.TimeOutNeedsMediaStop | app/features/camera_mod.c:281 | the wait for an idle pool can only time out while the media server is detaching by a stop of its own |
| StreamLimits.StopCanFail | app/features/camera_mod.c:281-289 | a run, with such a stop of the media server, in which the camera ends in ERROR |
| StreamTheorems.StoppedIsClean | app/features/camera_mod.c:243-290 | a stop or rollback that ends STOPPED has joined the producer, taken back every buffer and destroyed the pool, whichever side released the channel last |
| StreamTheorems.ConsumedInOrder | app/features/zlmedia_mod.c:23-57 | the frame numbers the consumer counts strictly increase |
| StreamTheorems.SendNeverFull | app/features/camera_mod.c:84-87 | with as many slots as buffers the producer's send never finds the queue full |
| StreamTheorems.TearDownEnds | app/features/camera_mod.c:169-198 | once the channel is closed every step of anybody lowers a measure, so the tear-down is finite |
| StreamTheorems.TearDownNeverStuck | app/features/zlmedia_mod.c:59-88 | before the camera is done some thread can always step, without any time-out |
| StreamTheorems.IdleIsQuiet | app/features/camera_mod.c:117-132 | when no buffer is in use no queue, list or thread has one, so destroying the pool takes it from nobody |
| StreamAnswers.CameraRunsIff | app/features/camera_mod.c:205-239 | a start ends in a running camera iff the media server did not fail to attach and the publish of the start did not fail otherwise |
| StreamAnswers.SendIsAnswered | app/features/camera_mod.c:84-93 | a send on the open channel queues the frame last; on the closed one it answers CLOSED |
| StreamAnswers.ProducerEndsIff | app/features/camera_mod.c:58-95 | the producer ends exactly when it sees the stop request, fails to write a frame, or was answered CLOSED |
| StreamAnswers.ConsumerEndsIff | app/features/zlmedia_mod.c:23-57 | the consumer takes the oldest frame, waits on an empty open channel, and ends exactly on its stop request or on a closed, empty channel |
| StreamAnswers.NothingUnconsumed | app/features/zlmedia_mod.c:23-57 | after any run a consumer that ended without a stop request has counted every frame sent |

## Left out

- ComponentEngine.Components.CollectComponents: the section is an arbitrary sequence of descriptors; the check of its byte bounds and size is not modelled.
- ComponentTheorems.LinkOrderIrrelevant: equality of the whole engine is for start-ups whose phases all resolve; for failing ones calls and code can differ, as ComponentLimits.FailingStartsDiffer shows, and ComponentOrder.FailuresAgreeToo says when they do not.
- ComponentOrder.FailuresAgreeToo: its condition suffices; tables outside it can be independent of the link order as well. After a failed callback the states left in the records of skipped components may differ between link orders.
- ComponentResolve.NoProgressMeansCycle: the converse is false when an init fails, as ComponentLimits.CycleCanBeSkipped shows; ComponentResolve.NoProgressIffCycle gives both directions for start-ups in which none does.
- ServiceTheorems.RemovesWhatItFound: sys_service_unregister does not look its slot up again after waiting, so the claim needs the stated discipline; ServiceTheorems.OverlapRemovesAnother and ServiceTheorems.ResetOverlapRemovesAnother show what happens without it.
- EventBus.Dispatcher.Start: creating the worker thread either succeeds or fails at once; events published between the moment the bus starts accepting and a late failure of thread creation would stay queued and are not modelled.
- EventProofs.StepKeepsInv: stop is called outside callbacks and start not during a stop; a stop called by the worker itself fails to join. The address of a freed subscription is taken never to equal a later allocation.
- EventTheorems.AdvancingWakes: callbacks return in the end; a callback that waits for another thread is not modelled, and publishes that start meanwhile are outside these runs.
- ChannelProofs.StepKeepsWakeful: a signalled waiter reports the signal and not a time-out; clocks and deadlines are not modelled, a time-out is a step an unsignalled waiter may take.
- ChannelRing.Ring.Drain: only the release that drops the last reference of a channel is modelled; counting up and down to it, and the wait for an idle pool, are part of the stream model only.
- SysCore.Framework.StopBus: when the worker cannot be joined the bus is left as the program leaves it, and nothing is claimed about the run after that.
- SysCore.Framework.Init: the run of the registry during a reset contains no registration by others, and no other thread starts or stops the bus; without that the registry and the bus need not be empty.
- StreamTheorems.StepKeepsInv: one stream at a time; a second stream that starts while the media server still lets go of the first channel is not modelled, so the generation check of the consumer never fails here. Joining threads succeeds, and the stop event reaches the media server unless it has already detached.
- MenuText.SaveLoadRoundTrip: files are sequences of lines; blanks are the six ASCII ones, while the program strips every Unicode blank.
- Menu.BuildAcceptsIff: of a manifest only the configuration name, non-empty as both readers require, and the text of the dependency field are modelled; semicolons in that text, which the build would split as well, are not.
- Failures of memory allocation, status snapshots, the counters of the event bus, log messages and error strings.
- `core/sys_runtime.c`, `core/sys_log.c`, `core/sys_types.c`, and the inside of `core/sys_thread.c`: threads are created and joined as single steps.
- Memory orders of the C11 atomics: the step systems are sequentially consistent.
- The camera and media modules keep their globals in one value in the stream model, because four threads update them; the size computation of a frame, ports and counters of frames are not modelled.
- The GPS, IMU and WiFi modules, each of which registers one service, and the inline service wrappers.
- Drawing the menu, reading manifests and replacing files atomically.
