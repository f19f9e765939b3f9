# A verified model of the Modbus gateway's core

The gateway polls Modbus devices over one task per physical channel, keeps the
raw replies in a cache, evaluates a graph of tag formulas over that cache, and
publishes the results. This project models that pipeline in Dafny and proves
what it promises:

* **Coalescing** (`Coalesce`, `CoalesceLaws`, `Reading`, `BusLoad`). Register
  entries are merged greedily into few reads. Every read is legal, the number of
  reads is minimal, a merged or split read publishes exactly what individual
  reads would, and the static bus-load mirror counts the same reads.
* **The channel task** (`Device`, `Wire`, `ChannelLaws`, `ChannelMachine`,
  `TickLaws`, `Channel`, `ChannelRuns`). `Channel.ChannelTask` is the task itself:
  connect, serve, poll, retry, drain queued commands, back off, reconnect. Its ghost
  state advances by the steps of `ChannelMachine`, which records every request that
  the transport was asked for and when, every command taken and its answer, and
  every backoff. Each method proves that what it does is such a step, so the laws of
  `ChannelRuns`, proved by induction over every run of the machine, are laws of the
  task. `TickLaws` states what a tick owes to the devices it names, as long as
  neither shutdown nor the loss of the link ends it.
* **Adaptive de-coalescing** (`Ticks`, `Convergence`). Against a fixed device
  memory with holes, two passes settle every tag: its own words, or Bad.
* **The formula engine** (`Graph`, `Formula`, `Waves`, `Typed`, `Engine`,
  `Stream`). Kahn's algorithm, the affected closure, the incremental wave with
  its deadband, and the change stream that may lose batches. `Formula.Solves` is
  the independent reference, an evaluation of every tag from scratch, written
  without an order; the incremental engine is proved equal to it. `Stream` is the
  engine, its cache and the writers as one state machine; every method of
  `Engine.TagEngine` proves that what it does are moves of that machine, so the laws
  of `Stream` are laws of the engine.
* **Configuration and planning** (`Resolve`, `Plan`, `PlanLaws`, `Wiring`, `Schedule`,
  `Kinds`, `Deployment`). Dense ids, one writer per cache slot, compiled plans and
  the poll wheel. `Wiring` tells from a configured register alone what it is polled
  with and what its tag must show. `Kinds` follows each register's read function from the plan to its
  slot. `Deployment` composes the parts: a validated channel compiles, its task and
  its wheel start, every read its runs poll is within the protocol's limits, and two
  ticks on a bench make every register tag show what is at its own address.
* **Hot reload** (`Reload`). Old values move to a new generation by name and
  recipe, while old and new channel tasks write and the engines run. Where a value
  comes from is described by an arbitrary relation between sources and values: what
  holds for every such relation holds of the source a value really came from.
* **Codecs and writes** (`Decode`, `Write`, `Recipes`). Word and byte orders,
  integers, BCD, and the inverse path from an engineering value to registers.

Objects that the program updates in place are classes (`TagCache`,
`DeviceRuntime`, `ChannelTask`, `TypedStore`, `TagEngine`, `PollWheel`,
`RunningStack`); their methods are proved equal to specification functions, and
the laws are proved about those.

Replies, connection attempts, arriving commands, shutdown, elapsed time and what
other channels write into the shared cache are arbitrary. A `ChannelTask` can
instead be built over a bench, a fixed memory for each unit address.

Where the code does less than its comments or tests suggest, the model follows
the code and states the exact boundary:

* a 64-bit integer write accepts one raw value too many at the top of the type
  and cuts it (`Write.AcceptedWritesCarryTheValue`); it reads back within half a
  step exactly up to one half above the largest integer
  (`Write.WrittenValueReadsBack`). `Write.TopOfSixtyFourBitsIsOff` gives two inputs
  beyond that: 2^64 for a tag without scaling, which shows 2^64 - 1, and 2^65 for
  one with scale two, off by a step over the reals;
* BCD of five or more registers can exceed 64 bits (`Decode.BcdIsExact`,
  `Decode.FiveRegistersOverflow`);
* a Good tag keeps its old value through a poll that serves it exactly when the
  reply is a fatal error that leaves its device below the threshold, or an
  exception that makes its slot split (`ChannelRuns.PolledTagKeepsItsSlot`), so
  nowhere is "Good" claimed to mean "fresh".

## Model

| member | source | states |
|---|---|---|
| Coalesce.SortByStartIsStable | crates/mb-poller/src/coalesce.rs:34 | the sort keeps the entries, orders them by start, and keeps the order of appearance among equal starts |
| Coalesce.CoalesceIntervals | crates/mb-poller/src/coalesce.rs:33-66 | the merging loop produces exactly the transactions of the recursive merge on which the laws below are proved |
| CoalesceLaws.MergedReadsAreLegal | crates/mb-poller/src/coalesce.rs:33-84 | every merged read has 1 to cap registers, stays inside the address space, contains every field slice, bridges no hole wider than the gap limit; bases strictly increase |
| CoalesceLaws.GreedyCutsAreLegal | crates/mb-poller/src/coalesce.rs:33-66 | the greedy cuts obey the gap and cap rules and number one less than the reads |
| CoalesceLaws.StaysAhead | crates/mb-poller/src/coalesce.rs:33-66 | from any pair of open runs, the greedy merge never needs more reads than a legal rival with the same entries left |
| CoalesceLaws.MergeIsMinimal | crates/mb-poller/src/coalesce.rs:33-66 | no partition into consecutive runs under the gap and cap rules uses fewer requests, and the greedy count is reached by one |
| BusLoad.MergeRuns | crates/config/src/validate.rs:619-633 | the in-place estimator loop equals the recursive merge of the sorted extents |
| BusLoad.LexSortIsUnique | crates/config/src/validate.rs:620 | two sorted sequences with the same extents are equal, so an unstable sort is as good as any |
| BusLoad.EstimateMirrorsRuntime | crates/config/src/validate.rs:619-633 | estimator and runtime give the same number of runs with the same starts; an estimated end is never smaller, and larger only where entries sharing the next start straddle the cap |
| Reading.SliceReply | crates/mb-poller/src/channel.rs:689-773 | the slicing loops yield the updates and bad tags of the specification, for every kind of reply |
| Reading.WrongLengthPublishesNothing | crates/mb-poller/src/channel.rs:689-773 | a register reply of another length, too few bits, or a vendor reply of another length than configured publishes nothing and marks every tag of the transaction Bad |
| Reading.VendorReplyIsWhole | crates/mb-poller/src/channel.rs:689-773 | a vendor reply of the configured length publishes all its bytes |
| Reading.ScatterSettlesEveryField | crates/mb-poller/src/channel.rs:689-773 | every reply that carries data settles each field exactly once: published or bad |
| Reading.UpdatesAreOfOneKind | crates/mb-proto/src/transport.rs:91-158 | the updates of one reply are all of the kind that its request asks for |
| Kinds.TransactionsFeedTheirKind | crates/mb-poller/src/plan.rs:140-235 | in a compiled device, the kind of reply a transaction asks for is the kind of every register it feeds |
| Kinds.EveryRunKeepsKinds | crates/mb-poller/src/channel.rs:689-773 | in every run of a validated channel whose transport answers what it was asked, every slot only ever holds the kind of value that its register's read function answers with |
| Reading.SplitReadsAreLegal | crates/mb-poller/src/device.rs:149-182 | a split read is legal, reads exactly its field's own span, lies inside the merged read, and is not coalesced |
| Reading.OwnReadIsAnIndividualRead | crates/mb-poller/src/channel.rs:689-773 | the reference update of a tag is what a request for its own span alone publishes |
| Reading.PlanReadsEveryEntryOnce | crates/mb-poller/src/coalesce.rs:33-84 | the merged reads serve every entry from its own address and width, once each, in start order |
| Reading.MergingPreservesMeaning | crates/mb-poller/src/coalesce.rs:33-84 | for every device memory that maps the merged reads, they publish exactly what individual reads of the entries would |
| Reading.SplittingPreservesMeaning | crates/mb-poller/src/device.rs:149-182 | the singletons of a split publish what the whole read would |
| Cache.PublishTouches | crates/mb-poller/src/cache.rs:168-180 | a batch changes its own tags only, and leaves each Good with a larger sequence number |
| Cache.PublishWrites | crates/mb-poller/src/cache.rs:168-180 | a tag named once in a batch is Good with that update's value and the next sequence number |
| Cache.TagCache.constructor | crates/mb-poller/src/cache.rs:112-137 | every slot starts as never read |
| Cache.TagCache.Seed | crates/mb-poller/src/cache.rs:151-155 | replaces one slot and announces nothing |
| Cache.TagCache.SendBatch | crates/mb-poller/src/cache.rs:157-165 | announces the tags once, as the last batch |
| Cache.TagCache.PublishBatch | crates/mb-poller/src/cache.rs:168-180 | writes every update in order, then announces exactly those tags |
| Cache.TagCache.SetDeviceQuality | crates/mb-poller/src/cache.rs:182-190 | changes the quality of the named tags only, keeps their values, announces them |
| Cache.TagCache.DegradeUncertain | crates/mb-poller/src/cache.rs:192-198 | the same with quality Uncertain |
| Device.WatchCountsFailures | crates/mb-poller/src/device.rs:61-91 | for every history: online exactly while failures since the last answer are below the threshold; an offline device is due for its probe one interval after its last failure, and the interval follows the excess of failures |
| Device.ProbeIntervalIsExponential | crates/mb-poller/src/device.rs:72-91 | after k >= 1 failed probes the interval is min(base * 2^k, max) |
| Device.EdgesAlternate | crates/mb-poller/src/device.rs:61-91 | going offline and coming back strictly alternate, and their parity tells the state |
| Device.DeviceRuntime.constructor | crates/mb-poller/src/device.rs:36-57 | a fresh watchdog is online with the base interval and no splits; a threshold of zero counts as one |
| Device.DeviceRuntime.OnSuccess | crates/mb-poller/src/device.rs:61-70 | an answer restores the fresh watchdog, and reports recovery exactly when the device was offline |
| Device.DeviceRuntime.OnCommFailure | crates/mb-poller/src/device.rs:72-91 | a failure counts, reports exactly the crossing, doubles the interval of an offline device, and schedules the next probe |
| Device.DeviceRuntime.HandleException | crates/mb-poller/src/device.rs:122-146 | an illegal address on a coalesced read not yet split remembers exactly its split and leaves the cache; any other exception turns exactly its tags Bad |
| Wire.TallyCountsRequests | crates/mb-poller/src/channel.rs:439-475 | every request on the wire is counted once, as answered or as failed; timeouts, exceptions and protocol errors are each counted exactly |
| Wire.WriteCountersAddUp | crates/mb-poller/src/channel.rs:527-678 | writes_ok + writes_err counts the non-diagnostic commands and the diagnostics expired or failed while disconnected |
| Wire.ReconnectDelayIsExponential | crates/mb-poller/src/channel.rs:778-811 | after k >= 1 backoffs in a row the nominal delay is min(base * 2^k, max) |
| ChannelMachine.StepKeeps | crates/mb-poller/src/channel.rs:65-231 | each step of the task keeps the whole invariant: polled requests of the plan or its splits, retry budgets, wire order, books, waits, watchdogs, tag qualities, splits |
| ChannelMachine.EveryRun | crates/mb-poller/src/channel.rs:65-231 | the invariant holds in every state of every run |
| ChannelMachine.EveryRunKeepsSplits | crates/mb-poller/src/device.rs:122-146 | every remembered split is exactly the split of its planned read, and is never changed for the rest of the run |
| ChannelMachine.AnswerIsPollOne | crates/mb-poller/src/channel.rs:296-324 | an answered poll of a device that answers from a memory is one step of the pass that convergence speaks of |
| Channel.ChannelTask.constructor | crates/mb-poller/src/channel.rs:65-92 | the fields of a new task, and its own part of the cache, are those of the machine's first state |
| Channel.ChannelTask.BuildIndex | crates/mb-poller/src/channel.rs:79-84 | the index names every planned device by its identity |
| Channel.ChannelTask.ShutdownRequested | crates/mb-poller/src/channel.rs:256-258 | shutdown, once requested, stays requested |
| Channel.ChannelTask.PollWithRetry | crates/mb-poller/src/channel.rs:439-475 | the attempts are one uninterrupted exchange on this connection, with the silent gap between them, for the device's own unit and timeout; a timeout on a full-duplex transport, a busy device or an unreachable target is given up only when the budget is used up |
| Channel.ChannelTask.CountReply | crates/mb-poller/src/channel.rs:296-345 | an answer revives exactly this device; a failure that crosses the threshold turns exactly its tags Bad |
| Channel.ChannelTask.ScatterReply | crates/mb-poller/src/channel.rs:689-773 | publishes the sliced updates, then marks the bad tags |
| Channel.ChannelTask.ExceptionReply | crates/mb-poller/src/channel.rs:311-324 | splits or marks Bad as the machine's step says, without touching the watchdogs |
| Channel.ChannelTask.PollTransaction | crates/mb-poller/src/channel.rs:277-395 | the request is asked for and ends once; a connection is given up or ready for the next request, and then a queued command, if there was one, has been taken; the rest of the device is skipped only if the device went offline; over a bench, one transaction is one step of the pass |
| Channel.ChannelTask.AnsweredPoll | crates/mb-poller/src/channel.rs:296-324 | an answer revives exactly this device, and the tags and splits become what the reply makes of them |
| Channel.ChannelTask.FailedPoll | crates/mb-poller/src/channel.rs:305-395 | a fatal reply, or a second timeout in a row on a stream, gives the connection up; after a timeout no tag of the read is Good; the rest of the device is skipped only if it is offline |
| Channel.ChannelTask.PollSlot | crates/mb-poller/src/channel.rs:266-276 | unless shutdown or the link ends it, the slot is asked for with its planned read or all of its remembered split, or its device went offline |
| Channel.ChannelTask.ServiceWrite | crates/mb-poller/src/channel.rs:527-668 | takes exactly this command: past its deadline or given up by its submitter it is dropped unsent, a diagnostic that does not read is refused, a write to no planned device is refused, and every other is sent; no slot but by turning Bad, and no split, changes |
| Channel.ChannelTask.SendBy | crates/mb-poller/src/channel.rs:570-615 | the command's own request is sent to this unit, after the silent gap, and waited for no longer than its deadline |
| Channel.ChannelTask.Diagnose | crates/mb-poller/src/channel.rs:553-600 | a diagnostic touches no watchdog, cache slot or split |
| Channel.ChannelTask.SettleWrite | crates/mb-poller/src/channel.rs:607-668 | books, watchdog and cache become those of the machine's state after the write's reply |
| Channel.ChannelTask.DrainPendingWrites | crates/mb-poller/src/channel.rs:480-516 | queued commands are taken in order until none is left or one diagnostic has been serviced; none is lost |
| Channel.ChannelTask.FailPendingWrites | crates/mb-poller/src/channel.rs:673-678 | the queue empties, every command in it fails as disconnected, none reaches the wire |
| Channel.ChannelTask.PollDeviceGroup | crates/mb-poller/src/channel.rs:251-399 | entered only online or once the probe is due; only shutdown or the loss of the link ends it early; every slot is asked for, or the device went offline; over a bench, all slots are polled in plan order, each split as remembered |
| Channel.ChannelTask.PollPair | crates/mb-poller/src/channel.rs:251-399 | a device that is offline and not due for its probe is left out; every other is served |
| Channel.ChannelTask.RunTick | crates/mb-poller/src/channel.rs:237-400 | a tick that neither shutdown nor the loss of the link ends has had a request end for every named device that was online or due for its probe and has work; one that was online was asked for all of its group, or went offline meanwhile; after shutdown nothing is done; over a bench, the tick is exactly the pass over its batch |
| Channel.ChannelTask.ConnectFailed | crates/mb-poller/src/channel.rs:96-130 | after a failed attempt the channel is swept, every tag Bad, every queued command fails as disconnected, and the task has waited once |
| Channel.ChannelTask.DropConnection | crates/mb-poller/src/channel.rs:184-200 | a spent connection is given up: every queued command fails as disconnected, and the task waits once |
| Channel.ChannelTask.Connect | crates/mb-poller/src/channel.rs:131-152 | watchdogs and backoff survive the reconnect |
| Channel.ChannelTask.NextBackoff | crates/mb-poller/src/channel.rs:778-790 | one wait is recorded with its nominal and its jittered delay |
| Channel.ChannelTask.SleepOrStop | crates/mb-poller/src/channel.rs:785-811 | commands that arrive during the sleep fail as disconnected, and the sleep lasts its delay unless shutdown ends it |
| Channel.ChannelTask.Serve | crates/mb-poller/src/channel.rs:153-228 | the loop of one connection, in steps of the machine: it ends with shutdown, after which nothing is done, or with the loss of the connection |
| Channel.ChannelTask.RunChannel | crates/mb-poller/src/channel.rs:65-231 | every state of the task is reached by a run of the machine, no submitted command is lost or reordered, and until shutdown every round makes a new connection attempt |
| TickLaws.PolledIsServed | crates/mb-poller/src/channel.rs:237-400 | what polling a group since the start of the tick leaves owed: nothing |
| TickLaws.SkippedIsServed | crates/mb-poller/src/channel.rs:251-262 | a device skipped as offline and not due has had a request end in the tick, if it was online or due when the tick began |
| ChannelRuns.StreamIsDrained | crates/mb-poller/src/channel.rs:325-345 | on every half-duplex connection of every run, a timed-out command or the second timeout in a row is the last entry, a fatal reply always is, and no timeout is retried |
| ChannelRuns.ConnectionsEndForCause | crates/mb-poller/src/channel.rs:325-395 | no connection is given up without cause: its last request ended in a fatal error, or on a half-duplex stream was a timed-out command or the second timeout in a row |
| ChannelRuns.WatchdogsFollowTheWire | crates/mb-poller/src/device.rs:36-95 | in every run, across reconnects: online exactly below the threshold; offline or swept means all tags Bad; the next probe is due one interval after the last failure; edges alternate |
| ChannelRuns.BooksBalance | crates/mb-poller/src/channel.rs:439-475 | in every run, requests on the wire = reqs_ok + reqs_err, each kind of failure is counted exactly, and the write counters add up |
| ChannelRuns.CommandsReachTheWireOnce | crates/mb-poller/src/channel.rs:527-678 | every command taken is answered once: from the wire exactly if it was sent, at most once, with its own request, admitted by its deadline and not waited for past it; else with the error that tells why not |
| ChannelRuns.RequestsArePaced | crates/mb-poller/src/channel.rs:425-432 | in every run, requests follow one another with the silent gap between two of a connection, and the transport was asked for exactly these |
| ChannelRuns.RetriesAreUninterrupted | crates/mb-poller/src/channel.rs:439-475 | between two attempts of one polled request nothing else is on the wire |
| ChannelRuns.TransientErrorsAreRetried | crates/mb-poller/src/channel.rs:402-425 | only a timeout on a full-duplex transport, a busy device or an unreachable target is retried; a poll that ends in one has used up its budget, which is none for an offline device |
| ChannelRuns.ProbesAreSingleShot | crates/mb-poller/src/channel.rs:402-409 | in every run, a retry goes only to a device that was online then, and stays within its retry budget |
| ChannelRuns.PolledTagKeepsItsSlot | crates/mb-poller/src/channel.rs:296-345 | a Good tag keeps its slot through a poll that serves it if and only if the reply is fatal and its device stays below the threshold, or is an exception that splits the slot |
| ChannelRuns.GoodOutlivesAFatalError | crates/mb-poller/src/channel.rs:305-311 | a run in which a tag stays Good with its old value after a fatal error |
| ChannelRuns.ReconnectsBackOff | crates/mb-poller/src/channel.rs:778-817 | the reconnects counter equals the waits; the nominal delay after n waits since the last answering connection is exponential up to the limit, and jitter at most halves it |
| Convergence.MergedReadsAreExact | crates/mb-poller/src/coalesce.rs:33-84 | a merged read with a single field spans exactly that field |
| Convergence.TwoPassesSettle | crates/mb-poller/src/channel.rs:266-324 | for any memory with holes and any starting state, after two passes over its group every tag shows its own words if its own span is mapped, else Bad, and the override is exactly the split |
| Convergence.SettledStays | crates/mb-poller/src/device.rs:110-182 | and stays so through every later pass |
| Convergence.EachKeepsSplits | crates/mb-poller/src/device.rs:122-146 | a slot splits at most once |
| Graph.NameIndex | crates/tags-core/src/graph.rs:54-58 | every name maps to the last position that carries it |
| Graph.LinkAll | crates/tags-core/src/graph.rs:59-73 | succeeds exactly when all formulas parse and read known names, with edges both ways; else names the first problem |
| Graph.OrderedReachesNoCycle | crates/tags-core/src/graph.rs:74-90 | an ordered tag reaches no cycle |
| Graph.TrappedReachesCycle | crates/tags-core/src/graph.rs:91-101 | a tag in a set whose members all read one of the set reaches a cycle |
| Graph.Sort | crates/tags-core/src/graph.rs:74-90 | Kahn's loop orders dependencies first, never decrements below zero, and ends with degrees that count the unordered dependencies |
| Graph.LeftoversReachCycles | crates/tags-core/src/graph.rs:91-101 | the tags left with a positive degree are exactly those that reach a cycle |
| Graph.Build | crates/tags-core/src/graph.rs:50-108 | accepts exactly the acyclic configurations with known names; on success the order is a permutation with dependencies first; on a cycle the blocked list is exactly the tags that reach one |
| Graph.Affected | crates/tags-core/src/graph.rs:110-130 | marks exactly the changed tags and all that depend on them |
| Typed.TypedStore.constructor | crates/tags-core/src/store.rs:96-121 | every slot starts as never computed; names are indexed |
| Typed.TypedStore.PublishValue | crates/tags-core/src/store.rs:151-166 | one slot becomes Good with the value, the others stay |
| Typed.TypedStore.SetQuality | crates/tags-core/src/store.rs:169-173 | one slot's quality changes, its value stays |
| Typed.TypedStore.Seed | crates/tags-core/src/store.rs:132-136 | replaces one slot and announces nothing |
| Typed.TypedStore.Clear | crates/tags-core/src/store.rs:138-148 | one slot becomes never computed |
| Typed.TypedStore.Restore | crates/tags-core/src/store.rs:177-185 | one slot becomes Uncertain with the restored value |
| Typed.TypedStore.SendBatch | crates/tags-core/src/store.rs:188-195 | announces a batch, but never an empty one |
| Typed.NumbersOfValues | crates/tags-core/src/value.rs:23-31 | booleans count as one and zero, text and bytes as no number |
| Formula.WorstIsWorst | crates/tags-core/src/engine.rs:303-317 | the combined quality is Bad iff one is, Good iff all are |
| Formula.SolutionIsUnique | crates/tags-core/src/engine.rs:268-365 | on an acyclic graph, the evaluation from scratch has one solution, whatever the order |
| Formula.QualityPropagates | crates/tags-core/src/engine.rs:268-365 | along any chain of formulas, below a Bad tag all is Bad and below an Uncertain one nothing is Good |
| Formula.BadInputsPropagate | crates/tags-core/src/engine.rs:268-365 | a Bad raw input makes every transitive dependent Bad, an Uncertain one keeps it from being Good |
| Formula.FormulaIsEvaluated | crates/tags-core/src/formula.rs:137-274 | a formula tag whose inputs are Good is what its formula makes of the decoded number, or of zero if it does not read it, and of the numbers of the tags it names; Bad if the formula fails |
| Formula.LinearIsScaled | crates/tags-core/src/formula.rs:250-274 | a linear tag with a Good register is its number times the scale plus the offset; without both it keeps its value as it is |
| Formula.TextPassesThrough | crates/tags-core/src/formula.rs:250-274 | text and bytes pass through every transform that reads them; what does not decode is Bad |
| Waves.WaveSolves | crates/tags-core/src/engine.rs:268-365 | a wave over a closed set leaves the calculated store equal to an evaluation of every tag from scratch, from the snapshots last used |
| Waves.OrderDoesNotMatter | crates/tags-core/src/engine.rs:268-365 | whatever topological order is used, the outcomes are the same |
| Waves.WaveKeepsPublished | crates/tags-core/src/engine.rs:320-409 | after the first full wave, published and calculated qualities agree; a change inside the deadband leaves a Good slot and its memory alone and every other Good value is published; the batch names exactly the tags written, without repeats |
| Waves.PublishedIsClose | crates/tags-core/src/engine.rs:367-390 | what a Good tag shows is the calculated value, or a number within the deadband of it, so slow drift never adds up |
| Waves.WaveKeepsKinds | crates/tags-core/src/engine.rs:320-409 | a Good tag whose recipe yields numbers always shows and holds a number, one that yields text or bytes never does |
| Waves.FreshWaveFollowsStore | crates/tags-core/src/engine.rs:158-174 | after a refresh, a new pump's deadband memory may be rebuilt from the published store |
| Waves.AffectedIsClosed | crates/tags-core/src/graph.rs:110-130 | the affected set is closed under dependents |
| Engine.LookupsFollowTheGraph | crates/tags-core/src/store.rs:229-239 | a formula's lookup by name reads the very tag the graph links, and only while it is Good and numeric |
| Engine.TagEngine.constructor | crates/tags-core/src/engine.rs:133-148 | a new engine is valid, has subscribed and is not primed |
| Engine.TagEngine.IdleIsUpToDate | crates/tags-core/src/engine.rs:222-258 | whenever the engine waits, the calculated store is an evaluation from scratch of the snapshots it last used, and what is published follows |
| Engine.TagEngine.IdleMissesNothing | crates/tags-core/src/engine.rs:222-258 | whenever the engine waits, a slot it does not hold is named in a waiting batch or about to be announced by a writer |
| Engine.TagEngine.DrainedIsCurrent | crates/tags-core/src/engine.rs:222-258 | with every batch received and no writer at work, whatever was lost before, the calculated store is an evaluation from scratch of the raw cache |
| Engine.TagEngine.FreezeInputs | crates/tags-core/src/engine.rs:268-280 | reads of the stream: each affected slot is read once before the wave starts, while the channel tasks keep writing |
| Engine.TagEngine.CombineQualities | crates/tags-core/src/engine.rs:283-317 | the worst quality among the raw snapshot, if used, and the tags read |
| Engine.TagEngine.ReadNumbers | crates/tags-core/src/formula.rs:148-190 | what a formula reads of the calculated store |
| Engine.TagEngine.Degrade | crates/tags-core/src/engine.rs:319-330 | a tag not Good keeps its values; its published quality changes, and is announced, only if it differs |
| Engine.TagEngine.PublishThroughDeadband | crates/tags-core/src/engine.rs:364-391 | calculated at once; published unless it was Good and within the deadband of the last published number |
| Engine.TagEngine.EvaluateTag | crates/tags-core/src/engine.rs:281-391 | one tag of a wave |
| Engine.TagEngine.EvaluateAll | crates/tags-core/src/engine.rs:281-391 | the affected tags in evaluation order, from the inputs read, while the channel tasks keep writing |
| Engine.TagEngine.Process | crates/tags-core/src/engine.rs:268-410 | from the state in which the stream has begun to read the closure of these tags to the one in which it has finished the wave; one batch for the changed tags, none if there are none; every slot shows its old value or the calculated one |
| Engine.TagEngine.PublishedNumbers | crates/tags-core/src/engine.rs:166-174 | the deadband memory of a fresh pump is the published numbers |
| Engine.TagEngine.Refresh | crates/tags-core/src/engine.rs:159-164 | a full wave of the stream, begun in any state of the cache, the ring and the writers; each tag shows its old value or the calculated one |
| Engine.TagEngine.Recv | crates/mb-poller/src/cache.rs:56-67 | the next batch; or word of a lag, exactly when more than 256 batches are waiting, with the receiver moved to the oldest of the newest 256 |
| Engine.TagEngine.Receive | crates/tags-core/src/engine.rs:241-256 | a batch is a wave of the stream over its closure, a lag one over every tag: the engine ends up waiting in a reached state of the stream, further along; its batch names exactly the published slots that changed, each once |
| Engine.TagEngine.Run | crates/tags-core/src/engine.rs:222-265 | in steps of the stream, from its first pass on: it receives batch after batch until none is waiting or so many have been received |
| Stream.EveryRun | crates/tags-core/src/engine.rs:222-258 | from a first pass or a refresh begun in any state of the cache, the ring and the writers: in every state of every run, a slot the engine does not hold is announced in a pending batch, held by a writer, or still to be read by the current wave |
| Stream.DrainedAgrees | crates/tags-core/src/engine.rs:222-258 | once drained, however many batches were lost, the calculated store is an evaluation from scratch of the raw cache, and what is published follows it |
| Stream.IdlePublishes | crates/tags-core/src/engine.rs:320-409 | in every idle state, drained or not, every tag shows the calculated quality and, when Good, the calculated value or a number within its deadband |
| Stream.DrainedPublishes | crates/mb-poller/src/cache.rs:157-199 | once drained, each tag shows the quality of an evaluation of the raw cache and, when Good, its value or a number within the deadband |
| Stream.DrainedFormula | crates/tags-core/src/engine.rs:268-409 | once drained, a formula tag with Good inputs shows what its formula makes of the number in the raw cache and of the numbers it names, up to its deadband, and is Bad if the formula fails |
| Stream.DrainedLinear | crates/tags-core/src/engine.rs:268-409 | once drained, a linear tag shows the number in the raw cache, scaled and shifted, up to its deadband |
| Decode.ArrangeInverse | crates/tags-core/src/decode.rs:51-69 | under each of the four orderings, arranging words for the wire and back is the identity, both ways |
| Decode.OrderedWordAt | crates/tags-core/src/decode.rs:51-69 | which register is the k-th most significant word, and which of its bytes comes first, under each ordering; too few registers are refused |
| Decode.IntegerIsSpelled | crates/tags-core/src/decode.rs:92-132 | each integer type as a sum of its words at their places, in two's complement |
| Decode.BitsAreRead | crates/tags-core/src/decode.rs:92-113 | a bit tag without a bit, or a bit beyond 15, is refused; a bitfield without one is the whole word |
| Decode.BitIsPlace | crates/tags-core/src/decode.rs:92-113 | bit b is the binary digit at that place |
| Decode.BytesAt | crates/tags-core/src/decode.rs:151-163 | text is the bytes of the words, the more significant first |
| Decode.ShiftsArePlaces64 | crates/tags-core/src/decode.rs:75-77 | over 64-bit words, shifting four registers to their places and joining the bits is adding them there |
| Decode.ShiftedIsCombine | crates/tags-core/src/decode.rs:71-77 | the sum of the registers at their places is the base-65536 number they spell |
| Decode.DecodeBcd | crates/tags-core/src/decode.rs:135-149 | the digit loop, with its 64-bit accumulator, equals the recursive value, and reports the first bad word |
| Decode.DigitsSpellWord | crates/tags-core/src/decode.rs:135-149 | a word is decimal if its four hexadecimal digits are, and spells the same digits in base ten; a further word appends four digits |
| Decode.BcdIsExact | crates/tags-core/src/decode.rs:135-149 | refused exactly when a nibble exceeds 9; exact if and only if the decimal fits 64 bits, which four registers always do |
| Decode.FiveRegistersOverflow | crates/tags-core/src/decode.rs:135-149 | a five-register value that is not decoded exactly |
| Decode.EncodeThenDecode | crates/tags-core/src/decode.rs:168-257 | for every integer type and ordering, encoding accepts exactly what the type holds (or a float it cuts), and the words decode to it |
| Decode.DecodeThenEncode | crates/tags-core/src/decode.rs:80-257 | every payload of an integer type survives decoding and encoding |
| Recipes.CompiledIsStable | crates/tags-core/src/engine.rs:111-131 | a compiled recipe yields numbers only, or none: none exactly if it reads ascii registers or a vendor reply |
| Recipes.CompiledDecodes | crates/tags-core/src/engine.rs:111-131 | a compiled recipe decodes registers by their data type, a bit area by its first bit, a vendor reply as its bytes, and nothing that was never read |
| Write.RoundIsNear | crates/opcua-gateway/src/write.rs:303-326 | rounding moves by at most one half and fixes integers |
| Write.AcceptedWritesCarryTheValue | crates/opcua-gateway/src/write.rs:215-281 | a register write is accepted exactly when the rounded raw value fits (or is the one too many of a 64-bit type) and carries that integer to the plan's address with the plan's function: it never wraps |
| Write.RefusalTellsWhy | crates/opcua-gateway/src/write.rs:215-281 | a refused register write tells whether there is no raw value, it is beyond 64 bits, or only beyond its type |
| Write.CoilIsNotZero | crates/opcua-gateway/src/write.rs:231-245 | a coil is switched on by every raw value but zero, at the plan's address |
| Write.WrittenValueReadsBack | crates/opcua-gateway/src/write.rs:215-326 | with or without a linear inverse: the register of an accepted write, read back through the tag's transform, is within half a step of the request if and only if the raw value is at most one half above the type's largest integer; for 16 and 32 bits it always is |
| Write.TopOfSixtyFourBitsIsOff | crates/opcua-gateway/src/write.rs:303-326 | two accepted writes above that guard, exact double-precision numbers both, whose register reads back a full step off |
| Resolve.ResolveDevice | crates/config/src/resolve.rs:138-200 | a device's registers get the next dense ids, under their own names; each setting is the device's own, else the channel's, else the gateway's |
| Resolve.ResolveChannel | crates/config/src/resolve.rs:138-229 | a channel's devices are numbered on, its tag range is exactly the tags it pushed, and each tag carries its register's name |
| Resolve.ResolveAll | crates/config/src/resolve.rs:119-241 | the channel ranges tile 0..tag_count in order, and every tag carries its register's name |
| Resolve.TagsStayInRange | crates/config/src/resolve.rs:138-229 | every tag of a channel's devices lies in the channel's own range |
| Resolve.TagsAreDistinct | crates/config/src/resolve.rs:138-229 | no two registers of a channel share a tag |
| Resolve.OneOwnerPerTag | crates/config/src/resolve.rs:138-229 | each tag has exactly one channel: one writer per slot |
| Plan.ValidateReadEntry | crates/config/src/validate.rs:529-596 | reports no problem exactly for the entries that may be polled, and each problem exactly when it is there |
| Plan.ValidatedEntryFits | crates/config/src/validate.rs:529-596 | such an entry compiles to an interval within the cap and the address space |
| Plan.CompileGroup | crates/mb-poller/src/plan.rs:140-189 | the bucket loop yields the area reads, then the vendor reads |
| Plan.CompileDevice | crates/mb-poller/src/plan.rs:140-189 | one transaction list for each group, in the channel's order |
| Plan.CoalescedFeeds | crates/mb-poller/src/coalesce.rs:33-84 | coalescing feeds every tag of its bucket exactly once |
| Plan.EveryRegisterOnce | crates/mb-poller/src/plan.rs:140-189 | every register of a planned device is fed by exactly one field of one transaction of one group |
| PlanLaws.SortAndDedup | crates/mb-poller/src/plan.rs:95-103 | the same group ids, strictly ascending |
| PlanLaws.CompileChannel | crates/mb-poller/src/plan.rs:90-138 | the plan holds the enabled devices, all their groups and the groups' periods and priorities |
| PlanLaws.ResolvedIsSeparate | crates/config/src/resolve.rs:138-229 | a resolved channel with validated entries meets what the plan laws need |
| PlanLaws.AreaReadsAreGood | crates/mb-poller/src/plan.rs:194-205 | every planned register read is legal with small holes; bases strictly increase within a bucket |
| PlanLaws.SplitsStayGood | crates/mb-poller/src/device.rs:149-182 | so is every singleton a split sends later |
| PlanLaws.PlanIsSound | crates/mb-poller/src/plan.rs:90-205 | a compiled plan meets the preconditions of the channel task: own tags in the channel's own range, no tag in two slots, legal reads |
| PlanLaws.CompiledSlotIsWatched | crates/mb-poller/src/plan.rs:90-205 | every planned register read meets the preconditions of convergence |
| Wiring.EnabledAt | crates/mb-poller/src/plan.rs:90-138 | every enabled device is planned, in the configured order |
| Wiring.PlannedIsEnabled | crates/mb-poller/src/plan.rs:90-138 | no other device is planned |
| Wiring.GroupIsUsed | crates/mb-poller/src/plan.rs:90-103 | a group is planned only for a register of an enabled device |
| Wiring.RegisterIsPlanned | crates/mb-poller/src/plan.rs:140-235 | every register of an enabled device that reads an area is in exactly one planned field: in a read of that area and of its own poll group, from its own address, in its own width |
| Wiring.VendorIsPlanned | crates/mb-poller/src/plan.rs:140-235 | a vendor register is planned alone, with its own function code, payload and length |
| Wiring.SettingsCarryOver | crates/mb-poller/src/plan.rs:90-189 | a planned device keeps its identity, unit, thresholds, timeouts and tags, and a group its period and priority |
| Wiring.PlannedReadsAreFewest | crates/mb-poller/src/plan.rs:140-205 | no partition of a device's bucket under its own gap limit and the protocol's cap needs fewer reads |
| Wiring.ValidatedEntryDecodes | crates/config/src/validate.rs:529-596 | the registers polled for a validated entry decode, but for digits that are not decimal |
| Schedule.SortUnitsIsStable | crates/mb-poller/src/schedule.rs:86-88 | a batch is sorted by descending priority, stably, and keeps its units |
| Schedule.PollWheel.constructor | crates/mb-poller/src/schedule.rs:28-58 | one timer for each distinct period, with exactly the work of that period |
| Schedule.PollWheel.NextDue | crates/mb-poller/src/schedule.rs:66-89 | the batch of the fired timers, all within the plan |
| Schedule.PollWheel.BatchIsExact | crates/mb-poller/src/schedule.rs:66-89 | a batch lists every fired (device, group) with work exactly once and nothing else, in stable descending priority |
| Deployment.EveryPolledReadIsGood | crates/mb-poller/src/channel.rs:266-295 | for a validated configuration, every register read that any run ever polls, merged or split, has 1 to cap registers inside the address space, holds its fields, and bridges no hole wider than the gap limit |
| Deployment.Deploy | crates/mb-poller/src/channel.rs:65-92 | a validated channel compiles to a plan that a poll wheel and a channel task accept; the task is in its spawn state with every device online |
| Deployment.TickTwice | crates/mb-poller/src/channel.rs:153-228 | unless shutdown is requested, two ticks over a bench, with commands serviced between, are two passes |
| Deployment.RunTwoTicks | crates/mb-poller/src/channel.rs:237-400 | unless shutdown is requested, after two such ticks the cache shows, for every register tag both polled, its own words if its own span is mapped, else Bad |
| Deployment.FullBatchHasAll | crates/mb-poller/src/schedule.rs:66-89 | when every timer has fired, the batch polls every group with work |
| Deployment.DeployOnBench | crates/mb-poller/src/channel.rs:65-231 | a validated channel started over a bench: once every timer has fired twice, unless shutdown was requested, every register of every enabled device shows the words at its own configured address if they are mapped, else Bad |
| Reload.RegisterSignatures | crates/svc-host/src/stack.rs:445-481 | every register's recipe, by name |
| Reload.CheckPolling | crates/svc-host/src/stack.rs:159-164 | polling changes exactly when the names, some source or the compiled plans differ |
| Reload.MovesByName | crates/svc-host/src/stack.rs:227-254 | old values reach the register of the same name: a raw one if its source is unchanged, a published one if its transform is as well; all others start anew |
| Reload.StayingIsMoving | crates/svc-host/src/stack.rs:159-169 | when polling does not change, reusing the cache moves every slot where it should be |
| Reload.SeedRaw | crates/svc-host/src/stack.rs:231-241 | a slot takes the old snapshot of the same name exactly where the source is unchanged |
| Reload.SeedTyped | crates/svc-host/src/stack.rs:244-254 | a published slot moves exactly where the whole recipe is unchanged |
| Reload.Forget | crates/svc-host/src/stack.rs:220-226 | persisted values of changed or removed recipes are forgotten, no others |
| Reload.MovedAreSampled | crates/svc-host/src/stack.rs:231-241 | moved snapshots were taken under the source they now stand for |
| Reload.GoodRestsOnCurrentSamples | crates/svc-host/src/stack.rs:140-285 | in an evaluation of samples taken under the current sources, a Good tag, and every tag it depends on that reads its register, rests on such a sample |
| Reload.RunningStack.AlwaysRestsOnCurrentSamples | crates/svc-host/src/stack.rs:140-285 | in every state of the running stack, after every wave of every generation: each Good calculated tag, and every tag it depends on that reads its register, was evaluated from a sample of its current source |
| Reload.RunningStack.Prepare | crates/svc-host/src/stack.rs:157-213 | everything that can fail happens on fresh objects, and succeeds exactly when formulas and write plans compile |
| Reload.RunningStack.GenerationRuns | crates/tags-core/src/engine.rs:222-258 | channel tasks write and announce and the engine receives, in any order, in steps of the stream |
| Reload.RunningStack.Drain | crates/svc-host/src/stack.rs:214-226 | the old generation runs on until it stops, and persisted values of other recipes are forgotten |
| Reload.RunningStack.HandOverRaw | crates/svc-host/src/stack.rs:227-243 | each new raw slot holds the same-named final old snapshot if its source is unchanged, else is never read, ids renumbered or not |
| Reload.RunningStack.HandOverTyped | crates/svc-host/src/stack.rs:244-254 | each new published slot holds the same-named final old one if its whole recipe is unchanged, else is empty |
| Reload.RunningStack.Commit | crates/svc-host/src/stack.rs:214-263 | the new generation takes over with what may move; after its first wave, made while its channel tasks write, each tag shows what was handed over or newly calculated |
| Reload.RunningStack.GoLive | crates/svc-host/src/stack.rs:255-263 | the new engine has made its full wave before it is published, while the channel tasks of the new generation write |
| Reload.RunningStack.Reload | crates/svc-host/src/stack.rs:140-285 | a rejected candidate changes nothing; a committed one moves raw and published slots by name and recipe, increments the revision and is up to date; its Good values rest on samples of the current source, and a tag whose recipe changed shows nothing or a newly calculated value |

## Left out

- Sockets, serial ports, framing and asynchronous scheduling: a request is an arbitrary reply, or one from a fixed memory; the clock is a non-decreasing integer.
- Log texts, traffic tracing, `last_error` and `connected`: they are not read back by the task.
- Time stamps of snapshots: sequence numbers are kept; acquisition times are copied and never compared by the modelled code, except for the minimum an evaluated tag inherits.
- Cache.TagCache.constructor: the name index of the raw cache is not built; reload looks names up in the configuration instead.
- Engine.TagEngine.constructor: compiled recipes, the built graph and restored stores are handed in; `Recipes`, `Graph` and `Reload` cover them.
- Engine.TagEngine.Refresh: does not promise that the snapshots it read were all in the cache at one instant, because channel tasks write between the reads; `Stream` accounts for those written since.
- Channel.ChannelTask.Serve: looks at no more than `rounds` rounds of a connection.
- Channel.ChannelTask.RunChannel: looks at no more than `attempts` connection attempts, and at an arbitrary part of the last connection, so runs are finite; the laws hold of every finite prefix.
- Channel.ChannelTask.CountReply: no time passes between a reply and what is counted of it, so the next probe is due one interval after the reply itself.
- Engine.TagEngine.Run: receives no more than `rounds` batches, and stops where the program would wait for the next one.
- Channel.ChannelTask.Tick: any batch of planned pairs stands for the poll wheel, whose own batches are modelled in `Schedule`.
- Channel.ChannelTask.NextBackoff: the reset to the base delay after an answering connection is made here, after the queued commands have failed, rather than before; nothing in between reads the delay.
- A minimum spacing of probes: the code does not keep one (`crates/mb-poller/src/channel.rs:376-395`).
- The evalexpr parser and its functions: a formula is an arbitrary function of the raw number and of the numbers it names, and may fail; the names it lists, or that it does not parse, are given.
- IEEE floating point: scale, offset, deadband and formula values are reals, so rounding and infinities are not modelled; a formula that is not finite is one that fails, and F32 and F64 patterns and text are opaque.
- BCD beyond 64 bits: the accumulator wraps, as in a release build; a build with overflow checks would stop there.
- The OPC UA pump, which subscribes after its first push, and the OPC UA server, authentication and the graphical interface.
- The persistence files and the history ring: persisted values are a map from name to value.
- Reload.CheckPolling: the compiled plans are compared as one opaque text of the configuration.
- Reload.RunningStack.Prepare: whether the write plans compile is given with the configuration, and reading persisted values does not fail.
- Reload.RunningStack.Reload: the comparisons of printed settings and plans are equalities of values; the OPC UA pump's own reconfiguration after the commit is not part of this model.
- Concurrency inside a reload: channel tasks write and the engine makes waves at any point of `GenerationRuns`, and channel tasks write between the reads of every wave; during preflight the old generation stands still.
- Reload.RunningStack.constructor: the first generation is taken over after its engine's first pass.
- Airtime and utilisation figures of the bus-load estimate, the write-plan builder, and the validation rules on names, transports and unique addresses.
- The control interface for automation clients, credentials, installers and the service wrapper.
