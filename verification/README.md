# The runtime core of actor-ts, in Dafny

actor-ts is an actor system for one JavaScript process. This project models the small stateful
machines at its core and proves what they promise over every run: every callback behaviour, every
order in which promises settle and timers fire, every sequence of calls.

| files | what they model |
|---|---|
| EventBus, EventBusTraces, EventBusStacks, EventBusRecipients, EventBusSubscriptions, EventBusHandles, EventBusCalls, EventBusCascades, EventStream | the event bus: re-entrant delivery to callbacks with its depth bound and cascade cut |
| HybridDispatcher, ThroughputDispatcher | the two dispatchers over an abstract event loop |
| PhaseGraph, PhaseSort, TopologicalOrder | the phase graph, both Kahn sorts and the order they compute |
| ShutdownPhases, ShutdownGraph, StartupGraph | how configuration and code build the two phase graphs |
| Lifecycle, LifecycleInvariants, LifecycleTheorems, ShutdownRuns, ActorSystem | startup, coordinated shutdown and `terminate()` as one state machine, and as three objects |
| SignalledShutdown | the shutdown graph and the life cycle together |
| ChainedTimeout, Scheduler, SchedulerTheorems, SchedulerRuns, SchedulerObject | timers longer than the host holds, and the scheduler over the host's timer table |
| RestartBudget | the supervisor's restart budget |
| ScatterGatherRouter, ScatterGatherTheorems, ScatterGatherRuns, ScatterGatherRouterActor | the scatter/gather router |
| Options | a value that may be missing |

Each component has functions on values that say what one operation does, a class in the source's
own mutable form whose methods are proved to do exactly that, and theorems about the functions over
all runs, which the classes carry over to the objects. A run is a sequence of steps, each a piece of
code that executes without interruption; the choices a step leaves open (what application code does,
which promise settles next) are its parameters, so that a statement about all runs is one about all
behaviours and interleavings.

Where a promise does not hold without a condition, the condition is proved exact, in both directions,
and a run shows the failure:

- At most one armed drain is not an invariant of `ThroughputDispatcher`; `SecondDrainArmedExactlyWhen`
  says when a second one is armed, `ArmedDrainsAreUnbounded` that there is no bound.
- The shutdown sort removes one occurrence of a finished dependency where the startup sort removes
  all of them, so a duplicate dependency makes it fail: `SortFailsExactlyWhen`,
  `RunSortFailsExactlyWhen` and `DuplicateDependencyBreaksTheRun`.
- A run whose sort fails is rejected before any phase and nothing stands in for its terminator, so a
  signal can leave the system up: `ToldRunsAreAnsweredExactlyWhen` and, for every configuration and
  every `addPhase` call, `SignalTakesTheSystemDownExactlyWhen`.
- `addPhase` takes a phase without dependencies, which may run before `before-service-unbind`:
  `StaysFirstExactlyWhen`.
- The pruned list of the restart budget shows every request exactly the grants of its window, under
  every budget, exactly when no clock reading returns into a window left behind:
  `PrunedListIsExactExactlyWhen` and `ClockThatGoesBack`. The `Clock` interface promises no such thing.
- A failure reported during the flush that precedes `process.exit` comes too late for the status:
  `ExitsCleanExactlyWhen`, `FailureIsMissedExactlyWhen` and `FailureDuringTheFlush`.
- A `terminate()` inside `create` does not always stop the startup graph:
  `PhaseBeginsAfterTerminateExactlyWhen`.
- A task that shuts the system down while its phase is being launched does not stop its later
  siblings from launching: `TasksStartAfterAbandonmentExactlyWhen` and `SiblingStillLaunches`. No
  further phase begins (`NoPhaseBeginsAfter`).
- A schedule made after `shutdown()` still arms a host timer, which never runs anything:
  `ScheduledAfterShutdown` and `ShutdownEndsEverything`.

Verify with `dafny verify dfyconfig.toml`.

## Model

| member | source | states |
|---|---|---|
| `EventBusTraces.EveryRunIsLawful` | src/EventStream.ts:560-662 | Over every sequence of requests and every callback behaviour, the trace obeys `Allowed` entry by entry and the lists, flags and depth of the bus say what the trace says; the depth is back at 0 |
| `EventBusTraces.NeverCalledAfterItsEnd` | src/EventStream.ts:461-492 | After an entry that ends its subscription, or the system, a callback is never called again, not even for the event in flight; that a handle that runs ends its subscription is `HandleFromOutside` and `HandleFromInside` |
| `EventBusHandles.HandleEndsItsOwn` | src/EventStream.ts:456-469 | A handle that runs takes exactly its own callback off the list and off the subscribed ones; every other callback stays |
| `EventBusHandles.HandleFromOutside` | src/EventStream.ts:456-469 | For every run and every continuation: after a request that runs a handle its callback is on no list and is never called again, and the other ids stay subscribed |
| `EventBusHandles.HandleFromInside` | src/EventStream.ts:456-469 | The same from inside a callback, its own handle or another's, from that action on and in whatever run the callback is part of |
| `EventBusHandles.SystemEndEndsAll` | src/EventStream.ts:489-492 | The end of the system empties the list and refuses every later callback |
| `EventBusHandles.SystemEndFromOutside` | src/EventStream.ts:489-492 | For every run and every continuation: after the end of the system no callback is called and none is subscribed |
| `EventBusHandles.SystemEndFromInside` | src/EventStream.ts:489-492 | The same where a callback brings the end about, for the rest of that callback and of the run |
| `EventBusHandles.SubscribedUnderItsId` | src/EventStream.ts:433-456 | On a live system a callback subscription is appended under a new id with its channel and callback |
| `EventBusHandles.SubscribedIsCalled` | src/EventStream.ts:433-456 | It gets the next event its channel matches, unless it is ended before its turn |
| `EventBusHandles.ThrowEndsTheCallback` | src/EventStream.ts:683-702 | A throw keeps what the callback did before it and drops what would have followed, and goes no further |
| `EventBusCalls.EveryCallRunsItsCallback` | src/EventStream.ts:641-702 | For every run and every call in it, however deep in a cascade: the callback subscribed under that id reacts to the event published under that number, on the bus as it is at the call, and what its actions do is what the run goes on with |
| `EventBusCalls.HandleRunByACallback` | src/EventStream.ts:456-469 | For every call of a run whose callback runs a handle before it throws: the callback behind the handle is never called after that action |
| `EventBusTraces.CalledOnceIfSubscribedInTime` | src/EventStream.ts:634-662 | A callback gets an event at most once, and only if it was subscribed before the event was published |
| `EventBusTraces.NestingIsBounded` | src/EventStream.ts:634-662 | Every call is made with as many callbacks on the stack as its chain of causes says, and never more than 16 |
| `EventBusStacks.QuietAfterACut` | src/EventStream.ts:618-662 | A cascade is cut in the delivery of the last publish before the cut, one level beyond the bound; from then until the next cascade starts callbacks are called only for publishes on the chain of causes of that one, which are the deliveries on the stack, and it is not cut again |
| `EventBusStacks.EveryRunIsStacked` | src/EventStream.ts:634-662 | In every run a callback is called for a publish only while everything published since descends from that publish along `cause`: deliveries nest like the stack they run on |
| `EventBusTraces.NothingNewAfterACut` | src/EventStream.ts:634-662 | After a cut and before the next cascade no event published since the cut reaches a callback |
| `EventBusTraces.CauseReachesActorsFirst` | src/EventStream.ts:575-589 | In the order of tells, every tell of an event precedes every tell of an event a callback published because of it |
| `EventBusRecipients.PublishReachesItsActors` | src/EventStream.ts:560-590 | A publish tells an actor exactly as often as it has subscriptions, when the actor loop starts, whose channel matches and whose filter, if any, passes the event, in subscription order and ahead of everything else, and nobody is told of it again whatever callbacks do |
| `EventBusRecipients.PublishReachesItsCallbacks` | src/EventStream.ts:634-662 | A publish below the bound, in a cascade not cut, calls every callback that wants the event, unless its subscription was ended before its turn in the list came |
| `EventBusSubscriptions.NoSubscriptionTwice` | src/EventStream.ts:221-267 | In every run, with callbacks subscribing and unsubscribing mid-delivery, no actor holds the same unfiltered subscription twice |
| `EventBusSubscriptions.SubscribeAdds` | src/EventStream.ts:221-267 | After a subscribe the subscription is in the list, exactly once without a filter and once more than before with one; the earlier list is a prefix and no other subscription changes its count |
| `EventBusSubscriptions.UnsubscribeLeaves` | src/EventStream.ts:289-311 | After an unsubscribe exactly the subscriptions of other actors and, with a channel given, to other channels are left |
| `EventBusSubscriptions.WithoutMeans` | src/EventStream.ts:289-311 | Unsubscribing keeps exactly the subscriptions of other actors and, with a channel given, of other channels |
| `EventBusSubscriptions.WithoutInOrder` | src/EventStream.ts:289-311 | Unsubscribing keeps the order of the subscriptions that stay |
| `EventBusSubscriptions.UnsubscribeUndoesSubscribe` | src/EventStream.ts:221-311 | Unsubscribing from a channel the actor was not on before it subscribed restores the list |
| `EventBusCascades.LoopCost` | src/EventStream.ts:634-662 | With n callbacks wanting an event of which k publish it back any positive number of times, one outermost publish makes exactly n + 15·k·n calls and k warnings |
| `EventBusCascades.SharedChannelCost` | src/Constants.ts:253-276 | k callbacks that publish back onto their shared channel cost exactly k·(16 + 15·(k − 1)) calls and k warnings |
| `EventStreams.EventStream.EndCallbackSubscriptions` | src/EventStream.ts:489-492 | The loop over a copy of the list ends every callback subscription, as `EventBus.AfterUpdate` says |
| `EventStreams.EventStream.Publish` | src/EventStream.ts:560-590 | The re-entrant method, loops and all, moves the object exactly as `EventBus.AfterPublish` does, and terminates |
| `EventStreams.EventStream.CallCallbacks` | src/EventStream.ts:634-662 | The delivery loop with its depth, snapshot and early return moves the object exactly as `EventBus.AfterCallbacks` does |
| `EventStreams.EventStream.CallRecipient` | src/EventStream.ts:641-657 | One turn of the delivery loop, cascade flag included, moves the object as `EventBus.AfterRecipient` does |
| `EventStreams.EventStream.RunCallback` | src/EventStream.ts:683-702 | What a callback does inside its call, a throw included, moves the object as `EventBus.AfterActions` does |
| `EventStreams.EventStream.Request` | src/EventStream.ts:221-590 | A request on the object that stands where a run leads takes it where the longer run leads, so the run theorems hold for the object |
| `HybridDispatchers.HybridStartsInOrder` | src/Dispatcher.ts:217-246 | In every run started ++ microtasks ++ pending equals what was submitted; at most `yieldEvery` units start per turn; one flush is armed while units wait; with nothing queued or armed everything has started |
| `HybridDispatchers.ReleasedByExactlyThatFlush` | src/Dispatcher.ts:223-245 | The unit at index j of `pending` moves to the microtask queue with exactly the (⌊j/yieldEvery⌋ + 1)-th flush from now, whatever else is submitted |
| `HybridDispatchers.FlushSplits` | src/Dispatcher.ts:226-236 | A flush moves one budget's worth of waiting units up in order and leaves the rest, in order, behind the next yield |
| `HybridDispatchers.HybridDispatcher.Flush` | src/Dispatcher.ts:226-236 | The flush, a loop that re-enters `execute`, moves the object as `Flushed` does |
| `HybridDispatchers.HybridDispatcher.StartNext` | src/Dispatcher.ts:244-245 | The first microtask starts its unit, whose submissions re-enter `execute` |
| `ThroughputDispatchers.ThroughputStartsInOrder` | src/Dispatcher.ts:298-326 | In every run started ++ queue equals what was submitted, and while units are queued a drain is armed: no wake-up is lost |
| `ThroughputDispatchers.DrainKeeps` | src/Dispatcher.ts:310-326 | One drain starts at most `throughput` units, all of them unless the queue runs out, keeps submission order, and arms exactly the drains that re-entrant submission and the tail arm |
| `ThroughputDispatchers.SecondDrainArmedExactlyWhen` | src/Dispatcher.ts:298-325 | From one armed drain a second stays armed if and only if a unit of the drain submits and the backlog outlasts the budget |
| `ThroughputDispatchers.ArmedDrainsAreUnbounded` | src/Dispatcher.ts:310-325 | For every n a run exists after which n + 1 drains are armed: at most one drain is not an invariant |
| `ThroughputDispatchers.ThroughputDispatcher.RunNext` | src/Dispatcher.ts:313-317 | One turn of the drain loop: the first unit leaves the queue and what it submits joins it |
| `ThroughputDispatchers.ThroughputDispatcher.Drain` | src/Dispatcher.ts:310-326 | The drain loop, whose units re-enter `execute`, moves the object as `Drained` does |
| `PhaseGraphs.OrderUnique` | src/CoordinatedShutdown.ts:839-865 | Two sequences of the same names ordered by longest dependency chain and then by name are equal |
| `PhaseGraphs.LessMeans` | src/CoordinatedShutdown.ts:850-850 | Names compare lexicographically: equal up to some point where the first ends or goes on with the lesser character |
| `PhaseSorts.SortReturnsTheOrder` | src/CoordinatedShutdown.ts:839-865 | A successful sort returns every phase once, each after all its dependencies, in batches by longest chain and by name inside a batch |
| `PhaseSorts.SortFailsExactlyWhen` | src/CoordinatedShutdown.ts:847-853 | A sort fails if and only if the graph is cyclic, not closed or, for the shutdown sort, lists a dependency twice |
| `PhaseSorts.SortIsDetermined` | src/CoordinatedStartup.ts:576-603 | The result does not depend on the order phases were added in, and the two sorts agree on duplicate-free graphs |
| `TopologicalOrders.StruckAllEmpty` | src/CoordinatedShutdown.ts:857-861 | Striking each finished phase off a list once empties it if and only if all of it is finished and nothing occurs twice |
| `TopologicalOrders.FilterEach` | src/CoordinatedStartup.ts:598-600 | The loop removes every occurrence of every finished phase from every list |
| `TopologicalOrders.StrikeEach` | src/CoordinatedShutdown.ts:857-862 | The nested loops remove one occurrence of each finished phase from every list |
| `TopologicalOrders.StartupOrder` | src/CoordinatedStartup.ts:581-603 | The loop over the shrinking map returns the unique order, or nothing exactly when the graph is cyclic or not closed |
| `TopologicalOrders.ShutdownOrder` | src/CoordinatedShutdown.ts:839-865 | The loop that removes one occurrence at a time returns the unique order, or nothing exactly when the graph is cyclic, not closed or has a duplicate dependency |
| `ShutdownPhases.RunSortFailsExactlyWhen` | src/CoordinatedShutdown.ts:349-359 | After any sequence of `addPhase` calls on a graph that sorts, the graph is still closed and acyclic, and the sort inside a run fails if and only if a phase names a dependency twice |
| `ShutdownPhases.StaysFirstExactlyWhen` | src/CoordinatedShutdown.ts:349-359 | After `addPhase` calls the phase that ran first still does if and only if every phase taken with an empty `dependsOn` has a greater name |
| `ShutdownPhases.FirstIsLeastFree` | src/CoordinatedShutdown.ts:845-850 | The first phase of a sort is the one with the least name among those that depend on nothing |
| `ShutdownPhases.AddedAllKeepsOrder` | src/CoordinatedShutdown.ts:349-359 | Whatever is added, a closed acyclic graph stays closed and acyclic |
| `ShutdownPhases.MergedAllGrows` | src/CoordinatedShutdown.ts:654-663 | Merging overrides keeps every phase, its name and its edges in order; which edges it adds is `ConfiguredEdges` |
| `ShutdownPhases.MergedPhaseMeans` | src/CoordinatedShutdown.ts:655-663 | A merge adds exactly the dependencies its child names, to exactly the phase it names |
| `ShutdownPhases.AddedLast` | src/CoordinatedShutdown.ts:349-359 | After any calls, `addPhase` adds its phase if and only if the name is new and every dependency is a phase, and changes nothing else |
| `ShutdownPhases.DependencyRunsBefore` | src/CoordinatedShutdown.ts:839-865 | Either sort puts a phase after everything it depends on |
| `ShutdownPhases.StuckMeansDeclaredCycle` | src/CoordinatedShutdown.ts:632-639 | A registration round in which no pending phase is ready means that the declared phases are cyclic among themselves |
| `ShutdownPhases.RankedMeansAcyclic` | src/CoordinatedShutdown.ts:632-651 | Phases registered each after what it waits for form no cycle |
| `ShutdownPhases.SeedRunsFirst` | src/CoordinatedShutdown.ts:570-577 | Where the seeded edges survive and every other phase has an edge, the first phase run is the first of the seed and the seeded phases keep their order |
| `ShutdownGraphs.SeedIsFit` | src/CoordinatedShutdown.ts:252-274 | A seed of distinct names, each after the one before, is closed, acyclic and duplicate-free |
| `ShutdownGraphs.ShutdownGraph.RegisterDeclaredPhases` | src/CoordinatedShutdown.ts:620-651 | Terminates, and accepts if and only if every declared phase names a dependency and they are acyclic among themselves; then exactly they were added |
| `ShutdownGraphs.ShutdownGraph.AddRound` | src/CoordinatedShutdown.ts:640-647 | Every ready phase of a round is accepted and added in order |
| `ShutdownGraphs.ShutdownGraph.MergeOverrides` | src/CoordinatedShutdown.ts:605-607 | The loop merges exactly the children that declare no phase of their own |
| `ShutdownGraphs.ShutdownGraph.ApplyPhaseOverrides` | src/CoordinatedShutdown.ts:582-609 | Accepts if and only if dependencies resolve, new phases have one, and the resulting graph is acyclic and duplicate-free; the graph is then the configured one |
| `ShutdownGraphs.ConfiguredEdges` | src/CoordinatedShutdown.ts:599-663 | The configured graph has an edge if and only if it is seeded or a child of the block for that phase names it, whether the child declares the phase or merges into it |
| `ShutdownGraphs.ConfiguredRepeatsExactlyWhen` | src/CoordinatedShutdown.ts:655-663 | The configured graph repeats no dependency if and only if no child repeats one that the seeded phase of its name does not have |
| `ShutdownGraphs.ConfiguredOrderIsKept` | src/CoordinatedShutdown.ts:582-663 | In the sort of every accepted configuration, after whatever `addPhase` calls, a phase runs after every dependency its child of the block names |
| `ShutdownGraphs.ShutdownKeepsItsOrder` | src/CoordinatedShutdown.ts:570-609 | For every accepted configuration a run sorts, starts with `before-service-unbind` and runs the canonical phases in canonical order |
| `ShutdownGraphs.DuplicateDependencyBreaksTheRun` | src/CoordinatedShutdown.ts:349-359 | `addPhase` takes a phase naming a dependency twice, after which the shutdown sort fails where the startup sort would not |
| `StartupGraphs.StartupKeepsItsOrder` | src/CoordinatedStartup.ts:483-561 | A checked graph is refused if and only if it is cyclic; otherwise `persistence-start` runs first and `before-system-ready` after it |
| `StartupGraphs.BuiltEdges` | src/CoordinatedStartup.ts:483-561 | The built graph has an edge if and only if it is seeded or named by the code's entry for that phase, or by the block's child where the code has no entry |
| `StartupGraphs.StartupOrderIsKept` | src/CoordinatedStartup.ts:483-603 | The startup runs a phase after every dependency that entry names |
| `StartupGraphs.StartupGraph.Build` | src/CoordinatedStartup.ts:483-574 | Accepts if and only if the entries pass the checks and neither the block alone nor the whole graph is cyclic; the graph is then the built one |
| `StartupGraphs.StartupGraph.PutEach` | src/CoordinatedStartup.ts:547-561 | The loop merges every entry over its seeded phase, in order |
| `LifecycleTheorems.StartupSettlesOnce` | src/CoordinatedStartup.ts:243-346 | In every run at most one of completed, failed and abandoned holds, readiness agrees with it, a failure is reported exactly once per failed startup, and nothing of this changes afterwards |
| `LifecycleTheorems.StartDecides` | src/CoordinatedStartup.ts:243-260 | `_start` completes at once if and only if no phase has a task, and runs otherwise |
| `LifecycleTheorems.WalkBegins` | src/CoordinatedStartup.ts:289-296 | The walk begins with the first phase unless the startup was abandoned or a shutdown has begun |
| `LifecycleTheorems.PhaseEndDecides` | src/CoordinatedStartup.ts:293-346 | The end of a phase abandons the startup once a shutdown has begun, fails it if and only if a task failed and the phase does not recover, and else begins the next phase or completes |
| `LifecycleTheorems.RunnerFailureDecides` | src/CoordinatedStartup.ts:256-258 | The runner's own failure fails the startup and is reported once, unless a shutdown has begun |
| `LifecycleTheorems.ReadyMeansEveryTaskRan` | src/CoordinatedStartup.ts:289-310 | Readiness implies that every task of every phase ran and was seen to end, and that none failed unless its phase recovers |
| `LifecycleTheorems.NoPhaseBeginsAfter` | src/CoordinatedStartup.ts:293-330 | No startup phase begins once the startup is settled or a shutdown run was asked for |
| `LifecycleTheorems.PhaseBeginsAfterTerminateExactlyWhen` | src/ActorSystem.ts:1080-1094 | After a `terminate()` of a system still up a startup phase can begin, in some continuation, if and only if the graph is not yet sealed, it has tasks, and the call leaves no run behind |
| `LifecycleTheorems.UnsealedBegins` | src/CoordinatedStartup.ts:243-260 | The run that shows it: `_start` and its first phase, on any system without a run whose graph is unsealed and has tasks |
| `LifecycleTheorems.AbandonmentAbortsEveryTask` | src/CoordinatedStartup.ts:274-287 | Whatever abandons the startup leaves no task of that moment running |
| `LifecycleTheorems.TasksStartAfterAbandonmentExactlyWhen` | src/CoordinatedStartup.ts:358-361 | A startup task can still start after an abandonment if and only if the abandonment came while a phase was being launched with tasks left, and not from the runner's own failure |
| `LifecycleTheorems.SiblingStillLaunches` | src/CoordinatedStartup.ts:361-361 | A first task that shuts the system down as it is launched, in any of the ways there are, is aborted, and its sibling is launched and runs |
| `LifecycleTheorems.FailureAbortsItsPhase` | src/CoordinatedStartup.ts:364-382 | Once a failure stops the startup no task of its phase is running |
| `LifecycleTheorems.OneWalkOneCascade` | src/CoordinatedShutdown.ts:414-440 | In every run the pipeline is walked at most once and the stop cascade enqueued at most once |
| `LifecycleTheorems.TerminateIsNeverLost` | src/ActorSystem.ts:1080-1094 | From any `terminate()` on, in every continuation, the teardown has begun or a reaction that begins it waits for a run; which of the two is `TerminateRunsThePipelineExactlyWhen` |
| `LifecycleTheorems.TerminateRunsThePipelineExactlyWhen` | src/ActorSystem.ts:1080-1094 | A `terminate()` of a reachable system still up joins a run in flight; it opens a run if and only if the choice, else the configuration, asks for it, no teardown has begun, the extension builds and there was no run, and the teardown then has not begun; a run that ended is joined, and in every other case the teardown has begun |
| `LifecycleTheorems.TeardownBegins` | src/ActorSystem.ts:1185-1216 | Whatever begins the teardown drains first where that is configured and enqueues the one stop cascade at once where it is not |
| `LifecycleTheorems.SignalOpensARun` | src/CoordinatedShutdown.ts:500-505 | A signal without a run leaves one that is open and told to go, with no startup running; with a run it changes nothing |
| `LifecycleTheorems.ReasonsDecide` | src/CoordinatedShutdown.ts:80-105 | A run is marked as failed by an unsuccessful join and by no other reason, and told to go by a process signal, a downing or an unsuccessful join; a call that joins a run changes nothing but that mark |
| `LifecycleTheorems.FailedStartupIsAnswered` | src/ActorSystem.ts:1401-1406 | A failed startup has begun the teardown, or waits for it behind a run marked as failed |
| `LifecycleTheorems.TeardownFollowsTheRun` | src/ActorSystem.ts:1138-1155 | Once the run has ended, the waiting reaction is enabled and begins the teardown |
| `ShutdownRuns.TeardownWaitsForTheRun` | src/ActorSystem.ts:1083-1088 | While a run is in flight only its own terminator task or its halt begins the teardown |
| `ShutdownRuns.EarlierPhasesAreOver` | src/CoordinatedShutdown.ts:686-693 | When a shutdown task starts, every task of every earlier phase is over, successfully where the phase does not recover |
| `ShutdownRuns.HaltedRunStartsNothing` | src/CoordinatedShutdown.ts:685-694 | After a halt no step of any continuation starts a task or enters a phase |
| `ShutdownRuns.ExitsCleanExactlyWhen` | src/CoordinatedShutdown.ts:694-702 | Whichever step takes the exit status, a process that then exits does so with `exit-code`, except that 0 becomes 1 where the run was marked as failed before that step or the step is a halt; so with 0 if and only if `exit-code` is 0 and neither holds, and then every phase has run |
| `ShutdownRuns.HaltDecides` | src/CoordinatedShutdown.ts:732-745 | A halt exits the process without a teardown where that is configured; else the run has ended, and begins the teardown if and only if its trigger told the node to go and `terminate-actor-system` is on |
| `ShutdownRuns.ShutdownPhaseEndDecides` | src/CoordinatedShutdown.ts:685-702 | The end of a phase goes on to the next one and, behind the last, to the exit or the end of the run |
| `ShutdownRuns.PromiseTellsHowItEnded` | src/CoordinatedShutdown.ts:438-438 | The promise of a run resolves if and only if the run completed |
| `ShutdownRuns.MarkedRunNeverExitsClean` | src/CoordinatedShutdown.ts:702-702 | A run marked as failed before its status is taken never exits with 0, in any continuation |
| `ShutdownRuns.FailureDuringTheFlush` | src/CoordinatedShutdown.ts:760-763 | For every system that exits its process with code 0, whatever its phases, a run reported as failed during the flush still exits with 0 |
| `ShutdownRuns.FailureIsMissedExactlyWhen` | src/CoordinatedShutdown.ts:702-702 | A process whose run was marked as failed can exit with 0 if and only if `exit-process` is on, `exit-code` is 0 and the phases sort |
| `ShutdownRuns.ToldRunsAreAnsweredExactlyWhen` | src/CoordinatedShutdown.ts:526-537 | Every run told by a signal, a downing or a failed join takes the system down when it ends if and only if its phases sort and the process exits or the terminator is still registered |
| `SignalledShutdown.SignalTakesTheSystemDownExactlyWhen` | src/CoordinatedShutdown.ts:674-706 | For every accepted configuration and every later `addPhase`: a signal's run that ends takes the system down if and only if no phase names a dependency twice, and the process exits or the terminator is in place |
| `LifecycleInvariants.StepKeeps` | src/ActorSystem.ts:1080-1216 | Every step of every component keeps the joint invariant of startup, pipeline and teardown, and undoes nothing that was settled |
| `ActorSystems.CoordinatedStartup.Abandon` | src/CoordinatedStartup.ts:274-287 | The object moves as `Lifecycles.Abandoned` says, its loop aborting every task in flight |
| `ActorSystems.CoordinatedStartup.AbortAll` | src/CoordinatedStartup.ts:284-284 | The loop settles every running task as failed and leaves the others alone |
| `ActorSystems.ActorSystem.Perform` | src/ActorSystem.ts:1080-1216 | Any piece of code that may run next, run on the three objects: the pipeline is walked and the cascade enqueued at most once, readiness never changes once settled, and a `terminate()` or a failed startup has its teardown begun or waiting |
| `ActorSystems.ActorSystem.Drive` | src/ActorSystem.ts:1080-1216 | Any sequence of steps run on the objects leads where the run of the state machine leads |
| `ChainedTimeouts.LinksMakeTheDelay` | src/Scheduler.ts:160-164 | The links of a delay add up to it exactly, none exceeds the ceiling, and there are max(1, ⌈delay/ceiling⌉) of them |
| `ChainedTimeouts.ChainIsOneTimer` | src/Scheduler.ts:130-175 | Over every order of elapsing links and cancels the callback runs at most once, exactly when all links ran out before a cancel; after a cancel no link is armed |
| `ChainedTimeouts.ChainedTimeout.OnLinkElapsed` | src/Scheduler.ts:166-174 | The callback fires if and only if the links that ran out make up the whole delay; until then a link the host can hold is armed |
| `ChainedTimeouts.ChainedTimeout.CancelChain` | src/Scheduler.ts:150-156 | Leaves no link armed and the callback uncalled if it was, whichever link was armed |
| `SchedulerTheorems.TimersBelongToLiveSchedules` | src/Scheduler.ts:332-344 | In every reachable state each armed host timer belongs to a live, unsettled schedule that holds its handle, and fits one host timer |
| `SchedulerTheorems.LiveSchedulesHaveOneTimer` | src/Scheduler.ts:426-533 | A schedule never has two timers; before a shutdown it is live if and only if it has one |
| `SchedulerRuns.EveryRunIsOnTime` | src/Scheduler.ts:426-533 | For every sequence of steps each run of a schedule comes after exactly the links that make up the delay that was submitted, or the interval after the first run: they sum to it and each fits the host; a one-shot runs at most once |
| `SchedulerRuns.PlansAreWhatWasAsked` | src/Scheduler.ts:426-533 | In every run the schedules are those the `Submit` actions asked for, the ones made inside ticks included, in order |
| `SchedulerRuns.SubmitArms` | src/Scheduler.ts:426-472 | Scheduling arms one timer, for the new schedule, of the delay or of as much of it as the host holds, and disturbs no other timer or schedule |
| `SchedulerRuns.CancelEnds` | src/Scheduler.ts:41-62 | A cancel clears the timers of its schedule and no others, and in every continuation that schedule neither runs nor has a timer |
| `SchedulerRuns.FireRunsExactlyWhen` | src/Scheduler.ts:426-533 | A timer that fires runs its schedule's code, first of all and with everything the code asks for, if and only if the scheduler is up and nothing is left of the chain |
| `SchedulerRuns.LinkMovesOn` | src/Scheduler.ts:158-174 | A link that is not the last arms the next, of what is left or of as much as the host holds, and disturbs nobody else |
| `SchedulerTheorems.SettledForGood` | src/Scheduler.ts:41-62 | Once a schedule is settled no timer of it is armed and it never runs again, in every continuation |
| `SchedulerTheorems.TickEndsItself` | src/Scheduler.ts:454-472 | A tick that cancels its own schedule or shuts the scheduler down is that schedule's last, and leaves it no timer |
| `SchedulerTheorems.ShutdownEndsEverything` | src/Scheduler.ts:323-328 | A shutdown leaves no timer armed, nothing runs after it, and later timers belong only to later schedules |
| `SchedulerTheorems.ScheduledAfterShutdown` | src/Scheduler.ts:426-442 | Scheduling after a shutdown still arms a host timer |
| `SchedulerObjects.Scheduler.OneShot` | src/Scheduler.ts:426-442 | The plain timer and the chain make the same schedule: the plan recorded is the delay asked for, and the timer armed is of that delay or of the ceiling |
| `SchedulerObjects.Scheduler.FixedRate` | src/Scheduler.ts:444-472 | The same for a repeating schedule, whose first timer is of the first delay and whose plan keeps the interval |
| `SchedulerObjects.Scheduler.CancelSchedule` | src/Scheduler.ts:45-50 | Clears whichever handles the schedule holds, once |
| `SchedulerObjects.Scheduler.ShutDown` | src/Scheduler.ts:323-328 | The loop over a copy of `live` cancels every schedule, as `AfterShutdown` says |
| `SchedulerObjects.Scheduler.RunCode` | src/Scheduler.ts:369-371 | The code of a schedule, which re-enters the scheduler, moves it as `AfterActions` says |
| `SchedulerObjects.Scheduler.TakeStep` | src/Scheduler.ts:323-533 | A call or a firing timer on the object: every armed timer belongs to a live schedule and fits the host, and a schedule that was settled has none |
| `RestartBudgets.AnswersAsTheFullHistory` | src/Supervision.ts:100-110 | Where no reading returns into a window left behind, every request is answered as counting over all grants would answer it |
| `RestartBudgets.PrunedListIsExactExactlyWhen` | src/Supervision.ts:100-110 | Under every budget the pruned list shows each request exactly the grants of its window, if and only if no reading returns into a window left behind |
| `RestartBudgets.GrantedExactlyWhen` | src/Supervision.ts:100-110 | Where no reading returns, a request is granted if and only if the budget is unlimited, or the grants counted from the start of its window on, or all grants without a window, are fewer than `maxRetries` |
| `RestartBudgets.UnlimitedGrantsEverything` | src/Supervision.ts:97-101 | With a negative `maxRetries` every request is granted and nothing is stored |
| `RestartBudgets.NondecreasingNeverReturns` | src/Clock.ts:22-26 | A nondecreasing clock meets that condition |
| `RestartBudgets.AtMostMaxRetriesInAnyWindow` | src/Supervision.ts:100-110 | Where no reading returns, no closed window of the configured length holds more than `maxRetries` grants |
| `RestartBudgets.AtMostMaxRetriesInAll` | src/Supervision.ts:100-110 | Without a window at most `maxRetries` restarts are granted in all, whatever the clock does |
| `RestartBudgets.StoredIsBounded` | src/Supervision.ts:70-72 | The stored list never exceeds `maxRetries`, whatever the clock does |
| `RestartBudgets.ClockThatGoesBack` | src/Clock.ts:22-26 | A clock that goes back grants a third restart in a window for two |
| `RestartBudgets.RestartBudget.RegisterRestart` | src/Supervision.ts:100-110 | Records the request and grants it exactly as the run over all readings so far says |
| `ScatterGatherTheorems.AtMostOneReply` | src/ScatterGatherRouter.ts:252-263 | In every run a scatter has one reply if it is settled and none otherwise, and `pending` is exactly the unanswered scatters |
| `ScatterGatherRuns.FirstReplyWins` | src/ScatterGatherRouter.ts:161-196 | For every message and every continuation: a forwarded reply goes to the caller, carries the value of the first reply among the settlements of its scatter and the name of the routee of that pool that gave it, and everything that settled earlier failed |
| `ScatterGatherRuns.FailureMeansEveryRouteeFailed` | src/ScatterGatherRouter.ts:151-223 | For every message and every continuation: a failure is reported only after every routee of the pool at the time of the message failed, and as a timeout if and only if all of them, at least one, timed out |
| `ScatterGatherRuns.MessageAsksThePool` | src/ScatterGatherRouter.ts:143-164 | A message with a reply target makes one scatter that asks exactly the routees of the pool, every attempt waiting, and answers at once where there are none; a message without one makes none and is counted as dropped |
| `ScatterGatherRuns.ScatterRun` | src/ScatterGatherRouter.ts:149-164 | Whom a scatter asked and whom it answers never change, in any continuation |
| `ScatterGatherRuns.ReactionAnswers` | src/ScatterGatherRouter.ts:161-223 | The reaction answers a scatter that is still open, once and to its caller: with a reply if and only if some routee replied, with a timeout if and only if all timed out |
| `ScatterGatherRuns.StopAnswersTheOpenOnes` | src/ScatterGatherRouter.ts:236-242 | A stop or a restart answers every open scatter once, as stopped, and nobody else |
| `ScatterGatherRuns.StoppedMeansTheRouterStopped` | src/ScatterGatherRouter.ts:236-242 | A caller is told that the router stopped only where it stopped or restarted |
| `ScatterGatherRuns.WithoutMeans` | src/ScatterGatherRouter.ts:124-127 | Exactly the first occurrence of a routee that stopped is removed and the order of the rest stays; an unknown routee changes nothing |
| `ScatterGatherRuns.TerminatedIsNeverAskedAgain` | src/ScatterGatherRouter.ts:124-127 | Once the router knows that a routee stopped, no later message of any continuation asks it, restarts included |
| `ScatterGatherRuns.TerminationPrunesOne` | src/ScatterGatherRouter.ts:124-127 | In every reachable state only that routee leaves the pool, and nothing but the pool changes |
| `ScatterGatherRuns.RestartSpawnsAFreshPool` | src/ScatterGatherRouter.ts:95-101 | A restart replaces the pool by one of the configured size, whose routees take the next numbers; none of them was in the pool before |
| `ScatterGatherTheorems.NoScatterIsForgotten` | src/ScatterGatherRouter.ts:143-164 | An unanswered scatter still waits for an attempt or for the reaction that answers it |
| `ScatterGatherTheorems.NothingAfterStop` | src/ScatterGatherRouter.ts:236-242 | A stopped router has answered everyone, and what settles later answers nobody |
| `ScatterGatherRouterActors.ScatterGatherRouter.OnTerminated` | src/ScatterGatherRouter.ts:124-127 | The search and the splice remove the first occurrence of the routee |
| `ScatterGatherRouterActors.ScatterGatherRouter.PostStop` | src/ScatterGatherRouter.ts:236-238 | The loop answers every open scatter |
| `ScatterGatherRouterActors.ScatterGatherRouter.OnRestart` | src/ScatterGatherRouter.ts:95-101 | A restart answers every open scatter and spawns a fresh pool |
| `ScatterGatherRouterActors.ScatterGatherRouter.Perform` | src/ScatterGatherRouter.ts:94-263 | Any step on the object: every scatter has one reply if it is settled and none otherwise, and `pending` holds exactly the others |

## Left out

- RestartBudgets.AtMostMaxRetriesInAnyWindow: one direction only. Where a reading returns, the list misses a grant, but it also counts grants stamped later than the reading, so a budget need not be exceeded; which clocks exceed one depends on every grant in between and is not characterised.
- RestartBudgets.AnswersAsTheFullHistory: one direction only, for the same reason; the exact condition is proved for what a request sees in the list.
- Logging, metrics, labels and warning texts; the number of cascade warnings is kept.
- The event bus's observer, and channel matching or `tell` that themselves run code which publishes: matching is a predicate and `tell` an entry in the trace. Such code can recurse without a bound of the bus's own.
- Callbacks of the event bus are arbitrary functions of the callback, the event and the whole state of the bus; a callback that does not return is not modelled, and a promise it returns has no effect on the bus.
- A `subscribeFunction` refused after the end of the system is an action without effect; whether its exception ends the callback that made it is that callback's own `Throw`.
- The `subscribed` flag of each callback subscription is kept as a set of ids, and the argument checks of `subscribe` and `subscribeFunction` are left out.
- Dispatchers run synchronous units; error sinks and dispatcher ids are left out, and the ring buffer is a sequence.
- Phase timeouts and the `recover` field in phase merging, and the reading of configuration text; phase names compare by Dafny's character order, which is JavaScript's for names without surrogate pairs.
- Startup and shutdown tasks are the moments at which they start and settle; a budget that fires is a task that settles with a failure. `addTask` and its name checks are left out.
- The asynchronous bodies of `CoordinatedStartup.run` and `CoordinatedShutdown._run` are steps of the state machine rather than methods: Dafny methods do not suspend. `ActorSystem.Perform` runs every such piece on the objects.
- `process.exit` ends the process; a test that replaces it and returns is not modelled. What happens after the root has terminated (closing sinks, resolving waiters) is one step.
- `awaitQuiescence`, the preludes and the drain are one step that may come at any time after the teardown began.
- Delays and clock readings are integers; an infinite delay is not modelled. `tell` from a schedule does not throw.
- A host timer fires at most as the timer table allows, in any order: no clock orders timers of different schedules.
- Routee replies are integers and errors keep only whether they are timeouts; the router's restart is a stop followed by a fresh pool.
- Actor paths, selections, extensions, mailboxes, supervision strategies, the cluster and persistence are not part of this model; path printing and parsing would only add easy members.
