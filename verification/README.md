# CortexFlow, modelled and proved in Dafny

CortexFlow is a single-threaded, run-to-completion actor runtime: a FIFO queue of envelopes, timers in a heap with
lazy cancellation, a typed cache that tells its subscribers about changes, and per-module state machines whose
locals live exactly as long as a state. This project models the runtime's components, the concurrency of `post`,
`stop` and `run`, the button pipeline built from them, and two pieces beside the runtime: the brace-scope scanner
of the diagram scripts and the hash behind type identifiers.

Run `dafny verify dfyconfig.toml` in this directory to check everything.

## How it is put together

**The pipeline** (`Pipeline*.dfy`). Debouncer, ClickClassifier and UiController over queue, cache, timers and
clock are one transition system (`PipelineModel`). Its actions are a raw transition posted by any thread at any
moment, `stop`, the passing of time, `ManualClock::advance` between calls of `run_one`, and the steps of the loops
of `run` and `run_one`. `PipelineInvariant.Inv` is an inductive invariant in seven parts; `PipelineSteps` and
`PipelineDispatch` show that every action keeps it, and `PipelineTheorems` reads off it what holds of every run:
that gating gestures on the payload type is sound, conservation of presses, time bounds, the "impossible"
branches, and the accounting of subscriptions and timers. `PipelineReference` is an independent description of the
button, a lockout and a gesture recogniser without any queue, timer or module; `PipelineClient` and
`PipelineSessions` prove that every session of a client under the manual clock behaves like it. `PipelineInbox`
gives that button an inbox (`ButtonInbox`) and proves that every run before stop, under either clock and however
posts, time, firings and dispatches interleave, is a run of it step by step. `PipelineSteady` shows that `run`
under a steady clock can go through a round that does what the plain button does, and `PipelineRounds` that every
round does whose time passes before the firing. `PipelineStale` says exactly when advancing the clock in the
middle of a drain makes a gesture stale, `PipelineWindow` exactly when a double click is late and by how much;
`PipelineCounterexamples`, with the states of `PipelineHazard`, shows that both happen. `PipelineFlows` proves
that the three modules do, event by event, what the flow machine logs for their handlers. `PipelineRun` follows
`run` from its call to its return and says what a stop leaves to be done.

**Concurrency** (`Concurrency.dfy`). `post`, `stop` and `run` are cut into the steps that the mutex and the
condition variable leave atomic, for any number of posting and stopping threads and one loop. The facts hold over
all interleavings. `Linearization` maps every interleaving to a run of a queue with atomic operations, which is
why a post is one step in the pipeline system. `LoopTheorems` is about the wait, the rounds and the calls of
handlers.

**Components.** `TimerHeap`, `TimerService` and `TimerHandle` are the heap, the service and the RAII handle as
classes over arrays, each method proved equal to an operation of `TimerSpec` on a map from sequence numbers to
timers; `TimerLedger` follows every timer to its fate. `CachePool` is the slot pool with its order array, each
method proved equal to an operation of `CacheSpec` on the list of subscribers in registration order;
`Subscriptions` is the move-only handle and the ownership of slots, `HandleScope` ties the two together over
programs of handles, `CacheStreams` what a subscription receives, `CacheOrder` in which order. `Flow` is the step
loop, proved against the machine of `FlowMachine`; `FlowBrackets`, `FlowTheorems` and `FlowEntries` state what
holds of every flow. `Runtime` is queue, drain and shutdown on one thread, proved against `RuntimeMachine`, and
`RuntimeTheorems` says what they keep and lose.

**Beside the runtime.** `Neutralizer`, `Regions`, `Braces`, `Scanner`, `SourceTrees` and `ScanTheorems` are
`scripts/diagrams/brace_scope.py`: `Regions` says of every character what becomes of it, `SourceTrees` which
functions are found in a text spelled from a tree of scopes; `Fnv` is the hash of
`include/cortexflow/type_name.hpp`.

The same `TimerSpec` and `CacheSpec` specify the classes and are the timers and the cache of the pipeline, so what
is proved of the pipeline is about the verified components.

Assertions of the program are preconditions of the methods where the caller is responsible, and proved unreachable
where the program is: the search for a free slot, the order list on release, the subscription pool of the
pipeline, the context and the owner of a flow. Time, identifiers and sequence numbers are unbounded integers; the
hash is computed modulo 2^64.

Handlers, state functions and callbacks are arbitrary. In the flow and the runtime they are given by lists of what
they answer, one entry per call, so that all of an execution's choices are parameters of the theorems. A callback
of a flow may restart, terminate, step and start it; what the source asserts of these calls is a flag of the
machine, and the methods of `Flow` ask that it stays clear.

## Findings

- `ManualClock::advance` called while a drain is under way breaks the order on which `ClickClassifier::handle`
  relies: `PipelineCounterexamples.MidDrainAdvanceIsUnsafe` gives a reachable state in which a LongPress is sent
  although the release came first. `PipelineStale.StaleExactly` gives the condition for every state of a drain: a
  gesture timer reaches the wrong state iff a change is queued, the classifier's own timer is due and the runtime
  is not stopped. The order of the queue is lost more often, harmlessly: `PipelineStale.MidDrainOrder`. The
  comment in `examples/button_pipeline/modules/click_classifier.cpp:29-33` credits the cancelled timer; a timer
  whose envelope has been posted can no longer be cancelled, and what keeps gestures fresh is that `run` fires
  only before a drain to empty (`PipelineTheorems.NoChangeWhenFiring`).
- `docs/architecture.md:376` says that `terminate` calls `on_flow_done`. The code does not
  (`include/cortexflow/flow.hpp:340-349`), and neither does the model.
- `shutdown` clears the queue before it calls `on_stop`, so what modules post there is still queued at the next
  `start` (`RuntimeTheorems.ShutdownLeavesOnStopPosts`).
- A double click is decided when the second press is dispatched. The manual clock fires what falls due as it
  advances, so there the press lies within the window (`PipelineTheorems.TimedGestures`). A steady clock moves on
  while the loop drains, and a press taken for the second can be late by any amount
  (`PipelineCounterexamples.LateDoubleClick`), but always by less than the time since timers were last fired: it
  lies within the window iff that time is shorter than what was left of the window then
  (`PipelineWindow.SecondPress`), and no better bound holds (`PipelineCounterexamples.LatenessIsTight`).

## Model

| member | source | states |
|---|---|---|
| `PipelineTheorems.Reached` | examples/button_pipeline/modules/click_classifier.cpp:22-179 | The invariant holds in every state reachable by posts, stops, clock steps and loop steps in any order. |
| `PipelineTheorems.NoStaleGestures` | examples/button_pipeline/modules/click_classifier.cpp:29-57 | In every run no timer envelope is queued behind a `KeyChanged`, at most one of the two gesture timers is queued, and a queued `LongPressExpired`, `DoubleClickExpired` or `DebounceExpired` finds the state that armed it, so gating on the payload type is correct. |
| `PipelineTheorems.NoChangeWhenFiring` | include/cortexflow/runtime.hpp:227-232 | Whenever `fire_due` can run, the queue holds only raw transitions and timer envelopes. |
| `PipelineTheorems.PressConservation` | examples/button_pipeline/modules/click_classifier.cpp:22-179 | Before stop, committed presses = Clicks + LongPresses + 2 × DoubleClicks sent + presses pending in the classifier's state + queued presses. |
| `PipelineTheorems.GestureDelivery` | examples/button_pipeline/modules/ui_controller.cpp:29-81 | Gestures reach UiController once each and in order; the UI state is the fold of those handled, and `UiMode_Key` always equals it. |
| `PipelineTheorems.TimedGestures` | examples/button_pipeline/app.hpp:50-62 | Commits are at least 5 ms apart; a LongPress comes at least 500 ms after entering Pressed, a Click at least 300 ms after entering AwaitingSecondClick; a DoubleClick's window was open when timers were last fired before its second press, and under the manual clock the press lies within 300 ms. The armed timers are due exactly 5, 500 and 300 ms after the commit and the entries, under the manual clock all in the future. |
| `PipelineTheorems.ClassifierInSync` | examples/button_pipeline/modules/debouncer.cpp:33-47 | Committed values alternate starting with a press, at most one change is queued, and the last value seen followed by the queued one is the cached one. |
| `PipelineTheorems.ImpossibleBranches` | examples/button_pipeline/modules/click_classifier.cpp:124-163 | A press is never dispatched in Pressed or SecondPressed nor a release in AwaitingSecondClick, and a release reaches Idle only after a LongPress. |
| `PipelineTheorems.ResourceAccounting` | examples/button_pipeline/modules/debouncer.cpp:58-71 | Exactly one subscription at every boundary, no overflow at capacity 1; CoolingDown holds iff exactly one of armed debounce timer and queued expiry does; the armed timers are those of current states not yet fired. |
| `PipelineTheorems.NeverTwoSubscriptions` | include/cortexflow/flow.hpp:304-307 | Mid-transition the old subscription is gone before the new one is taken: 0, then 1, never 2. |
| `PipelineDispatch.DispatchInv` | include/cortexflow/runtime.hpp:180-194 | Dispatching any front envelope keeps all seven parts of the invariant. |
| `PipelineSteps.StepInv` | include/cortexflow/runtime.hpp:208-248 | Every other action (external posts, stop, time, firing, loop positions) keeps them too. |
| `PipelineInvariant.StartInv` | include/cortexflow/runtime.hpp:165-176 | `start` establishes the invariant. |
| `PipelineRun.RunReturnsDrained` | include/cortexflow/runtime.hpp:208-239 | In every run, whatever takes the loop out of `run` finds stop requested and the queue empty. |
| `PipelineRun.StopDrainsRun` | include/cortexflow/runtime.hpp:233-237 | Between a stop during `run` and its return exactly the envelopes queued at the stop are dispatched. |
| `PipelineRun.StopIsFinal` | include/cortexflow/runtime.hpp:242-248 | After a stop the flag stays set and nothing enters the queue, no transition, expiry, change or gesture: it is what was queued less what has been dispatched. |
| `PipelineRun.NoRoundAfterStop` | include/cortexflow/runtime.hpp:223-237 | After a stop a waiting loop fires once more if something is queued, and any other not at all. |
| `PipelineRun.NoDrainBeforeFiring` | include/cortexflow/runtime.hpp:227-232 | A waiting loop dispatches nothing before it has fired. |
| `PipelineRun.NoFiringBeforeCheck` | include/cortexflow/runtime.hpp:227-237 | It does not fire again before stop has been checked. |
| `PipelineRun.DrainsEndEmpty` | include/cortexflow/runtime.hpp:180-194 | Every drain, of `run_one` or of `run`, ends with an empty queue. |
| `PipelineDraining.DrainIsShort` | include/cortexflow/runtime.hpp:180-194 | An uninterrupted `run_one` of the pipeline dispatches at most three times as many envelopes as were queued. |
| `PipelineDraining.DispatchLighter` | include/cortexflow/runtime.hpp:180-194 | Every dispatch lowers the weight of the queue (raw 3, change and gesture timers 2, others 1), so the drain ends. |
| `PipelineStale.StaleExactly` | src/cortexflow/clock.cpp:24-31 | For every state of a drain: after an advance some continuation of the drain dispatches a timer envelope outside the state that armed it iff a change is queued, the timer of the classifier's state falls due and the runtime is not stopped. |
| `PipelineStale.StaleIsFound` | examples/button_pipeline/modules/click_classifier.cpp:29-57 | And then the drain is bound to come to the envelope of that very timer: the long-press timer in AwaitingSecondClick, or the double-click timer in SecondPressed. |
| `PipelineStale.BeyondSends` | examples/button_pipeline/modules/click_classifier.cpp:29-57 | There the gesture is sent all the same, and the state stays. |
| `PipelineStale.MidDrainOrder` | src/cortexflow/clock.cpp:24-31 | Such an advance keeps timers ahead of changes iff no change is queued or no timer at all falls due. |
| `PipelineCounterexamples.MidDrainAdvanceIsUnsafe` | examples/button_pipeline/modules/click_classifier.cpp:29-57 | There is a reachable mid-drain state in which such an advance makes the classifier send a stale LongPress. |
| `PipelineClient.ServedOne` | examples/button_pipeline/app.hpp:104-110 | One burst or wait of a client, drained by `run_one`, changes the pipeline as it changes the reference button. |
| `PipelineSessions.PipelineIsButton` | examples/button_pipeline/modules/click_classifier.cpp:22-179 | Every client session of bursts, waits and `run_one` under the manual clock is the reference button: same committed value, lockout, phase, gestures and published mode. |
| `PipelineSessions.SessionExists` | examples/button_pipeline/app.hpp:93-117 | Every such session can be carried out. |
| `PipelineInbox.EveryRunIsButton` | include/cortexflow/runtime.hpp:180-248 | Every run before stop, under either clock, with posts, ticks, advances, firings and dispatches in any order the program allows, is step by step a run of the reference button with an inbox. |
| `PipelineSteady.WaitRound` | include/cortexflow/runtime.hpp:208-232 | From any state at rest the loop of `run` under a steady clock can wait, wake, fire and drain, and comes to rest as what the reference button becomes when that time passes. |
| `PipelineSteady.ReadRound` | include/cortexflow/runtime.hpp:208-232 | Likewise for a raw transition that wakes the loop, with the reference's reading. |
| `PipelineRounds.EveryWaitRound` | include/cortexflow/runtime.hpp:208-232 | Every round with ticks before the firing only, and no arrivals, ends in the reference's state for that time, however the time is cut and whatever batch is fired. |
| `PipelineRounds.EveryReadRound` | include/cortexflow/runtime.hpp:208-232 | Likewise every such round in which a burst of raw transitions arrives before the firing and nothing is overdue. |
| `PipelineWindow.SecondPress` | examples/button_pipeline/modules/click_classifier.cpp:137-152 | In every run a second press is taken for a double click whenever it is dispatched before the expiry. The window was open when timers were last fired, so the press is late by less than the time since, and within the window iff that time is shorter than what was then left of it. |
| `PipelineWindow.ClockSinceFiring` | include/cortexflow/runtime.hpp:227-232 | In every run the clock shows the time of the last firing plus the ticks since. |
| `PipelineCounterexamples.LatenessIsTight` | examples/button_pipeline/modules/click_classifier.cpp:137-152 | That bound is tight: for every time since the last firing there is a run whose second press comes that time less one after the end of the window. |
| `PipelineCounterexamples.LateDoubleClick` | examples/button_pipeline/modules/click_classifier.cpp:137-152 | For every delay there is such a run under a steady clock in which the second press is that late. |
| `PipelineFlows.DebouncerIsFlow` | examples/button_pipeline/modules/debouncer.cpp:20-71 | The Debouncer's step is, event by event, what the flow machine logs for its handler's directive: the handler commits, leaving CoolingDown cancels its timer, entering it arms one, in that order and with nothing else changed. |
| `PipelineFlows.ClassifierIsFlow` | examples/button_pipeline/modules/click_classifier.cpp:22-179 | The same for the classifier: after the gesture is sent, the old state's timer is cancelled and its subscription released before the new state subscribes and arms its own. |
| `PipelineFlows.UiIsFlow` | examples/button_pipeline/modules/ui_controller.cpp:20-81 | The same for the UiController: a mode is published when its state is entered. |
| `PipelineReference.DrainReadings` | examples/button_pipeline/modules/debouncer.cpp:33-71 | Draining a burst of raw transitions has the effect of the reference's readings. |
| `PipelineReference.DrainExpiries` | examples/button_pipeline/modules/click_classifier.cpp:102-152 | Draining fired timers has the effect of the reference's expiries. |
| `Concurrency.QueueIsFifo` | include/cortexflow/runtime.hpp:298-313 | Over all interleavings accepted = dispatched, in flight, queued, in the order in which the mutex was taken. |
| `Concurrency.FifoPerProducer` | include/cortexflow/runtime.hpp:298-313 | What is accepted from one thread is a prefix of what it posted, in program order; before stop only the envelope in hand is missing. |
| `Concurrency.WakeupOnItsWay` | include/cortexflow/runtime.hpp:211-222 | If the loop is parked with work queued or stop set, some thread is past its critical section and has yet to notify. |
| `Concurrency.NothingAcceptedAfterStop` | include/cortexflow/runtime.hpp:242-248 | After the critical section of `stop` nothing is accepted. |
| `Concurrency.RunReturnsDrained` | include/cortexflow/runtime.hpp:208-239 | `run` returns only after stop with everything accepted dispatched, and the queue stays empty. |
| `Linearization.RunsAreAtomic` | include/cortexflow/runtime.hpp:298-313 | Every interleaving is a run of a queue whose put, take and close are atomic, with the same contents and the same envelopes taken. |
| `Linearization.CallsTakeEffectOnce` | include/cortexflow/runtime.hpp:298-313 | In that run each post of a thread takes effect once and in program order; only the one under way may be missing. |
| `Linearization.StepsAreAtomic` | include/cortexflow/runtime.hpp:298-313 | Every step is nothing or one of those operations: a post is the push, or the read of the flag that turns it away. |
| `Concurrency.DrainAfterStopIsBounded` | include/cortexflow/runtime.hpp:298-313 | After stop at most what is queued or in hand is dispatched, whatever handlers post. |
| `Concurrency.SomebodyCanMove` | include/cortexflow/runtime.hpp:208-239 | No deadlock: unless the loop has returned or waits rightly, an internal step is enabled, and after stop one that brings `run` closer to returning. |
| `Concurrency.StopLeadsToReturn` | include/cortexflow/runtime.hpp:208-248 | After stop `run` can always be carried to its return without new calls, timeouts or spurious wake-ups. |
| `LoopTheorems.HandlersCallsAreMade` | include/cortexflow/runtime.hpp:227-239 | Over all interleavings the calls of the handlers, posts and stops, and the posts of `fire_due` are made once each and in order; what is missing is still to be called. |
| `LoopTheorems.IssuedIsMade` | include/cortexflow/runtime.hpp:298-313 | What a thread counts as posted is what it has called `post` with. |
| `LoopTheorems.StopEndsTheWait` | include/cortexflow/runtime.hpp:223-226 | If stop is set while the loop waits with nothing queued, it fires no timer and dispatches nothing any more. |
| `LoopTheorems.TimeoutLeadsToFiring` | include/cortexflow/runtime.hpp:211-227 | A bounded wait can always run out, and the loop then goes on to the timers with nothing queued, unless stop has ended it. |
| `LoopTheorems.WaitKeepsItsBound` | include/cortexflow/runtime.hpp:213-219 | Spurious wake-ups neither add nor remove the bound of a wait, and an expiry is not forgotten. |
| `LoopTheorems.DrainedBetweenRounds` | include/cortexflow/runtime.hpp:227-232 | Between two visits to the timers the queue is drained until it is empty. |
| `LoopTheorems.NoRoundAfterStop` | include/cortexflow/runtime.hpp:233-237 | After a stop the loop goes to the timers at most once more, and only in the round under way. |
| `TimerHeap.PushHeap` | include/cortexflow/timer.hpp:161-163 | Sift-up restores heap order on the array and keeps the entries. |
| `TimerHeap.PopHeap` | include/cortexflow/timer.hpp:215-217 | Swaps the root to the end and sifts down: the rest is heap-ordered and the multiset unchanged. |
| `TimerHeap.RootIsEarliest` | include/cortexflow/timer.hpp:302-306 | In a heap the root is due no later than any entry. |
| `TimerServices.TimerService.constructor` | include/cortexflow/timer.hpp:119-122 | An empty service; numbers start at 1. |
| `TimerServices.TimerService.Arm` | include/cortexflow/timer.hpp:149-172 | Adds the timer to the map under a number never used before; heap order, uniqueness and live ⊆ heap are kept. |
| `TimerServices.TimerService.CancelBySeq` | include/cortexflow/timer.hpp:317-350 | Removes it from the map, leaving a tombstone in the heap; otherwise nothing. |
| `TimerServices.TimerService.FireDue` | include/cortexflow/timer.hpp:197-242 | Posts exactly the live timers due by now, once each, earliest first: before stop their envelopes are behind what was queued, after stop the queue is unchanged. The other timers stay, and no entry due by now is left, tombstones included. |
| `TimerServices.TimerService.Collect` | include/cortexflow/timer.hpp:209-227 | The same for the critical section alone. |
| `TimerServices.FiringEnds` | include/cortexflow/timer.hpp:214-226 | When the loop stops, what it popped alive is exactly the due part of the map, in order, and the rest of heap and live set stands for the map without it. |
| `TimerServices.TimerService.Clear` | include/cortexflow/timer.hpp:248-254 | Empties the map and unbinds the sink; numbers are not reset. |
| `TimerServices.TimerService.ArmedCount` | include/cortexflow/timer.hpp:259-262 | The number of live timers. |
| `TimerServices.TimerService.NextDueAt` | include/cortexflow/timer.hpp:276-288 | The minimum due over live timers, None iff there are none. |
| `TimerServices.ComputeWaitBudget` | include/cortexflow/runtime.hpp:368-379 | At any later moment a timer is due iff the budget has passed; unbounded iff none is armed. |
| `TimerServices.Advance` | src/cortexflow/clock.cpp:24-31 | Moves time, then fires synchronously at the new time: before stop the due envelopes are queued, after stop none; every timer left is due later. |
| `TimerHandles.Timer.Release` | include/cortexflow/timer.hpp:75-80 | Cancels the timer once and makes the handle inert. |
| `TimerHandles.Timer.TakeFrom` | include/cortexflow/timer.hpp:53-56 | A moved-from handle is inert; the timer stays. |
| `TimerHandles.Timer.MoveFrom` | include/cortexflow/timer.hpp:58-67 | Cancels the own timer and takes the other's; assigning to itself does nothing. |
| `TimerLedger.ExactlyOneFate` | include/cortexflow/timer.hpp:197-254 | In every run each number handed out is live, fired, cancelled or cleared, exactly one of them, and fired once at most. |
| `TimerLedger.FateIsFinal` | include/cortexflow/timer.hpp:317-332 | A timer no longer live keeps its fate. |
| `TimerLedger.LateCancelIsNoOp` | include/cortexflow/timer.hpp:323-332 | A cancel after that changes nothing, however late. |
| `TimerLedger.OldHandleIsHarmless` | include/cortexflow/timer.hpp:248-254 | A handle kept across clears and restarts cancels no timer armed since. |
| `TimerLedger.ClearNeverReuses` | include/cortexflow/timer.hpp:248-254 | The next number was never used before, after any number of clears. |
| `CachePools.CachePool.constructor` | include/cortexflow/cache.hpp:129-129 | An empty cache. |
| `CachePools.CachePool.Get` | include/cortexflow/cache.hpp:140-143 | The value, empty until the first write. |
| `CachePools.CachePool.SubscriberCount` | include/cortexflow/cache.hpp:186 | The number of subscribers. |
| `CachePools.CachePool.FindFreeSlot` | include/cortexflow/cache.hpp:207-218 | Below capacity finds the lowest free slot; the assertion behind the loop is unreachable. |
| `CachePools.DistinctAreFew` | include/cortexflow/cache.hpp:213-216 | Pigeonhole: distinct slots covering all indices are at least as many as the indices. |
| `CachePools.CachePool.Subscribe` | include/cortexflow/cache.hpp:174-184 | Appends the subscriber to the list under a slot nobody holds. |
| `CachePools.CachePool.ReleaseSlot` | include/cortexflow/cache.hpp:224-243 | Removes one entry and keeps the order of the rest; its assertion on the order list is unreachable. |
| `CachePools.Unregistered` | include/cortexflow/cache.hpp:224-243 | Clearing a slot and closing the gap leaves the order array a duplicate-free list of exactly the active slots. |
| `CachePools.CachePool.Fanout` | include/cortexflow/cache.hpp:246-267 | Before stop it queues one note per subscriber of the key, in registration order, behind what was there; after stop nothing. |
| `CachePools.CachePool.Set` | include/cortexflow/cache.hpp:146-166 | Writes that compare equal post nothing; the others store the value and, before stop, queue the notes of the key's subscribers with the old and the new value. |
| `Subscriptions.Subscription.Release` | include/cortexflow/subscription.hpp:66-71 | Releases the slot once and makes the handle inert. |
| `Subscriptions.Subscription.TakeFrom` | include/cortexflow/subscription.hpp:41-46 | A moved-from handle is inert; the slot stays taken. |
| `Subscriptions.Subscription.MoveFrom` | include/cortexflow/subscription.hpp:48-57 | Releases the own slot and takes the other's, which is still held; assigning to itself does nothing. |
| `HandleScopes.Scope.Execute` | include/cortexflow/subscription.hpp:25-76 | Declaring, moving, resetting and destroying objects of the class does to pool and handles what the operation on values says. |
| `HandleScopes.Scope.ExecuteAll` | include/cortexflow/subscription.hpp:25-76 | So does every program of such statements, and it leaves each active slot owned by exactly one object. |
| `Subscriptions.StepOwned` | include/cortexflow/cache.hpp:224-228 | Every operation on handles keeps one owner for each active slot, and releases only active slots. |
| `Subscriptions.OneOwnerEach` | include/cortexflow/subscription.hpp:25-76 | So it is over all sequences of operations. |
| `Subscriptions.NobodyElseReleases` | include/cortexflow/subscription.hpp:25-76 | However slots are reused, a handle keeps its very subscription until it is used itself. |
| `Subscriptions.LowestIsFree` | include/cortexflow/cache.hpp:207-218 | With fewer subscribers than slots the search of the specification finds a free one. |
| `CacheStreams.StreamIsChanges` | include/cortexflow/cache.hpp:246-267 | A subscription receives exactly the real changes of its key since it was made, each once, in order. |
| `CacheOrder.NotesInOrderOfSubscribing` | include/cortexflow/cache.hpp:246-267 | Over all sequences of operations, of two subscriptions to a key the one made first is told first of every change, whatever slots they use. |
| `CacheStreams.WritePosts` | include/cortexflow/cache.hpp:146-166 | The deliveries followed here are those of a write, changing or not. |
| `CacheStreams.ChangesChain` | include/cortexflow/cache.hpp:146-166 | Each change starts at the value the one before ended with, and old differs from new. |
| `CacheStreams.ReplayMatchesCache` | include/cortexflow/cache.hpp:146-166 | Replaying what was received leads from the value found to the value stored now. |
| `CacheStreams.OneNote` | include/cortexflow/cache.hpp:254-266 | Of one change a subscription of that key gets one note, every other none. |
| `CacheStreams.AddressedIsNotes` | include/cortexflow/cache.hpp:246-267 | The deliveries followed here are what the cache posts. |
| `Flows.Flow.Start` | include/cortexflow/flow.hpp:256-262 | Enters the initial state as the machine does: its locals are constructed and it is handed the synthetic envelope, whatever state was left last. |
| `Flows.Flow.Step` | include/cortexflow/flow.hpp:272-333 | The loop over the four directives does what the machine does, beginning with the current state's handler, with locals bound during every handler and the callback after the flag is cleared. |
| `Flows.Flow.Terminate` | include/cortexflow/flow.hpp:340-349 | Destroys the locals of an active flow and nothing else; idempotent, and no callback. |
| `Flows.Flow.Restart` | include/cortexflow/flow.hpp:360-374 | Destructs the current locals of an active flow, then enters the initial state again. |
| `Flows.Flow.EnterInitial` | include/cortexflow/flow.hpp:388-396 | Constructs the locals of the initial state and steps with the synthetic envelope. |
| `Flows.Flow.OnFlowDone` | include/cortexflow/flow.hpp:323-332 | The callback may restart, terminate, step and start in any order and number; the machine says which, and no assertion fails if it keeps to the rules of `step` and `start`. |
| `Flows.Flow.Destroy` | include/cortexflow/flow.hpp:232-241 | Destroys the locals of a flow that is still active. |
| `FlowBrackets.StepKeeps` | include/cortexflow/flow.hpp:272-333 | A step keeps locals bracketed through chains, completion and re-entry. |
| `FlowEntries.EnterBegins` | include/cortexflow/flow.hpp:388-396 | Whatever state was left last, entering logs the construction of the initial state and its handling of the synthetic envelope; there the flow rests if the handler stays. |
| `FlowEntries.RestartBegins` | include/cortexflow/flow.hpp:360-374 | A restart logs the destruction of an active flow's locals before that. |
| `FlowEntries.StepBegins` | include/cortexflow/flow.hpp:272-280 | A step logs the handling of its envelope by the current state first. |
| `FlowEntries.CallbackServes` | include/cortexflow/flow.hpp:325-332 | Each request of `on_flow_done` is served as the same call from outside would be, under the same assertions, and then the next one. |
| `FlowEntries.CallbackReturns` | include/cortexflow/flow.hpp:325-332 | When it returns, what it would have asked for later is not done. |
| `FlowEntries.CallbackBegins` | include/cortexflow/flow.hpp:325-332 | The events with which each request begins. |
| `FlowBrackets.EnterKeeps` | include/cortexflow/flow.hpp:388-396 | So does entering. |
| `FlowBrackets.CompleteKeeps` | include/cortexflow/flow.hpp:323-332 | So does the callback, whatever it asks for: restarts, terminations, steps and starts in any order. |
| `FlowTheorems.BracketsAreStays` | include/cortexflow/flow.hpp:280-324 | The bracket automaton accepts exactly sequences of `construct s, handle s*, destruct s` and callbacks, with at most one stay open at the end. |
| `FlowTheorems.EverythingInPlace` | include/cortexflow/flow.hpp:280-332 | At every past moment a handler or destructor found the locals of its own state, and constructors and callbacks found none alive. |
| `FlowTheorems.FlowsAreBracketed` | include/cortexflow/flow.hpp:232-396 | Over all sequences of legal calls, with callbacks that call back in, the trace is bracketed, open exactly while active and for the current state. |
| `FlowTheorems.NothingLeaks` | include/cortexflow/flow.hpp:232-241 | A destroyed flow has destructed the locals of each state as often as it constructed them. |
| `FlowTheorems.ChainIsOneEnvelope` | include/cortexflow/flow.hpp:295-311 | A chain of `TransitionNow` hands the same envelope to each state, destructing before constructing, and goes on from its last state. |
| `FlowTheorems.StepInFull` | include/cortexflow/flow.hpp:280-332 | After the chain the next answer decides the step: stay, swap locals and wait for the next envelope, or destruct and then call back; only `TransitionNow` goes on with the same envelope. |
| `FlowTheorems.StepHandles` | include/cortexflow/flow.hpp:280-312 | A step hands its envelope to one handler per `TransitionNow` answer and one more; what it logs afterwards belongs to the callback. |
| `FlowTheorems.RankBoundsChain` | include/cortexflow/flow.hpp:162-174 | For every list of answers, if a rank falls along each `TransitionNow` edge from the current state, their number is at most the rank of that state. |
| `FlowTheorems.RankedStepEnds` | include/cortexflow/flow.hpp:280-312 | So one step of any flow, whatever its handlers depend on, calls at most rank + 1 handlers for its envelope. |
| `FlowTheorems.NoChainLimit` | include/cortexflow/flow.hpp:162-174 | Without a rank there is no limit: for every n some flow's step handles one envelope n + 1 times. |
| `Runtimes.Runtime.Post` | include/cortexflow/runtime.hpp:298-313 | Appends before stop, drops after. |
| `Runtimes.Runtime.Start` | include/cortexflow/runtime.hpp:165-176 | Runs `on_start` in declaration order. |
| `Runtimes.Runtime.RunOne` | include/cortexflow/runtime.hpp:180-194 | Drains to empty, as the specification. |
| `Runtimes.Runtime.Shutdown` | include/cortexflow/runtime.hpp:253-285 | Bounded drain, discard, `on_stop` in reverse order, stop flag reset. |
| `RuntimeTheorems.DrainDispatchesAll` | include/cortexflow/runtime.hpp:180-194 | `run_one` dispatches everything accepted, in order. |
| `RuntimeTheorems.BudgetDecides` | include/cortexflow/runtime.hpp:253-268 | A bounded drain is the whole drain iff the budget covers its length; otherwise it dispatches exactly the budget. |
| `RuntimeTheorems.RunOneMakesTheCalls` | include/cortexflow/runtime.hpp:180-194 | The handlers of the dispatched envelopes make all their calls: accepted is what was, then what they post up to the first stop. |
| `RuntimeTheorems.StartQueuesInOrder` | include/cortexflow/runtime.hpp:165-176 | A start queues the posts of `on_start` module by module in declaration order, behind what was left. |
| `RuntimeTheorems.StoppedDrain` | include/cortexflow/runtime.hpp:298-313 | After stop a drain dispatches just the queue, whatever handlers post. |
| `RuntimeTheorems.ShutdownAccounts` | include/cortexflow/runtime.hpp:253-285 | Accepted = dispatched, discarded, queued by `on_stop`; something is discarded iff the drain is longer than the budget, and then the budget was used up. |
| `RuntimeTheorems.ShutdownAfterStop` | include/cortexflow/runtime.hpp:253-285 | After stop the queue is dispatched up to the budget and the rest discarded; nothing stays queued. |
| `RuntimeTheorems.ShutdownLeavesOnStopPosts` | include/cortexflow/runtime.hpp:268-285 | The queue after a shutdown is exactly what `on_stop` posted before any stop. |
| `RuntimeTheorems.ShutdownReopens` | include/cortexflow/runtime.hpp:278-285 | After a shutdown posts are accepted again, even if stop had been requested: a second start queues what its modules post. |
| `Neutralizer.Neutralize` | scripts/diagrams/brace_scope.py:58-122 | The index loops compute the transformer, for all inputs including unterminated comments and literals; `Regions.NeutralizedIsExact` says what it puts out. |
| `Neutralizer.PositionsKept` | scripts/diagrams/brace_scope.py:59-62 | Length and line breaks are kept, and every other character is kept or blanked. |
| `Neutralizer.Idempotent` | scripts/diagrams/brace_scope.py:58-122 | Neutralizing twice is neutralizing once. |
| `Regions.CodeBraces` | scripts/diagrams/brace_scope.py:59-67 | A brace is left in the output iff a character-by-character reader finds it outside comments and literals; what is outside does not change. |
| `Regions.NeutralizedIsExact` | scripts/diagrams/brace_scope.py:58-122 | Every character of the output: kept outside comments and literals, kept if it opens or closes one, a line break if it was one, and a space otherwise, where a character-by-character reader decides what is inside. |
| `Regions.OutputIsExact` | scripts/diagrams/brace_scope.py:58-122 | The same from any mode, with escapes and unterminated ends. |
| `Regions.BracesAreCode` | scripts/diagrams/brace_scope.py:58-122 | The same from any mode of the transformer and the reader's state that goes with it. |
| `Braces.FindMatchingBrace` | scripts/diagrams/brace_scope.py:125-137 | The brace that closes a balanced body, or -1 iff there is none. |
| `Braces.MatchIsUnique` | scripts/diagrams/brace_scope.py:125-137 | There is at most one. |
| `Braces.BalancedIsDyck` | scripts/diagrams/brace_scope.py:125-137 | Balanced by depth is balanced by the grammar of nested blocks. |
| `Braces.FindNextTop` | scripts/diagrams/brace_scope.py:140-158 | The first `;` or brace outside parentheses in the range, or -1 iff there is none. |
| `Scanner.Extractor.Scan` | scripts/diagrams/brace_scope.py:210-306 | The recursive walk ends on all inputs and files exactly the specified records in the dictionary; `SourceTrees.TreeIsRecorded` says what they are. |
| `Scanner.BodiesAreWellSpaced` | scripts/diagrams/brace_scope.py:210-306 | The recorded spans come in order, are disjoint, and each opens with a brace and closes with the brace that matches it. |
| `Scanner.FiledIsLast` | scripts/diagrams/brace_scope.py:298-302 | A name maps to the last body recorded under it. |
| `ScanTheorems.FunctionBodiesAreBlocks` | scripts/diagrams/brace_scope.py:309-321 | For every text the recorded bodies are disjoint, and each opens and closes with braces of the code between which the braces of the code are balanced. |
| `ScanTheorems.Functions` | scripts/diagrams/brace_scope.py:309-321 | The dictionary has exactly the recorded names, each with the neutralized text of its last body; and if the neutralized text is that of a tree, they are the functions of the tree. |
| `SourceTrees.TreeIsFound` | scripts/diagrams/brace_scope.py:210-306 | For every text spelled from a tree of directives, comments, declarations, namespaces, classes and functions that the lexicon recognises, what is found are the functions of the tree in order, each under the names of its scopes joined from outside to inside. |
| `SourceTrees.TreeIsRecorded` | scripts/diagrams/brace_scope.py:298-302 | The records of the walk are those functions, with their bodies. |
| `SourceTrees.ExampleIsRead` | scripts/diagrams/brace_scope.py:269-305 | Such texts exist: of `class C{f(){}}` one function is found, as `C::f`. |
| `ScanTheorems.FunctionsOfTree` | scripts/diagrams/brace_scope.py:309-321 | The dictionary has exactly the functions of the tree, each name with the text of its last body. |
| `Fnv.Fnv1a` | include/cortexflow/type_name.hpp:32-39 | The loop computes the fold of the rounds from the offset basis. |
| `Fnv.RoundIsBijective` | include/cortexflow/type_name.hpp:34-37 | For every byte a round is a bijection on the 64-bit states, with a given inverse. |
| `Fnv.PublishedHashes` | include/cortexflow/type_name.hpp:32-39 | The hashes of the empty name, of `a` and of `ab` are the published ones, so basis, prime and the order of the two operations are those of FNV-1a. |
| `Fnv.RoundSeparates` | include/cortexflow/type_name.hpp:34-37 | From one state, different bytes lead to different states. |
| `Fnv.HashIsInjective` | include/cortexflow/type_name.hpp:32-39 | A common rest of a name keeps states apart. |
| `Fnv.OneCharacterDecides` | include/cortexflow/type_name.hpp:32-39 | With everything else equal, identifiers agree iff the one character does. |
| `Fnv.OneDifferenceSeparates` | include/cortexflow/type_name.hpp:32-39 | Equally long names that differ at exactly one place have different identifiers. |

## Left out

- Platform backends, allocators, `pthread` and `clock_gettime`, trace sinks and trace formatting: foreign calls
  and output without effect on the modelled state.
- `MessagePtr` and `Envelope` memory: envelopes are values, ownership is membership in a sequence.
- Template machinery: option lookup, validators and dispatch tables are settled by the C++ type checker; module
  identities are taken as distinct.
- Nanosecond overflow of the clock, overflow of sequence numbers, and a value type whose `==` is not reflexive.
- Handles that outlive their cache or timer service; the program asks that they be released first.
- The mutex of the timer service: its critical sections are one step each, and `fire_due` posts after leaving it.
- Weak memory: the unlocked first read of the stop flag in `post` sees some value between false and the current
  one; the model reads the current one.
- Liveness under an unfair scheduler: what is shown is that the loop can always be carried on.
- State handlers that call the flow they belong to: the source asserts that they do not.
- Drains that never end, and chains of `TransitionNow` that never end: the lists of answers are finite.
- `Runtimes.Runtime` has no timers and no concurrent posts; these are `TimerServices` and `Concurrency`.
- Shutdown and a second start of the pipeline: its runs begin with `start` and do not shut down.
- Handlers of the pipeline are one step each. A handler posts at most one envelope, so a post from another
  thread before, between or after gives the same orders as before or after the handler. Under a steady clock
  time may also pass inside a handler: the commit or the entry of a state may then be earlier than the arming of
  its timer, and what the model states as the exact due time of a timer is a lower bound.
- PipelineRounds.EveryWaitRound: rounds in which time passes between the firing and the check are not covered; there
  `PipelineInbox.EveryRunIsButton` applies.
- PipelineRounds.EveryReadRound: nor are rounds in which transitions arrive when something is overdue, or after the
  firing; there too `PipelineInbox.EveryRunIsButton` applies.
- PipelineInbox.EveryRunIsButton: runs with a stop, after which posts are dropped; the invariant covers them.
- Non-empty gaps between a steady clock's readings inside one `fire_due`: it reads the clock once.
- `examples/minimal_app`, the drivers (`main.cpp`) and ButtonReader: a smaller sibling, and input from outside.
- The regular expressions of the scanner, Mermaid rendering and the command line: a lexicon stands for the
  expressions, of which only place and brace of a match are asked.
- `_scan` on text with unbalanced braces in preprocessor lines: it is covered, but nothing is claimed about which
  functions are found.
- `type_name_buffer::make`, a copy with a terminator: an easy member.
- TimerServices.TimerService.FireDue: timers of equal due time may be posted in any order, as `std::pop_heap`
  leaves it open.
- TimerServices.TimerService.constructor: does not model the installation of the advance handler on the manual
  clock; `TimerServices.Advance` takes the service it is to fire as a parameter.
- Runtimes.Runtime.Start: does not model the binding of sinks and the building of cache, timers and modules; the
  modules' `on_start` answers are parameters.
- Runtimes.Runtime.Shutdown: does not model the destruction of modules and cache, nor the clearing of the timers,
  which is `TimerServices.TimerService.Clear`.
- Scanner.Extractor.Scan: the expressions and the extraction of a function's name are parameters, a lexicon. What is
  found is stated for texts of trees; of other texts, those with unbalanced scopes, that the records are sound.
- Regions.CodeBraces: its reader has the code's own notion of a literal. C++'s raw strings and digit separators are
  read as ordinary quotes, so in `R"(" { ")"` the brace counts as code for both.
- Regions.BracesAreCode: has the same limit.
