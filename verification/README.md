# Verified models of gowlb's concurrent and stateful tools

gowlb's `tools/` tree holds timers, parallel loops, queues, a worker pool, maps, streams and a
database cache; `cmd/gowlb/internal/parallel` holds one more parallel loop. This project models
the stateful and concurrent ones in Dafny and proves what they keep and what they promise.

`dafny verify dfyconfig.toml` checks everything.

| file | models | form |
|---|---|---|
| `TimerWheel.dfy` | hashed timing wheel | classes, in-place updates |
| `SweepRounds.dfy` | when the sweep of a slot ends | functions and lemmas |
| `WheelArithmetic.dfy` | turns, slots and due ticks | functions and lemmas |
| `ParallelFor.dfy` | `Parallelize` and `ParallelizeResult` | goroutines as a step relation |
| `TaskDispatch.dfy` | `ParallelResult` of the command | goroutines as a step relation |
| `BlockingQueue.dfy` | FIFO queue; condition-variable queue, with its content as a sequence | class; monitor as a step relation |
| `HeapTimer.dfy` | heap timer event loop | event loop and users as a step relation |
| `PriorityQueue.dfy` | binary heap with its sift loops | class |
| `WorkerPool.dfy` | worker pool, reject policies, shutdown | goroutines as a step relation |
| `MapMerge.dfy` | concurrent map and its two-lock merge | threads and locks as a step relation |
| `Pipeline.dfy` | fused stream pipeline | class |
| `DbCache.dfy` | write-through cache of a table | classes |
| `Bags.dfy` | counting lemmas the others share | functions and lemmas |

In the step relations every goroutine is a process that takes one atomic action at a time (a
channel operation, an atomic load, a critical section), in any order; `Run` is the set of all
interleavings, and the invariants are proved for every state of every run. The program's
histories (which pieces were called, which items were accepted, which callbacks ran) are parts of
the state that no action reads; where a result speaks of a history, another ties the history to the
actions of the run. Conservation is stated element by element: the number of copies of
an element, summed over all the places where it can be, is one.

## Results worth knowing

* The wheel never fires early, and late only by whole turns: one for each sweep that stopped before
  it reached the timer. A sweep stops at the first timer with turns left, and so does not count down
  those behind it. Hence a queued timer fires `n` turns after its slot comes round next, where `n` is
  the sum of the turns left of the timer and of all ahead of it in its slot: this is the tick in which
  it does fire, unless it or one of them is stopped or reset. A timer just armed is on time exactly
  if no timer ahead of it has turns left.
* If every timer is shorter than a turn, and no ticker shorter than a slot interval, each timer fires
  first exactly `d/si` ticks after it was armed, and a ticker again exactly every `d/si` ticks.
* The sweep of a slot goes on for ever exactly if all its timers have no turns left, no ticker of at
  least a slot interval comes back to the slot, and two tickers are shorter than a slot interval.
* `ParallelizeResult` can get stuck in one way only: a worker blocks on the full result channel after
  the collector has gone. Without errors that stop the run, some run does so exactly if there are more
  than 1024 pieces, whatever the chunk size and the number of workers.
* With two concurrent `ShutdownWithDrained` calls on the blocking queue the second may sleep for ever;
  with at most one at a time none does.
* `ShutdownWait(true)` keeps its promise in all runs exactly if `minWorker == maxWorker >= 1`.
  Otherwise a pool may have no worker left (workers that find themselves above the minimum at the
  same time all leave) and tasks still queued. Submits may go on during the shutdown.
* `Submit` can return a nil error without placing the task anywhere exactly if its policy can discard:
  this includes `SubmitAfterwardsPolicy` with no retries and no further policy.
* `Stop` on a heap timer marks the handle's original object, and the mark is looked at only when an
  object is taken from the heap. So a stop that is taken up with no reset of the handle waiting keeps
  the callback from running (resets apart) exactly if no object of the handle is on its way to the
  heap and no un-removed copy, made by a reset, is in the heap. `tools/timer/timer.go:15-16` says Stop
  is for keeping the callback from running.
* `Reset` marks the original too and sends a copy on its way, which inherits an earlier mark. The copy
  can fire on its way in, if it comes in late, in any case; it can fire from the heap exactly if the
  handle had been neither reset nor stopped before.
* Concurrent merges and single-lock operations on any number of maps are serializable.
* `Skip` on a stream never advances its counter: it passes everything or, for `Skip(0)`, nothing.
  A pipeline with no stage yields zero values in place of its elements.
* The cache agrees with the table after an insert exactly if the object received its key and was not
  in the cache already: the cache keeps the caller's object, and a second insert of it moves its key.

## Model

| member | source | states |
|---|---|---|
| WheelArithmetic.NestedDiv | tools/timer/timerwheel.go:163-166 | turns from the full circle equal whole ticks divided by the slots, under truncating division |
| WheelArithmetic.ArmDue | tools/timer/timerwheel.go:163-168 | the turns and slot computed for `d` make a timer due exactly `d/si` ticks on |
| WheelArithmetic.DueElsewhere | tools/timer/timerwheel.go:191-202 | moving the pointer on leaves the due tick of a timer in another slot as it was |
| WheelArithmetic.DueSwept | tools/timer/timerwheel.go:210-215 | in the swept slot a timer counted down keeps its due tick; one the sweep did not reach is due exactly one circle later |
| TimerWheel.RemoveOne | tools/timer/timerwheel.go:28-36 | list removal takes out exactly the given timer |
| TimerWheel.TimerWheel.constructor | tools/timer/timerwheel.go:77-87 | a new wheel has empty slots and meets the invariant |
| TimerWheel.TimerWheel.Set | tools/timer/timerwheel.go:130-177 | a negative duration or a stopped wheel is refused with nothing changed; else one new timer is appended to one slot, to fire `d/si` ticks on, and the invariant holds |
| TimerWheel.TimerWheel.Arm | tools/timer/timerwheel.go:163-174 | arming appends the timer to its slot only, starts its record afresh, and keeps the invariant |
| TimerWheel.TimerWheel.Stop | tools/timer/timerwheel.go:243-245 | afterwards the timer is in no slot at all, and no other timer is touched |
| TimerWheel.TimerWheel.Reset | tools/timer/timerwheel.go:280-283 | the timer is taken out and queued once, to fire `d/si` ticks from now; when it panics it has been stopped |
| TimerWheel.TimerWheel.FireFront | tools/timer/timerwheel.go:217-222 | a timer that runs out fires in the tick its record promises, leaves the list, and is queued again for its interval if it is a ticker |
| TimerWheel.TimerWheel.TakeFront | tools/timer/timerwheel.go:211-222 | one round of the sweep: fires exactly if the front timer had no turns left, else only counts it down |
| TimerWheel.TimerWheel.MarkLate | tools/timer/timerwheel.go:213-215 | exactly the timers a halted sweep did not reach become one turn late |
| TimerWheel.TimerWheel.Advance | tools/timer/timerwheel.go:193-195 | after the pointer moves every timer is due when its record says, one turn later for those not reached |
| SweepRounds.EndsExactly | tools/timer/timerwheel.go:210-223 | the loop over a list ends, within some number of rounds, if and only if not all elements fire with none coming back to wait and two coming back |
| SweepRounds.RotatesOn | tools/timer/timerwheel.go:210-223 | a list for which it does not end is such a list again after every round |
| TimerWheel.TimerWheel.SweepEndsExactly | tools/timer/timerwheel.go:210-223 | the sweep ends if and only if not: all timers of the slot have no turns left, no ticker of at least a slot interval re-arms into it, and two tickers are shorter than that |
| TimerWheel.TimerWheel.EndlessRound | tools/timer/timerwheel.go:210-223 | a round in such a slot fires a timer, leaves an element to go on to, and leaves the slot such |
| TimerWheel.TimerWheel.Sweep | tools/timer/timerwheel.go:210-223 | in every other slot the sweep ends, though it appends to the list it walks; it fires the leading timers of its queue that have no turns left and no others |
| TimerWheel.TimerWheel.Tick | tools/timer/timerwheel.go:191-225 | the whole effect of a tick: what fires and in which order (a short ticker perhaps more than once), which timer is counted down, which become late, where the tickers go, and that nothing else changes |
| TimerWheel.TimerWheel.FiresNow | tools/timer/timerwheel.go:210-216 | a timer of the swept slot fires in this tick if and only if it and all ahead of it have no turns left |
| TimerWheel.TimerWheel.TickTimer | tools/timer/timerwheel.go:191-225 | any queued timer fires in this tick if and only if that is the tick predicted from the turns of it and those ahead of it; otherwise the prediction stays |
| TimerWheel.TimerWheel.Start | tools/timer/timerwheel.go:179-189 | over any number of turns of the loop every queued timer fires exactly in the tick predicted for it, and not before |
| TimerWheel.TimerWheel.StopHastens | tools/timer/timerwheel.go:243-245 | taking a timer out brings those behind it forward by a circle for each turn it had left |
| TimerWheel.TimerWheel.OnTimeExactly | tools/timer/timerwheel.go:211-215 | a timer fires at its due tick plus a circle for each turn left ahead of it and each turn it is late; on time if and only if both are none |
| TimerWheel.TimerWheel.NeverEarly | tools/timer/timerwheel.go:191-225 | in any history every firing came at or after its due tick, late by one circle for each sweep that halted before it, and by nothing else |
| TimerWheel.TimerWheel.SetExact | tools/timer/timerwheel.go:163-168 | arming with less than a turn keeps the wheel exact |
| TimerWheel.TimerWheel.NotOverdue | tools/timer/timerwheel.go:163-168 | in an exact wheel no queued timer is past its due tick, and those at it are the ones in the slot under the pointer |
| TimerWheel.TimerWheel.TickExact | tools/timer/timerwheel.go:191-225 | in an exact wheel a tick fires every timer of its slot, arms its tickers again from this tick on, and keeps the wheel exact |
| TimerWheel.TimerWheel.StartExact | tools/timer/timerwheel.go:179-189 | in an exact wheel, over any number of turns, a queued timer fires first exactly `d/si` ticks after it was armed; a one-shot then never again, a ticker exactly every `d/si` ticks |
| ParallelFor.ChunksPartition | tools/parallel/parallel.go:194-200 | the chunks from any one on cover every piece from its start to the end exactly once |
| ParallelFor.ConservedStep | tools/parallel/parallel.go:194-217 | no action of any goroutine loses, duplicates or creates a piece |
| ParallelFor.InvStep | tools/parallel/parallel.go:129-228 | every action keeps conservation, the error channel, cancellation and collector invariants |
| ParallelFor.RunInv | tools/parallel/parallel.go:129-228 | the invariant holds in every state of every interleaving |
| ParallelFor.CalledAtMostOnce | tools/parallel/parallel.go:194-217 | each piece is called at most once on every interleaving, and nothing else is called |
| ParallelFor.Complete | tools/parallel/parallel.go:79-104 | when the workers of an uncancelled run are gone, every piece has been called once and its value delivered once |
| ParallelFor.NilMeansAll | tools/parallel/parallel.go:220-228 | a nil error without outer cancellation: every piece called exactly once, none failed with stop-on-error, the result has one entry per piece and is the multiset of their values |
| ParallelFor.ErrorSemantics | tools/parallel/parallel.go:90-112 | without outer cancellation the error is nil if and only if every piece was called and none returned an error with the stop-on-error option set; otherwise the option is set and the error is one that a called piece returned |
| ParallelFor.ErrorsIgnored | tools/parallel/parallel.go:206-228 | without the option the run returns nil, with every piece called exactly once and all the values, whatever pieces return errors |
| ParallelFor.NoCallAfterCancel | tools/parallel/parallel.go:86-90 | once the run is cancelled no further piece is called |
| ParallelFor.ChunkShape | tools/parallel/parallel.go:195-199 | a piece is in the chunk that the quotient of its number by the chunk size (at least one) names |
| ParallelFor.WorkersStarted | tools/parallel/parallel.go:142-171 | there are as many workers as asked for, or as chunks if those are fewer |
| ParallelFor.Progress | tools/parallel/parallel.go:147-220 | every reachable state that has not returned has an enabled step, unless it is the one kind of stuck state |
| ParallelFor.StuckForever | tools/parallel/parallel.go:157-168 | nothing gets a run out of that state |
| ParallelFor.NeverStuck | tools/parallel/parallel.go:147-152 | no uncancelled run and no run with at most 1024 pieces is stuck |
| ParallelFor.StuckReachable | tools/parallel/parallel.go:157-168 | with more pieces, no stopping error and at least one worker there is a run that ends stuck, for any chunk size |
| ParallelFor.StuckExactly | tools/parallel/parallel.go:147-168 | without stopping errors, some run gets stuck if and only if results are collected and there are more than 1024 pieces |
| ParallelFor.MeasureDecreases | tools/parallel/parallel.go:147-220 | every action lowers a measure over pieces, sends, results and goroutines |
| ParallelFor.RunsEnd | tools/parallel/parallel.go:147-220 | hence the length of a run is bounded by its first state |
| TaskDispatch.InvStep | cmd/gowlb/internal/parallel/parallel.go:26-109 | every action of dispatcher, workers, main loop and caller keeps the invariant |
| TaskDispatch.RunInv | cmd/gowlb/internal/parallel/parallel.go:26-109 | the invariant holds in every state of every run |
| TaskDispatch.AllFinished | cmd/gowlb/internal/parallel/parallel.go:78-82 | when as many successes are counted as there are tasks, each task was counted once and no task is dispatched, running or failed |
| TaskDispatch.NilMeansAll | cmd/gowlb/internal/parallel/parallel.go:70-111 | a nil error: every task ran exactly once and succeeded, and the returned results are exactly the multiset sent, whether collected by the loop or by the final drain |
| TaskDispatch.NilMeansNoFailure | cmd/gowlb/internal/parallel/parallel.go:43-66 | told from the actions of the run: after a nil error no task function has failed, each task was taken once, and the results returned are the values sent |
| TaskDispatch.ErrorIsReal | cmd/gowlb/internal/parallel/parallel.go:52-62 | no task is started twice; a returned error is of a task that was started and failed, or the caller's own |
| TaskDispatch.Progress | cmd/gowlb/internal/parallel/parallel.go:26-109 | the main loop never blocks for good, and on the path without error every goroutine can exit |
| TaskDispatch.MeasureDecreases | cmd/gowlb/internal/parallel/parallel.go:26-109 | every action but a send by the task function lowers a measure |
| TaskDispatch.RunsEnd | cmd/gowlb/internal/parallel/parallel.go:26-109 | a run is no longer than a bound known at its start plus two steps for each value sent |
| Queue.Queue.Pop | tools/collection/queue.go:21-33 | takes the front element off, or answers zero and changes nothing when empty |
| Queue.PushAllPopAll | tools/collection/queue.go:17-33 | everything comes out in the order it went in, behind what was there |
| BlockingQueue.SignalRestores | tools/collection/blockingqueue.go:34-35 | one Signal makes up for one wakeup short, whichever call it picks |
| BlockingQueue.InvStep | tools/collection/blockingqueue.go:27-84 | every critical section keeps the no-lost-wakeup and FIFO invariants |
| BlockingQueue.RunInv | tools/collection/blockingqueue.go:27-84 | they hold in every state, with calls barging in at will |
| BlockingQueue.ItemsAreFetched | tools/collection/blockingqueue.go:38-55 | before shutdown, if there is an item and a consumer sleeps, some consumer is already woken, and whichever gets the lock takes the oldest item |
| BlockingQueue.Fifo | tools/collection/blockingqueue.go:27-55 | popped items followed by the content are the accepted pushes in order |
| BlockingQueue.FifoOfCalls | tools/collection/blockingqueue.go:27-55 | told from the calls: what the calls of Pop took, followed by the content, is what was pushed before any shutdown, in order |
| BlockingQueue.AcceptedWerePushed | tools/collection/blockingqueue.go:30-34 | a push is dropped exactly after a shutdown |
| BlockingQueue.PopReturns | tools/collection/blockingqueue.go:41-47 | a call of Pop sleeps exactly if the queue is empty and open, and else returns |
| BlockingQueue.DrainReturns | tools/collection/blockingqueue.go:79-83 | a call of ShutdownWithDrained returns exactly if the queue is empty, and else sleeps |
| BlockingQueue.CallsStay | tools/collection/blockingqueue.go:50-52 | no call in progress is lost or put back to sleep by another; a shutdown wakes all that sleep |
| BlockingQueue.HistoriesGrow | tools/collection/blockingqueue.go:30-35 | nothing is taken back, and nothing is accepted after shutdown |
| BlockingQueue.GrowStep | tools/collection/blockingqueue.go:41-47 | Pop answers without an item only when shut down and empty |
| BlockingQueue.DrainedMeansPopped | tools/collection/blockingqueue.go:76-84 | ShutdownWithDrained returns only after every accepted item was popped |
| BlockingQueue.EmptyingPop | tools/collection/blockingqueue.go:50-52 | the Pop that empties the queue leaves no drainer asleep if and only if at most one slept |
| BlockingQueue.DrainerNotForgotten | tools/collection/blockingqueue.go:76-84 | with at most one drainer at a time, a drainer sleeps un-notified only while there are items |
| BlockingQueue.ForgottenForever | tools/collection/blockingqueue.go:81-83 | a drainer asleep beside an empty queue stays so until another shutdown call |
| BlockingQueue.SecondDrainerForgotten | tools/collection/blockingqueue.go:50-52 | with two drainers there is a run that leaves one asleep beside the empty queue |
| PriorityQueue.RootLeast | tools/collection/priorityqueue.go:33-39 | the root of a heap is a least element |
| PriorityQueue.PriorityQueue.Push | tools/collection/priorityqueue.go:22-24 | keeps heap order and adds exactly the element |
| PriorityQueue.PriorityQueue.Pop | tools/collection/priorityqueue.go:26-31 | gives a least element, keeps heap order, removes exactly that element; zero on the empty queue |
| PriorityQueue.PriorityQueue.Up | tools/collection/priorityqueue.go:63-73 | sifting up restores the heap from one element out of order, and permutes |
| PriorityQueue.PriorityQueue.Down | tools/collection/priorityqueue.go:63-84 | sifting down restores the heap within a prefix, permutes, and leaves the rest in place |
| PriorityQueue.PriorityQueue.Peek | tools/collection/priorityqueue.go:33-39 | gives a least element, or zero |
| PriorityQueue.PopAll | tools/collection/priorityqueue.go:26-31 | popping until empty yields an ordered permutation of everything in the queue |
| HeapTimer.PlacedStep | tools/timer/heaptimer.go:147-219 | no action loses a timer object, puts it in two places or fires a one-shot twice |
| HeapTimer.HandlesStep | tools/timer/heaptimer.go:209-217 | no action gives a handle a second un-removed object |
| HeapTimer.HeapStep | tools/timer/heaptimer.go:148-214 | heap order survives every action, though triggers change |
| HeapTimer.LogStep | tools/timer/heaptimer.go:148-208 | every action keeps: firings not before their trigger, drains in trigger order |
| HeapTimer.RunInv | tools/timer/heaptimer.go:147-220 | all of these in every state of every run |
| HeapTimer.Conservation | tools/timer/heaptimer.go:136-217 | each timer object is in exactly one of in transit, heap, fired, dropped; a one-shot fires at most once |
| HeapTimer.NeverEarly | tools/timer/heaptimer.go:148-208 | no path fires a timer before its trigger, and the drain of the heap never fires a removed one |
| HeapTimer.TriggerExact | tools/timer/heaptimer.go:254-260 | in every later state of the run the trigger of a timer object is the clock at which it was made (for a ticker, the time of the drain that last fired it) plus the duration asked for, and so is the trigger of each of its firings |
| HeapTimer.NotBeforeDuration | tools/timer/heaptimer.go:254-260 | no callback runs before the duration asked for has passed since SetTimer, SetTicker, or the taking up of the Reset |
| HeapTimer.TickersApart | tools/timer/heaptimer.go:167-171 | two callbacks of a ticker are at least its duration apart, from the time of the drain that ran the first |
| HeapTimer.NoneLeftDue | tools/timer/heaptimer.go:148-172 | a drain leaves no timer in the heap whose duration had passed when it read the clock |
| HeapTimer.DroppedWereRemoved | tools/timer/heaptimer.go:158-162 | only timers marked by a Stop or a Reset are dropped without a callback |
| HeapTimer.ReceivedExactly | tools/timer/heaptimer.go:187-203 | a timer received from the channel runs at once exactly if its time is already past, and else goes into the heap |
| HeapTimer.RequestsKept | tools/timer/heaptimer.go:267-279 | every call of Stop or Reset is taken up once or still waits |
| HeapTimer.StoppedForGood | tools/timer/heaptimer.go:183-185 | after the shutdown was taken up no callback runs |
| HeapTimer.OneLivePerHandle | tools/timer/heaptimer.go:209-217 | at most one un-removed object per handle after any sequence of Reset and Stop |
| HeapTimer.DrainInOrder | tools/timer/heaptimer.go:148-172 | a drain fires in nondecreasing trigger order and leaves only triggers later than `now` |
| HeapTimer.SilencedExactly | tools/timer/heaptimer.go:147-220 | of the objects that a handle has so far, none fires in any continuation of the run if and only if none is in transit and no un-removed one is in the heap |
| HeapTimer.StopSilences | tools/timer/heaptimer.go:216-217 | after a stop, with no reset waiting or later, the callback never runs again if and only if no object of the handle is in transit and no un-removed copy is in the heap |
| HeapTimer.MarkedNeverFromHeap | tools/timer/heaptimer.go:160-162 | an object marked removed never fires from the heap, in any continuation |
| HeapTimer.ResetArms | tools/timer/heaptimer.go:209-214 | after a reset some continuation fires the new object on its way in; some fires it from the heap if and only if the handle's own object was not marked; the earlier objects are silent exactly if quiet |
| WorkerPool.PlacedStep | tools/workerpool/workerpool.go:175-295 | no action loses, duplicates or moves a task out of the place that its Submit's outcome names |
| WorkerPool.CountStep | tools/workerpool/workerpool.go:181-188 | every action keeps the count equal to the live workers, within `maxWorker` |
| WorkerPool.LockStep | tools/workerpool/workerpool.go:182-187 | the growth lock is held by exactly the submitter that thinks so |
| WorkerPool.PolicyStep | tools/workerpool/workerpool.go:75-94 | no nesting of policies drops a task unless the configured policy can |
| WorkerPool.WorkersStep | tools/workerpool/workerpool.go:258-285 | a worker about to store the shutdown state saw a closed empty channel; a worker leaves only in shutdown or above the minimum |
| WorkerPool.CloserStep | tools/workerpool/workerpool.go:235-247 | drain becomes shutdown only when the channel is closed and empty |
| WorkerPool.InvStep | tools/workerpool/workerpool.go:175-295 | all of these are kept by every action |
| WorkerPool.RunInv | tools/workerpool/workerpool.go:175-295 | and hold in every state of every run |
| WorkerPool.PlacedAtMostOnce | tools/workerpool/workerpool.go:25-95 | however policies nest, a task is in at most one of queue, worker, done, caller, new goroutine; only if Submit returned nil; and a nil error with no place needs a policy that can discard |
| WorkerPool.OutcomeFitsPolicy | tools/workerpool/workerpool.go:25-95 | a task gets a goroutine of its own only by NewProcRunsPolicy, is run by its submitter only by CallerRunsPolicy, innermost in the pool's policy; a full queue is reported, or a task dropped, only by the policies that do so |
| WorkerPool.PolicyEnds | tools/workerpool/workerpool.go:25-95 | while the open channel stays full, each policy, however nested, brings Submit to its own outcome, with the task in its own place or nowhere |
| WorkerPool.RefusedOnlyThen | tools/workerpool/workerpool.go:176-178 | Submit reports a shutdown only if one has begun, and panics only on the closed channel |
| WorkerPool.RefusedAfterShutdown | tools/workerpool/workerpool.go:176-178 | a Submit that begins, or is to try again, after a shutdown has begun is refused |
| WorkerPool.QueueBounded | tools/workerpool/workerpool.go:142-150 | the channel never holds more than the tasks asked for, or 64 |
| WorkerPool.SendExactly | tools/workerpool/workerpool.go:190-196 | a send queues the task if there is room, and turns to the policy exactly if the open channel holds that many |
| WorkerPool.NoGrowth | tools/workerpool/workerpool.go:181-188 | no worker is started while the channel never holds more than three tasks |
| WorkerPool.LeavesExactly | tools/workerpool/workerpool.go:263-280 | an idle worker leaves exactly if the count is above the minimum; one that looks at the state, exactly in shutdown |
| WorkerPool.NoFurtherTask | tools/workerpool/workerpool.go:235-266 | after Shutdown(false) a worker that is not waiting on the channel takes no further task |
| WorkerPool.CountBounded | tools/workerpool/workerpool.go:181-188 | on every run `workerCount` is the number of live workers (and one being started), never above `maxWorker` |
| WorkerPool.Drained | tools/workerpool/workerpool.go:249-256 | with `minWorker == maxWorker >= 1`, when ShutdownWait(true) has returned the queue is empty and every accepted task was executed exactly once, no other by a worker |
| WorkerPool.DrainExactly | tools/workerpool/workerpool.go:258-280 | that holds on all runs if and only if `minWorker == maxWorker >= 1` |
| WorkerPool.DropReachable | tools/workerpool/workerpool.go:75-94 | for every policy that can discard there is a run in which Submit returns nil and the task is nowhere |
| WorkerPool.ShutdownProgress | tools/workerpool/workerpool.go:249-256 | while ShutdownWait waits, some step other than a timer's is possible |
| WorkerPool.SubmitProgress | tools/workerpool/workerpool.go:181-188 | a submitter can move, or the holder of the growth lock can |
| WorkerPool.SubmitEnds | tools/workerpool/workerpool.go:175-207 | each step of a Submit lowers a measure, for any policy and whatever the others do |
| MapMerge.OnlyWriterChanges | tools/collection/map.go:104-127 | a map changes only by the holder of its write lock |
| MapMerge.Undisturbed | tools/collection/map.go:110-126 | while an operation works, nobody else changes its target or its source |
| MapMerge.InvStep | tools/collection/map.go:25-127 | every action keeps the agreement of locks, threads and contents |
| MapMerge.RunInv | tools/collection/map.go:25-127 | it holds in every state, for any number of maps and operations |
| MapMerge.DeadlockFree | tools/collection/map.go:104-127 | in every reachable state with an unfinished operation some operation can step |
| MapMerge.StepDecreases | tools/collection/map.go:25-127 | every step lowers a lexicographic measure, so that every run ends |
| MapMerge.MergeIsAtomic | tools/collection/map.go:123-126 | whatever else runs, a finished merge leaves the target as it was when both locks were held, overridden by the source, and the source as it was |
| MapMerge.FinishedWrite | tools/collection/map.go:25-54 | a finished Set or Delete has left its entry or taken out its key, and touched no other key and no other map |
| MapMerge.EffectByKey | tools/collection/map.go:123-126 | key by key what each operation does: a merge gives the target the source's entry where there is one, and changes nothing else |
| MapMerge.SettledFinish | tools/collection/map.go:123-126 | finishing an operation has exactly its effect on the contents in which unfinished merges have not begun |
| MapMerge.Serializable | tools/collection/map.go:25-127 | once all operations have returned, the maps are as if they had been run one after the other in some order |
| Pipeline.WholeNext | tools/stream/pipelinestream.go:18-77 | calling a stage's closure on one more element does what the stage does to the list longer by that element |
| Pipeline.FirstAhead | tools/stream/pipelinestream.go:95-110 | the first stage can be run over the whole list ahead of the others |
| Pipeline.Fusion | tools/stream/pipelinestream.go:79-110 | pulling elements one by one yields the same list, the same calls of each Peek in order, and the same counters as applying the stages one after the other to the whole list |
| Pipeline.Compose | tools/stream/pipelinestream.go:79-110 | a chain means its first part followed by the rest |
| Pipeline.KeptCount | tools/stream/pipelinestream.go:18-29 | a filter keeps every copy of what satisfies the test and nothing else |
| Pipeline.CollectLimited | tools/stream/pipelinestream.go:50-63 | collecting through `Limit(i)` yields the first `i` elements, none if `i <= 0`, all if there are no more; the counter has counted them |
| Pipeline.CollectPeeked | tools/stream/pipelinestream.go:41-48 | Peek's function is called with every element, once each and in order, and all are let through |
| Pipeline.CollectFiltered | tools/stream/pipelinestream.go:18-29 | Filter yields exactly the elements at the positions that satisfy the test, in order |
| Pipeline.CollectPeekedLimited | tools/stream/pipelinestream.go:41-63 | a Peek before a Limit sees every element, one behind it only those let through |
| Pipeline.CollectPlain | tools/stream/pipelinestream.go:95-110 | a stream without stages yields a zero value for each element |
| Pipeline.SkipExactly | tools/stream/pipelinestream.go:65-77 | Skip leaves out the first `n` elements if and only if `n` is negative or there are none |
| Pipeline.PassedGrows | tools/stream/pipelinestream.go:79-93 | pulling further elements only adds at the end |
| Pipeline.PipelineStream.ExecuteOne | tools/stream/pipelinestream.go:95-110 | the loop over the closures does to an element, and to the captured variables, what the chain means |
| Pipeline.PipelineStream.Execute | tools/stream/pipelinestream.go:79-93 | yields the meaning of the chain on the whole list; zero values for an empty chain |
| Pipeline.PipelineStream.CollectSlice | tools/stream/pipelinestream.go:131-133 | the same |
| Pipeline.PipelineStream.Sorted | tools/stream/pipelinestream.go:31-39 | starts a new chain on an ordered permutation of what the old one lets through |
| Pipeline.CollectSorted | tools/stream/pipelinestream.go:31-39 | with non-empty chains before and after a sort, the result is the second chain's on an ordered permutation of the first chain's output |
| Pipeline.PipelineStream.Reduce | tools/stream/pipelinestream.go:120-129 | folds what the chain lets through, from the left |
| Pipeline.PipelineStream.Max | tools/stream/pipelinestream.go:176-209 | the first of the greatest elements that pass, or nothing if none passes |
| Pipeline.PipelineStream.Count | tools/stream/pipelinestream.go:246-255 | how many elements pass |
| Pipeline.PipelineStream.AnyMatch | tools/stream/pipelinestream.go:257-267 | true if and only if some element that passes satisfies the test; pulls no element after it |
| Pipeline.PipelineStream.AllMatch | tools/stream/pipelinestream.go:269-279 | true if and only if all elements that pass do; pulls no element after the first that does not |
| Pipeline.PipelineStream.First | tools/stream/pipelinestream.go:293-302 | the first element that passes, with no element pulled after it |
| DbCache.CutAtComma | tools/cache/dbcache.go:379-382 | the column is the part of the tag before the first comma, or all of it |
| DbCache.ContainsExactly | tools/cache/dbcache.go:383-395 | a tag contains the words that it has as a middle part |
| DbCache.TagsDecide | tools/cache/dbcache.go:383-397 | a field is updated exactly if its tag contains "update", and inserted exactly if it does not contain "primary" |
| DbCache.OptionDecides | tools/cache/dbcache.go:379-397 | a tag of a column, a comma and an option puts that column, and the field's name, where the option says |
| DbCache.PositionOf | tools/cache/dbcache.go:386-387 | a field is listed at the index that counts the listed fields before it |
| DbCache.DbFields | tools/cache/dbcache.go:351-402 | the scan lists the columns of each kind in field order, gives each stored field the number of stored fields before it, leads each column to the last field that has it, and finds the last primary key |
| DbCache.DbCache.GetFieldValues | tools/cache/dbcache.go:302-320 | each INSERT argument has the index of its own column, and there are as many |
| DbCache.DbCache.GetFieldValuesByTagName | tools/cache/dbcache.go:322-335 | each UPDATE or DELETE argument is the value of the field that has the column |
| DbCache.StatementSets | tools/cache/dbcache.go:246-289 | a statement with aligned arguments sets the columns of its fields to their values and no other column |
| DbCache.InsertedRow | tools/cache/dbcache.go:246-270 | INSERT makes a row that holds the object's values and the new key |
| DbCache.UpdatedRow | tools/cache/dbcache.go:272-289 | UPDATE makes the row hold the new values of the updated fields and the old of the others |
| DbCache.DbCache.Load | tools/cache/dbcache.go:127-139 | a faithful select makes cache and table agree; the empty answer of the generated select agrees with an empty table only; on an error nothing changes |
| DbCache.DbCache.SetPrimary | tools/cache/dbcache.go:337-348 | writes the new key into the primary field and nothing else |
| DbCache.DbCache.Insert | tools/cache/dbcache.go:153-161 | a failure changes nothing; after a success cache and table agree if and only if the object received or had the new key and was not cached before |
| DbCache.DbCache.UpdateCached | tools/cache/dbcache.go:174-198 | replaces the cached object by a new one with the updated fields of `v` and the other fields as they were |
| DbCache.DbCache.Update | tools/cache/dbcache.go:163-172 | whether it succeeds or fails, agreement is kept, and other entries are untouched |
| DbCache.DbCache.Delete | tools/cache/dbcache.go:200-208 | whether it succeeds or fails, agreement is kept; a success removes key and row |
| DbCache.DbCache.Get | tools/cache/dbcache.go:141-143 | under agreement the cache answers as the table would |

## Left out

- TimerWheel.TimerWheel.Tick: is stated for the slots whose sweep ends, and for a wheel that was not shut down during the sleep before the tick while tickers are in the slot, since re-arming then panics. Add, Stop, Reset and Tick are atomic; callbacks that call back into the wheel during a sweep, the unlocked re-arm into another slot and the unsynchronised read of the pointer are not modelled, nor are the debug counters.
- TimerWheel.TimerWheel.Start: is stated for wheels in which no slot has two tickers shorter than a slot interval, which ticks keep so, and with no other call during the turns.
- TimerWheel.TimerWheel.Stop: a timer of another wheel, which `list.List` would ignore, is not modelled.
- ParallelFor.NilMeansAll: runs without panics, `workers >= 1`, and at least one piece (an empty task list returns at once); integer overflow in `ceilDiv` and in the chunk bounds is not modelled.
- TaskDispatch.NilMeansAll: at least one task and one worker, and the task function is the only sender on the result channel. With no tasks the main loop never ends. That the error path ends is not claimed: a worker can block on the counter or the result channel.
- BlockingQueue.RunInv: a call is a sequence of critical sections; the flag that Pop returns with an item, which only repeats `shutdown`, and the clearing of popped pointers are not modelled.
- HeapTimer.Conservation: on-time firing is not claimed, since the wake-up uses the top timer's whole duration; nor is it claimed that a ticker on the late-add path is queued again, or that this path heeds the removed mark. Panics of callbacks are not modelled.
- PriorityQueue.PriorityQueue.Up: `container/heap` is modelled after its documentation; the heap queue's own Pop is the truncation in `PriorityQueue.Pop`.
- WorkerPool.RunInv: Start is complete at the beginning, and one goroutine calls Shutdown or ShutdownWait, once. A send on the closed channel is modelled as a panic of the submitter. A task that panics counts as executed. The recheck of the state in ShutdownWait before it calls Shutdown is not a step of its own.
- MapMerge.MergeIsAtomic: the branch of Merge for foreign map types takes a snapshot and one lock, and is covered as a single-lock write. Maps do not move; re-entrant use is not modelled.
- Pipeline.PipelineStream.Sorted: the library's sort is a parameter that orders what it is given. Functions given to Filter and the terminal operations are pure; Last, Min, NoneMatch, ForEach and the map collectors are left out.
- DbCache.DbCache.Insert: the key function returns the primary field. Fields are exported and have distinct columns, one of them the primary key. SQL text, logging, the panics of a type without stored or updated columns, and callers that write to objects they have handed over or got from Get are not modelled. Reflection is replaced by lists of named fields.
- HTTP, bindings, logging, profiling, signals, code generation and project templates.
- `tools/collection/expirationmap.go`: its Get calls itself without progress.
- Helper packages (`collectionutils`, `set.go`, `stack.go`, `strutil`, `math`, middleware chaining) would add only easy members.
