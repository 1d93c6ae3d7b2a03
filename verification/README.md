# cpp_logger: a verified model

cpp_logger is an asynchronous logger: any number of producer threads push records into one bounded
queue, one worker takes them off in batches, formats them and hands every batch to every sink. This
project models its four hard parts and the benchmark that checks them, and proves what they keep.

| part | files |
|---|---|
| the bounded queue: overflow policies, generations, counters | `Sizes.dfy`, `QueueSpec.dfy` (as a value, with its history), `BlockingQueue.dfy` (the class, proved against it) |
| its two condition variables | `WakeProtocol.dfy`: threads that park, wake and notify after the unlock |
| init, log, stop and the worker | `Lifecycle.dfy` (the step system), `LifecycleSafety.dfy` (invariants), `LifecycleTheorems.dfy` (order, generations, drain), `LifecycleProgress.dfy`, `LifecycleAccounts.dfy` (every call), `LifecycleLevels.dfy` (the level check), `LifecycleConfig.dfy` (configurations), `LifecycleFlush.dfy` (flush policies) |
| the worker's loop with its clocks and flush policies | `WorkerLoop.dfy` |
| the rotating file sink | `RotationSpec.dfy` (a naive writer, one record at a time), `FileSink.dfy` (the class, proved to refine it) |
| formatting, its cache, and reading a line back | `Text.dfy`, `Formatting.dfy` |
| the benchmark: producer barrier, a whole run, markers, balance, CSV | `StartBarrier.dfy`, `BarrierOutcome.dfy`, `BenchmarkRun.dfy` (barrier and logger side by side), `Markers.dfy`, `Accounting.dfy`, `Csv.dfy` |

How the parts meet. Each critical section of the queue is one function of `QueueSpec`. The class
`BlockingQueue` is proved equal to these functions, `WakeProtocol.ConcurrentRunsAreSequential` shows
that any interleaving of waits and notifications leaves the queue as a sequential run of them would,
and `Lifecycle` uses the same functions for its queue steps. There a blocked thread moves as soon as
its predicate holds; `WakeProtocol.NoLostWakeup` is why that is right. `BenchmarkRun` interleaves the
producer group with the logger, one log() call for each submission, and
`Accounting.FinalDrainBalances` puts the ledger, the drain theorem, the barrier, the formatter, the
file rotation and the marker count together into the benchmark's own check.

Two properties do not hold without a condition; the exact conditions are proved:

- `stop()` is documented to drain every accepted record (`README_EN.md:226`). The code does so exactly
  when the flush policy is not `Periodic` (`DrainGuaranteedIffNotPeriodic`). Under `Periodic` a
  `popBatchFor` can time out on an open, empty queue, a record be pushed and `stop()` close the queue,
  before the worker asks whether it is closed; the record then stays behind. `ReachLeftBehind` is a run
  that does this under any valid `Periodic` configuration, and `PeriodicDrainsUpToLastMiss` is what
  remains true. The model follows the code.
- The fraction of a timestamp has three digits exactly when the truncated millisecond count is not
  negative modulo a second. Before the epoch it can print as `00-5` (`BeforeTheEpoch`).

Conventions. A string is a sequence of bytes. Counters of the queue, generations and file indices are
natural numbers; sizes in the file sink are 64 bits wide, and no operation on them wraps. Steps of
different threads interleave one at a time; a mutex makes a critical section one step.

## Model

| member | source | states |
|---|---|---|
| QueueSpec.StepKeepsLedger | include/BlockingQueue.h:150-220 | every critical section keeps the ledger: the queue is what was accepted less what has left from the front, every counter equals the results it stands for, size and high-water mark are bounded by the capacity, and only forced losses occur |
| QueueSpec.LedgerAlways | include/BlockingQueue.h:95-220 | the ledger holds after every sequence of pushes, pops, closes and resets with any arguments |
| QueueSpec.LengthAndLosses | include/BlockingQueue.h:180-212 | size is enqueued less popped; every push not answered Closed is popped, queued or counted as dropped |
| QueueSpec.RecentNeverLost | include/BlockingQueue.h:193-206 | under every policy the most recent min(capacity, accepted) values are queued at their place or were popped |
| QueueSpec.PolicyDecidesLosses | include/BlockingQueue.h:186-211 | over every run: what is taken in is what was submitted less what was answered DroppedNewest, which happens only under DropNewest; evictions happen only under DropOldest; so Block loses nothing, DropNewest nothing it has taken in, and under DropOldest the queue is the end of what was submitted |
| QueueSpec.PushAnswers | include/BlockingQueue.h:180-212 | a push is answered Closed if and only if the queue is closed or of another generation; otherwise Enqueued while there is room, and on a full queue it waits, is refused or evicts as the policy says |
| QueueSpec.PushLeaves | include/BlockingQueue.h:193-211 | what each answer means for the contents of the queue and the drop counter |
| QueueSpec.TakeHandsOutFront | include/BlockingQueue.h:167-177 | a batch is the front of the queue, as long as the limit allows, appended to what was popped before, and nothing else changes |
| QueueSpec.SurvivorsSplit | include/BlockingQueue.h:170-205 | what was popped followed by what is queued is exactly what was accepted and not evicted, in order |
| QueueSpec.PushPreservesPopped | include/BlockingQueue.h:180-212 | a push accepts at most its own value, evicts at most one, and does nothing when closed, stale or waiting |
| BlockingQueueClass.BlockingQueue.constructor | include/BlockingQueue.h:222-231 | a new queue is open, empty, unbounded in practice, and meets the ledger |
| BlockingQueueClass.BlockingQueue.Push | include/BlockingQueue.h:39-42 | a push keeps the ledger and does what the queue as a value does; its answer, its effect on the queue and its notification are also stated outright, case by case |
| BlockingQueueClass.BlockingQueue.ResumePush | include/BlockingQueue.h:187-192 | the same for a blocked producer that has been woken |
| BlockingQueueClass.BlockingQueue.PushLocked | include/BlockingQueue.h:180-212 | all policies: refusal, eviction or insertion, with the counters and the notification that belong to each |
| BlockingQueueClass.BlockingQueue.WaitForRoomThenEmplace | include/BlockingQueue.h:186-192 | a Block push waits while the queue is open, current and full, and looks at closed and generation again afterwards |
| BlockingQueueClass.BlockingQueue.EmplaceLocked | include/BlockingQueue.h:214-220 | the value goes to the back and the high-water mark follows |
| BlockingQueueClass.BlockingQueue.Pop | include/BlockingQueue.h:45-59 | pop is a batch of one, the front, that notifies one producer and only if it took something |
| BlockingQueueClass.BlockingQueue.PopBatchUntimed | include/BlockingQueue.h:63-68 | the values handed out followed by the new queue are the old queue, as many as the limit allows; then, and only then, all producers are notified |
| BlockingQueueClass.BlockingQueue.PopBatchFor | include/BlockingQueue.h:72-77 | the timed form; a false return means an empty queue, open or closed, or a limit of 0 |
| BlockingQueueClass.BlockingQueue.PopBatchImpl | include/BlockingQueue.h:150-178 | the loop takes exactly the batch of the specification and notifies all producers |
| BlockingQueueClass.BlockingQueue.CloseQueue | include/BlockingQueue.h:80-87 | only closed changes |
| BlockingQueueClass.BlockingQueue.ResetQueue | include/BlockingQueue.h:95-107 | a new generation, empty and open, counters at 0, capacity 0 taken as 1, from any state |
| WakeProtocol.StepRefinesQueue | include/BlockingQueue.h:45-107 | every step of every thread is one critical section of the queue or leaves it alone |
| WakeProtocol.ApplyKeepsInv | include/BlockingQueue.h:150-212 | pushes, pops, waits, expiries, spurious wakeups, late notifications, close and reset all keep: free slots (queued items) are covered by woken threads and pending notifications whenever somebody is parked |
| WakeProtocol.InvAlways | include/BlockingQueue.h:45-107 | so it holds in every reachable state, for any number of threads and any mix of pop forms |
| WakeProtocol.NoLostWakeup | include/BlockingQueue.h:45-107 | when nothing is left to run, every parked thread's predicate is false, and producers and consumers are never parked together |
| WakeProtocol.ResetWakesEverybody | include/BlockingQueue.h:95-107 | after a reset nobody is parked on either condition variable |
| WakeProtocol.ConcurrentRunsAreSequential | include/BlockingQueue.h:150-220 | every concurrent run leaves the queue as the sequential run of its critical sections, so the ledger holds of it |
| LifecycleTheorems.ApplyKeepsInv | src/Logger.cpp:95-304 | every step of producers, init, stop, worker and setLevel keeps all invariants of LifecycleSafety |
| LifecycleTheorems.InvAlways | src/Logger.cpp:95-304 | they hold in every reachable state, over any number of init and stop cycles |
| LifecycleTheorems.GenerationIsolation | src/Logger.cpp:184-205 | the sinks of a life cycle get only records whose running and level check was made in it |
| LifecycleTheorems.StaleProducerTurnedAway | src/Logger.cpp:196-205 | a producer delayed or blocked across a restart gets Closed and leaves the new queue as it was, whatever the new policy |
| LifecycleTheorems.DeliveryOrder | src/Logger.cpp:267-279 | in every sink each thread's records stand in call order, none twice; sinks differ by at most the batch in flight, an earlier sink never behind a later one |
| LifecycleTheorems.PollTakesFront | src/Logger.cpp:242-265 | a pop hands the worker the front of the queue, as much as the configured batch size allows; nothing, only from an empty queue that is closed or under Periodic |
| LifecycleTheorems.NewestRecordsAreSafe | src/Logger.cpp:242-289 | each of the last min(capacity, accepted) records is queued, in the worker's batch, or in every sink |
| LifecycleTheorems.DrainedIffNothingLeft | src/Logger.cpp:208-220 | a life cycle that ended without failure drained if and only if its queue was left empty: then every sink has each survivor once and in order, then a flush, then a close |
| LifecycleTheorems.StopDrains | src/Logger.cpp:208-220 | under OnStop and EveryBatch, unless a sink or the formatter throws, stop drains, in every interleaving, and what was delivered plus the drop counter is what the queue did not turn away |
| LifecycleTheorems.PeriodicDrainsUpToLastMiss | src/Logger.cpp:242-265 | unless something throws, what was delivered followed by what is left is the survivors, also under Periodic; anything left was accepted after the last timed-out popBatchFor, after which nothing was popped |
| LifecycleTheorems.ReachLeftBehind | src/Logger.cpp:255-265 | for every valid Periodic configuration a run in which stop leaves a record in the queue |
| LifecycleTheorems.DrainGuaranteedIffNotPeriodic | README_EN.md:226 | the documented drain is guaranteed for a configuration if and only if its policy is not Periodic |
| LifecycleTheorems.CloseIsLast | src/Logger.cpp:312-318 | close is the last call every sink sees, also after a worker failure or a failed init, and no installed sink has been closed |
| LifecycleTheorems.LifecycleDiscipline | src/Logger.cpp:95-161 | running implies not closed; reset, installing, closing and dropping sinks and starting a worker happen only without a worker; closed is permanent within a generation |
| LifecycleTheorems.WorkerOwnsItsState | src/Logger.cpp:234-304 | while a worker is live no other thread touches its sinks, batch, configuration or program counter, and no second worker starts |
| LifecycleProgress.NeverStuck | src/Logger.cpp:186-216 | no reachable state has the exclusive lock held by a thread that cannot go on and whose worker cannot either; shared holders always move on; after close every blocked producer returns |
| LifecycleProgress.ExclusiveSectionEnds | src/Logger.cpp:208-216 | under the exclusive lock every step of its holder, and of the worker it joins, lowers a well-founded measure, and no other step raises it |
| LifecycleProgress.BlockedProducerIsServed | src/Logger.cpp:186-205 | a producer waiting for room always has a live worker with a step to take, also after a failure and whoever holds the lock; each such step makes room, closes the queue, or lowers a bounded count that nobody else's step raises |
| LifecycleAccounts.EveryCallAccounted | src/Logger.cpp:182-206 | in every reachable state the calls begun in the current life cycle are those before the check, those refused there, those with a result, those answered Closed and those under way; while the queue is open none was answered Closed |
| LifecycleAccounts.NobodyRefused | src/Logger.cpp:186-192 | when every call is at or above every minimum configured or set, a running logger has refused none, and once all have returned every call begun has passed |
| LifecycleAccounts.StopBalances | src/Logger.cpp:208-224 | a stop called after all log calls returned, in any interleaving with a worker that does not fail: delivered plus left plus dropped is the number of calls that passed, and nothing is left unless Periodic |
| LifecycleAccounts.AttemptsBalance | src/Logger.cpp:182-224 | the same for the calls attempted, when every call is at or above every minimum configured or set |
| LifecycleLevels.CheckDecides | src/Logger.cpp:189-192 | a call passes its check if and only if the logger runs and its level is at or above the minimum that init or setLevel asked for last |
| LifecycleLevels.NothingBelowMinimum | src/Logger.cpp:184-205 | in every run, every record in a queue's history or given to a sink, of the current or an ended life cycle, is at or above the minimum in force at its check |
| LifecycleLevels.DeliveredMeetConfiguredLevel | src/Logger.cpp:137-139 | without setLevel every delivered record is at or above the configured minimum level of its life cycle |
| LifecycleConfig.QueueObeysConfiguration | src/Logger.cpp:137-146 | while sinks are installed, and in every ended life cycle, capacity and overflow policy of the queue are those of the configuration, which is that of the latest init to install any |
| LifecycleConfig.PolicyDecidesDelivery | src/Logger.cpp:137-143 | in a life cycle that ended without failure, by its configured overflow policy: what each sink was given followed by what is left is what was submitted (Block) or taken in (DropNewest); under DropOldest all was taken in |
| LifecycleConfig.WhatComesIntoForce | src/Logger.cpp:98-113 | some run installs a configuration if and only if it meets each of the listed requirements |
| LifecycleConfig.SinksAsConfigured | src/Logger.cpp:122-131 | one sink for each that the configuration enables, or none |
| LifecycleConfig.StopReturnsStopped | src/Logger.cpp:208-220 | when stop returns the logger is not running, the queue closed, and there are neither worker nor sinks |
| LifecycleConfig.InitReturns | src/Logger.cpp:95-161 | init ends in one of four ways: running as asked with an open empty queue; refused, changing nothing, because the logger ran or the configuration cannot come into force; or stopped, because the sinks or the worker could not be made |
| LifecycleConfig.FailedBuildGivesUp | src/Logger.cpp:119-135 | when a sink cannot be made init ends there, the queue not reset, nothing running, no worker and no sinks |
| LifecycleConfig.FailedStartIsUndone | src/Logger.cpp:148-158 | when the worker cannot be started the steps of init undo the start: not running, the queue closed, the new sinks closed and dropped without having been given anything |
| LifecycleFlush.NothingOwedAtLoopHead | src/Logger.cpp:281-288 | whenever the worker has no batch in hand: EveryBatch has left nothing unflushed in any sink, and no policy a record at or above the threshold |
| LifecycleFlush.NoFlushWithoutReason | src/Logger.cpp:281-298 | unless Periodic, every flush but the one before the close comes directly after a batch, which under OnStop holds a record at or above the threshold |
| LifecycleFlush.FailedFlushStopsThere | src/Logger.cpp:290-310 | a flush in which a sink throws has flushed the sinks before it, does not reach those behind it, and ends the loop |
| LifecycleFlush.OnStopFlushesOnStop | README_EN.md:234 | under OnStop without a threshold no sink is flushed while the worker is in its loop |
| WorkerLoop.TimeoutWithinDeadline | src/Logger.cpp:245-250 | truncation to milliseconds never lets the wait pass the deadline and shortens it by less than one |
| WorkerLoop.Worker.FormatBatch | src/Logger.cpp:267-274 | the lines are those of the records, one each; the flag says whether some record reaches the threshold |
| WorkerLoop.Worker.WriteToSinks | src/Logger.cpp:277-279 | every sink receives the whole batch after what it had |
| WorkerLoop.Worker.FlushSinks | src/Logger.cpp:306-310 | every sink has flushed all it received, and received nothing |
| WorkerLoop.Worker.AfterMiss | src/Logger.cpp:255-265 | after a false return the sinks are flushed and the deadline renewed if and only if the policy is Periodic and the deadline has passed |
| WorkerLoop.Worker.AfterPop | src/Logger.cpp:267-288 | after a batch every sink has its lines; the sinks are flushed if and only if the policy is EveryBatch, a record reaches the threshold, or the deadline of Periodic has passed; only a flush under Periodic renews the deadline |
| WorkerLoop.Worker.RunTurn | src/Logger.cpp:242-289 | one iteration, with or without a batch: what is received, flushed and renewed, how often, and how long the pop may wait |
| WorkerLoop.Worker.Run | src/Logger.cpp:234-304 | every sink has every popped line once and in order, has been flushed exactly as often as the rules demand and no more, waits are what remains to the deadline, and one last flush follows the loop |
| WorkerLoop.OwedAtHead | src/Logger.cpp:240-289 | at every loop head EveryBatch leaves nothing unflushed, nothing at or above the threshold is unflushed, and under Periodic what is unflushed was popped within one interval of the latest check |
| WorkerLoop.FlushedOnlyWhenDue | src/Logger.cpp:255-288 | a turn flushes, and moves what counts as flushed, if and only if one of the three reasons holds |
| WorkerLoop.OnStopDoesNotFlush | README_EN.md:234 | under OnStop, while no record reaches the threshold, nothing is flushed until the loop has ended |
| WorkerLoop.DeadlineFollowsLastFlush | src/Logger.cpp:240-288 | under Periodic the deadline is one interval after the latest flush, or after the beginning |
| WorkerLoop.PeriodicFlushesAreApart | src/Logger.cpp:255-288 | under Periodic two flushes are an interval apart unless a record at or above the threshold forced the later one |
| RotationSpec.FileNamesDiffer | src/LogSink.cpp:91-95 | different dates or indices give different file names |
| RotationSpec.FileNameParts | src/LogSink.cpp:91-95 | the name is the base, the date and the index, joined by underscores, with the extension .log |
| RotationSpec.SeekIsLeast | src/LogSink.cpp:146-153 | the search ends, over any existing files, at the least index whose file is empty or, counted in bytes, has room |
| RotationSpec.FilesHoldWholeLines | src/LogSink.cpp:58-67 | every file is what it was followed by the whole lines placed in it, in order |
| RotationSpec.RotationBound | src/LogSink.cpp:136-154 | a file that was written to is within the limit, or was empty and holds one oversized record |
| RotationSpec.GoesToFirstFit | src/LogSink.cpp:136-154 | a record goes to the first index, from the current one or from 0 on a new date, whose file is empty or takes it within the limit; every file passed over holds something and has no room for it; no other file changes |
| RotationSpec.NoFileLeftEarly | src/LogSink.cpp:58-67 | over a whole stream, every file that a record was moved past ends too full to take that record |
| RotationSpec.IndexGoesBackOnlyWithDate | src/LogSink.cpp:138-144 | the index starts over only with a new date, and every file passed over was full and stays as it was |
| FileSinkClass.FileSink.constructor | src/LogSink.cpp:38-56 | opens index 0 of today, changing no file's content, with the cached size right |
| FileSinkClass.MakeFileSink | src/LogSink.cpp:38-42 | refused if and only if the path is empty or the limit 0, and then no file is touched; otherwise a sink on index 0 of today |
| FileSinkClass.FileSink.WriteOut | src/LogSink.cpp:129 | however much the stream passes on at once, file plus stream buffer grow by the text |
| FileSinkClass.FileSink.FlushPending | src/LogSink.cpp:124-134 | nothing is pending afterwards, and the files as they will be do not change |
| FileSinkClass.FileSink.Flush | src/LogSink.cpp:69-77 | open or closed, the stream's buffer is in the file afterwards; with nothing pending the files are all that was taken in |
| FileSinkClass.FileSink.Close | src/LogSink.cpp:79-88 | closed, with the stream's buffer in the file; with nothing pending the files are all that was taken in |
| FileSinkClass.FileSink.OpenNewLogFile | src/LogSink.cpp:103-122 | the cached size is that of the new file, and what the old stream held reaches the old file |
| FileSinkClass.FileSink.StartDate | src/LogSink.cpp:138-144 | pending text goes to the old date's file before the new date's index 0 is opened |
| FileSinkClass.FileSink.NextFile | src/LogSink.cpp:150-152 | pending text goes to its own file before the next index is opened |
| FileSinkClass.FileSink.SkipFullFiles | src/LogSink.cpp:146-153 | the loop ends, over any existing files, at the index the search of the naive writer finds, in size_t arithmetic that does not wrap |
| FileSinkClass.FileSink.RollIfNeeded | src/LogSink.cpp:136-154 | the index is the naive writer's; every file passed over was too full for the record, counted in bytes; the one that is open has room or is empty |
| FileSinkClass.FileSink.TakeIn | src/LogSink.cpp:59-65 | one record is placed as the naive writer places it |
| FileSinkClass.FileSink.WriteBatch | src/LogSink.cpp:58-67 | a batch leaves the files as the naive writer would, given the same records and dates, with nothing pending |
| FileSinkClass.FileSink.Serve | src/LogSink.cpp:58-77 | any sequence of batches, cut anywhere, with flushes anywhere among them, leaves the files as the naive writer would, given the same records one at a time; after a flush the files themselves are those |
| FileSinkClass.WriteAll | src/LogSink.cpp:36-88 | a sink's whole life, from its making over any batches and flushes to its close: the files on disk are those of the naive writer, whatever was buffered and whenever |
| Text.DecimalRoundTrip | src/Logger.cpp:67-75 | a natural number reads back from its digits |
| Text.SignedRoundTrip | src/Logger.cpp:67-75 | so does a signed one |
| Formatting.SecondAndMillis | src/Logger.cpp:361-373 | the second printed is the one the timestamp falls in, and with the milliseconds it makes up the timestamp; before the epoch both are cut off toward zero |
| Formatting.TimeReadsBack | src/Logger.cpp:361-384 | the text is the calendar's for that second, a dot and the milliseconds; from the epoch on three digits that read back |
| Formatting.ThreeDigitsIffNotNegative | src/Logger.cpp:372-382 | the fraction is three digits if and only if the truncated milliseconds are not negative modulo 1000; from the epoch on always, and it reads back |
| Formatting.BeforeTheEpoch | src/Logger.cpp:372-382 | five milliseconds before the epoch the fraction is `00-5` |
| Formatting.Formatter.FormatTime | src/Logger.cpp:361-384 | with the cache in any valid state the text is that of uncached formatting, of the timestamp's own second and milliseconds |
| Formatting.Formatter.FormatMessage | src/Logger.cpp:320-343 | the line is that of the record, and the cache stays valid |
| Formatting.LineReadsBack | src/Logger.cpp:320-343 | the second as the calendar shows it, the milliseconds, level, thread, file, line number and message can all be read back from the line, whatever the message, if the file name has no closing bracket |
| StartBarrier.InvAlways | benchmark/common/BenchmarkHarness.h:179-246 | in every reachable state the counters are the workers past each point, and nobody is parked whose condition holds without a notification to come |
| StartBarrier.NoEarlySubmit | benchmark/common/BenchmarkHarness.h:220-236 | nobody submits before all are ready, unless a launch failed |
| StartBarrier.ReturnsWhenAllSubmitted | benchmark/common/BenchmarkHarness.h:202-208 | the group is returned only when threads times messages submissions have been made |
| BenchmarkRun.EveryMessageAccounted | benchmark/cpp_logger_benchmark.cpp:140-151 | in every interleaving of the producer group, its log calls and the logger's worker, if that does not fail: what a sink was given, plus what is left, plus the drop counter is threads times messages, and nothing is left unless Periodic |
| BarrierOutcome.StartThrowsIffSomethingThrew | benchmark/common/BenchmarkHarness.h:179-209 | start returns the group if and only if no prepare, submit or launch has thrown |
| BarrierOutcome.UnpreparedSubmitsNothing | benchmark/common/BenchmarkHarness.h:211-236 | a worker whose prepare threw submits nothing |
| BarrierOutcome.WorkersStayUntilRelease | benchmark/common/BenchmarkHarness.h:155-168 | no worker leaves before the release, which waits for all to complete unless a launch failed; in the end every launched worker has left |
| StartBarrier.StepsDoWork | benchmark/common/BenchmarkHarness.h:179-246 | every step but an idle wakeup lowers a bounded measure |
| StartBarrier.NeverHangs | benchmark/common/BenchmarkHarness.h:179-246 | whatever prepare, submit or the launch throws, some thread can always do some of the work left |
| Markers.MarkersAreWellMarked | benchmark/common/BenchmarkHarness.cpp:184-192 | a marker is one line with its only brackets at its ends |
| Markers.MarkersDiffer | benchmark/common/BenchmarkHarness.cpp:181-192 | different sequence numbers give different markers |
| Markers.PayloadFillsSize | benchmark/common/BenchmarkHarness.cpp:193-197 | there is a payload if and only if the marker fits, and it is exactly as long as asked for |
| Markers.MarkerInPayload | benchmark/common/BenchmarkHarness.cpp:193-197 | a marker occurs in a run's payload at its start and nowhere else, and only if it is that run's |
| Markers.MarkerNotInPrefix | src/Logger.cpp:326-341 | a marker does not occur in what the logger puts before the message, even if the source file's name imitates one |
| Accounting.FindIsFirst | benchmark/common/BenchmarkHarness.cpp:254 | the search finds the first occurrence at or after the offset, or there is none |
| Accounting.OccurrencesAreApart | benchmark/common/BenchmarkHarness.cpp:253-260 | the count is that of places where the marker stands that do not overlap, and any other such place overlaps one of them |
| Accounting.CountInLine | benchmark/common/BenchmarkHarness.cpp:253-260 | the loop counts the occurrences that do not overlap, from the left |
| Accounting.CountInFile | benchmark/common/BenchmarkHarness.cpp:251-261 | the sum over the lines of a file, the last one with or without a newline |
| Accounting.CountedOncePerLine | benchmark/common/BenchmarkHarness.cpp:251-261 | a line made of a prefix and a payload counts once for its own run and not at all for another |
| Accounting.InspectOutput | benchmark/common/BenchmarkHarness.cpp:210-267 | the sum over the files of the directory, in whatever order they are walked |
| Accounting.CountSnoc | benchmark/common/BenchmarkHarness.cpp:251-261 | a line appended to a file of whole lines adds exactly what is counted in that line |
| Accounting.CountLastLine | benchmark/common/BenchmarkHarness.cpp:252-261 | a last line without a newline is counted like any other |
| Accounting.FilesAreCounted | benchmark/common/BenchmarkHarness.cpp:219-265 | however the rotation spreads a run's records over files, by date and by size, the markers counted in all of them together are exactly the records, if there were no such files before |
| Accounting.FinalizeRun | benchmark/common/BenchmarkHarness.cpp:283-293 | accepted if and only if no more was delivered than attempted and the drop counter is the difference |
| Accounting.FinalDrainBalances | benchmark/common/BenchmarkHarness.cpp:281-293 | a failure-free final-drain run passes that check with attempted as threads times messages: the markers in the files a sink writes from the records it was given, with any dates and rotation, and the drop counter balance the attempts, in every interleaving |
| Csv.CsvEscape | benchmark/common/BenchmarkHarness.cpp:34-50 | the loop doubles every quote; a field without comma, quote or line break, and no other, is left as it is |
| Csv.FieldReadsBack | benchmark/common/BenchmarkHarness.cpp:34-50 | a reader by section 2 of RFC 4180 gets the field back and stops where it ends |
| Csv.RowReadsBack | benchmark/common/BenchmarkHarness.cpp:64-68 | a row of any fields joined by commas reads back as exactly those fields |

## Left out

- Real threads, memory orders and scheduling fairness: steps are sequentially consistent, and nothing is claimed about which waiting producer gets a slot.
- The life cycle, the wakeups and the producer barrier are step systems on values, because their content is the interleaving; updating one shared object in place, and aliasing, are shown by the classes for the queue, the sink, the formatter and the worker's loop only.
- Queue waits in the life cycle take one step once their predicate holds; parking and notifying are in WakeProtocol.
- Exceptions other than those of sinks, of the formatter, of building sinks and of starting the worker: running out of memory inside a queue operation is not modelled.
- WorkerLoop.Worker.Run: no sink throws there, because failures at every point of the loop are steps of Lifecycle; and the flush guarantee is stated for a clock that does not go back, as the steady clock the loop reads.
- Accounting.FinalDrainBalances: log() calls do not throw; a submission that throws does so before its call, and then the group is not returned. Nobody but the group logs, and nobody raises the minimum level above the calls', during the run.
- Accounting.InspectOutput: the names of the directory's log files are given; walking it, byte totals, file counts and the overflow checks of the counters are left out.
- Markers.MarkerNotInPrefix: the local time must print without brackets and underscores, and the source file's name without brackets and newlines.
- Sinks listed twice, sinks that call back into the logger, and exceptions not derived from std::exception.
- File system failures, directory creation, other processes writing the same files, and what survives a loss of power; an absent file has size 0.
- FileSinkClass.FileSink.WriteBatch: the sink is open, as it is between init and stop (LifecycleTheorems.CloseIsLast); writing after close is not modelled.
- FileSinkClass.FileSink.Flush: a stream that fails, and the exception it raises, are not modelled.
- The int file index, the 64-bit drop counter and the generation do not wrap; they are natural numbers.
- Calendar arithmetic: the text of a second is an arbitrary function, and the date is given with each record.
- Console sink, log macros, validators of enumerations, shouldLog alone and the getters: they would only add easy members.
- Benchmark timing and rates, option parsing and the spdlog and Quill drivers.
