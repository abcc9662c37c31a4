# Verified model of the transaction tracking engine

This project models, in Dafny, how the pool manager keeps track of a transaction: the retry scheduler of the
monitor, the send pipeline of the sender, the status row they share in the database, and the number and byte
codec at the edge. It proves what every step keeps, what holds in every run and interleaving (crashes and
restarts included), and, where the code does not have a property one would expect, exactly when it does.

`dafny verify dfyconfig.toml` checks the whole project.

## How it is organised

| file | content |
|---|---|
| `types.dfy`, `sequences.dfy`, `paths.dfy` | records, statuses, milliseconds; insertion and removal by index, multisets of holders; paths of any step machine |
| `retry_order.dfy`, `stable_order.dfy` | the order of the retry list on values; what a history of adds and deletes leaves |
| `request_list.dfy` | the retry list as the code keeps it: a class with a map, a slice and shared request objects |
| `monitor_loop.dfy`, `sender_loop.dfy`, `endpoints.dfy`, `pool_db.dfy` | the methods of monitor, sender, endpoint and table as imperative code, each running alone |
| `monitor_machine.dfy` | the monitor as a step machine: one dispatcher, N workers, any number of adders, a bounded channel, blocked senders, a clock |
| `monitor_safety.dfy`, `monitor_fates.dfy`, `monitor_truth.dfy`, `monitor_timing.dfy`, `monitor_sleep.dfy`, `monitor_order.dfy`, `monitor_drain.dfy` | its invariants, what it writes and why, how often it polls, how late it can be, the order of its list, and its bursts |
| `monitor_workers.dfy`, `monitor_progress.dfy` | the life of its workers, the emptying of the channel, and when a listed request can still be polled |
| `monitor_harm.dfy`, `system_harm.dfy` | runs in which an assumption is broken, and what is lost in them |
| `sender_machine.dfy`, `sender_safety.dfy` | the sender as a step machine, and its invariants |
| `system.dfy`, `system_safety.dfy`, `system_runs.dfy` | endpoint, sender, monitor and table together, with an operator, crashes and restarts |
| `system_rows.dfy`, `system_rest.dfy` | what a row says and why it changes, and how the engine comes to rest |
| `digits.dfy`, `hex.dfy`, `encoding.dfy` | numerals and the library functions on them, and the two codecs |

The same code appears in two forms. The imperative classes follow the methods statement by statement and are
proved against functions on values. The step machines cut the same statements at every access to shared state,
so that any other goroutine can run in between; each call on the mutex-protected list is one step. Both use
the same functions for the list (`RetryOrder.UpperBound`, `RetryOrder.Locate`). `MonitorDrain` shows that
dispatcher steps with nothing in between do what the dispatcher's method does, and `MonitorOrder` that in every
interleaving the list is what the same calls, made one after the other on values, leave.

## What is assumed

* Unique ownership. An id enters `AddL2Transaction` only while no request tracks it
  (`MonitorSafety.Disciplined`). `SystemRuns.MonitorIsHandedFreshIds` derives this for the whole engine from
  three weaker assumptions (`System.Disciplined`): a failed insert, which leaves id 0, is not repeated while
  an earlier one is still in progress; the sender's status writes succeed or do no harm; the operator requests
  a resend only of rows nobody owns. None of them is enforced by the code. The monitor's assumption and the
  one on the sender's writes are exact for the invariants (`MonitorSafety.SubmitKeepsInvIff`,
  `SystemRuns.SenderWriteIff`), and breaking either once does visible harm
  (`MonitorHarm.SubmittedTwiceIsLost`, `SystemHarm.FailedWriteOverwritesATerminalStatus`).
* The startup queries of a restart see the table before new traffic (`System.Restart`). They may be
  incomplete; the rows they miss are recorded as abandoned.
* The clock is monotone and counts nanoseconds; a time is one number, so the wall-clock and monotonic readings
  of a time value are identified. A millisecond is the floor of the division by 10^6.
* Answers of node, sequencer and database are arbitrary and may be errors. A failed insert commits no row.
* A comparator that meets an id missing from the map is treated as a panic of the whole list call, whether or
  not the binary search would have looked at that entry.
* In `System`, a caller of `AddL2Transaction` counts as returned when the request object exists; the rest of
  its work is a thread of the monitor. This only adds interleavings.

## What does not hold

* `delete` of a present id can fail or remove another request's entry
  (`RetryOrder.DeleteCanMissAPresentEntry`, `RetryOrder.DeleteCanRemoveAnotherId`); exactly when it does not
  is `RetryOrder.DeleteHitsOwnEntryIff`. The protocol never shows it, because the dispatcher deletes the first
  entry of a millisecond (`MonitorSafety.DispatcherDeletesWhatItRead`).
* A listed request is not always dispatched: a signal sent between the dispatcher's length check and its wait
  is lost (`MonitorSleep.SignalBeforeWaitIsLost`), and then no later add wakes it (`MonitorSleep.StrandedForever`).
  Some run from the start gets there with fresh ids only (`MonitorSleep.SomeRunStrands`). This is the only way:
  with a live worker, a listed request can be polled again or finished exactly when the dispatcher is not stuck so
  (`MonitorProgress.ServedIffNotStuck`).
* An add whose id is listed loses its request (`MonitorSafety.AddConservesIff`). With an initial wait, submitting
  one transaction twice from the start is enough (`MonitorHarm.SubmittedTwiceIsLost`).
* A failed status write of the sender breaks the agreement of rows and owners (`SystemRuns.SenderWriteIff`). One
  such failure, in a run that is otherwise as assumed, has the transaction sent and accepted twice and its
  confirmed row set back to sent (`SystemHarm.FailedWriteOverwritesATerminalStatus`).
* `DecodeBig` does not undo `EncodeBig` on negative numbers (`Hex.BigRoundTripIff`), and
  `DecodeBigIntHexOrDecimal` undoes `EncodeBigInt` only for zero and positive numbers with an even number of
  digits (`Encoding.LenientRoundTripIff`).

Where comments and code disagree, the model follows the code: the comment on `EncodeBig` says that the sign is
ignored, and it is printed (hex/hex.go:92-101); `DecodeUint256orHex` does not limit its result to 256 bits
(encoding/encoding.go:39-56); the comment on `monitorRequestList` says that the map is indexed by hash, and it
is indexed by id (monitor/request_list.go:11-16).

## Model

| member | source | states |
|---|---|---|
| RetryOrder.Search | monitor/request_list.go:50-52 | sort.Search: the entry before the result fails the predicate, the entry at the result satisfies it |
| RetryOrder.UpperBoundSplits | monitor/request_list.go:115-118 | the insertion point separates the keys at most the new one from the greater ones |
| RetryOrder.LowerBoundSplits | monitor/request_list.go:50-52 | the scan starts at the first key of the request's millisecond |
| RetryOrder.ScanFindsFirstReachable | monitor/request_list.go:57-72 | the scan returns the first entry of the same hash all of whose predecessors in the scan have the exact same time, if there is one |
| RetryOrder.DeleteExactly | monitor/request_list.go:44-78 | `delete` of a present id returns true iff such an entry exists behind the lower bound of its millisecond, and removes the first |
| RetryOrder.DeleteHitsOwnEntryIff | monitor/request_list.go:44-78 | `delete` removes the entry of the requested id iff every earlier entry of its millisecond has the same exact time and another hash |
| RetryOrder.DeleteCanMissAPresentEntry | monitor/request_list.go:59-63 | two entries of one millisecond with different exact times: the second is present and not found |
| RetryOrder.DeleteCanRemoveAnotherId | monitor/request_list.go:65-76 | two ids with one hash and one time: deleting the second removes the first one's entry |
| RetryOrder.FirstOfMilliIsHit | monitor/request_list.go:44-78 | the first entry of a millisecond is always the one removed, whatever its hash or neighbours |
| RetryOrder.DeleteIsCompleteWhenUnambiguous | monitor/request_list.go:40-81 | with equal milliseconds meaning equal times and hashes distinct, `delete` finds the own entry of every present id |
| RetryOrder.DeleteUndoesAdd | monitor/request_list.go:27-81 | there, `delete` after a successful `add` gives the list back as it was, in order |
| RetryOrder.InsertKeepsSorted | monitor/request_list.go:115-124 | `addSort` keeps the slice ascending by millisecond |
| StableOrder.StableSortIsUnique | monitor/request_list.go:11-16 | a slice sorted by millisecond that keeps the order of arrival within each is determined by the arrivals |
| StableOrder.InsertKeepsStable | monitor/request_list.go:115-124 | inserting at the upper bound keeps the slice the stable sort of the arrivals |
| StableOrder.RemoveKeepsStable | monitor/request_list.go:72-76 | removing an id's own entry leaves the stable sort of the other arrivals |
| StableOrder.HistoryIsStableSort | monitor/request_list.go:27-81 | after any sequence of adds and of deletes that hit their own entry, the slice is the stable sort of the survivors in order of arrival, each id once |
| RequestList.AgreedEntries | monitor/request_list.go:127-134 | when map and slice agree, the keys the comparators see through the map are those of the slice, and an id is mapped iff it is listed |
| RequestList.AddKeepsValid | monitor/request_list.go:27-37 | `add` of an absent id keeps map and slice in agreement object for object, and the slice a stable sort |
| RequestList.DeleteKeepsValid | monitor/request_list.go:72-78 | so does a `delete` that removes the requested id's own entry |
| RequestList.InsertedBehind | monitor/request_list.go:115-134 | the insertion point divides a stable-sorted slice into what is due in the request's millisecond (10^6 ns) or earlier and what is due later |
| RequestList.SortedInTime | monitor/request_list.go:127-134 | in a valid list no request is due 10^6 ns or more before one in front of it |
| RequestList.MonitorRequestList.Add | monitor/request_list.go:27-37 | refuses a present id and changes nothing, else maps the id and inserts the object behind everything due in its millisecond (10^6 ns) or earlier and before everything later; validity is kept |
| RequestList.MonitorRequestList.AddSort | monitor/request_list.go:115-124 | the append and copy-shift amount to an insertion at the upper bound |
| RequestList.MonitorRequestList.Delete | monitor/request_list.go:40-81 | true iff the id is mapped and the scan finds an entry; then exactly that entry and that id go, else nothing changes; a hit on the own entry keeps validity |
| MonitorLoop.Monitor.AddL2Transaction | monitor/monitor.go:51-62 | with an initial wait the request is listed, due that wait after the clock reading, unless its id is listed; without one a new request goes to the channel; nothing else changes |
| MonitorLoop.Monitor.AddRequestToRetryList | monitor/monitor.go:89-96 | lists an unlisted id, ignores a listed one, and signals iff the list has one entry |
| MonitorLoop.Monitor.ScheduleRequestRetry | monitor/monitor.go:84-87 | stamps the object in place; for an unlisted id the list stays valid and gains the request at its place, for a listed one nothing is listed |
| MonitorLoop.Monitor.WorkerProcessRequest | monitor/monitor.go:98-127 | for a receipt the polled row, and no other, ends confirmed or failed with an empty error; without one or when the write fails the request is stamped; an unlisted id is listed again unless a final status was written, for a listed one nothing is listed, and after a final status the entry its delete locates is removed |
| MonitorLoop.Monitor.CheckFirstRequest | monitor/monitor.go:131-149 | one round: a head whose life time ended before the reading has its row, and no other, set to expired and is removed, one that was due before it is removed and sent to the workers, any other one is slept for until it is due and everything stays |
| MonitorLoop.Monitor.CheckMonitorRequestRetries | monitor/monitor.go:129-159 | at one clock reading the loop ends, having removed exactly the longest prefix of requests that are expired or due, requeued the unexpired in order, and left nothing overdue by 10^6 ns |
| MonitorLoop.ExpireAllMeans | monitor/monitor.go:135-141 | after such a burst exactly the rows of expired requests whose write worked are expired, all others unchanged |
| MonitorLoop.RequeuedMeans | monitor/monitor.go:135-145 | and exactly the requests whose life time is not over are polled again |
| MonitorLoop.TrackAllLists | monitor/monitor.go:51-58 | what any number of hand-overs with an initial wait leave: the listed ids are the old ones and those handed over, each new entry due the initial wait after its own hand-over, nothing sent |
| MonitorLoop.TrackAllSends | monitor/monitor.go:59-68 | without one: all of them sent to the channel, once each and in order, nothing listed |
| MonitorLoop.Monitor.MonitorL2TransactionsFromPoolDB | monitor/monitor.go:161-170 | the startup load hands over every row delivered, once each and in order, each at its own instant, and nothing else; a failed query hands over nothing |
| MonitorSafety.ComparatorsAreSafe | monitor/request_list.go:115-134 | when map and slice agree no comparator meets a missing id, and the keys are those of the slice |
| MonitorSafety.AddIsAccepted | monitor/monitor.go:84-96 | a request a thread holds has an id that is not listed, so its `add` is never refused |
| MonitorSafety.WorkerDeleteIsNoOp | monitor/monitor.go:124 | a worker's `delete` changes nothing |
| MonitorSafety.DispatcherDeleteHits | monitor/monitor.go:135-144 | the dispatcher's `delete` removes the request it read, wherever insertions have moved it |
| MonitorSafety.WritesMissTheList | monitor/monitor.go:84-87 | no in-place write to a request changes what a listed request shows |
| MonitorSafety.InsertedKeepsFirst | monitor/request_list.go:115-124 | the first request of a millisecond stays first, whatever is added |
| MonitorSafety.InvNext | monitor/monitor.go:51-159 | every step of every goroutine keeps the invariant: conservation, unique ids, agreement of map and slice, order, no panic, and the dispatcher's request still first of its millisecond |
| MonitorSafety.SubmitKeepsInvIff | monitor/monitor.go:51-62 | a submission keeps the invariant iff its id is untracked: the assumption is exact for the invariant |
| MonitorHarm.ResubmittedIsLost | monitor/monitor.go:51-62 | with an initial wait, in every state a listed id submitted again leads in three steps to a request that is in no place at all |
| MonitorHarm.SubmittedTwiceIsLost | monitor/request_list.go:31-36 | from every initial state with an initial wait, submitting one transaction twice is a run that loses the second request |
| MonitorSafety.AddConservesIff | monitor/request_list.go:31-36 | an `add` keeps every request in exactly one place iff its id is not listed |
| MonitorSafety.NoRequestLostOrDuplicated | monitor/monitor.go:51-145 | in every run each request is in exactly one of thread, list, dispatcher, blocked sender, buffer and finished, and the buffer fits QueueSize |
| MonitorSafety.RunNeverPanics | monitor/monitor.go:131-133 | in every run index 0 exists when the dispatcher reads it, and no list call panics |
| MonitorSafety.DispatcherDeletesWhatItRead | monitor/monitor.go:129-145 | in every run the dispatcher's `delete` succeeds and removes exactly the request it read at index 0, however many adds came between |
| MonitorSafety.WorkersNeverShrinkTheList | monitor/monitor.go:111-126 | in every run every step that is not the dispatcher's leaves the slice alone or inserts into it |
| MonitorSafety.HeldRequestsAreNotListed | monitor/monitor.go:84-96 | in every run a request that a thread holds is not listed, and the slice is ascending by millisecond |
| MonitorFates.WrittenIsWatched | monitor/monitor.go:111-141 | a status write concerns a tracked request with no earlier write, held by the writing worker or listed under the dispatcher |
| MonitorFates.FinishedIsFated | monitor/monitor.go:117-144 | a request leaves the monitor only after a final status was written, or its expiry write failed |
| MonitorFates.FatedNext | monitor/monitor.go:111-144 | every step keeps the agreement between where a request is and what was written for it |
| MonitorTruth.TruthfulNext | monitor/monitor.go:111-141 | every step keeps each status, written or about to be, justified by the node's last answer or by the age of the transaction |
| MonitorTruth.WritesAreTrue | monitor/monitor.go:111-141 | in every run confirmed is written only after a receipt of nonzero status for that transaction, failed only after one of status zero, expired only when receivedAt + TxLifeTimeMax is before the clock, and nothing else is written |
| MonitorTruth.WriteFollowsItsPoll | monitor/monitor.go:98-117 | in every run a worker's write has its own poll: that worker asked about that request, got the receipt the status stands for, and has been writing it ever since |
| MonitorTruth.SettledIsJustified | monitor/monitor.go:111-141 | in every run what was written for a request still agrees with the node's last answer about it, or with its age |
| MonitorTiming.TimedNext | monitor/monitor.go:51-159 | every step keeps the stage times: when a request was added, stamped, listed, dispatched and polled |
| MonitorTiming.StampsFromNow | monitor/monitor.go:56-58 | the first stamp is the clock at that step plus the initial wait, every later one the clock plus the retry wait (84-87), and the request is then listed |
| MonitorTiming.ListedAfterItsWait | monitor/monitor.go:84-87 | in every run a listed request is due its initial wait, or after a poll its retry wait, after an instant no later than its listing |
| MonitorTiming.PollsFitTheLifeTime | monitor/monitor.go:131-145 | in every run a request polled n times (n >= 2, or n >= 1 with an initial wait) satisfies InitialWait + (n-1)*RetryWait < TxLifeTimeMax when received no later than added |
| MonitorTiming.PollsAreBounded | monitor/monitor.go:131-145 | so with a positive retry wait, and received no later than added, every request is polled at most 1 + TxLifeTimeMax / RetryWait times in every run |
| MonitorSleep.OversleepBound | monitor/monitor.go:146-149 | in every run the sleep deadline, besides the delay between clock reading and sleep, passes a request listed before that reading by less than 1 ms, and one stamped and inserted at one instant during the sleep by at most the difference of the two waits (0 without an initial wait); one inserted in between by one of the two |
| MonitorSleep.SleepDelay | monitor/monitor.go:146-149 | the start of the sleep that this bound speaks of is the clock at the call of Sleep, and the request is neither expired nor due at the reading |
| MonitorSleep.SleepsToTheEnd | monitor/monitor.go:146-149 | in every run the dispatcher that fell asleep is asleep until the clock has reached the deadline; no signal cuts the sleep short |
| MonitorSleep.SignalBeforeWaitIsLost | monitor/monitor.go:89-96 | from an empty list with the dispatcher before its wait, an add leads to a listed request, a parked dispatcher, and nobody left to wake it |
| MonitorSleep.StrandedForever | monitor/monitor.go:150-157 | once so, it stays so in every continuation, whatever is added |
| MonitorSleep.WakeIfNotStranded | monitor/monitor.go:92-95 | in every other state with a parked dispatcher and a listed request some goroutine can still wake it |
| MonitorSleep.SomeRunStrands | monitor/monitor.go:89-96 | from every initial state, with an initial wait or a live worker, a run with fresh ids only strands the dispatcher |
| MonitorOrder.EntriesNext | monitor/monitor.go:84-145 | every step of every goroutine does to the listed entries what its one call on the list does on values, and every delete that finds its id finds its own entry |
| MonitorOrder.RunIsStableSort | monitor/request_list.go:27-81 | in every run the slice is the stable sort by millisecond of the requests listed and not deleted, in the order of their listing, each id once |
| MonitorOrder.RunIsSortedInTime | monitor/request_list.go:127-134 | in every run no listed request is due 10^6 ns or more before one in front of it |
| MonitorDrain.SixStepsAreARound | monitor/monitor.go:130-145 | for any answers of the database, six dispatcher steps with nothing in between lead to the state after one round of its loop, and to no other |
| MonitorDrain.BurstDrains | monitor/monitor.go:129-149 | for any answers, the machine's dispatcher at a standing clock reaches one state after six steps a round: the longest prefix of requests with receivedAt + TxLifeTimeMax or nextRetry before the clock is gone, the unexpired are requeued in order, the expired are finished with the fate of their own write, no other request is written, and nothing listed is overdue by 10^6 ns |
| MonitorDrain.ThenSleeps | monitor/monitor.go:146-149 | where it can let go of nothing, four more steps lead to its sleep until the very instant the head is due, and to no other state; the head is then neither expired nor due |
| MonitorDrain.ThenWaits | monitor/monitor.go:150-155 | on an empty list two steps lead to its wait, and to no other state |
| MonitorWorkers.RolesNext | monitor/monitor.go:70-82 | every step keeps who is a worker and who is an adder, and neither ends nor revives a worker |
| MonitorWorkers.WorkersLiveOn | monitor/monitor.go:70-82 | in every run a worker whose client was created never ends, one whose was not never starts, and no other goroutine receives from the channel |
| MonitorWorkers.OwnIsEnabled | monitor/monitor.go:79-81 | a worker in its turn always has a next statement |
| MonitorWorkers.OwnRunsDown | monitor/monitor.go:98-127 | each statement of a turn brings its end nearer, and the end of a worker's turn is the channel again |
| MonitorWorkers.TurnEnds | monitor/monitor.go:79-127 | so a turn takes at most six statements of its own after the receive, however many steps of others come between |
| MonitorWorkers.NoRequestIsStuck | monitor/monitor.go:64-82 | with one live worker, a request in the channel or a thread in its turn leaves a step of worker, adder or channel possible |
| MonitorWorkers.WorkRunsOut | monitor/monitor.go:64-127 | each such step uses up part of a finite remainder |
| MonitorWorkers.WorkEnds | monitor/monitor.go:64-127 | so no more than that remainder of them fit before a new submission, clock tick or step of the dispatcher, and a request in the channel is polled in them or still there |
| MonitorWorkers.AllPolledAtTheEnd | monitor/monitor.go:64-127 | where they stop, with one live worker, the channel is empty, every thread rests, and every request that was in the channel has been polled |
| MonitorWorkers.BufferIsFifo | monitor/monitor.go:64-81 | in every run the channel buffer hands out what was put into it, in that order, each once, and before anything that is not in it yet |
| MonitorProgress.StuckForever | monitor/monitor.go:150-157 | once the dispatcher waits, or has decided to, with requests listed and no signal to come, every listed request stays listed, unpolled and unfinished in every continuation |
| MonitorProgress.UnlessStuck | monitor/monitor.go:79-157 | in every other state, with one live worker, a continuation without any submission polls or finishes a given listed request |
| MonitorProgress.ServedIffNotStuck | monitor/monitor.go:70-159 | in every run with a live worker, at every instant: a listed request can still be polled again or finished iff the dispatcher is not so stuck |
| SenderMachine.HeldOnce | sender/sender.go:80-95 | a request with a worker is nowhere else, with no other worker, and its caller is waiting for it |
| SenderSafety.InvNext | sender/sender.go:48-95 | every step of callers, channel and workers keeps the matching of requests on their way and waiting callers |
| SenderSafety.CallerGetsItsOwnResult | sender/sender.go:48-72 | in every run a returned call made one remote call with its own payload, was completed once, returned that call's error, wrote sent or invalid accordingly, and handed over exactly once iff there was none |
| SenderSafety.OneWorkerPerRequest | sender/sender.go:89-94 | in every run two busy workers have different requests, each sent at most once |
| SenderSafety.StepsRunOut | sender/sender.go:48-95 | every step other than a new call uses up part of a finite remainder |
| SenderSafety.NoCallerIsStuck | sender/sender.go:54-56 | with one live worker, an unanswered caller always leaves some step possible |
| SenderSafety.RunsWithoutNewCallsEnd | sender/sender.go:48-95 | a run without new calls is no longer than that remainder |
| SenderSafety.AllReturnedAtTheEnd | sender/sender.go:48-72 | where it stops, with one live worker, every call has returned |
| SenderSafety.WorkersLiveOn | sender/sender.go:80-95 | in every run a worker whose client was created never ends, and one whose was not never starts |
| SenderSafety.RunReturns | sender/sender.go:48-95 | so in every run with a worker that started, where nothing but a new call is possible, every call has returned |
| SenderSafety.BufferIsFifo | sender/sender.go:74-95 | in every run the channel buffer hands out what was put into it, in that order, each once, and before anything that is not in it yet |
| SenderLoop.UnreportedStay | sender/sender.go:133-147 | a row outside a load, or whose write failed, stays as it was |
| SenderLoop.ReportedByOwnAnswer | sender/sender.go:118-125 | each row of a load ends with the status and error of its own answer, whatever the order |
| SenderLoop.LoadEmptiesItsStatus | sender/sender.go:105-147 | after a load that brought all rows of pending or resend, and writes that succeed, no row is left in that status |
| SenderLoop.AcceptedMembers | sender/sender.go:118-125 | the rows handed over are exactly those answered with success, each at the instant of its own turn |
| SenderLoop.OnlyAcceptedAreTracked | sender/sender.go:58-69 | whatever was tracked before, what is listed or sent anew is for rows answered with success |
| SenderLoop.Sender.WorkerTurn | sender/sender.go:89-94 | one turn takes one request from the channel, stores the answer in it, and completes its WaitGroup once |
| SenderLoop.Sender.SendL2Transaction | sender/sender.go:48-72 | returns the sequencer's answer, writes invalid or sent accordingly, and hands the transaction to the monitor, once, iff the answer is success |
| SenderLoop.Sender.SendAll | sender/sender.go:118-125 | the loop over loaded rows writes each row in turn and hands the monitor exactly those answered with success, once each, in order, each at its own instant; a rejected row that was not tracked is not tracked afterwards |
| SenderLoop.Sender.SendL2TransactionsFromPoolDB | sender/sender.go:133-147 | the startup load gives every delivered pending row the status and error of its own answer, touches no other row, and hands the monitor exactly the rows answered with success |
| SenderLoop.Sender.CheckL2TransactionsToResend | sender/sender.go:105-131 | a round of the resend loop does so for resend rows, and sleeps, having changed nothing, iff the query failed or brought nothing |
| Server.Endpoints.SendRawTransaction | server/endpoints.go:29-85 | refuses input that is not hexadecimal and touches neither table nor monitor; else replies with the sequencer's answer, and an inserted row with a fresh id has that answer's status; on any error the monitor tracks what it did before, on success the transaction besides |
| Pool.PoolDB.AddL2Transaction | db/pooldb.go:27-43 | an insert uses an id never used before and changes no other row; a failed one yields id 0 and changes nothing |
| Pool.PoolDB.UpdateL2TransactionStatus | db/pooldb.go:82-91 | sets status and error of the one row as given, for every status, keeps its transaction and all other rows, and changes nothing for a missing id or on failure |
| Pool.PoolDB.GetL2TransactionsByStatus | db/pooldb.go:45-68 | returns the delivered rows of the status, each once, and fails iff a row cannot be scanned; it is complete iff the cursor did not break off |
| SystemSafety.OwnerOrigin | sender/sender.go:48-72 | what owns a row after a step owned it, or its predecessor did, before the step, except for inserts, loads and restarts |
| SystemSafety.PreInjective | sender/sender.go:105-147 | two owners after a step never come from one owner before it |
| SystemSafety.HandedIsUntracked | sender/sender.go:63-69 | what a caller or the startup load hands to the monitor has an id no request tracks |
| SystemSafety.FitsNext | sender/sender.go:58-69 | every step keeps the status of each owned row what its owner expects |
| SystemSafety.CoveredNext | monitor/monitor.go:117-144 | every step keeps an owner for each pending or sent row that was not given up |
| SystemSafety.InvNext | cmd/main.go:91-105 | every step of the whole engine keeps the invariant, crashes and restarts included |
| SystemRuns.StatusLifecycle | types/l2transaction.go:8-23 | in every run a step of the engine leaves a status alone or moves it from pending or resend to sent or invalid, or from sent to confirmed, failed or expired |
| SystemRuns.TerminalStays | monitor/monitor.go:113-141 | in every run a terminal status is never overwritten, through restarts, until the operator requests that row's resend |
| SystemRuns.NoSentRowIsForgotten | sender/sender.go:63-69 | in every run a sent row that was not given up has exactly one owner: the startup load, a caller about to hand over, or one watched request in one place |
| SystemRuns.NoPendingRowIsForgotten | server/endpoints.go:70-75 | in every run a pending row that was not given up has exactly one owner, which will send it |
| SystemRuns.ResendRowsBelongToTheLoop | sender/sender.go:105-131 | in every run a resend row is owned only by the resend loop or the call it waits for |
| SystemRuns.ResendLoadTakesAll | sender/sender.go:105-118 | a complete query of the resend loop puts every resend row in the loop's hands, once, with no other owner |
| SystemRuns.TerminalRowsAreLetGo | monitor/monitor.go:117-144 | in every run a terminal row is owned at most by the monitor's request that wrote that status |
| SystemRuns.GivenUp | monitor/monitor.go:137-141 | a row is given up exactly by a failed expiry write, or by a startup query that did not bring it, until the next start or the operator's request |
| SystemRuns.RestartRecovers | sender/sender.go:133-147 | after a crash in any reachable state and complete startup queries, each pending row waits once with the sender, each sent row once with the monitor, all others are free, and nothing is given up any more |
| SystemRuns.MonitorIsHandedFreshIds | monitor/monitor.go:51-62 | in every run of the engine the unique-ownership assumption of the monitor holds |
| SystemRuns.EngineNeverPanics | monitor/monitor.go:129-133 | in every run of the engine no list call panics and the buffer fits QueueSize |
| SystemRuns.SenderWriteIff | sender/sender.go:58-68 | for a row not given up, the invariant survives a sender's status write iff the write succeeds, or fails to mark invalid a row still due for resending |
| SystemRows.RowsStay | db/pooldb.go:27-43 | in every run a row once inserted is there for ever and keeps its transaction, through restarts |
| SystemRows.OwnersHoldTheirRow | sender/sender.go:48-69 | in every run whatever is responsible for a row (endpoint, load, call, or request of the monitor) holds exactly that row's transaction |
| SystemRows.ErrorsAreOfRejections | db/pooldb.go:82-91 | in every run only a row that is invalid, or due for resending, carries an error |
| SystemRows.RowsSayWhy | sender/sender.go:58-69 | in every run, whenever a row changes: sent and invalid by the sequencer's answer to that row's own payload, with that very error; confirmed and failed by a receipt for that transaction, expired by its age, each with an empty error; resend by the operator; never back to pending |
| SystemRest.ServingRunsOut | sender/sender.go:48-147 | each step of callers, loads, sender and hand-overs uses up part of a finite remainder |
| SystemRest.ServingEnds | sender/sender.go:48-147 | so no more than that remainder of them fit before something new enters the engine |
| SystemRest.NothingIsLeftPending | sender/sender.go:48-147 | in every run with a live worker of the sender, where they stop: every call has returned, every load is done, no row is pending and no resend row in the engine unless given up, and each sent row is watched by the monitor |
| SystemRest.LoadsSendOneAtATime | sender/sender.go:118-147 | in every run a load sends its next row only after the call for every row it sent before has returned |
| SystemRest.LoadsLoseNothing | sender/sender.go:118-147 | in every run every row a load has brought is still at its place in line, or a call for it was made; only a crash loses it |
| SystemRest.ArrivalsAreSent | server/endpoints.go:64-75 | in every run a transaction that reached the endpoint, its insert failed or not, is still about to be sent or a call for it was made; only a crash loses it |
| SystemHarm.FailedWriteOverwritesATerminalStatus | sender/sender.go:63-68 | a run from the start whose only broken assumption is one failed write of sent for a resend row: the transaction is then sent and accepted twice, and its confirmed row is set back to sent, an edge the life cycle does not have |
| Digits.NumeralDenotes | hex/hex.go:69-73 | the printed digits denote the number, in lower case and without leading zeros |
| Digits.NumeralOfValueIff | hex/hex.go:69-73 | printing undoes reading exactly on such digit strings |
| Digits.ParseUintIff | encoding/encoding.go:36 | ParseUint accepts exactly the non-empty digit strings that denote a number below 2^64, and returns that number |
| Digits.ParseUintErrors | encoding/encoding.go:36 | the first obstacle from the left decides the error: a character that is no digit, or a value of more than 64 bits |
| Digits.SetStringIff | encoding/encoding.go:51 | SetString reads exactly the digit strings with an optional sign, as the number they denote |
| Digits.SetStringOfText | encoding/encoding.go:51 | SetString undoes Text on every integer in both bases |
| Hex.HexRoundTrip | hex/hex.go:25-50 | DecodeHex undoes EncodeToHex on every byte string |
| Hex.TrimPrefixIff | hex/hex.go:41 | one prefix "0x" is taken off, in lower case only, and any other string stays as it is |
| Hex.ValidIff | hex/hex.go:113-121 | IsValid accepts digits of both cases, bare or behind "0x", and nothing behind "0X" |
| Hex.EncodeToHexForm | hex/hex.go:25-27 | the printed form is "0x" and two digits of lower case for each byte, the greater first |
| Hex.DecodeStringIff | hex/hex.go:35-37 | DecodeString succeeds iff all characters are digits and their number is even |
| Hex.DecodeStringStops | hex/hex.go:35-37 | of any string DecodeString decodes the digit pairs in front of the first bad character and reports that character, or else the digit left over |
| Hex.DecodeHexMeaning | hex/hex.go:40-50 | DecodeHex succeeds iff IsValid; its bytes then denote the value of the trimmed digits, also for odd lengths |
| Hex.DecodeHexErrors | hex/hex.go:40-50 | it fails with the first bad character behind the prefix, never for an odd length |
| Hex.DecodeHexIsDetermined | hex/hex.go:40-50 | no other byte string of that length has that value |
| Hex.IsValid | hex/hex.go:113-121 | the loop returns true iff every character behind the prefix is a hexadecimal digit |
| Hex.NibbleIffDigit | hex/hex.go:79-90 | DecodeNibble returns the digit's value for exactly the digits, and 2^64 - 1 otherwise |
| Hex.BigRoundTripIff | hex/hex.go:94-110 | DecodeBig undoes EncodeBig iff the number is not negative; the form is prefixed and canonical, with the sign in front of the prefix |
| Hex.Uint64AsBig | hex/hex.go:69-73 | DecodeBig reads back what EncodeUint64 prints, which is prefixed and canonical |
| Encoding.Uint64Iff | encoding/encoding.go:25-37 | DecodeUint64orHex accepts exactly the non-empty digit strings of the prefix's base that denote a number below 2^64, and reads nil as 0 |
| Encoding.Uint64Errors | encoding/encoding.go:36 | a text is refused as a syntax error or as out of range, whichever comes first from the left |
| Encoding.Uint256Iff | encoding/encoding.go:40-56 | DecodeUint256orHex reads exactly the signed numerals, decimal ones bare and hexadecimal ones behind the prefix, and nil as nil |
| Encoding.Uint256DecimalRoundTrip | encoding/encoding.go:45-55 | it reads the decimal form of every integer back |
| Encoding.Uint64RoundTripIff | encoding/encoding.go:76-79 | DecodeUint64orHex undoes EncodeUint64 on exactly the numbers below 2^64 |
| Encoding.Uint64DecimalRoundTrip | encoding/encoding.go:25-37 | it reads the decimal form of every uint64 back |
| Encoding.Uint64TextRoundTripIff | encoding/encoding.go:76-79 | encoding a decoded text gives it back iff it was prefixed and canonical |
| Encoding.BigIntRoundTrip | encoding/encoding.go:40-56 | DecodeUint256orHex undoes EncodeBigInt on every integer |
| Encoding.BytesRoundTrip | encoding/encoding.go:65-85 | DecodeBytes undoes EncodeBytes on every byte string, which prints as EncodeToHex does |
| Encoding.BytesAgainstHex | encoding/encoding.go:65-73 | DecodeBytes agrees with DecodeHex on even lengths and refuses the odd ones DecodeHex pads |
| Encoding.DecodeBytesErrors | encoding/encoding.go:65-73 | it fails with the first bad character behind the prefix, whatever the length, and reads nil as no bytes |
| Encoding.LenientHexMeaning | encoding/encoding.go:97-100 | of any prefixed text the lenient reader takes the digit pairs up to the first bad character |
| Encoding.LenientDecimalIff | encoding/encoding.go:101-108 | any other text it reads as a signed decimal, or not at all |
| Encoding.LenientReaderMeaning | encoding/encoding.go:95-110 | of an encoded integer the lenient reader makes 0 when it is negative, the integer when its digit count is even, and the integer divided by 16 when it is odd |
| Encoding.LenientRoundTripIff | encoding/encoding.go:95-110 | so it reads an encoded integer back iff it is zero, or positive with an even digit count |
| Encoding.LenientDecimalRoundTrip | encoding/encoding.go:101-108 | its decimal branch reads every integer back |

## Left out

* Fairness of the scheduler: what is proved about progress is which steps are possible and that they run out, not
  that they are taken.
* The order among goroutines blocked on a channel: any blocked sender may go next. The buffer itself is a queue.
* Ids as 64-bit numbers and times as bounded 64-bit counts: both are unbounded here.
* The location field of a time value: two readings of one instant in different locations differ under `!=`.
* A commit whose acknowledgement is lost: a failed insert or update changes no row here.
* The fields of a transaction that the engine only carries along (sender address, gas price, nonce, IP, decoded
  form), and the update time of a row.
* `GetL2TransactionsByStatus` preallocates by the raw values of a result set that was not advanced yet; their
  number is taken to be zero.
* Decoding, hashing and signature recovery of a transaction in the endpoint: opaque answers.
* Remote procedure calls, Postgres, migrations, the HTTP server, batches, rate limiting and JSON: arbitrary
  answers, or an abstract table.
* `GetSorted`, which leaks an alias of the slice, `Print`, and `Tag`.
* `DecodeUint64`, `MustDecodeHex` and `DecodeInt64orHex`: thin wrappers of modelled functions.
* Logging, configuration, version printing, mocks and scripts.
- MonitorSleep.OversleepBound: for requests that were stamped at one instant and inserted at a later one during the sleep no bound is stated, because nothing in the code bounds the time between the two
- MonitorHarm.ResubmittedIsLost: states the harm for ids that are listed and configurations with an initial wait, not for ids tracked elsewhere
- MonitorTiming.PollsFitTheLifeTime: the last inequality, and with it `MonitorTiming.PollsAreBounded`, needs a transaction received no later than it was added, which the code does not check
