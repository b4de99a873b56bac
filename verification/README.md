# echoer action controller, modelled in Dafny

echoer is a workflow engine. Its action controller reconciles Step resources. For each
Step that is of the Step kind and not yet done, it looks up the Step's Action in the
store and checks the Step's parameters against the parameters the Action declares. It
then writes four reserved keys into the parameters (`flowID`, `stepName`, `ackState`,
`uuid`). For an Action served over HTTP it POSTs the parameters to the Action's
endpoint. When that POST fails, the Step goes into a timer queue, due `least(retryCount)`
seconds later. A drain loop pops queue entries whose due time has passed and hands them
on.

`recv` first lists a snapshot of all Steps and replays each one through the invoker. It
then opens a watch at the largest resource version in the snapshot, or at 0 when the
snapshot is empty or no version is positive. The event loop
skips watch items that have no name or fail to decode, and hands every other item to the
invoker in arrival order. An error from the invoker is only logged and never stops a
loop.

The project has six modules:

- `Wrappers`: `Option` and `Result`. `Option<Error>` stands for a Go `error`; `None` is nil.
- `Resources`: the `Step` class, the `Action` and `StepRecord` values, the reserved keys,
  `Join`, and the `int32`/`int64` newtypes.
- `TimerQueue`: the timer queue as a class over a due-sorted sequence, with the pure
  functions `Insert` and `ScheduleAll` that specify it.
- `Invoker`: `Least`, `RetryDelay`, `Enrich`, and `Invoke`. `Invoke` is the value-level
  specification of one `realAction`, with its lemmas.
- `Reconcile`: specifications of the loops. `MaxVersion` is the start-version fold,
  `Accepted` the event filter, `ProcessedAll`, `Dues` and `CallsAll` what the handled
  items leave behind, and `Fired` what a drain run pops.
- `Controller`: the `ActionController` class. Its methods `RealAction`, `DrainStep`,
  `Drain`, `Replay`, `Receive` and `Run` are each proved against those specifications.

The store lookup, the parameter check and the HTTP POST are fields of an `Oracle` value.
They are total functions of their arguments. Clock readings are integers in nanoseconds;
each arrival carries the reading at which it is handled, and the drain loop takes a
sequence of readings.

## Model

| member | source | states |
|---|---|---|
| Invoker.Least | pkg/controller/action_controller.go:163-168 | `least(0) == 1`, and `least(i) == i` for every other `i`, negatives included |
| Invoker.LeastMatchesClampIff | pkg/controller/action_controller.go:163-168 | `least(i)` equals `max(1, i)` exactly when `i >= 0`; for a negative retry count the code and a clamp disagree |
| Invoker.RetryDelay | pkg/controller/action_controller.go:152 | the retry delay is `least(retryCount)` seconds in nanoseconds; it fits in int64, is never zero, and is at least one second for a non-negative count |
| Invoker.EnrichSpec | pkg/controller/action_controller.go:139-142 | after enrichment the keys are the user's keys plus the four reserved ones, which hold the flow id, the Step name, the return states joined with "," and the uuid; every other key keeps its value |
| Invoker.EnrichIdempotent | pkg/controller/action_controller.go:139-142 | enriching already enriched parameters changes nothing |
| Invoker.SkippedStepIsNoOp | pkg/controller/action_controller.go:120-126 | a Step of another kind, or one already done, gives nil with no lookup, no parameter change and nothing scheduled |
| Invoker.RejectedStepIsUntouched | pkg/controller/action_controller.go:130-137 | a failed Action lookup or parameter check returns that very error; the parameters are unchanged and nothing is scheduled |
| Invoker.ValidatedStepIsEnriched | pkg/controller/action_controller.go:135-142 | once the lookup and the check pass, the parameters are enriched whatever the serve type; the check saw the parameters as the Step carried them |
| Invoker.ParamsChangeOnlyAfterValidation | pkg/controller/action_controller.go:130-142 | the parameters change only if the lookup and the check both passed |
| Invoker.RetryIffHttpFailure | pkg/controller/action_controller.go:144-155 | a retry is scheduled if and only if the Action is served over HTTP and the POST of the enriched parameters fails; it is due `now + least(retryCount)` seconds, and the POST's error is returned |
| Invoker.NilIffNoFailure | pkg/controller/action_controller.go:119-161 | nil is returned if and only if the Step is skipped, or passes the lookup and the check and is then not served over HTTP or is POSTed successfully |
| Invoker.RetrySendsSameRequest | pkg/controller/action_controller.go:139-153 | re-invoking the Step object a retry entry holds, later and against a store that returns the same Action and a check that accepts the enriched parameters, POSTs the identical request again; a retry is scheduled exactly when that POST fails, after the same delay as the first |
| Resources.Step.constructor | pkg/controller/action_controller.go:79-80 | a new Step object holds the value the decoder filled in |
| TimerQueue.SortedOrdered | pkg/controller/action_controller.go:47 | in the due-sorted queue every entry is due no earlier than the ones before it |
| TimerQueue.InsertSorted | pkg/controller/action_controller.go:150-153 | scheduling an entry keeps the queue sorted by due time |
| TimerQueue.InsertContents | pkg/controller/action_controller.go:150-153 | scheduling adds exactly the new entry and loses nothing |
| TimerQueue.ScheduleAllSorted | pkg/controller/action_controller.go:150-153 | scheduling a batch of retries keeps the queue sorted |
| TimerQueue.ScheduleAllContents | pkg/controller/action_controller.go:150-153 | scheduling a batch adds exactly the batch's retry entries and loses nothing |
| TimerQueue.Queue.constructor | pkg/controller/action_controller.go:26 | a new timer queue is empty |
| TimerQueue.Queue.Schedule | pkg/controller/action_controller.go:150-153 | `Schedule` inserts the entry in due order and keeps the queue sorted |
| TimerQueue.Queue.Len | pkg/controller/action_controller.go:45 | `Len` is the number of waiting entries |
| TimerQueue.Queue.PeekFirst | pkg/controller/action_controller.go:47 | `PeekFirst` returns the head entry, whose due time is the earliest in the queue |
| TimerQueue.Queue.PopFirst | pkg/controller/action_controller.go:49 | `PopFirst` removes and returns the head entry; the rest stays sorted |
| Reconcile.MaxVersionIsMax | pkg/controller/action_controller.go:77-85 | the watch start version is never negative, bounds every snapshot version, and is one of them unless it is the initial 0 |
| Reconcile.AcceptedMembers | pkg/controller/action_controller.go:99-112 | a watch item reaches the invoker if and only if it arrived and has a name and decodes |
| Reconcile.AcceptedAppend | pkg/controller/action_controller.go:99-115 | the filter keeps arrival order across any split of the stream |
| Reconcile.CallsAllAppend | pkg/controller/action_controller.go:78-115 | the calls made for a stream split in two are the calls for the first part followed by those for the second, so each item's calls follow all calls of earlier items |
| Reconcile.SkippedMakeNoCalls | pkg/controller/action_controller.go:120-126 | a run of Steps that are of another kind or already done makes no call at all, in particular no Action lookup |
| Reconcile.ProcessedAllAt | pkg/controller/action_controller.go:78-88 | the k-th handled Step holds the k-th item as the invoker left it |
| Reconcile.NothingFiresEarly | pkg/controller/action_controller.go:45-52 | nothing fires while every reading is at or before the head's due time |
| Reconcile.FiredWereDue | pkg/controller/action_controller.go:45-52 | every fired entry fires at a reading strictly after its due time: the k-th entry is the head after the earlier readings have fired k entries, and the next reading, which is after its due time, fires it |
| Reconcile.SortedDuePrefix | pkg/controller/action_controller.go:45-52 | in a sorted queue, the entries due before `t` are exactly a prefix |
| Reconcile.DueEntriesFire | pkg/controller/action_controller.go:45-52 | with enough readings at or after `t`, every entry due before `t` fires |
| Controller.ActionController.constructor | pkg/controller/action_controller.go:25-36 | a new controller owns a fresh, empty timer queue |
| Controller.ActionController.RealAction | pkg/controller/action_controller.go:119-161 | `realAction` changes the Step's parameters, makes the calls (recorded as a ghost trace), returns the error and schedules the retry (holding this Step object) exactly as `Invoke` describes; the queue stays sorted |
| Controller.ActionController.DrainStep | pkg/controller/action_controller.go:46-51 | one pass pops and returns the head only when `now` is strictly after its due time; otherwise nothing changes |
| Controller.ActionController.Drain | pkg/controller/action_controller.go:45-52 | the entries handed on are the first `Fired(queue, clock)` entries of the queue in order, and the queue keeps the rest |
| Controller.ActionController.Handle | pkg/controller/action_controller.go:79-88 | decoding an item into a new Step and invoking it extends the loop's state and returns the invoker's error and the calls it made |
| Controller.ActionController.Replay | pkg/controller/action_controller.go:76-91 | every snapshot item is handled, whether or not it decoded, each as a new Step object; the calls made are `CallsAll(snapshot)`, so the items reach the invoker one at a time in snapshot order; the returned version is `MaxVersion` of the snapshot |
| Controller.ActionController.Receive | pkg/controller/action_controller.go:93-115 | exactly the `Accepted` items are handled, each as a new Step object; the calls made are `CallsAll(Accepted(stream))`, so they reach the invoker one at a time in arrival order; an invoker error does not end the loop |
| Controller.ActionController.Run | pkg/controller/action_controller.go:63-117 | a list error or a missing decoder is returned before any call is made or anything is handled; otherwise nil, with the snapshot replayed, the watch opened at `MaxVersion`, every handled Step a new object, the calls of all snapshot items made before those of the watch items, and the queue holding exactly the retries of both loops |

## Left out

- Goroutines, channels, `Stop` and `select` are not modelled. The snapshot replay runs to completion before the watch stream is read, so in the model the replay and the event loop never interleave on the queue. The drain goroutine runs `PopFirst` on the same queue that `realAction` schedules into, with no lock; that interleaving is not modelled either, and `Drain` runs separately from `Run`.
- `time.Sleep` between drain rounds, and the busy spin of the inner drain loop, are not modelled. `Drain` consumes a finite sequence of clock readings, so it stops when the readings run out; the outer loop that never ends is left out.
- `time.Now` is a parameter: a clock reading in nanoseconds per handled item and per drain pass.
- Logging with `fmt.Printf` is left out. Every error the loops only log is dropped by the model.
- The store (`List`, `Get`, `Watch2`) and the decoder are not part of this model. The snapshot listing is a `Result` and the watch is a function from the start version to a finite sequence of items. Each item carries the name the store reports, the value the decoder fills in and the decoder's error.
- The call trace returned by `RealAction`, `Handle`, `Replay`, `Receive` and `Run` is ghost. It records the lookups, checks and POSTs in the order they are sent; `realAction` itself returns only its error.
- `CheckActionParams` and the HTTP client are not part of this model. They are oracle functions of their arguments, so one request always gets the same answer.
- The retry entry in the source wraps the Step in a `DelayStepAction` with the storage handle. Its `OnTimer` is not part of this model, so a fired entry is only handed on; the entry holds the Step object itself.
- The timerqueue library is not part of this model. `Schedule` places a new entry after the entries with an equal due time; the library's tie order is not known.
- A nil parameter map in the Step would make the map writes panic in Go. The model's maps are always present, so that panic is not modelled.
- Parameter values are strings; the source's parameter map holds arbitrary values.
- The reserved key strings, the Step kind string and the decoder-missing message are fixed as `flowID`, `stepName`, `ackState`, `uuid` and `Step`. The packages that define them (pkg/common, pkg/resource) are not part of this model.
- Invoker.Least: a clamp `max(1, retryCount)` would differ on negative counts. The code passes them through unchanged, so a negative count gives a due time in the past. The model follows the code, and `LeastMatchesClampIff` states that the two agree exactly on non-negative counts.
- cmd/api-server/main.go, which wires the controller up, is not part of this model.
