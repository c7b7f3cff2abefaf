# strict-throttle, modelled in Dafny

strict-throttle wraps functions so that at most `limit` of them start within
any `interval` milliseconds. `StrictThrottle({limit, interval})` validates its
options and returns `throttle(fn)`, which returns a promise for `fn`'s result.
A call runs at once when nobody is waiting and the start `limit` executions back
is at least `interval` old. Otherwise it joins a FIFO queue. A drain callback
(`executeFirst`) runs the queue head when the window opens: a nanotimer timeout,
or `setImmediate` when the window is already open. `waitingCount()` reports the
queue length. `abort()` rejects every waiting call.

The model has four modules:

- `Options` (`options.dfy`): `checkOptions` as a pure function over the two
  ways a JavaScript value can answer `Number.isInteger`.
- `History` (`history.dfy`): the execution log, meaning the `limit` sentinel
  zeros followed by every recorded start time. It defines the rate-limit
  predicate and proves what follows from it: spacing, at most `limit` starts
  per window, and the burst schedule.
- `Throttle` (`throttle.dfy`): the closure state as the class `StrictThrottle`.
  - `recentTicks` is the circular history buffer, an `array`.
  - `oldestIndex` is the slot written next.
  - `queue` is the list of waiting calls.
  - `timerId` is the handle of the last nanotimer timeout armed, or `null`.
  - `pending` lists every drain callback that is armed and has not yet fired
    or been cancelled. This is event-loop state, and it can hold more than
    one callback.
  - `issued` counts the timeout handles handed out.
  - `settled` holds the promise settlements.
  - The methods `Call`, `ExecuteImmediately`, `Enqueue`, `ExecuteFirst`,
    `Fire`, `RecordExecution`, `ScheduleNext`, `AbortAsWritten` and `Abort`
    change this state the way the source does.
  - Ghost state (`log`, `accepted`, `clock`) states what the state means.
  - `Valid()` holds after every operation. The buffer is the last `limit`
    entries of the log, read downwards from `oldestIndex`; every accepted call is settled or waiting in
    submission order, no start lies after the clock, and every armed timeout
    carries a handle already issued, no two the same.
  - `Safe()` is the invariant that `Call`, `Fire` and the corrected `Abort`
    keep. It adds to `Valid()` that exactly one drain is armed while calls wait, and none
    otherwise. That drain cannot fire before the oldest start leaves the
    window, and a timeout drain is the one `timerId` names. Every start is at
    least `interval` after the start `limit` positions earlier.
  - `AbortAsWritten`, the source's own `abort`, does not keep `Safe()` when a
    next-turn drain is armed (see Findings).
- `Scenarios` (`scenarios.dfy`): the test suite's runs on concrete inputs, and
  the runs behind the finding below.

Time is an explicit integer passed to each operation. `Call(arg, now, later)`
takes both clock reads of `throttle`:

- The first decides admission (index.js:43).
- The second is recorded for an admitted call (index.js:48), or arms the drain
  for the call that starts the queue (index.js:28).

Firing the k-th armed callback is the event `Fire(k, now)`. It is only allowed
once that callback is due (`now >= Due(pending[k])`).

Untouched history slots hold the timestamp `0` (index.js:10). So a call with
nobody waiting and fewer than `limit` executions recorded runs at once exactly
when the clock reads at least `interval`. The "if" direction is
`SentinelsAdmit`. The "only if" direction is the ensures of
`ShouldExecuteImmediately`.

## Model

| member | source | states |
|---|---|---|
| Options.CheckOptions | index.js:113-120 | Accepted exactly when both options are positive integers, carrying their values. Rejected with the limit error exactly when the limit is bad, whatever the interval. Rejected with the interval error exactly when the limit is good and the interval bad. |
| Throttle.Construct | index.js:6-13 | Fails with `checkOptions`'s error exactly when it rejects. Otherwise there are three outcomes, checked in source order. A RangeError when the interval's nanosecond value overflows to `Infinity` (`BigInt(Infinity)`, index.js:9). A RangeError when `limit` is `2^32` or more (`new Array(limit)`, index.js:10). Otherwise a fresh, `Safe` throttle with the given limit and interval, an empty queue, no accepted calls and no executions, nothing armed, `timerId` null, no handles issued, and the clock at 0. |
| Throttle.StrictThrottle.constructor | index.js:9-13 | `limit` zero slots, `oldestIndex` at `limit - 1`, empty queue, nothing armed, `timerId` null; the invariant `Safe()` holds. |
| Throttle.StrictThrottle.Call | index.js:15-31 | Keeps `Valid()`, and keeps `Safe()` when it held. A non-function changes nothing. A call admitted at the first read `now` is recorded at the second read `later` and settled with its own outcome; the armed callbacks stay as they were. Any other call is appended to the queue with the history untouched. Only the call that makes the queue one long arms a drain, planned from `later`. |
| Throttle.StrictThrottle.ShouldExecuteImmediately | index.js:38-44 | True exactly when the queue is empty and `now` is at least `interval` after the start `limit` executions back (the log entry `oldestIndex` designates). |
| Throttle.StrictThrottle.ExecuteImmediately | index.js:46-56 | Appends the second clock read to the log and settles the call with its outcome. When `Safe()` held, it still holds: the admitted start respects the rate limit. |
| Throttle.StrictThrottle.Enqueue | index.js:24-30 | Appends the call to the queue and the accepted calls. It arms a drain for the current oldest start exactly when the queue was empty, and keeps `Safe()` when it held. |
| Throttle.StrictThrottle.ExecuteFirst | index.js:58-73 | Removes the queue head and settles it with its outcome, after recording `now`. It arms another drain exactly when calls still wait. |
| Throttle.StrictThrottle.Fire | index.js:58-73 | The k-th armed callback fires no earlier than due and is removed. From a `Safe` state it runs the head and keeps `Safe()`. On an empty queue (reachable only after `AbortAsWritten`) it records a start and crashes. |
| Throttle.StrictThrottle.RecordExecution | index.js:75-81 | Writes `now` into the oldest slot and leaves every other slot alone. It moves `oldestIndex` down, wrapping from 0 to `limit - 1`, and the buffer stays the last `limit` log entries. |
| Throttle.StrictThrottle.ScheduleNext | index.js:83-91 | Appends `Plan` of `now` and the oldest recorded start to the armed callbacks. A timeout takes a new handle, which goes to `timerId`; a next-turn drain leaves `timerId` alone. |
| Throttle.Plan | index.js:84-90 | Next turn exactly when `interval` has elapsed since the oldest start. Otherwise a timeout with a delay in `(0, interval]` that ends exactly `interval` after it. Never due earlier. |
| Throttle.Cleared | index.js:102 | `clearTimeout(timerId)` removes exactly the timeout with that handle, if it is still armed. Every other callback, every next-turn drain included, stays; with nothing to cancel the list is unchanged. |
| Throttle.ClearedKeepsCopies | index.js:102 | Counted with multiplicity: every copy of a cancelled timeout is gone, and every other callback keeps its exact number of copies. |
| Throttle.ClearedRemovesOne | index.js:102 | With distinct handles, `clearTimeout` removes at most one armed callback: the list is unchanged, or it loses exactly the entry at one position. |
| Throttle.ClearedKeepsHandles | index.js:102 | Clearing keeps every remaining timeout's handle issued and the handles distinct, and shortens the list by at most one. |
| Throttle.StrictThrottle.WaitingCount | index.js:93-95 | The number of accepted calls that are neither executed nor aborted. |
| Throttle.StrictThrottle.RejectAll | index.js:105-109 | Aborts every waiting call in queue order, keeps earlier settlements, and empties the queue. |
| Throttle.StrictThrottle.Abort | index.js:97-110 | The corrected `abort`. It changes nothing on an empty queue. Otherwise it cancels every armed drain, clears `timerId`, and rejects every waiting call with `Aborted`, in order. Keeps `Safe()` when it held. |
| Throttle.StrictThrottle.AbortAsWritten | index.js:97-110 | `abort` as written. It changes nothing on an empty queue. Otherwise the queue is emptied and aborted in order, and the armed callbacks become `Cleared` by the old `timerId`. From `Safe()` with a timeout armed it keeps `Safe()`. With a next-turn drain armed, that drain stays and `Safe()` is lost. |
| Throttle.OutcomeOf | index.js:50-54 | A call is rejected exactly when its work throws, and never reads as aborted. |
| Throttle.PushAccounted | index.js:25 | Queuing a call keeps every accepted call settled or waiting, in submission order. |
| Throttle.SettleHeadAccounted | index.js:59 | Settling the queue head keeps the settled calls followed by the waiting ones equal to the accepted calls. |
| Throttle.StrictThrottle.OldestIsLogEntry | index.js:43 | The slot at `oldestIndex` holds the log entry `limit` executions back. |
| Throttle.StrictThrottle.OldestIsMinimum | index.js:84 | The slot at `oldestIndex` holds the earliest start in the buffer. |
| Throttle.StrictThrottle.ExecutionsSpaced | test/throttle.spec.js:77-101 | Under `Safe()`, execution k starts at least `interval` after execution k - limit, and the first `limit` at least `interval` after time 0. |
| Throttle.StrictThrottle.AtMostLimitPerInterval | test/throttle.spec.js:54-75 | Two executions inside one window (t - interval, t] are fewer than `limit` positions apart. |
| Throttle.StrictThrottle.BurstSchedule | test/throttle.spec.js:54-75 | Execution k starts at least floor(k / limit) intervals after the first. |
| Throttle.StrictThrottle.SentinelsAdmit | index.js:10-11 | With fewer than `limit` executions and nobody waiting, every call at time `interval` or later runs at once. |
| History.Monotone | index.js:60 | Start times never decrease along the log. |
| History.AppendNonDecreasing | index.js:60 | Recording a time no earlier than the last keeps the log non-decreasing. |
| History.AppendRateLimited | index.js:43 | Recording `now` keeps the rate limit exactly when `now` is at least `interval` after the entry `limit` positions back. |
| History.Spacing | test/throttle.spec.js:77-101 | Entries at least `limit` positions apart are at least `interval` apart. |
| History.AtMostLimitPerWindow | test/throttle.spec.js:54-75 | At most `limit` entries fall in any half-open window of length `interval`. |
| History.RoundsDelay | test/throttle.spec.js:54-75 | After m rounds of `limit` entries, at least m intervals have passed. |
| History.BurstDelay | test/throttle.spec.js:54-75 | Entry k is at least floor(k / limit) intervals after entry 0. |
| Scenarios.RejectsBadOptions | test/throttle.spec.js:169-263 | A zero limit fails with the limit error; a fractional interval with a valid limit fails with the interval error. |
| Scenarios.ConstructOneIn50 | index.js:6-13 | `StrictThrottle({limit: 1, interval: 50})` through `Construct`: the options pass and the fresh throttle has one zero slot, nothing waiting, nothing armed and no handles issued. |
| Scenarios.OneRunsOneWaits | test/throttle.spec.js:11-22 | On that throttle, two calls at 1000: the first runs at once, and the second waits behind a timeout armed for 1050. |
| Scenarios.ThrottlesSecondCall | test/throttle.spec.js:11-32 | Built through `Construct` with limit 1 and interval 50, two calls at 1000: the first runs at once, the second is due at and runs at 1050. |
| Scenarios.FailureIsLocal | test/throttle.spec.js:103-131 | Two throwing calls are each rejected, and the second still runs. |
| Scenarios.RejectsNonFunction | test/throttle.spec.js:265-291 | A non-function fails the call, queues nothing and records nothing. |
| Scenarios.ThreeCalls | test/throttle.spec.js:293-303 | Waiting counts 0, 0, 1, 2 around three calls; the first runs and a timeout is armed for 1100. |
| Scenarios.WaitingCounts | test/throttle.spec.js:293-308 | Waiting counts 0, 0, 1, 2, 1, 0 as three calls are submitted and drained. |
| Scenarios.AbortsPendingCalls | test/throttle.spec.js:310-335 | Abort leaves the executed call fulfilled, rejects both waiting calls with `Aborted`, and leaves nothing waiting or armed. |
| Scenarios.TwoCalls | index.js:15-22 | First stage of the finding's run (limit 2, interval 100): two calls at 1000 both run at once. |
| Scenarios.FourCalls | index.js:24-30 | Second stage: two more calls at 1000 wait, and the first of them arms a timeout for 1100. |
| Scenarios.FirstDrain | index.js:58-73 | Third stage: the timeout runs the third call at 1100. The window is then open, so the fourth call's drain is armed for the next turn. |
| Scenarios.AbortBeforeNextTurn | index.js:102 | With the code as written, the next-turn drain survives `abort`, then crashes on the empty queue, recording a start at 1100. |
| Scenarios.AbortedWithStaleDrain | index.js:97-110 | The as-written abort in that run leaves an empty queue, a next-turn drain still armed, and the state not `Safe`. |
| Scenarios.CallsAfterStaleAbort | index.js:15-31 | Two calls at 1100 after that abort: the fifth runs at once, and the sixth waits and arms a timeout beside the stale drain. |
| Scenarios.StaleDrainBreaksLimit | index.js:87 | The stale drain runs the sixth call at 1100. So the third, fifth and sixth calls all start at 1100 under a limit of 2 per 100. The timeout then crashes at 1200 on the empty queue. |
| Scenarios.LateReadArmsNextTurn | index.js:28 | A call refused at the first read 1099 (limit 1, interval 100, a start at 1000) arms a next-turn drain from the second read 1100. The as-written abort leaves that drain armed. |
| Scenarios.AbortBeforeNextTurnCancels | index.js:97-110 | The finding's run with the corrected `Abort` leaves nothing armed and aborts the waiting call. |

## Left out

- Clocks and the event loop: `process.hrtime.bigint()` and `setImmediate` are not modelled. Each clock read is an argument (`now`, `later`), and a firing callback is `Fire(k, now)`. The model assumes a callback never fires before it is due and that time never runs back. It does not model how late a callback fires, nor which of several due callbacks fires first (the caller chooses `k`).
- NanoTimer: the source creates one NanoTimer object per module (index.js:3-4), and every throttle in the process shares it. The model gives each throttle its own handles (`issued`) and its own armed callbacks. nanotimer's own code is not part of this model; `clearTimeout` is taken to cancel exactly the timeout its handle names.
- Units: the conversion of `interval` from milliseconds to nanoseconds (index.js:9) is not modelled, beyond the overflow to `Infinity`. The model uses one integer unit throughout. It does not model the rounding of `interval * 1000000` for intervals above 2^53 / 10^6.
- Throttle.Construct: does not model running out of memory when allocating a large history below `2^32` slots (index.js:10).
- Promises: a call's promise is the `Settlement` recorded in `settled` when the work runs or the call is aborted. Whether the work throws or its returned promise rejects is one flag of `Work`. The asynchronous settlement of a returned promise is not modelled, and neither are the result values.
- Reentrancy: a work function that calls `throttle` or `abort` while it runs is not modelled. The work runs atomically at the end of each operation.
- JavaScript typing: `typeof fn` and `Number.isInteger` become the variants `Arg` and `Num`. The missing-options case (destructuring `undefined`, test/throttle.spec.js:133-143) is not modelled.
- Error messages: the texts of the errors are not modelled, only their kinds.
- The tests' upper bounds on how soon calls run (for example `within(interval, 59)`) depend on timer latency and are not modelled. The lower bounds are `ExecutionsSpaced` and `BurstSchedule`.
- index.d.ts (the TypeScript declarations) is not part of this model.

## Findings

| source | as written | input that shows it | evidently intended | confidence | as-written member | corrected member |
|---|---|---|---|---|---|---|
| index.js:102 | `abort` clears only the nanotimer timeout `timerId` names. A drain armed with `setImmediate(executeFirst)` (index.js:87) stays armed after the queue is emptied. That drain is armed either by `executeFirst` or by a queued call whose second clock read finds the window open (index.js:28). When it runs on an empty queue, `executeFirst` shifts `undefined`, records a start that runs nothing, and throws a TypeError out of the callback (index.js:59-69). When new calls arrive first, it runs one of them early, and the rate limit is broken. | limit 2, interval 100. Four calls at 1000: two run, two wait, and a timeout is armed for 1100. At 1100 the timeout runs the third call. The window is then open, so the fourth call's drain is armed for the next turn. Before that turn, `abort()` runs (for example from a continuation of the third call's result). Two cases follow. With nothing more, the next turn crashes, and the starts are [1000, 1000, 1100, 1100]. With two more calls at 1100 first, the fifth runs at once (index.js:43), and the sixth waits and arms a timeout for 1200. The stale drain then runs the sixth at 1100. Three calls start at 1100 under a limit of 2 per 100, and the timeout crashes at 1200. | `abort` cancels whichever drain is armed, as the comment on index.js:102 describes: the scheduled execution of the next queue member is removed. | high, not executed | Throttle.StrictThrottle.AbortAsWritten, Scenarios.AbortBeforeNextTurn, Scenarios.StaleDrainBreaksLimit, Scenarios.LateReadArmsNextTurn | Throttle.StrictThrottle.Abort, Scenarios.AbortBeforeNextTurnCancels |
