/** The strict throttle: a circular history of the last `limit` execution start
    times, a FIFO queue of waiting calls, and the drain callbacks armed for it.

    Time is an explicit argument; the clock, the event loop and the timer library
    are the environment. The drain callbacks that are armed and have not fired
    yet are the field `pending`, and the handles the timer library hands out are
    counted by `issued`. A call's work is an opaque item whose outcome (it
    returns or it throws) is part of the item, and a call's promise is modelled
    by the outcome recorded for it in `settled`. */
module Throttle {
  import Options
  import History

  datatype Option<T> = None | Some(value: T)

  /** A submitted work function: an opaque identity and whether running it throws. */
  datatype Work = Work(id: nat, throws: bool)

  /** The argument of a call: a function, or any other JavaScript value. */
  datatype Arg = Fn(work: Work) | NotAFunction

  /** How a call's promise settled. */
  datatype Outcome = Fulfilled | Rejected | Aborted

  datatype Settlement = Settlement(work: Work, outcome: Outcome)

  /** The outcome of running a work function: a thrown error rejects only its own call. */
  function OutcomeOf(w: Work): (o: Outcome)
    ensures o != Aborted
    ensures o == Rejected <==> w.throws
  {
    if w.throws then Rejected else Fulfilled
  }

  /** An armed drain callback (`executeFirst`): one for the next turn of the event
      loop (`setImmediate`, which gives no handle), or a nanotimer timeout that
      fires `delay` after `armedAt` and is known by its `handle`. */
  datatype Timer = Immediate(armedAt: int) | After(armedAt: int, delay: int, handle: nat)

  /** The earliest time at which an armed callback can fire. */
  function Due(t: Timer): int {
    match t
    case Immediate(at) => at
    case After(at, d, _) => at + d
  }

  /** What a call does: throws, runs at once, or waits in the queue. */
  datatype CallResult = InvalidArgument | RanNow | Queued

  /** What a fired drain callback does: runs the queue head, or (on an empty queue)
      throws a TypeError out of the callback. */
  datatype Drain = Ran(work: Work) | Crashed

  /** The result of `StrictThrottle({limit, interval})`: a throttle, a
      configuration error, or the RangeError of converting an interval whose
      nanosecond value overflows to `Infinity`, or of allocating a history of
      `2^32` slots or more. */
  datatype Construction =
    | Created(throttle: StrictThrottle)
    | Failed(error: Options.ConfigError)
    | NanosOverflow
    | InvalidArrayLength

  const TwoTo64: nat := 0x1_0000_0000_0000_0000
  const TwoTo320: nat := TwoTo64 * TwoTo64 * TwoTo64 * TwoTo64 * TwoTo64

  /** The midpoint between the largest finite double, `2^1024 - 2^971`, and `2^1024`:
      `2^1024 - 2^970`, that is `(2^54 - 1) * 2^10 * 2^960`. */
  const OverflowNanos: nat := 0x3F_FFFF_FFFF_FFFF * 0x400 * TwoTo320 * TwoTo320 * TwoTo320

  /** `interval * 1000000` rounds to `Infinity` as a double: the exact product
      reaches `OverflowNanos`. */
  predicate NanosOverflows(interval: int) {
    interval * 1000000 >= OverflowNanos
  }

  /** `new Array(limit)` accepts lengths below `2^32` only. */
  const MaxArrayLength: nat := 0x1_0000_0000

  /** The arming decision of `scheduleNext`, given the oldest recorded start and the
      handle the timer library would give a new timeout. */
  function Plan(now: int, oldest: int, interval: int, handle: nat): (t: Timer)
    ensures t.armedAt == now
    ensures t.Immediate? <==> now - oldest >= interval
    ensures t.After? ==> t.delay > 0 && Due(t) == oldest + interval && t.handle == handle
    ensures t.After? && oldest <= now ==> t.delay <= interval
    ensures Due(t) - oldest >= interval
  {
    var elapsed := now - oldest;
    if elapsed >= interval then Immediate(now) else After(now, interval - elapsed, handle)
  }

  /** Whether `timer.clearTimeout(id)` cancels the callback `t`. */
  predicate Cancels(id: Option<nat>, t: Timer) {
    t.After? && id == Some(t.handle)
  }

  /** The armed callbacks left after `timer.clearTimeout(id)`: the timeout with
      handle `id`, if it has not fired yet, is gone, and everything else stays. */
  function Cleared(pending: seq<Timer>, id: Option<nat>): (r: seq<Timer>)
    ensures forall t :: t in r <==> t in pending && !Cancels(id, t)
    ensures (forall t :: t in pending ==> !Cancels(id, t)) ==> r == pending
    ensures |r| <= |pending|
  {
    if pending == [] then []
    else
      assert pending == [pending[0]] + pending[1..];
      if Cancels(id, pending[0]) then Cleared(pending[1..], id)
      else [pending[0]] + Cleared(pending[1..], id)
  }

  /** `clearTimeout` removes every copy of the callback it cancels and keeps every
      copy of each other one. */
  lemma {:induction false} ClearedKeepsCopies(pending: seq<Timer>, id: Option<nat>)
    ensures forall t ::
              multiset(Cleared(pending, id))[t] == if Cancels(id, t) then 0 else multiset(pending)[t]
    decreases |pending|
  {
    if pending != [] {
      assert pending == [pending[0]] + pending[1..];
      ClearedKeepsCopies(pending[1..], id);
    }
  }

  /** Every timeout among `pending` has a handle below `n`: one already handed out. */
  ghost predicate HandlesBelow(pending: seq<Timer>, n: nat) {
    forall i :: 0 <= i < |pending| && pending[i].After? ==> pending[i].handle < n
  }

  /** No two armed timeouts share a handle. */
  ghost predicate DistinctHandles(pending: seq<Timer>) {
    forall i, j :: 0 <= i < j < |pending| && pending[i].After? && pending[j].After? ==>
      pending[i].handle != pending[j].handle
  }

  /** A timeout armed with the next handle keeps the handles issued and distinct. */
  lemma ArmKeepsHandles(pending: seq<Timer>, n: nat, t: Timer)
    requires HandlesBelow(pending, n) && DistinctHandles(pending)
    requires t.After? ==> t.handle == n
    ensures HandlesBelow(pending + [t], if t.After? then n + 1 else n)
    ensures DistinctHandles(pending + [t])
  {
    var p := pending + [t];
    forall i, j | 0 <= i < j < |p| && p[i].After? && p[j].After?
      ensures p[i].handle != p[j].handle
    {
      if j == |pending| {
        assert p[i] == pending[i];
      } else {
        assert p[i] == pending[i] && p[j] == pending[j];
      }
    }
  }

  /** Removing the k-th callback keeps the handles issued and distinct. */
  lemma RemoveKeepsHandles(pending: seq<Timer>, n: nat, k: nat)
    requires HandlesBelow(pending, n) && DistinctHandles(pending) && k < |pending|
    ensures HandlesBelow(pending[..k] + pending[k + 1..], n)
    ensures DistinctHandles(pending[..k] + pending[k + 1..])
  {
    var p := pending[..k] + pending[k + 1..];
    assert forall i :: 0 <= i < |p| ==> p[i] == pending[if i < k then i else i + 1];
  }

  /** With distinct handles, clearing a handle removes at most one callback: the
      returned `k` is its position, or `|pending|` when nothing was cancelled. */
  lemma {:induction false} ClearedRemovesOne(pending: seq<Timer>, id: Option<nat>) returns (k: nat)
    requires DistinctHandles(pending)
    ensures k <= |pending|
    ensures k == |pending| ==> Cleared(pending, id) == pending
    ensures k < |pending| ==> Cleared(pending, id) == pending[..k] + pending[k + 1..]
    decreases |pending|
  {
    if pending == [] {
      return 0;
    }
    DistinctTail(pending);
    if Cancels(id, pending[0]) {
      NoOtherCancels(pending, id);
      return 0;
    }
    var m := ClearedRemovesOne(pending[1..], id);
    k := m + 1;
    if m < |pending| - 1 {
      SpliceAfterHead(pending, m);
    }
  }

  /** The tail of a list with distinct handles has distinct handles. */
  lemma DistinctTail(pending: seq<Timer>)
    requires DistinctHandles(pending) && pending != []
    ensures DistinctHandles(pending[1..])
  {
    assert forall i :: 0 <= i < |pending| - 1 ==> pending[1..][i] == pending[i + 1];
  }

  /** Removing position `m` of the tail is removing position `m + 1` of the list. */
  lemma SpliceAfterHead(pending: seq<Timer>, m: nat)
    requires m < |pending| - 1
    ensures [pending[0]] + (pending[1..][..m] + pending[1..][m + 1..]) == pending[..m + 1] + pending[m + 2..]
  {
    assert pending[..m + 1] == [pending[0]] + pending[1..][..m];
    assert pending[m + 2..] == pending[1..][m + 1..];
  }

  /** Clearing a handle keeps the remaining handles issued and distinct. */
  lemma ClearedKeepsHandles(pending: seq<Timer>, n: nat, id: Option<nat>)
    requires HandlesBelow(pending, n) && DistinctHandles(pending)
    ensures HandlesBelow(Cleared(pending, id), n) && DistinctHandles(Cleared(pending, id))
    ensures |Cleared(pending, id)| + 1 >= |pending|
  {
    var k := ClearedRemovesOne(pending, id);
    if k < |pending| {
      RemoveKeepsHandles(pending, n, k);
    }
  }

  /** With distinct handles, a timeout at the head is the only one `id` cancels. */
  lemma NoOtherCancels(pending: seq<Timer>, id: Option<nat>)
    requires DistinctHandles(pending) && pending != [] && Cancels(id, pending[0])
    ensures forall t :: t in pending[1..] ==> !Cancels(id, t)
  {
    forall t | t in pending[1..]
      ensures !Cancels(id, t)
    {
      var m :| 0 <= m < |pending| - 1 && pending[1..][m] == t;
      assert pending[m + 1] == t;
    }
  }

  /** The history slot holding the j-th oldest of the last `n` starts, when the
      oldest one is in slot `p` and `oldestIndex` moves down with wrap-around. */
  function SlotAt(p: int, j: int, n: int): int {
    if j <= p then p - j else p - j + n
  }

  /** Every accepted call is settled or waiting, and calls settle in submission
      order: the settled calls followed by the waiting ones are the accepted ones. */
  ghost predicate Accounted(settled: seq<Settlement>, queue: seq<Work>, accepted: seq<Work>) {
    |settled| + |queue| == |accepted| &&
    (forall i :: 0 <= i < |settled| ==> settled[i].work == accepted[i]) &&
    queue == accepted[|settled|..]
  }

  lemma PushAccounted(settled: seq<Settlement>, queue: seq<Work>, accepted: seq<Work>, w: Work)
    requires Accounted(settled, queue, accepted)
    ensures Accounted(settled, queue + [w], accepted + [w])
  {
  }

  lemma SettleHeadAccounted(settled: seq<Settlement>, queue: seq<Work>, accepted: seq<Work>, o: Outcome)
    requires Accounted(settled, queue, accepted) && queue != []
    ensures Accounted(settled + [Settlement(queue[0], o)], queue[1..], accepted)
  {
  }

  class StrictThrottle {
    const limit: nat
    const interval: nat

    /** The circular buffer of the last `limit` start times. */
    const recentTicks: array<int>
    /** The slot to be overwritten next: the oldest recorded start. */
    var oldestIndex: int
    var queue: seq<Work>
    /** The handle of the last nanotimer timeout armed, or `null`. */
    var timerId: Option<nat>
    /** Every drain callback armed and not yet fired or cancelled, in arming order. */
    var pending: seq<Timer>
    /** The number of timeout handles the timer library has handed out. */
    var issued: nat
    /** The settlement of every call, in the order the calls ran or were aborted. */
    var settled: seq<Settlement>

    /** Every accepted call, in submission order. */
    ghost var accepted: seq<Work>
    /** `limit` sentinel zeros followed by every recorded start time. */
    ghost var log: seq<int>
    /** The latest time the throttle has observed. */
    ghost var clock: int

    /** The history buffer is the last `limit` entries of the log, read from
        `oldestIndex` downwards. */
    ghost predicate ValidHistory()
      reads this`oldestIndex, this`log, recentTicks
    {
      limit > 0 && interval > 0 &&
      recentTicks.Length == limit &&
      0 <= oldestIndex < limit &&
      |log| >= limit &&
      (forall i :: 0 <= i < limit ==> log[i] == 0) &&
      History.NonDecreasing(log) &&
      (forall j :: 0 <= j < limit ==> recentTicks[SlotAt(oldestIndex, j, limit)] == log[|log| - limit + j])
    }

    /** Every accepted call is settled or waiting, and they settle in submission order. */
    ghost predicate ValidQueue()
      reads this`settled, this`queue, this`accepted
    {
      Accounted(settled, queue, accepted)
    }

    /** Time never runs back: every recorded start is at most the latest observed time. */
    ghost predicate ValidClock()
      reads this`log, this`clock
    {
      |log| > 0 && 0 <= log[|log| - 1] <= clock
    }

    /** Every armed timeout carries a handle already handed out, and no two share one. */
    ghost predicate ValidHandles()
      reads this`pending, this`issued
    {
      HandlesBelow(pending, issued) && DistinctHandles(pending)
    }

    ghost predicate Valid()
      reads this, recentTicks
    {
      ValidHistory() && ValidQueue() && ValidClock() && ValidHandles()
    }

    /** The start time the next execution is measured against. */
    function Oldest(): int
      reads this`oldestIndex, this`log, recentTicks
      requires ValidHistory()
    {
      recentTicks[oldestIndex]
    }

    /** One drain is armed exactly while calls wait, and none otherwise; it cannot
        fire before the oldest start leaves the window; a timeout is the one
        `timerId` names; and the log obeys the rate limit. */
    ghost predicate Safe()
      reads this, recentTicks
    {
      Valid() &&
      (queue == [] <==> pending == []) && |pending| <= 1 &&
      (pending != [] ==> Due(pending[0]) - log[|log| - limit] >= interval) &&
      (pending != [] && pending[0].After? ==> timerId == Some(pending[0].handle)) &&
      History.RateLimited(log, limit, interval)
    }

    /** The armed callbacks are `before` with `t` appended, and the handle state
        records `t` when it is a timeout. */
    ghost predicate Armed(t: Timer, before: seq<Timer>, id: Option<nat>, count: nat)
      reads this`pending, this`timerId, this`issued
    {
      pending == before + [t] &&
      timerId == (if t.After? then Some(t.handle) else id) &&
      issued == (if t.After? then count + 1 else count)
    }

    /** The recorded start times, without the sentinels. */
    ghost function Executions(): seq<int>
      reads this
      requires |log| >= limit
    {
      log[limit..]
    }

    lemma OldestIsLogEntry()
      requires ValidHistory()
      ensures Oldest() == log[|log| - limit]
    {
      assert SlotAt(oldestIndex, 0, limit) == oldestIndex;
    }

    constructor (limit: nat, interval: nat)
      requires limit > 0 && interval > 0
      ensures Safe() && fresh(recentTicks)
      ensures this.limit == limit && this.interval == interval
      ensures oldestIndex == limit - 1
      ensures forall s :: 0 <= s < limit ==> recentTicks[s] == 0
      ensures queue == [] && pending == [] && timerId == None && issued == 0
      ensures settled == [] && accepted == []
      ensures log == seq(limit, _ => 0) && clock == 0
    {
      this.limit := limit;
      this.interval := interval;
      recentTicks := new int[limit](_ => 0);
      oldestIndex := limit - 1;
      queue := [];
      timerId := None;
      pending := [];
      issued := 0;
      settled := [];
      accepted := [];
      log := seq(limit, _ => 0);
      clock := 0;
    }

    /** Whether a call made at `now` runs at once: only with nobody waiting, and
        only when the start `limit` executions back is at least `interval` old. */
    function ShouldExecuteImmediately(now: int): (b: bool)
      reads this, recentTicks
      requires Valid()
      ensures b <==> queue == [] && now - log[|log| - limit] >= interval
    {
      OldestIsLogEntry();
      if |queue| > 0 then false else now - recentTicks[oldestIndex] >= interval
    }

    /** The number of accepted calls not yet executed or aborted. */
    function WaitingCount(): (n: nat)
      reads this
      requires ValidQueue()
      ensures n == |accepted| - |settled|
    {
      |queue|
    }

    /** Overwrites the oldest slot with `now` and moves `oldestIndex` down, wrapping
        from 0 to `limit - 1`; the buffer stays the last `limit` entries of the log. */
    method RecordExecution(now: int)
      requires ValidHistory() && ValidClock() && now >= clock
      modifies this`oldestIndex, this`log, this`clock, recentTicks
      ensures ValidHistory() && ValidClock()
      ensures log == old(log) + [now] && clock == now
      ensures recentTicks[old(oldestIndex)] == now
      ensures forall s :: 0 <= s < limit && s != old(oldestIndex) ==> recentTicks[s] == old(recentTicks[s])
      ensures oldestIndex == if old(oldestIndex) == 0 then limit - 1 else old(oldestIndex) - 1
    {
      ghost var p, oldLog := oldestIndex, log;
      History.AppendNonDecreasing(log, now);
      recentTicks[oldestIndex] := now;
      oldestIndex := oldestIndex - 1;
      if oldestIndex < 0 {
        oldestIndex := limit - 1;
      }
      log := log + [now];
      clock := now;
      forall j | 0 <= j < limit
        ensures recentTicks[SlotAt(oldestIndex, j, limit)] == log[|log| - limit + j]
      {
        if j < limit - 1 {
          assert SlotAt(oldestIndex, j, limit) == SlotAt(p, j + 1, limit);
          assert old(recentTicks[SlotAt(p, j + 1, limit)]) == oldLog[|oldLog| - limit + j + 1];
        } else {
          assert SlotAt(oldestIndex, j, limit) == p;
        }
      }
    }

    /** Arms a drain callback for the current oldest start: for the next turn when
        the window is open, otherwise a timeout whose handle goes to `timerId`. */
    method ScheduleNext(now: int)
      requires ValidHistory() && ValidHandles()
      modifies this`pending, this`timerId, this`issued
      ensures ValidHandles()
      ensures Armed(Plan(now, log[|log| - limit], interval, old(issued)), old(pending), old(timerId), old(issued))
    {
      OldestIsLogEntry();
      ArmKeepsHandles(pending, issued, Plan(now, recentTicks[oldestIndex], interval, issued));
      var elapsed := now - recentTicks[oldestIndex];
      if elapsed >= interval {
        pending := pending + [Immediate(now)];
      } else {
        pending := pending + [After(now, interval - elapsed, issued)];
        timerId := Some(issued);
        issued := issued + 1;
      }
    }

    /** `executeImmediately`, admitted at `now`: records the clock read `later`
        and runs the work at once. */
    method ExecuteImmediately(work: Work, now: int, later: int)
      requires Valid() && clock <= now <= later && ShouldExecuteImmediately(now)
      modifies this`oldestIndex, this`log, this`clock, this`accepted, this`settled, recentTicks
      ensures Valid()
      ensures old(Safe()) ==> Safe()
      ensures log == old(log) + [later] && clock == later
      ensures accepted == old(accepted) + [work]
      ensures settled == old(settled) + [Settlement(work, OutcomeOf(work))]
    {
      ghost var wasSafe := Safe();
      if wasSafe {
        History.AppendRateLimited(log, limit, interval, later);
      }
      PushAccounted(settled, queue, accepted, work);
      SettleHeadAccounted(settled, [work], accepted + [work], OutcomeOf(work));
      accepted := accepted + [work];
      RecordExecution(later);
      settled := settled + [Settlement(work, OutcomeOf(work))];
    }

    /** Appends the call to the queue; the call that makes the queue one long arms
        a drain from the clock read `now`. */
    method Enqueue(work: Work, now: int)
      requires Valid() && now >= clock
      modifies this`queue, this`accepted, this`pending, this`timerId, this`issued, this`clock
      ensures Valid()
      ensures old(Safe()) ==> Safe()
      ensures queue == old(queue) + [work] && accepted == old(accepted) + [work] && clock == now
      ensures old(queue) == [] ==>
        Armed(Plan(now, log[|log| - limit], interval, old(issued)), old(pending), old(timerId), old(issued))
      ensures old(queue) != [] ==> pending == old(pending) && timerId == old(timerId) && issued == old(issued)
    {
      PushAccounted(settled, queue, accepted, work);
      accepted := accepted + [work];
      queue := queue + [work];
      if |queue| == 1 {
        ScheduleNext(now);
      }
      clock := now;
    }

    /** `throttle(fn)`: throws on a non-function; otherwise decides admission from
        the clock read `now` and reads the clock again (`later`) to record an
        admitted call or to arm the drain for a queued one. */
    method Call(arg: Arg, now: int, later: int) returns (r: CallResult)
      requires Valid() && clock <= now <= later
      modifies this, recentTicks
      ensures Valid()
      ensures old(Safe()) ==> Safe()
      ensures arg.NotAFunction? ==> r == InvalidArgument && unchanged(this) && unchanged(recentTicks)
      ensures arg.Fn? ==> accepted == old(accepted) + [arg.work] && clock == later
      ensures arg.Fn? && old(ShouldExecuteImmediately(now)) ==>
        r == RanNow && log == old(log) + [later] && queue == [] &&
        pending == old(pending) && timerId == old(timerId) && issued == old(issued) &&
        settled == old(settled) + [Settlement(arg.work, OutcomeOf(arg.work))]
      ensures arg.Fn? && !old(ShouldExecuteImmediately(now)) ==>
        r == Queued && log == old(log) && queue == old(queue) + [arg.work] &&
        settled == old(settled) && unchanged(recentTicks) && oldestIndex == old(oldestIndex)
      ensures arg.Fn? && !old(ShouldExecuteImmediately(now)) && old(queue) == [] ==>
        Armed(Plan(later, log[|log| - limit], interval, old(issued)), old(pending), old(timerId), old(issued))
      ensures arg.Fn? && old(queue) != [] ==>
        pending == old(pending) && timerId == old(timerId) && issued == old(issued)
    {
      if arg.NotAFunction? {
        return InvalidArgument;
      }
      if ShouldExecuteImmediately(now) {
        ExecuteImmediately(arg.work, now, later);
        r := RanNow;
      } else {
        Enqueue(arg.work, later);
        r := Queued;
      }
    }

    /** `executeFirst` on a non-empty queue: takes the head, records `now`, arms
        another drain while calls still wait, then runs the head's work. */
    method ExecuteFirst(now: int) returns (first: Work)
      requires Valid() && queue != [] && now >= clock
      modifies this`oldestIndex, this`log, this`clock, this`queue, this`settled, recentTicks
      modifies this`pending, this`timerId, this`issued
      ensures Valid()
      ensures first == old(queue)[0] && queue == old(queue)[1..]
      ensures settled == old(settled) + [Settlement(first, OutcomeOf(first))]
      ensures log == old(log) + [now] && clock == now
      ensures queue == [] ==> pending == old(pending) && timerId == old(timerId) && issued == old(issued)
      ensures queue != [] ==>
        Armed(Plan(now, log[|log| - limit], interval, old(issued)), old(pending), old(timerId), old(issued))
    {
      first := queue[0];
      SettleHeadAccounted(settled, queue, accepted, OutcomeOf(first));
      queue := queue[1..];
      RecordExecution(now);
      if |queue| > 0 {
        ScheduleNext(now);
      }
      settled := settled + [Settlement(first, OutcomeOf(first))];
    }

    /** The k-th armed drain callback fires at `now`, no earlier than it is due. On
        a non-empty queue it runs `executeFirst`; on an empty one `executeFirst`
        records `now` and throws a TypeError out of the callback. */
    method Fire(k: nat, now: int) returns (r: Drain)
      requires Valid()
      requires k < |pending| && now >= clock && now >= Due(pending[k])
      modifies this`oldestIndex, this`log, this`clock, this`queue, this`settled, recentTicks
      modifies this`pending, this`timerId, this`issued
      ensures Valid()
      ensures old(Safe()) ==> Safe() && r.Ran?
      ensures log == old(log) + [now] && clock == now
      ensures old(queue) != [] ==>
        r == Ran(old(queue)[0]) && queue == old(queue)[1..] &&
        settled == old(settled) + [Settlement(old(queue)[0], OutcomeOf(old(queue)[0]))]
      ensures old(queue) == [] ==> r == Crashed && queue == [] && settled == old(settled)
      ensures queue == [] ==>
        pending == old(pending)[..k] + old(pending)[k + 1..] && timerId == old(timerId) && issued == old(issued)
      ensures queue != [] ==>
        Armed(Plan(now, log[|log| - limit], interval, old(issued)),
              old(pending)[..k] + old(pending)[k + 1..], old(timerId), old(issued))
    {
      ghost var wasSafe := Safe();
      ghost var log0 := log;
      if wasSafe {
        History.AppendRateLimited(log, limit, interval, now);
      }
      RemoveKeepsHandles(pending, issued, k);
      pending := pending[..k] + pending[k + 1..];
      if |queue| == 0 {
        RecordExecution(now);
        return Crashed;
      }
      var first := ExecuteFirst(now);
      r := Ran(first);
      assert wasSafe ==> History.RateLimited(log0 + [now], limit, interval);
    }

    /** Rejects every waiting call with `Aborted`, in queue order, and empties the queue. */
    method RejectAll()
      requires Valid()
      modifies this`queue, this`settled
      ensures Valid() && queue == []
      ensures |settled| == |old(settled)| + |old(queue)|
      ensures settled[..|old(settled)|] == old(settled)
      ensures forall k :: 0 <= k < |old(queue)| ==> settled[|old(settled)| + k] == Settlement(old(queue)[k], Aborted)
    {
      var i := 0;
      while i < |queue|
        invariant 0 <= i <= |queue|
        invariant queue == old(queue)
        invariant |settled| == |old(settled)| + i
        invariant settled[..|old(settled)|] == old(settled)
        invariant forall k :: 0 <= k < i ==> settled[|old(settled)| + k] == Settlement(queue[k], Aborted)
      {
        settled := settled + [Settlement(queue[i], Aborted)];
        i := i + 1;
      }
      queue := [];
    }

    /** `abort` as it is meant to work: cancels every armed drain and rejects every
        waiting call. Nothing happens when nobody waits. */
    method Abort()
      requires Valid()
      modifies this`queue, this`settled, this`pending, this`timerId
      ensures Valid() && queue == []
      ensures old(Safe()) ==> Safe()
      ensures old(queue) == [] ==> unchanged(this)
      ensures old(queue) != [] ==> pending == [] && timerId == None
      ensures |settled| == |old(settled)| + |old(queue)|
      ensures settled[..|old(settled)|] == old(settled)
      ensures forall k :: 0 <= k < |old(queue)| ==> settled[|old(settled)| + k] == Settlement(old(queue)[k], Aborted)
    {
      if |queue| == 0 {
        return;
      }
      pending := [];
      timerId := None;
      RejectAll();
    }

    /** `abort` as written: it clears only the timeout `timerId` names, so a drain
        armed for the next turn stays armed after the queue is emptied. */
    method AbortAsWritten()
      requires Valid()
      modifies this`queue, this`settled, this`pending, this`timerId
      ensures Valid() && queue == []
      ensures old(queue) == [] ==> unchanged(this)
      ensures old(queue) != [] ==> pending == Cleared(old(pending), old(timerId)) && timerId == None
      ensures old(Safe()) && old(queue) != [] && old(pending[0]).After? ==> Safe()
      ensures old(Safe()) && old(queue) != [] && old(pending[0]).Immediate? ==> pending == old(pending) && !Safe()
      ensures |settled| == |old(settled)| + |old(queue)|
      ensures settled[..|old(settled)|] == old(settled)
      ensures forall k :: 0 <= k < |old(queue)| ==> settled[|old(settled)| + k] == Settlement(old(queue)[k], Aborted)
    {
      if |queue| == 0 {
        return;
      }
      ghost var wasSafe := Safe();
      ghost var p0 := pending;
      ClearedKeepsHandles(pending, issued, timerId);
      pending := Cleared(pending, timerId);
      if wasSafe && p0[0].After? {
        assert p0 == [p0[0]];
      }
      timerId := None;
      RejectAll();
    }

    /** The oldest recorded start is the earliest entry of the buffer. */
    lemma OldestIsMinimum()
      requires ValidHistory()
      ensures forall s :: 0 <= s < limit ==> Oldest() <= recentTicks[s]
    {
      OldestIsLogEntry();
      forall s | 0 <= s < limit
        ensures Oldest() <= recentTicks[s]
      {
        var j := if s <= oldestIndex then oldestIndex - s else oldestIndex - s + limit;
        assert SlotAt(oldestIndex, j, limit) == s;
        History.Monotone(log, |log| - limit, |log| - limit + j);
      }
    }

    /** The rate-limit promise: the k-th execution starts at least `interval` after
        the (k - limit)-th, and the first `limit` ones at least `interval` after time 0. */
    lemma ExecutionsSpaced(k: int)
      requires Safe()
      requires 0 <= k < |Executions()|
      ensures k >= limit ==> Executions()[k] - Executions()[k - limit] >= interval
      ensures k < limit ==> Executions()[k] >= interval
    {
      assert Executions()[k] == log[limit + k];
      assert History.Gap(log, limit + k, limit) >= interval;
      if k >= limit {
        assert Executions()[k - limit] == log[k];
      }
    }

    /** No window (t - interval, t] holds more than `limit` executions: two of them
        inside it are fewer than `limit` executions apart. */
    lemma AtMostLimitPerInterval(t: int, i: int, j: int)
      requires Safe()
      requires 0 <= i <= j < |Executions()|
      requires t - interval < Executions()[i] && Executions()[j] <= t
      ensures j - i < limit
    {
      History.AtMostLimitPerWindow(log, limit, interval, t, limit + i, limit + j);
    }

    /** In a burst, the k-th execution starts at least floor(k / limit) intervals
        after the first. */
    lemma BurstSchedule(k: int)
      requires Safe()
      requires 0 <= k < |Executions()|
      ensures Executions()[k] - Executions()[0] >= (k / limit) * interval
    {
      var e := Executions();
      forall k | 0 < k < |e|
        ensures History.Rises(e, k)
      {
        assert History.Rises(log, limit + k);
      }
      forall j | limit <= j < |e|
        ensures History.Gap(e, j, limit) >= interval
      {
        ExecutionsSpaced(j);
      }
      History.BurstDelay(e, limit, interval, k);
    }

    /** While fewer than `limit` executions have been recorded and nobody waits,
        every call at or after time `interval` runs at once. */
    lemma SentinelsAdmit(now: int)
      requires Valid()
      requires queue == [] && |Executions()| < limit && now >= interval
      ensures ShouldExecuteImmediately(now)
    {
    }
  }

  /** `StrictThrottle({limit, interval})`: validates the options, converts the
      interval to nanoseconds, allocates the history and builds a fresh throttle. */
  method Construct(limit: Options.Num, interval: Options.Num) returns (r: Construction)
    ensures r.Failed? <==> Options.CheckOptions(limit, interval).Rejected?
    ensures r.Failed? ==> r.error == Options.CheckOptions(limit, interval).error
    ensures r == NanosOverflow <==>
      Options.CheckOptions(limit, interval).Accepted? && NanosOverflows(interval.value)
    ensures r == InvalidArrayLength <==>
      Options.CheckOptions(limit, interval).Accepted? && !NanosOverflows(interval.value) &&
      limit.value >= MaxArrayLength
    ensures r.Created? ==>
      fresh(r.throttle) && fresh(r.throttle.recentTicks) && r.throttle.Safe() &&
      r.throttle.limit == limit.value && r.throttle.interval == interval.value &&
      r.throttle.queue == [] && r.throttle.settled == [] && r.throttle.accepted == [] &&
      r.throttle.Executions() == [] && r.throttle.clock == 0 &&
      r.throttle.pending == [] && r.throttle.timerId == None && r.throttle.issued == 0
  {
    var checked := Options.CheckOptions(limit, interval);
    if checked.Rejected? {
      return Failed(checked.error);
    }
    if NanosOverflows(checked.config.interval) {
      return NanosOverflow;
    }
    if checked.config.limit >= MaxArrayLength {
      return InvalidArrayLength;
    }
    var t := new StrictThrottle(checked.config.limit, checked.config.interval);
    r := Created(t);
  }
}
