/** Client runs of the throttle on concrete inputs, one per behaviour the test
    suite exercises, and the run that shows what `abort` as written leaves behind.
    Times are in one unit throughout and start at 1000, well past the sentinel 0.
    `TwoCalls`, `FourCalls`, `FirstDrain`, `AbortedWithStaleDrain` and
    `CallsAfterStaleAbort` are the successive stages of the runs behind the abort
    finding; each states the whole state it hands to the next. */
module Scenarios {
  import opened Throttle
  import Options

  /** `StrictThrottle({limit: 1, interval: 50})`: the options pass, the interval
      converts, and the fresh throttle has no history, nothing waiting and nothing armed. */
  method ConstructOneIn50() returns (t: StrictThrottle)
    ensures fresh(t) && fresh(t.recentTicks) && t.Safe() && t.limit == 1 && t.interval == 50
    ensures t.log == [0] && t.clock == 0 && t.queue == [] && t.settled == [] && t.accepted == []
    ensures t.oldestIndex == 0 && t.recentTicks[0] == 0
    ensures t.pending == [] && t.timerId == None && t.issued == 0
  {
    var made := Construct(Options.IntVal(1), Options.IntVal(50));
    assert made.Created?;
    t := made.throttle;
    assert t.recentTicks[SlotAt(t.oldestIndex, 0, 1)] == t.log[0];
  }

  /** Two calls at 1000 on that throttle: the first runs at once, the second waits
      behind a timeout armed for 50 later. */
  method OneRunsOneWaits() returns (t: StrictThrottle, first: CallResult, second: CallResult)
    ensures fresh(t) && fresh(t.recentTicks) && t.Safe() && t.limit == 1 && t.interval == 50
    ensures first == RanNow && second == Queued
    ensures t.log == [0, 1000] && t.clock == 1000 && t.queue == [Work(2, false)]
    ensures t.pending == [After(1000, 50, 0)] && t.timerId == Some(0) && t.issued == 1
  {
    t := ConstructOneIn50();
    first := t.Call(Fn(Work(1, false)), 1000, 1000);
    assert t.log == [0, 1000] && t.queue == [] && t.pending == [] && t.issued == 0;
    second := t.Call(Fn(Work(2, false)), 1000, 1000);
  }

  /** `StrictThrottle({limit: 1, interval: 50})` and two calls at once: the first
      runs at once, the second when the timer fires 50 later. */
  method ThrottlesSecondCall() returns (first: CallResult, second: CallResult, due: int, drained: Drain, ghost starts: seq<int>)
    ensures first == RanNow && second == Queued
    ensures due == 1050 && drained == Ran(Work(2, false))
    ensures starts == [1000, 1050]
  {
    var t;
    t, first, second := OneRunsOneWaits();
    due := Due(t.pending[0]);
    drained := t.Fire(0, due);
    starts := t.Executions();
  }

  /** `{limit: 0, interval: 100}` and `{limit: 1, interval: 100.1}` are refused, each
      with the error of the option at fault, before any throttle exists. */
  method RejectsBadOptions() returns (zeroLimit: Construction, fractional: Construction)
    ensures zeroLimit == Failed(Options.InvalidLimit)
    ensures fractional == Failed(Options.InvalidInterval)
  {
    zeroLimit := Construct(Options.IntVal(0), Options.IntVal(100));
    fractional := Construct(Options.IntVal(1), Options.NonInt);
  }

  /** A call that throws rejects only its own promise; the next one still runs. */
  method FailureIsLocal() returns (settled: seq<Settlement>)
    ensures settled == [Settlement(Work(1, true), Rejected), Settlement(Work(2, true), Rejected)]
  {
    var t := new StrictThrottle(1, 50);
    var _ := t.Call(Fn(Work(1, true)), 1000, 1000);
    var _ := t.Call(Fn(Work(2, true)), 1000, 1000);
    var _ := t.Fire(0, 1050);
    settled := t.settled;
  }

  /** A non-function argument throws and leaves the throttle as it was. */
  method RejectsNonFunction() returns (r: CallResult, waiting: nat, ghost starts: seq<int>)
    ensures r == InvalidArgument && waiting == 0 && starts == []
  {
    var t := new StrictThrottle(1, 100);
    r := t.Call(NotAFunction, 1000, 1000);
    waiting := t.WaitingCount();
    starts := t.Executions();
  }

  /** limit 1, interval 100: three calls at 1000; the first runs, two wait. */
  method ThreeCalls() returns (t: StrictThrottle, counts: seq<nat>)
    ensures fresh(t) && fresh(t.recentTicks) && t.Safe() && t.limit == 1 && t.interval == 100
    ensures t.log == [0, 1000] && t.clock == 1000
    ensures t.queue == [Work(2, false), Work(3, false)] && t.pending == [After(1000, 100, 0)]
    ensures t.timerId == Some(0) && t.issued == 1
    ensures t.settled == [Settlement(Work(1, false), Fulfilled)]
    ensures counts == [0, 0, 1, 2]
  {
    t := new StrictThrottle(1, 100);
    counts := [t.WaitingCount()];
    var _ := t.Call(Fn(Work(1, false)), 1000, 1000);
    assert t.log == [0, 1000] && t.queue == [];
    counts := counts + [t.WaitingCount()];
    var _ := t.Call(Fn(Work(2, false)), 1000, 1000);
    assert t.pending == [After(1000, 100, 0)] && |t.queue| == 1;
    counts := counts + [t.WaitingCount()];
    var _ := t.Call(Fn(Work(3, false)), 1000, 1000);
    counts := counts + [t.WaitingCount()];
  }

  /** The same three calls, then the two timer firings drain the queue. */
  method WaitingCounts() returns (counts: seq<nat>)
    ensures counts == [0, 0, 1, 2, 1, 0]
  {
    var t;
    t, counts := ThreeCalls();
    var _ := t.Fire(0, 1100);
    assert t.log == [0, 1000, 1100] && |t.queue| == 1;
    assert t.pending == [After(1100, 100, 1)];
    counts := counts + [t.WaitingCount()];
    var _ := t.Fire(0, 1200);
    counts := counts + [t.WaitingCount()];
  }

  /** limit 1, interval 100, three calls, then abort: the call that ran is
      fulfilled, both waiting ones are aborted, and nothing is left pending. */
  method AbortsPendingCalls() returns (settled: seq<Settlement>, waitingBefore: nat, waitingAfter: nat, armed: seq<Timer>)
    ensures waitingBefore == 2 && waitingAfter == 0 && armed == []
    ensures settled == [Settlement(Work(1, false), Fulfilled),
                        Settlement(Work(2, false), Aborted),
                        Settlement(Work(3, false), Aborted)]
  {
    var t, _ := ThreeCalls();
    waitingBefore := t.WaitingCount();
    t.Abort();
    waitingAfter := t.WaitingCount();
    settled := t.settled;
    armed := t.pending;
  }

  /** limit 2, interval 100: two calls at 1000 both run at once. */
  method TwoCalls() returns (t: StrictThrottle)
    ensures fresh(t) && fresh(t.recentTicks) && t.Safe() && t.limit == 2 && t.interval == 100
    ensures t.log == [0, 0, 1000, 1000] && t.clock == 1000
    ensures t.queue == [] && t.pending == [] && t.timerId == None && t.issued == 0
    ensures t.settled == [Settlement(Work(1, false), Fulfilled), Settlement(Work(2, false), Fulfilled)]
  {
    t := new StrictThrottle(2, 100);
    var _ := t.Call(Fn(Work(1, false)), 1000, 1000);
    assert t.log == [0, 0, 1000] && t.queue == [];
    var _ := t.Call(Fn(Work(2, false)), 1000, 1000);
  }

  /** Two more calls at 1000 wait; the first of them arms the timer for 1100. */
  method FourCalls() returns (t: StrictThrottle)
    ensures fresh(t) && fresh(t.recentTicks) && t.Safe() && t.limit == 2 && t.interval == 100
    ensures t.log == [0, 0, 1000, 1000] && t.clock == 1000
    ensures t.queue == [Work(3, false), Work(4, false)]
    ensures t.pending == [After(1000, 100, 0)] && t.timerId == Some(0) && t.issued == 1
    ensures t.settled == [Settlement(Work(1, false), Fulfilled), Settlement(Work(2, false), Fulfilled)]
  {
    t := TwoCalls();
    var _ := t.Call(Fn(Work(3, false)), 1000, 1000);
    assert t.pending == [After(1000, 100, 0)] && |t.queue| == 1;
    var _ := t.Call(Fn(Work(4, false)), 1000, 1000);
  }

  /** The timeout of the four-call run fires at 1100 and runs the third call. The
      second call's start at 1000 has then left the window, so the drain for the
      fourth call is armed for the next turn of the event loop. */
  method FirstDrain() returns (t: StrictThrottle)
    ensures fresh(t) && fresh(t.recentTicks) && t.Safe() && t.limit == 2 && t.interval == 100
    ensures t.log == [0, 0, 1000, 1000, 1100] && t.clock == 1100
    ensures t.queue == [Work(4, false)]
    ensures t.pending == [Immediate(1100)] && t.timerId == Some(0) && t.issued == 1
    ensures t.settled == [Settlement(Work(1, false), Fulfilled),
                          Settlement(Work(2, false), Fulfilled),
                          Settlement(Work(3, false), Fulfilled)]
  {
    t := FourCalls();
    var _ := t.Fire(0, 1100);
  }

  /** After the first drain, `abort` runs before the next turn (from a
      continuation of the third call's result, say). With the code as written
      the next-turn drain still fires: on the empty queue it records a start that
      runs nothing and throws out of the callback. */
  method AbortBeforeNextTurn() returns (leftPending: seq<Timer>, drained: Drain, ghost starts: seq<int>, settled: seq<Settlement>)
    ensures leftPending == [Immediate(1100)]
    ensures drained == Crashed
    ensures starts == [1000, 1000, 1100, 1100]
    ensures settled == [Settlement(Work(1, false), Fulfilled),
                        Settlement(Work(2, false), Fulfilled),
                        Settlement(Work(3, false), Fulfilled),
                        Settlement(Work(4, false), Aborted)]
  {
    var t := FirstDrain();
    t.AbortAsWritten();
    leftPending := t.pending;
    drained := t.Fire(0, 1100);
    starts := t.Executions();
    settled := t.settled;
  }

  /** The same run with `abort` cancelling whatever drain is pending: nothing is
      left to fire and the waiting call is aborted. */
  method AbortBeforeNextTurnCancels() returns (leftPending: seq<Timer>, waiting: nat, settled: seq<Settlement>)
    ensures leftPending == [] && waiting == 0
    ensures settled == [Settlement(Work(1, false), Fulfilled),
                        Settlement(Work(2, false), Fulfilled),
                        Settlement(Work(3, false), Fulfilled),
                        Settlement(Work(4, false), Aborted)]
  {
    var t := FirstDrain();
    t.Abort();
    leftPending := t.pending;
    waiting := t.WaitingCount();
    settled := t.settled;
  }

  /** The run of `AbortBeforeNextTurn` up to the as-written abort: the queue is
      empty, the fourth call aborted, and the next-turn drain still armed. */
  method AbortedWithStaleDrain() returns (t: StrictThrottle)
    ensures fresh(t) && fresh(t.recentTicks) && t.Valid() && t.limit == 2 && t.interval == 100
    ensures t.log == [0, 0, 1000, 1000, 1100] && t.clock == 1100
    ensures t.queue == [] && t.pending == [Immediate(1100)] && t.timerId == None && t.issued == 1
    ensures !t.Safe()
  {
    t := FirstDrain();
    t.AbortAsWritten();
  }

  /** After the as-written abort, two calls at 1100: the first runs at once (the
      window was open), the second waits and arms a timeout for 1200 beside the
      stale next-turn drain. */
  method CallsAfterStaleAbort() returns (t: StrictThrottle, fifth: CallResult, sixth: CallResult)
    ensures fresh(t) && fresh(t.recentTicks) && t.Valid() && t.limit == 2 && t.interval == 100
    ensures fifth == RanNow && sixth == Queued
    ensures t.log == [0, 0, 1000, 1000, 1100, 1100] && t.clock == 1100
    ensures t.queue == [Work(6, false)] && t.pending == [Immediate(1100), After(1100, 100, 1)]
  {
    t := AbortedWithStaleDrain();
    fifth := t.Call(Fn(Work(5, false)), 1100, 1100);
    assert t.log == [0, 0, 1000, 1000, 1100, 1100] && t.queue == [];
    sixth := t.Call(Fn(Work(6, false)), 1100, 1100);
  }

  /** The stale drain then runs the sixth call at 1100 too, so the third, fifth and
      sixth calls all start at 1100 although the limit is two per interval. The
      timeout fires at 1200 on an empty queue and crashes. */
  method StaleDrainBreaksLimit() returns (drained: Drain, late: Drain, ghost starts: seq<int>)
    ensures drained == Ran(Work(6, false)) && late == Crashed
    ensures starts == [1000, 1000, 1100, 1100, 1100, 1200]
    ensures starts[4] - starts[2] < 100
  {
    var t, _, _ := CallsAfterStaleAbort();
    drained := t.Fire(0, 1100);
    assert t.log == [0, 0, 1000, 1000, 1100, 1100, 1100] && t.queue == [];
    assert t.pending == [After(1100, 100, 1)];
    late := t.Fire(0, 1200);
    starts := t.Executions();
  }

  /** limit 1, interval 100: a call at 1000 runs; the next is refused admission at
      1099, but the second clock read at 1100 finds the window open, so its drain
      is armed for the next turn, which `abort` as written cannot cancel. */
  method LateReadArmsNextTurn() returns (second: CallResult, armed: seq<Timer>, left: seq<Timer>)
    ensures second == Queued && armed == [Immediate(1100)] && left == [Immediate(1100)]
  {
    var t := new StrictThrottle(1, 100);
    var _ := t.Call(Fn(Work(1, false)), 1000, 1000);
    assert t.log == [0, 1000] && t.queue == [];
    second := t.Call(Fn(Work(2, false)), 1099, 1100);
    armed := t.pending;
    t.AbortAsWritten();
    left := t.pending;
  }
}
