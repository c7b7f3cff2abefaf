/** Facts about the sequence of execution start times.

    An execution log is the sequence of timestamps the throttle has recorded, in
    recording order, preceded by `limit` sentinel zeros (the initial contents of the
    history buffer). The rate-limit promise is that every entry is at least
    `interval` later than the entry `limit` positions before it. */
module History {

  /** The k-th entry is no earlier than the one before it. */
  ghost predicate Rises(log: seq<int>, k: int)
    requires 0 < k < |log|
  {
    log[k - 1] <= log[k]
  }

  /** Each timestamp is no earlier than the one before it (the clock never runs back). */
  ghost predicate NonDecreasing(log: seq<int>) {
    forall k :: 0 < k < |log| ==> Rises(log, k)
  }

  lemma {:induction false} Monotone(log: seq<int>, i: int, j: int)
    requires NonDecreasing(log)
    requires 0 <= i <= j < |log|
    ensures log[i] <= log[j]
    decreases j - i
  {
    if i < j {
      Monotone(log, i, j - 1);
      assert Rises(log, j);
    }
  }

  /** Appending a time no earlier than the last entry keeps the log non-decreasing. */
  lemma AppendNonDecreasing(log: seq<int>, now: int)
    requires NonDecreasing(log) && |log| > 0 && log[|log| - 1] <= now
    ensures NonDecreasing(log + [now])
  {
    var log' := log + [now];
    forall k | 0 < k < |log'|
      ensures Rises(log', k)
    {
      if k < |log| {
        assert Rises(log, k);
      }
    }
  }

  /** The time from the entry `limit` positions before the j-th to the j-th. */
  ghost function Gap(log: seq<int>, j: int, limit: nat): int
    requires limit <= j < |log|
  {
    log[j] - log[j - limit]
  }

  /** Every entry is at least `interval` after the one `limit` positions earlier. */
  ghost predicate RateLimited(log: seq<int>, limit: nat, interval: int) {
    forall j :: limit <= j < |log| ==> Gap(log, j, limit) >= interval
  }

  /** Recording `now` keeps the log rate-limited exactly when `now` is at least
      `interval` after the entry that leaves the window of the last `limit`. */
  lemma AppendRateLimited(log: seq<int>, limit: nat, interval: int, now: int)
    requires RateLimited(log, limit, interval)
    requires 0 < limit <= |log|
    ensures RateLimited(log + [now], limit, interval) <==> now - log[|log| - limit] >= interval
  {
    var log' := log + [now];
    if now - log[|log| - limit] >= interval {
      forall j | limit <= j < |log'|
        ensures Gap(log', j, limit) >= interval
      {
        if j < |log| {
          assert Gap(log', j, limit) == Gap(log, j, limit);
        }
      }
    } else {
      assert Gap(log', |log|, limit) < interval;
    }
  }

  /** Any two entries at least `limit` positions apart are at least `interval` apart. */
  lemma Spacing(log: seq<int>, limit: nat, interval: int, i: int, j: int)
    requires NonDecreasing(log) && RateLimited(log, limit, interval)
    requires 0 <= i && i + limit <= j < |log|
    ensures log[j] - log[i] >= interval
  {
    assert Gap(log, i + limit, limit) >= interval;
    Monotone(log, i + limit, j);
  }

  /** A window of length `interval`, one end open, holds fewer than `limit + 1` entries:
      when the i-th and the j-th entry both lie in (t - interval, t], they are fewer
      than `limit` positions apart. */
  lemma AtMostLimitPerWindow(log: seq<int>, limit: nat, interval: int, t: int, i: int, j: int)
    requires NonDecreasing(log) && RateLimited(log, limit, interval)
    requires 0 <= i <= j < |log|
    requires t - interval < log[i] && log[j] <= t
    ensures j - i < limit
  {
    if j - i >= limit {
      Spacing(log, limit, interval, i, j);
    }
  }

  /** After m full rounds of `limit` entries, at least m intervals have passed. */
  lemma {:induction false} RoundsDelay(log: seq<int>, limit: nat, interval: int, m: nat, k: int)
    requires NonDecreasing(log) && RateLimited(log, limit, interval)
    requires m * limit <= k < |log|
    ensures log[k] - log[0] >= m * interval
  {
    if m == 0 {
      Monotone(log, 0, k);
    } else {
      assert (m - 1) * limit == m * limit - limit;
      RoundsDelay(log, limit, interval, m - 1, k - limit);
      assert Gap(log, k, limit) >= interval;
      assert (m - 1) * interval == m * interval - interval;
    }
  }

  /** The k-th entry is at least floor(k / limit) intervals after the first. */
  lemma BurstDelay(log: seq<int>, limit: nat, interval: int, k: int)
    requires limit > 0
    requires NonDecreasing(log) && RateLimited(log, limit, interval)
    requires 0 <= k < |log|
    ensures log[k] - log[0] >= (k / limit) * interval
  {
    assert (k / limit) * limit <= k;
    RoundsDelay(log, limit, interval, k / limit, k);
  }
}
