/**
 * The fixed-window rate limiter (`rateLimit`): one bucket per key holding the number of
 * admitted calls and the end of the current window. The clock reading `Date.now()` is a
 * parameter.
 */
module RateLimit {
  import opened Wrappers

  datatype Bucket = Bucket(count: int, resetAt: int)

  datatype RateResult = RateResult(ok: bool, remaining: int, resetAt: int)

  /** A bucket whose window has not ended at `now`. */
  predicate Live(current: Bucket, now: int) {
    now < current.resetAt
  }

  /** The decision for one call and the bucket it leaves behind. */
  function Decide(current: Option<Bucket>, limit: int, windowMs: int, now: int): (d: (RateResult, Bucket))
    // no bucket or an expired one: a new window with one call in it
    ensures (current.None? || !Live(current.value, now)) ==>
      d.1 == Bucket(1, now + windowMs) && d.0 == RateResult(true, limit - 1, now + windowMs)
    // a live window that is full: refused, bucket untouched
    ensures current.Some? && Live(current.value, now) && current.value.count >= limit ==>
      d.0 == RateResult(false, 0, current.value.resetAt) && d.1 == current.value
    // a live window with room: admitted and counted, the window end kept
    ensures current.Some? && Live(current.value, now) && current.value.count < limit ==>
      && d.1 == current.value.(count := current.value.count + 1)
      && d.0.ok && d.0.resetAt == current.value.resetAt
      && d.0.remaining == (if limit - d.1.count > 0 then limit - d.1.count else 0)
    ensures d.0.resetAt == d.1.resetAt
    ensures d.0.ok ==> d.0.remaining == limit - d.1.count || d.0.remaining == 0
  {
    if current.None? || current.value.resetAt <= now then
      var next := Bucket(1, now + windowMs);
      (RateResult(true, limit - 1, next.resetAt), next)
    else if current.value.count >= limit then
      (RateResult(false, 0, current.value.resetAt), current.value)
    else
      var counted := current.value.(count := current.value.count + 1);
      (RateResult(true, Max(0, limit - counted.count), counted.resetAt), counted)
  }

  function Max(a: int, b: int): int {
    if a >= b then a else b
  }

  function Min(a: int, b: int): int {
    if a <= b then a else b
  }

  /** The module-level `buckets` Map. */
  class RateLimiter {
    var buckets: map<string, Bucket>

    constructor ()
      ensures buckets == map[]
    {
      buckets := map[];
    }

    function Current(key: string): Option<Bucket>
      reads this
    {
      if key in buckets then Some(buckets[key]) else None
    }

    /** `rateLimit(key, limit, windowMs)` at time `now`: only `key`'s bucket changes. */
    method Check(key: string, limit: int, windowMs: int, now: int) returns (r: RateResult)
      modifies this
      ensures key in buckets
      ensures (r, buckets[key]) == Decide(old(Current(key)), limit, windowMs, now)
      ensures buckets == old(buckets)[key := buckets[key]]
    {
      var current := if key in buckets then Some(buckets[key]) else None;
      if current.None? || current.value.resetAt <= now {
        var next := Bucket(1, now + windowMs);
        buckets := buckets[key := next];
        r := RateResult(true, limit - 1, next.resetAt);
        return;
      }
      if current.value.count >= limit {
        r := RateResult(false, 0, current.value.resetAt);
        return;
      }
      var counted := current.value.(count := current.value.count + 1);
      buckets := buckets[key := counted];
      r := RateResult(true, Max(0, limit - counted.count), counted.resetAt);
    }
  }

  // ---- several calls on one key ----

  /** The calls of one key at times `times`, in order: how many were admitted, and the
      final bucket. */
  function Run(current: Option<Bucket>, limit: int, windowMs: int, times: seq<int>): (out: (nat, Option<Bucket>))
    ensures out.0 <= |times|
    ensures times != [] ==> out.1.Some?
    ensures times == [] ==> out == (0, current)
    decreases |times|
  {
    if times == [] then (0, current)
    else
      var d := Decide(current, limit, windowMs, times[0]);
      var rest := Run(Some(d.1), limit, windowMs, times[1..]);
      ((if d.0.ok then 1 else 0) + rest.0, rest.1)
  }

  /** Inside a live window the window end stays put, the count only grows up to
      `max(limit, 1)`, and every admitted call is counted. */
  lemma {:induction false} LiveWindowRun(b: Bucket, limit: int, windowMs: int, times: seq<int>)
    requires 1 <= b.count <= Max(limit, 1)
    requires forall k | 0 <= k < |times| :: times[k] < b.resetAt
    ensures var out := Run(Some(b), limit, windowMs, times);
      && out.1.Some? && out.1.value.resetAt == b.resetAt
      && out.1.value.count == b.count + out.0 <= Max(limit, 1)
      && out.0 == Min(|times|, Max(limit, 1) - b.count)
    decreases |times|
  {
    if times != [] {
      var d := Decide(Some(b), limit, windowMs, times[0]);
      assert Live(b, times[0]);
      LiveWindowRun(d.1, limit, windowMs, times[1..]);
    }
  }

  /** Calls that all fall before the end of the window the first one opens: the first
      `max(limit, 1)` of them are admitted and the rest refused, whatever state the key was in. */
  lemma AdmittedPerWindow(current: Option<Bucket>, limit: int, windowMs: int, times: seq<int>)
    requires times != [] && (current.Some? ==> !Live(current.value, times[0]))
    requires forall k | 0 <= k < |times| :: times[k] < times[0] + windowMs
    ensures Run(current, limit, windowMs, times).0 == Min(|times|, Max(limit, 1))
  {
    var first := Bucket(1, times[0] + windowMs);
    forall k | 0 <= k < |times[1..]|
      ensures times[1..][k] < first.resetAt
    {
      assert times[1..][k] == times[k + 1];
    }
    LiveWindowRun(first, limit, windowMs, times[1..]);
  }

  /** A refused call changes nothing, so refusals repeat until the window ends. */
  lemma RefusalRepeats(b: Bucket, limit: int, windowMs: int, now: int, later: int)
    requires now <= later < b.resetAt
    requires !Decide(Some(b), limit, windowMs, now).0.ok
    ensures Decide(Some(b), limit, windowMs, now).1 == b
    ensures !Decide(Some(b), limit, windowMs, later).0.ok
  {
  }

  /** Limit 2 in a 1000 ms window: admitted, admitted, refused. */
  method RateLimitExample() {
    var limiter := new RateLimiter();
    var first := limiter.Check("ip:1.1.1.1", 2, 1000, 5000);
    var second := limiter.Check("ip:1.1.1.1", 2, 1000, 5001);
    var third := limiter.Check("ip:1.1.1.1", 2, 1000, 5002);
    assert first.ok && second.ok && !third.ok;
    assert first.remaining == 1 && second.remaining == 0 && third.remaining == 0;
    assert third.resetAt == 6000;
  }
}
