/**
 * lib/rate-limiter.ts: a fixed-window attempt counter per key, kept in a
 * process-wide map that `rateLimit` reads and updates in place.
 */
module RateLimiter {
  import opened Wrappers

  const DefaultMaxAttempts: int := 5
  const DefaultWindowMs: int := 15 * 60 * 1000

  /** The stored entry `{count, resetTime}` of a key. */
  datatype Window = Window(count: int, resetTime: int)

  /** The object `rateLimit` returns; `resetTime` is present only on a denial. */
  datatype Verdict = Verdict(success: bool, remaining: int, resetTime: Option<int>)

  /** Every stored count is at most `maxAttempts`. */
  ghost predicate CountsBounded(attempts: map<string, Window>, maxAttempts: int)
  {
    forall k :: k in attempts ==> attempts[k].count <= maxAttempts
  }

  /** Every stored count is at least one: an entry is only created by a first attempt. */
  ghost predicate CountsPositive(attempts: map<string, Window>)
  {
    forall k :: k in attempts ==> attempts[k].count >= 1
  }

  /** One call `rateLimit(key, maxAttempts, windowMs)` at time `now`: the new map and the verdict. */
  function Step(attempts: map<string, Window>, key: string, maxAttempts: int, windowMs: int, now: int)
    : (r: (map<string, Window>, Verdict))
    ensures key in r.0
    ensures forall k :: k != key ==> (k in r.0 <==> k in attempts)
    ensures forall k :: k != key && k in attempts ==> r.0[k] == attempts[k]
    ensures r.1.success <==> key !in attempts || now > attempts[key].resetTime || attempts[key].count < maxAttempts
    ensures r.1.resetTime.Some? <==> !r.1.success
    ensures maxAttempts >= 1 && CountsBounded(attempts, maxAttempts) ==> CountsBounded(r.0, maxAttempts)
    ensures CountsPositive(attempts) ==> CountsPositive(r.0)
    ensures maxAttempts >= 1 && CountsPositive(attempts) ==> 0 <= r.1.remaining < maxAttempts
    ensures r.1.success ==> r.1.remaining == maxAttempts - r.0[key].count
    ensures key !in attempts || now > attempts[key].resetTime ==> r.0[key] == Window(1, now + windowMs)
    ensures key in attempts && now <= attempts[key].resetTime && attempts[key].count < maxAttempts ==>
      r.0[key] == Window(attempts[key].count + 1, attempts[key].resetTime)
    ensures !r.1.success ==>
      key in attempts && r.0 == attempts && r.1.remaining == 0 && r.1.resetTime == Some(attempts[key].resetTime)
  {
    if key !in attempts || now > attempts[key].resetTime then
      (attempts[key := Window(1, now + windowMs)], Verdict(true, maxAttempts - 1, None))
    else if attempts[key].count >= maxAttempts then
      (attempts, Verdict(false, 0, Some(attempts[key].resetTime)))
    else
      var w := attempts[key];
      (attempts[key := w.(count := w.count + 1)], Verdict(true, maxAttempts - (w.count + 1), None))
  }

  /** The success flags of successive calls for one key at the given times. */
  function Replay(attempts: map<string, Window>, key: string, maxAttempts: int, windowMs: int, times: seq<int>)
    : (r: seq<bool>)
    ensures |r| == |times|
    decreases |times|
  {
    if times == [] then []
    else
      var (next, verdict) := Step(attempts, key, maxAttempts, windowMs, times[0]);
      [verdict.success] + Replay(next, key, maxAttempts, windowMs, times[1..])
  }

  /**
   * Inside a running window that already counts `count` attempts, the next
   * `maxAttempts - count` calls succeed and every later one is denied.
   */
  lemma {:induction false} ReplayInWindow(attempts: map<string, Window>, key: string, maxAttempts: int, windowMs: int, times: seq<int>)
    requires key in attempts && attempts[key].count >= 1
    requires forall k :: 0 <= k < |times| ==> times[k] <= attempts[key].resetTime
    ensures forall k :: 0 <= k < |times| ==>
      Replay(attempts, key, maxAttempts, windowMs, times)[k] == (attempts[key].count + k < maxAttempts)
    decreases |times|
  {
    if times != [] {
      var (next, verdict) := Step(attempts, key, maxAttempts, windowMs, times[0]);
      var w := attempts[key];
      var r := Replay(attempts, key, maxAttempts, windowMs, times);
      assert r == [verdict.success] + Replay(next, key, maxAttempts, windowMs, times[1..]);
      if w.count >= maxAttempts {
        assert next == attempts;
      } else {
        assert next[key] == Window(w.count + 1, w.resetTime);
      }
      ReplayInWindow(next, key, maxAttempts, windowMs, times[1..]);
      forall k | 0 <= k < |times| ensures r[k] == (w.count + k < maxAttempts) {
        if k > 0 {
          assert r[k] == Replay(next, key, maxAttempts, windowMs, times[1..])[k - 1];
        }
      }
    }
  }

  /**
   * Calls made within one window, the first of which opens it, succeed
   * exactly for the first `maxAttempts` of them.
   */
  lemma {:induction false} WindowAdmitsMaxAttempts(attempts: map<string, Window>, key: string, maxAttempts: int, windowMs: int, times: seq<int>)
    requires maxAttempts >= 1
    requires |times| >= 1
    requires key !in attempts || times[0] > attempts[key].resetTime
    requires forall k :: 0 <= k < |times| ==> times[k] <= times[0] + windowMs
    ensures forall k :: 0 <= k < |times| ==>
      Replay(attempts, key, maxAttempts, windowMs, times)[k] == (k < maxAttempts)
  {
    var (next, verdict) := Step(attempts, key, maxAttempts, windowMs, times[0]);
    assert next[key] == Window(1, times[0] + windowMs);
    var r := Replay(attempts, key, maxAttempts, windowMs, times);
    assert r == [verdict.success] + Replay(next, key, maxAttempts, windowMs, times[1..]);
    ReplayInWindow(next, key, maxAttempts, windowMs, times[1..]);
    forall k | 0 <= k < |times| ensures r[k] == (k < maxAttempts) {
      if k > 0 {
        assert r[k] == Replay(next, key, maxAttempts, windowMs, times[1..])[k - 1];
      }
    }
  }

  /** With the defaults (5 attempts per 15 minutes), the sixth call within the window is denied. */
  lemma SixthAttemptDenied(attempts: map<string, Window>, key: string, times: seq<int>)
    requires |times| == 6
    requires key !in attempts || times[0] > attempts[key].resetTime
    requires forall k :: 0 <= k < 6 ==> times[k] <= times[0] + DefaultWindowMs
    ensures Replay(attempts, key, DefaultMaxAttempts, DefaultWindowMs, times) == [true, true, true, true, true, false]
  {
    WindowAdmitsMaxAttempts(attempts, key, DefaultMaxAttempts, DefaultWindowMs, times);
  }

  /** The module-level `attempts` map and the `rateLimit` function that updates it. */
  class Limiter {
    var attempts: map<string, Window>

    constructor ()
      ensures attempts == map[]
    {
      attempts := map[];
    }

    method RateLimit(key: string, maxAttempts: int, windowMs: int, now: int) returns (r: Verdict)
      modifies this
      ensures (attempts, r) == Step(old(attempts), key, maxAttempts, windowMs, now)
      ensures key !in old(attempts) || now > old(attempts)[key].resetTime ==>
        attempts == old(attempts)[key := Window(1, now + windowMs)] && r == Verdict(true, maxAttempts - 1, None)
      ensures key in old(attempts) && now <= old(attempts)[key].resetTime && old(attempts)[key].count >= maxAttempts ==>
        attempts == old(attempts) && r == Verdict(false, 0, Some(old(attempts)[key].resetTime))
      ensures key in old(attempts) && now <= old(attempts)[key].resetTime && old(attempts)[key].count < maxAttempts ==>
        attempts == old(attempts)[key := old(attempts)[key].(count := old(attempts)[key].count + 1)]
        && r == Verdict(true, maxAttempts - attempts[key].count, None)
    {
      if key !in attempts || now > attempts[key].resetTime {
        attempts := attempts[key := Window(1, now + windowMs)];
        return Verdict(true, maxAttempts - 1, None);
      }
      var userAttempts := attempts[key];
      if userAttempts.count >= maxAttempts {
        return Verdict(false, 0, Some(userAttempts.resetTime));
      }
      attempts := attempts[key := userAttempts.(count := userAttempts.count + 1)];
      r := Verdict(true, maxAttempts - attempts[key].count, None);
    }
  }
}
