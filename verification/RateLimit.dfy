/** The process-local and the Redis-backed rate limiters (apps/api/security.py). Times are microseconds. */
module RateLimit {
  import opened Seqs

  const SECOND: int := 1_000_000

  datatype RateLimitResult = RateLimitResult(allowed: bool, limit: int, remaining: int, retryAfterSeconds: int)

  function Max(a: int, b: int): int {
    if a > b then a else b
  }

  /* The local limiter: one list of admission times per key. */

  function Within(now: int, window: int): int -> bool {
    (t: int) => now - t < window
  }

  function Active(times: seq<int>, now: int, window: int): seq<int> {
    Filter(Within(now, window), times)
  }

  function Admits(times: seq<int>, now: int, limit: int, window: int): bool {
    |Active(times, now, window)| < limit
  }

  function TimesAfter(times: seq<int>, now: int, limit: int, window: int): seq<int> {
    Active(times, now, window) + if Admits(times, now, limit, window) then [now] else []
  }

  function LocalResult(times: seq<int>, now: int, limit: int, window: int): RateLimitResult {
    var active := Active(times, now, window);
    if |active| < limit then RateLimitResult(true, limit, limit - (|active| + 1), 0)
    else RateLimitResult(false, limit, 0,
                         Max(1, if active == [] then 0 else (window - (now - active[0])) / SECOND))
  }

  class FixedWindowRateLimiter {
    const limit: int
    const window: int
    var requests: map<string, seq<int>>

    constructor (limit: int, window: int)
      requires limit >= 1 && window > 0
      ensures this.limit == limit && this.window == window && requests == map[]
    {
      this.limit, this.window, requests := limit, window, map[];
    }

    function Times(key: string): seq<int>
      reads this
    {
      if key in requests then requests[key] else []
    }

    method Check(key: string, now: int) returns (result: RateLimitResult)
      requires limit >= 1
      modifies this
      ensures requests == old(requests)[key := TimesAfter(old(Times(key)), now, limit, window)]
      ensures result == LocalResult(old(Times(key)), now, limit, window)
    {
      var active := Filter(Within(now, window), Times(key));
      requests := requests[key := active];
      if |active| >= limit {
        var retryAfter := Max(1, (window - (now - active[0])) / SECOND);
        assert active + [] == active;
        return RateLimitResult(false, limit, 0, retryAfter);
      }
      active := active + [now];
      requests := requests[key := active];
      result := RateLimitResult(true, limit, limit - |active|, 0);
    }
  }

  /** One key after a series of checks: what the limiter still remembers, and all that was ever admitted. */
  datatype Trace = Trace(times: seq<int>, admitted: seq<int>)

  function AfterChecks(checks: seq<int>, limit: int, window: int): Trace {
    if checks == [] then Trace([], [])
    else
      var last := |checks| - 1;
      var before := AfterChecks(checks[..last], limit, window);
      var now := checks[last];
      Trace(TimesAfter(before.times, now, limit, window),
            if Admits(before.times, now, limit, window) then before.admitted + [now] else before.admitted)
  }

  ghost predicate NonDecreasing(xs: seq<int>) {
    forall i, j :: 0 <= i <= j < |xs| ==> xs[i] <= xs[j]
  }

  /** Admissions that are a whole quota apart are a whole window apart. */
  ghost predicate Spaced(admitted: seq<int>, limit: nat, window: int) {
    forall i, j :: 0 <= i && i + limit <= j < |admitted| ==> admitted[j] - admitted[i] >= window
  }

  /** The list remembers the latest admissions; those forgotten are outside the window. */
  ghost predicate Remembers(t: Trace, limit: nat, window: int, now: int) {
    && NonDecreasing(t.admitted) && (forall x | x in t.admitted :: x <= now)
    && |t.times| <= limit && |t.times| <= |t.admitted|
    && t.times == t.admitted[|t.admitted| - |t.times|..]
    && (forall i :: 0 <= i < |t.admitted| - |t.times| ==> now - t.admitted[i] >= window)
    && Spaced(t.admitted, limit, window)
  }

  /** In a list in time order, what is still within the window is the tail. */
  lemma {:induction false} ActiveIsTail(times: seq<int>, now: int, window: int)
    requires NonDecreasing(times)
    ensures var active := Active(times, now, window);
            && |active| <= |times| && active == times[|times| - |active|..]
            && (forall i :: 0 <= i < |times| - |active| ==> now - times[i] >= window)
            && (forall i :: |times| - |active| <= i < |times| ==> now - times[i] < window)
  {
    if times != [] {
      ActiveIsTail(times[1..], now, window);
      if now - times[0] < window {
        assert forall i :: 0 <= i < |times[1..]| ==> now - times[1..][i] < window;
        assert Active(times[1..], now, window) == times[1..];
      }
    }
  }

  /** Dropping what has left the window: still the tail of what was admitted. */
  lemma StillRemembers(t: Trace, limit: nat, window: int, before: int, now: int)
    requires Remembers(t, limit, window, before) && before <= now
    ensures Remembers(Trace(Active(t.times, now, window), t.admitted), limit, window, now)
  {
    ActiveIsTail(t.times, now, window);
    var active := Active(t.times, now, window);
    var cut := |t.admitted| - |t.times|;
    assert active == t.admitted[|t.admitted| - |active|..];
    forall i | 0 <= i < |t.admitted| - |active|
      ensures now - t.admitted[i] >= window
    {
      if i >= cut {
        assert t.times[i - cut] == t.admitted[i];
      }
    }
  }

  lemma AdmitRemembers(t: Trace, limit: nat, window: int, now: int)
    requires Remembers(t, limit, window, now) && |t.times| < limit
    ensures Remembers(Trace(t.times + [now], t.admitted + [now]), limit, window, now)
  {
    NonDecreasingAppend(t.admitted, now);
    SpacedAppend(t, limit, window, now);
  }

  lemma SpacedAppend(t: Trace, limit: nat, window: int, now: int)
    requires Spaced(t.admitted, limit, window) && |t.times| < limit
    requires forall i :: 0 <= i < |t.admitted| - |t.times| ==> now - t.admitted[i] >= window
    ensures Spaced(t.admitted + [now], limit, window)
  {
    var admitted' := t.admitted + [now];
    forall i, j | 0 <= i && i + limit <= j < |admitted'|
      ensures admitted'[j] - admitted'[i] >= window
    {
      assert j == |t.admitted| ==> now - t.admitted[i] >= window;
    }
  }

  lemma CheckRemembers(t: Trace, limit: nat, window: int, before: int, now: int)
    requires Remembers(t, limit, window, before) && before <= now && limit >= 1
    ensures var admits := Admits(t.times, now, limit, window);
            Remembers(Trace(TimesAfter(t.times, now, limit, window),
                            if admits then t.admitted + [now] else t.admitted), limit, window, now)
  {
    var kept := Trace(Active(t.times, now, window), t.admitted);
    StillRemembers(t, limit, window, before, now);
    if |kept.times| < limit {
      AdmitRemembers(kept, limit, window, now);
    } else {
      assert kept.times + [] == kept.times;
    }
  }

  lemma {:induction false} ChecksRemember(checks: seq<int>, limit: nat, window: int, now: int)
    requires NonDecreasing(checks) && limit >= 1 && (checks != [] ==> checks[|checks| - 1] <= now)
    ensures Remembers(AfterChecks(checks, limit, window), limit, window,
                      if checks == [] then now else checks[|checks| - 1])
  {
    if checks != [] {
      var last := |checks| - 1;
      var before := if last == 0 then checks[last] else checks[last - 1];
      ChecksRemember(checks[..last], limit, window, checks[last]);
      assert last == 0 ==> Remembers(AfterChecks(checks[..last], limit, window), limit, window, before);
      CheckRemembers(AfterChecks(checks[..last], limit, window), limit, window, before, checks[last]);
    }
  }

  function Under(y: int): int -> bool {
    (t: int) => t < y
  }

  function Between(x: int, y: int): int -> bool {
    (t: int) => x <= t < y
  }

  lemma {:induction false} CountBetween(xs: seq<int>, x: int, y: int)
    requires x <= y
    ensures |Filter(Between(x, y), xs)| == |Filter(Under(y), xs)| - |Filter(Under(x), xs)|
  {
    if xs != [] {
      CountBetween(xs[1..], x, y);
    }
  }

  lemma {:induction false} CountUnder(xs: seq<int>, y: int)
    requires NonDecreasing(xs)
    ensures |Filter(Under(y), xs)| <= |xs|
    ensures forall i :: 0 <= i < |xs| ==> (xs[i] < y <==> i < |Filter(Under(y), xs)|)
  {
    if xs != [] {
      CountUnder(xs[1..], y);
      if xs[0] >= y {
        FilterNone(Under(y), xs[1..]);
      }
      assert forall i :: 1 <= i < |xs| ==> xs[i] == xs[1..][i - 1];
    }
  }

  lemma SpacedCount(admitted: seq<int>, limit: nat, window: int, x: int)
    requires NonDecreasing(admitted) && Spaced(admitted, limit, window) && window > 0
    ensures |Filter(Between(x, x + window), admitted)| <= limit
  {
    CountBetween(admitted, x, x + window);
    CountUnder(admitted, x);
    CountUnder(admitted, x + window);
    var a, b := |Filter(Under(x), admitted)|, |Filter(Under(x + window), admitted)|;
    if a + limit < |admitted| {
      assert admitted[a] >= x && admitted[a + limit] - admitted[a] >= window;
    }
  }

  /** With a clock that does not go back, no interval as long as the window holds more than the limit of admissions. */
  lemma LocalBound(checks: seq<int>, limit: nat, window: int, x: int)
    requires NonDecreasing(checks) && limit >= 1 && window > 0
    ensures |Filter(Between(x, x + window), AfterChecks(checks, limit, window).admitted)| <= limit
  {
    ChecksRemember(checks, limit, window, if checks == [] then 0 else checks[|checks| - 1]);
    SpacedCount(AfterChecks(checks, limit, window).admitted, limit, window, x);
  }

  function Recent(now: int, window: int): int -> bool {
    (t: int) => now - window < t <= now
  }

  lemma RecentAreActive(t: Trace, limit: nat, window: int, before: int, now: int)
    requires Remembers(t, limit, window, before) && before <= now
    ensures Filter(Recent(now, window), t.admitted) == Active(t.times, now, window)
  {
    var cut := |t.admitted| - |t.times|;
    assert t.admitted == t.admitted[..cut] + t.times;
    FilterAppend(Recent(now, window), t.admitted[..cut], t.times);
    FilterNone(Recent(now, window), t.admitted[..cut]);
    assert [] + Filter(Recent(now, window), t.times) == Filter(Recent(now, window), t.times);
    forall x | x in t.times
      ensures Recent(now, window)(x) == Within(now, window)(x)
    {
      assert x in t.admitted;
    }
    FilterSame(Recent(now, window), Within(now, window), t.times);
  }

  /** A request is refused exactly when the limit was admitted within the preceding window, never more; a refusal
    * names a wait within a second of the true one: until then every check is refused, and then one is admitted. */
  lemma LocalRefusal(checks: seq<int>, limit: nat, window: int, now: int, later: int)
    requires NonDecreasing(checks + [now]) && limit >= 1 && window > 0 && now <= later
    ensures var t := AfterChecks(checks, limit, window);
            var recent := |Filter(Recent(now, window), t.admitted)|;
            var result := LocalResult(t.times, now, limit, window);
            && recent <= limit && (!result.allowed <==> recent == limit)
            && result.limit == limit && result.remaining == (if result.allowed then limit - recent - 1 else 0)
            && (if result.allowed then result.retryAfterSeconds == 0 else result.retryAfterSeconds >= 1)
            && (!result.allowed ==>
                  var left := TimesAfter(t.times, now, limit, window);
                  left != []
                  && var wait := left[0] + window - now;
                     && wait > 0 && -SECOND < result.retryAfterSeconds * SECOND - wait < SECOND
                     && (Admits(left, later, limit, window) <==> later >= now + wait))
  {
    var t := AfterChecks(checks, limit, window);
    var n := |checks|;
    assert (checks + [now])[..n] == checks;
    assert forall i :: 0 <= i < n ==> (checks + [now])[i] == checks[i] && checks[i] <= (checks + [now])[n];
    var before := if n == 0 then now else checks[n - 1];
    ChecksRemember(checks, limit, window, now);
    RecentAreActive(t, limit, window, before, now);
    ActiveIsTail(t.times, now, window);
    if |Active(t.times, now, window)| >= limit {
      RefusalWaits(t.times, now, limit, window, later);
    }
  }

  lemma RefusalWaits(times: seq<int>, now: int, limit: nat, window: int, later: int)
    requires NonDecreasing(times) && limit >= 1 && window > 0 && now <= later
    requires |Active(times, now, window)| == limit
    ensures var result, left := LocalResult(times, now, limit, window), TimesAfter(times, now, limit, window);
            && left != []
            && var wait := left[0] + window - now;
               && wait > 0 && -SECOND < result.retryAfterSeconds * SECOND - wait < SECOND
               && (Admits(left, later, limit, window) <==> later >= now + wait)
  {
    var active := Active(times, now, window);
    ActiveIsTail(times, now, window);
    assert active + [] == active;
    assert NonDecreasing(active);
    ActiveIsTail(active, later, window);
    WaitRounds(active[0] + window - now);
  }

  lemma WaitRounds(wait: int)
    requires wait > 0
    ensures -SECOND < Max(1, wait / SECOND) * SECOND - wait < SECOND
  {
    assert wait == (wait / SECOND) * SECOND + wait % SECOND;
  }

  /* The Redis limiter: one counter per window start, set to expire. */

  datatype Counter = Counter(count: nat, expiresAt: int)

  /** The start, in seconds, of the fixed window an instant falls in. */
  function WindowStart(now: int, seconds: int): int
    requires seconds >= 1
  {
    var epoch := now / SECOND;
    epoch - epoch % seconds
  }

  function CountAt(counters: map<int, Counter>, start: int, now: int): nat {
    if start in counters && counters[start].expiresAt > now then counters[start].count else 0
  }

  /** INCR, and EXPIRE on the first count. */
  function Increment(counters: map<int, Counter>, now: int, seconds: int): map<int, Counter>
    requires seconds >= 1
  {
    var start := WindowStart(now, seconds);
    var count := CountAt(counters, start, now) + 1;
    counters[start := Counter(count, if count == 1 then now + (seconds + 1) * SECOND else counters[start].expiresAt)]
  }

  function RedisResult(counters: map<int, Counter>, now: int, limit: int, seconds: int): RateLimitResult
    requires seconds >= 1
  {
    var start := WindowStart(now, seconds);
    var count := CountAt(counters, start, now) + 1;
    RateLimitResult(count <= limit, limit, Max(0, limit - count),
                    if count > limit then Max(1, seconds - (now / SECOND - start)) else 0)
  }

  /** The counters of one identity, as the server holds them. */
  class RedisFixedWindowRateLimiter {
    const limit: int
    const seconds: int
    var counters: map<int, Counter>

    constructor (limit: int, window: int)
      requires limit >= 1 && window > 0
      ensures this.limit == limit && this.seconds == Max(1, window / SECOND) && counters == map[]
    {
      this.limit, this.seconds, counters := limit, Max(1, window / SECOND), map[];
    }

    method Check(now: int) returns (result: RateLimitResult)
      requires seconds >= 1
      modifies this
      ensures counters == Increment(old(counters), now, seconds)
      ensures result == RedisResult(old(counters), now, limit, seconds)
    {
      var epoch := now / SECOND;
      var start := epoch - epoch % seconds;
      var count := 1;
      if start in counters && counters[start].expiresAt > now {
        count := counters[start].count + 1;
      }
      if count == 1 {
        counters := counters[start := Counter(count, now + (seconds + 1) * SECOND)];
      } else {
        counters := counters[start := counters[start].(count := count)];
      }
      result := RateLimitResult(count <= limit, limit, Max(0, limit - count),
                                if count > limit then Max(1, seconds - (epoch - start)) else 0);
    }
  }

  datatype Answered = Answered(at: int, allowed: bool)

  datatype RedisTrace = RedisTrace(counters: map<int, Counter>, log: seq<Answered>)

  function AfterRedisChecks(checks: seq<int>, limit: int, seconds: int): RedisTrace
    requires seconds >= 1
  {
    if checks == [] then RedisTrace(map[], [])
    else
      var last := |checks| - 1;
      var before := AfterRedisChecks(checks[..last], limit, seconds);
      RedisTrace(Increment(before.counters, checks[last], seconds),
                 before.log
                   + [Answered(checks[last], RedisResult(before.counters, checks[last], limit, seconds).allowed)])
  }

  function InWindow(start: int, seconds: int): Answered -> bool
    requires seconds >= 1
  {
    (a: Answered) => WindowStart(a.at, seconds) == start
  }

  function AllowedIn(start: int, seconds: int): Answered -> bool
    requires seconds >= 1
  {
    (a: Answered) => WindowStart(a.at, seconds) == start && a.allowed
  }

  /** A window start is a multiple of the window, no later than the instant and less than a window before it. */
  lemma WindowFacts(now: int, seconds: int)
    requires seconds >= 1
    ensures WindowStart(now, seconds) == seconds * (now / SECOND / seconds)
    ensures WindowStart(now, seconds) * SECOND <= now < (WindowStart(now, seconds) + seconds) * SECOND
  {
    var epoch := now / SECOND;
    assert epoch == seconds * (epoch / seconds) + epoch % seconds;
    assert now == SECOND * epoch + now % SECOND;
  }

  lemma WindowsOrdered(a: int, b: int, seconds: int)
    requires seconds >= 1 && a <= b
    ensures WindowStart(a, seconds) <= WindowStart(b, seconds)
    ensures WindowStart(a, seconds) < WindowStart(b, seconds) ==>
              WindowStart(a, seconds) + seconds <= WindowStart(b, seconds)
    ensures b <= a + seconds * SECOND ==> WindowStart(b, seconds) <= WindowStart(a, seconds) + seconds
  {
    WindowFacts(a, seconds);
    WindowFacts(b, seconds);
    var p, q := a / SECOND / seconds, b / SECOND / seconds;
    assert a / SECOND <= b / SECOND;
    MultipleStep(seconds, p, q);
    MultipleStep(seconds, q, p);
    MultipleStep(seconds, p + 1, q);
    assert seconds * (p + 1) == seconds * p + seconds;
  }

  lemma MultipleStep(k: int, p: int, q: int)
    requires k >= 1
    ensures p < q ==> k * p + k <= k * q
    ensures p == q ==> k * p == k * q
  {
    if p < q {
      MultipleOrder(k, p + 1, q);
      assert k * (p + 1) == k * p + k;
    }
  }

  lemma {:induction false} MultipleOrder(k: int, p: int, q: int)
    requires k >= 1 && p <= q
    ensures k * p <= k * q
    decreases q - p
  {
    if p < q {
      MultipleOrder(k, p, q - 1);
      assert k * q == k * (q - 1) + k;
    }
  }

  /** The counter of the current window counts its checks and outlives it; later windows have none yet. */
  ghost predicate Counts(t: RedisTrace, limit: nat, seconds: int, now: int)
    requires seconds >= 1
  {
    && (forall a | a in t.log :: a.at <= now)
    && (forall start | start in t.counters :: start <= WindowStart(now, seconds))
    && (var start := WindowStart(now, seconds);
        && (start in t.counters ==> t.counters[start].expiresAt > (start + seconds) * SECOND)
        && (if start in t.counters then t.counters[start].count else 0) == |Filter(InWindow(start, seconds), t.log)|)
    && (forall start :: |Filter(AllowedIn(start, seconds), t.log)| <= limit)
    && (var start := WindowStart(now, seconds);
        |Filter(InWindow(start, seconds), t.log)| < limit ==>
          |Filter(AllowedIn(start, seconds), t.log)| <= |Filter(InWindow(start, seconds), t.log)|)
  }

  /** Time passing, within a window or into a later one, does not disturb the counts. */
  lemma TimePasses(t: RedisTrace, limit: nat, seconds: int, before: int, now: int)
    requires seconds >= 1 && Counts(t, limit, seconds, before) && before <= now
    ensures Counts(t, limit, seconds, now)
  {
    WindowsOrdered(before, now, seconds);
    var start := WindowStart(now, seconds);
    if WindowStart(before, seconds) != start {
      forall a | a in t.log
        ensures WindowStart(a.at, seconds) != start
      {
        WindowsOrdered(a.at, before, seconds);
      }
      FilterNone(InWindow(start, seconds), t.log);
      FilterNone(AllowedIn(start, seconds), t.log);
    }
  }

  lemma LogAppend(log: seq<Answered>, a: Answered, start: int, seconds: int)
    requires seconds >= 1
    ensures |Filter(InWindow(start, seconds), log + [a])|
         == |Filter(InWindow(start, seconds), log)| + if WindowStart(a.at, seconds) == start then 1 else 0
    ensures |Filter(AllowedIn(start, seconds), log + [a])|
         == |Filter(AllowedIn(start, seconds), log)| + if WindowStart(a.at, seconds) == start && a.allowed then 1 else 0
  {
    FilterAppend(InWindow(start, seconds), log, [a]);
    FilterAppend(AllowedIn(start, seconds), log, [a]);
    assert [a][1..] == [];
  }

  lemma RedisCheckCounts(t: RedisTrace, limit: nat, seconds: int, now: int)
    requires seconds >= 1 && limit >= 1 && Counts(t, limit, seconds, now)
    ensures Counts(RedisTrace(Increment(t.counters, now, seconds),
                              t.log + [Answered(now, RedisResult(t.counters, now, limit, seconds).allowed)]),
                   limit, seconds, now)
  {
    var start := WindowStart(now, seconds);
    var answer := Answered(now, RedisResult(t.counters, now, limit, seconds).allowed);
    WindowFacts(now, seconds);
    forall s
      ensures |Filter(AllowedIn(s, seconds), t.log + [answer])| <= limit
    {
      LogAppend(t.log, answer, s, seconds);
    }
    LogAppend(t.log, answer, start, seconds);
  }

  lemma {:induction false} RedisChecksCount(checks: seq<int>, limit: nat, seconds: int, now: int)
    requires seconds >= 1 && limit >= 1 && NonDecreasing(checks)
    requires checks != [] ==> checks[|checks| - 1] <= now
    ensures Counts(AfterRedisChecks(checks, limit, seconds), limit, seconds, now)
  {
    if checks != [] {
      var last := |checks| - 1;
      RedisChecksCount(checks[..last], limit, seconds, checks[last]);
      RedisCheckCounts(AfterRedisChecks(checks[..last], limit, seconds), limit, seconds, checks[last]);
      TimePasses(AfterRedisChecks(checks, limit, seconds), limit, seconds, checks[last], now);
    }
  }

  function AllowedBetween(x: int, y: int): Answered -> bool {
    (a: Answered) => a.allowed && x <= a.at < y
  }

  /** A counter never expires inside its own window, so a check is allowed exactly when fewer than the limit came
    * before it in that window. */
  lemma RedisCountsEveryCheck(checks: seq<int>, limit: nat, seconds: int, now: int)
    requires seconds >= 1 && limit >= 1 && NonDecreasing(checks) && (checks != [] ==> checks[|checks| - 1] <= now)
    ensures var t := AfterRedisChecks(checks, limit, seconds);
            RedisResult(t.counters, now, limit, seconds).allowed
            <==> |Filter(InWindow(WindowStart(now, seconds), seconds), t.log)| < limit
  {
    RedisChecksCount(checks, limit, seconds, now);
    WindowFacts(now, seconds);
  }

  function MadeBetween(x: int, y: int): Answered -> bool {
    (a: Answered) => x <= a.at < y
  }

  lemma WindowUnique(now: int, seconds: int, start: int)
    requires seconds >= 1 && start % seconds == 0
    ensures WindowStart(now, seconds) == start <==> start * 1_000_000 <= now < (start + seconds) * 1_000_000
  {
    WindowFacts(now, seconds);
    var q, k := now / SECOND / seconds, start / seconds;
    assert start == seconds * k;
    MultipleStep(seconds, q, k);
    MultipleStep(seconds, k, q);
  }

  /** The whole answer, from the checks made since the window began: how many are left, and for a refused check the
    * seconds to the end of the window, rounded up. */
  lemma RedisAnswersExactly(checks: seq<int>, limit: nat, seconds: int, now: int, start: int)
    requires seconds >= 1 && limit >= 1 && NonDecreasing(checks) && (checks != [] ==> checks[|checks| - 1] <= now)
    requires start % seconds == 0 && start * 1_000_000 <= now < (start + seconds) * 1_000_000
    ensures var t := AfterRedisChecks(checks, limit, seconds);
            var result := RedisResult(t.counters, now, limit, seconds);
            var made := |Filter(MadeBetween(start * 1_000_000, (start + seconds) * 1_000_000), t.log)|;
            var left := (start + seconds) * 1_000_000 - now;
            && result.limit == limit
            && (result.allowed <==> made < limit)
            && result.remaining == (if made < limit then limit - made - 1 else 0)
            && (made < limit ==> result.retryAfterSeconds == 0)
            && (made >= limit ==> 0 <= result.retryAfterSeconds * 1_000_000 - left < 1_000_000)
  {
    var t := AfterRedisChecks(checks, limit, seconds);
    RedisChecksCount(checks, limit, seconds, now);
    WindowFacts(now, seconds);
    WindowUnique(now, seconds, start);
    forall a | a in t.log
      ensures InWindow(start, seconds)(a) == MadeBetween(start * 1_000_000, (start + seconds) * 1_000_000)(a)
    {
      WindowUnique(a.at, seconds, start);
    }
    FilterSame(InWindow(start, seconds), MadeBetween(start * 1_000_000, (start + seconds) * 1_000_000), t.log);
  }

  /** An interval no longer than the counted window, give or take a tick, meets two windows at most, and so holds at
    * most twice the limit. */
  lemma RedisBound(checks: seq<int>, limit: nat, seconds: int, window: int, x: int)
    requires seconds >= 1 && limit >= 1 && NonDecreasing(checks) && window <= seconds * SECOND + 1
    ensures |Filter(AllowedBetween(x, x + window), AfterRedisChecks(checks, limit, seconds).log)| <= 2 * limit
  {
    var log := AfterRedisChecks(checks, limit, seconds).log;
    var first := WindowStart(x, seconds);
    RedisChecksCount(checks, limit, seconds, if checks == [] then 0 else checks[|checks| - 1]);
    forall a | a in log && AllowedBetween(x, x + window)(a)
      ensures AllowedIn(first, seconds)(a) || AllowedIn(first + seconds, seconds)(a)
    {
      WindowsOrdered(x, a.at, seconds);
    }
    FilterCovered(AllowedBetween(x, x + window), AllowedIn(first, seconds), AllowedIn(first + seconds, seconds), log);
  }

  function Repeat<T>(x: T, n: nat): (xs: seq<T>)
    ensures |xs| == n && forall y | y in xs :: y == x
  {
    if n == 0 then [] else Repeat(x, n - 1) + [x]
  }

  lemma AppendRepeat<T>(xs: seq<T>, x: T, n: nat)
    requires n > 0
    ensures xs + Repeat(x, n) == xs + Repeat(x, n - 1) + [x]
  {
  }

  /** Nothing in the log but some checks of this instant is of its window. */
  lemma FewInWindow(log: seq<Answered>, n: nat, seconds: int, now: int)
    requires seconds >= 1
    requires forall a | a in log :: WindowStart(a.at, seconds) != WindowStart(now, seconds)
    ensures |Filter(InWindow(WindowStart(now, seconds), seconds), log + Repeat(Answered(now, true), n))| <= n
  {
    var inWindow := InWindow(WindowStart(now, seconds), seconds);
    FilterAppend(inWindow, log, Repeat(Answered(now, true), n));
    FilterNone(inWindow, log);
    FilterLength(inWindow, Repeat(Answered(now, true), n));
  }

  lemma NextLogged(checks: seq<int>, limit: nat, seconds: int, now: int)
    requires seconds >= 1 && limit >= 1 && NonDecreasing(checks) && forall c | c in checks :: c <= now
    requires |Filter(InWindow(WindowStart(now, seconds), seconds), AfterRedisChecks(checks, limit, seconds).log)|
             < limit
    ensures AfterRedisChecks(checks + [now], limit, seconds).log
         == AfterRedisChecks(checks, limit, seconds).log + [Answered(now, true)]
  {
    assert checks != [] ==> checks[|checks| - 1] in checks;
    RedisCountsEveryCheck(checks, limit, seconds, now);
    assert (checks + [now])[..|checks|] == checks;
  }

  lemma NonDecreasingAppend(xs: seq<int>, x: int)
    requires NonDecreasing(xs) && forall y | y in xs :: y <= x
    ensures NonDecreasing(xs + [x])
  {
    assert forall i :: 0 <= i < |xs| ==> (xs + [x])[i] == xs[i] && xs[i] in xs;
  }

  lemma OneMoreAllowed(checks: seq<int>, n: nat, limit: nat, seconds: int, now: int)
    requires seconds >= 1 && n < limit && NonDecreasing(checks + Repeat(now, n))
    requires forall c | c in checks :: c <= now && WindowStart(c, seconds) != WindowStart(now, seconds)
    requires AfterRedisChecks(checks + Repeat(now, n), limit, seconds).log
          == AfterRedisChecks(checks, limit, seconds).log + Repeat(Answered(now, true), n)
    ensures NonDecreasing(checks + Repeat(now, n) + [now])
    ensures AfterRedisChecks(checks + Repeat(now, n) + [now], limit, seconds).log
         == AfterRedisChecks(checks, limit, seconds).log + Repeat(Answered(now, true), n) + [Answered(now, true)]
  {
    var log := AfterRedisChecks(checks, limit, seconds).log;
    LogFollowsChecks(checks, limit, seconds);
    FewInWindow(log, n, seconds, now);
    NextLogged(checks + Repeat(now, n), limit, seconds, now);
    NonDecreasingAppend(checks + Repeat(now, n), now);
  }

  /** Checks at one instant, none of its window before: all of the first `limit` are allowed. */
  lemma {:induction false} FirstChecksAllowed(checks: seq<int>, n: nat, limit: nat, seconds: int, now: int)
    requires seconds >= 1 && limit >= 1 && NonDecreasing(checks) && n <= limit
    requires forall c | c in checks :: c <= now && WindowStart(c, seconds) != WindowStart(now, seconds)
    ensures NonDecreasing(checks + Repeat(now, n))
    ensures AfterRedisChecks(checks + Repeat(now, n), limit, seconds).log
         == AfterRedisChecks(checks, limit, seconds).log + Repeat(Answered(now, true), n)
  {
    var log := AfterRedisChecks(checks, limit, seconds).log;
    if n == 0 {
      assert checks + [] == checks && log + [] == log;
    } else {
      AppendRepeat(checks, now, n);
      AppendRepeat(log, Answered(now, true), n);
      FirstChecksAllowed(checks, n - 1, limit, seconds, now);
      OneMoreAllowed(checks, n - 1, limit, seconds, now);
    }
  }

  lemma {:induction false} LogFollowsChecks(checks: seq<int>, limit: nat, seconds: int)
    requires seconds >= 1
    ensures forall a | a in AfterRedisChecks(checks, limit, seconds).log :: a.at in checks
  {
    if checks != [] {
      LogFollowsChecks(checks[..|checks| - 1], limit, seconds);
    }
  }

  lemma {:induction false} FilterLength<T>(keep: T -> bool, xs: seq<T>)
    ensures |Filter(keep, xs)| <= |xs|
    ensures (forall x | x in xs :: keep(x)) ==> Filter(keep, xs) == xs
  {
    if xs != [] {
      FilterLength(keep, xs[1..]);
    }
  }

  /** An instant before, at and a window after a window start. */
  lemma WindowEdges(seconds: int)
    requires seconds >= 1
    ensures var s := seconds * SECOND;
            && WindowStart(s - 1, seconds) == 0 && WindowStart(s, seconds) == seconds
            && WindowStart(s + s, seconds) == seconds + seconds
  {
    var s := seconds * SECOND;
    WindowFacts(s - 1, seconds);
    WindowFacts(s, seconds);
    WindowFacts(s + s, seconds);
    assert (s - 1) / SECOND == seconds - 1 && s / SECOND == seconds && (s + s) / SECOND == seconds + seconds;
    assert (seconds - 1) / seconds == 0 && seconds / seconds == 1;
    assert (seconds + seconds) % seconds == 0 by {
      var q := (seconds + seconds) / seconds;
      MultipleStep(seconds, q, 2);
      MultipleStep(seconds, 2, q);
    }
  }

  /** Twice the limit is reached: the whole quota in the last tick of a window, and again in the next tick. */
  lemma RedisBurst(limit: nat, seconds: int)
    requires seconds >= 1 && limit >= 1
    ensures var s := seconds * SECOND;
            var checks := Repeat(s - 1, limit) + Repeat(s, limit);
            NonDecreasing(checks)
            && AfterRedisChecks(checks, limit, seconds).log
            == Repeat(Answered(s - 1, true), limit) + Repeat(Answered(s, true), limit)
  {
    var s := seconds * SECOND;
    WindowEdges(seconds);
    FirstBurst(limit, seconds, s - 1);
    FirstChecksAllowed(Repeat(s - 1, limit), limit, limit, seconds, s);
  }

  lemma NothingBefore<T>(xs: seq<T>)
    ensures [] + xs == xs
  {
  }

  lemma FirstBurst(limit: nat, seconds: int, now: int)
    requires seconds >= 1 && limit >= 1
    ensures NonDecreasing(Repeat(now, limit))
    ensures AfterRedisChecks(Repeat(now, limit), limit, seconds).log == Repeat(Answered(now, true), limit)
  {
    FirstChecksAllowed([], limit, limit, seconds, now);
    NothingBefore(Repeat(now, limit));
    NothingBefore(Repeat(Answered(now, true), limit));
  }

  lemma ThreeBursts(limit: nat, seconds: int)
    requires seconds >= 1 && limit >= 1
    ensures var s := seconds * SECOND;
            var checks := Repeat(s - 1, limit) + Repeat(s, limit) + Repeat(s + s, limit);
            NonDecreasing(checks)
            && AfterRedisChecks(checks, limit, seconds).log
            == Repeat(Answered(s - 1, true), limit) + Repeat(Answered(s, true), limit)
               + Repeat(Answered(s + s, true), limit)
  {
    var s := seconds * SECOND;
    WindowEdges(seconds);
    RedisBurst(limit, seconds);
    FirstChecksAllowed(Repeat(s - 1, limit) + Repeat(s, limit), limit, limit, seconds, s + s);
  }

  /** The window is counted in whole seconds. One that is longer by more than a tick can hold three quotas. */
  lemma RedisOverrun(limit: nat, seconds: int, window: int)
    requires seconds >= 1 && limit >= 1 && window > seconds * SECOND + 1
    ensures var s := seconds * SECOND;
            var checks := Repeat(s - 1, limit) + Repeat(s, limit) + Repeat(s + s, limit);
            NonDecreasing(checks)
            && |Filter(AllowedBetween(s - 1, s - 1 + window), AfterRedisChecks(checks, limit, seconds).log)|
               == 3 * limit
  {
    var s := seconds * SECOND;
    ThreeBursts(limit, seconds);
    FilterLength(AllowedBetween(s - 1, s - 1 + window),
                 Repeat(Answered(s - 1, true), limit) + Repeat(Answered(s, true), limit)
                 + Repeat(Answered(s + s, true), limit));
  }
}
