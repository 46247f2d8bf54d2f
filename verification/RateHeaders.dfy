/** The middleware around the script: the arithmetic of its response headers, and the limiter as an object. */
module RateHeaders {
  import opened Domain
  import opened RateLimit

  /** What the client sees; retryAfter is present only on a refusal. */
  datatype Response = Response(allowed: bool, remaining: int, resetSec: int, retryAfter: Option<int>)

  function Ceiling(x: real): int {
    -((-x).Floor)
  }

  /** The script returns thousandths because Redis truncates Lua numbers to integers. */
  function Thousandths(tokens: real): int {
    (tokens * 1000.0).Floor
  }

  function Remaining(tokens: real): real {
    Thousandths(tokens) as real / 1000.0
  }

  function PerSecond(limit: nat, windowMs: nat): real
    requires windowMs > 0
  {
    limit as real / (windowMs as real / 1000.0)
  }

  function RetryAfter(limit: nat, windowMs: nat, tokens: real): int
    requires limit > 0 && windowMs > 0
  {
    var seconds := Ceiling((1.0 - Remaining(tokens)) / PerSecond(limit, windowMs));
    if seconds < 1 then 1 else seconds
  }

  function ResetMs(limit: nat, windowMs: nat, tokens: real, now: int): int
    requires limit > 0 && windowMs > 0
  {
    now + ((limit as real - Remaining(tokens)) / (limit as real / windowMs as real)).Floor
  }

  function Respond(limit: nat, windowMs: nat, b: Bucket, allowed: bool, now: nat): Response
    requires limit > 0 && windowMs > 0
  {
    Response(allowed, Remaining(b.tokens).Floor, ResetMs(limit, windowMs, b.tokens, now) / 1000,
             if allowed then None else Some(RetryAfter(limit, windowMs, b.tokens)))
  }

  // ---------------------------------------------------------------- arithmetic

  /** Rounding to thousandths loses less than a thousandth and never crosses an integer. */
  lemma RemainingBounds(tokens: real)
    ensures Remaining(tokens) <= tokens < Remaining(tokens) + 0.001
    ensures Remaining(tokens).Floor == tokens.Floor
  {
    var n := tokens.Floor;
    assert n * 1000 <= Thousandths(tokens) by {
      assert n as real * 1000.0 <= tokens * 1000.0;
      assert (n * 1000) as real == n as real * 1000.0;
    }
    assert Thousandths(tokens) < (n + 1) * 1000 by {
      assert tokens * 1000.0 < (n + 1) as real * 1000.0;
      assert ((n + 1) * 1000) as real == (n + 1) as real * 1000.0;
    }
  }

  lemma QuotientTimes(x: real, y: real, z: real)
    requires y > 0.0 && z >= x / y
    ensures z * y >= x
  {
  }

  // ---------------------------------------------------------------- Remaining is exact

  /** The stored hash after n more calls at one instant. */
  function Burst(b: Bucket, cfg: Config, now: int, n: nat): Bucket {
    if n == 0 then b else Called(Some(Burst(b, cfg, now, n - 1)), cfg, now)
  }

  lemma {:induction false} BurstDrains(b: Bucket, cfg: Config, now: int, n: nat)
    requires now <= b.last && b.tokens >= 0.0
    ensures var left := b.tokens.Floor;
            var taken := if n < left then n else left;
            Burst(b, cfg, now, n) == b.(tokens := b.tokens - taken as real)
  {
    if n > 0 {
      BurstDrains(b, cfg, now, n - 1);
    }
  }

  /** X-RateLimit-Remaining is the number of further calls at the same instant that will be admitted. */
  lemma RemainingIsExact(limit: nat, windowMs: nat, b: Bucket, cfg: Config, allowed: bool, now: nat, n: nat)
    requires limit > 0 && windowMs > 0 && now <= b.last && b.tokens >= 0.0
    ensures Admits(Some(Burst(b, cfg, now, n)), cfg, now) <==> n < Respond(limit, windowMs, b, allowed, now).remaining
  {
    RemainingBounds(b.tokens);
    BurstDrains(b, cfg, now, n);
  }

  // ---------------------------------------------------------------- Retry-After and Reset are honest

  lemma RetryEarnsAToken(limit: nat, windowMs: nat, tokens: real)
    requires limit > 0 && windowMs > 0 && tokens < 1.0
    ensures PerWindow(limit, windowMs).refill(RetryAfter(limit, windowMs, tokens) * 1000) >= 1.0 - tokens
  {
    var perSec := PerSecond(limit, windowMs);
    var rate := limit as real / windowMs as real;
    var retry := RetryAfter(limit, windowMs, tokens);
    RemainingBounds(tokens);
    assert perSec == rate * 1000.0;
    assert retry as real >= (1.0 - Remaining(tokens)) / perSec;
    QuotientTimes(1.0 - Remaining(tokens), perSec, retry as real);
    assert (retry * 1000) as real == retry as real * 1000.0;
    assert (retry * 1000) as real * rate == retry as real * perSec;
  }

  lemma ResetFillsTheBucket(limit: nat, windowMs: nat, tokens: real, now: int, later: int)
    requires limit > 0 && windowMs > 0 && later > ResetMs(limit, windowMs, tokens, now)
    ensures tokens + PerWindow(limit, windowMs).refill(later - now) >= limit as real
  {
    var rate := limit as real / windowMs as real;
    var wait := (limit as real - Remaining(tokens)) / rate;
    RemainingBounds(tokens);
    assert later - now >= wait.Floor + 1;
    assert (later - now) as real >= wait;
    QuotientTimes(limit as real - Remaining(tokens), rate, (later - now) as real);
  }

  lemma RefillGrows(cfg: Config, a: int, b: int)
    requires Valid(cfg) && a <= b
    ensures cfg.refill(a) <= cfg.refill(b)
  {
    Accrues(cfg, 0, a, b);
  }

  /** Refilling in two stages is refilling once. */
  lemma MinTwice(limit: real, x: real, a: real, b: real)
    requires b >= 0.0
    ensures Min(limit, Min(limit, x + a) + b) == Min(limit, x + (b + a))
  {
  }

  lemma LeftAfter(cfg: Config, clocks: seq<int>, k: nat)
    requires k < |clocks|
    ensures StateAfter(cfg, clocks, k + 1).value.tokens == Available(cfg, clocks, k) - Taken(cfg, clocks, k)
  {
  }

  /** From the tokens left by call k, an admission-free stretch up to call n just refills. */
  lemma FillsAfter(cfg: Config, clocks: seq<int>, k: nat, n: nat)
    requires Valid(cfg) && NonDecreasing(clocks) && k < n < |clocks|
    requires forall j :: k < j < n ==> !AllowedAt(cfg, clocks, j)
    ensures Available(cfg, clocks, n) ==
            Min(cfg.limit as real, StateAfter(cfg, clocks, k + 1).value.tokens + cfg.refill(clocks[n] - clocks[k]))
  {
    var left := StateAfter(cfg, clocks, k + 1).value.tokens;
    LeftAfter(cfg, clocks, k);
    AvailableStep(cfg, clocks, k);
    FillsWhileDenying(cfg, clocks, k + 1, n);
    Accrues(cfg, clocks[k], clocks[k + 1], clocks[n]);
    MinTwice(cfg.limit as real, left, cfg.refill(clocks[k + 1] - clocks[k]), cfg.refill(clocks[n] - clocks[k + 1]));
  }

  lemma AdmittedAfter(cfg: Config, clocks: seq<int>, k: nat, n: nat, wait: int)
    requires Valid(cfg) && cfg.limit > 0 && NonDecreasing(clocks) && k < n < |clocks|
    requires forall j :: k < j < n ==> !AllowedAt(cfg, clocks, j)
    requires clocks[n] - clocks[k] >= wait && cfg.refill(wait) >= 1.0 - StateAfter(cfg, clocks, k + 1).value.tokens
    ensures AllowedAt(cfg, clocks, n)
  {
    FillsAfter(cfg, clocks, k, n);
    RefillGrows(cfg, wait, clocks[n] - clocks[k]);
  }

  lemma RefusedIsShort(cfg: Config, clocks: seq<int>, k: nat)
    requires k < |clocks| && !AllowedAt(cfg, clocks, k)
    ensures StateAfter(cfg, clocks, k + 1).value.tokens < 1.0
  {
  }

  /** A refused client that comes back after Retry-After seconds, with no other admission in between, is let in. */
  lemma RetryAfterIsHonest(limit: nat, windowMs: nat, cfg: Config, clocks: seq<int>, k: nat, n: nat, b: Bucket)
    requires limit > 0 && windowMs > 0 && cfg == PerWindow(limit, windowMs)
    requires NonDecreasing(clocks) && k < n < |clocks| && !AllowedAt(cfg, clocks, k)
    requires forall j :: k < j < n ==> !AllowedAt(cfg, clocks, j)
    requires StateAfter(cfg, clocks, k + 1) == Some(b)
    requires clocks[n] - clocks[k] >= RetryAfter(limit, windowMs, b.tokens) * 1000
    ensures AllowedAt(cfg, clocks, n)
  {
    PerWindowIsValid(limit, windowMs);
    RefusedIsShort(cfg, clocks, k);
    RetryEarnsAToken(limit, windowMs, b.tokens);
    AdmittedAfter(cfg, clocks, k, n, RetryAfter(limit, windowMs, b.tokens) * 1000);
  }

  lemma PastTheSecond(limit: nat, windowMs: nat, b: Bucket, allowed: bool, now: nat, later: int)
    requires limit > 0 && windowMs > 0
    requires later >= (Respond(limit, windowMs, b, allowed, now).resetSec + 1) * 1000
    ensures later > ResetMs(limit, windowMs, b.tokens, now)
  {
  }

  /** One second after X-RateLimit-Reset, with no admission in between, the bucket is full again. */
  lemma ResetIsHonest(limit: nat, windowMs: nat, cfg: Config, clocks: seq<int>, k: nat, n: nat,
                      b: Bucket, allowed: bool)
    requires limit > 0 && windowMs > 0 && cfg == PerWindow(limit, windowMs)
    requires NonDecreasing(clocks) && k < n < |clocks| && clocks[k] >= 0
    requires forall j :: k < j < n ==> !AllowedAt(cfg, clocks, j)
    requires StateAfter(cfg, clocks, k + 1) == Some(b) && allowed == AllowedAt(cfg, clocks, k)
    requires clocks[n] >= (Respond(limit, windowMs, b, allowed, clocks[k]).resetSec + 1) * 1000
    ensures Available(cfg, clocks, n) == limit as real
  {
    PerWindowIsValid(limit, windowMs);
    FillsAfter(cfg, clocks, k, n);
    PastTheSecond(limit, windowMs, b, allowed, clocks[k], clocks[n]);
    ResetFillsTheBucket(limit, windowMs, b.tokens, clocks[k], clocks[n]);
  }

  // ---------------------------------------------------------------- and no longer than needed

  lemma QuotientBelow(x: real, y: real, z: real)
    requires y > 0.0 && z < x / y
    ensures z * y < x
  {
    assert (x / y - z) * y > 0.0;
    assert x / y * y == x;
  }

  lemma QuotientAtMost(x: real, y: real, z: real)
    requires y > 0.0 && z <= x / y
    ensures z * y <= x
  {
    assert (x / y - z) * y >= 0.0;
    assert x / y * y == x;
  }

  /** A second less would not have earned the token that the header reckons with. */
  lemma RetryIsLeast(limit: nat, windowMs: nat, tokens: real)
    requires limit > 0 && windowMs > 0 && RetryAfter(limit, windowMs, tokens) > 1
    ensures Remaining(tokens)
            + PerWindow(limit, windowMs).refill((RetryAfter(limit, windowMs, tokens) - 1) * 1000) < 1.0
  {
    var perSec := PerSecond(limit, windowMs);
    var rate := limit as real / windowMs as real;
    var less := RetryAfter(limit, windowMs, tokens) - 1;
    assert perSec == rate * 1000.0;
    assert (less as real) < (1.0 - Remaining(tokens)) / perSec;
    QuotientBelow(1.0 - Remaining(tokens), perSec, less as real);
    assert (less * 1000) as real == less as real * 1000.0;
    assert (less * 1000) as real * rate == less as real * perSec;
  }

  lemma FillsFrom(cfg: Config, clocks: seq<int>, k: nat, n: nat, wait: int, b: Bucket) returns (earned: real)
    requires Valid(cfg) && NonDecreasing(clocks) && k < n < |clocks|
    requires forall j :: k < j < n ==> !AllowedAt(cfg, clocks, j)
    requires StateAfter(cfg, clocks, k + 1) == Some(b) && clocks[n] - clocks[k] <= wait
    ensures Available(cfg, clocks, n) == Min(cfg.limit as real, b.tokens + earned) && earned <= cfg.refill(wait)
  {
    earned := cfg.refill(clocks[n] - clocks[k]);
    FillsAfter(cfg, clocks, k, n);
    RefillGrows(cfg, clocks[n] - clocks[k], wait);
  }

  lemma TooFewTokens(cfg: Config, clocks: seq<int>, k: nat, n: nat, wait: int, b: Bucket)
    requires Valid(cfg) && NonDecreasing(clocks) && k < n < |clocks|
    requires forall j :: k < j < n ==> !AllowedAt(cfg, clocks, j)
    requires StateAfter(cfg, clocks, k + 1) == Some(b)
    requires clocks[n] - clocks[k] <= wait && Remaining(b.tokens) + cfg.refill(wait) < 1.0
    ensures Available(cfg, clocks, n) < 1.001
    ensures Remaining(b.tokens) == b.tokens ==> !AllowedAt(cfg, clocks, n)
  {
    var earned := FillsFrom(cfg, clocks, k, n, wait, b);
    RemainingBounds(b.tokens);
    ShortOfOne(cfg.limit as real, b.tokens, Remaining(b.tokens), earned, cfg.refill(wait));
    AllowedByTokens(cfg, clocks, n);
  }

  lemma ShortOfOne(limit: real, tokens: real, remaining: real, earned: real, bound: real)
    requires tokens < remaining + 0.001 && earned <= bound && remaining + bound < 1.0
    ensures Min(limit, tokens + earned) < 1.001
    ensures remaining == tokens ==> Min(limit, tokens + earned) < 1.0
  {
  }

  lemma AllowedByTokens(cfg: Config, clocks: seq<int>, n: nat)
    requires n < |clocks|
    ensures AllowedAt(cfg, clocks, n) <==> Available(cfg, clocks, n) >= 1.0
  {
  }

  /** A refused client that comes back a second or more before Retry-After is refused again if the stored tokens are
      whole thousandths, and otherwise finds less than a thousandth more than one token. */
  lemma RetryAfterIsTight(limit: nat, windowMs: nat, cfg: Config, clocks: seq<int>, k: nat, n: nat, b: Bucket)
    requires limit > 0 && windowMs > 0 && cfg == PerWindow(limit, windowMs)
    requires NonDecreasing(clocks) && k < n < |clocks|
    requires forall j :: k < j < n ==> !AllowedAt(cfg, clocks, j)
    requires StateAfter(cfg, clocks, k + 1) == Some(b) && RetryAfter(limit, windowMs, b.tokens) > 1
    requires clocks[n] - clocks[k] <= (RetryAfter(limit, windowMs, b.tokens) - 1) * 1000
    ensures Available(cfg, clocks, n) < 1.001
    ensures Remaining(b.tokens) == b.tokens ==> !AllowedAt(cfg, clocks, n)
  {
    PerWindowIsValid(limit, windowMs);
    RetryIsLeast(limit, windowMs, b.tokens);
    TooFewTokens(cfg, clocks, k, n, (RetryAfter(limit, windowMs, b.tokens) - 1) * 1000, b);
  }

  /** X-RateLimit-Reset is the second in which the bucket, reckoned in thousandths, gets full: at that second's start
      it is not over-full. */
  lemma ResetIsTight(limit: nat, windowMs: nat, b: Bucket, allowed: bool, now: nat)
    requires limit > 0 && windowMs > 0
    ensures var reset := Respond(limit, windowMs, b, allowed, now).resetSec;
            Remaining(b.tokens) + PerWindow(limit, windowMs).refill(reset * 1000 - now) <= limit as real
  {
    var rate := limit as real / windowMs as real;
    var fill := (limit as real - Remaining(b.tokens)) / rate;
    var reset := Respond(limit, windowMs, b, allowed, now).resetSec;
    assert ResetMs(limit, windowMs, b.tokens, now) == now + fill.Floor;
    assert reset * 1000 <= now + fill.Floor;
    assert (reset * 1000 - now) as real <= fill;
    QuotientAtMost(limit as real - Remaining(b.tokens), rate, (reset * 1000 - now) as real);
  }

  lemma RatesAgree(limit: nat, windowMs: nat)
    requires windowMs > 0
    ensures limit as real / (windowMs as real / 1000.0) / 1000.0 == limit as real / windowMs as real
  {
  }

  // ---------------------------------------------------------------- the limiter as an object

  class Limiter {
    const limit: nat
    const windowMs: nat
    var stored: Option<Bucket>
    ghost var calls: seq<int>

    /** The stored hash is the one that the requests so far have left. */
    ghost predicate Valid()
      reads this
    {
      limit > 0 && windowMs > 0 && stored == StateAfter(PerWindow(limit, windowMs), calls, |calls|)
    }

    constructor (limit: nat, windowMs: nat)
      requires limit > 0 && windowMs > 0
      ensures Valid() && this.limit == limit && this.windowMs == windowMs && calls == []
    {
      this.limit, this.windowMs, stored, calls := limit, windowMs, None, [];
    }

    /** The Lua script, statement by statement, at cost 1. */
    method Eval(maxTokens: nat, refillRate: real, now: int) returns (allowed: bool, thousandths: int)
      modifies this`stored
      ensures var cfg := Config(maxTokens, Linear(refillRate));
              && stored == Some(Called(old(stored), cfg, now))
              && allowed == Admits(old(stored), cfg, now)
              && thousandths == Thousandths(stored.value.tokens)
    {
      var tokens: real;
      var lastRefreshed: int;
      if stored == None {
        tokens := maxTokens as real;
        lastRefreshed := now;
      } else {
        tokens := stored.value.tokens;
        lastRefreshed := stored.value.last;
        var elapsed := now - lastRefreshed;
        if elapsed > 0 {
          var refill := elapsed as real * refillRate;
          assert refill == Config(maxTokens, Linear(refillRate)).refill(elapsed);
          tokens := Min(maxTokens as real, tokens + refill);
          lastRefreshed := now;
        }
      }
      allowed := false;
      if tokens >= 1.0 {
        tokens := tokens - 1.0;
        allowed := true;
      }
      stored := Some(Bucket(tokens, lastRefreshed));
      thousandths := (tokens * 1000.0).Floor;
    }

    /** One request; without an answer from Redis it is let through and nothing is stored. With clocks that never run
        backwards the answer is the sliding log's, over all the requests so far. */
    method Handle(now: nat, redisOk: bool) returns (r: Option<Response>)
      requires Valid()
      modifies this
      ensures Valid() && r.Some? == redisOk
      ensures calls == if redisOk then old(calls) + [now] else old(calls)
      ensures !redisOk ==> stored == old(stored)
      ensures redisOk ==>
                && stored == Some(Called(old(stored), PerWindow(limit, windowMs), now))
                && r.value.allowed == Admits(old(stored), PerWindow(limit, windowMs), now)
                && r.value == Respond(limit, windowMs, stored.value, r.value.allowed, now)
                && (r.value.retryAfter.Some? <==> !r.value.allowed)
      ensures redisOk && NonDecreasing(calls) ==>
                (r.value.allowed <==> LogAllows(PerWindow(limit, windowMs), calls, |calls| - 1))
    {
      if !redisOk {
        return None;
      }
      var allowed, thousandths := Call(now);
      CallsGrow(limit, windowMs, old(calls), now);
      calls := calls + [now];
      var response := Headers(allowed, thousandths, now, stored.value);
      r := Some(response);
    }

    /** The script with this limiter's arguments. */
    method Call(now: nat) returns (allowed: bool, thousandths: int)
      requires limit > 0 && windowMs > 0
      modifies this`stored
      ensures stored == Some(Called(old(stored), PerWindow(limit, windowMs), now))
      ensures allowed == Admits(old(stored), PerWindow(limit, windowMs), now)
      ensures thousandths == Thousandths(stored.value.tokens)
    {
      var refillRate := limit as real / (windowMs as real / 1000.0);
      var refillRatePerMs := refillRate / 1000.0;
      RatesAgree(limit, windowMs);
      allowed, thousandths := Eval(limit, refillRatePerMs, now);
    }

    /** The header arithmetic, on what the script returned. */
    method Headers(allowed: bool, thousandths: int, now: nat, ghost b: Bucket) returns (r: Response)
      requires limit > 0 && windowMs > 0 && thousandths == Thousandths(b.tokens)
      ensures r == Respond(limit, windowMs, b, allowed, now)
      ensures r.allowed == allowed && (r.retryAfter.Some? <==> !allowed)
    {
      var refillRate := limit as real / (windowMs as real / 1000.0);
      var refillRatePerMs := refillRate / 1000.0;
      RatesAgree(limit, windowMs);
      var remaining := thousandths as real / 1000.0;
      var resetMs := now + ((limit as real - remaining) / refillRatePerMs).Floor;
      var retryAfter: Option<int> := None;
      if !allowed {
        var seconds := Ceiling((1.0 - remaining) / refillRate);
        if seconds < 1 {
          seconds := 1;
        }
        retryAfter := Some(seconds);
      }
      r := Response(allowed, remaining.Floor, resetMs / 1000, retryAfter);
    }
  }

  /** One more call: the hash before it, and the verdict on it. */
  lemma CallsGrow(limit: nat, windowMs: nat, calls: seq<int>, now: int)
    requires windowMs > 0
    ensures var cfg := PerWindow(limit, windowMs);
            var all := calls + [now];
            && StateAfter(cfg, all, |calls|) == StateAfter(cfg, calls, |calls|)
            && StateAfter(cfg, all, |all|) == Some(Called(StateAfter(cfg, calls, |calls|), cfg, now))
            && (NonDecreasing(all) ==>
                  (Admits(StateAfter(cfg, calls, |calls|), cfg, now) <==> LogAllows(cfg, all, |calls|)))
  {
    var cfg := PerWindow(limit, windowMs);
    var all := calls + [now];
    PrefixStates(cfg, calls, all, |calls|);
    PerWindowIsValid(limit, windowMs);
    if NonDecreasing(all) {
      BucketEqualsSlidingLog(cfg, all, |calls|);
    }
  }

  lemma {:induction false} PrefixStates(cfg: Config, calls: seq<int>, all: seq<int>, k: nat)
    requires calls <= all && k <= |calls|
    ensures StateAfter(cfg, all, k) == StateAfter(cfg, calls, k)
  {
    if k > 0 {
      PrefixStates(cfg, calls, all, k - 1);
    }
  }
}
