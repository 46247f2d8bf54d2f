/** The Redis token bucket of rate_limit.go over exact arithmetic: the script's one step, the bucket it is
    equal to, and what the response headers promise. */
module RateLimit {
  import opened Domain

  /** A limiter: max_tokens, and the tokens that accrue in a number of milliseconds. */
  datatype Config = Config(limit: nat, refill: int -> real)

  /** The hash stored at the key: tokens and last_refreshed. */
  datatype Bucket = Bucket(tokens: real, last: int)

  const KEY_TTL: nat := DAY

  ghost predicate Splits(f: int -> real, x: int, y: int) {
    f(x + y) == f(x) + f(y)
  }

  /** Accrual is additive and never negative. */
  ghost predicate Valid(cfg: Config) {
    && (forall x, y {:trigger Splits(cfg.refill, x, y)} :: Splits(cfg.refill, x, y))
    && (forall x :: x >= 0 ==> cfg.refill(x) >= 0.0)
  }

  /** The script's own rule: elapsed * refill_rate. */
  function Linear(rate: real): int -> real {
    (ms: int) => ms as real * rate
  }

  /** The middleware's limiter: limit requests per windowMs milliseconds. */
  function PerWindow(limit: nat, windowMs: nat): Config
    requires windowMs > 0
  {
    Config(limit, Linear(limit as real / windowMs as real))
  }

  lemma PerWindowIsValid(limit: nat, windowMs: nat)
    requires windowMs > 0
    ensures Valid(PerWindow(limit, windowMs))
    ensures PerWindow(limit, windowMs).refill(windowMs) == limit as real
  {
  }

  function Min(x: real, y: real): real {
    if x <= y then x else y
  }

  // ---------------------------------------------------------------- one call of the script

  function Refilled(b: Option<Bucket>, cfg: Config, now: int): Bucket
  {
    match b
    case None => Bucket(cfg.limit as real, now)
    case Some(k) =>
      if now > k.last then Bucket(Min(cfg.limit as real, k.tokens + cfg.refill(now - k.last)), now) else k
  }

  predicate Admits(b: Option<Bucket>, cfg: Config, now: int)
  {
    Refilled(b, cfg, now).tokens >= 1.0
  }

  function Called(b: Option<Bucket>, cfg: Config, now: int): Bucket
  {
    var r := Refilled(b, cfg, now);
    if r.tokens >= 1.0 then r.(tokens := r.tokens - 1.0) else r
  }

  // ---------------------------------------------------------------- histories

  /** The stored hash after the first k calls, made at clocks[0], clocks[1], ... */
  function StateAfter(cfg: Config, clocks: seq<int>, k: nat): Option<Bucket>
    requires k <= |clocks|
  {
    if k == 0 then None else Some(Called(StateAfter(cfg, clocks, k - 1), cfg, clocks[k - 1]))
  }

  predicate AllowedAt(cfg: Config, clocks: seq<int>, k: nat)
    requires k < |clocks|
  {
    Admits(StateAfter(cfg, clocks, k), cfg, clocks[k])
  }

  /** Calls i, i+1, ..., k-1 that were admitted. */
  function Admitted(cfg: Config, clocks: seq<int>, i: nat, k: nat): nat
    requires i <= k <= |clocks|
    decreases k
  {
    if k == i then 0 else Admitted(cfg, clocks, i, k - 1) + (if AllowedAt(cfg, clocks, k - 1) then 1 else 0)
  }

  predicate NonDecreasing(clocks: seq<int>) {
    forall i, j :: 0 <= i < j < |clocks| ==> clocks[i] <= clocks[j]
  }

  function RunningMax(clocks: seq<int>, k: nat): int
    requires 0 < k <= |clocks|
  {
    if k == 1 then clocks[0]
    else if RunningMax(clocks, k - 1) < clocks[k - 1] then clocks[k - 1] else RunningMax(clocks, k - 1)
  }

  // ---------------------------------------------------------------- the sliding log

  /** The reference limiter keeps every past request. A request passes when, for each request i so far and
      itself, those it admitted since i plus this one fit into the limit plus what accrued since i. */
  predicate LogAllows(cfg: Config, clocks: seq<int>, k: nat)
    requires k < |clocks|
    decreases k, 1, 0
  {
    forall i :: 0 <= i <= k ==>
      LogAdmitted(cfg, clocks, i, k) as real + 1.0 <= cfg.limit as real + cfg.refill(clocks[k] - clocks[i])
  }

  function LogAdmitted(cfg: Config, clocks: seq<int>, i: nat, k: nat): nat
    requires i <= k <= |clocks|
    decreases k, 0, k - i
  {
    if k == i then 0 else LogAdmitted(cfg, clocks, i, k - 1) + (if LogAllows(cfg, clocks, k - 1) then 1 else 0)
  }

  // ---------------------------------------------------------------- arithmetic

  lemma Accrues(cfg: Config, a: int, b: int, c: int)
    requires Valid(cfg)
    ensures cfg.refill(c - a) == cfg.refill(c - b) + cfg.refill(b - a)
  {
    assert Splits(cfg.refill, c - b, b - a);
    assert (c - b) + (b - a) == c - a;
  }

  lemma NothingAccrues(cfg: Config)
    requires Valid(cfg)
    ensures cfg.refill(0) == 0.0
  {
    assert Splits(cfg.refill, 0, 0);
  }

  // ---------------------------------------------------------------- any clocks at all

  /** Whatever the clocks do, the tokens stay within [0, limit] and last_refreshed is the running maximum. */
  lemma {:induction false} BucketBounds(cfg: Config, clocks: seq<int>, k: nat)
    requires Valid(cfg) && 0 < k <= |clocks|
    ensures var b := StateAfter(cfg, clocks, k);
            b.Some? && 0.0 <= b.value.tokens <= cfg.limit as real && b.value.last == RunningMax(clocks, k)
  {
    if k > 1 {
      BucketBounds(cfg, clocks, k - 1);
      var b := StateAfter(cfg, clocks, k - 1).value;
      if clocks[k - 1] > b.last {
        assert cfg.refill(clocks[k - 1] - b.last) >= 0.0;
      }
    }
  }

  /** The bucket that call i starts from; before the first call there is none, which counts as full. */
  function Before(cfg: Config, clocks: seq<int>, i: nat): Bucket
    requires i <= |clocks| && clocks != []
  {
    if i == 0 then Bucket(cfg.limit as real, clocks[0]) else StateAfter(cfg, clocks, i).value
  }

  lemma BeforeBounds(cfg: Config, clocks: seq<int>, i: nat)
    requires Valid(cfg) && i <= |clocks| && clocks != []
    ensures 0.0 <= Before(cfg, clocks, i).tokens <= cfg.limit as real
    ensures Before(cfg, clocks, i).last == RunningMax(clocks, if i == 0 then 1 else i)
  {
    if i > 0 {
      BucketBounds(cfg, clocks, i);
    }
  }

  /** Conservation: what any stretch of calls admits, also one from the very first call, was there at its start or
      accrued as last_refreshed moved. */
  lemma {:induction false} AdmissionsAreFunded(cfg: Config, clocks: seq<int>, i: nat, k: nat)
    requires Valid(cfg) && i <= k <= |clocks| && clocks != []
    ensures var a := Before(cfg, clocks, i);
            var b := Before(cfg, clocks, k);
            Admitted(cfg, clocks, i, k) as real + b.tokens <= a.tokens + cfg.refill(b.last - a.last)
    decreases k
  {
    if k == i {
      NothingAccrues(cfg);
    } else {
      AdmissionsAreFunded(cfg, clocks, i, k - 1);
      FundedStep(cfg, clocks, i, k - 1, Before(cfg, clocks, i));
    }
  }

  lemma FundedStep(cfg: Config, clocks: seq<int>, i: nat, k: nat, a: Bucket)
    requires Valid(cfg) && i <= k < |clocks|
    requires var c := Before(cfg, clocks, k);
             Admitted(cfg, clocks, i, k) as real + c.tokens <= a.tokens + cfg.refill(c.last - a.last)
    ensures var b := Before(cfg, clocks, k + 1);
            Admitted(cfg, clocks, i, k + 1) as real + b.tokens <= a.tokens + cfg.refill(b.last - a.last)
  {
    CallIsFunded(cfg, clocks, k);
    OneMoreAdmitted(cfg, clocks, i, k);
    var c, b := Before(cfg, clocks, k), Before(cfg, clocks, k + 1);
    Accrues(cfg, a.last, c.last, b.last);
    Added(Admitted(cfg, clocks, i, k) as real, Taken(cfg, clocks, k), a.tokens, c.tokens, b.tokens,
          cfg.refill(c.last - a.last), cfg.refill(b.last - c.last));
  }

  lemma Added(admitted: real, taken: real, a: real, c: real, b: real, first: real, then': real)
    requires admitted + c <= a + first && b + taken <= c + then'
    ensures admitted + taken + b <= a + (then' + first)
  {
  }

  lemma OneMoreAdmitted(cfg: Config, clocks: seq<int>, i: nat, k: nat)
    requires i <= k < |clocks|
    ensures Admitted(cfg, clocks, i, k + 1) as real == Admitted(cfg, clocks, i, k) as real + Taken(cfg, clocks, k)
  {
  }

  /** One call takes at most one token from what was there and what accrued. */
  lemma CallIsFunded(cfg: Config, clocks: seq<int>, k: nat)
    requires Valid(cfg) && k < |clocks|
    ensures var c := Before(cfg, clocks, k);
            var b := Before(cfg, clocks, k + 1);
            b.tokens + Taken(cfg, clocks, k) <= c.tokens + cfg.refill(b.last - c.last)
  {
    NothingAccrues(cfg);
  }

  /** In particular: never more admissions than the tokens at the start and what accrued between the clock maxima. */
  lemma AdmissionsAreBounded(cfg: Config, clocks: seq<int>, i: nat, k: nat)
    requires Valid(cfg) && i <= k <= |clocks| && clocks != []
    ensures Admitted(cfg, clocks, i, k) as real
            <= Before(cfg, clocks, i).tokens
               + cfg.refill(RunningMax(clocks, if k == 0 then 1 else k) - RunningMax(clocks, if i == 0 then 1 else i))
  {
    AdmissionsAreFunded(cfg, clocks, i, k);
    BeforeBounds(cfg, clocks, i);
    BeforeBounds(cfg, clocks, k);
  }

  // ---------------------------------------------------------------- clocks that never run backwards

  /** Tokens available to call k, before it takes one. */
  function Available(cfg: Config, clocks: seq<int>, k: nat): real
    requires k < |clocks|
  {
    Refilled(StateAfter(cfg, clocks, k), cfg, clocks[k]).tokens
  }

  function Taken(cfg: Config, clocks: seq<int>, k: nat): real
    requires k < |clocks|
  {
    if AllowedAt(cfg, clocks, k) then 1.0 else 0.0
  }

  lemma {:induction false} LastIsPrevious(clocks: seq<int>, k: nat)
    requires NonDecreasing(clocks) && 0 < k <= |clocks|
    ensures RunningMax(clocks, k) == clocks[k - 1]
  {
    if k > 1 {
      LastIsPrevious(clocks, k - 1);
    }
  }

  lemma AvailableStep(cfg: Config, clocks: seq<int>, k: nat)
    requires Valid(cfg) && NonDecreasing(clocks) && k + 1 < |clocks|
    ensures Available(cfg, clocks, k + 1) ==
            Min(cfg.limit as real,
                Available(cfg, clocks, k) - Taken(cfg, clocks, k) + cfg.refill(clocks[k + 1] - clocks[k]))
  {
    NothingAccrues(cfg);
    BucketBounds(cfg, clocks, k + 1);
    LastIsPrevious(clocks, k + 1);
  }

  /** What window i leaves for call k. */
  function Window(cfg: Config, clocks: seq<int>, i: nat, k: nat): real
    requires i <= k < |clocks|
  {
    cfg.limit as real + cfg.refill(clocks[k] - clocks[i]) - Admitted(cfg, clocks, i, k) as real
  }

  lemma WindowStep(cfg: Config, clocks: seq<int>, i: nat, k: nat)
    requires Valid(cfg) && i <= k && k + 1 < |clocks|
    ensures Window(cfg, clocks, i, k + 1) ==
            Window(cfg, clocks, i, k) - Taken(cfg, clocks, k) + cfg.refill(clocks[k + 1] - clocks[k])
  {
    Accrues(cfg, clocks[i], clocks[k], clocks[k + 1]);
  }

  lemma WholeWindow(cfg: Config, clocks: seq<int>, k: nat)
    requires Valid(cfg) && k < |clocks|
    ensures Window(cfg, clocks, k, k) == cfg.limit as real
  {
    NothingAccrues(cfg);
  }

  lemma {:induction false} BucketBelowEveryWindow(cfg: Config, clocks: seq<int>, i: nat, k: nat)
    requires Valid(cfg) && NonDecreasing(clocks) && i <= k < |clocks|
    ensures Available(cfg, clocks, k) <= Window(cfg, clocks, i, k)
    decreases k
  {
    if i == k {
      WholeWindow(cfg, clocks, k);
      AvailableAtMostLimit(cfg, clocks, k);
    } else {
      BucketBelowEveryWindow(cfg, clocks, i, k - 1);
      StaysBelow(cfg, clocks, i, k - 1);
    }
  }

  lemma StaysBelow(cfg: Config, clocks: seq<int>, i: nat, k: nat)
    requires Valid(cfg) && NonDecreasing(clocks) && i <= k && k + 1 < |clocks|
    requires Available(cfg, clocks, k) <= Window(cfg, clocks, i, k)
    ensures Available(cfg, clocks, k + 1) <= Window(cfg, clocks, i, k + 1)
  {
    AvailableStep(cfg, clocks, k);
    WindowStep(cfg, clocks, i, k);
  }

  lemma {:induction false} BucketMeetsSomeWindow(cfg: Config, clocks: seq<int>, k: nat) returns (i: nat)
    requires Valid(cfg) && NonDecreasing(clocks) && k < |clocks|
    ensures i <= k && Available(cfg, clocks, k) == Window(cfg, clocks, i, k)
    decreases k
  {
    WholeWindow(cfg, clocks, k);
    i := k;
    if k > 0 {
      AvailableStep(cfg, clocks, k - 1);
      if Available(cfg, clocks, k) != cfg.limit as real {
        i := BucketMeetsSomeWindow(cfg, clocks, k - 1);
        WindowStep(cfg, clocks, i, k - 1);
      }
    }
  }

  /** The stored number is the minimum over all windows that end now. */
  lemma BucketIsMinimumOverWindows(cfg: Config, clocks: seq<int>, k: nat)
    requires Valid(cfg) && NonDecreasing(clocks) && k < |clocks|
    ensures forall i :: 0 <= i <= k ==> Available(cfg, clocks, k) <= Window(cfg, clocks, i, k)
    ensures exists i :: 0 <= i <= k && Available(cfg, clocks, k) == Window(cfg, clocks, i, k)
  {
    forall i | 0 <= i <= k ensures Available(cfg, clocks, k) <= Window(cfg, clocks, i, k) {
      BucketBelowEveryWindow(cfg, clocks, i, k);
    }
    var i := BucketMeetsSomeWindow(cfg, clocks, k);
  }

  /** The O(1) bucket and the unbounded sliding log take the same decision on every call. */
  lemma {:induction false} BucketEqualsSlidingLog(cfg: Config, clocks: seq<int>, k: nat)
    requires Valid(cfg) && NonDecreasing(clocks) && k < |clocks|
    ensures AllowedAt(cfg, clocks, k) <==> LogAllows(cfg, clocks, k)
    decreases k
  {
    BucketIsMinimumOverWindows(cfg, clocks, k);
    forall i | 0 <= i <= k
      ensures LogAdmitted(cfg, clocks, i, k) == Admitted(cfg, clocks, i, k)
    {
      SameCounts(cfg, clocks, i, k);
    }
    assert forall i :: 0 <= i <= k ==>
      (Window(cfg, clocks, i, k) >= 1.0 <==>
       LogAdmitted(cfg, clocks, i, k) as real + 1.0 <= cfg.limit as real + cfg.refill(clocks[k] - clocks[i]));
  }

  lemma {:induction false} SameCounts(cfg: Config, clocks: seq<int>, i: nat, k: nat)
    requires Valid(cfg) && NonDecreasing(clocks) && i <= k < |clocks|
    ensures LogAdmitted(cfg, clocks, i, k) == Admitted(cfg, clocks, i, k)
    decreases k, 0
  {
    if i < k {
      var j := k - 1;
      SameCounts(cfg, clocks, i, j);
      BucketEqualsSlidingLog(cfg, clocks, j);
      assert LogAdmitted(cfg, clocks, i, k) ==
             LogAdmitted(cfg, clocks, i, j) + (if LogAllows(cfg, clocks, j) then 1 else 0);
      assert Admitted(cfg, clocks, i, k) == Admitted(cfg, clocks, i, j) + (if AllowedAt(cfg, clocks, j) then 1 else 0);
    }
  }

  /** Between two admissions-free instants the bucket simply fills up. */
  lemma {:induction false} FillsWhileDenying(cfg: Config, clocks: seq<int>, k: nat, n: nat)
    requires Valid(cfg) && NonDecreasing(clocks) && k <= n < |clocks|
    requires forall j :: k <= j < n ==> !AllowedAt(cfg, clocks, j)
    ensures Available(cfg, clocks, n) ==
            Min(cfg.limit as real, Available(cfg, clocks, k) + cfg.refill(clocks[n] - clocks[k]))
    decreases n
  {
    if k < n {
      FillsWhileDenying(cfg, clocks, k, n - 1);
      AvailableStep(cfg, clocks, n - 1);
      Accrues(cfg, clocks[k], clocks[n - 1], clocks[n]);
    } else {
      NothingAccrues(cfg);
      AvailableAtMostLimit(cfg, clocks, n);
    }
  }

  lemma AvailableAtMostLimit(cfg: Config, clocks: seq<int>, k: nat)
    requires Valid(cfg) && k < |clocks|
    ensures 0.0 <= Available(cfg, clocks, k) <= cfg.limit as real
  {
    if k > 0 {
      BucketBounds(cfg, clocks, k);
      var b := StateAfter(cfg, clocks, k).value;
      if clocks[k] > b.last {
      }
    }
  }

  // ---------------------------------------------------------------- key expiry

  /** What call k finds when the key has been dropped before some of the calls. */
  function Found(cfg: Config, clocks: seq<int>, dropped: seq<bool>, k: nat): Option<Bucket>
    requires k < |clocks| == |dropped|
    decreases k, 1
  {
    if dropped[k] then None else StateWithDrops(cfg, clocks, dropped, k)
  }

  function StateWithDrops(cfg: Config, clocks: seq<int>, dropped: seq<bool>, k: nat): Option<Bucket>
    requires |clocks| == |dropped| && k <= |clocks|
    decreases k, 0
  {
    if k == 0 then None else Some(Called(Found(cfg, clocks, dropped, k - 1), cfg, clocks[k - 1]))
  }

  /** The key disappears only a full TTL after the call that last set it. */
  predicate DropsAreLate(clocks: seq<int>, dropped: seq<bool>)
    requires |clocks| == |dropped|
  {
    forall k :: 0 < k < |clocks| && dropped[k] ==> clocks[k] - clocks[k - 1] >= KEY_TTL
  }

  ghost predicate ExpiryInvisible(cfg: Config) {
    forall clocks: seq<int>, dropped: seq<bool>, k: nat
      {:trigger StateWithDrops(cfg, clocks, dropped, k + 1)} {:trigger Found(cfg, clocks, dropped, k)} ::
      NonDecreasing(clocks) && |clocks| == |dropped| && DropsAreLate(clocks, dropped) && k < |clocks| ==>
      && (Admits(Found(cfg, clocks, dropped, k), cfg, clocks[k]) <==> AllowedAt(cfg, clocks, k))
      && StateWithDrops(cfg, clocks, dropped, k + 1) == StateAfter(cfg, clocks, k + 1)
  }

  /** After an idle TTL that refills the bucket, the stored hash and no hash at all look the same. */
  lemma IdleLooksFresh(cfg: Config, b: Bucket, now: int)
    requires Valid(cfg) && b.tokens >= 0.0 && now - b.last >= KEY_TTL && cfg.refill(KEY_TTL) >= cfg.limit as real
    ensures Refilled(Some(b), cfg, now) == Refilled(None, cfg, now)
  {
    Accrues(cfg, 0, KEY_TTL, now - b.last);
  }

  lemma {:induction false} DropsChangeNothing(cfg: Config, clocks: seq<int>, dropped: seq<bool>, k: nat)
    requires Valid(cfg) && cfg.refill(KEY_TTL) >= cfg.limit as real
    requires NonDecreasing(clocks) && |clocks| == |dropped| && DropsAreLate(clocks, dropped) && k <= |clocks|
    ensures StateWithDrops(cfg, clocks, dropped, k) == StateAfter(cfg, clocks, k)
    ensures k < |clocks| ==>
              Refilled(Found(cfg, clocks, dropped, k), cfg, clocks[k]) ==
              Refilled(StateAfter(cfg, clocks, k), cfg, clocks[k])
    decreases k
  {
    if k > 0 {
      DropsChangeNothing(cfg, clocks, dropped, k - 1);
      if k < |clocks| && dropped[k] {
        BucketBounds(cfg, clocks, k);
        LastIsPrevious(clocks, k);
        IdleLooksFresh(cfg, StateAfter(cfg, clocks, k).value, clocks[k]);
      }
    }
  }

  /** A burst that empties the bucket, and one call a TTL later. */
  function BurstThenWait(n: nat): seq<int> {
    seq(n, _ => 0) + [KEY_TTL]
  }

  lemma {:induction false} BurstEmpties(cfg: Config, k: nat)
    requires Valid(cfg) && k <= cfg.limit
    ensures k > 0 ==> StateAfter(cfg, BurstThenWait(cfg.limit), k) == Some(Bucket((cfg.limit - k) as real, 0))
  {
    if k > 0 {
      BurstEmpties(cfg, k - 1);
      assert BurstThenWait(cfg.limit)[k - 1] == 0;
    }
  }

  /** Expiry of the key a day after its last use is invisible, for every request sequence, exactly when a day
      refills an empty bucket. */
  lemma ExpiryInvisibleIff(cfg: Config)
    requires Valid(cfg)
    ensures ExpiryInvisible(cfg) <==> cfg.refill(KEY_TTL) >= cfg.limit as real
  {
    if cfg.refill(KEY_TTL) >= cfg.limit as real {
      forall clocks: seq<int>, dropped: seq<bool>, k: nat
        | NonDecreasing(clocks) && |clocks| == |dropped| && DropsAreLate(clocks, dropped) && k < |clocks|
        ensures (Admits(Found(cfg, clocks, dropped, k), cfg, clocks[k]) <==> AllowedAt(cfg, clocks, k))
             && StateWithDrops(cfg, clocks, dropped, k + 1) == StateAfter(cfg, clocks, k + 1)
      {
        DropsChangeNothing(cfg, clocks, dropped, k);
        DropsChangeNothing(cfg, clocks, dropped, k + 1);
      }
    } else {
      var n := cfg.limit;
      var clocks := BurstThenWait(n);
      var dropped := seq(n + 1, i => i == n);
      BurstEmpties(cfg, n);
      assert cfg.refill(KEY_TTL) >= 0.0;
      assert clocks[n] == KEY_TTL && dropped[n];
      assert Found(cfg, clocks, dropped, n) == None;
      assert AllowedAt(cfg, clocks, n) ==>
        StateAfter(cfg, clocks, n + 1) != StateWithDrops(cfg, clocks, dropped, n + 1);
    }
  }

  /** For a limiter of `limit` requests per window, that is: exactly when the window is at most a day. */
  lemma WindowsUpToADay(limit: nat, windowMs: nat)
    requires limit > 0 && windowMs > 0
    ensures ExpiryInvisible(PerWindow(limit, windowMs)) <==> windowMs <= 86400000
  {
    var cfg := PerWindow(limit, windowMs);
    PerWindowIsValid(limit, windowMs);
    ExpiryInvisibleIff(cfg);
    Accrues(cfg, 0, KEY_TTL, windowMs);
    Accrues(cfg, 0, windowMs, KEY_TTL);
    if windowMs > KEY_TTL {
      LinearGrows(limit as real / windowMs as real, windowMs - KEY_TTL);
    }
  }

  lemma LinearGrows(rate: real, ms: int)
    requires rate > 0.0 && ms > 0
    ensures Linear(rate)(ms) > 0.0
  {
  }
}
