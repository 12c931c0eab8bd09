/** The edge's token bucket in exact arithmetic: which calls it grants, for every sequence of request times. */
module TokenBuckets {
  import opened Wrappers

  datatype TokenBucket = TokenBucket(tokens: real, updatedAt: int)

  datatype Limit = Limit(capacity: nat, windowMs: nat)

  const SEND_LIMIT := Limit(30, 60_000)
  const AUTH_LIMIT := Limit(10, 60_000)

  function Rate(limit: Limit): real
    requires limit.windowMs > 0
  {
    limit.capacity as real / limit.windowMs as real
  }

  /** What a stretch of time refills. */
  function Refill(ms: int, limit: Limit): real
    requires limit.windowMs > 0
  {
    ms as real * Rate(limit)
  }

  function Filled(bucket: Option<TokenBucket>, now: int, limit: Limit): real
    requires limit.windowMs > 0
  {
    var capacity := limit.capacity as real;
    var previous := if bucket.Some? then bucket.value else TokenBucket(capacity, now);
    var refilled := previous.tokens + Refill(Max(0, now - previous.updatedAt), limit);
    if capacity < refilled then capacity else refilled
  }

  function TakeToken(bucket: Option<TokenBucket>, now: int, limit: Limit): (bool, TokenBucket)
    requires limit.windowMs > 0
  {
    var filled := Filled(bucket, now, limit);
    if filled < 1.0 then (false, TokenBucket(filled, now)) else (true, TokenBucket(filled - 1.0, now))
  }

  /** The stored bucket after the first n calls, starting from none. */
  function After(times: seq<int>, n: nat, limit: Limit): Option<TokenBucket>
    requires n <= |times| && limit.windowMs > 0
  {
    if n == 0 then None else Some(TakeToken(After(times, n - 1, limit), times[n - 1], limit).1)
  }

  predicate Granted(times: seq<int>, n: nat, limit: Limit)
    requires n < |times| && limit.windowMs > 0
  {
    TakeToken(After(times, n, limit), times[n], limit).0
  }

  function Level(times: seq<int>, n: nat, limit: Limit): real
    requires n < |times| && limit.windowMs > 0
  {
    Filled(After(times, n, limit), times[n], limit)
  }

  /** Grants among calls k..n, the last excluded. */
  function Grants(times: seq<int>, k: nat, n: nat, limit: Limit): nat
    requires k <= n <= |times| && limit.windowMs > 0
    decreases n
  {
    if k == n then 0 else Grants(times, k, n - 1, limit) + if Granted(times, n - 1, limit) then 1 else 0
  }

  /** The time the bucket sees pass from call k to call n: a step back counts as none, and the way up again counts anew. */
  function Elapsed(times: seq<int>, k: nat, n: nat): (ms: nat)
    requires k <= n < |times|
    decreases n
  {
    if k == n then 0 else Elapsed(times, k, n - 1) + Max(0, times[n] - times[n - 1])
  }

  /** What a window that opens with call k still allows when call n arrives. */
  function Allowance(times: seq<int>, k: nat, n: nat, limit: Limit): real
    requires k <= n < |times| && limit.windowMs > 0
  {
    limit.capacity as real + Refill(Elapsed(times, k, n), limit) - Grants(times, k, n, limit) as real
  }

  lemma RefillAdds(a: int, b: int, limit: Limit)
    requires limit.windowMs > 0
    ensures Refill(a + b, limit) == Refill(a, limit) + Refill(b, limit)
  {
    assert (a + b) as real == a as real + b as real;
  }

  lemma RefillSign(ms: int, limit: Limit)
    requires limit.windowMs > 0
    ensures ms >= 0 ==> Refill(ms, limit) >= 0.0
    ensures Refill(0, limit) == 0.0
  {
    assert Rate(limit) >= 0.0;
  }

  lemma AllowanceStep(times: seq<int>, k: nat, n: nat, limit: Limit)
    requires limit.windowMs > 0 && k <= n && n + 1 < |times|
    ensures Allowance(times, k, n + 1, limit)
         == Allowance(times, k, n, limit) - (if Granted(times, n, limit) then 1.0 else 0.0)
            + Refill(Max(0, times[n + 1] - times[n]), limit)
  {
    hide Refill;
    RefillAdds(Elapsed(times, k, n), Max(0, times[n + 1] - times[n]), limit);
  }

  lemma LevelStep(times: seq<int>, n: nat, limit: Limit)
    requires limit.windowMs > 0 && n + 1 < |times|
    ensures var next := Level(times, n, limit) - (if Granted(times, n, limit) then 1.0 else 0.0)
                        + Refill(Max(0, times[n + 1] - times[n]), limit);
            Level(times, n + 1, limit) == if limit.capacity as real < next then limit.capacity as real else next
  {
    hide Refill;
  }

  /** No window that ends here allows less than the level. */
  lemma {:induction false} LevelWithinAllowance(times: seq<int>, k: nat, n: nat, limit: Limit)
    requires limit.windowMs > 0 && k <= n < |times|
    ensures Level(times, n, limit) <= Allowance(times, k, n, limit)
    decreases n
  {
    hide Refill;
    if k < n {
      LevelWithinAllowance(times, k, n - 1, limit);
      AllowanceStep(times, k, n - 1, limit);
      LevelStep(times, n - 1, limit);
    } else {
      RefillSign(0, limit);
      LevelAtMostCapacity(times, n, limit);
    }
  }

  lemma LevelAtMostCapacity(times: seq<int>, n: nat, limit: Limit)
    requires limit.windowMs > 0 && n < |times|
    ensures Level(times, n, limit) <= limit.capacity as real
  {
    hide Refill;
  }

  /** And one of them allows exactly the level. */
  lemma {:induction false} LevelIsSomeAllowance(times: seq<int>, n: nat, limit: Limit) returns (k: nat)
    requires limit.windowMs > 0 && n < |times|
    ensures k <= n && Level(times, n, limit) == Allowance(times, k, n, limit)
    decreases n
  {
    hide Refill;
    k := n;
    RefillSign(0, limit);
    if n > 0 && Level(times, n, limit) != limit.capacity as real {
      k := LevelIsSomeAllowance(times, n - 1, limit);
      AllowanceStep(times, k, n - 1, limit);
      LevelStep(times, n - 1, limit);
    }
  }

  /**
   * Whatever the clock does, a call is refused exactly when granting it would push some window that ends with it past its
   * bound, time counted as the bucket sees it pass.
   */
  lemma RefusedIffWindowFull(times: seq<int>, n: nat, limit: Limit)
    requires limit.windowMs > 0 && n < |times|
    ensures !Granted(times, n, limit) <==> exists k | 0 <= k <= n :: Allowance(times, k, n, limit) < 1.0
  {
    hide Refill;
    var k := LevelIsSomeAllowance(times, n, limit);
    forall j | 0 <= j <= n ensures Level(times, n, limit) <= Allowance(times, j, n, limit) {
      LevelWithinAllowance(times, j, n, limit);
    }
  }

  /** So grants among calls i..j, both included, never exceed the capacity plus what the time seen between them refills. */
  lemma {:induction false} GrantsBoundedBySeen(times: seq<int>, i: nat, j: nat, limit: Limit)
    requires limit.windowMs > 0 && i <= j < |times|
    ensures Grants(times, i, j + 1, limit) as real <= limit.capacity as real + Refill(Elapsed(times, i, j), limit)
    decreases j
  {
    hide Refill;
    RefillSign(Elapsed(times, i, j), limit);
    if Granted(times, j, limit) {
      LevelWithinAllowance(times, i, j, limit);
    } else if i < j {
      GrantsBoundedBySeen(times, i, j - 1, limit);
      RefillAdds(Elapsed(times, i, j - 1), Max(0, times[j] - times[j - 1]), limit);
      RefillSign(Max(0, times[j] - times[j - 1]), limit);
    }
  }

  /** The time seen is the time passed exactly when the clock never steps back in between. */
  lemma {:induction false} SeenIsPassedIff(times: seq<int>, k: nat, n: nat)
    requires k <= n < |times|
    ensures Elapsed(times, k, n) >= times[n] - times[k]
    ensures Elapsed(times, k, n) == times[n] - times[k] <==> forall i | k <= i < n :: times[i] <= times[i + 1]
    decreases n
  {
    if k < n {
      SeenIsPassedIff(times, k, n - 1);
      assert Elapsed(times, k, n) - (times[n] - times[k])
             == (Elapsed(times, k, n - 1) - (times[n - 1] - times[k])) + (Max(0, times[n] - times[n - 1]) - (times[n] - times[n - 1]));
      assert (forall i | k <= i < n :: times[i] <= times[i + 1])
             <==> (forall i | k <= i < n - 1 :: times[i] <= times[i + 1]) && times[n - 1] <= times[n];
    }
  }

  /** Where the clock never steps back between them, grants among calls i..j stay within what the time between refills. */
  lemma GrantsBounded(times: seq<int>, i: nat, j: nat, limit: Limit)
    requires limit.windowMs > 0 && i <= j < |times| && forall k | i <= k < j :: times[k] <= times[k + 1]
    ensures Grants(times, i, j + 1, limit) as real <= limit.capacity as real + Refill(times[j] - times[i], limit)
  {
    GrantsBoundedBySeen(times, i, j, limit);
    SeenIsPassedIff(times, i, j);
  }

  /** Refilling is proportional: a whole window refills the capacity. */
  lemma RefillIsProportional(ms: int, limit: Limit)
    requires limit.windowMs > 0
    ensures Refill(ms, limit) * limit.windowMs as real == (ms * limit.capacity) as real
  {
    var w, c := limit.windowMs as real, limit.capacity as real;
    assert Rate(limit) * w == c;
    assert Refill(ms, limit) * w == ms as real * (Rate(limit) * w);
    assert ms as real * c == (ms * limit.capacity) as real;
  }

  /** The bound in whole numbers: grants times the window are at most the capacity times window and time seen together. */
  lemma GrantsBoundedInWhole(times: seq<int>, i: nat, j: nat, limit: Limit)
    requires limit.windowMs > 0 && i <= j < |times|
    ensures Grants(times, i, j + 1, limit) * limit.windowMs <= limit.capacity * (limit.windowMs + Elapsed(times, i, j))
  {
    hide Refill, Grants, Elapsed;
    GrantsBoundedBySeen(times, i, j, limit);
    var ms, g := Elapsed(times, i, j), Grants(times, i, j + 1, limit);
    RefillIsProportional(ms, limit);
    InWhole(g, limit.capacity, limit.windowMs, ms, Refill(ms, limit));
  }

  lemma InWhole(grants: nat, capacity: nat, window: nat, ms: nat, refill: real)
    requires window > 0 && grants as real <= capacity as real + refill && refill * window as real == (ms * capacity) as real
    ensures grants * window <= capacity * (window + ms)
  {
    var w := window as real;
    assert grants as real * w <= (capacity as real + refill) * w;
    assert (capacity as real + refill) * w == capacity as real * w + refill * w;
    assert grants as real * w == (grants * window) as real && capacity as real * w == (capacity * window) as real;
    assert capacity * (window + ms) == capacity * window + ms * capacity;
  }

  // ---- the bound in passed time holds for every limit exactly when the clock never steps back

  lemma {:induction false} GrantsAdd(times: seq<int>, i: nat, k: nat, n: nat, limit: Limit)
    requires limit.windowMs > 0 && i <= k <= n <= |times|
    ensures Grants(times, i, n, limit) == Grants(times, i, k, limit) + Grants(times, k, n, limit)
    decreases n
  {
    if k < n {
      GrantsAdd(times, i, k, n - 1, limit);
    }
  }

  lemma FirstIsGranted(times: seq<int>, windowMs: nat)
    requires times != [] && windowMs > 0
    ensures Granted(times, 0, Limit(1, windowMs)) && Grants(times, 0, 1, Limit(1, windowMs)) == 1
  {
    RefillSign(0, Limit(1, windowMs));
    hide Refill;
    assert Grants(times, 0, 0, Limit(1, windowMs)) == 0;
  }

  /** One token per window as long as the time seen from first to last: at least two calls are granted. */
  lemma TwoAreGranted(times: seq<int>, j: nat)
    requires 0 < j < |times| && Elapsed(times, 0, j) > 0
    ensures Grants(times, 0, j + 1, Limit(1, Elapsed(times, 0, j))) >= 2
  {
    var limit := Limit(1, Elapsed(times, 0, j));
    FirstIsGranted(times, limit.windowMs);
    GrantsAdd(times, 0, 1, j, limit);
    if !Granted(times, j, limit) {
      RefusedIffWindowFull(times, j, limit);
      var k :| 0 <= k <= j && Allowance(times, k, j, limit) < 1.0;
      RefillSign(Elapsed(times, k, j), limit);
      WholeWindow(limit);
      hide Refill;
      GrantsAdd(times, 0, k, j, limit);
      if k > 0 {
        GrantsAdd(times, 0, 1, k, limit);
      }
    }
  }

  lemma WholeWindow(limit: Limit)
    requires limit.capacity == 1 && limit.windowMs > 0
    ensures Refill(limit.windowMs, limit) == 1.0
    ensures forall ms: int :: ms < limit.windowMs ==> Refill(ms, limit) < 1.0
  {
    assert Rate(limit) * limit.windowMs as real == 1.0;
    forall ms: int | ms < limit.windowMs ensures Refill(ms, limit) < 1.0 {
      RefillAdds(ms, limit.windowMs - ms, limit);
      assert (limit.windowMs - ms) as real > 0.0 && Rate(limit) > 0.0;
    }
  }

  predicate WithinPassed(times: seq<int>, j: nat, limit: Limit)
    requires limit.windowMs > 0 && j < |times|
  {
    Grants(times, 0, j + 1, limit) as real <= limit.capacity as real + Refill(times[j] - times[0], limit)
  }

  lemma BoundHoldsIff(times: seq<int>, j: nat)
    requires j < |times|
    ensures (forall limit: Limit | limit.windowMs > 0 :: WithinPassed(times, j, limit))
            <==> forall i | 0 <= i < j :: times[i] <= times[i + 1]
  {
    SeenIsPassedIff(times, 0, j);
    var seen, passed := Elapsed(times, 0, j), times[j] - times[0];
    if seen == passed {
      forall limit: Limit | limit.windowMs > 0 ensures WithinPassed(times, j, limit) {
        GrantsBounded(times, 0, j, limit);
      }
    } else if seen > 0 {
      TwoAreGranted(times, j);
      WholeWindow(Limit(1, seen));
      assert !WithinPassed(times, j, Limit(1, seen));
    } else {
      FirstIsGranted(times, 1);
      GrantsAdd(times, 0, 1, j + 1, Limit(1, 1));
      assert Rate(Limit(1, 1)) == 1.0;
      assert !WithinPassed(times, j, Limit(1, 1));
    }
  }

  lemma {:induction false} TokensInRange(times: seq<int>, n: nat, limit: Limit)
    requires limit.windowMs > 0 && n <= |times|
    ensures n > 0 ==> 0.0 <= After(times, n, limit).value.tokens <= limit.capacity as real
    ensures n > 0 ==> After(times, n, limit).value.updatedAt == times[n - 1]
  {
    hide Refill;
    if n > 0 {
      TokensInRange(times, n - 1, limit);
      RefillSign(0, limit);
      if n > 1 {
        RefillSign(Max(0, times[n - 1] - times[n - 2]), limit);
      }
    }
  }

  // ---- a refused call is invisible

  function Without(times: seq<int>, k: nat): seq<int>
    requires k < |times|
  {
    times[..k] + times[k + 1..]
  }

  lemma {:induction false} SamePrefix(times: seq<int>, other: seq<int>, n: nat, limit: Limit)
    requires limit.windowMs > 0 && n <= |times| && n <= |other| && times[..n] == other[..n]
    ensures After(times, n, limit) == After(other, n, limit)
  {
    hide Refill;
    if n > 0 {
      assert times[n - 1] == times[..n][n - 1] == other[n - 1];
      assert times[..n - 1] == times[..n][..n - 1] == other[..n - 1];
      SamePrefix(times, other, n - 1, limit);
    }
  }

  /** A refusal only moves the clock of the bucket: every later fill comes out the same. */
  lemma RefusalFillsAlike(bucket: Option<TokenBucket>, at: int, later: int, limit: Limit)
    requires limit.windowMs > 0
    requires bucket.Some? ==> bucket.value.updatedAt <= at <= later || bucket.value.updatedAt >= at >= later
    requires !TakeToken(bucket, at, limit).0
    ensures Filled(Some(TakeToken(bucket, at, limit).1), later, limit) == Filled(bucket, later, limit)
  {
    hide Refill;
    RefillSign(Max(0, later - at), limit);
    RefillSign(0, limit);
    if bucket.Some? {
      RefillAdds(at - bucket.value.updatedAt, later - at, limit);
    }
  }

  /** The clock does not turn at call k: it runs on through it, or back through it. */
  predicate InOrderAround(times: seq<int>, k: nat)
    requires k < |times|
  {
    0 < k < |times| - 1 ==> times[k - 1] <= times[k] <= times[k + 1] || times[k - 1] >= times[k] >= times[k + 1]
  }

  lemma {:induction false} ShiftedAfter(times: seq<int>, k: nat, n: nat, limit: Limit)
    requires limit.windowMs > 0 && k < n < |times| && InOrderAround(times, k) && !Granted(times, k, limit)
    ensures Filled(After(times, n, limit), times[n], limit)
         == Filled(After(Without(times, k), n - 1, limit), Without(times, k)[n - 1], limit)
    decreases n
  {
    hide Refill;
    var fewer := Without(times, k);
    assert fewer[n - 1] == times[n];
    if n == k + 1 {
      SamePrefix(times, fewer, k, limit);
      TokensInRange(times, k, limit);
      RefusalFillsAlike(After(times, k, limit), times[k], times[n], limit);
    } else {
      ShiftedAfter(times, k, n - 1, limit);
      assert fewer[n - 2] == times[n - 1];
    }
  }

  /** Removing a refused call changes no other call's outcome, if the clock does not turn at it. */
  lemma RefusedIsInvisible(times: seq<int>, k: nat, n: nat, limit: Limit)
    requires limit.windowMs > 0 && k < |times| && InOrderAround(times, k) && !Granted(times, k, limit) && n < |times| && n != k
    ensures Granted(times, n, limit) == Granted(Without(times, k), if n < k then n else n - 1, limit)
  {
    if n < k {
      SamePrefix(times, Without(times, k), n, limit);
    } else {
      ShiftedAfter(times, k, n, limit);
    }
  }

  /** A clock that steps back refills the same time twice: three grants where the window bound allows two. */
  lemma ClockStepsBack()
    ensures var times, limit := [0, 100, 0, 100], Limit(1, 100);
            Grants(times, 0, 4, limit) == 3
            && Grants(times, 0, 4, limit) as real > limit.capacity as real + Refill(times[3] - times[0], limit)
  {
    var times, limit := [0, 100, 0, 100], Limit(1, 100);
    assert Rate(limit) * 100.0 == 1.0;
    assert After(times, 1, limit) == Some(TokenBucket(0.0, 0));
    assert After(times, 2, limit) == Some(TokenBucket(0.0, 100));
    assert After(times, 3, limit) == Some(TokenBucket(0.0, 0));
    assert Granted(times, 0, limit) && Granted(times, 1, limit) && !Granted(times, 2, limit) && Granted(times, 3, limit);
    assert Grants(times, 0, 1, limit) == 1 && Grants(times, 0, 2, limit) == 2 && Grants(times, 0, 3, limit) == 2;
  }
}
