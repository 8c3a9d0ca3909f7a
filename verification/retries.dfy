/** Retry timing shared by issue creation, recovery and issue sync. */
module Retries {
  import opened Common

  const MAX_ATTEMPTS := 12
  const MAX_BACKOFF_DOUBLINGS := 10

  function Pow2(n: nat): (r: nat)
    ensures r >= 1
  {
    if n == 0 then 1 else 2 * Pow2(n - 1)
  }

  function Min(a: int, b: int): int {
    if a < b then a else b
  }

  function Max(a: int, b: int): int {
    if a < b then b else a
  }

  /** The wait before jitter: what GitHub asked for, or a doubling backoff. */
  function BaseDelay(attempts: nat, retryAfter: Option<int>): nat {
    if retryAfter.Some? then Max(0, retryAfter.value) else Pow2(Min(attempts, MAX_BACKOFF_DOUBLINGS))
  }

  /** The largest jitter that random.randint may add. */
  function JitterBound(base: nat): nat {
    Max(1, Min(base / 4, 60))
  }

  function NextRetryAt(now: Time, attempts: nat, retryAfter: Option<int>, jitter: nat): Time
    requires jitter <= JitterBound(BaseDelay(attempts, retryAfter))
  {
    now + BaseDelay(attempts, retryAfter) + jitter
  }

  lemma {:induction false} Pow2Bounds(n: nat, m: nat)
    requires n <= m
    ensures Pow2(n) <= Pow2(m)
    decreases m
  {
    if n < m {
      Pow2Bounds(n, m - 1);
    }
  }

  /** Without Retry-After the wait after any attempt is between 2 and 1084 seconds, and it is
      at least 2 to the number of attempts until the doubling stops. */
  lemma BackoffRange(now: Time, attempts: nat, jitter: nat)
    requires 1 <= attempts && jitter <= JitterBound(BaseDelay(attempts, None))
    ensures 2 <= NextRetryAt(now, attempts, None, jitter) - now <= 1084
    ensures attempts <= 10 ==> Pow2(attempts) <= NextRetryAt(now, attempts, None, jitter) - now
  {
    var n := Min(attempts, MAX_BACKOFF_DOUBLINGS);
    Pow2Bounds(1, n);
    Pow2Bounds(n, 10);
    assert Pow2(1) == 2;
    assert Pow2(10) == 1024 by {
      assert Pow2(5) == 32;
      assert Pow2(8) == 256;
    }
  }

  /** Both ends of the range are reached. */
  lemma BackoffTight(now: Time)
    ensures NextRetryAt(now, 1, None, 0) == now + 2
    ensures forall attempts: nat :: attempts >= 10 ==>
              JitterBound(BaseDelay(attempts, None)) == 60 && NextRetryAt(now, attempts, None, 60) == now + 1084
  {
    assert Pow2(1) == 2;
    assert Pow2(5) == 32;
    assert Pow2(8) == 256;
    assert Pow2(10) == 1024;
  }

  /** The wait to the second: what was asked for, if not negative, or 2 to the attempt up to the
      tenth, and a jitter of up to a quarter of it, at least one second and at most sixty. */
  lemma WaitExactly(now: Time, attempts: nat, retryAfter: Option<int>, jitter: nat)
    ensures var base := if retryAfter.Some? then (if retryAfter.value < 0 then 0 else retryAfter.value)
                        else if attempts < 10 then Pow2(attempts) else 1024;
            var most := if base < 8 then 1 else if base < 240 then base / 4 else 60;
            && JitterBound(BaseDelay(attempts, retryAfter)) == most
            && (jitter <= most ==> NextRetryAt(now, attempts, retryAfter, jitter) == now + base + jitter)
    ensures Pow2(0) == 1 && Pow2(attempts + 1) == 2 * Pow2(attempts)
  {
    assert Pow2(10) == 1024 by {
      assert Pow2(5) == 32;
      assert Pow2(8) == 256;
    }
  }

  /** GitHub's Retry-After is respected, and exceeded by at most a minute. */
  lemma RetryAfterRespected(now: Time, attempts: nat, retryAfter: int, jitter: nat)
    requires jitter <= JitterBound(BaseDelay(attempts, Some(retryAfter)))
    ensures now <= NextRetryAt(now, attempts, Some(retryAfter), jitter)
    ensures retryAfter <= NextRetryAt(now, attempts, Some(retryAfter), jitter) - now <= Max(0, retryAfter) + 60
  {
  }

  /** The date of the next attempt, whatever jitter is drawn. */
  function Delay(attempts: nat, retryAfter: Option<int>, now: Time, jitter: nat): Time {
    NextRetryAt(now, attempts, retryAfter, Min(jitter, JitterBound(BaseDelay(attempts, retryAfter))))
  }

  /** A wait in seconds after attempt `attempts`: what GitHub asked for and up to a minute more,
      or a backoff that doubles up to the tenth attempt. */
  predicate Waits(wait: int, attempts: nat, retryAfter: Option<int>) {
    match retryAfter
    case Some(asked) => wait >= 0 && asked <= wait <= (if asked < 0 then 0 else asked) + 60
    case None => 2 <= wait <= 1084 && (attempts <= 10 ==> Pow2(attempts) <= wait <= Pow2(attempts) + 60)
                 && (attempts >= 10 ==> wait >= 1024)
  }

  lemma DelayWaits(attempts: nat, retryAfter: Option<int>, now: Time, jitter: nat)
    requires attempts >= 1
    ensures Waits(Delay(attempts, retryAfter, now, jitter) - now, attempts, retryAfter)
  {
    var j := Min(jitter, JitterBound(BaseDelay(attempts, retryAfter)));
    match retryAfter
    case Some(asked) => RetryAfterRespected(now, attempts, asked, j);
    case None =>
      BackoffRange(now, attempts, j);
      assert Pow2(10) == 1024 by {
        assert Pow2(5) == 32;
        assert Pow2(8) == 256;
      }
  }
}
