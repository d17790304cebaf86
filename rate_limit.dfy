/**
 * The sliding-window rate limiter that gates every verification: per source
 * IP, the timestamps of recent attempts; an attempt is allowed while fewer
 * than five of them lie within the last 60 000 ms.
 */
module RateLimit {

  const RATE_LIMIT_WINDOW_MS: int := 60 * 1000
  const MAX_ATTEMPTS_PER_WINDOW: nat := 5

  /** `t` still lies inside the window that ends at `now`. */
  predicate InWindow(t: int, now: int) {
    now - t < RATE_LIMIT_WINDOW_MS
  }

  /** `attempts.filter(t => now - t < RATE_LIMIT_WINDOW_MS)`. */
  function Recent(attempts: seq<int>, now: int): (r: seq<int>)
    ensures |r| <= |attempts|
    ensures forall t :: t in r <==> t in attempts && InWindow(t, now)
    decreases |attempts|
  {
    if attempts == [] then []
    else
      var rest := Recent(attempts[1..], now);
      if InWindow(attempts[0], now) then [attempts[0]] + rest else rest
  }

  /** What one check decides: the verdict, the list stored back, and whether to log the block. */
  datatype Decision = Decision(allowed: bool, stored: seq<int>, alert: bool)

  /**
   * `checkRateLimit` on the attempts stored for one IP: a blocked call stores
   * only the pruned list and alerts when exactly the cap is recent; an allowed
   * call stores the pruned list with `now` appended.
   */
  function Check(attempts: seq<int>, now: int): (d: Decision)
    ensures d.allowed <==> |Recent(attempts, now)| < MAX_ATTEMPTS_PER_WINDOW
    ensures d.allowed ==> d.stored == Recent(attempts, now) + [now] && !d.alert
    ensures !d.allowed ==> d.stored == Recent(attempts, now)
    ensures d.alert <==> |Recent(attempts, now)| == MAX_ATTEMPTS_PER_WINDOW
  {
    var recent := Recent(attempts, now);
    if |recent| >= MAX_ATTEMPTS_PER_WINDOW then
      Decision(false, recent, |recent| == MAX_ATTEMPTS_PER_WINDOW)
    else
      Decision(true, recent + [now], false)
  }

  /** The attempts stored for `ip`, empty when none are (`rateLimitStore.get(ip) || []`). */
  function AttemptsOf(store: map<string, seq<int>>, ip: string): seq<int> {
    if ip in store then store[ip] else []
  }

  /** Every stored list holds at most the cap. */
  ghost predicate Bounded(store: map<string, seq<int>>) {
    forall ip :: ip in store ==> |store[ip]| <= MAX_ATTEMPTS_PER_WINDOW
  }

  /** A check never lets a list grow past the cap. */
  lemma CheckKeepsBound(attempts: seq<int>, now: int)
    requires |attempts| <= MAX_ATTEMPTS_PER_WINDOW
    ensures |Check(attempts, now).stored| <= MAX_ATTEMPTS_PER_WINDOW
  {
  }

  /** Under the bound, every blocked call is the one that logs (`count == cap`). */
  lemma BlockedCallAlerts(attempts: seq<int>, now: int)
    requires |attempts| <= MAX_ATTEMPTS_PER_WINDOW
    ensures !Check(attempts, now).allowed ==> Check(attempts, now).alert
  {
  }

  /** When every stored attempt is recent, pruning keeps them all. */
  lemma {:induction false} RecentKeepsAll(attempts: seq<int>, now: int)
    requires forall i :: 0 <= i < |attempts| ==> InWindow(attempts[i], now)
    ensures Recent(attempts, now) == attempts
    decreases |attempts|
  {
    if attempts != [] {
      RecentKeepsAll(attempts[1..], now);
    }
  }

  /** An attempt outside the window is pruned, so the pruned list is strictly shorter. */
  lemma {:induction false} RecentDropsStale(attempts: seq<int>, now: int, k: nat)
    requires k < |attempts| && !InWindow(attempts[k], now)
    ensures |Recent(attempts, now)| < |attempts|
    decreases |attempts|
  {
    if k > 0 {
      RecentDropsStale(attempts[1..], now, k - 1);
    }
  }

  /** Below the cap, and with all attempts recent, a call is allowed and recorded. */
  lemma AllowedBelowCap(attempts: seq<int>, now: int)
    requires |attempts| < MAX_ATTEMPTS_PER_WINDOW
    requires forall i :: 0 <= i < |attempts| ==> InWindow(attempts[i], now)
    ensures Check(attempts, now) == Decision(true, attempts + [now], false)
  {
    RecentKeepsAll(attempts, now);
  }

  /** With the cap's worth of recent attempts, the next call (the sixth) is blocked and logged. */
  lemma BlockedAtCap(attempts: seq<int>, now: int)
    requires |attempts| == MAX_ATTEMPTS_PER_WINDOW
    requires forall i :: 0 <= i < |attempts| ==> InWindow(attempts[i], now)
    ensures Check(attempts, now) == Decision(false, attempts, true)
  {
    RecentKeepsAll(attempts, now);
  }

  /** Once one of the stored attempts has aged out of the window, one more call is allowed. */
  lemma AllowedAfterAgeOut(attempts: seq<int>, now: int, k: nat)
    requires |attempts| <= MAX_ATTEMPTS_PER_WINDOW
    requires k < |attempts| && !InWindow(attempts[k], now)
    ensures Check(attempts, now).allowed
  {
    RecentDropsStale(attempts, now, k);
  }

  /** Five calls at one instant from a fresh source are allowed; the sixth is blocked. */
  lemma FiveThenBlocked(now: int)
    ensures var d1 := Check([], now);
            var d2 := Check(d1.stored, now);
            var d3 := Check(d2.stored, now);
            var d4 := Check(d3.stored, now);
            var d5 := Check(d4.stored, now);
            var d6 := Check(d5.stored, now);
            d1.allowed && d2.allowed && d3.allowed && d4.allowed && d5.allowed
            && !d6.allowed && d6.alert
  {
    var s1, s2, s3, s4, s5 := [now], [now, now], [now, now, now], [now, now, now, now], [now, now, now, now, now];
    AllowedBelowCap([], now);
    assert Check([], now).stored == s1;
    AllowedBelowCap(s1, now);
    assert Check(s1, now).stored == s2;
    AllowedBelowCap(s2, now);
    assert Check(s2, now).stored == s3;
    AllowedBelowCap(s3, now);
    assert Check(s3, now).stored == s4;
    AllowedBelowCap(s4, now);
    assert Check(s4, now).stored == s5;
    BlockedAtCap(s5, now);
  }

  /** The attempts made at or after `lo`. */
  function Since(attempts: seq<int>, lo: int): (r: seq<int>)
    ensures |r| <= |attempts|
    decreases |attempts|
  {
    if attempts == [] then []
    else
      var rest := Since(attempts[1..], lo);
      if attempts[0] >= lo then [attempts[0]] + rest else rest
  }

  /** While `now` is less than a window after `lo`, every attempt since `lo` is still recent. */
  lemma {:induction false} SinceIsRecent(attempts: seq<int>, lo: int, now: int)
    requires now - lo < RATE_LIMIT_WINDOW_MS
    ensures Since(Recent(attempts, now), lo) == Since(attempts, lo)
    decreases |attempts|
  {
    if attempts != [] {
      SinceIsRecent(attempts[1..], lo, now);
    }
  }

  /** Appending an attempt made at or after `lo` adds one to the count since `lo`. */
  lemma {:induction false} SinceAppend(attempts: seq<int>, lo: int, t: int)
    requires t >= lo
    ensures Since(attempts + [t], lo) == Since(attempts, lo) + [t]
    decreases |attempts|
  {
    if attempts == [] {
      assert [] + [t] == [t];
    } else {
      assert (attempts + [t])[1..] == attempts[1..] + [t];
      SinceAppend(attempts[1..], lo, t);
    }
  }

  /**
   * Within one window that starts at `lo`, every allowed call adds one
   * attempt since `lo`, and once the cap's worth of such attempts is stored
   * the call is blocked: a burst of calls is throttled by its sixth call.
   */
  lemma BurstIsThrottled(attempts: seq<int>, lo: int, now: int)
    requires lo <= now < lo + RATE_LIMIT_WINDOW_MS
    ensures |Since(attempts, lo)| >= MAX_ATTEMPTS_PER_WINDOW ==> !Check(attempts, now).allowed
    ensures Check(attempts, now).allowed ==>
              |Since(Check(attempts, now).stored, lo)| == |Since(attempts, lo)| + 1
  {
    SinceIsRecent(attempts, lo, now);
    assert |Since(attempts, lo)| <= |Recent(attempts, now)|;
    SinceAppend(Recent(attempts, now), lo, now);
  }
}
