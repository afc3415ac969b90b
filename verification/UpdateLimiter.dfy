/** How the simulator limits aircraft updates per second: the choice of tokens and interval, and the
    token bucket `CTokenBucket` that hands the tokens out. */
module UpdateLimiter {
  /** `qRound` of a non-negative value. */
  function QRound(r: real): int {
    (r + 0.5).Floor
  }

  /** Integer division as C++ does it: towards zero. */
  function TruncDiv(a: int, b: int): int
    requires b > 0
  {
    if a >= 0 then a / b else -(-a / b)
  }

  function Min(a: int, b: int): int {
    if a < b then a else b
  }

  datatype Bucket = Bucket(capacity: int, available: int, refill: int, intervalMs: int, last: int)

  /** The tokens since the last replenishment; the time moves on only if there are any. */
  function Replenished(b: Bucket, now: int): Bucket
    requires b.intervalMs > 0
  {
    var tokens := TruncDiv(b.refill * (now - b.last), b.intervalMs);
    b.(available := Min(b.available + Min(b.capacity, tokens), b.capacity), last := if tokens > 0 then now else b.last)
  }

  function TryConsume(b: Bucket, tokens: int, now: int): (Bucket, bool)
    requires b.intervalMs > 0
  {
    if tokens <= b.available then (b.(available := b.available - tokens), true)
    else
      var more := Replenished(b, now);
      if tokens <= more.available then (more.(available := more.available - tokens), true) else (more, false)
  }

  /** The tokens for an interval of milliseconds, and that interval. */
  function TokensFor(n: int): (int, int) {
    if QRound(0.1 * n as real) >= 3 then (QRound(0.1 * n as real), 100)
    else if QRound(0.25 * n as real) >= 3 then (QRound(0.25 * n as real), 250)
    else if QRound(0.5 * n as real) >= 3 then (QRound(0.5 * n as real), 500)
    else (n, 1000)
  }

  function Limited(b: Bucket, n: int): Bucket {
    b.(capacity := TokensFor(n).0, refill := TokensFor(n).0, intervalMs := TokensFor(n).1)
  }

  class TokenBucket {
    var capacity: int
    var availableTokens: int
    var numTokensToRefill: int
    var intervalMs: int
    var lastReplenishmentTime: int

    /** A new bucket has 10 tokens, whatever its capacity. */
    constructor (capacity: int, intervalMs: int, numTokensToRefill: int, now: int)
      ensures View() == Bucket(capacity, 10, numTokensToRefill, intervalMs, now)
    {
      this.capacity, this.intervalMs, this.numTokensToRefill := capacity, intervalMs, numTokensToRefill;
      availableTokens, lastReplenishmentTime := 10, now;
    }

    ghost function View(): Bucket
      reads this
    {
      Bucket(capacity, availableTokens, numTokensToRefill, intervalMs, lastReplenishmentTime)
    }

    method GetTokens(now: int) returns (tokens: int)
      requires intervalMs > 0
      modifies this`lastReplenishmentTime
      ensures tokens == TruncDiv(numTokensToRefill * (now - old(lastReplenishmentTime)), intervalMs)
      ensures lastReplenishmentTime == if tokens > 0 then now else old(lastReplenishmentTime)
    {
      var deltaMs := now - lastReplenishmentTime;
      tokens := TruncDiv(numTokensToRefill * deltaMs, intervalMs);
      if tokens > 0 { lastReplenishmentTime := now; }
    }

    method TryConsumeTokens(numTokens: int, now: int) returns (success: bool)
      requires intervalMs > 0
      modifies this`lastReplenishmentTime, this`availableTokens
      ensures (View(), success) == TryConsume(old(View()), numTokens, now)
    {
      if numTokens <= availableTokens {
        availableTokens := availableTokens - numTokens;
        return true;
      }
      var tokens := GetTokens(now);
      var replenishedTokens := Min(capacity, tokens);
      availableTokens := Min(availableTokens + replenishedTokens, capacity);
      if numTokens <= availableTokens {
        availableTokens := availableTokens - numTokens;
        return true;
      }
      success := false;
    }

    method SetInterval(ms: int)
      modifies this`intervalMs
      ensures intervalMs == ms
    {
      intervalMs := ms;
    }

    method SetCapacityAndTokensToRefill(numTokens: int)
      modifies this`capacity, this`numTokensToRefill
      ensures capacity == numTokens && numTokensToRefill == numTokens
    {
      capacity := numTokens;
      numTokensToRefill := numTokens;
    }
  }

  class Simulator {
    const bucket: TokenBucket
    var limitUpdateAircraft: bool

    constructor (now: int)
      ensures fresh(bucket) && bucket.View() == Bucket(5, 10, 5, 100, now) && !limitUpdateAircraft
    {
      bucket := new TokenBucket(5, 100, 5, now);
      limitUpdateAircraft := false;
    }

    method LimitToUpdatesPerSecond(numberPerSecond: int) returns (limited: bool)
      modifies this, bucket
      ensures limited == limitUpdateAircraft == (numberPerSecond >= 1)
      ensures bucket.View() == if limited then Limited(old(bucket.View()), numberPerSecond) else old(bucket.View())
    {
      if numberPerSecond < 1 {
        limitUpdateAircraft := false;
        return false;
      }
      var tokens := QRound(0.1 * numberPerSecond as real);
      label Choose: {
        if tokens >= 3 {
          bucket.SetInterval(100);
          break Choose;
        }
        tokens := QRound(0.25 * numberPerSecond as real);
        if tokens >= 3 {
          bucket.SetInterval(250);
          break Choose;
        }
        tokens := QRound(0.5 * numberPerSecond as real);
        if tokens >= 3 {
          bucket.SetInterval(500);
          break Choose;
        }
        tokens := numberPerSecond;
        bucket.SetInterval(1000);
      }
      bucket.SetCapacityAndTokensToRefill(tokens);
      limitUpdateAircraft := true;
      return true;
    }

    method IsUpdateAircraftLimited(timestamp: int) returns (limited: bool)
      requires bucket.intervalMs > 0
      modifies bucket
      ensures if !limitUpdateAircraft then !limited && bucket.View() == old(bucket.View())
              else (bucket.View(), !limited) == TryConsume(old(bucket.View()), 1, timestamp)
    {
      if !limitUpdateAircraft { return false; }
      var hasToken := bucket.TryConsumeTokens(1, timestamp);
      limited := !hasToken;
    }
  }

  // ---------------------------------------------------------------------------
  // The choice of tokens and interval
  // ---------------------------------------------------------------------------

  /** The rounding in integers: the numbers where the interval changes are 5, 10 and 25. */
  lemma TokensInIntegers(n: int)
    requires n >= 1
    ensures TokensFor(n) == if n >= 25 then ((n + 5) / 10, 100) else if n >= 10 then ((n + 2) / 4, 250)
                            else if n >= 5 then ((n + 1) / 2, 500) else (n, 1000)
  {
    assert QRound(0.1 * n as real) == (n + 5) / 10;
    assert QRound(0.25 * n as real) == (n + 2) / 4;
    assert QRound(0.5 * n as real) == (n + 1) / 2;
  }

  /** At least one token per interval, and a rate of `tokens * 1000 / interval` per second that is
      within 20 percent of `n`. */
  lemma RateIsClose(n: int)
    requires n >= 1
    ensures var (tokens, interval) := TokensFor(n);
            tokens >= 1 && interval > 0 && 4 * n * interval <= 5 * (tokens * 1000) <= 6 * n * interval
  {
    TokensInIntegers(n);
  }

  /** The rate is exact below 5, and from there on exactly for the multiples that the interval allows. */
  lemma RateIsExactIff(n: int)
    requires n >= 1
    ensures var (tokens, interval) := TokensFor(n);
            tokens * 1000 == n * interval <==>
            n < 5 || (n < 10 && n % 2 == 0) || (10 <= n < 25 && n % 4 == 0) || (25 <= n && n % 10 == 0)
  {
    TokensInIntegers(n);
    if n >= 25 {
      RoundedIsExactIff(n, 10, 5);
    } else if n >= 10 {
      RoundedIsExactIff(n, 4, 2);
    } else if n >= 5 {
      RoundedIsExactIff(n, 2, 1);
    }
  }

  lemma RoundedIsExactIff(n: int, d: int, half: int)
    requires n >= 0 && (d, half) in {(10, 5), (4, 2), (2, 1)}
    ensures (n + half) / d * d == n <==> n % d == 0
  {
    if d == 10 {
      assert n == 10 * (n / 10) + n % 10;
    } else if d == 4 {
      assert n == 4 * (n / 4) + n % 4;
    } else {
      assert n == 2 * (n / 2) + n % 2;
    }
  }

  /** The bucket demands that less than its capacity is consumed: one update per second breaks it. */
  lemma ConsumingOneIsAllowedIff(n: int)
    requires n >= 1
    ensures 1 < TokensFor(n).0 <==> n >= 2
  {
    TokensInIntegers(n);
  }

  // ---------------------------------------------------------------------------
  // The bucket over runs
  // ---------------------------------------------------------------------------

  lemma TruncDivBounds(a: int, b: int)
    requires a >= 0 && b > 0
    ensures 0 <= TruncDiv(a, b) && TruncDiv(a, b) * b <= a && (TruncDiv(a, b) > 0 <==> a >= b)
  {
  }

  /** Asking for one token succeeds exactly if one is left or a token's worth of time has passed. One
      that is left is taken without a look at the clock; a refused request changes nothing, so no
      time is lost by asking too early; otherwise the tokens of all the time are there, as far as
      the bucket holds them. */
  lemma GrantedIff(b: Bucket, now: int)
    requires b.intervalMs > 0 && b.capacity >= 1 && b.refill >= 1 && b.available >= 0 && b.last <= now
    ensures TryConsume(b, 1, now).1 <==> b.available >= 1 || b.refill * (now - b.last) >= b.intervalMs
    ensures var (next, granted) := TryConsume(b, 1, now);
            var tokens := b.refill * (now - b.last) / b.intervalMs;
            && (b.available >= 1 ==> next == b.(available := b.available - 1))
            && (!granted ==> next == b)
            && (b.available == 0 && granted ==>
                  next == b.(available := (if tokens < b.capacity then tokens else b.capacity) - 1, last := now))
  {
    assert b.refill * (now - b.last) >= 0;
    TruncDivBounds(b.refill * (now - b.last), b.intervalMs);
  }

  /** How many of the requests for one token, at these times, are granted. */
  function Granted(b: Bucket, times: seq<int>): nat
    requires b.intervalMs > 0
    decreases |times|
  {
    if times == [] then 0
    else
      var (next, granted) := TryConsume(b, 1, times[0]);
      (if granted then 1 else 0) + Granted(next, times[1..])
  }

  predicate Timely(since: int, times: seq<int>)
    decreases |times|
  {
    times == [] || (since <= times[0] && Timely(times[0], times[1..]))
  }

  lemma {:induction false} TimelyFrom(since: int, times: seq<int>)
    requires Timely(since, times) && times != []
    ensures since <= times[0] <= times[|times| - 1]
    decreases |times|
  {
    if |times| > 1 {
      TimelyFrom(times[0], times[1..]);
    }
  }

  lemma {:induction false} TimelyEarlier(since: int, earlier: int, times: seq<int>)
    requires Timely(since, times) && earlier <= since
    ensures Timely(earlier, times)
  {
  }

  /** What a request takes out is covered by what was there and by the time that has passed. */
  lemma OneRequest(b: Bucket, now: int)
    requires b.intervalMs > 0 && b.capacity >= 1 && b.refill >= 1 && b.available >= 0 && b.last <= now
    ensures var (next, granted) := TryConsume(b, 1, now);
            && next.intervalMs == b.intervalMs && next.capacity == b.capacity && next.refill == b.refill
            && next.available >= 0 && b.last <= next.last <= now
            && (next.available + if granted then 1 else 0) * b.intervalMs
               <= b.available * b.intervalMs + b.refill * (next.last - b.last)
  {
    var tokens := TruncDiv(b.refill * (now - b.last), b.intervalMs);
    assert b.refill * (now - b.last) >= 0;
    TruncDivBounds(b.refill * (now - b.last), b.intervalMs);
    if b.available < 1 {
      var more := Replenished(b, now);
      assert b.available == 0 && 0 <= more.available <= tokens;
      AtMost(more.available, tokens, b.intervalMs);
    }
  }

  lemma AtMost(a: int, b: int, c: int)
    requires a <= b && c > 0
    ensures a * c <= b * c
  {
  }

  lemma AtMostTimes(a: int, b: int, c: int)
    requires a <= b && c >= 0
    ensures a * c <= b * c
  {
  }

  lemma Distribute(a: int, x: int, y: int)
    ensures a * x + a * y == a * (x + y)
  {
  }

  /** Over every run of requests: no more is granted than what was in the bucket and what the time
      up to the last request refills. */
  lemma {:induction false} GrantedAreCovered(b: Bucket, times: seq<int>)
    requires b.intervalMs > 0 && b.capacity >= 1 && b.refill >= 1 && b.available >= 0
    requires Timely(b.last, times) && times != []
    ensures Granted(b, times) * b.intervalMs <= b.available * b.intervalMs + b.refill * (times[|times| - 1] - b.last)
    decreases |times|
  {
    var (next, granted) := TryConsume(b, 1, times[0]);
    var one, end, rest := if granted then 1 else 0, times[|times| - 1], Granted(next, times[1..]);
    TimelyFrom(b.last, times);
    OneRequest(b, times[0]);
    if |times| > 1 {
      TimelyEarlier(times[0], next.last, times[1..]);
      GrantedAreCovered(next, times[1..]);
    } else {
      NotNegative(b.refill, end - next.last);
      NotNegative(next.available, b.intervalMs);
    }
    Chain(one, rest, next.available, b.available, b.intervalMs, b.refill, b.last, next.last, end);
  }

  lemma NotNegative(a: int, b: int)
    requires a >= 0 && b >= 0
    ensures a * b >= 0
  {
  }

  lemma Chain(one: int, rest: int, left: int, before: int, interval: int, refill: int, last: int, next: int, end: int)
    requires (left + one) * interval <= before * interval + refill * (next - last)
    requires rest * interval <= left * interval + refill * (end - next)
    ensures (one + rest) * interval <= before * interval + refill * (end - last)
  {
    Distribute(interval, left, one);
    Distribute(interval, one, rest);
    Distribute(refill, next - last, end - next);
  }

  /** The whole limiter: with a limit of `n` per second, a run of requests is granted at most what the
      bucket held when it started and 1.2 times `n` per second since its last replenishment. */
  lemma UpdatesAreLimited(b: Bucket, n: int, times: seq<int>)
    requires n >= 1 && b.available >= 0 && Timely(b.last, times) && times != []
    ensures TokensFor(n).1 > 0
    ensures 5000 * Granted(Limited(b, n), times) <= 5000 * b.available + 6 * n * (times[|times| - 1] - b.last)
  {
    RateIsClose(n);
    TokensInIntegers(n);
    LimitedBucket(Limited(b, n), n, times);
  }

  lemma LimitedBucket(b: Bucket, n: int, times: seq<int>)
    requires b.capacity >= 1 && b.refill >= 1 && b.available >= 0 && Timely(b.last, times) && times != []
    requires b.intervalMs in {100, 250, 500, 1000} && 5 * (b.refill * 1000) <= 6 * n * b.intervalMs
    ensures 5000 * Granted(b, times) <= 5000 * b.available + 6 * n * (times[|times| - 1] - b.last)
  {
    TimelyFrom(b.last, times);
    GrantedAreCovered(b, times);
    Scale(Granted(b, times), b.available, b.refill, b.intervalMs, n, times[|times| - 1] - b.last);
  }

  lemma Scale(granted: int, available: int, refill: int, interval: int, n: int, time: int)
    requires interval in {100, 250, 500, 1000} && time >= 0
    requires granted * interval <= available * interval + refill * time && 5 * (refill * 1000) <= 6 * n * interval
    ensures 5000 * granted <= 5000 * available + 6 * n * time
  {
    var extra, perTime := granted - available, n * time;
    Distribute(interval, available, extra);
    assert interval * extra <= refill * time;
    AtMostTimes(5000 * refill, 6 * n * interval, time);
    assert 5000 * refill * time == 5000 * (refill * time);
    assert 6 * n * interval * time == 6 * interval * perTime;
    Cancel(interval, 5000 * extra, 6 * perTime);
    assert 6 * n * time == 6 * perTime;
  }

  lemma Cancel(c: int, a: int, b: int)
    requires c > 0 && c * a <= c * b
    ensures a <= b
  {
  }

  /** A clock that goes back costs tokens: the bucket falls below zero, and further with every
      request, since the time of the last replenishment stays ahead. */
  lemma ClockBackCostsTokens(b: Bucket, now: int)
    requires b.intervalMs > 0 && b.capacity >= 1 && b.refill >= 1 && b.available <= 0
    requires b.refill * (b.last - now) >= b.intervalMs
    ensures var (next, granted) := TryConsume(b, 1, now);
            && !granted && next.available < b.available && next.last == b.last
            && next.available == b.available - b.refill * (b.last - now) / b.intervalMs
  {
    assert b.refill * (now - b.last) == -(b.refill * (b.last - now));
    TruncDivBounds(b.refill * (b.last - now), b.intervalMs);
  }
}
