/** The token-bucket limiter: one Redis key per identity, refilled lazily, expiring when it is not used. */
module TokenBucket {
  import opened Arithmetic
  import opened Sums

  const SCALE := 1000

  /** Every field is a positive integer, as the constructor of the limiter demands. */
  datatype Config = Config(capacity: int, refillTokens: int, refillIntervalMs: int, cost: int)

  predicate ValidConfig(c: Config) {
    0 < c.capacity && 0 < c.refillTokens && 0 < c.refillIntervalMs && 0 < c.cost
  }

  /** Scaled tokens per millisecond, rounded down. */
  function Rate(c: Config): int
    requires ValidConfig(c)
  {
    c.refillTokens * SCALE / c.refillIntervalMs
  }

  /** Twice the time to refill the bucket, rounded up. */
  function TtlMs(c: Config): int
    requires ValidConfig(c)
  {
    (c.capacity * c.refillIntervalMs * 2 + c.refillTokens - 1) / c.refillTokens
  }

  function Full(c: Config): int { c.capacity * SCALE }

  datatype Key = Absent | Stored(tokens: int, updatedAt: int)

  ghost predicate KeyOk(c: Config, key: Key) {
    key.Stored? ==> 0 <= key.tokens <= Full(c)
  }

  /** The tokens in the bucket at `now`, before the request takes any. */
  function TokensAt(c: Config, key: Key, now: int): int
    requires ValidConfig(c)
  {
    match key
    case Absent => Full(c)
    case Stored(tokens, updatedAt) => Min(Full(c), tokens + Max(0, now - updatedAt) * Rate(c))
  }

  predicate Admits(c: Config, key: Key, now: int)
    requires ValidConfig(c)
  {
    c.cost * SCALE <= TokensAt(c, key, now)
  }

  /** The key after one request; a refused request is also written back. */
  function AfterRequest(c: Config, key: Key, now: int): Key
    requires ValidConfig(c)
  {
    var tokens := TokensAt(c, key, now);
    Stored(if Admits(c, key, now) then tokens - c.cost * SCALE else tokens, now)
  }

  /** The script run by Redis, on the key's stored fields. */
  class BucketKey {
    var key: Key

    constructor ()
      ensures key == Absent
    {
      key := Absent;
    }

    method Eval(c: Config, now: int) returns (allowed: bool, tokensScaled: int)
      requires ValidConfig(c)
      modifies this
      ensures allowed == Admits(c, old(key), now)
      ensures key == AfterRequest(c, old(key), now)
      ensures key.Stored? && tokensScaled == key.tokens
    {
      var updatedAt := now;
      tokensScaled := c.capacity * SCALE;
      if key.Stored? {
        tokensScaled, updatedAt := key.tokens, key.updatedAt;
      }
      var elapsedMs := Max(0, now - updatedAt);
      var refillScaled := elapsedMs * Rate(c);
      tokensScaled := Min(c.capacity * SCALE, tokensScaled + refillScaled);
      var costScaled := c.cost * SCALE;
      if tokensScaled < costScaled {
        key := Stored(tokensScaled, now);
        return false, tokensScaled;
      }
      tokensScaled := tokensScaled - costScaled;
      key := Stored(tokensScaled, now);
      return true, tokensScaled;
    }
  }

  /** Stored tokens stay between zero and the capacity. */
  lemma TokensStayInRange(c: Config, key: Key, now: int)
    requires ValidConfig(c) && KeyOk(c, key)
    ensures 0 <= TokensAt(c, key, now) <= Full(c)
    ensures KeyOk(c, AfterRequest(c, key, now))
  {
    RateNonNegative(c);
    if key.Stored? {
      ProductNonNegative(Max(0, now - key.updatedAt), Rate(c));
    }
  }

  lemma RateNonNegative(c: Config)
    requires ValidConfig(c)
    ensures 0 <= Rate(c)
    ensures 1 <= Rate(c) <==> c.refillIntervalMs <= c.refillTokens * SCALE
  {
    DivisionBounds(c.refillTokens * SCALE, c.refillIntervalMs);
    if 1 <= Rate(c) {
      assert c.refillIntervalMs <= Rate(c) * c.refillIntervalMs;
    }
  }

  // ---------- expiry ----------

  /** One request: when it comes, and whether Redis had dropped the key by then. */
  datatype Call = Call(now: int, dropped: bool)

  /** Redis may drop the key once its time to live has passed since it was last written. */
  predicate MayDrop(c: Config, key: Key, now: int)
    requires ValidConfig(c)
  {
    key == Absent || TtlMs(c) <= now - key.updatedAt
  }

  function AsRead(key: Key, call: Call, expiring: bool): Key {
    if expiring && call.dropped then Absent else key
  }

  /** The decisions over a sequence of calls, with keys expiring or with keys kept for ever. */
  function Decisions(c: Config, key: Key, calls: seq<Call>, expiring: bool): seq<bool>
    requires ValidConfig(c)
    decreases |calls|
  {
    if calls == [] then []
    else
      var read := AsRead(key, calls[0], expiring);
      [Admits(c, read, calls[0].now)] +
      Decisions(c, AfterRequest(c, read, calls[0].now), calls[1..], expiring)
  }

  /** Keys are only dropped when Redis may drop them. */
  predicate LegalDrops(c: Config, key: Key, calls: seq<Call>)
    requires ValidConfig(c)
    decreases |calls|
  {
    calls != [] ==>
      && (calls[0].dropped ==> MayDrop(c, key, calls[0].now))
      && LegalDrops(c, AfterRequest(c, AsRead(key, calls[0], true), calls[0].now), calls[1..])
  }

  /** Rounding the rate down loses less than half of it, which the factor two in the time to live covers. */
  lemma FullAfterTtl(c: Config, elapsed: int)
    requires ValidConfig(c) && 1 <= Rate(c) && TtlMs(c) <= elapsed
    ensures Full(c) <= elapsed * Rate(c)
  {
    var refill, interval, rate := c.refillTokens * SCALE, c.refillIntervalMs, Rate(c);
    var ticks := c.capacity * interval * 2;
    DivisionBounds(refill, interval);
    DivisionBounds(ticks + c.refillTokens - 1, c.refillTokens);
    TtlCovers(ticks, c.refillTokens, TtlMs(c), elapsed);
    HalfIsKept(refill, interval, rate);
    Chain(c.capacity, interval, c.refillTokens, rate, elapsed);
  }

  lemma HalfIsKept(refill: int, interval: int, rate: int)
    requires 0 < interval && 1 <= rate && refill < rate * interval + interval
    ensures refill <= 2 * rate * interval
  {
    MultiplyLeft(interval, 1, rate);
  }

  lemma TtlCovers(ticks: int, tokens: int, ttl: int, elapsed: int)
    requires 0 < tokens && 0 <= ticks && ticks + tokens - 1 < ttl * tokens + tokens && ttl <= elapsed
    ensures ticks <= elapsed * tokens
  {
    assert ttl * tokens <= elapsed * tokens;
  }

  lemma Chain(capacity: int, interval: int, tokens: int, rate: int, elapsed: int)
    requires 0 < capacity && 0 < interval && 0 < tokens && 0 < rate && 0 <= elapsed
    requires tokens * SCALE <= 2 * rate * interval
    requires capacity * interval * 2 <= elapsed * tokens
    ensures capacity * SCALE <= elapsed * rate
  {
    calc {
      (capacity * SCALE) * (2 * interval);
      == capacity * interval * 2 * SCALE;
      <= elapsed * tokens * SCALE;
      == elapsed * (tokens * SCALE);
      <= { MultiplyLeft(elapsed, tokens * SCALE, 2 * rate * interval); }
      elapsed * (2 * rate * interval);
      == (elapsed * rate) * (2 * interval);
    }
    Cancel(capacity * SCALE, elapsed * rate, 2 * interval);
  }

  /** A key that may be dropped has refilled to the brim, exactly like a key that is not there. */
  lemma DroppedIsFull(c: Config, key: Key, now: int)
    requires ValidConfig(c) && 1 <= Rate(c) && KeyOk(c, key) && MayDrop(c, key, now)
    ensures TokensAt(c, key, now) == TokensAt(c, Absent, now)
  {
    if key.Stored? {
      DivisionBounds(c.capacity * c.refillIntervalMs * 2 + c.refillTokens - 1, c.refillTokens);
      FullAfterTtl(c, now - key.updatedAt);
    }
  }

  lemma {:induction false} SameDecisions(c: Config, key: Key, calls: seq<Call>)
    requires ValidConfig(c) && KeyOk(c, key) && LegalDrops(c, key, calls)
    requires 1 <= Rate(c) || c.capacity < c.cost
    ensures Decisions(c, key, calls, true) == Decisions(c, key, calls, false)
    decreases |calls|
  {
    if calls != [] {
      var call := calls[0];
      var read := AsRead(key, call, true);
      TokensStayInRange(c, key, call.now);
      TokensStayInRange(c, read, call.now);
      if 1 <= Rate(c) {
        if call.dropped {
          DroppedIsFull(c, key, call.now);
        }
        SameDecisions(c, AfterRequest(c, read, call.now), calls[1..]);
      } else {
        NothingIsAdmitted(c, key, calls, true);
        NothingIsAdmitted(c, key, calls, false);
      }
    }
  }

  /** A request that costs more than the bucket holds is never admitted. */
  lemma {:induction false} NothingIsAdmitted(c: Config, key: Key, calls: seq<Call>, expiring: bool)
    requires ValidConfig(c) && KeyOk(c, key) && c.capacity < c.cost
    ensures Decisions(c, key, calls, expiring) == seq(|calls|, i => false)
    decreases |calls|
  {
    if calls != [] {
      var read := AsRead(key, calls[0], expiring);
      TokensStayInRange(c, read, calls[0].now);
      NothingIsAdmitted(c, AfterRequest(c, read, calls[0].now), calls[1..], expiring);
    }
  }

  // A rate that rounds down to zero never refills a kept key, but an expired key comes back full.

  function DrainingCalls(c: Config, n: nat): seq<Call>
    requires ValidConfig(c)
  {
    if n == 0 then [Call(TtlMs(c), true)] else [Call(0, false)] + DrainingCalls(c, n - 1)
  }

  lemma {:induction false} DrainShowsExpiry(c: Config, n: nat, tokens: int)
    requires ValidConfig(c) && Rate(c) == 0 && c.cost <= c.capacity
    requires n * (c.cost * SCALE) <= tokens < (n + 1) * (c.cost * SCALE) && tokens <= Full(c)
    ensures LegalDrops(c, Stored(tokens, 0), DrainingCalls(c, n))
    ensures Decisions(c, Stored(tokens, 0), DrainingCalls(c, n), true)
         != Decisions(c, Stored(tokens, 0), DrainingCalls(c, n), false)
  {
    var key := Stored(tokens, 0);
    if n == 0 {
      var call := DrainingCalls(c, 0)[0];
      assert Admits(c, Absent, call.now) && !Admits(c, key, call.now);
      assert Decisions(c, key, [call], true)[0] != Decisions(c, key, [call], false)[0];
    } else {
      var rest := DrainingCalls(c, n - 1);
      assert c.cost * SCALE <= tokens by {
        MultiplyLeft(c.cost * SCALE, 1, n);
      }
      assert AfterRequest(c, key, 0) == Stored(tokens - c.cost * SCALE, 0);
      assert n * (c.cost * SCALE) == (n - 1) * (c.cost * SCALE) + c.cost * SCALE;
      assert (n + 1) * (c.cost * SCALE) == n * (c.cost * SCALE) + c.cost * SCALE;
      DrainShowsExpiry(c, n - 1, tokens - c.cost * SCALE);
      assert DrainingCalls(c, n)[1..] == rest;
      assert Decisions(c, key, DrainingCalls(c, n), true)[1..]
          == Decisions(c, Stored(tokens - c.cost * SCALE, 0), rest, true);
      assert Decisions(c, key, DrainingCalls(c, n), false)[1..]
          == Decisions(c, Stored(tokens - c.cost * SCALE, 0), rest, false);
    }
  }

  /** No sequence of requests can tell expiring keys from keys kept for ever. */
  ghost predicate ExpiryIsUnobservable(c: Config)
    requires ValidConfig(c)
  {
    forall calls, key ::
      KeyOk(c, key) && LegalDrops(c, key, calls) ==> Decisions(c, key, calls, true) == Decisions(c, key, calls, false)
  }

  /**
   * Expiry is unobservable exactly when the scaled refill is at least one per millisecond, or when a request
   * costs more than the bucket can hold and nothing is ever admitted.
   */
  lemma ExpiryIsUnobservableIff(c: Config)
    requires ValidConfig(c)
    ensures ExpiryIsUnobservable(c) <==> c.refillIntervalMs <= c.refillTokens * SCALE || c.capacity < c.cost
  {
    RateNonNegative(c);
    if 1 <= Rate(c) || c.capacity < c.cost {
      forall calls, key | KeyOk(c, key) && LegalDrops(c, key, calls)
        ensures Decisions(c, key, calls, true) == Decisions(c, key, calls, false)
      {
        SameDecisions(c, key, calls);
      }
    } else {
      var n := Full(c) / (c.cost * SCALE);
      DivisionBounds(Full(c), c.cost * SCALE);
      assert (n + 1) * (c.cost * SCALE) == n * (c.cost * SCALE) + c.cost * SCALE;
      DrainShowsExpiry(c, n, Full(c));
    }
  }

  // ---------- throughput ----------

  predicate InTimeOrder(calls: seq<Call>) {
    forall i, j :: 0 <= i <= j < |calls| ==> calls[i].now <= calls[j].now
  }

  function Weight(c: Config): bool -> int {
    (allowed: bool) => if allowed then c.cost * SCALE else 0
  }

  function AdmittedCost(c: Config, decisions: seq<bool>): int {
    SumBy(decisions, Weight(c))
  }

  /** What one request takes and what the bucket may gain until the next one. */
  lemma OneRequest(c: Config, key: Key, now: int, next: int)
    requires ValidConfig(c) && KeyOk(c, key) && now <= next
    ensures Weight(c)(Admits(c, key, now)) + TokensAt(c, AfterRequest(c, key, now), next)
         <= TokensAt(c, key, now) + (next - now) * Rate(c)
  {
  }

  lemma FirstDecision(c: Config, key: Key, calls: seq<Call>)
    requires ValidConfig(c) && calls != []
    ensures AdmittedCost(c, Decisions(c, key, calls, false))
         == Weight(c)(Admits(c, key, calls[0].now))
          + AdmittedCost(c, Decisions(c, AfterRequest(c, key, calls[0].now), calls[1..], false))
  {
    var admitted := Admits(c, key, calls[0].now);
    SumConcat([admitted], Decisions(c, AfterRequest(c, key, calls[0].now), calls[1..], false), Weight(c));
    SumAppend([], admitted, Weight(c));
    assert [] + [admitted] == [admitted];
  }

  lemma TailInTimeOrder(calls: seq<Call>)
    requires InTimeOrder(calls) && 1 < |calls|
    ensures InTimeOrder(calls[1..]) && calls[0].now <= calls[1].now
    ensures calls[1..][0] == calls[1] && calls[1..][|calls[1..]| - 1] == calls[|calls| - 1]
  {
  }

  /** The first request of several, given the bound for the rest. */
  lemma FirstOfSeveral(c: Config, key: Key, calls: seq<Call>, next: int, end: int)
    requires ValidConfig(c) && KeyOk(c, key) && calls != [] && calls[0].now <= next
    requires var key' := AfterRequest(c, key, calls[0].now);
      AdmittedCost(c, Decisions(c, key', calls[1..], false)) <= TokensAt(c, key', next) + Rate(c) * (end - next)
    ensures AdmittedCost(c, Decisions(c, key, calls, false))
         <= TokensAt(c, key, calls[0].now) + Rate(c) * (end - calls[0].now)
  {
    var now := calls[0].now;
    var key' := AfterRequest(c, key, now);
    FirstDecision(c, key, calls);
    OneRequest(c, key, now, next);
    Telescope(Rate(c), now, next, end);
    AddUp(Weight(c)(Admits(c, key, now)), AdmittedCost(c, Decisions(c, key', calls[1..], false)),
          TokensAt(c, key, now), TokensAt(c, key', next), (next - now) * Rate(c), Rate(c) * (end - next));
  }

  lemma {:induction false} AdmittedIsBounded(c: Config, key: Key, calls: seq<Call>)
    requires ValidConfig(c) && KeyOk(c, key) && InTimeOrder(calls) && calls != []
    ensures AdmittedCost(c, Decisions(c, key, calls, false))
         <= TokensAt(c, key, calls[0].now) + Rate(c) * (calls[|calls| - 1].now - calls[0].now)
    decreases |calls|
  {
    var now, end := calls[0].now, calls[|calls| - 1].now;
    var key' := AfterRequest(c, key, now);
    TokensStayInRange(c, key, now);
    if |calls| == 1 {
      TokensStayInRange(c, key', now);
      FirstOfSeveral(c, key, calls, now, end);
    } else {
      TailInTimeOrder(calls);
      AdmittedIsBounded(c, key', calls[1..]);
      FirstOfSeveral(c, key, calls, calls[1].now, end);
    }
  }

  lemma AddUp(first: int, later: int, tokens: int, tokens': int, gain: int, gain': int)
    requires first + tokens' <= tokens + gain && later <= tokens' + gain'
    ensures first + later <= tokens + (gain + gain')
  {
  }

  lemma Telescope(rate: int, x: int, y: int, z: int)
    ensures (y - x) * rate + rate * (z - y) == rate * (z - x)
  {
  }

  /**
   * Throughput: over any sequence of requests, with keys expiring as Redis does it, the scaled cost admitted is
   * at most the capacity plus the rate times the time between the first and the last request.
   */
  lemma ThroughputIsBounded(c: Config, key: Key, calls: seq<Call>)
    requires ValidConfig(c) && KeyOk(c, key) && InTimeOrder(calls) && calls != []
    requires LegalDrops(c, key, calls) && c.refillIntervalMs <= c.refillTokens * SCALE
    ensures AdmittedCost(c, Decisions(c, key, calls, true))
         <= Full(c) + Rate(c) * (calls[|calls| - 1].now - calls[0].now)
  {
    RateNonNegative(c);
    SameDecisions(c, key, calls);
    AdmittedIsBounded(c, key, calls);
    TokensStayInRange(c, key, calls[0].now);
  }

  // ---------- the same in whole tokens ----------

  /** The rate is the configured refill, rounded down to a thousandth of a token a millisecond. */
  lemma RateIsTheFloor(c: Config)
    requires ValidConfig(c)
    ensures Rate(c) * c.refillIntervalMs <= c.refillTokens * 1000 < (Rate(c) + 1) * c.refillIntervalMs
  {
    DivisionBounds(c.refillTokens * SCALE, c.refillIntervalMs);
  }

  /** The time to live is the least number of milliseconds in which the configured refill fills the bucket twice. */
  lemma TtlFillsTwice(c: Config)
    requires ValidConfig(c)
    ensures (TtlMs(c) - 1) * c.refillTokens < 2 * c.capacity * c.refillIntervalMs <= TtlMs(c) * c.refillTokens
  {
    DivisionBounds(c.capacity * c.refillIntervalMs * 2 + c.refillTokens - 1, c.refillTokens);
  }

  /** `calls` requests at one moment. */
  function Burst(now: int, calls: nat): seq<Call> {
    if calls == 0 then [] else [Call(now, false)] + Burst(now, calls - 1)
  }

  lemma RequestAtOnce(c: Config, tokens: int, now: int)
    requires ValidConfig(c) && 0 <= tokens <= Full(c)
    ensures var key := Stored(tokens, now); var price := c.cost * SCALE;
      && (Admits(c, key, now) <==> price <= tokens)
      && AfterRequest(c, key, now) == Stored(if price <= tokens then tokens - price else tokens, now)
  {
  }

  lemma FirstAdmitted(c: Config, key: Key, calls: seq<Call>)
    requires ValidConfig(c) && calls != []
    ensures multiset(Decisions(c, key, calls, false))[true]
         == (if Admits(c, key, calls[0].now) then 1 else 0)
          + multiset(Decisions(c, AfterRequest(c, key, calls[0].now), calls[1..], false))[true]
  {
  }

  /** The first of some requests at once, and how many are admitted in all. */
  lemma FirstOfBurst(c: Config, tokens: int, now: int, calls: nat, price: int)
    requires ValidConfig(c) && 0 <= tokens <= Full(c) && 0 < calls && price == c.cost * SCALE
    ensures var left := if price <= tokens then tokens - price else tokens;
      multiset(Decisions(c, Stored(tokens, now), Burst(now, calls), false))[true]
        == (if price <= tokens then 1 else 0)
         + multiset(Decisions(c, Stored(left, now), Burst(now, calls - 1), false))[true]
  {
    assert Burst(now, calls)[1..] == Burst(now, calls - 1);
    RequestAtOnce(c, tokens, now);
    FirstAdmitted(c, Stored(tokens, now), Burst(now, calls));
  }

  lemma {:induction false} BurstFrom(c: Config, tokens: int, now: int, calls: nat, price: int)
    requires ValidConfig(c) && 0 <= tokens <= Full(c) && price == c.cost * SCALE
    ensures multiset(Decisions(c, Stored(tokens, now), Burst(now, calls), false))[true] == Min(calls, tokens / price)
  {
    if calls == 0 {
      DivisionBounds(tokens, price);
    } else {
      FirstOfBurst(c, tokens, now, calls, price);
      BurstFrom(c, if price <= tokens then tokens - price else tokens, now, calls - 1, price);
      OneFewer(calls, tokens, price);
    }
  }

  lemma OneFewer(calls: nat, tokens: int, price: int)
    requires 0 < calls && 0 < price && 0 <= tokens
    ensures Min(calls, tokens / price)
         == if price <= tokens then 1 + Min(calls - 1, (tokens - price) / price) else Min(calls - 1, tokens / price)
  {
    if price <= tokens {
      OneTaken(tokens, price);
    } else {
      QuotientIs(tokens, price, 0);
    }
  }

  lemma OneTaken(x: int, d: int)
    requires 0 < d <= x
    ensures (x - d) / d == x / d - 1
  {
    DivisionBounds(x, d);
    assert (x / d - 1) * d == x / d * d - d;
    QuotientIs(x - d, d, x / d - 1);
  }

  /** A full bucket admits, of any number of requests at once, as many as its capacity pays for. */
  lemma BurstAdmits(c: Config, now: int, calls: nat)
    requires ValidConfig(c)
    ensures multiset(Decisions(c, Absent, Burst(now, calls), false))[true] == Min(calls, c.capacity / c.cost)
  {
    var price := c.cost * SCALE;
    BurstFrom(c, Full(c), now, calls, price);
    BurstIsAtOnce(now, calls);
    AbsentIsFull(c, now, Burst(now, calls));
    ScaleCancels(c.capacity, c.cost);
  }

  lemma {:induction false} BurstIsAtOnce(now: int, calls: nat)
    ensures forall i :: 0 <= i < |Burst(now, calls)| ==> Burst(now, calls)[i].now == now
  {
    if calls != 0 {
      BurstIsAtOnce(now, calls - 1);
    }
  }

  lemma AbsentIsFull(c: Config, now: int, calls: seq<Call>)
    requires ValidConfig(c) && forall i :: 0 <= i < |calls| ==> calls[i].now == now
    ensures Decisions(c, Absent, calls, false) == Decisions(c, Stored(Full(c), now), calls, false)
  {
    assert Max(0, now - now) * Rate(c) == 0;
  }

  lemma ScaleCancels(x: int, d: int)
    requires 0 <= x && 0 < d
    ensures x * SCALE / (d * SCALE) == x / d
  {
    DivisionBounds(x, d);
    assert x / d * (d * SCALE) == x / d * d * SCALE;
    QuotientIs(x * SCALE, d * SCALE, x / d);
  }

  /** A refused request takes nothing: at every later moment the bucket holds what it would hold without it. */
  lemma RefusalsAreFree(c: Config, key: Key, now: int, later: int)
    requires ValidConfig(c) && KeyOk(c, key) && !Admits(c, key, now)
    requires (key.Stored? ==> key.updatedAt <= now) && now <= later
    ensures TokensAt(c, AfterRequest(c, key, now), later) == TokensAt(c, key, later)
  {
    RateNonNegative(c);
    ProductNonNegative(later - now, Rate(c));
    if key.Stored? {
      Telescope(Rate(c), key.updatedAt, now, later);
    }
  }

  lemma {:induction false} AdmittedCostIs(c: Config, decisions: seq<bool>)
    ensures AdmittedCost(c, decisions) == multiset(decisions)[true] * (c.cost * SCALE)
  {
    if decisions != [] {
      var n := |decisions| - 1;
      AdmittedCostIs(c, decisions[..n]);
      assert decisions == decisions[..n] + [decisions[n]];
    }
  }

  // With a rate that rounds down to zero, tokens come back only with a fresh key, and that takes the time to live.

  lemma FirstDecisionExpiring(c: Config, key: Key, calls: seq<Call>)
    requires ValidConfig(c) && calls != []
    ensures var read := AsRead(key, calls[0], true);
      AdmittedCost(c, Decisions(c, key, calls, true))
        == Weight(c)(Admits(c, read, calls[0].now))
         + AdmittedCost(c, Decisions(c, AfterRequest(c, read, calls[0].now), calls[1..], true))
  {
    var read := AsRead(key, calls[0], true);
    var admitted := Admits(c, read, calls[0].now);
    SumConcat([admitted], Decisions(c, AfterRequest(c, read, calls[0].now), calls[1..], true), Weight(c));
    SumAppend([], admitted, Weight(c));
    assert [] + [admitted] == [admitted];
  }

  /** Without a refill, what a request takes and leaves is what was there. */
  lemma OneUnrefilled(c: Config, key: Key, now: int)
    requires ValidConfig(c) && Rate(c) == 0 && KeyOk(c, key)
    ensures var key' := AfterRequest(c, key, now);
      && key'.Stored? && key'.updatedAt == now && KeyOk(c, key')
      && Weight(c)(Admits(c, key, now)) + key'.tokens == (if key.Stored? then key.tokens else Full(c))
  {
  }

  /** One more request in front, given the bound for the rest. */
  lemma OneMoreUnrefilled(c: Config, key: Key, calls: seq<Call>, ahead: int, span: int, ttl: int, full: int)
    requires ValidConfig(c) && KeyOk(c, key) && key.Stored? && calls != [] && 0 < ttl && 0 <= full
    requires var waited := calls[0].now - key.updatedAt;
      0 <= waited && (calls[0].dropped ==> ttl <= waited) && span == waited + ahead
    requires var read, now := AsRead(key, calls[0], true), calls[0].now;
      var key' := AfterRequest(c, read, now);
      && Weight(c)(Admits(c, read, now)) + key'.tokens == (if calls[0].dropped then full else key.tokens)
      && AdmittedCost(c, Decisions(c, key', calls[1..], true)) * ttl <= key'.tokens * ttl + full * ahead
    ensures AdmittedCost(c, Decisions(c, key, calls, true)) * ttl <= key.tokens * ttl + full * span
  {
    var read, now := AsRead(key, calls[0], true), calls[0].now;
    var key' := AfterRequest(c, read, now);
    FirstDecisionExpiring(c, key, calls);
    UnrefilledStep(ttl, full, key.tokens, Weight(c)(Admits(c, read, now)), key'.tokens,
                   AdmittedCost(c, Decisions(c, key', calls[1..], true)), now - key.updatedAt, ahead,
                   calls[0].dropped, AdmittedCost(c, Decisions(c, key, calls, true)), span);
  }

  lemma {:induction false} UnrefilledIsBounded(c: Config, key: Key, calls: seq<Call>, end: int)
    requires ValidConfig(c) && Rate(c) == 0 && KeyOk(c, key) && key.Stored? && key.updatedAt <= end
    requires InTimeOrder(calls) && LegalDrops(c, key, calls)
    requires calls != [] ==> key.updatedAt <= calls[0].now && calls[|calls| - 1].now == end
    ensures AdmittedCost(c, Decisions(c, key, calls, true)) * TtlMs(c)
         <= key.tokens * TtlMs(c) + Full(c) * (end - key.updatedAt)
    decreases |calls|
  {
    TtlIsPositive(c);
    if calls == [] {
      ProductNonNegative(Full(c), end - key.updatedAt);
      ProductNonNegative(key.tokens, TtlMs(c));
    } else {
      var read, now := AsRead(key, calls[0], true), calls[0].now;
      OneUnrefilled(c, read, now);
      if 1 < |calls| {
        TailInTimeOrder(calls);
      }
      UnrefilledIsBounded(c, AfterRequest(c, read, now), calls[1..], end);
      OneMoreUnrefilled(c, key, calls, end - now, end - key.updatedAt, TtlMs(c), Full(c));
    }
  }

  lemma UnrefilledStep(ttl: int, full: int, tokens: int, taken: int, left: int, rest: int, waited: int, ahead: int,
                       dropped: bool, total: int, span: int)
    requires 0 <= full && 0 <= tokens && 0 <= ttl && 0 <= waited
    requires taken + left == (if dropped then full else tokens) && total == taken + rest && span == waited + ahead
    requires dropped ==> ttl <= waited
    requires rest * ttl <= left * ttl + full * ahead
    ensures total * ttl <= tokens * ttl + full * span
  {
    assert total * ttl <= (taken + left) * ttl + full * ahead;
    assert full * span == full * waited + full * ahead;
    ProductNonNegative(tokens, ttl);
    ProductNonNegative(full, waited);
    if dropped {
      MultiplyLeft(full, ttl, waited);
    }
  }

  lemma UnrefilledThroughput(c: Config, key: Key, calls: seq<Call>)
    requires ValidConfig(c) && Rate(c) == 0 && KeyOk(c, key) && InTimeOrder(calls) && calls != []
    requires LegalDrops(c, key, calls)
    ensures AdmittedCost(c, Decisions(c, key, calls, true)) * TtlMs(c)
         <= Full(c) * TtlMs(c) + Full(c) * (calls[|calls| - 1].now - calls[0].now)
  {
    var read, now, end := AsRead(key, calls[0], true), calls[0].now, calls[|calls| - 1].now;
    OneUnrefilled(c, read, now);
    if 1 < |calls| {
      TailInTimeOrder(calls);
    }
    UnrefilledIsBounded(c, AfterRequest(c, read, now), calls[1..], end);
    TakenAndLeft(c, read, now);
    TtlIsPositive(c);
    FirstUnrefilled(c, key, calls, end - now, TtlMs(c), Full(c));
  }

  /** What the first request takes and leaves is at most a full bucket. */
  lemma TakenAndLeft(c: Config, key: Key, now: int)
    requires ValidConfig(c) && Rate(c) == 0 && KeyOk(c, key)
    ensures AfterRequest(c, key, now).Stored?
    ensures Weight(c)(Admits(c, key, now)) + AfterRequest(c, key, now).tokens <= Full(c)
  {
    OneUnrefilled(c, key, now);
  }

  /** The first request of several, given the bound for the rest. */
  lemma FirstUnrefilled(c: Config, key: Key, calls: seq<Call>, ahead: int, ttl: int, full: int)
    requires ValidConfig(c) && KeyOk(c, key) && calls != [] && 0 < ttl
    requires var read, now := AsRead(key, calls[0], true), calls[0].now;
      var key' := AfterRequest(c, read, now);
      && Weight(c)(Admits(c, read, now)) + key'.tokens <= full
      && AdmittedCost(c, Decisions(c, key', calls[1..], true)) * ttl <= key'.tokens * ttl + full * ahead
    ensures AdmittedCost(c, Decisions(c, key, calls, true)) * ttl <= full * ttl + full * ahead
  {
    var read, now := AsRead(key, calls[0], true), calls[0].now;
    var key' := AfterRequest(c, read, now);
    FirstDecisionExpiring(c, key, calls);
    FromFull(ttl, full, Weight(c)(Admits(c, read, now)), key'.tokens,
             AdmittedCost(c, Decisions(c, key', calls[1..], true)), ahead,
             AdmittedCost(c, Decisions(c, key, calls, true)));
  }

  lemma TtlIsPositive(c: Config)
    requires ValidConfig(c)
    ensures 0 < TtlMs(c)
  {
    TtlFillsTwice(c);
    ProductNonNegative(c.capacity, c.refillIntervalMs);
    if TtlMs(c) <= 0 {
      MultiplyMonotone(TtlMs(c), 0, c.refillTokens);
      MultiplyMonotone(1, c.capacity, c.refillIntervalMs);
    }
  }

  lemma FromFull(ttl: int, full: int, taken: int, left: int, rest: int, ahead: int, total: int)
    requires 0 < ttl && taken + left <= full && total == taken + rest
    requires rest * ttl <= left * ttl + full * ahead
    ensures total * ttl <= full * ttl + full * ahead
  {
    MultiplyMonotone(taken + left, full, ttl);
  }

  /** Both bounds are the configured one. */
  lemma RefilledInTokens(c: Config, cost: int, elapsed: int)
    requires ValidConfig(c) && 0 <= elapsed
    requires cost * SCALE <= Full(c) + Rate(c) * elapsed
    ensures cost * c.refillIntervalMs <= c.capacity * c.refillIntervalMs + c.refillTokens * elapsed
  {
    RateIsTheFloor(c);
    calc {
      (cost - c.capacity) * c.refillIntervalMs * SCALE;
      == c.refillIntervalMs * ((cost - c.capacity) * SCALE);
      <= { MultiplyLeft(c.refillIntervalMs, (cost - c.capacity) * SCALE, Rate(c) * elapsed); }
      c.refillIntervalMs * (Rate(c) * elapsed);
      == elapsed * (Rate(c) * c.refillIntervalMs);
      <= { MultiplyLeft(elapsed, Rate(c) * c.refillIntervalMs, c.refillTokens * SCALE); }
      elapsed * (c.refillTokens * SCALE);
      == c.refillTokens * elapsed * SCALE;
    }
  }

  lemma UnrefilledInTokens(c: Config, cost: int, elapsed: int)
    requires ValidConfig(c) && 0 <= elapsed
    requires cost * SCALE * TtlMs(c) <= Full(c) * TtlMs(c) + Full(c) * elapsed
    ensures cost * c.refillIntervalMs <= c.capacity * c.refillIntervalMs + c.refillTokens * elapsed
  {
    var more := cost - c.capacity;
    ProductNonNegative(c.refillTokens, elapsed);
    if 0 < more {
      TtlFillsTwice(c);
      WithoutScale(more, c.capacity, TtlMs(c), elapsed);
      HalfTheRefill(more, c.capacity, c.refillIntervalMs, c.refillTokens, TtlMs(c), elapsed);
    } else {
      MultiplyMonotone(cost, c.capacity, c.refillIntervalMs);
    }
  }

  lemma WithoutScale(more: int, capacity: int, ttl: int, elapsed: int)
    requires (capacity + more) * SCALE * ttl <= capacity * SCALE * ttl + capacity * SCALE * elapsed
    ensures more * ttl <= capacity * elapsed
  {
    assert (more * ttl) * SCALE == (capacity + more) * SCALE * ttl - capacity * SCALE * ttl;
    assert (capacity * elapsed) * SCALE == capacity * SCALE * elapsed;
  }

  lemma HalfTheRefill(more: int, capacity: int, interval: int, tokens: int, ttl: int, elapsed: int)
    requires 0 < more && 0 < capacity && 0 < interval && 0 < tokens && 0 <= elapsed
    requires more * ttl <= capacity * elapsed && 2 * capacity * interval <= ttl * tokens
    ensures (capacity + more) * interval <= capacity * interval + tokens * elapsed
  {
    calc {
      (2 * more * interval) * capacity;
      == more * (2 * capacity * interval);
      <= { MultiplyLeft(more, 2 * capacity * interval, ttl * tokens); }
      more * (ttl * tokens);
      == tokens * (more * ttl);
      <= { MultiplyLeft(tokens, more * ttl, capacity * elapsed); }
      tokens * (capacity * elapsed);
      == (tokens * elapsed) * capacity;
    }
    Cancel(2 * more * interval, tokens * elapsed, capacity);
    ProductNonNegative(more, interval);
  }

  lemma Regroup(x: int, y: int)
    ensures x * (y * SCALE) == x * y * SCALE
  {
  }

  /**
   * Throughput in whole tokens, for every configuration: between any two moments the requests admitted cost at most
   * the capacity and what the configured refill brings in that time, with keys expiring as Redis does it.
   */
  lemma ConfiguredThroughput(c: Config, key: Key, calls: seq<Call>)
    requires ValidConfig(c) && KeyOk(c, key) && InTimeOrder(calls) && calls != []
    requires LegalDrops(c, key, calls)
    ensures multiset(Decisions(c, key, calls, true))[true] * c.cost * c.refillIntervalMs
         <= c.capacity * c.refillIntervalMs + c.refillTokens * (calls[|calls| - 1].now - calls[0].now)
  {
    var admitted := multiset(Decisions(c, key, calls, true))[true];
    var elapsed := calls[|calls| - 1].now - calls[0].now;
    AdmittedCostIs(c, Decisions(c, key, calls, true));
    Regroup(admitted, c.cost);
    RateNonNegative(c);
    if c.refillIntervalMs <= c.refillTokens * SCALE {
      ThroughputIsBounded(c, key, calls);
      RefilledInTokens(c, admitted * c.cost, elapsed);
    } else {
      UnrefilledThroughput(c, key, calls);
      UnrefilledInTokens(c, admitted * c.cost, elapsed);
    }
  }

  // ---------- Retry-After ----------

  /** The Retry-After header of a refused request, in whole seconds. */
  function RetryAfterSeconds(c: Config, tokensScaled: int): int
    requires ValidConfig(c) && 1 <= Rate(c)
  {
    Max(1, (c.cost * SCALE - tokensScaled + Rate(c) * 1000 - 1) / (Rate(c) * 1000))
  }

  /** The header is the least number of whole seconds, at least one, in which the rate covers what is missing. */
  lemma LeastWait(missing: int, rate: int)
    requires 1 <= rate && 0 < missing
    ensures var wait := Max(1, (missing + rate * 1000 - 1) / (rate * 1000));
      missing <= rate * (1000 * wait) && (1 < wait ==> rate * (1000 * (wait - 1)) < missing)
  {
    var step := rate * 1000;
    var q := (missing + step - 1) / step;
    DivisionBounds(missing + step - 1, step);
    assert rate * (1000 * q) == q * step && rate * (1000 * (q - 1)) == q * step - step;
  }

  lemma AdmitsIff(c: Config, tokens: int, now: int, later: int)
    requires ValidConfig(c) && c.cost <= c.capacity && now <= later
    ensures Admits(c, Stored(tokens, now), later) <==> c.cost * SCALE - tokens <= Rate(c) * (later - now)
  {
    assert (later - now) * Rate(c) == Rate(c) * (later - now);
  }

  lemma RefusedKey(c: Config, key: Key, now: int)
    requires ValidConfig(c) && KeyOk(c, key) && !Admits(c, key, now)
    ensures var key' := AfterRequest(c, key, now);
      key'.Stored? && key'.updatedAt == now && KeyOk(c, key') && key'.tokens < c.cost * SCALE
  {
    TokensStayInRange(c, key, now);
  }

  /**
   * After a refusal, with no other request in between, the header is the exact answer in whole seconds: waiting
   * that long guarantees admission, whether Redis kept the key or dropped it, and if the header is more than
   * one second then waiting a second less is refused.
   */
  lemma RetryAfterIsExact(c: Config, key: Key, now: int, later: int, dropped: bool)
    requires ValidConfig(c) && KeyOk(c, key) && 1 <= Rate(c) && c.cost <= c.capacity
    requires !Admits(c, key, now) && now <= later
    ensures var key' := AfterRequest(c, key, now);
      var wait := RetryAfterSeconds(c, key'.tokens);
      && (later >= now + 1000 * wait && (dropped ==> MayDrop(c, key', later)) ==>
            Admits(c, AsRead(key', Call(later, dropped), true), later))
      && (1 < wait && later <= now + 1000 * (wait - 1) ==> !Admits(c, key', later))
  {
    var key' := AfterRequest(c, key, now);
    RefusedKey(c, key, now);
    AdmitsIff(c, key'.tokens, now, later);
    WaitDecides(c, c.cost * SCALE - key'.tokens, later - now);
  }

  lemma WaitDecides(c: Config, missing: int, elapsed: int)
    requires ValidConfig(c) && 1 <= Rate(c) && 0 < missing
    ensures var wait := RetryAfterSeconds(c, c.cost * SCALE - missing);
      && (1000 * wait <= elapsed ==> missing <= Rate(c) * elapsed)
      && (1 < wait && elapsed <= 1000 * (wait - 1) ==> Rate(c) * elapsed < missing)
  {
    var wait := RetryAfterSeconds(c, c.cost * SCALE - missing);
    LeastWait(missing, Rate(c));
    if 1000 * wait <= elapsed {
      MultiplyLeft(Rate(c), 1000 * wait, elapsed);
    }
    if elapsed <= 1000 * (wait - 1) {
      MultiplyLeft(Rate(c), elapsed, 1000 * (wait - 1));
    }
  }
}
