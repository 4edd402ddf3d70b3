/** The sliding-window-counter limiter: one counter per fixed window, expiring two windows after it was set. */
module SlidingWindow {
  import opened Arithmetic
  import opened Sums

  const SCALE := 1000

  datatype Config = Config(windowMs: int, maxRequests: int)

  predicate ValidConfig(c: Config) {
    0 < c.windowMs && 0 < c.maxRequests
  }

  function WindowStart(c: Config, now: int): int
    requires ValidConfig(c)
  {
    now / c.windowMs * c.windowMs
  }

  /** The scaled estimate: the current count plus the previous count weighted by what is left of its window. */
  function Estimate(c: Config, current: int, previous: int, now: int): int
    requires ValidConfig(c)
  {
    current * SCALE + previous * (c.windowMs - (now - WindowStart(c, now))) * SCALE / c.windowMs
  }

  // ---------- the counters in Redis ----------

  datatype Counter = Counter(count: int, expiresAt: int)

  type Counters = map<int, Counter>

  function CountOf(counters: Counters, start: int): int {
    if start in counters then counters[start].count else 0
  }

  predicate Allows(c: Config, counters: Counters, now: int)
    requires ValidConfig(c)
  {
    var start := WindowStart(c, now);
    Estimate(c, CountOf(counters, start), CountOf(counters, start - c.windowMs), now) < c.maxRequests * SCALE
  }

  /** The expiry is set by the request that makes the counter one, and by no other. */
  function AfterHit(c: Config, counters: Counters, now: int): Counters
    requires ValidConfig(c)
  {
    var start := WindowStart(c, now);
    if !Allows(c, counters, now) then counters
    else if start in counters then counters[start := counters[start].(count := counters[start].count + 1)]
    else counters[start := Counter(1, now + 2 * c.windowMs)]
  }

  /** The script run by Redis, over the counters of one identity. */
  class WindowCounters {
    var counters: Counters

    constructor ()
      ensures counters == map[]
    {
      counters := map[];
    }

    method Eval(c: Config, now: int) returns (allowed: bool, estimatedCountScaled: int)
      requires ValidConfig(c)
      modifies this
      ensures allowed == Allows(c, old(counters), now)
      ensures counters == AfterHit(c, old(counters), now)
      ensures var start := WindowStart(c, now);
        estimatedCountScaled ==
          Estimate(c, CountOf(counters, start), CountOf(old(counters), start - c.windowMs), now)
    {
      var currentWindowStart := now / c.windowMs * c.windowMs;
      var currentCount := CountOf(counters, currentWindowStart);
      var previousCount := CountOf(counters, currentWindowStart - c.windowMs);
      var elapsedInCurrentWindow := now - currentWindowStart;
      var remainingPreviousWindowMs := c.windowMs - elapsedInCurrentWindow;
      var weightedPreviousScaled := previousCount * remainingPreviousWindowMs * SCALE / c.windowMs;
      estimatedCountScaled := currentCount * SCALE + weightedPreviousScaled;
      if estimatedCountScaled >= c.maxRequests * SCALE {
        return false, estimatedCountScaled;
      }
      currentCount := currentCount + 1;
      var expiresAt := if currentWindowStart in counters then counters[currentWindowStart].expiresAt
                       else now + 2 * c.windowMs;
      counters := counters[currentWindowStart := Counter(currentCount, expiresAt)];
      return true, estimatedCountScaled + SCALE;
    }
  }

  // ---------- the log it stands for ----------

  function Within(start: int, length: int): int -> int {
    (t: int) => if start <= t < start + length then 1 else 0
  }

  /** Admissions in [start, start + length). */
  function CountIn(log: seq<int>, start: int, length: int): int {
    SumBy(log, Within(start, length))
  }

  function LogEstimate(c: Config, log: seq<int>, now: int): int
    requires ValidConfig(c)
  {
    var start := WindowStart(c, now);
    Estimate(c, CountIn(log, start, c.windowMs), CountIn(log, start - c.windowMs, c.windowMs), now)
  }

  predicate LogAllows(c: Config, log: seq<int>, now: int)
    requires ValidConfig(c)
  {
    LogEstimate(c, log, now) < c.maxRequests * SCALE
  }

  /** A request, and the counters Redis has dropped since the one before it. */
  datatype Hit = Hit(now: int, dropped: set<int>)

  /** The admissions, had nothing ever expired. */
  function LogAfter(c: Config, hits: seq<Hit>): seq<int>
    requires ValidConfig(c)
  {
    if hits == [] then []
    else
      var log, now := LogAfter(c, hits[..|hits| - 1]), hits[|hits| - 1].now;
      if LogAllows(c, log, now) then log + [now] else log
  }

  function CountersAfter(c: Config, hits: seq<Hit>): Counters
    requires ValidConfig(c)
  {
    if hits == [] then map[]
    else
      var hit := hits[|hits| - 1];
      AfterHit(c, CountersAfter(c, hits[..|hits| - 1]) - hit.dropped, hit.now)
  }

  /** Redis drops counters whose expiry has come, and only those. */
  predicate LegalDrops(c: Config, hits: seq<Hit>)
    requires ValidConfig(c)
  {
    hits != [] ==>
      var before, hit := hits[..|hits| - 1], hits[|hits| - 1];
      && LegalDrops(c, before)
      && forall k :: k in hit.dropped && k in CountersAfter(c, before) ==>
           CountersAfter(c, before)[k].expiresAt <= hit.now
  }

  predicate InTimeOrder(hits: seq<Hit>) {
    forall i, j :: 0 <= i <= j < |hits| ==> hits[i].now <= hits[j].now
  }

  // ---------- the counters agree with the log ----------

  lemma WindowBounds(c: Config, now: int)
    requires ValidConfig(c)
    ensures WindowStart(c, now) <= now < WindowStart(c, now) + c.windowMs
  {
  }

  predicate IsStart(c: Config, start: int)
    requires ValidConfig(c)
  {
    WindowStart(c, start) == start
  }

  /** Starts of windows that a request at `now` or later can still read. */
  predicate Readable(c: Config, start: int, now: int)
    requires ValidConfig(c)
  {
    IsStart(c, start) && WindowStart(c, now) - c.windowMs <= start
  }

  /** Every counter that can still be read is there and right, and expires after its last reading. */
  ghost predicate Agrees(c: Config, counters: Counters, log: seq<int>, now: int)
    requires ValidConfig(c)
  {
    && (forall k :: Readable(c, k, now) ==> CountOf(counters, k) == CountIn(log, k, c.windowMs))
    && (forall k :: k in counters ==> IsStart(c, k) && k + 2 * c.windowMs <= counters[k].expiresAt)
  }

  lemma StartsAreAligned(c: Config, now: int)
    requires ValidConfig(c)
    ensures IsStart(c, WindowStart(c, now))
    ensures IsStart(c, WindowStart(c, now) - c.windowMs) && IsStart(c, WindowStart(c, now) + c.windowMs)
  {
    var k := now / c.windowMs;
    MultiplesDivide(k, c.windowMs);
    MultiplesDivide(k - 1, c.windowMs);
    MultiplesDivide(k + 1, c.windowMs);
  }

  /** Aligned windows do not overlap. */
  lemma AlignedWindowsAreDisjoint(c: Config, k: int, l: int)
    requires ValidConfig(c) && IsStart(c, k) && IsStart(c, l) && k < l
    ensures k + c.windowMs <= l
  {
    var i, j := k / c.windowMs, l / c.windowMs;
    if j <= i {
      MultiplyMonotone(j, i, c.windowMs);
    } else {
      MultiplyMonotone(i, j, c.windowMs);
      MultiplyMonotone(i + 1, j, c.windowMs);
    }
  }

  lemma StartsAreMonotone(c: Config, now: int, later: int)
    requires ValidConfig(c) && now <= later
    ensures WindowStart(c, now) <= WindowStart(c, later)
  {
    WindowBounds(c, now);
    WindowBounds(c, later);
    StartsAreAligned(c, now);
    StartsAreAligned(c, later);
    if WindowStart(c, later) < WindowStart(c, now) {
      AlignedWindowsAreDisjoint(c, WindowStart(c, later), WindowStart(c, now));
    }
  }

  lemma AgreementAfterDrops(c: Config, counters: Counters, log: seq<int>, before: int, hit: Hit)
    requires ValidConfig(c) && Agrees(c, counters, log, before) && before <= hit.now
    requires forall k :: k in hit.dropped && k in counters ==> counters[k].expiresAt <= hit.now
    ensures Agrees(c, counters - hit.dropped, log, hit.now)
  {
    StartsAreMonotone(c, before, hit.now);
    WindowBounds(c, hit.now);
    forall k | Readable(c, k, hit.now) ensures CountOf(counters - hit.dropped, k) == CountIn(log, k, c.windowMs) {
      assert Readable(c, k, before);
    }
  }

  lemma AgreeingDecision(c: Config, counters: Counters, log: seq<int>, now: int)
    requires ValidConfig(c) && Agrees(c, counters, log, now)
    ensures Allows(c, counters, now) == LogAllows(c, log, now)
  {
    var start := WindowStart(c, now);
    StartsAreAligned(c, now);
    assert Readable(c, start, now) && Readable(c, start - c.windowMs, now);
  }

  lemma WindowsApart(c: Config, start: int, now: int, k: int)
    requires ValidConfig(c) && IsStart(c, k) && IsStart(c, start) && start <= now < start + c.windowMs
    ensures Within(k, c.windowMs)(now) == if k == start then 1 else 0
  {
    if k < start {
      AlignedWindowsAreDisjoint(c, k, start);
    } else if start < k {
      AlignedWindowsAreDisjoint(c, start, k);
    }
  }

  lemma OneMoreAdmission(c: Config, log: seq<int>, now: int, k: int)
    requires ValidConfig(c) && IsStart(c, k)
    ensures CountIn(log + [now], k, c.windowMs)
         == CountIn(log, k, c.windowMs) + if k == WindowStart(c, now) then 1 else 0
  {
    StartsAreAligned(c, now);
    WindowBounds(c, now);
    WindowsApart(c, WindowStart(c, now), now, k);
    SumAppend(log, now, Within(k, c.windowMs));
  }

  lemma AgreementAfterHit(c: Config, counters: Counters, log: seq<int>, now: int)
    requires ValidConfig(c) && Agrees(c, counters, log, now)
    ensures Allows(c, counters, now) == LogAllows(c, log, now)
    ensures Agrees(c, AfterHit(c, counters, now), if LogAllows(c, log, now) then log + [now] else log, now)
  {
    AgreeingDecision(c, counters, log, now);
    StartsAreAligned(c, now);
    WindowBounds(c, now);
    if Allows(c, counters, now) {
      var counters' := AfterHit(c, counters, now);
      forall k | Readable(c, k, now) ensures CountOf(counters', k) == CountIn(log + [now], k, c.windowMs) {
        OneMoreAdmission(c, log, now, k);
      }
    }
  }

  /** Expiry is unobservable: after any requests in time order the counters still answer for the whole log. */
  lemma {:induction false} CountersAgreeWithLog(c: Config, hits: seq<Hit>, now: int)
    requires ValidConfig(c) && InTimeOrder(hits) && LegalDrops(c, hits)
    requires hits != [] ==> hits[|hits| - 1].now <= now
    ensures Agrees(c, CountersAfter(c, hits), LogAfter(c, hits), if hits == [] then now else hits[|hits| - 1].now)
  {
    if hits != [] {
      var before, hit := hits[..|hits| - 1], hits[|hits| - 1];
      CountersAgreeWithLog(c, before, hit.now);
      var since := if before == [] then hit.now else before[|before| - 1].now;
      AgreementAfterDrops(c, CountersAfter(c, before), LogAfter(c, before), since, hit);
      AgreementAfterHit(c, CountersAfter(c, before) - hit.dropped, LogAfter(c, before), hit.now);
    }
  }

  /** So the decision on the next request is the decision an unbounded log of admissions would give. */
  lemma ExpiryIsUnobservable(c: Config, hits: seq<Hit>, next: Hit)
    requires ValidConfig(c) && InTimeOrder(hits + [next]) && LegalDrops(c, hits + [next])
    ensures Allows(c, CountersAfter(c, hits) - next.dropped, next.now) == LogAllows(c, LogAfter(c, hits), next.now)
  {
    var all := hits + [next];
    assert all[..|all| - 1] == hits;
    assert forall i :: 0 <= i < |hits| ==> all[i] == hits[i];
    assert hits != [] ==> all[|hits| - 1].now <= all[|hits|].now;
    CountersAgreeWithLog(c, hits, next.now);
    var since := if hits == [] then next.now else hits[|hits| - 1].now;
    AgreementAfterDrops(c, CountersAfter(c, hits), LogAfter(c, hits), since, next);
    AgreementAfterHit(c, CountersAfter(c, hits) - next.dropped, LogAfter(c, hits), next.now);
  }

  // ---------- what the rule is, in whole requests ----------

  /** What counts as an admission in a span is its number of places in the log. */
  lemma {:induction false} CountInIsANumber(log: seq<int>, start: int, length: int)
    ensures CountIn(log, start, length) == |set i | 0 <= i < |log| && start <= log[i] < start + length|
  {
    if log != [] {
      var n := |log| - 1;
      CountInIsANumber(log[..n], start, length);
      PlacesGrow(log, start, length);
    }
  }

  lemma PlacesGrow(log: seq<int>, start: int, length: int)
    requires log != []
    ensures var n := |log| - 1;
      |set i | 0 <= i < |log| && start <= log[i] < start + length|
        == |set i | 0 <= i < n && start <= log[..n][i] < start + length|
         + if start <= log[n] < start + length then 1 else 0
  {
    var n := |log| - 1;
    var before := set i | 0 <= i < n && start <= log[..n][i] < start + length;
    var all := set i | 0 <= i < |log| && start <= log[i] < start + length;
    if start <= log[n] < start + length {
      assert all == before + {n};
    } else {
      assert all == before;
    }
  }

  /** A moment, as the start of its window and the time since then. */
  lemma WindowStartIs(c: Config, now: int)
    requires ValidConfig(c)
    ensures WindowStart(c, now) == now - now % c.windowMs
  {
  }

  lemma ScaledSum(current: int, weighted: int, limit: int, d: int)
    requires 0 < d
    ensures current * SCALE + weighted * SCALE / d < limit * SCALE <==> current * d + weighted < limit * d
    ensures current * d + weighted < limit * d <==> current + weighted / d < limit
  {
    FloorIsBelow(weighted * SCALE, (limit - current) * SCALE, d);
    FloorIsBelow(weighted, limit - current, d);
    assert (limit - current) * SCALE * d == (limit * d - current * d) * SCALE;
    assert (limit - current) * d == limit * d - current * d;
  }

  /** The admissions of the window before, weighted by what is left of the current one, in whole requests. */
  function Weighted(c: Config, previous: int, now: int): int
    requires ValidConfig(c)
  {
    previous * (c.windowMs - now % c.windowMs) / c.windowMs
  }

  /**
   * A request is let through exactly when the admissions of its window and the weighted ones of the window before are
   * fewer than allowed. The scale of the estimate does not show.
   */
  lemma DecisionRule(c: Config, log: seq<int>, now: int)
    requires ValidConfig(c)
    ensures var start, d := now - now % c.windowMs, c.windowMs;
      var current, previous := CountIn(log, start, d), CountIn(log, start - d, d);
      && (LogAllows(c, log, now) <==> current * d + previous * (d - now % d) < c.maxRequests * d)
      && (LogAllows(c, log, now) <==> current + Weighted(c, previous, now) < c.maxRequests)
  {
    var start := now - now % c.windowMs;
    WindowStartIs(c, now);
    var previous := CountIn(log, start - c.windowMs, c.windowMs);
    ScaledSum(CountIn(log, start, c.windowMs), previous * (c.windowMs - now % c.windowMs), c.maxRequests, c.windowMs);
  }

  /** `k` requests at one moment. */
  function Burst(now: int, k: nat): seq<Hit> {
    if k == 0 then [] else Burst(now, k - 1) + [Hit(now, {})]
  }

  /** What one request adds to the admissions of its window and of the window before. */
  lemma OneHit(c: Config, hits: seq<Hit>, hit: Hit, start: int)
    requires ValidConfig(c) && start == hit.now - hit.now % c.windowMs
    ensures var log, log' := LogAfter(c, hits), LogAfter(c, hits + [hit]);
      var current, previous := CountIn(log, start, c.windowMs), CountIn(log, start - c.windowMs, c.windowMs);
      var more := if current + Weighted(c, previous, hit.now) < c.maxRequests then 1 else 0;
      && |log'| == |log| + more
      && CountIn(log', start, c.windowMs) == current + more
      && CountIn(log', start - c.windowMs, c.windowMs) == previous
  {
    assert (hits + [hit])[..|hits|] == hits;
    WindowStartIs(c, hit.now);
    StartsAreAligned(c, hit.now);
    DecisionRule(c, LogAfter(c, hits), hit.now);
    OneMoreAdmission(c, LogAfter(c, hits), hit.now, start);
    OneMoreAdmission(c, LogAfter(c, hits), hit.now, start - c.windowMs);
  }

  /** `log` counts so many admissions in the window that starts at `start` and in the one before. */
  predicate Counts(c: Config, log: seq<int>, start: int, current: int, previous: int) {
    CountIn(log, start, c.windowMs) == current && CountIn(log, start - c.windowMs, c.windowMs) == previous
  }

  lemma OneHitCounts(c: Config, hits: seq<Hit>, hit: Hit, start: int, current: int, previous: int)
    requires ValidConfig(c) && start == hit.now - hit.now % c.windowMs
    requires Counts(c, LogAfter(c, hits), start, current, previous)
    ensures var more := if current + Weighted(c, previous, hit.now) < c.maxRequests then 1 else 0;
      && |LogAfter(c, hits + [hit])| == |LogAfter(c, hits)| + more
      && Counts(c, LogAfter(c, hits + [hit]), start, current + more, previous)
  {
    OneHit(c, hits, hit, start);
  }

  /**
   * How many of `k` requests at one moment are let through: as many as are left of maxRequests after the admissions
   * of the window and the weighted ones of the window before.
   */
  lemma {:induction false} BurstAdmits(c: Config, hits: seq<Hit>, now: int, start: int, k: nat, room: int,
                                       current: int, previous: int)
    requires ValidConfig(c) && start == now - now % c.windowMs
    requires Counts(c, LogAfter(c, hits), start, current, previous)
    requires room == c.maxRequests - current - Weighted(c, previous, now)
    ensures |LogAfter(c, hits + Burst(now, k))| == |LogAfter(c, hits)| + Min(k, Max(0, room))
    ensures Counts(c, LogAfter(c, hits + Burst(now, k)), start, current + Min(k, Max(0, room)), previous)
  {
    if k == 0 {
      assert hits + Burst(now, 0) == hits;
    } else {
      BurstAdmits(c, hits, now, start, k - 1, room, current, previous);
      assert hits + Burst(now, k) == hits + Burst(now, k - 1) + [Hit(now, {})];
      OneHitCounts(c, hits + Burst(now, k - 1), Hit(now, {}), start,
                   current + Min(k - 1, Max(0, room)), previous);
    }
  }

  lemma AlmostAll(n: int, d: int)
    requires 1 <= n <= d
    ensures n * (d - 1) / d == n - 1
  {
    assert n * (d - 1) == (n - 1) * d + (d - n);
    QuotientIs(n * (d - 1), d, n - 1);
  }

  /** So right after a full window one request is let through, however many come at once. */
  lemma OneAfterAFullWindow(c: Config, hits: seq<Hit>, now: int, k: nat)
    requires ValidConfig(c) && c.maxRequests <= c.windowMs && now % c.windowMs == 1 && 0 < k
    requires CountIn(LogAfter(c, hits), now - 1, c.windowMs) == 0
    requires CountIn(LogAfter(c, hits), now - 1 - c.windowMs, c.windowMs) == c.maxRequests
    ensures |LogAfter(c, hits + Burst(now, k))| == |LogAfter(c, hits)| + 1
  {
    AlmostAll(c.maxRequests, c.windowMs);
    BurstAdmits(c, hits, now, now - 1, k, 1, 0, c.maxRequests);
  }

  // ---------- bounds ----------

  lemma CountNonNegative(log: seq<int>, start: int, length: int)
    ensures 0 <= CountIn(log, start, length)
  {
    SumBoundsTerm(log, Within(start, length));
  }

  lemma WeightIsNonNegative(c: Config, previous: int, now: int)
    requires ValidConfig(c) && 0 <= previous
    ensures 0 <= previous * (c.windowMs - (now - WindowStart(c, now))) * SCALE / c.windowMs <= previous * SCALE
  {
    WindowBounds(c, now);
    var left := c.windowMs - (now - WindowStart(c, now));
    assert 0 <= previous * left <= previous * c.windowMs;
    assert previous * left * SCALE <= previous * SCALE * c.windowMs;
    QuotientBounds(previous * left * SCALE, previous * SCALE, c.windowMs);
  }

  /** Each fixed window admits at most maxRequests. */
  lemma {:induction false} WindowIsBounded(c: Config, hits: seq<Hit>, start: int)
    requires ValidConfig(c) && IsStart(c, start)
    ensures CountIn(LogAfter(c, hits), start, c.windowMs) <= c.maxRequests
  {
    if hits != [] {
      var log, now := LogAfter(c, hits[..|hits| - 1]), hits[|hits| - 1].now;
      WindowIsBounded(c, hits[..|hits| - 1], start);
      if LogAllows(c, log, now) {
        SumAppend(log, now, Within(start, c.windowMs));
        if start <= now < start + c.windowMs {
          StartsAreAligned(c, now);
          WindowBounds(c, now);
          OneAlignedStart(c, start, now);
          CountNonNegative(log, start - c.windowMs, c.windowMs);
          WeightIsNonNegative(c, CountIn(log, start - c.windowMs, c.windowMs), now);
        }
      }
    }
  }

  lemma OneAlignedStart(c: Config, start: int, now: int)
    requires ValidConfig(c) && IsStart(c, start) && start <= now < start + c.windowMs
    ensures start == WindowStart(c, now)
  {
    StartsAreAligned(c, now);
    WindowBounds(c, now);
    if start < WindowStart(c, now) {
      AlignedWindowsAreDisjoint(c, start, WindowStart(c, now));
    } else if WindowStart(c, now) < start {
      AlignedWindowsAreDisjoint(c, WindowStart(c, now), start);
    }
  }

  lemma {:induction false} SpanInTwoWindows(log: seq<int>, from: int, start: int, length: int)
    requires start <= from < start + length
    ensures CountIn(log, from, length) <= CountIn(log, start, length) + CountIn(log, start + length, length)
  {
    if log != [] {
      SpanInTwoWindows(log[..|log| - 1], from, start, length);
    }
  }

  /** Any span as long as a window, wherever it starts, admits at most twice maxRequests. */
  lemma AnySpanIsBounded(c: Config, hits: seq<Hit>, from: int)
    requires ValidConfig(c)
    ensures CountIn(LogAfter(c, hits), from, c.windowMs) <= 2 * c.maxRequests
  {
    var start := WindowStart(c, from);
    WindowBounds(c, from);
    StartsAreAligned(c, from);
    SpanInTwoWindows(LogAfter(c, hits), from, start, c.windowMs);
    WindowIsBounded(c, hits, start);
    WindowIsBounded(c, hits, start + c.windowMs);
  }

  /** The weight of the previous window only falls while a window lasts. */
  lemma EstimateFalls(c: Config, current: int, previous: int, now: int, later: int)
    requires ValidConfig(c) && 0 <= previous && now <= later && WindowStart(c, later) == WindowStart(c, now)
    ensures Estimate(c, current, previous, later) <= Estimate(c, current, previous, now)
  {
    var x := previous * (c.windowMs - (later - WindowStart(c, later))) * SCALE;
    var y := previous * (c.windowMs - (now - WindowStart(c, now))) * SCALE;
    WindowBounds(c, later);
    MultiplyLeft(previous, c.windowMs - (later - WindowStart(c, later)), c.windowMs - (now - WindowStart(c, now)));
    QuotientMonotone(x, y, c.windowMs);
  }

  /**
   * At every moment from the last request on, admissions included, the weighted estimate of the log stays below
   * (maxRequests + 1) * SCALE.
   */
  lemma {:induction false} EstimateIsBounded(c: Config, hits: seq<Hit>, now: int)
    requires ValidConfig(c) && InTimeOrder(hits)
    requires hits != [] ==> hits[|hits| - 1].now <= now
    ensures LogEstimate(c, LogAfter(c, hits), now) < (c.maxRequests + 1) * SCALE
  {
    var log, start := LogAfter(c, hits), WindowStart(c, now);
    StartsAreAligned(c, now);
    WindowIsBounded(c, hits, start - c.windowMs);
    CountNonNegative(log, start - c.windowMs, c.windowMs);
    WeightIsNonNegative(c, CountIn(log, start - c.windowMs, c.windowMs), now);
    if hits == [] {
    } else if WindowStart(c, hits[|hits| - 1].now) == start {
      var before, last := hits[..|hits| - 1], hits[|hits| - 1].now;
      var log' := LogAfter(c, before);
      EstimateIsBounded(c, before, last);
      WindowBounds(c, last);
      if LogAllows(c, log', last) {
        SumAppend(log', last, Within(start, c.windowMs));
        SumAppend(log', last, Within(start - c.windowMs, c.windowMs));
      }
      EstimateFalls(c, CountIn(log, start, c.windowMs), CountIn(log, start - c.windowMs, c.windowMs), last, now);
    } else {
      NewWindowIsEmpty(c, hits, now);
    }
  }

  /** A window that no request has reached yet has no admissions. */
  lemma {:induction false} NewWindowIsEmpty(c: Config, hits: seq<Hit>, now: int)
    requires ValidConfig(c) && InTimeOrder(hits) && hits != []
    requires hits[|hits| - 1].now <= now && WindowStart(c, hits[|hits| - 1].now) != WindowStart(c, now)
    ensures CountIn(LogAfter(c, hits), WindowStart(c, now), c.windowMs) == 0
  {
    WindowBounds(c, hits[|hits| - 1].now);
    StartsAreMonotone(c, hits[|hits| - 1].now, now);
    StartsAreAligned(c, now);
    StartsAreAligned(c, hits[|hits| - 1].now);
    AlignedWindowsAreDisjoint(c, WindowStart(c, hits[|hits| - 1].now), WindowStart(c, now));
    NothingFrom(c, hits, WindowStart(c, now));
  }

  lemma {:induction false} NothingFrom(c: Config, hits: seq<Hit>, start: int)
    requires ValidConfig(c)
    requires forall i :: 0 <= i < |hits| ==> hits[i].now < start
    ensures CountIn(LogAfter(c, hits), start, c.windowMs) == 0
  {
    if hits != [] {
      var log, now := LogAfter(c, hits[..|hits| - 1]), hits[|hits| - 1].now;
      NothingFrom(c, hits[..|hits| - 1], start);
      SumAppend(log, now, Within(start, c.windowMs));
    }
  }
}
