/** Candles of five nested intervals, kept up to date one executed trade at a time, and the 24-hour statistics. */
module Candles {
  import opened Arithmetic
  import opened Sums

  datatype Interval = OneMinute | FiveMinutes | FifteenMinutes | OneHour | OneDay

  const DEFAULT_INTERVALS := [OneMinute, FiveMinutes, FifteenMinutes, OneHour, OneDay]

  function IntervalMs(interval: Interval): int {
    match interval
    case OneMinute => 60000
    case FiveMinutes => 300000
    case FifteenMinutes => 900000
    case OneHour => 3600000
    case OneDay => 86400000
  }

  function OpenTime(tradeTime: int, interval: Interval): int {
    tradeTime / IntervalMs(interval) * IntervalMs(interval)
  }

  function CloseTime(openTime: int, interval: Interval): int {
    openTime + IntervalMs(interval) - 1
  }

  datatype Trade = Trade(pair: nat, time: int, price: int, quantity: int, quoteAmount: int)

  /** The key of a candle row. */
  datatype Slot = Slot(pair: nat, interval: Interval, openTime: int)

  datatype Candle = Candle(closeTime: int, open: int, high: int, low: int, close: int,
                           volume: int, quoteVolume: int, tradeCount: int)

  function SlotOf(t: Trade, interval: Interval): Slot {
    Slot(t.pair, interval, OpenTime(t.time, interval))
  }

  function FirstCandle(t: Trade, slot: Slot): Candle {
    Candle(CloseTime(slot.openTime, slot.interval), t.price, t.price, t.price, t.price, t.quantity, t.quoteAmount, 1)
  }

  function NextCandle(c: Candle, t: Trade): Candle {
    Candle(c.closeTime, c.open,
           if c.high < t.price then t.price else c.high,
           if t.price < c.low then t.price else c.low,
           t.price, c.volume + t.quantity, c.quoteVolume + t.quoteAmount, c.tradeCount + 1)
  }

  function AfterTrade(candles: map<Slot, Candle>, t: Trade, interval: Interval): map<Slot, Candle> {
    var slot := SlotOf(t, interval);
    candles[slot := if slot in candles then NextCandle(candles[slot], t) else FirstCandle(t, slot)]
  }

  function AfterEvent(candles: map<Slot, Candle>, t: Trade, intervals: seq<Interval>): map<Slot, Candle> {
    if intervals == [] then candles
    else AfterTrade(AfterEvent(candles, t, intervals[..|intervals| - 1]), t, intervals[|intervals| - 1])
  }

  /** The table after the trades, in the order in which they were processed, each once. */
  function TableAfter(trades: seq<Trade>): map<Slot, Candle> {
    if trades == [] then map[]
    else AfterEvent(TableAfter(trades[..|trades| - 1]), trades[|trades| - 1], DEFAULT_INTERVALS)
  }

  /** The table of candles, updated in place. */
  class CandleTable {
    var candles: map<Slot, Candle>

    constructor ()
      ensures candles == map[]
    {
      candles := map[];
    }

    method UpdateSingleCandleFromTrade(t: Trade, interval: Interval) returns (candle: Candle)
      modifies this
      ensures candles == AfterTrade(old(candles), t, interval)
      ensures SlotOf(t, interval) in candles && candle == candles[SlotOf(t, interval)]
    {
      var intervalMs := IntervalMs(interval);
      var openTime := t.time / intervalMs * intervalMs;
      var slot := Slot(t.pair, interval, openTime);
      if slot !in candles {
        candle := Candle(openTime + intervalMs - 1, t.price, t.price, t.price, t.price, t.quantity, t.quoteAmount, 1);
      } else {
        var existing := candles[slot];
        var nextHigh := if t.price > existing.high then t.price else existing.high;
        var nextLow := if t.price < existing.low then t.price else existing.low;
        candle := existing.(high := nextHigh, low := nextLow, close := t.price,
                            volume := existing.volume + t.quantity,
                            quoteVolume := existing.quoteVolume + t.quoteAmount,
                            tradeCount := existing.tradeCount + 1);
      }
      candles := candles[slot := candle];
    }

    method UpdateCandlesFromTradeEvent(t: Trade, intervals: seq<Interval>)
      modifies this
      ensures candles == AfterEvent(old(candles), t, intervals)
    {
      for i := 0 to |intervals|
        invariant candles == AfterEvent(old(candles), t, intervals[..i])
      {
        assert intervals[..i + 1][..i] == intervals[..i];
        var _ := UpdateSingleCandleFromTrade(t, intervals[i]);
      }
      assert intervals[..|intervals|] == intervals;
    }
  }

  // ---------- what a candle stands for ----------

  predicate Falls(t: Trade, slot: Slot) {
    SlotOf(t, slot.interval) == slot
  }

  /** The trades of a slot, in processing order. */
  function Bucket(trades: seq<Trade>, slot: Slot): seq<Trade> {
    if trades == [] then []
    else
      var before, t := Bucket(trades[..|trades| - 1], slot), trades[|trades| - 1];
      if Falls(t, slot) then before + [t] else before
  }

  function Quantity(): Trade -> int {
    (t: Trade) => t.quantity
  }

  function QuoteAmount(): Trade -> int {
    (t: Trade) => t.quoteAmount
  }

  /** An attained upper bound of the prices. */
  predicate IsHigh(high: int, trades: seq<Trade>) {
    && (exists i :: 0 <= i < |trades| && trades[i].price == high)
    && (forall i :: 0 <= i < |trades| ==> trades[i].price <= high)
  }

  predicate IsLow(low: int, trades: seq<Trade>) {
    && (exists i :: 0 <= i < |trades| && trades[i].price == low)
    && (forall i :: 0 <= i < |trades| ==> low <= trades[i].price)
  }

  predicate Summarises(c: Candle, slot: Slot, bucket: seq<Trade>) {
    && bucket != []
    && c.closeTime == CloseTime(slot.openTime, slot.interval)
    && c.open == bucket[0].price && c.close == bucket[|bucket| - 1].price
    && IsHigh(c.high, bucket) && IsLow(c.low, bucket)
    && c.volume == SumBy(bucket, Quantity()) && c.quoteVolume == SumBy(bucket, QuoteAmount())
    && c.tradeCount == |bucket|
  }

  lemma FirstSummarises(t: Trade, slot: Slot)
    ensures Summarises(FirstCandle(t, slot), slot, [t])
  {
    SumAppend([], t, Quantity());
    SumAppend([], t, QuoteAmount());
    assert [] + [t] == [t] && [t][0].price == t.price;
  }

  lemma NextSummarises(c: Candle, slot: Slot, bucket: seq<Trade>, t: Trade)
    requires Summarises(c, slot, bucket)
    ensures Summarises(NextCandle(c, t), slot, bucket + [t])
  {
    var next := bucket + [t];
    SumAppend(bucket, t, Quantity());
    SumAppend(bucket, t, QuoteAmount());
    var i :| 0 <= i < |bucket| && bucket[i].price == c.high;
    var j :| 0 <= j < |bucket| && bucket[j].price == c.low;
    assert next[i].price == c.high && next[j].price == c.low && next[|bucket|].price == t.price;
  }

  predicate Distinct(intervals: seq<Interval>) {
    forall i, j :: 0 <= i < j < |intervals| ==> intervals[i] != intervals[j]
  }

  /** An event reaches each of its slots once, and no other slot. */
  lemma {:induction false} EventReachesSlot(candles: map<Slot, Candle>, t: Trade, intervals: seq<Interval>, slot: Slot)
    requires Distinct(intervals)
    ensures var after, hit := AfterEvent(candles, t, intervals), slot.interval in intervals && Falls(t, slot);
      && (slot in after <==> slot in candles || hit)
      && (hit ==> after[slot] == if slot in candles then NextCandle(candles[slot], t) else FirstCandle(t, slot))
      && (slot in candles && !hit ==> after[slot] == candles[slot])
  {
    if intervals != [] {
      var n := |intervals| - 1;
      EventReachesSlot(candles, t, intervals[..n], slot);
      assert intervals == intervals[..n] + [intervals[n]];
      assert forall i :: 0 <= i < n ==> intervals[..n][i] != intervals[n];
    }
  }

  lemma EveryIntervalIsKept(interval: Interval)
    ensures interval in DEFAULT_INTERVALS
  {
    var n := |DEFAULT_INTERVALS|;
    assert n == 5 && interval == OneMinute ==> interval == DEFAULT_INTERVALS[0];
    assert interval == FiveMinutes ==> interval == DEFAULT_INTERVALS[1];
    assert interval == FifteenMinutes ==> interval == DEFAULT_INTERVALS[2];
    assert interval == OneHour ==> interval == DEFAULT_INTERVALS[3];
    assert interval == OneDay ==> interval == DEFAULT_INTERVALS[4];
  }

  /** For every sequence of trades, a candle row is there when its slot has trades, and says what they say. */
  lemma {:induction false} CandlesSummariseTrades(trades: seq<Trade>, slot: Slot)
    ensures slot in TableAfter(trades) <==> Bucket(trades, slot) != []
    ensures slot in TableAfter(trades) ==> Summarises(TableAfter(trades)[slot], slot, Bucket(trades, slot))
  {
    if trades != [] {
      var before, t := trades[..|trades| - 1], trades[|trades| - 1];
      CandlesSummariseTrades(before, slot);
      EventReachesSlot(TableAfter(before), t, DEFAULT_INTERVALS, slot);
      EveryIntervalIsKept(slot.interval);
      if Falls(t, slot) {
        if slot in TableAfter(before) {
          NextSummarises(TableAfter(before)[slot], slot, Bucket(before, slot), t);
        } else {
          FirstSummarises(t, slot);
          assert Bucket(before, slot) + [t] == [t];
        }
      }
    }
  }

  lemma {:induction false} BucketMembers(trades: seq<Trade>, slot: Slot, t: Trade)
    ensures t in Bucket(trades, slot) <==> t in trades && Falls(t, slot)
  {
    if trades != [] {
      BucketMembers(trades[..|trades| - 1], slot, t);
      assert trades == trades[..|trades| - 1] + [trades[|trades| - 1]];
    }
  }

  // ---------- the same in clock time ----------

  /** The trades of a pair from one moment on and before another, in processing order. */
  function Between(trades: seq<Trade>, pair: nat, from: int, to: int): seq<Trade> {
    if trades == [] then []
    else
      var before, t := Between(trades[..|trades| - 1], pair, from, to), trades[|trades| - 1];
      if t.pair == pair && from <= t.time < to then before + [t] else before
  }

  function Minutes(interval: Interval): int {
    match interval
    case OneMinute => 1
    case FiveMinutes => 5
    case FifteenMinutes => 15
    case OneHour => 60
    case OneDay => 24 * 60
  }

  lemma SpanIs(interval: Interval)
    ensures IntervalMs(interval) == Minutes(interval) * 60000
  {
    match interval
    case OneMinute =>
    case FiveMinutes =>
    case FifteenMinutes =>
    case OneHour =>
    case OneDay =>
  }

  lemma OpenTimeIs(time: int, interval: Interval, start: int, span: int)
    requires span == Minutes(interval) * 60000
    ensures 0 < span
    ensures OpenTime(time, interval) == start <==> start % span == 0 && start <= time < start + span
  {
    SpanIs(interval);
    if start % span == 0 && start <= time < start + span {
      QuotientIs(time, span, start / span);
    }
    MultiplesDivide(time / span, span);
  }

  lemma {:induction false} BucketIsASpan(trades: seq<Trade>, slot: Slot, span: int)
    requires span == Minutes(slot.interval) * 60000
    ensures 0 < span
    ensures Bucket(trades, slot)
         == if slot.openTime % span == 0 then Between(trades, slot.pair, slot.openTime, slot.openTime + span) else []
  {
    OpenTimeIs(slot.openTime, slot.interval, slot.openTime, span);
    if trades != [] {
      BucketIsASpan(trades[..|trades| - 1], slot, span);
      OpenTimeIs(trades[|trades| - 1].time, slot.interval, slot.openTime, span);
    }
  }

  /**
   * There is a candle for a pair, an interval and a moment exactly when the moment is a whole number of intervals and
   * the pair had trades in the interval that begins then. It closes a millisecond before the next one opens.
   */
  lemma CandlesAreSpans(trades: seq<Trade>, slot: Slot)
    ensures var span := Minutes(slot.interval) * 60000;
      && 0 < span
      && var within := Between(trades, slot.pair, slot.openTime, slot.openTime + span);
      && (slot in TableAfter(trades) <==> slot.openTime % span == 0 && within != [])
      && (slot in TableAfter(trades) ==>
            var c := TableAfter(trades)[slot];
            && c.closeTime == slot.openTime + span - 1
            && c.open == within[0].price && c.close == within[|within| - 1].price
            && IsHigh(c.high, within) && IsLow(c.low, within)
            && c.volume == SumBy(within, Quantity()) && c.quoteVolume == SumBy(within, QuoteAmount())
            && c.tradeCount == |within|)
  {
    SpanIs(slot.interval);
    BucketIsASpan(trades, slot, Minutes(slot.interval) * 60000);
    CandlesSummariseTrades(trades, slot);
  }

  // ---------- roll-up ----------

  predicate Finer(fine: Interval, coarse: Interval) {
    IntervalMs(fine) <= IntervalMs(coarse)
  }

  function Ratio(fine: Interval, coarse: Interval): int {
    IntervalMs(coarse) / IntervalMs(fine)
  }

  lemma RatiosAreExact(fine: Interval, coarse: Interval)
    requires Finer(fine, coarse)
    ensures 0 < Ratio(fine, coarse) && Ratio(fine, coarse) * IntervalMs(fine) == IntervalMs(coarse)
  {
    match fine
    case OneMinute =>
    case FiveMinutes =>
    case FifteenMinutes =>
    case OneHour =>
    case OneDay =>
  }

  /** Every interval starts where a coarser one starts or inside it. */
  lemma IntervalsNest(time: int, fine: Interval, coarse: Interval)
    requires Finer(fine, coarse)
    ensures OpenTime(OpenTime(time, fine), coarse) == OpenTime(time, coarse)
  {
    RatiosAreExact(fine, coarse);
    FloorsNest(time, IntervalMs(fine), Ratio(fine, coarse));
  }

  /** The finer slots that lie inside a slot. */
  predicate Inside(s: Slot, slot: Slot) {
    s.pair == slot.pair && OpenTime(s.openTime, slot.interval) == slot.openTime
  }

  function Parts(table: map<Slot, Candle>, slot: Slot, fine: Interval): set<Slot> {
    set s | s in table && s.interval == fine && Inside(s, slot)
  }

  lemma FallsInPart(t: Trade, slot: Slot, fine: Interval)
    requires Finer(fine, slot.interval)
    ensures Falls(t, slot) <==> Inside(SlotOf(t, fine), slot)
  {
    IntervalsNest(t.time, fine, slot.interval);
  }

  function BucketSum(trades: seq<Trade>, g: Trade -> int): Slot -> int {
    (s: Slot) => SumBy(Bucket(trades, s), g)
  }

  function OneTrade(t: Trade, g: Trade -> int): Slot -> int {
    (s: Slot) => if Falls(t, s) then g(t) else 0
  }

  lemma BucketSumStep(trades: seq<Trade>, g: Trade -> int, s: Slot)
    requires trades != []
    ensures BucketSum(trades, g)(s)
         == BucketSum(trades[..|trades| - 1], g)(s) + OneTrade(trades[|trades| - 1], g)(s)
  {
    SumAppend(Bucket(trades[..|trades| - 1], s), trades[|trades| - 1], g);
  }

  lemma SumsGrow(trades: seq<Trade>, parts: set<Slot>, g: Trade -> int)
    requires trades != []
    ensures SetSum(parts, BucketSum(trades, g))
         == SetSum(parts, BucketSum(trades[..|trades| - 1], g)) + SetSum(parts, OneTrade(trades[|trades| - 1], g))
  {
    var before, t := trades[..|trades| - 1], trades[|trades| - 1];
    forall s | s in parts ensures BucketSum(trades, g)(s) == BucketSum(before, g)(s) + OneTrade(t, g)(s) {
      BucketSumStep(trades, g, s);
    }
    SetSumPointwise(parts, BucketSum(before, g), OneTrade(t, g), BucketSum(trades, g));
  }

  predicate AreParts(parts: set<Slot>, slot: Slot, fine: Interval) {
    forall s :: s in parts ==> s.interval == fine && Inside(s, slot)
  }

  predicate Covered(trades: seq<Trade>, slot: Slot, fine: Interval, parts: set<Slot>) {
    forall i :: 0 <= i < |trades| && Falls(trades[i], slot) ==> SlotOf(trades[i], fine) in parts
  }

  lemma PrefixIsCovered(trades: seq<Trade>, slot: Slot, fine: Interval, parts: set<Slot>)
    requires trades != [] && Covered(trades, slot, fine, parts)
    ensures Covered(trades[..|trades| - 1], slot, fine, parts)
  {
  }

  /** Sums of the parts add up, whatever the order in which trades arrive. */
  lemma {:induction false} SumsRollUp(trades: seq<Trade>, slot: Slot, fine: Interval, parts: set<Slot>, g: Trade -> int)
    requires Finer(fine, slot.interval) && AreParts(parts, slot, fine) && Covered(trades, slot, fine, parts)
    ensures BucketSum(trades, g)(slot) == SetSum(parts, BucketSum(trades, g))
  {
    if trades == [] {
      SetSumZero(parts, BucketSum(trades, g));
    } else {
      var before, t := trades[..|trades| - 1], trades[|trades| - 1];
      PrefixIsCovered(trades, slot, fine, parts);
      SumsRollUp(before, slot, fine, parts, g);
      BucketSumStep(trades, g, slot);
      SumsGrow(trades, parts, g);
      OnePart(t, slot, fine, parts, g);
    }
  }

  /** A trade counts in one part, and only when it counts in the whole. */
  lemma OnePart(t: Trade, slot: Slot, fine: Interval, parts: set<Slot>, g: Trade -> int)
    requires Finer(fine, slot.interval)
    requires AreParts(parts, slot, fine) && (Falls(t, slot) ==> SlotOf(t, fine) in parts)
    ensures SetSum(parts, OneTrade(t, g)) == OneTrade(t, g)(slot)
  {
    FallsInPart(t, slot, fine);
    SetSumSingle(parts, SlotOf(t, fine), OneTrade(t, g));
  }

  lemma PartsCoverTrades(trades: seq<Trade>, slot: Slot, fine: Interval)
    requires Finer(fine, slot.interval)
    ensures forall t: Trade :: t in trades && Falls(t, slot) ==>
      SlotOf(t, fine) in Parts(TableAfter(trades), slot, fine)
    ensures Covered(trades, slot, fine, Parts(TableAfter(trades), slot, fine))
  {
    forall t: Trade | t in trades && Falls(t, slot)
      ensures SlotOf(t, fine) in Parts(TableAfter(trades), slot, fine)
    {
      FallsInPart(t, slot, fine);
      BucketMembers(trades, SlotOf(t, fine), t);
      CandlesSummariseTrades(trades, SlotOf(t, fine));
    }
  }

  function Volume(table: map<Slot, Candle>): Slot -> int {
    (s: Slot) => if s in table then table[s].volume else 0
  }

  function QuoteVolume(table: map<Slot, Candle>): Slot -> int {
    (s: Slot) => if s in table then table[s].quoteVolume else 0
  }

  function TradeCount(table: map<Slot, Candle>): Slot -> int {
    (s: Slot) => if s in table then table[s].tradeCount else 0
  }

  function One(): Trade -> int {
    (t: Trade) => 1
  }

  lemma {:induction false} CountIsSum(trades: seq<Trade>)
    ensures SumBy(trades, One()) == |trades|
  {
    if trades != [] {
      CountIsSum(trades[..|trades| - 1]);
    }
  }

  /** The sums of a candle are the sums of the finer candles inside it. */
  lemma VolumesRollUp(trades: seq<Trade>, slot: Slot, fine: Interval)
    requires Finer(fine, slot.interval) && slot in TableAfter(trades)
    ensures var table := TableAfter(trades);
      && table[slot].volume == SetSum(Parts(table, slot, fine), Volume(table))
      && table[slot].quoteVolume == SetSum(Parts(table, slot, fine), QuoteVolume(table))
      && table[slot].tradeCount == SetSum(Parts(table, slot, fine), TradeCount(table))
  {
    var table := TableAfter(trades);
    var parts := Parts(table, slot, fine);
    PartsCoverTrades(trades, slot, fine);
    SumsRollUp(trades, slot, fine, parts, Quantity());
    SumsRollUp(trades, slot, fine, parts, QuoteAmount());
    SumsRollUp(trades, slot, fine, parts, One());
    forall s | s in table
      ensures Volume(table)(s) == BucketSum(trades, Quantity())(s)
      ensures QuoteVolume(table)(s) == BucketSum(trades, QuoteAmount())(s)
      ensures TradeCount(table)(s) == BucketSum(trades, One())(s)
    {
      CandlesSummariseTrades(trades, s);
      CountIsSum(Bucket(trades, s));
    }
    SetSumCongruence(parts, BucketSum(trades, Quantity()), Volume(table));
    SetSumCongruence(parts, BucketSum(trades, QuoteAmount()), QuoteVolume(table));
    SetSumCongruence(parts, BucketSum(trades, One()), TradeCount(table));
  }

  /** The high of a candle is the highest high of the finer candles inside it, and the low the lowest low. */
  lemma ExtremesRollUp(trades: seq<Trade>, slot: Slot, fine: Interval)
    requires Finer(fine, slot.interval) && slot in TableAfter(trades)
    ensures var table := TableAfter(trades); var parts := Parts(table, slot, fine);
      && (forall s :: s in parts ==> table[s].high <= table[slot].high && table[slot].low <= table[s].low)
      && (exists s :: s in parts && table[s].high == table[slot].high)
      && (exists s :: s in parts && table[s].low == table[slot].low)
  {
    var table := TableAfter(trades);
    var bucket := Bucket(trades, slot);
    CandlesSummariseTrades(trades, slot);
    forall s | s in Parts(table, slot, fine)
      ensures table[s].high <= table[slot].high && table[slot].low <= table[s].low
    {
      PartWithin(trades, slot, s);
    }
    var i :| 0 <= i < |bucket| && bucket[i].price == table[slot].high;
    var j :| 0 <= j < |bucket| && bucket[j].price == table[slot].low;
    PartOfTrade(trades, slot, fine, bucket[i]);
    PartOfTrade(trades, slot, fine, bucket[j]);
    assert SlotOf(bucket[i], fine) in Parts(table, slot, fine);
    assert SlotOf(bucket[j], fine) in Parts(table, slot, fine);
  }

  lemma PartWithin(trades: seq<Trade>, slot: Slot, s: Slot)
    requires Finer(s.interval, slot.interval) && Inside(s, slot)
    requires slot in TableAfter(trades) && s in TableAfter(trades)
    ensures var table := TableAfter(trades); table[s].high <= table[slot].high && table[slot].low <= table[s].low
  {
    var table, part, whole := TableAfter(trades), Bucket(trades, s), Bucket(trades, slot);
    CandlesSummariseTrades(trades, slot);
    CandlesSummariseTrades(trades, s);
    forall i | 0 <= i < |part| ensures table[slot].low <= part[i].price <= table[slot].high {
      BucketMembers(trades, s, part[i]);
      FallsInPart(part[i], slot, s.interval);
      BucketMembers(trades, slot, part[i]);
    }
  }

  /** The part a trade falls in is there, and reaches at least as high and as low as the trade. */
  lemma PartOfTrade(trades: seq<Trade>, slot: Slot, fine: Interval, t: Trade)
    requires Finer(fine, slot.interval) && t in Bucket(trades, slot)
    ensures var table, s := TableAfter(trades), SlotOf(t, fine);
      s in Parts(table, slot, fine) && table[s].low <= t.price <= table[s].high
  {
    var s := SlotOf(t, fine);
    BucketMembers(trades, slot, t);
    PartsCoverTrades(trades, slot, fine);
    BucketMembers(trades, s, t);
    CandlesSummariseTrades(trades, s);
  }

  /** A finer candle lies inside a coarser one that is there too. */
  lemma EveryCandleIsAPart(trades: seq<Trade>, s: Slot, coarse: Interval)
    requires s in TableAfter(trades) && Finer(s.interval, coarse)
    ensures var slot := Slot(s.pair, coarse, OpenTime(s.openTime, coarse));
      slot in TableAfter(trades) && s in Parts(TableAfter(trades), slot, s.interval)
  {
    var slot := Slot(s.pair, coarse, OpenTime(s.openTime, coarse));
    CandlesSummariseTrades(trades, s);
    var t := Bucket(trades, s)[0];
    BucketMembers(trades, s, t);
    FallsInPart(t, slot, s.interval);
    BucketMembers(trades, slot, t);
    CandlesSummariseTrades(trades, slot);
  }

  predicate InTimeOrder(trades: seq<Trade>) {
    forall i, j :: 0 <= i <= j < |trades| ==> trades[i].time <= trades[j].time
  }

  lemma HeadStays(trades: seq<Trade>, slot: Slot)
    requires trades != [] && Bucket(trades[..|trades| - 1], slot) != []
    ensures Bucket(trades, slot) != [] && Bucket(trades, slot)[0] == Bucket(trades[..|trades| - 1], slot)[0]
  {
  }

  lemma {:induction false} FirstOfPart(trades: seq<Trade>, slot: Slot, fine: Interval)
    requires Finer(fine, slot.interval) && Bucket(trades, slot) != []
    ensures var s := SlotOf(Bucket(trades, slot)[0], fine);
      Bucket(trades, s) != [] && Bucket(trades, s)[0] == Bucket(trades, slot)[0]
  {
    var before, t := trades[..|trades| - 1], trades[|trades| - 1];
    if Bucket(before, slot) != [] {
      FirstOfPart(before, slot, fine);
      HeadStays(trades, slot);
      HeadStays(trades, SlotOf(Bucket(before, slot)[0], fine));
    } else {
      assert Bucket(trades, slot) == [t];
      FallsInPart(t, slot, fine);
      EmptyPart(before, slot, fine, SlotOf(t, fine));
      assert Bucket(trades, SlotOf(t, fine)) == [t];
    }
  }

  lemma EmptyPart(trades: seq<Trade>, slot: Slot, fine: Interval, s: Slot)
    requires Finer(fine, slot.interval) && Bucket(trades, slot) == [] && s.interval == fine && Inside(s, slot)
    ensures Bucket(trades, s) == []
  {
    if Bucket(trades, s) != [] {
      var t := Bucket(trades, s)[0];
      BucketMembers(trades, s, t);
      FallsInPart(t, slot, fine);
      BucketMembers(trades, slot, t);
    }
  }

  lemma {:induction false} LastOfPart(trades: seq<Trade>, slot: Slot, fine: Interval)
    requires Finer(fine, slot.interval) && Bucket(trades, slot) != []
    ensures var whole := Bucket(trades, slot); var part := Bucket(trades, SlotOf(whole[|whole| - 1], fine));
      part != [] && part[|part| - 1] == whole[|whole| - 1]
  {
    var before, t := trades[..|trades| - 1], trades[|trades| - 1];
    FallsInPart(t, slot, fine);
    if !Falls(t, slot) {
      LastOfPart(before, slot, fine);
      BucketMembers(before, slot, Bucket(before, slot)[|Bucket(before, slot)| - 1]);
      FallsInPart(Bucket(before, slot)[|Bucket(before, slot)| - 1], slot, fine);
    }
  }

  lemma {:induction false} BucketInTimeOrder(trades: seq<Trade>, slot: Slot)
    requires InTimeOrder(trades)
    ensures InTimeOrder(Bucket(trades, slot))
  {
    if trades != [] {
      var before, t := trades[..|trades| - 1], trades[|trades| - 1];
      BucketInTimeOrder(before, slot);
      var bucket := Bucket(before, slot);
      forall i | 0 <= i < |bucket| ensures bucket[i].time <= t.time {
        BucketMembers(before, slot, bucket[i]);
        var j :| 0 <= j < |before| && before[j] == bucket[i];
        assert trades[j] == before[j];
      }
    }
  }

  lemma LaterOpensLater(time: int, later: int, interval: Interval)
    requires time <= later
    ensures OpenTime(time, interval) <= OpenTime(later, interval)
  {
  }

  // ---------- open and close ----------

  predicate IsFirstPart(table: map<Slot, Candle>, slot: Slot, fine: Interval, first: Slot) {
    first in Parts(table, slot, fine) && forall s :: s in Parts(table, slot, fine) ==> first.openTime <= s.openTime
  }

  predicate IsLastPart(table: map<Slot, Candle>, slot: Slot, fine: Interval, last: Slot) {
    last in Parts(table, slot, fine) && forall s :: s in Parts(table, slot, fine) ==> s.openTime <= last.openTime
  }

  function FirstIn(trades: seq<Trade>, slot: Slot): Trade
    requires Bucket(trades, slot) != []
  {
    Bucket(trades, slot)[0]
  }

  function LastIn(trades: seq<Trade>, slot: Slot): Trade
    requires Bucket(trades, slot) != []
  {
    Bucket(trades, slot)[|Bucket(trades, slot)| - 1]
  }

  /** A candle opens as one of its parts does exactly when the first trades processed in both have one price. */
  lemma OpensAgreeIff(trades: seq<Trade>, slot: Slot, fine: Interval, first: Slot)
    requires Finer(fine, slot.interval) && slot in TableAfter(trades) && first in Parts(TableAfter(trades), slot, fine)
    ensures Bucket(trades, slot) != [] && Bucket(trades, first) != []
    ensures TableAfter(trades)[slot].open == TableAfter(trades)[first].open <==>
      Falls(FirstIn(trades, slot), first) || FirstIn(trades, slot).price == FirstIn(trades, first).price
  {
    CandlesSummariseTrades(trades, slot);
    CandlesSummariseTrades(trades, first);
    if Falls(FirstIn(trades, slot), first) {
      FirstOfPart(trades, slot, fine);
    }
  }

  lemma ClosesAgreeIff(trades: seq<Trade>, slot: Slot, fine: Interval, last: Slot)
    requires Finer(fine, slot.interval) && slot in TableAfter(trades) && last in Parts(TableAfter(trades), slot, fine)
    ensures Bucket(trades, slot) != [] && Bucket(trades, last) != []
    ensures TableAfter(trades)[slot].close == TableAfter(trades)[last].close <==>
      Falls(LastIn(trades, slot), last) || LastIn(trades, slot).price == LastIn(trades, last).price
  {
    CandlesSummariseTrades(trades, slot);
    CandlesSummariseTrades(trades, last);
    if Falls(LastIn(trades, slot), last) {
      LastOfPart(trades, slot, fine);
    }
  }

  /** With trades in time order, a candle opens as its first part opens and closes as its last part closes. */
  lemma EndsRollUp(trades: seq<Trade>, slot: Slot, fine: Interval, first: Slot, last: Slot)
    requires Finer(fine, slot.interval) && slot in TableAfter(trades) && InTimeOrder(trades)
    requires IsFirstPart(TableAfter(trades), slot, fine, first) && IsLastPart(TableAfter(trades), slot, fine, last)
    ensures TableAfter(trades)[slot].open == TableAfter(trades)[first].open
    ensures TableAfter(trades)[slot].close == TableAfter(trades)[last].close
  {
    CandlesSummariseTrades(trades, slot);
    BucketInTimeOrder(trades, slot);
    var t, u := FirstIn(trades, slot), LastIn(trades, slot);
    PartOfTrade(trades, slot, fine, t);
    PartOfTrade(trades, slot, fine, u);
    PartIsBetween(trades, slot, fine, first);
    PartIsBetween(trades, slot, fine, last);
    assert first == SlotOf(t, fine) && last == SlotOf(u, fine);
    OpensAgreeIff(trades, slot, fine, first);
    ClosesAgreeIff(trades, slot, fine, last);
  }

  lemma PartIsBetween(trades: seq<Trade>, slot: Slot, fine: Interval, s: Slot)
    requires Finer(fine, slot.interval) && InTimeOrder(Bucket(trades, slot)) && Bucket(trades, slot) != []
    requires s in Parts(TableAfter(trades), slot, fine)
    ensures var whole := Bucket(trades, slot);
      OpenTime(whole[0].time, fine) <= s.openTime <= OpenTime(whole[|whole| - 1].time, fine)
  {
    var whole := Bucket(trades, slot);
    CandlesSummariseTrades(trades, s);
    var t := Bucket(trades, s)[0];
    BucketMembers(trades, s, t);
    FallsInPart(t, slot, fine);
    BucketMembers(trades, slot, t);
    var i :| 0 <= i < |whole| && whole[i] == t;
    LaterOpensLater(whole[0].time, whole[i].time, fine);
    LaterOpensLater(whole[i].time, whole[|whole| - 1].time, fine);
  }

  // ---------- the same, one trade at a time ----------

  lemma TableGrows(trades: seq<Trade>, t: Trade, s: Slot)
    ensures Bucket(trades + [t], s) == Bucket(trades, s) + (if Falls(t, s) then [t] else [])
    ensures s in TableAfter(trades + [t]) <==> s in TableAfter(trades) || Falls(t, s)
    ensures s in TableAfter(trades) ==>
      TableAfter(trades + [t])[s].open == TableAfter(trades)[s].open
      && (!Falls(t, s) ==> TableAfter(trades + [t])[s] == TableAfter(trades)[s])
    ensures s !in TableAfter(trades) && Falls(t, s) ==> TableAfter(trades + [t])[s].open == t.price
    ensures Falls(t, s) ==> TableAfter(trades + [t])[s].close == t.price
  {
    assert (trades + [t])[..|trades + [t]| - 1] == trades;
    EveryIntervalIsKept(s.interval);
    EventReachesSlot(TableAfter(trades), t, DEFAULT_INTERVALS, s);
  }

  /**
   * A late trade, one that opens a new earliest part of a candle that is there, makes the opens agree exactly when
   * it has the candle's open price. Any other trade in the candle leaves their agreement as it was.
   */
  lemma NextTradeKeepsOpensIff(trades: seq<Trade>, t: Trade, slot: Slot, fine: Interval, first: Slot)
    requires Finer(fine, slot.interval) && Falls(t, slot)
    requires slot in TableAfter(trades) && IsFirstPart(TableAfter(trades), slot, fine, first)
    ensures var before, after, part := TableAfter(trades), TableAfter(trades + [t]), SlotOf(t, fine);
      && slot in after && first in after && part in after
      && if part.openTime < first.openTime then
           && IsFirstPart(after, slot, fine, part)
           && (after[slot].open == after[part].open <==> t.price == before[slot].open)
         else
           && IsFirstPart(after, slot, fine, first)
           && (after[slot].open == after[first].open <==> before[slot].open == before[first].open)
  {
    var part := SlotOf(t, fine);
    FallsInPart(t, slot, fine);
    TableGrows(trades, t, slot);
    TableGrows(trades, t, first);
    TableGrows(trades, t, part);
    forall s | s in Parts(TableAfter(trades + [t]), slot, fine)
      ensures s == part || s in Parts(TableAfter(trades), slot, fine)
    {
      TableGrows(trades, t, s);
    }
  }

  /**
   * A trade always closes its candle and its part. If that part is the last, the closes agree; if the trade is late
   * and falls into an earlier part, they agree exactly when it has the last part's close price.
   */
  lemma NextTradeKeepsClosesIff(trades: seq<Trade>, t: Trade, slot: Slot, fine: Interval, last: Slot)
    requires Finer(fine, slot.interval) && Falls(t, slot)
    requires slot in TableAfter(trades) && IsLastPart(TableAfter(trades), slot, fine, last)
    ensures var before, after, part := TableAfter(trades), TableAfter(trades + [t]), SlotOf(t, fine);
      && slot in after && last in after && part in after
      && if last.openTime <= part.openTime then
           IsLastPart(after, slot, fine, part) && after[slot].close == after[part].close
         else
           && IsLastPart(after, slot, fine, last)
           && (after[slot].close == after[last].close <==> t.price == before[last].close)
  {
    var part := SlotOf(t, fine);
    FallsInPart(t, slot, fine);
    TableGrows(trades, t, slot);
    TableGrows(trades, t, last);
    TableGrows(trades, t, part);
    forall s | s in Parts(TableAfter(trades + [t]), slot, fine)
      ensures s == part || s in Parts(TableAfter(trades), slot, fine)
    {
      TableGrows(trades, t, s);
    }
  }

  // ---------- the same, by times alone ----------

  /** The same trades in the same order, up to their prices and amounts. */
  predicate SameTimes(trades: seq<Trade>, other: seq<Trade>) {
    |trades| == |other|
    && forall i :: 0 <= i < |trades| ==> trades[i].pair == other[i].pair && trades[i].time == other[i].time
  }

  lemma {:induction false} SameTimesSameBuckets(trades: seq<Trade>, other: seq<Trade>, s: Slot)
    requires SameTimes(trades, other)
    ensures SameTimes(Bucket(trades, s), Bucket(other, s))
  {
    if trades != [] {
      var n := |trades| - 1;
      SameTimesSameBuckets(trades[..n], other[..n], s);
      assert trades[n].pair == other[n].pair && trades[n].time == other[n].time;
    }
  }

  /** Every trade at a price of its own: its position. */
  function Repriced(trades: seq<Trade>): (r: seq<Trade>)
    ensures SameTimes(trades, r) && forall i :: 0 <= i < |r| ==> r[i].price == i
  {
    seq(|trades|, i requires 0 <= i < |trades| => trades[i].(price := i))
  }

  ghost predicate OpensAgree(trades: seq<Trade>, slot: Slot, first: Slot) {
    var table := TableAfter(trades);
    slot in table && first in table && table[slot].open == table[first].open
  }

  ghost predicate ClosesAgree(trades: seq<Trade>, slot: Slot, last: Slot) {
    var table := TableAfter(trades);
    slot in table && last in table && table[slot].close == table[last].close
  }

  /** The parts of a candle depend on times alone. */
  lemma SameTimesSameParts(trades: seq<Trade>, other: seq<Trade>, slot: Slot, fine: Interval, s: Slot)
    requires SameTimes(trades, other) && slot in TableAfter(trades) && s in Parts(TableAfter(trades), slot, fine)
    ensures slot in TableAfter(other) && s in Parts(TableAfter(other), slot, fine)
    ensures SameTimes(Bucket(trades, slot), Bucket(other, slot)) && Bucket(trades, slot) != []
  {
    SameTimesSameBuckets(trades, other, slot);
    SameTimesSameBuckets(trades, other, s);
    CandlesSummariseTrades(trades, slot);
    CandlesSummariseTrades(trades, s);
    CandlesSummariseTrades(other, slot);
    CandlesSummariseTrades(other, s);
  }

  lemma FirstTrades(trades: seq<Trade>, s: Slot)
    requires Bucket(trades, s) != []
    ensures FirstIn(trades, s) in trades && Falls(FirstIn(trades, s), s)
    ensures LastIn(trades, s) in trades && Falls(LastIn(trades, s), s)
  {
    BucketMembers(trades, s, FirstIn(trades, s));
    BucketMembers(trades, s, LastIn(trades, s));
  }

  lemma SameTimeFallsAlike(t: Trade, u: Trade, s: Slot)
    requires t.pair == u.pair && t.time == u.time
    ensures Falls(t, s) == Falls(u, s)
  {
  }

  /**
   * Whatever the prices, a candle opens as its first part does, exactly when the first trade processed in the candle
   * falls into that part.
   */
  lemma OpensAlwaysAgreeIff(trades: seq<Trade>, slot: Slot, fine: Interval, first: Slot)
    requires Finer(fine, slot.interval) && slot in TableAfter(trades)
    requires IsFirstPart(TableAfter(trades), slot, fine, first)
    ensures Bucket(trades, slot) != []
    ensures (forall other :: SameTimes(trades, other) ==> OpensAgree(other, slot, first))
       <==> Falls(FirstIn(trades, slot), first)
  {
    CandlesSummariseTrades(trades, slot);
    forall other | SameTimes(trades, other)
      ensures Falls(FirstIn(trades, slot), first) ==> OpensAgree(other, slot, first)
    {
      SameTimesSameParts(trades, other, slot, fine, first);
      OpensAgreeIff(other, slot, fine, first);
      SameTimeFallsAlike(FirstIn(trades, slot), FirstIn(other, slot), first);
    }
    if !Falls(FirstIn(trades, slot), first) {
      var other := Repriced(trades);
      SameTimesSameParts(trades, other, slot, fine, first);
      OpensAgreeIff(other, slot, fine, first);
      SameTimeFallsAlike(FirstIn(trades, slot), FirstIn(other, slot), first);
      FirstTrades(other, slot);
      FirstTrades(other, first);
      assert !OpensAgree(other, slot, first);
    }
  }

  lemma ClosesAlwaysAgreeIff(trades: seq<Trade>, slot: Slot, fine: Interval, last: Slot)
    requires Finer(fine, slot.interval) && slot in TableAfter(trades)
    requires IsLastPart(TableAfter(trades), slot, fine, last)
    ensures Bucket(trades, slot) != []
    ensures (forall other :: SameTimes(trades, other) ==> ClosesAgree(other, slot, last))
       <==> Falls(LastIn(trades, slot), last)
  {
    CandlesSummariseTrades(trades, slot);
    forall other | SameTimes(trades, other)
      ensures Falls(LastIn(trades, slot), last) ==> ClosesAgree(other, slot, last)
    {
      SameTimesSameParts(trades, other, slot, fine, last);
      ClosesAgreeIff(other, slot, fine, last);
      SameTimeFallsAlike(LastIn(trades, slot), LastIn(other, slot), last);
    }
    if !Falls(LastIn(trades, slot), last) {
      var other := Repriced(trades);
      SameTimesSameParts(trades, other, slot, fine, last);
      ClosesAgreeIff(other, slot, fine, last);
      SameTimeFallsAlike(LastIn(trades, slot), LastIn(other, slot), last);
      FirstTrades(other, slot);
      FirstTrades(other, last);
      assert !ClosesAgree(other, slot, last);
    }
  }

  /** Out of time order the ends need not agree: an older trade processed late becomes the open of a part only. */
  lemma LateTradeSplitsTheOpen()
    ensures var trades := [Trade(0, 60000, 2, 1, 2), Trade(0, 0, 1, 1, 1)];
      var table, slot, first := TableAfter(trades), Slot(0, FiveMinutes, 0), Slot(0, OneMinute, 0);
      && slot in table && IsFirstPart(table, slot, OneMinute, first)
      && table[slot].open != table[first].open
  {
    var t, u := Trade(0, 60000, 2, 1, 2), Trade(0, 0, 1, 1, 1);
    var trades, slot, first := [t, u], Slot(0, FiveMinutes, 0), Slot(0, OneMinute, 0);
    assert trades[..1] == [t] && [t][..0] == [];
    assert Falls(t, slot) && Falls(u, slot) && !Falls(t, first) && Falls(u, first);
    assert Bucket([t], slot) == [t] && Bucket([t], first) == [];
    assert Bucket(trades, slot) == [t, u] && Bucket(trades, first) == [u];
    CandlesSummariseTrades(trades, slot);
    CandlesSummariseTrades(trades, first);
    forall s | s in Parts(TableAfter(trades), slot, OneMinute) ensures first.openTime <= s.openTime {
      CandlesSummariseTrades(trades, s);
      BucketMembers(trades, s, Bucket(trades, s)[0]);
    }
  }

  // ---------- order of processing ----------

  lemma {:induction false} BucketCounts(trades: seq<Trade>, slot: Slot, t: Trade)
    ensures multiset(Bucket(trades, slot))[t] == if Falls(t, slot) then multiset(trades)[t] else 0
  {
    if trades != [] {
      var n := |trades| - 1;
      BucketCounts(trades[..n], slot, t);
      assert trades == trades[..n] + [trades[n]];
    }
  }

  /** Two processing orders of the same trades give the same candles, up to open and close. */
  lemma OrderDoesNotMatter(trades: seq<Trade>, reordered: seq<Trade>, slot: Slot)
    requires multiset(trades) == multiset(reordered)
    ensures slot in TableAfter(trades) <==> slot in TableAfter(reordered)
    ensures slot in TableAfter(trades) ==>
      var c, d := TableAfter(trades)[slot], TableAfter(reordered)[slot];
      && c.high == d.high && c.low == d.low && c.closeTime == d.closeTime
      && c.volume == d.volume && c.quoteVolume == d.quoteVolume && c.tradeCount == d.tradeCount
  {
    var a, b := Bucket(trades, slot), Bucket(reordered, slot);
    forall t: Trade ensures multiset(a)[t] == multiset(b)[t] {
      BucketCounts(trades, slot, t);
      BucketCounts(reordered, slot, t);
    }
    assert multiset(a) == multiset(b);
    assert |a| == |multiset(a)| && |b| == |multiset(b)|;
    CandlesSummariseTrades(trades, slot);
    CandlesSummariseTrades(reordered, slot);
    if a != [] {
      SumPermutation(a, b, Quantity());
      SumPermutation(a, b, QuoteAmount());
      SameExtremes(a, b, TableAfter(trades)[slot], TableAfter(reordered)[slot], slot);
    }
  }

  lemma SameExtremes(a: seq<Trade>, b: seq<Trade>, c: Candle, d: Candle, slot: Slot)
    requires multiset(a) == multiset(b) && Summarises(c, slot, a) && Summarises(d, slot, b)
    ensures c.high == d.high && c.low == d.low
  {
    BoundsCarry(a, b, d);
    BoundsCarry(b, a, c);
  }

  lemma BoundsCarry(a: seq<Trade>, b: seq<Trade>, d: Candle)
    requires multiset(a) == multiset(b)
    requires forall i :: 0 <= i < |b| ==> d.low <= b[i].price <= d.high
    ensures forall i :: 0 <= i < |a| ==> d.low <= a[i].price <= d.high
  {
    forall i | 0 <= i < |a| ensures d.low <= a[i].price <= d.high {
      assert a[i] in multiset(b);
      var j :| 0 <= j < |b| && b[j] == a[i];
    }
  }

  // ---------- market statistics ----------

  datatype MarketStats =
    | NoTrades
    | Stats(highPrice: int, lowPrice: int, baseVolume: int, quoteVolume: int, openPrice: int, tradeCount: int)

  predicate AreStatsOf(stats: MarketStats, trades: seq<Trade>) {
    if trades == [] then stats.NoTrades?
    else
      && stats.Stats?
      && stats.openPrice == trades[0].price
      && IsHigh(stats.highPrice, trades) && IsLow(stats.lowPrice, trades)
      && stats.baseVolume == SumBy(trades, Quantity()) && stats.quoteVolume == SumBy(trades, QuoteAmount())
      && stats.tradeCount == |trades|
  }

  method CalculateMarketStats(trades: seq<Trade>) returns (stats: MarketStats)
    ensures AreStatsOf(stats, trades)
  {
    if |trades| == 0 {
      return NoTrades;
    }
    var highPrice, lowPrice := trades[0].price, trades[0].price;
    var baseVolume, quoteVolume := 0, 0;
    ghost var highest, lowest := 0, 0;
    for i := 0 to |trades|
      invariant 0 <= highest < |trades| && trades[highest].price == highPrice
      invariant 0 <= lowest < |trades| && trades[lowest].price == lowPrice
      invariant forall k :: 0 <= k < i ==> lowPrice <= trades[k].price <= highPrice
      invariant baseVolume == SumBy(trades[..i], Quantity())
      invariant quoteVolume == SumBy(trades[..i], QuoteAmount())
    {
      var t := trades[i];
      if t.price > highPrice {
        highPrice, highest := t.price, i;
      }
      if t.price < lowPrice {
        lowPrice, lowest := t.price, i;
      }
      assert trades[..i + 1] == trades[..i] + [t];
      SumAppend(trades[..i], t, Quantity());
      SumAppend(trades[..i], t, QuoteAmount());
      baseVolume := baseVolume + t.quantity;
      quoteVolume := quoteVolume + t.quoteAmount;
    }
    assert trades[..|trades|] == trades;
    stats := Stats(highPrice, lowPrice, baseVolume, quoteVolume, trades[0].price, |trades|);
  }

  /** The statistics over the trades of a candle are the figures of that candle, and only they are. */
  lemma StatsAgreeWithCandle(trades: seq<Trade>, slot: Slot, stats: MarketStats)
    ensures AreStatsOf(stats, Bucket(trades, slot)) <==>
      stats == if slot in TableAfter(trades)
               then var c := TableAfter(trades)[slot];
                    Stats(c.high, c.low, c.volume, c.quoteVolume, c.open, c.tradeCount)
               else NoTrades
  {
    CandlesSummariseTrades(trades, slot);
  }
}
