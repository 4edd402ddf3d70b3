/** What a whole create request does: how much it fills, at what total, and what it leaves in the book. */
module MatchingTheorems {
  import opened Arithmetic
  import opened Sums
  import opened Orders
  import opened Sweep
  import opened Exchange
  import opened ExchangeInvariant
  import opened ExchangeSteps
  import opened ExchangeMatchStep
  import opened ExchangeTheorems
  import opened ExchangeRequests
  import opened Matching

  // ---------- the loop as a whole ----------

  /** Rows keep their terms and no row comes back to life. */
  ghost predicate BookShrinks(s: State, s': State) {
    && s'.pairs == s.pairs && s'.withdrawals == s.withdrawals && |s'.orders| == |s.orders|
    && forall i :: 0 <= i < |s.orders| ==>
         SameTerms(s.orders[i], s'.orders[i]) && (Live(s'.orders[i]) ==> Live(s.orders[i]))
  }

  /** What a fill does to a live row: its terms stay, and it is filled or still live. */
  lemma FillKeepsTerms(o: Order, fill: int)
    requires Live(o) && OrderFillUpdate(o, fill).Success?
    ensures var o' := OrderFillUpdate(o, fill).value;
      SameTerms(o, o') && (o'.status == OrderStatus.Filled || (Live(o') && o'.status == OrderStatus.PartiallyFilled))
  {
  }

  lemma CommitShrinksBook(s: State, t: Trade)
    requires t.taker < |s.orders| && t.maker < |s.orders| && t.taker != t.maker
    requires Live(s.orders[t.taker]) && Live(s.orders[t.maker])
    requires 0 <= t.quantity <= s.orders[t.taker].remaining && t.quantity <= s.orders[t.maker].remaining
    ensures BookShrinks(s, CommitMatch(s, t))
    ensures var o := CommitMatch(s, t).orders[t.taker];
      o.status == OrderStatus.Filled || (Live(o) && o.status == OrderStatus.PartiallyFilled)
  {
    FillKeepsTerms(s.orders[t.taker], t.quantity);
    FillKeepsTerms(s.orders[t.maker], t.quantity);
  }

  lemma ExecuteShrinksBook(s: State, taker: nat, maker: nat)
    requires taker < |s.orders| && maker < |s.orders| && taker != maker
    requires Live(s.orders[taker]) && Live(s.orders[maker])
    ensures BookShrinks(s, ExecuteMatch(s, taker, maker).0)
    ensures ExecuteMatch(s, taker, maker).1.Executed? ==>
      var o := ExecuteMatch(s, taker, maker).0.orders[taker];
      o.status == OrderStatus.Filled || (Live(o) && o.status == OrderStatus.PartiallyFilled)
  {
    if ExecuteMatch(s, taker, maker).1.Executed? {
      var t := TradeBetween(s, taker, maker);
      CommitShrinksBook(Ready(s, t), t);
    }
  }

  /** Nothing of the taker is left that could still match. */
  ghost predicate Exhausted(s: State, taker: nat)
    requires taker < |s.orders|
  {
    !Live(s.orders[taker]) || s.orders[taker].remaining <= 0 || Makers(s, taker) == []
  }

  /** The loop only shrinks the book, and if it is not cut short by a refusal it exhausts the taker. */
  lemma {:induction false} MatchAllShrinksBook(s: State, taker: nat)
    requires taker < |s.orders| && Live(s.orders[taker])
    ensures var run := MatchAll(s, taker);
      BookShrinks(s, run.state) && (run.end.Success? ==> Exhausted(run.state, taker))
    decreases |Makers(s, taker)|
  {
    if 0 < s.orders[taker].remaining && Makers(s, taker) != [] {
      MakersAreEligible(s, taker);
      TailIsElsewhere(s, taker);
      var maker := Makers(s, taker)[0];
      ExecuteShrinksBook(s, taker, maker);
      var (s', outcome) := ExecuteMatch(s, taker, maker);
      if outcome.Executed? {
        MatchShrinksQuery(s, taker);
        if s'.orders[taker].status != OrderStatus.Filled {
          MatchAllShrinksBook(s', taker);
        }
      }
    }
  }

  /** Also when it is cut short, the loop keeps the invariant. */
  lemma {:induction false} MatchAllKeepsInv(s: State, taker: nat)
    requires Inv(s) && taker < |s.orders| && Live(s.orders[taker])
    ensures Inv(MatchAll(s, taker).state)
    decreases |Makers(s, taker)|
  {
    TakerHasQuantity(s, taker);
    if Makers(s, taker) != [] {
      MakersAreEligible(s, taker);
      TailIsElsewhere(s, taker);
      var maker := Makers(s, taker)[0];
      ExecuteKeepsInv(s, taker, maker);
      ExecuteShrinksBook(s, taker, maker);
      var (s', outcome) := ExecuteMatch(s, taker, maker);
      if outcome.Executed? {
        MatchShrinksQuery(s, taker);
        if s'.orders[taker].status != OrderStatus.Filled {
          MatchAllKeepsInv(s', taker);
        }
      }
    }
  }

  lemma {:induction false} TradesFillTheirTaker(trades: seq<Trade>, taker: nat)
    requires forall k :: 0 <= k < |trades| ==> trades[k].taker == taker
    ensures SumBy(trades, FillsOf(taker)) == FilledBy(FillsIn(trades))
  {
    if trades != [] {
      var n := |trades| - 1;
      TradesFillTheirTaker(trades[..n], taker);
      assert FillsIn(trades)[..n] == FillsIn(trades[..n]);
    }
  }

  /**
   * The loop fills all that is wanted or all that other users offer at acceptable prices: what the taker
   * keeps open is its remaining quantity minus the smaller of the two.
   */
  lemma LoopFillsTheMinimum(s: State, taker: nat)
    requires Inv(s) && Backed(s)
    requires taker < |s.orders| && Live(s.orders[taker]) && !Stalls(s, taker)
    ensures var run := MatchAll(s, taker);
      && taker < |run.state.orders|
      && run.state.orders[taker].remaining
           == s.orders[taker].remaining - Min(s.orders[taker].remaining, Capacity(s.orders, Makers(s, taker)))
  {
    var run := MatchAll(s, taker);
    MatchAllIsSweep(s, taker);
    MatchAllKeepsInv(s, taker);
    MatchAllShrinksBook(s, taker);
    TakerHasQuantity(s, taker);
    SweepFillsTheMinimum(s.orders, Makers(s, taker), s.orders[taker].remaining);
    TradesFillTheirTaker(run.trades, taker);
    SumConcat(s.trades, run.trades, FillsOf(taker));
    RemainingFromTrades(s, taker);
    RemainingFromTrades(run.state, taker);
  }

  lemma RemainingFromTrades(s: State, id: nat)
    requires OrdersOk(s) && id < |s.orders|
    ensures s.orders[id].remaining == s.orders[id].original - FilledByTrades(s.trades, id)
  {
    assert OrderOk(s.pairs, s.orders[id]);
  }

  function QuoteOf(): Trade -> int { (t: Trade) => t.quoteAmount }

  lemma {:induction false} TradesPayTheFills(trades: seq<Trade>)
    requires forall k :: 0 <= k < |trades| ==> trades[k].quoteAmount == trades[k].price * trades[k].quantity
    ensures SumBy(trades, QuoteOf()) == PaidBy(FillsIn(trades))
  {
    if trades != [] {
      var n := |trades| - 1;
      TradesPayTheFills(trades[..n]);
      assert FillsIn(trades)[..n] == FillsIn(trades[..n]);
    }
  }

  lemma MakersArePriceSorted(s: State, taker: nat)
    requires taker < |s.orders| && Rows(s.orders, Makers(s, taker))
    ensures PriceSorted(s.orders, s.orders[taker].side, Makers(s, taker))
  {
    var makers, side := Makers(s, taker), s.orders[taker].side;
    forall a, b | 0 <= a < b < |makers|
      ensures NoWorse(side, s.orders[makers[a]].price, s.orders[makers[b]].price)
    {
      assert Precedes(s.orders, side, makers[a], makers[b]);
    }
  }

  /**
   * Best execution: the total quote amount of the trades of one create request is at least as good for the
   * taker as any other way to take the same quantity from the acceptable orders of other users.
   */
  lemma LoopIsBestExecution(s: State, taker: nat, allocation: seq<int>)
    requires Inv(s) && Backed(s)
    requires taker < |s.orders| && Live(s.orders[taker]) && !Stalls(s, taker)
    requires Rows(s.orders, Makers(s, taker)) && IsAllocation(s.orders, Makers(s, taker), allocation)
    requires Allocated(allocation) == FilledBy(FillsIn(MatchAll(s, taker).trades))
    ensures NoWorse(s.orders[taker].side, SumBy(MatchAll(s, taker).trades, QuoteOf()),
                    AllocationValue(s.orders, Makers(s, taker), allocation))
  {
    MatchAllIsSweep(s, taker);
    TakerHasQuantity(s, taker);
    MakersArePriceSorted(s, taker);
    TradesPayTheFills(MatchAll(s, taker).trades);
    SweepIsBestExecution(s.orders, s.orders[taker].side, Makers(s, taker), s.orders[taker].remaining, allocation);
  }

  /** Every maker the loop trades with, but possibly the last, is filled completely; all trade at their own price. */
  lemma LoopExhaustsItsMakers(s: State, taker: nat)
    requires Inv(s) && Backed(s)
    requires taker < |s.orders| && Live(s.orders[taker]) && !Stalls(s, taker)
    ensures var trades := MatchAll(s, taker).trades;
      && |trades| <= |Makers(s, taker)|
      && (forall k :: 0 <= k < |trades| ==> trades[k].maker == Makers(s, taker)[k] < |s.orders|)
      && (forall k :: 0 <= k < |trades| ==>
            trades[k].price == s.orders[Makers(s, taker)[k]].price && 0 < trades[k].quantity)
      && (forall k :: 0 <= k < |trades| - 1 ==> trades[k].quantity == s.orders[Makers(s, taker)[k]].remaining)
  {
    var trades := MatchAll(s, taker).trades;
    MatchAllIsSweep(s, taker);
    TakerHasQuantity(s, taker);
    FillsOfTrades(s, taker, trades);
  }

  lemma FillsOfTrades(s: State, taker: nat, trades: seq<Trade>)
    requires taker < |s.orders| && RowsWithQuantity(s.orders, Makers(s, taker)) && 0 < s.orders[taker].remaining
    requires FillsIn(trades) == GreedySweep(s.orders, Makers(s, taker), s.orders[taker].remaining)
    ensures |trades| <= |Makers(s, taker)|
    ensures forall k :: 0 <= k < |trades| ==> trades[k].maker == Makers(s, taker)[k] < |s.orders|
    ensures forall k :: 0 <= k < |trades| ==>
      trades[k].price == s.orders[Makers(s, taker)[k]].price && 0 < trades[k].quantity
    ensures forall k :: 0 <= k < |trades| - 1 ==> trades[k].quantity == s.orders[Makers(s, taker)[k]].remaining
  {
    SweepFillsInOrder(s.orders, Makers(s, taker), s.orders[taker].remaining);
    assert forall k :: 0 <= k < |trades| ==> FillsIn(trades)[k] == FillOf(trades[k]);
  }

  /** The position of an eligible order in the query. */
  lemma IsListed(s: State, taker: nat, i: nat) returns (a: nat)
    requires taker < |s.orders| && i < |s.orders| && Eligible(s.orders[taker], s.orders[i])
    ensures a < |Makers(s, taker)| && Makers(s, taker)[a] == i
  {
    assert i in Makers(s, taker);
    a :| a < |Makers(s, taker)| && Makers(s, taker)[a] == i;
  }

  /** The order at the earlier of two rows has the better price, or the same price and the earlier time. */
  predicate ComesFirst(orders: seq<Order>, side: Side, i: nat, j: nat)
    requires i < |orders| && j < |orders|
  {
    || (side == Buy && orders[i].price < orders[j].price)
    || (side == Sell && orders[j].price < orders[i].price)
    || (orders[i].price == orders[j].price
        && (orders[i].createdAt < orders[j].createdAt || (orders[i].createdAt == orders[j].createdAt && i < j)))
  }

  /**
   * Price-time priority of the loop: of two orders that the taker could trade with, the later one gets a trade only
   * after the earlier one got one that left nothing of it.
   */
  lemma LoopKeepsPriority(s: State, taker: nat, i: nat, j: nat, k: nat)
    requires Inv(s) && Backed(s) && taker < |s.orders| && Live(s.orders[taker]) && !Stalls(s, taker)
    requires i < |s.orders| && Eligible(s.orders[taker], s.orders[i])
    requires j < |s.orders| && Eligible(s.orders[taker], s.orders[j])
    requires ComesFirst(s.orders, s.orders[taker].side, i, j)
    requires k < |MatchAll(s, taker).trades| && MatchAll(s, taker).trades[k].maker == j
    ensures var trades := MatchAll(s, taker).trades;
      exists h :: 0 <= h < k && trades[h].maker == i && trades[h].quantity == s.orders[i].remaining
  {
    LoopExhaustsItsMakers(s, taker);
    var a := IsListed(s, taker, i);
    var b := IsListed(s, taker, j);
    ListedInOrder(s, taker, a, b);
    assert MatchAll(s, taker).trades[a].maker == i;
  }

  lemma ListedInOrder(s: State, taker: nat, a: nat, b: nat)
    requires taker < |s.orders| && a < |Makers(s, taker)| && b < |Makers(s, taker)|
    requires Makers(s, taker)[a] < |s.orders| && Makers(s, taker)[b] < |s.orders|
    requires ComesFirst(s.orders, s.orders[taker].side, Makers(s, taker)[a], Makers(s, taker)[b])
    ensures a < b
  {
    if b < a {
      BetterPriceThenOlderFirst(s.orders, s.orders[taker], b, a);
    }
  }

  // ---------- the book is never crossed ----------

  /** A live BUY and a live SELL of different users on one pair at prices that should have traded. */
  predicate Crosses(s: State, i: nat, j: nat) {
    && i < |s.orders| && j < |s.orders|
    && s.orders[i].side == Buy && s.orders[j].side == Sell && Live(s.orders[i]) && Live(s.orders[j])
    && s.orders[i].pair == s.orders[j].pair && s.orders[i].user != s.orders[j].user
    && s.orders[j].price <= s.orders[i].price
  }

  ghost predicate UncrossedBut(s: State, exempt: nat) {
    forall i: nat, j: nat :: Crosses(s, i, j) ==> i == exempt || j == exempt
  }

  ghost predicate Uncrossed(s: State) {
    forall i: nat, j: nat :: !Crosses(s, i, j)
  }

  lemma EligibleIsSymmetric(o: Order, p: Order)
    requires Live(o) && Eligible(o, p)
    ensures Eligible(p, o)
  {
  }

  lemma ExhaustedHasNothingEligible(s: State, taker: nat)
    requires OrdersOk(s) && taker < |s.orders| && Exhausted(s, taker)
    ensures forall i :: 0 <= i < |s.orders| && Live(s.orders[taker]) ==> !Eligible(s.orders[taker], s.orders[i])
  {
    assert OrderOk(s.pairs, s.orders[taker]);
    assert IsQueryResult(s.orders, s.orders[taker], Makers(s, taker));
  }

  /** Once nothing is left for the incoming order to trade with, the whole book is uncrossed again. */
  lemma ExhaustedUncrosses(s: State, s': State, taker: nat)
    requires UncrossedBut(s, taker) && BookShrinks(s, s') && OrdersOk(s')
    requires taker < |s'.orders| && Exhausted(s', taker)
    ensures Uncrossed(s')
  {
    ExhaustedHasNothingEligible(s', taker);
    forall i: nat, j: nat ensures !Crosses(s', i, j) {
      assert Crosses(s', i, j) ==> Crosses(s, i, j);
      if i < |s'.orders| && Live(s'.orders[i]) && Eligible(s'.orders[i], s'.orders[taker]) {
        EligibleIsSymmetric(s'.orders[i], s'.orders[taker]);
      }
    }
  }

  /** A create request: place, then match; a request with a known key only answers. */
  ghost function CreateOrder(s: State, r: PlaceRequest): MatchRun {
    var (s', outcome) := PlaceOrder(s, r);
    match outcome
    case Placed(id) => PlacedRow(s, r); MatchAll(s', id)
    case AlreadyPlaced(_) => MatchRun(s', [], Success(()))
    case PlaceRefused(error) => MatchRun(s', [], Failure(error))
  }

  lemma PlacedRow(s: State, r: PlaceRequest)
    ensures var (s', outcome) := PlaceOrder(s, r);
      if outcome.Placed? then
        && r.pair < |s.pairs|
        && s'.orders == s.orders + [NewOrder(s.pairs[r.pair], r)] && outcome.id == |s.orders|
        && s'.pairs == s.pairs && s'.withdrawals == s.withdrawals
      else s' == s.(ledger := s'.ledger)
  {
  }

  lemma AppendingLeavesOneExempt(s: State, s': State, o: Order)
    requires Uncrossed(s) && s'.orders == s.orders + [o]
    ensures UncrossedBut(s', |s.orders|)
  {
    forall i: nat, j: nat | Crosses(s', i, j) ensures i == |s.orders| || j == |s.orders| {
      assert !Crosses(s, i, j);
    }
  }

  /**
   * After a create request that placed its order, the book is uncrossed if and only if the loop did not stall
   * on a price-zero order.
   */
  lemma CreateUncrossesIff(s: State, r: PlaceRequest)
    requires Inv(s) && Backed(s) && Uncrossed(s) && PlaceOrder(s, r).1.Placed?
    ensures Inv(PlaceOrder(s, r).0) && |PlaceOrder(s, r).0.orders| == |s.orders| + 1
    ensures Uncrossed(CreateOrder(s, r).state) <==> !Stalls(PlaceOrder(s, r).0, |s.orders|)
    ensures Inv(CreateOrder(s, r).state) && Backed(CreateOrder(s, r).state)
    ensures CreateOrder(s, r).state.pairs == s.pairs
  {
    PlaceKeepsInv(s, r);
    PlacedRow(s, r);
    var (s1, id) := (PlaceOrder(s, r).0, |s.orders|);
    LoopFailsIffItStalls(s1, id);
    MatchAllKeepsInv(s1, id);
    MatchAllShrinksBook(s1, id);
    AppendingLeavesOneExempt(s, s1, NewOrder(s.pairs[r.pair], r));
    var s' := MatchAll(s1, id).state;
    if Stalls(s1, id) {
      StalledBookIsCrossed(s1, s', id);
    } else {
      ExhaustedUncrosses(s1, s', id);
    }
  }

  lemma StalledBookIsCrossed(s: State, s': State, taker: nat)
    requires taker < |s.orders| && Live(s.orders[taker]) && Stalls(s, taker) && s'.orders == s.orders
    ensures !Uncrossed(s')
  {
    MakersAreEligible(s, taker);
    var maker := Makers(s, taker)[0];
    EligibleIsSymmetric(s.orders[taker], s.orders[maker]);
    if s.orders[taker].side == Buy {
      assert Crosses(s', taker, maker);
    } else {
      assert Crosses(s', maker, taker);
    }
  }

  /** A request whose key an order already carries is answered without a trade and without any effect. */
  lemma RepeatedCreateChangesNothing(s: State, r: PlaceRequest)
    requires IsRepeat(s, r)
    ensures CreateOrder(s, r) == MatchRun(s, [], Success(()))
  {
    RepeatedPlaceChangesNothing(s, r);
  }

  /** A create request on pairs with positive minimums leaves the book uncrossed. */
  lemma CreateKeepsUncrossed(s: State, r: PlaceRequest)
    requires Inv(s) && Backed(s) && PositiveMinimums(s.pairs) && Uncrossed(s)
    ensures var s' := CreateOrder(s, r).state;
      Inv(s') && Backed(s') && s'.pairs == s.pairs && Uncrossed(s')
  {
    PlaceKeepsInv(s, r);
    PlacedRow(s, r);
    if PlaceOrder(s, r).1.Placed? {
      CreateUncrossesIff(s, r);
      PositiveMinimumsNeverStall(PlaceOrder(s, r).0, |s.orders|);
    } else {
      SameOrdersUncrossed(s, PlaceOrder(s, r).0);
    }
  }

  lemma SameOrdersUncrossed(s: State, s': State)
    requires Uncrossed(s) && s'.orders == s.orders
    ensures Uncrossed(s')
  {
    forall i: nat, j: nat ensures !Crosses(s', i, j) {
      assert !Crosses(s, i, j);
    }
  }

  // ---------- runs of completed requests ----------

  datatype Request = Create(place: PlaceRequest) | Other(step: Step)

  /** Requests other than create are single steps; matching happens inside create only. */
  ghost function Handle(s: State, request: Request): State {
    match request
    case Create(r) => CreateOrder(s, r).state
    case Other(step) => if step.PlaceStep? || step.MatchStep? then s else Apply(s, step)
  }

  ghost function HandleAll(pairs: seq<Pair>, requests: seq<Request>): State {
    if requests == [] then Empty(pairs)
    else Handle(HandleAll(pairs, requests[..|requests| - 1]), requests[|requests| - 1])
  }

  /** The request does not unlock a withdrawal whose lock was never posted. */
  predicate UnlocksOnlyLocked(s: State, request: Request) {
    request.Other? && request.step.UnlockStep? && request.step.withdrawal < |s.withdrawals| ==>
      s.withdrawals[request.step.withdrawal].locked
  }

  ghost predicate GuardedRun(pairs: seq<Pair>, requests: seq<Request>) {
    requests == [] ||
      var before := requests[..|requests| - 1];
      GuardedRun(pairs, before) && UnlocksOnlyLocked(HandleAll(pairs, before), requests[|requests| - 1])
  }

  lemma OtherStepsKeepUncrossed(s: State, step: Step)
    requires Uncrossed(s) && !step.PlaceStep? && !step.MatchStep?
    ensures Uncrossed(Apply(s, step)) && Apply(s, step).pairs == s.pairs
  {
    var s' := Apply(s, step);
    forall i: nat, j: nat ensures !Crosses(s', i, j) {
      assert !Crosses(s, i, j);
    }
  }

  lemma OtherStepsKeepBacked(s: State, step: Step)
    requires Backed(s) && !step.PlaceStep? && !step.MatchStep? && UnlocksOnlyLocked(s, Other(step))
    ensures Backed(Apply(s, step))
  {
  }

  // ---------- completed requests are runs of the machine ----------

  function Repeated(step: Step, n: nat): seq<Step> {
    if n == 0 then [] else [step] + Repeated(step, n - 1)
  }

  ghost function ApplyTimes(s: State, step: Step, n: nat): State
    decreases n
  {
    if n == 0 then s else ApplyTimes(Apply(s, step), step, n - 1)
  }

  /** The turns of a loop: one for each trade, and the one that failed. */
  function Turns(run: MatchRun): nat {
    |run.trades| + if run.end.Failure? then 1 else 0
  }

  /** The loop goes on after a match that left something of the taker. */
  ghost predicate GoesOn(s': State, outcome: MatchOutcome, taker: nat) {
    outcome.Executed? && taker < |s'.orders| && s'.orders[taker].status != OrderStatus.Filled
  }

  lemma TurnIsAStep(s: State, taker: nat)
    requires taker < |s.orders| && Live(s.orders[taker]) && Makers(s, taker) != []
    ensures Makers(s, taker)[0] < |s.orders|
    ensures ExecuteMatch(s, taker, Makers(s, taker)[0]).0 == Apply(s, MatchStep(taker))
  {
    MakersAreEligible(s, taker);
  }

  lemma TurnKeepsInv(s: State, taker: nat)
    requires Inv(s) && taker < |s.orders| && Live(s.orders[taker]) && Makers(s, taker) != []
    ensures Makers(s, taker)[0] < |s.orders|
    ensures Inv(ExecuteMatch(s, taker, Makers(s, taker)[0]).0)
  {
    MakersAreEligible(s, taker);
    ExecuteKeepsInv(s, taker, Makers(s, taker)[0]);
  }

  lemma UnfilledStaysLive(s: State, taker: nat, maker: nat)
    requires taker < |s.orders| && maker < |s.orders| && taker != maker
    ensures var (s', outcome) := ExecuteMatch(s, taker, maker);
      GoesOn(s', outcome, taker) ==> Live(s'.orders[taker])
  {
  }

  lemma FirstOfTimes(s: State, s': State, step: Step, n: nat)
    requires 0 < n && s' == Apply(s, step)
    ensures ApplyTimes(s, step, n) == ApplyTimes(s', step, n - 1)
  {
  }

  lemma TurnsAfterOne(s: State, taker: nat)
    requires taker < |s.orders| && 0 < s.orders[taker].remaining && Makers(s, taker) != []
    ensures Makers(s, taker)[0] < |s.orders|
    ensures var (s', outcome) := ExecuteMatch(s, taker, Makers(s, taker)[0]); var run := MatchAll(s, taker);
      && (GoesOn(s', outcome, taker) ==>
            && |Makers(s', taker)| < |Makers(s, taker)|
            && run.state == MatchAll(s', taker).state && Turns(run) == 1 + Turns(MatchAll(s', taker)))
      && (!GoesOn(s', outcome, taker) ==> run.state == s' && Turns(run) == 1)
  {
    LoopTurn(s, taker);
    var (s', outcome) := ExecuteMatch(s, taker, Makers(s, taker)[0]);
    if GoesOn(s', outcome, taker) {
      OneMoreTurn(outcome.trade, MatchAll(s', taker));
    }
  }

  lemma OneMoreTurn(t: Trade, later: MatchRun)
    ensures Turns(later.(trades := [t] + later.trades)) == 1 + Turns(later)
  {
  }

  /** The loop is the machine's match step, taken once for each turn. */
  lemma {:induction false} LoopIsMatchSteps(s: State, taker: nat)
    requires Inv(s) && taker < |s.orders| && Live(s.orders[taker])
    ensures MatchAll(s, taker).state == ApplyTimes(s, MatchStep(taker), Turns(MatchAll(s, taker)))
    decreases |Makers(s, taker)|
  {
    TakerHasQuantity(s, taker);
    if Makers(s, taker) == [] {
      NoTurns(s, taker);
    } else {
      TurnsAfterOne(s, taker);
      TurnIsAStep(s, taker);
      TurnKeepsInv(s, taker);
      MakersAreEligible(s, taker);
      UnfilledStaysLive(s, taker, Makers(s, taker)[0]);
      var (s', outcome) := ExecuteMatch(s, taker, Makers(s, taker)[0]);
      FirstOfTimes(s, s', MatchStep(taker), Turns(MatchAll(s, taker)));
      if GoesOn(s', outcome, taker) {
        LoopIsMatchSteps(s', taker);
      } else {
        NoTimes(s', MatchStep(taker));
      }
    }
  }

  lemma NoTurns(s: State, taker: nat)
    requires taker < |s.orders| && Makers(s, taker) == []
    ensures MatchAll(s, taker).state == ApplyTimes(s, MatchStep(taker), Turns(MatchAll(s, taker)))
  {
  }

  lemma NoTimes(s: State, step: Step)
    ensures ApplyTimes(s, step, 0) == s
  {
  }

  lemma RunOne(pairs: seq<Pair>, steps: seq<Step>, step: Step)
    ensures Run(pairs, steps + [step]) == Apply(Run(pairs, steps), step)
  {
    assert (steps + [step])[..|steps + [step]| - 1] == steps;
  }

  lemma OneStepMore(steps: seq<Step>, step: Step, n: nat)
    requires 0 < n
    ensures steps + Repeated(step, n) == steps + [step] + Repeated(step, n - 1)
  {
    assert steps + ([step] + Repeated(step, n - 1)) == steps + [step] + Repeated(step, n - 1);
  }

  lemma {:induction false} RunThenRepeat(pairs: seq<Pair>, steps: seq<Step>, all: seq<Step>, s: State,
                                         step: Step, n: nat)
    requires s == Run(pairs, steps) && all == steps + Repeated(step, n)
    ensures Run(pairs, all) == ApplyTimes(s, step, n)
    decreases n
  {
    if n == 0 {
      assert all == steps;
      NoTimes(s, step);
    } else {
      var next, s' := steps + [step], Apply(s, step);
      RunOne(pairs, steps, step);
      FirstOfTimes(s, s', step, n);
      OneStepMore(steps, step, n);
      RunThenRepeat(pairs, next, all, s', step, n - 1);
    }
  }

  lemma PlacedLoopIsMatchSteps(s: State, s1: State, r: PlaceRequest)
    requires Inv(s) && s1 == PlaceOrder(s, r).0 && PlaceOrder(s, r).1.Placed?
    ensures |s.orders| < |s1.orders|
    ensures MatchAll(s1, |s.orders|).state == ApplyTimes(s1, MatchStep(|s.orders|), Turns(MatchAll(s1, |s.orders|)))
  {
    PlaceKeepsInv(s, r);
    PlacedRow(s, r);
    LoopIsMatchSteps(s1, |s.orders|);
  }

  /** A placed request is a place step and the match steps of its loop. */
  lemma PlacedIsARun(pairs: seq<Pair>, steps: seq<Step>, s: State, s1: State, r: PlaceRequest)
    requires s == Run(pairs, steps) && s1 == PlaceOrder(s, r).0 && PlaceOrder(s, r).1.Placed?
    ensures |s.orders| < |s1.orders|
    ensures exists more :: Run(pairs, steps + more) == MatchAll(s1, |s.orders|).state
  {
    EveryRunKeepsInv(pairs, steps);
    PlacedLoopIsMatchSteps(s, s1, r);
    RunOne(pairs, steps, PlaceStep(r));
    var again, n := MatchStep(|s.orders|), Turns(MatchAll(s1, |s.orders|));
    var more := [PlaceStep(r)] + Repeated(again, n);
    OneThenRepeat(pairs, steps, s1, PlaceStep(r), again, n);
    assert Run(pairs, steps + more) == MatchAll(s1, |s.orders|).state;
  }

  lemma OneThenRepeat(pairs: seq<Pair>, steps: seq<Step>, s1: State, first: Step, step: Step, n: nat)
    requires s1 == Run(pairs, steps + [first])
    ensures Run(pairs, steps + ([first] + Repeated(step, n))) == ApplyTimes(s1, step, n)
  {
    var all := steps + ([first] + Repeated(step, n));
    assert all == steps + [first] + Repeated(step, n);
    RunThenRepeat(pairs, steps + [first], all, s1, step, n);
  }

  /** A create request is a run of the machine from where it stands. */
  lemma CreateIsARun(pairs: seq<Pair>, steps: seq<Step>, r: PlaceRequest)
    ensures exists more :: Run(pairs, steps + more) == CreateOrder(Run(pairs, steps), r).state
  {
    var s := Run(pairs, steps);
    RunOne(pairs, steps, PlaceStep(r));
    if PlaceOrder(s, r).1.Placed? {
      PlacedIsARun(pairs, steps, s, PlaceOrder(s, r).0, r);
    }
  }

  /** So what holds over every run of the machine holds after any completed requests. */
  lemma {:induction false} RequestsAreRuns(pairs: seq<Pair>, requests: seq<Request>)
    ensures exists steps :: Run(pairs, steps) == HandleAll(pairs, requests)
  {
    if requests == [] {
      assert Run(pairs, []) == HandleAll(pairs, []);
    } else {
      var before, request := requests[..|requests| - 1], requests[|requests| - 1];
      RequestsAreRuns(pairs, before);
      var steps :| Run(pairs, steps) == HandleAll(pairs, before);
      if request.Create? {
        CreateIsARun(pairs, steps, request.place);
      } else if !request.step.PlaceStep? && !request.step.MatchStep? {
        RunOne(pairs, steps, request.step);
      }
    }
  }

  /**
   * Over any run of completed requests on pairs with positive minimums, no live BUY and live SELL of different
   * users on one pair are ever left at crossing prices, and the lock accounting is exact and backed.
   */
  lemma {:induction false} EveryRequestLeavesUncrossed(pairs: seq<Pair>, requests: seq<Request>)
    requires PositiveMinimums(pairs) && GuardedRun(pairs, requests)
    ensures var s := HandleAll(pairs, requests);
      Inv(s) && Backed(s) && s.pairs == pairs && Uncrossed(s)
  {
    if requests == [] {
      EmptyInv(pairs);
    } else {
      var before := requests[..|requests| - 1];
      EveryRequestLeavesUncrossed(pairs, before);
      var s := HandleAll(pairs, before);
      match requests[|requests| - 1]
      case Create(r) => CreateKeepsUncrossed(s, r);
      case Other(step) =>
        if !step.PlaceStep? && !step.MatchStep? {
          ApplyKeepsInv(s, step);
          OtherStepsKeepUncrossed(s, step);
          OtherStepsKeepBacked(s, step);
        }
    }
  }
}
