/** The matching loop, which asks the book again after every match, against one greedy price-time sweep. */
module Matching {
  import opened Arithmetic
  import opened Orders
  import opened Sweep
  import opened Exchange
  import opened ExchangeInvariant
  import opened ExchangeSteps
  import opened ExchangeMatchStep
  import opened ExchangeTheorems

  /** What the loop leaves: the state, the trades it recorded, and the error that ended it, if any. */
  datatype MatchRun = MatchRun(state: State, trades: seq<Trade>, end: Result<(), ExchangeError>)

  function Makers(s: State, taker: nat): seq<nat>
    requires taker < |s.orders|
  {
    OppositeOpenOrders(s.orders, s.orders[taker])
  }

  lemma MakersAreEligible(s: State, taker: nat)
    requires taker < |s.orders|
    ensures forall k :: 0 <= k < |Makers(s, taker)| ==>
      Makers(s, taker)[k] < |s.orders| && Eligible(s.orders[taker], s.orders[Makers(s, taker)[k]])
  {
    forall k | 0 <= k < |Makers(s, taker)|
      ensures Makers(s, taker)[k] < |s.orders| && Eligible(s.orders[taker], s.orders[Makers(s, taker)[k]])
    {
      assert Makers(s, taker)[k] in Makers(s, taker);
    }
  }

  /** Each match exhausts one side: if the taker is not filled, the query loses its head and nothing else. */
  lemma MatchShrinksQuery(s: State, taker: nat)
    requires taker < |s.orders| && Makers(s, taker) != []
    requires Makers(s, taker)[0] < |s.orders| && Eligible(s.orders[taker], s.orders[Makers(s, taker)[0]])
    requires ExecuteMatch(s, taker, Makers(s, taker)[0]).1.Executed?
    ensures var s' := ExecuteMatch(s, taker, Makers(s, taker)[0]).0;
      && |s'.orders| == |s.orders|
      && (s'.orders[taker].status != OrderStatus.Filled ==> Makers(s', taker) == Makers(s, taker)[1..])
  {
    var maker := Makers(s, taker)[0];
    var s' := ExecuteMatch(s, taker, maker).0;
    assert maker in Makers(s, taker);
    if s'.orders[taker].status != OrderStatus.Filled {
      assert s'.orders[maker].status == OrderStatus.Filled;
      QueryAfterExhaustedHead(s.orders, s'.orders, taker, Makers(s, taker));
    }
  }

  /** processOrderMatches. It terminates because every iteration removes a maker from the query. */
  ghost function MatchAll(s: State, taker: nat): MatchRun
    requires taker < |s.orders|
    decreases |Makers(s, taker)|
  {
    if s.orders[taker].remaining <= 0 || Makers(s, taker) == [] then MatchRun(s, [], Success(()))
    else
      MakersAreEligible(s, taker);
      var (s', outcome) := ExecuteMatch(s, taker, Makers(s, taker)[0]);
      if outcome.MatchRefused? then MatchRun(s', [], Failure(outcome.error))
      else
        MatchShrinksQuery(s, taker);
        if s'.orders[taker].status == OrderStatus.Filled then MatchRun(s', [outcome.trade], Success(()))
        else
          var rest := MatchAll(s', taker);
          rest.(trades := [outcome.trade] + rest.trades)
  }

  lemma MatchingKeepsRowCount(s: State, taker: nat, maker: nat)
    requires taker < |s.orders| && maker < |s.orders|
    ensures |ExecuteMatch(s, taker, maker).0.orders| == |s.orders|
  {
  }

  /** One turn of the loop. */
  lemma LoopTurn(s: State, taker: nat)
    requires taker < |s.orders| && 0 < s.orders[taker].remaining && Makers(s, taker) != []
    ensures Makers(s, taker)[0] < |s.orders|
    ensures var (s', outcome) := ExecuteMatch(s, taker, Makers(s, taker)[0]);
      && |s'.orders| == |s.orders|
      && (outcome.MatchRefused? ==> MatchAll(s, taker) == MatchRun(s', [], Failure(outcome.error)))
      && (outcome.Executed? && s'.orders[taker].status == OrderStatus.Filled ==>
            MatchAll(s, taker) == MatchRun(s', [outcome.trade], Success(())))
      && (outcome.Executed? && s'.orders[taker].status != OrderStatus.Filled ==>
            && |Makers(s', taker)| < |Makers(s, taker)|
            && MatchAll(s, taker)
                 == MatchAll(s', taker).(trades := [outcome.trade] + MatchAll(s', taker).trades))
  {
    MakersAreEligible(s, taker);
    MatchingKeepsRowCount(s, taker, Makers(s, taker)[0]);
    if ExecuteMatch(s, taker, Makers(s, taker)[0]).1.Executed? {
      MatchShrinksQuery(s, taker);
    }
  }

  /** What a run in progress has recorded, and what is left of it, make up the whole. */
  ghost predicate MakesUp(whole: MatchRun, recorded: seq<Trade>, rest: MatchRun) {
    whole.state == rest.state && whole.trades == recorded + rest.trades && whole.end == rest.end
  }

  lemma OneTradeOn(whole: MatchRun, recorded: seq<Trade>, t: Trade, rest: MatchRun)
    requires MakesUp(whole, recorded, rest.(trades := [t] + rest.trades))
    ensures MakesUp(whole, recorded + [t], rest)
  {
    assert recorded + ([t] + rest.trades) == recorded + [t] + rest.trades;
  }

  // ---------- the loop is a sweep ----------

  function FillOf(t: Trade): Fill {
    Fill(t.maker, t.price, t.quantity)
  }

  function FillsIn(trades: seq<Trade>): seq<Fill> {
    seq(|trades|, i requires 0 <= i < |trades| => FillOf(trades[i]))
  }

  lemma {:induction false} SweepCongruence(orders: seq<Order>, orders': seq<Order>, makers: seq<nat>, want: int)
    requires RowsWithQuantity(orders, makers) && |orders'| == |orders|
    requires forall k :: 0 <= k < |makers| ==> orders'[makers[k]] == orders[makers[k]]
    ensures RowsWithQuantity(orders', makers)
    ensures GreedySweep(orders', makers, want) == GreedySweep(orders, makers, want)
  {
    if makers != [] && 0 < want {
      SweepCongruence(orders, orders', makers[1..], want - Min(want, orders[makers[0]].remaining));
    }
  }

  lemma MakersHaveQuantity(s: State, taker: nat)
    requires OrdersOk(s) && taker < |s.orders|
    ensures RowsWithQuantity(s.orders, Makers(s, taker))
  {
    MakersAreEligible(s, taker);
    forall k | 0 <= k < |Makers(s, taker)| ensures 0 < s.orders[Makers(s, taker)[k]].remaining {
      assert OrderOk(s.pairs, s.orders[Makers(s, taker)[k]]);
    }
  }

  /** The rows of the tail are neither the head nor the taker. */
  lemma TailIsElsewhere(s: State, taker: nat)
    requires taker < |s.orders| && Makers(s, taker) != []
    ensures forall k :: 1 <= k < |Makers(s, taker)| ==>
      Makers(s, taker)[k] != Makers(s, taker)[0] && Makers(s, taker)[k] != taker
    ensures Makers(s, taker)[0] != taker
  {
    MakersAreEligible(s, taker);
    forall k | 1 <= k < |Makers(s, taker)| ensures Makers(s, taker)[k] != Makers(s, taker)[0] {
      assert Precedes(s.orders, s.orders[taker].side, Makers(s, taker)[0], Makers(s, taker)[k]);
    }
  }

  /** What one executed match of the loop does, in the terms of the sweep. */
  ghost predicate OneMatch(s: State, s': State, taker: nat, t: Trade) {
    && taker < |s.orders| && Makers(s, taker) != [] && Makers(s, taker)[0] < |s.orders|
    && |s'.orders| == |s.orders| && s'.pairs == s.pairs && s'.withdrawals == s.withdrawals
    && s'.trades == s.trades + [t] && t.taker == taker && t.maker == Makers(s, taker)[0]
    && t.price == s.orders[t.maker].price
    && t.quantity == Min(s.orders[taker].remaining, s.orders[t.maker].remaining)
    && t.quoteAmount == t.price * t.quantity
    && (forall i :: 0 <= i < |s.orders| && i != taker && i != t.maker ==> s'.orders[i] == s.orders[i])
    && s'.orders[taker].remaining == s.orders[taker].remaining - t.quantity
    && s'.orders[t.maker].remaining == s.orders[t.maker].remaining - t.quantity
    && SameTerms(s.orders[taker], s'.orders[taker]) && SameTerms(s.orders[t.maker], s'.orders[t.maker])
    && (s'.orders[taker].status == OrderStatus.Filled <==> s'.orders[taker].remaining == 0)
    && (s'.orders[t.maker].status == OrderStatus.Filled <==> s'.orders[t.maker].remaining == 0)
    && (s'.orders[taker].status != OrderStatus.Filled ==> Makers(s', taker) == Makers(s, taker)[1..])
    && (s'.orders[taker].status == OrderStatus.Filled || Live(s'.orders[taker]))
  }

  /** The best opposite order has price zero: its settlement would move nothing, which the ledger refuses. */
  predicate Stalls(s: State, taker: nat)
    requires taker < |s.orders|
  {
    Makers(s, taker) != [] && Makers(s, taker)[0] < |s.orders| && s.orders[Makers(s, taker)[0]].price == 0
  }

  lemma HeadMatchExecutes(s: State, taker: nat)
    requires Inv(s) && Backed(s)
    requires taker < |s.orders| && Live(s.orders[taker]) && Makers(s, taker) != [] && !Stalls(s, taker)
    ensures Makers(s, taker)[0] < |s.orders|
    ensures var (s', outcome) := ExecuteMatch(s, taker, Makers(s, taker)[0]);
      && outcome.Executed? && Inv(s') && Backed(s') && OneMatch(s, s', taker, outcome.trade)
  {
    MakersAreEligible(s, taker);
    TailIsElsewhere(s, taker);
    var maker := Makers(s, taker)[0];
    BackedMatchExecutesIff(s, taker, maker);
    ExecuteKeepsInv(s, taker, maker);
    MatchShrinksQuery(s, taker);
    var t := TradeBetween(s, taker, maker);
    MatchIsOneMatch(s, CommitMatch(Ready(s, t), t), t);
  }

  lemma BuyOrdersHavePrices(pairs: seq<Pair>, o: Order)
    requires OrderOk(pairs, o)
    ensures o.side == Buy ==> 0 < o.price
  {
  }

  /** Zero prices come first in the query, so a loop that starts does not stall later. */
  lemma StallingIsDecidedAtTheStart(s: State, s': State, taker: nat, t: Trade)
    requires OrdersOk(s) && OneMatch(s, s', taker, t) && !Stalls(s, taker)
    requires s'.orders[taker].status != OrderStatus.Filled
    ensures !Stalls(s', taker)
  {
    if Makers(s', taker) != [] {
      MakersAreEligible(s, taker);
      TailIsElsewhere(s, taker);
      var next := Makers(s, taker)[1];
      assert Precedes(s.orders, s.orders[taker].side, Makers(s, taker)[0], next);
      BuyOrdersHavePrices(s.pairs, s.orders[next]);
      assert OrderOk(s.pairs, s.orders[next]) && OrderOk(s.pairs, s.orders[Makers(s, taker)[0]]);
    }
  }

  lemma MatchIsOneMatch(s: State, s': State, t: Trade)
    requires OrdersOk(s) && Matchable(s, t) && s' == CommitMatch(Ready(s, t), t)
    requires Makers(s, t.taker) != [] && t.maker == Makers(s, t.taker)[0] && t.maker != t.taker
    requires s'.orders[t.taker].status != OrderStatus.Filled ==> Makers(s', t.taker) == Makers(s, t.taker)[1..]
    ensures OneMatch(s, s', t.taker, t)
  {
  }

  /** A run of the loop that records exactly the fills of one sweep over the makers it started with. */
  ghost predicate IsSweepRun(s: State, taker: nat, run: MatchRun) {
    && taker < |s.orders| && RowsWithQuantity(s.orders, Makers(s, taker))
    && run.end.Success?
    && FillsIn(run.trades) == GreedySweep(s.orders, Makers(s, taker), s.orders[taker].remaining)
    && (forall k :: 0 <= k < |run.trades| ==> run.trades[k].taker == taker)
    && (forall k :: 0 <= k < |run.trades| ==>
          run.trades[k].quoteAmount == run.trades[k].price * run.trades[k].quantity)
    && run.state.trades == s.trades + run.trades
  }

  lemma SweepRunEnds(s: State, s': State, taker: nat, t: Trade)
    requires OneMatch(s, s', taker, t) && RowsWithQuantity(s.orders, Makers(s, taker))
    requires 0 < s.orders[taker].remaining && s'.orders[taker].remaining == 0
    ensures IsSweepRun(s, taker, MatchRun(s', [t], Success(())))
  {
    assert FillsIn([t]) == [FillOf(t)] + [];
  }

  lemma SweepUnfolds(s: State, s': State, taker: nat, t: Trade)
    requires OneMatch(s, s', taker, t) && RowsWithQuantity(s.orders, Makers(s, taker))
    requires 0 < s.orders[taker].remaining && s'.orders[taker].status != OrderStatus.Filled
    ensures RowsWithQuantity(s'.orders, Makers(s', taker))
    ensures GreedySweep(s.orders, Makers(s, taker), s.orders[taker].remaining)
         == [FillOf(t)] + GreedySweep(s'.orders, Makers(s', taker), s'.orders[taker].remaining)
  {
    TailIsElsewhere(s, taker);
    SweepCongruence(s.orders, s'.orders, Makers(s, taker)[1..], s'.orders[taker].remaining);
  }

  lemma SweepRunContinues(s: State, s': State, taker: nat, t: Trade, later: MatchRun)
    requires OneMatch(s, s', taker, t) && RowsWithQuantity(s.orders, Makers(s, taker))
    requires 0 < s.orders[taker].remaining && s'.orders[taker].status != OrderStatus.Filled
    requires IsSweepRun(s', taker, later)
    ensures IsSweepRun(s, taker, later.(trades := [t] + later.trades))
  {
    SweepUnfolds(s, s', taker, t);
    assert s.trades + [t] + later.trades == s.trades + ([t] + later.trades);
    assert FillsIn([t] + later.trades) == [FillOf(t)] + FillsIn(later.trades);
  }

  lemma TakerHasQuantity(s: State, taker: nat)
    requires OrdersOk(s) && taker < |s.orders| && Live(s.orders[taker])
    ensures 0 < s.orders[taker].remaining
  {
    assert OrderOk(s.pairs, s.orders[taker]);
  }

  /**
   * Refinement: the loop records exactly the trades of one greedy sweep over the opposite orders as they
   * stood when it started, in the same order, and it never fails.
   */
  lemma {:induction false} MatchAllIsSweep(s: State, taker: nat)
    requires Inv(s) && Backed(s)
    requires taker < |s.orders| && Live(s.orders[taker]) && !Stalls(s, taker)
    ensures IsSweepRun(s, taker, MatchAll(s, taker))
    decreases |Makers(s, taker)|
  {
    MakersHaveQuantity(s, taker);
    TakerHasQuantity(s, taker);
    if Makers(s, taker) == [] {
      NothingToSweep(s, taker);
    } else {
      LoopTurn(s, taker);
      HeadMatchExecutes(s, taker);
      var (s', outcome) := ExecuteMatch(s, taker, Makers(s, taker)[0]);
      if s'.orders[taker].status != OrderStatus.Filled {
        StallingIsDecidedAtTheStart(s, s', taker, outcome.trade);
        MatchAllIsSweep(s', taker);
        SweepRunContinues(s, s', taker, outcome.trade, MatchAll(s', taker));
      } else {
        SweepRunEnds(s, s', taker, outcome.trade);
      }
    }
  }

  lemma NothingToSweep(s: State, taker: nat)
    requires taker < |s.orders| && Makers(s, taker) == [] && RowsWithQuantity(s.orders, Makers(s, taker))
    ensures IsSweepRun(s, taker, MatchAll(s, taker))
  {
    assert FillsIn([]) == [];
  }

  /** A loop that stalls fails at once, whatever the locks are. */
  lemma StallFails(s: State, taker: nat)
    requires Inv(s) && taker < |s.orders| && Live(s.orders[taker]) && Stalls(s, taker)
    ensures MatchAll(s, taker).end.Failure?
    ensures MatchAll(s, taker).trades == [] && MatchAll(s, taker).state.orders == s.orders
  {
    TakerHasQuantity(s, taker);
    MakersAreEligible(s, taker);
    MatchExecutesIff(s, taker, Makers(s, taker)[0]);
    LoopTurn(s, taker);
  }

  /** The loop fails if and only if the order it would match first has price zero, and then it trades nothing. */
  lemma LoopFailsIffItStalls(s: State, taker: nat)
    requires Inv(s) && Backed(s) && taker < |s.orders| && Live(s.orders[taker])
    ensures MatchAll(s, taker).end.Failure? <==> Stalls(s, taker)
    ensures Stalls(s, taker) ==> MatchAll(s, taker).trades == [] && MatchAll(s, taker).state.orders == s.orders
  {
    if Stalls(s, taker) {
      StallFails(s, taker);
    } else {
      MatchAllIsSweep(s, taker);
    }
  }

  /** Pairs with positive minimums, such as the seeded ones, never stall. */
  lemma PositiveMinimumsNeverStall(s: State, taker: nat)
    requires Inv(s) && PositiveMinimums(s.pairs) && taker < |s.orders|
    ensures !Stalls(s, taker)
  {
    if Makers(s, taker) != [] {
      MakersAreEligible(s, taker);
      assert OrderOk(s.pairs, s.orders[Makers(s, taker)[0]]);
    }
  }
}
