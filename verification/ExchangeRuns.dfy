/**
 * The lock accounting over whole runs of single steps, and two concrete runs that show why the runs are guarded: a
 * price-zero SELL on a pair without a minimum, and an unlock of a withdrawal that was never locked.
 */
module ExchangeRuns {
  import opened Sums
  import opened Ledger
  import opened Orders
  import opened Exchange
  import opened ExchangeInvariant
  import opened ExchangeSteps
  import opened ExchangeMoneyStep
  import opened ExchangeTheorems
  import opened Matching
  import opened MatchingTheorems

  // ---------- no settlement and no cancel is ever refused ----------

  /** No step of the run unlocks a withdrawal whose lock was never posted. */
  ghost predicate GuardedSteps(pairs: seq<Pair>, steps: seq<Step>) {
    steps == [] ||
      var before := steps[..|steps| - 1];
      GuardedSteps(pairs, before) && UnlocksOnlyLocked(Run(pairs, before), Other(steps[|steps| - 1]))
  }

  lemma StepKeepsBacked(s: State, step: Step)
    requires Backed(s) && UnlocksOnlyLocked(s, Other(step))
    ensures Backed(Apply(s, step))
  {
    if step.PlaceStep? {
      PlacedRow(s, step.request);
    } else if step.MatchStep? {
      if step.taker < |s.orders| {
        MakersAreEligible(s, step.taker);
      }
    } else {
      OtherStepsKeepBacked(s, step);
    }
  }

  lemma {:induction false} GuardedRunsAreBacked(pairs: seq<Pair>, steps: seq<Step>)
    requires GuardedSteps(pairs, steps)
    ensures Backed(Run(pairs, steps))
  {
    if steps != [] {
      GuardedRunsAreBacked(pairs, steps[..|steps| - 1]);
      StepKeepsBacked(Run(pairs, steps[..|steps| - 1]), steps[|steps| - 1]);
    }
  }

  lemma {:induction false} PairsAreFixed(pairs: seq<Pair>, steps: seq<Step>)
    ensures Run(pairs, steps).pairs == pairs
  {
    if steps != [] {
      PairsAreFixed(pairs, steps[..|steps| - 1]);
    }
  }

  /** After any guarded run on pairs with positive minimums, any live order settles with any eligible opposite order. */
  lemma EverySettlementPosts(pairs: seq<Pair>, steps: seq<Step>, taker: nat, maker: nat)
    requires GuardedSteps(pairs, steps) && PositiveMinimums(pairs)
    requires var s := Run(pairs, steps);
      taker < |s.orders| && maker < |s.orders| && Live(s.orders[taker]) && Eligible(s.orders[taker], s.orders[maker])
    ensures ExecuteMatch(Run(pairs, steps), taker, maker).1.Executed?
  {
    EveryRunKeepsInv(pairs, steps);
    GuardedRunsAreBacked(pairs, steps);
    PairsAreFixed(pairs, steps);
    var s := Run(pairs, steps);
    BackedMatchExecutesIff(s, taker, maker);
    assert OrderOk(s.pairs, s.orders[maker]);
  }

  /** And any live order can be cancelled for exactly what it still needs locked. */
  lemma EveryCancelReleases(pairs: seq<Pair>, steps: seq<Step>, id: nat)
    requires GuardedSteps(pairs, steps)
    requires id < |Run(pairs, steps).orders| && Live(Run(pairs, steps).orders[id])
    ensures var s := Run(pairs, steps);
      CancelOrder(s, s.orders[id].user, id).1 == CancelledOrder(LockNeed(s.orders[id]))
  {
    EveryRunKeepsInv(pairs, steps);
    GuardedRunsAreBacked(pairs, steps);
    CancelIsNeverRefused(Run(pairs, steps), id);
  }

  // ---------- two runs ----------

  /** One pair of base asset 0 and quote asset 1 that asks for no minimum. */
  const FREE_PAIR := [Pair(0, 1, 0, 0)]

  lemma CreditIsPosted(s: State, ready: LedgerState, id: nat)
    requires Sound(ready) && id < |s.deposits| && s.deposits[id].amount == 1
    requires !HasKey(ready.transactions, DepositKey(s, id))
    requires MainCustody(s.deposits[id].asset) in ready.accounts
    requires UserAccount(s.deposits[id].user, s.deposits[id].asset, Available) in ready.accounts
    ensures var d := s.deposits[id]; var entries := CreditEntries(d.user, d.asset, d.amount);
      && PostOutcome(ready, DepositPosting, DepositKey(s, id), entries).Posted?
      && 1 <= Balance(AfterPost(ready, DepositPosting, DepositKey(s, id), entries),
                      UserAccount(d.user, d.asset, Available))
  {
    var d := s.deposits[id];
    var from, to := MainCustody(d.asset), UserAccount(d.user, d.asset, Available);
    TransferOutcome(ready, DepositPosting, DepositKey(s, id), from, to, d.asset, 1);
    PostEffect(ready, DepositPosting, DepositKey(s, id), CreditEntries(d.user, d.asset, 1));
    TransferTotals(from, to, d.asset, 1);
    SoundIsNonNegative(ready);
  }

  /** What the witnesses need of a state after another: the books are the same. */
  predicate SameBooks(s: State, s': State) {
    s'.pairs == s.pairs && s'.orders == s.orders && s'.trades == s.trades && s'.withdrawals == s.withdrawals
    && |s'.deposits| == |s.deposits|
  }

  /** A first deposit of one unit by a user without an account of the asset ends up in AVAILABLE. */
  lemma FirstCreditArrives(s: State, id: nat)
    requires Inv(s) && id < |s.deposits| && !s.deposits[id].credited && s.deposits[id].amount == 1
    ensures var d := s.deposits[id]; var s' := CreditDeposit(s, id);
      SameBooks(s, s') && 1 <= Balance(s'.ledger, UserAccount(d.user, d.asset, Available))
  {
    OpenCreditAccounts(s, id);
    KeyIsFree(s, DepositKey(s, id));
    OpenedForCredit(s, id);
    var d := s.deposits[id];
    CreditIsPosted(s, OpenAccount(OpenUserAccounts(s.ledger, d.user, d.asset), MainCustody(d.asset)), id);
  }

  lemma OpenedForCredit(s: State, id: nat)
    requires Sound(s.ledger) && id < |s.deposits|
    ensures var d := s.deposits[id];
      var ready := OpenAccount(OpenUserAccounts(s.ledger, d.user, d.asset), MainCustody(d.asset));
      && Sound(ready) && ready.transactions == s.ledger.transactions
      && MainCustody(d.asset) in ready.accounts && UserAccount(d.user, d.asset, Available) in ready.accounts
  {
    var d := s.deposits[id];
    OpenUserKeepsSound(s.ledger, d.user, d.asset);
    OpenKeepsSound(OpenUserAccounts(s.ledger, d.user, d.asset), MainCustody(d.asset));
  }

  function Sell(user: User): PlaceRequest {
    PlaceRequest(user, 0, Side.Sell, 0, 1, true, true, 0, "sell")
  }

  function Buy(user: User): PlaceRequest {
    PlaceRequest(user, 0, Side.Buy, 1, 1, true, true, 1, "buy")
  }

  lemma RunOneMore(pairs: seq<Pair>, steps: seq<Step>, step: Step)
    ensures Run(pairs, steps + [step]) == Apply(Run(pairs, steps), step)
  {
    assert (steps + [step])[..|steps + [step]| - 1] == steps;
  }

  /** A user deposits one unit and places an order that locks it. */
  function PlaceWithDeposit(r: PlaceRequest, asset: Asset, id: nat): seq<Step> {
    [DepositStep(r.user, asset, 1, false)] + [CreditStep(id)] + [PlaceStep(r)]
  }

  ghost function Deposited(s: State, user: User, asset: Asset): State {
    s.(deposits := s.deposits + [DepositRow(user, asset, 1, false, false)])
  }

  /** The state after a user deposited one unit and was credited for it. */
  ghost function Funded(s: State, user: User, asset: Asset): State {
    CreditDeposit(Deposited(s, user, asset), |s.deposits|)
  }

  lemma FundedInSteps(s: State, user: User, asset: Asset)
    ensures Funded(s, user, asset) == Apply(Apply(s, DepositStep(user, asset, 1, false)), CreditStep(|s.deposits|))
  {
  }

  lemma FundedKeepsInv(s: State, user: User, asset: Asset)
    requires Inv(s)
    ensures Inv(Funded(s, user, asset))
  {
    NewDepositKeepsInv(s, DepositRow(user, asset, 1, false, false));
    CreditKeepsInv(Deposited(s, user, asset), |s.deposits|);
  }

  lemma FundedArrives(s: State, user: User, asset: Asset)
    requires Inv(s)
    ensures var s' := Funded(s, user, asset);
      && 1 <= Balance(s'.ledger, UserAccount(user, asset, Available))
      && s'.pairs == s.pairs && s'.orders == s.orders && s'.trades == s.trades && s'.withdrawals == s.withdrawals
      && |s'.deposits| == |s.deposits| + 1
  {
    NewDepositKeepsInv(s, DepositRow(user, asset, 1, false, false));
    FirstCreditArrives(Deposited(s, user, asset), |s.deposits|);
  }

  lemma PlaceFunded(s: State, r: PlaceRequest)
    requires Inv(s) && s.pairs == FREE_PAIR && PlaceChecks(s, r).Success? && r.pair == 0
    requires var o := NewOrder(FREE_PAIR[0], r);
      o.locked == 1 && 1 <= Balance(s.ledger, UserAccount(r.user, o.lockedAsset, Available))
    ensures var s' := Apply(s, PlaceStep(r));
      && Inv(s') && s'.pairs == FREE_PAIR && s'.orders == s.orders + [NewOrder(FREE_PAIR[0], r)]
      && s'.trades == s.trades && s'.withdrawals == s.withdrawals && s'.deposits == s.deposits
  {
    PlaceKeepsInv(s, r);
    PlaceAcceptedIff(s, r);
    PlacedRow(s, r);
  }

  lemma StepsInOrder(steps: seq<Step>, r: PlaceRequest, asset: Asset)
    ensures var s := Run(FREE_PAIR, steps);
      Run(FREE_PAIR, steps + PlaceWithDeposit(r, asset, |s.deposits|))
        == Apply(Funded(s, r.user, asset), PlaceStep(r))
  {
    var id := |Run(FREE_PAIR, steps).deposits|;
    var steps1 := steps + [DepositStep(r.user, asset, 1, false)];
    var steps2 := steps1 + [CreditStep(id)];
    assert steps2 + [PlaceStep(r)] == steps + PlaceWithDeposit(r, asset, id);
    RunOneMore(FREE_PAIR, steps, DepositStep(r.user, asset, 1, false));
    RunOneMore(FREE_PAIR, steps1, CreditStep(id));
    RunOneMore(FREE_PAIR, steps2, PlaceStep(r));
    FundedInSteps(Run(FREE_PAIR, steps), r.user, asset);
  }

  /** The checks of a place request look at pairs and orders only. */
  lemma SameChecks(s: State, s': State, r: PlaceRequest)
    requires s'.pairs == s.pairs && s'.orders == s.orders
    ensures PlaceChecks(s', r) == PlaceChecks(s, r)
  {
  }

  lemma DepositCreditPlace(s: State, r: PlaceRequest, asset: Asset)
    requires Inv(s) && s.pairs == FREE_PAIR && PlaceChecks(s, r).Success? && r.pair == 0
    requires NewOrder(FREE_PAIR[0], r).lockedAsset == asset && NewOrder(FREE_PAIR[0], r).locked == 1
    ensures var s' := Apply(Funded(s, r.user, asset), PlaceStep(r));
      && Inv(s') && s'.pairs == FREE_PAIR && s'.orders == s.orders + [NewOrder(FREE_PAIR[0], r)]
      && s'.trades == s.trades && s'.withdrawals == s.withdrawals && |s'.deposits| == |s.deposits| + 1
  {
    FundedKeepsInv(s, r.user, asset);
    FundedArrives(s, r.user, asset);
    SameChecks(s, Funded(s, r.user, asset), r);
    PlaceFunded(Funded(s, r.user, asset), r);
  }

  /** User 1 offers one base unit for nothing. */
  function SellSteps(): seq<Step> {
    PlaceWithDeposit(Sell(1), 0, 0)
  }

  lemma SellIsPlaced()
    ensures var s := Run(FREE_PAIR, SellSteps());
      && Inv(s) && s.pairs == FREE_PAIR && s.orders == [NewOrder(FREE_PAIR[0], Sell(1))]
      && s.withdrawals == [] && s.trades == [] && |s.deposits| == 1
  {
    EmptyInv(FREE_PAIR);
    DepositCreditPlace(Run(FREE_PAIR, []), Sell(1), 0);
    StepsInOrder([], Sell(1), 0);
    assert [] + SellSteps() == SellSteps();
  }

  /** User 2 bids one quote unit for it. */
  function BidSteps(): seq<Step> {
    SellSteps() + PlaceWithDeposit(Buy(2), 1, 1)
  }

  lemma BidPassesChecks(s: State)
    requires s.pairs == FREE_PAIR && s.orders == [NewOrder(FREE_PAIR[0], Sell(1))]
    ensures PlaceChecks(s, Buy(2)).Success?
  {
    assert s.orders[0].requestKey == "sell" && "sell"[0] == 's' && "buy"[0] == 'b';
  }

  lemma BidIsPlaced()
    ensures var s := Run(FREE_PAIR, BidSteps());
      && Inv(s) && s.orders == [NewOrder(FREE_PAIR[0], Sell(1)), NewOrder(FREE_PAIR[0], Buy(2))] && s.withdrawals == []
  {
    SellIsPlaced();
    BidPassesChecks(Run(FREE_PAIR, SellSteps()));
    DepositCreditPlace(Run(FREE_PAIR, SellSteps()), Buy(2), 1);
    StepsInOrder(SellSteps(), Buy(2), 1);
  }

  /**
   * While a SELL at price zero is live, every live BUY of another user on its pair is stuck: whatever else is in the
   * book, its loop fails and records no trade, and the book stays crossed.
   */
  lemma ZeroSellBlocksBids(s: State, sell: nat, bid: nat)
    requires Inv(s) && sell < |s.orders| && bid < |s.orders|
    requires s.orders[sell].side == Side.Sell && s.orders[sell].price == 0 && Live(s.orders[sell])
    requires s.orders[bid].side == Side.Buy && Live(s.orders[bid])
    requires s.orders[bid].pair == s.orders[sell].pair && s.orders[bid].user != s.orders[sell].user
    ensures Stalls(s, bid) && MatchAll(s, bid).end.Failure? && MatchAll(s, bid).trades == []
    ensures !Uncrossed(MatchAll(s, bid).state)
  {
    assert OrderOk(s.pairs, s.orders[sell]) && OrderOk(s.pairs, s.orders[bid]);
    ZeroIsFirst(s, sell, bid);
    StallFails(s, bid);
    StalledBookIsCrossed(s, MatchAll(s, bid).state, bid);
  }

  /** Asks are queried from the lowest price up, and no price is below zero. */
  lemma ZeroIsFirst(s: State, sell: nat, bid: nat)
    requires OrdersOk(s) && sell < |s.orders| && bid < |s.orders|
    requires s.orders[bid].side == Side.Buy && Eligible(s.orders[bid], s.orders[sell]) && s.orders[sell].price == 0
    ensures Stalls(s, bid)
  {
    assert sell in Makers(s, bid);
    MakersAreEligible(s, bid);
    var k :| 0 <= k < |Makers(s, bid)| && Makers(s, bid)[k] == sell;
    assert 0 < k ==> Precedes(s.orders, Side.Buy, Makers(s, bid)[0], Makers(s, bid)[k]);
    assert OrderOk(s.pairs, s.orders[Makers(s, bid)[0]]);
  }

  /** Such a state is reachable on a pair without a minimum: a SELL at price zero is accepted, and a bid is placed. */
  lemma PriceZeroStalls()
    ensures var s := Run(FREE_PAIR, BidSteps());
      && |s.orders| == 2 && Stalls(s, 1) && MatchAll(s, 1).end.Failure? && !Uncrossed(MatchAll(s, 1).state)
  {
    BidIsPlaced();
    ZeroSellBlocksBids(Run(FREE_PAIR, BidSteps()), 0, 1);
  }

  /** User 1 also asks for a withdrawal of one unit, which is failed before its lock was posted. */
  function FailedWithdrawalSteps(): seq<Step> {
    SellSteps() + [WithdrawStep(1, 0, 1)] + [UnlockStep(0)]
  }

  /** The unlock takes the order's lock: the order is live, and its cancel is refused. */
  lemma UnlockBreaksCancel()
    ensures var s := Run(FREE_PAIR, FailedWithdrawalSteps());
      && |s.orders| == 1 && Live(s.orders[0]) && LockedBalance(s, 1, 0) == 0 && LockNeed(s.orders[0]) == 1
      && CancelOrder(s, 1, 0).1.CancelRefused?
  {
    SellIsPlaced();
    RunOneMore(FREE_PAIR, SellSteps(), WithdrawStep(1, 0, 1));
    RunOneMore(FREE_PAIR, SellSteps() + [WithdrawStep(1, 0, 1)], UnlockStep(0));
    WithdrawAndUnlock(Run(FREE_PAIR, SellSteps()));
  }

  lemma WithdrawalIsRecorded(s: State)
    requires Inv(s) && s.withdrawals == []
    ensures var s' := Apply(s, WithdrawStep(1, 0, 1));
      Inv(s') && s' == s.(withdrawals := [WithdrawalRow(1, 0, 1, false, false)])
  {
    NewWithdrawalKeepsInv(s, WithdrawalRow(1, 0, 1, false, false));
    assert s.withdrawals + [WithdrawalRow(1, 0, 1, false, false)] == [WithdrawalRow(1, 0, 1, false, false)];
  }

  lemma WithdrawAndUnlock(s: State)
    requires Inv(s) && s.orders == [NewOrder(FREE_PAIR[0], Sell(1))] && s.withdrawals == [] && s.trades == []
    ensures var s' := Apply(Apply(s, WithdrawStep(1, 0, 1)), UnlockStep(0));
      s'.orders == s.orders && LockedBalance(s', 1, 0) == 0 && CancelOrder(s', 1, 0).1.CancelRefused?
  {
    WithdrawalIsRecorded(s);
    UnlockEmpties(Apply(s, WithdrawStep(1, 0, 1)));
  }

  lemma UnlockEmpties(s: State)
    requires Inv(s) && s.orders == [NewOrder(FREE_PAIR[0], Sell(1))] && s.trades == []
    requires s.withdrawals == [WithdrawalRow(1, 0, 1, false, false)]
    ensures var s' := Apply(s, UnlockStep(0));
      s'.orders == s.orders && LockedBalance(s', 1, 0) == 0 && CancelOrder(s', 1, 0).1.CancelRefused?
  {
    UnlockIsTheStep(s);
    UnlockTakesTheLock(s);
    UnlockedLeavesNothing(s);
  }

  lemma UnlockIsTheStep(s: State)
    requires 0 < |s.withdrawals|
    ensures Apply(s, UnlockStep(0)) == UnlockWithdrawal(s, 0)
  {
  }

  lemma UnlockedLeavesNothing(s: State)
    requires Inv(s) && s.withdrawals == [WithdrawalRow(1, 0, 1, false, false)]
    requires var s' := UnlockWithdrawal(s, 0);
      && s'.withdrawals == [WithdrawalRow(1, 0, 1, false, true)]
      && s'.orders == [NewOrder(FREE_PAIR[0], Sell(1))] && s'.trades == []
    ensures LockedBalance(UnlockWithdrawal(s, 0), 1, 0) == 0
    ensures CancelOrder(UnlockWithdrawal(s, 0), 1, 0).1.CancelRefused?
  {
    HoldKeepsInv(s, 0, false);
    NothingIsLeft(UnlockWithdrawal(s, 0));
    CancelNeedsTheLock(UnlockWithdrawal(s, 0));
  }

  lemma UnlockTakesTheLock(s: State)
    requires Inv(s) && s.orders == [NewOrder(FREE_PAIR[0], Sell(1))]
    requires s.withdrawals == [WithdrawalRow(1, 0, 1, false, false)]
    ensures var s' := UnlockWithdrawal(s, 0);
      s'.withdrawals == [WithdrawalRow(1, 0, 1, false, true)] && s'.orders == s.orders && s'.trades == s.trades
  {
    LockedCoversOrder(s, 0);
    UnlockPostsIff(s, 0);
  }

  lemma NothingIsLeft(s: State)
    requires Inv(s) && s.orders == [NewOrder(FREE_PAIR[0], Sell(1))] && s.trades == []
    requires s.withdrawals == [WithdrawalRow(1, 0, 1, false, true)]
    ensures LockedBalance(s, 1, 0) == 0
  {
    assert LockedBalance(s, 1, 0) == LockedTarget(s, 1, 0);
    SumAppend([], s.orders[0], NeedOf(1, 0));
    SumAppend([], s.withdrawals[0], HeldOf(1, 0));
    assert [] + [s.orders[0]] == s.orders && [] + [s.withdrawals[0]] == s.withdrawals;
  }

  lemma CancelNeedsTheLock(s: State)
    requires Inv(s) && s.orders == [NewOrder(FREE_PAIR[0], Sell(1))] && LockedBalance(s, 1, 0) == 0
    ensures CancelOrder(s, 1, 0).1.CancelRefused?
  {
    KeyIsFree(s, OrderCancel(0));
    OwnTransferPostsIff(s.ledger, FundsUnlock, OrderCancel(0), 1, 0, false, 1);
    assert RemainingLockedAmount(s.orders[0]) == Success(1);
  }
}
