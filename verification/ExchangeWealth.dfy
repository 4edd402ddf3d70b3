/** What each user owns, to the unit: the deposits credited to the user and what the user's trades brought and cost. */
module ExchangeWealth {
  import opened Sums
  import opened Ledger
  import opened Orders
  import opened Exchange
  import opened ExchangeInvariant
  import opened ExchangeSteps
  import opened ExchangeMatchStep
  import opened ExchangeMoneyStep
  import opened ExchangeTheorems

  /** What a user has of an asset, at hand and locked. */
  function Wealth(s: State, u: User, a: Asset): int {
    Balance(s.ledger, UserAccount(u, a, Available)) + Balance(s.ledger, UserAccount(u, a, Locked))
  }

  function DepositedBy(u: User, a: Asset): DepositRow -> int {
    (d: DepositRow) => if d.credited && d.user == u && d.asset == a then d.amount else 0
  }

  /** What a trade brings a user of an asset: base bought less base sold, and quote received less quote paid. */
  function GainedBy(u: User, a: Asset): Trade -> int {
    (t: Trade) =>
      (if t.buyer == u && t.base == a then t.quantity else 0)
      - (if t.seller == u && t.base == a then t.quantity else 0)
      + (if t.seller == u && t.quote == a then t.price * t.quantity else 0)
      - (if t.buyer == u && t.quote == a then t.price * t.quantity else 0)
  }

  function Earned(s: State, u: User, a: Asset): int {
    SumBy(s.deposits, DepositedBy(u, a)) + SumBy(s.trades, GainedBy(u, a))
  }

  /** Neither a user's wealth nor what makes it up has changed without the other. */
  ghost predicate InStep(s: State, s': State) {
    forall u, a :: Wealth(s', u, a) - Earned(s', u, a) == Wealth(s, u, a) - Earned(s, u, a)
  }

  ghost predicate SameBalances(l: LedgerState, l': LedgerState) {
    forall a :: Balance(l', a) == Balance(l, a)
  }

  lemma OpeningIsInStep(s: State, s': State)
    requires SameBalances(s.ledger, s'.ledger) && s'.deposits == s.deposits && s'.trades == s.trades
    ensures InStep(s, s')
  {
  }

  lemma InStepOn(s: State, s': State, s'': State)
    requires InStep(s, s') && InStep(s', s'')
    ensures InStep(s, s'')
  {
    forall u, a ensures Wealth(s'', u, a) - Earned(s'', u, a) == Wealth(s, u, a) - Earned(s, u, a) {
      assert Wealth(s', u, a) - Earned(s', u, a) == Wealth(s, u, a) - Earned(s, u, a);
    }
  }

  /** A transfer between the two accounts of a user leaves everybody's wealth as it was. */
  lemma OwnTransferIsInStep(s: State, s': State, tx: Transaction, user: User, asset: Asset, amount: int, lock: bool)
    requires PostedOn(s.ledger, s'.ledger, tx) && s'.deposits == s.deposits && s'.trades == s.trades
    requires tx.entries == if lock then LockEntries(user, asset, amount) else UnlockEntries(user, asset, amount)
    ensures InStep(s, s')
  {
    var available, locked := UserAccount(user, asset, Available), UserAccount(user, asset, Locked);
    TransferTotals(available, locked, asset, amount);
    TransferTotals(locked, available, asset, amount);
    forall u, a ensures Wealth(s', u, a) == Wealth(s, u, a) {
      assert AccountTotal(tx.entries, UserAccount(u, a, Available))
           + AccountTotal(tx.entries, UserAccount(u, a, Locked)) == 0;
    }
  }

  // ---------- the steps ----------

  lemma PlaceIsInStep(s: State, r: PlaceRequest)
    requires Inv(s)
    ensures InStep(s, PlaceOrder(s, r).0)
  {
    if PlaceChecks(s, r).Success? {
      var o, s' := NewOrder(s.pairs[r.pair], r), PlaceOrder(s, r).0;
      var ready := ReadyToPlace(s, o);
      OpenUserKeepsSound(s.ledger, o.user, o.lockedAsset);
      OpeningIsInStep(s, ready);
      PlaceCases(s, r);
      if s' != ready {
        OwnTransferIsInStep(ready, s', PlaceTransaction(ready, o), o.user, o.lockedAsset, o.locked, true);
        InStepOn(s, ready, s');
      }
    }
  }

  lemma CancelIsInStep(s: State, user: User, id: nat)
    requires Inv(s)
    ensures InStep(s, CancelOrder(s, user, id).0)
  {
    if CancelChecks(s, user, id).Success? {
      CancelCases(s, user, id);
      var o, s' := s.orders[id], CancelOrder(s, user, id).0;
      var ready := ReadyToCancel(s, user, o.lockedAsset);
      OpenUserKeepsSound(s.ledger, user, o.lockedAsset);
      OpeningIsInStep(s, ready);
      if s' != ready {
        OwnTransferIsInStep(ready, s', CancelTransaction(ready, id), o.user, o.lockedAsset, LockNeed(o), false);
        InStepOn(s, ready, s');
      }
    }
  }

  lemma HoldIsInStep(s: State, id: nat, lock: bool)
    requires Inv(s) && id < |s.withdrawals|
    ensures InStep(s, HoldWithdrawal(s, id, lock))
  {
    var w, s' := s.withdrawals[id], HoldWithdrawal(s, id, lock);
    var ready := s.(ledger := OpenUserAccounts(s.ledger, w.user, w.asset));
    OpenUserKeepsInv(s, w.user, w.asset);
    OpenUserKeepsSound(s.ledger, w.user, w.asset);
    OpeningIsInStep(s, ready);
    HoldCases(s, ready, id, lock);
    if s' != ready {
      OwnTransferIsInStep(ready, s', HoldTransaction(ready, id, lock), w.user, w.asset, w.total, lock);
      InStepOn(s, ready, s');
    }
  }

  lemma CreditingIsInStep(s: State, s': State, id: nat)
    requires Crediting(s, s', id)
    ensures InStep(s, s')
  {
    var d, tx := s.deposits[id], CreditTransaction(s, id);
    TransferTotals(MainCustody(d.asset), UserAccount(d.user, d.asset, Available), d.asset, d.amount);
    forall u, a ensures Wealth(s', u, a) - Earned(s', u, a) == Wealth(s, u, a) - Earned(s, u, a) {
      SumUpdate(s.deposits, id, d.(credited := true), DepositedBy(u, a));
    }
  }

  lemma CreditIsInStep(s: State, id: nat)
    requires Inv(s) && id < |s.deposits|
    ensures InStep(s, CreditDeposit(s, id))
  {
    var d, s' := s.deposits[id], CreditDeposit(s, id);
    var l := OpenUserAccounts(s.ledger, d.user, d.asset);
    var ready := s.(ledger := OpenAccount(l, MainCustody(d.asset)));
    OpenCreditAccounts(s, id);
    OpenUserKeepsSound(s.ledger, d.user, d.asset);
    OpenKeepsSound(l, MainCustody(d.asset));
    OpeningIsInStep(s, ready);
    CreditCases(s, ready, id);
    if s' != ready {
      CreditingIsInStep(ready, s', id);
      InStepOn(s, ready, s');
    }
  }

  /** What the four settlement entries move on the two accounts of a user together is what the trade brings. */
  lemma SettlementGains(t: Trade, u: User, a: Asset)
    requires t.quoteAmount == t.price * t.quantity
    ensures AccountTotal(SettlementEntries(t), UserAccount(u, a, Available))
          + AccountTotal(SettlementEntries(t), UserAccount(u, a, Locked)) == GainedBy(u, a)(t)
  {
    var e := SettlementEntries(t);
    SumFour(e[0], e[1], e[2], e[3], AccountAmount(UserAccount(u, a, Available)));
    SumFour(e[0], e[1], e[2], e[3], AccountAmount(UserAccount(u, a, Locked)));
  }

  lemma MatchedIsInStep(s: State, s': State, t: Trade)
    requires Matched(s, s', t) && t.quoteAmount == t.price * t.quantity
    ensures InStep(s, s')
  {
    forall u, a ensures Wealth(s', u, a) - Earned(s', u, a) == Wealth(s, u, a) - Earned(s, u, a) {
      SettlementGains(t, u, a);
      SumAppend(s.trades, t, GainedBy(u, a));
    }
  }

  lemma SettlementAccountsMoveNothing(l: LedgerState, t: Trade)
    requires Sound(l)
    ensures SameBalances(l, OpenSettlementAccounts(l, t))
  {
    var l1 := OpenUserAccounts(l, t.buyer, t.base);
    var l2 := OpenUserAccounts(l1, t.buyer, t.quote);
    var l3 := OpenUserAccounts(l2, t.seller, t.base);
    OpenUserKeepsSound(l, t.buyer, t.base);
    OpenUserKeepsSound(l1, t.buyer, t.quote);
    OpenUserKeepsSound(l2, t.seller, t.base);
    OpenUserKeepsSound(l3, t.seller, t.quote);
  }

  lemma SettlementAccountsPostNothing(l: LedgerState, t: Trade)
    ensures OpenSettlementAccounts(l, t).transactions == l.transactions
  {
    var l1 := OpenUserAccounts(l, t.buyer, t.base);
    var l2 := OpenUserAccounts(l1, t.buyer, t.quote);
    OpenUserEffect(l, t.buyer, t.base);
    OpenUserEffect(l1, t.buyer, t.quote);
    OpenUserEffect(l2, t.seller, t.base);
    OpenUserEffect(OpenUserAccounts(l2, t.seller, t.base), t.seller, t.quote);
  }

  lemma MatchIsInStep(s: State, taker: nat, maker: nat)
    requires Inv(s) && taker < |s.orders| && maker < |s.orders|
    requires Live(s.orders[taker]) && Eligible(s.orders[taker], s.orders[maker])
    ensures InStep(s, ExecuteMatch(s, taker, maker).0)
  {
    ExecuteKeepsInv(s, taker, maker);
    var t, s' := TradeBetween(s, taker, maker), ExecuteMatch(s, taker, maker).0;
    var ready := Ready(s, t);
    SettlementAccountsMoveNothing(s.ledger, t);
    OpeningIsInStep(s, ready);
    if SettlementOutcome(s, t).Posted? {
      MatchedIsInStep(ready, s', t);
      InStepOn(s, ready, s');
    } else {
      RefusedMatchOnlyOpens(s, taker, maker);
    }
  }

  /** A match that is refused, for whatever reason, changes no row, no posting and no balance. */
  lemma RefusedMatchChangesNothing(s: State, taker: nat, maker: nat)
    requires Sound(s.ledger) && taker < |s.orders| && maker < |s.orders|
    requires ExecuteMatch(s, taker, maker).1.MatchRefused?
    ensures var s' := ExecuteMatch(s, taker, maker).0;
      && s' == s.(ledger := s'.ledger) && s'.ledger.transactions == s.ledger.transactions
      && SameBalances(s.ledger, s'.ledger)
  {
    if FillQuantity(s.orders[taker], s.orders[maker]).Success? {
      RefusedMatchOnlyOpens(s, taker, maker);
      SettlementAccountsMoveNothing(s.ledger, TradeBetween(s, taker, maker));
      SettlementAccountsPostNothing(s.ledger, TradeBetween(s, taker, maker));
    }
  }

  /** It leaves the state in which only the wallet accounts of the settlement are open. */
  lemma RefusedMatchOnlyOpens(s: State, taker: nat, maker: nat)
    requires taker < |s.orders| && maker < |s.orders|
    requires FillQuantity(s.orders[taker], s.orders[maker]).Success?
    requires ExecuteMatch(s, taker, maker).1.MatchRefused?
    ensures ExecuteMatch(s, taker, maker).0 == Ready(s, TradeBetween(s, taker, maker))
  {
  }

  lemma MatchHeadIsInStep(s: State, taker: nat)
    requires Inv(s) && taker < |s.orders| && Live(s.orders[taker])
    ensures InStep(s, MatchHead(s, taker))
  {
    var makers := OppositeOpenOrders(s.orders, s.orders[taker]);
    if makers != [] {
      assert makers[0] in makers;
      MatchIsInStep(s, taker, makers[0]);
    }
  }

  lemma NewRowsAreInStep(s: State, s': State)
    requires s'.ledger == s.ledger && s'.trades == s.trades
    requires s'.deposits == s.deposits
      || exists d: DepositRow :: !d.credited && s'.deposits == s.deposits + [d]
    ensures InStep(s, s')
  {
    if s'.deposits != s.deposits {
      var d: DepositRow :| !d.credited && s'.deposits == s.deposits + [d];
      forall u, a ensures Earned(s', u, a) == Earned(s, u, a) {
        SumAppend(s.deposits, d, DepositedBy(u, a));
      }
    }
  }

  lemma RecordingIsInStep(s: State, step: Step)
    requires step.DepositStep? || step.WithdrawStep?
    ensures InStep(s, Apply(s, step))
  {
    if step.DepositStep? {
      assert !DepositRow(step.depositor, step.asset, step.amount, step.fiat, false).credited;
    }
    NewRowsAreInStep(s, Apply(s, step));
  }

  lemma TradingIsInStep(s: State, step: Step)
    requires Inv(s) && (step.PlaceStep? || step.MatchStep? || step.CancelStep?)
    ensures InStep(s, Apply(s, step))
  {
    match step
    case PlaceStep(r) => PlaceIsInStep(s, r);
    case MatchStep(taker) => if taker < |s.orders| && Live(s.orders[taker]) { MatchHeadIsInStep(s, taker); }
    case CancelStep(user, id) => CancelIsInStep(s, user, id);
  }

  lemma StepIsInStep(s: State, step: Step)
    requires Inv(s)
    ensures InStep(s, Apply(s, step))
  {
    match step
    case CreditStep(id) => if id < |s.deposits| { CreditIsInStep(s, id); }
    case LockStep(id) => if id < |s.withdrawals| { HoldIsInStep(s, id, true); }
    case UnlockStep(id) => if id < |s.withdrawals| { HoldIsInStep(s, id, false); }
    case _ =>
      if step.DepositStep? || step.WithdrawStep? {
        RecordingIsInStep(s, step);
      } else {
        TradingIsInStep(s, step);
      }
  }

  /**
   * Over every run: a user's AVAILABLE and LOCKED together are the deposits credited to the user and what the user's
   * trades brought less what they cost. Placing, cancelling, locking and unlocking never change it.
   */
  lemma {:induction false} WealthIsExact(pairs: seq<Pair>, steps: seq<Step>, u: User, a: Asset)
    ensures var s := Run(pairs, steps);
      Balance(s.ledger, UserAccount(u, a, Available)) + Balance(s.ledger, UserAccount(u, a, Locked))
        == SumBy(s.deposits, DepositedBy(u, a)) + SumBy(s.trades, GainedBy(u, a))
  {
    if steps != [] {
      var s, step := Run(pairs, steps[..|steps| - 1]), steps[|steps| - 1];
      WealthIsExact(pairs, steps[..|steps| - 1], u, a);
      EveryRunKeepsInv(pairs, steps[..|steps| - 1]);
      StepIsInStep(s, step);
      assert Wealth(Apply(s, step), u, a) - Earned(Apply(s, step), u, a) == Wealth(s, u, a) - Earned(s, u, a);
    }
  }

  /** So AVAILABLE is exact as well: what the user owns, less what orders and withdrawals hold of it. */
  lemma AvailableIsExact(pairs: seq<Pair>, steps: seq<Step>, u: User, a: Asset)
    ensures var s := Run(pairs, steps);
      Balance(s.ledger, UserAccount(u, a, Available))
        == SumBy(s.deposits, DepositedBy(u, a)) + SumBy(s.trades, GainedBy(u, a))
         - OrderLocks(s, u, a) - Improvements(s, u, a) - WithdrawalHolds(s, u, a)
  {
    WealthIsExact(pairs, steps, u, a);
    LockedIsExact(pairs, steps, u, a);
  }
}
