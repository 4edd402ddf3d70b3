/** One match, one cancel and the money movements of deposits and withdrawals keep the exchange invariant. */
module ExchangeMatchStep {
  import opened Sums
  import opened Ledger
  import opened Orders
  import opened Exchange
  import opened ExchangeInvariant
  import opened ExchangeSteps

  // ---------- one match ----------

  lemma LockAmountSplits(side: Side, price: int, x: int, y: int)
    ensures OrderLockAmount(side, price, x + y) == OrderLockAmount(side, price, x) + OrderLockAmount(side, price, y)
  {
  }

  /** A fill reduces what an order needs locked by the lock rule applied to the fill. */
  lemma NeedAfterFill(o: Order, q: int)
    requires Live(o) && 0 < q <= o.remaining
    ensures LockNeed(OrderFillUpdate(o, q).value) == LockNeed(o) - OrderLockAmount(o.side, o.price, q)
  {
    LockAmountSplits(o.side, o.price, o.remaining - q, q);
  }

  lemma FilledOrderOk(pairs: seq<Pair>, o: Order, q: int)
    requires OrderOk(pairs, o) && Live(o) && 0 < q <= o.remaining
    ensures OrderOk(pairs, OrderFillUpdate(o, q).value)
    ensures SameTerms(o, OrderFillUpdate(o, q).value)
  {
  }

  /** A match between a live order and an eligible one, for all that one of the two has left. */
  ghost predicate Matchable(s: State, t: Trade) {
    && t.taker < |s.orders| && t.maker < |s.orders| && Live(s.orders[t.taker])
    && Eligible(s.orders[t.taker], s.orders[t.maker])
    && FillQuantity(s.orders[t.taker], s.orders[t.maker]) == Success(t.quantity)
    && t == TradeOf(s.orders[t.taker], t.taker, s.orders[t.maker], t.maker, t.quantity)
  }

  function SettlementTransaction(s: State, t: Trade): Transaction {
    Transaction(TradeSettlementPosting, TradeSettlement(|s.trades|), SettlementEntries(t))
  }

  /** An executed match as a relation between two states. */
  ghost predicate Matched(s: State, s': State, t: Trade) {
    && Matchable(s, t)
    && PostedOn(s.ledger, s'.ledger, SettlementTransaction(s, t))
    && s'.orders == s.orders[t.taker := OrderFillUpdate(s.orders[t.taker], t.quantity).value]
                            [t.maker := OrderFillUpdate(s.orders[t.maker], t.quantity).value]
    && s'.trades == s.trades + [t]
    && s'.outbox == AddOutboxRow(s.outbox, OutboxRow(|s.trades|, t))
    && s'.withdrawals == s.withdrawals && s'.deposits == s.deposits && s'.pairs == s.pairs
  }

  /** What a settlement takes from one LOCKED account. */
  function SettledLock(t: Trade, u: User, a: Asset): int {
    (if u == t.seller && a == t.base then t.quantity else 0) +
    (if u == t.buyer && a == t.quote then t.quoteAmount else 0)
  }

  lemma SettlementTotals(t: Trade)
    requires t.buyer != t.seller
    ensures Balanced(SettlementEntries(t))
    ensures forall u, a :: AccountTotal(SettlementEntries(t), UserAccount(u, a, Locked)) == -SettledLock(t, u, a)
    ensures forall a :: AccountTotal(SettlementEntries(t), MainCustody(a)) == 0
  {
    var e := SettlementEntries(t);
    forall b ensures AssetTotal(e, b) == 0 {
      SumFour(e[0], e[1], e[2], e[3], AssetAmount(b));
    }
    forall u, a ensures AccountTotal(e, UserAccount(u, a, Locked)) == -SettledLock(t, u, a) {
      SumFour(e[0], e[1], e[2], e[3], AccountAmount(UserAccount(u, a, Locked)));
    }
    forall a ensures AccountTotal(e, MainCustody(a)) == 0 {
      SumFour(e[0], e[1], e[2], e[3], AccountAmount(MainCustody(a)));
    }
  }

  lemma ImprovedPrice(limit: int, price: int, q: int)
    ensures limit * q == (limit - price) * q + price * q
  {
  }

  /** The two orders' needs shrink by their lock rules, the improvement grows by the difference. */
  lemma MatchedNeeds(s: State, s': State, t: Trade, u: User, a: Asset)
    requires Matched(s, s', t) && OrdersOk(s)
    ensures var k, m := s.orders[t.taker], s.orders[t.maker];
      OrderLocks(s', u, a) == OrderLocks(s, u, a)
        - (if k.user == u && k.lockedAsset == a then OrderLockAmount(k.side, k.price, t.quantity) else 0)
        - (if m.user == u && m.lockedAsset == a then OrderLockAmount(m.side, m.price, t.quantity) else 0)
  {
    var k, m := s.orders[t.taker], s.orders[t.maker];
    var k', m' := OrderFillUpdate(k, t.quantity).value, OrderFillUpdate(m, t.quantity).value;
    NeedAfterFill(k, t.quantity);
    NeedAfterFill(m, t.quantity);
    SumUpdate(s.orders, t.taker, k', NeedOf(u, a));
    SumUpdate(s.orders[t.taker := k'], t.maker, m', NeedOf(u, a));
  }

  lemma MatchedImprovements(s: State, s': State, t: Trade, u: User, a: Asset)
    requires Matched(s, s', t) && OrdersOk(s) && TradesOk(s)
    ensures Improvements(s', u, a) == Improvements(s, u, a)
      + (if t.takerSide == Buy && t.buyer == u && t.quote == a
         then (s.orders[t.taker].price - t.price) * t.quantity else 0)
  {
    MatchedOrdersEvolve(s, s', t);
    TradesSurvive(s.orders, s'.orders, s.trades, u, a);
    SumAppend(s.trades, t, ImprovementOf(s'.orders, u, a));
    assert SameTerms(s.orders[t.taker], s'.orders[t.taker]);
  }

  lemma MatchedOrdersEvolve(s: State, s': State, t: Trade)
    requires Matched(s, s', t) && OrdersOk(s)
    ensures OrdersEvolve(s.orders, s'.orders)
  {
    FilledOrderOk(s.pairs, s.orders[t.taker], t.quantity);
    FilledOrderOk(s.pairs, s.orders[t.maker], t.quantity);
  }

  lemma MatchTarget(s: State, s': State, t: Trade, u: User, a: Asset)
    requires Matched(s, s', t) && OrdersOk(s) && TradesOk(s)
    ensures LockedTarget(s', u, a)
         == LockedTarget(s, u, a) + AccountTotal(SettlementEntries(t), UserAccount(u, a, Locked))
  {
    var k, m := s.orders[t.taker], s.orders[t.maker];
    MatchedNeeds(s, s', t, u, a);
    MatchedImprovements(s, s', t, u, a);
    SettlementTotals(t);
    ImprovedPrice(k.price, t.price, t.quantity);
    assert k.base == m.base && k.quote == m.quote;
  }

  lemma MatchedOrdersOk(s: State, s': State, t: Trade)
    requires Matched(s, s', t) && OrdersOk(s)
    ensures OrdersOk(s')
  {
    FilledOrderOk(s.pairs, s.orders[t.taker], t.quantity);
    FilledOrderOk(s.pairs, s.orders[t.maker], t.quantity);
    forall i | 0 <= i < |s'.orders|
      ensures OrderOk(s'.pairs, s'.orders[i]) && s'.orders[i].filled == FilledByTrades(s'.trades, i)
    {
      SumAppend(s.trades, t, FillsOf(i));
    }
  }

  /** Live orders have something left, and every past trade exhausted one of its two orders. */
  lemma NoSecondTrade(s: State, taker: nat, maker: nat)
    requires OrdersOk(s) && TradesOk(s)
    requires taker < |s.orders| && maker < |s.orders| && Live(s.orders[taker]) && Live(s.orders[maker])
    ensures !HasTradeKey(s.trades, taker, maker)
  {
    forall j | 0 <= j < |s.trades| ensures !(s.trades[j].taker == taker && s.trades[j].maker == maker) {
      assert TradeOk(s.orders, s.trades[j]);
      assert OrderOk(s.pairs, s.orders[taker]) && OrderOk(s.pairs, s.orders[maker]);
    }
  }

  lemma MatchedTradesOk(s: State, s': State, t: Trade)
    requires Matched(s, s', t) && OrdersOk(s) && TradesOk(s)
    ensures TradesOk(s')
  {
    MatchedOrdersEvolve(s, s', t);
    TradesSurvive(s.orders, s'.orders, s.trades, 0, 0);
    NoSecondTrade(s, t.taker, t.maker);
    assert OrderOk(s.pairs, s.orders[t.taker]) && OrderOk(s.pairs, s.orders[t.maker]);
    assert TradeOk(s'.orders, t);
  }

  lemma MatchedFunds(s: State, s': State, t: Trade)
    requires OrdersOk(s) && TradesOk(s) && FundsOk(s) && CustodyOk(s) && Matched(s, s', t)
    ensures FundsOk(s') && CustodyOk(s')
  {
    var tx := SettlementTransaction(s, t);
    SettlementTotals(t);
    forall u, a ensures LockedTarget(s', u, a)
                     == LockedTarget(s, u, a) + AccountTotal(tx.entries, UserAccount(u, a, Locked)) {
      MatchTarget(s, s', t, u, a);
    }
    FundsAfterPost(s, s', tx);
    CustodyAfterPost(s, s', tx);
  }

  lemma MatchedKeys(s: State, s': State, t: Trade)
    requires OrdersOk(s) && KeysOk(s) && OutboxOk(s) && Matched(s, s', t)
    ensures KeysOk(s') && OutboxOk(s')
  {
    assert RowsEvolve(s, s');
    KeysAfterPost(s, s', SettlementTransaction(s, t));
  }

  lemma MatchedKeepsInv(s: State, s': State, t: Trade)
    requires Inv(s) && Matched(s, s', t)
    ensures Inv(s')
  {
    MatchedOrdersOk(s, s', t);
    MatchedTradesOk(s, s', t);
    MatchedFunds(s, s', t);
    MatchedKeys(s, s', t);
  }

  lemma CommitMatchIsMatched(s: State, t: Trade)
    requires Sound(s.ledger) && Matchable(s, t)
    requires var tx := SettlementTransaction(s, t); PostOutcome(s.ledger, tx.kind, tx.key, tx.entries).Posted?
    ensures Matched(s, CommitMatch(s, t), t)
  {
    var tx := SettlementTransaction(s, t);
    PostEffect(s.ledger, tx.kind, tx.key, tx.entries);
  }

  lemma OpenSettlementKeepsInv(s: State, t: Trade)
    requires Inv(s)
    ensures Inv(s.(ledger := OpenSettlementAccounts(s.ledger, t)))
    ensures OpenSettlementAccounts(s.ledger, t).transactions == s.ledger.transactions
    ensures {UserAccount(t.seller, t.base, Locked), UserAccount(t.buyer, t.base, Available),
             UserAccount(t.buyer, t.quote, Locked), UserAccount(t.seller, t.quote, Available)}
            <= OpenSettlementAccounts(s.ledger, t).accounts
  {
    var l1 := OpenUserAccounts(s.ledger, t.buyer, t.base);
    var l2 := OpenUserAccounts(l1, t.buyer, t.quote);
    var l3 := OpenUserAccounts(l2, t.seller, t.base);
    OpenUserKeepsInv(s, t.buyer, t.base);
    OpenUserKeepsInv(s.(ledger := l1), t.buyer, t.quote);
    OpenUserKeepsInv(s.(ledger := l2), t.seller, t.base);
    OpenUserKeepsInv(s.(ledger := l3), t.seller, t.quote);
    OpenUserEffect(s.ledger, t.buyer, t.base);
    OpenUserEffect(l1, t.buyer, t.quote);
    OpenUserEffect(l2, t.seller, t.base);
    OpenUserEffect(l3, t.seller, t.quote);
  }

  /** The trade that a match between two rows makes. */
  function TradeBetween(s: State, taker: nat, maker: nat): Trade
    requires taker < |s.orders| && maker < |s.orders|
    requires FillQuantity(s.orders[taker], s.orders[maker]).Success?
  {
    TradeOf(s.orders[taker], taker, s.orders[maker], maker, FillQuantity(s.orders[taker], s.orders[maker]).value)
  }

  function Ready(s: State, t: Trade): State {
    s.(ledger := OpenSettlementAccounts(s.ledger, t))
  }

  ghost function SettlementOutcome(s: State, t: Trade): Outcome {
    var tx := SettlementTransaction(s, t);
    PostOutcome(Ready(s, t).ledger, tx.kind, tx.key, tx.entries)
  }

  /** With fresh keys, a match either commits or is refused by the ledger. */
  lemma ExecuteCases(s: State, taker: nat, maker: nat)
    requires taker < |s.orders| && maker < |s.orders|
    requires FillQuantity(s.orders[taker], s.orders[maker]).Success?
    requires !HasTradeKey(s.trades, taker, maker)
    requires var t := TradeBetween(s, taker, maker);
      !HasKey(Ready(s, t).ledger.transactions, TradeSettlement(|s.trades|))
    ensures var t := TradeBetween(s, taker, maker);
      ExecuteMatch(s, taker, maker) ==
        if SettlementOutcome(s, t).Posted? then (CommitMatch(Ready(s, t), t), Executed(t))
        else (Ready(s, t), MatchRefused(LedgerRefused(SettlementOutcome(s, t).error)))
    ensures SettlementOutcome(s, TradeBetween(s, taker, maker)).Posted?
         || SettlementOutcome(s, TradeBetween(s, taker, maker)).Refused?
  {
  }

  lemma LiveOrdersFill(s: State, taker: nat, maker: nat)
    requires OrdersOk(s) && taker < |s.orders| && maker < |s.orders|
    requires Live(s.orders[taker]) && Live(s.orders[maker])
    ensures FillQuantity(s.orders[taker], s.orders[maker]).Success?
  {
    assert OrderOk(s.pairs, s.orders[taker]) && OrderOk(s.pairs, s.orders[maker]);
  }

  /** Executing a match between a live order and an eligible opposite order keeps the invariant. */
  lemma ExecuteKeepsInv(s: State, taker: nat, maker: nat)
    requires Inv(s) && taker < |s.orders| && maker < |s.orders|
    requires Live(s.orders[taker]) && Eligible(s.orders[taker], s.orders[maker])
    ensures Inv(ExecuteMatch(s, taker, maker).0)
    ensures FillQuantity(s.orders[taker], s.orders[maker]).Success?
    ensures var t := TradeBetween(s, taker, maker);
      && Inv(Ready(s, t)) && Matchable(Ready(s, t), t)
      && (SettlementOutcome(s, t).Posted? ==>
            ExecuteMatch(s, taker, maker) == (CommitMatch(Ready(s, t), t), Executed(t))
            && Matched(Ready(s, t), CommitMatch(Ready(s, t), t), t))
      && (!SettlementOutcome(s, t).Posted? ==> ExecuteMatch(s, taker, maker).1.MatchRefused?)
  {
    LiveOrdersFill(s, taker, maker);
    var t := TradeBetween(s, taker, maker);
    OpenSettlementKeepsInv(s, t);
    KeyIsFree(Ready(s, t), TradeSettlement(|s.trades|));
    NoSecondTrade(s, taker, maker);
    ExecuteCases(s, taker, maker);
    if SettlementOutcome(s, t).Posted? {
      CommitMatchIsMatched(Ready(s, t), t);
      MatchedKeepsInv(Ready(s, t), CommitMatch(Ready(s, t), t), t);
    }
  }

  // ---------- cancelling ----------

  /** For a live order the service's release formula is exactly what the order still needs locked. */
  lemma ReleaseIsTheNeed(pairs: seq<Pair>, o: Order)
    requires OrderOk(pairs, o) && Live(o)
    ensures RemainingLockedAmount(o) == Success(LockNeed(o))
    ensures 0 < LockNeed(o)
  {
    LockAmountSplits(o.side, o.price, o.filled, o.remaining);
    PositiveFactors(o.price, o.original);
    PositiveFactors(o.price, o.remaining);
    if o.side == Buy && o.price * o.remaining == 0 {
      PositiveProduct(o.price, o.remaining);
    }
  }

  lemma PositiveProduct(p: int, q: int)
    requires 0 < p && 0 < q
    ensures 0 < p * q
  {
  }

  lemma UnlockTotal(user: User, asset: Asset, amount: int, u: User, a: Asset)
    ensures AccountTotal(UnlockEntries(user, asset, amount), UserAccount(u, a, Locked))
         == if u == user && a == asset then -amount else 0
  {
    TransferTotals(UserAccount(user, asset, Locked), UserAccount(user, asset, Available), asset, amount);
  }

  lemma CancelTarget(s: State, s': State, id: nat, o': Order, u: User, a: Asset)
    requires OrdersOk(s) && TradesOk(s) && id < |s.orders| && Live(s.orders[id])
    requires o' == s.orders[id].(status := OrderStatus.Cancelled, released := o'.released)
    requires s'.orders == s.orders[id := o'] && s'.trades == s.trades && s'.withdrawals == s.withdrawals
    ensures LockedTarget(s', u, a) == LockedTarget(s, u, a)
      + AccountTotal(UnlockEntries(o'.user, o'.lockedAsset, LockNeed(s.orders[id])), UserAccount(u, a, Locked))
  {
    var o := s.orders[id];
    SumUpdate(s.orders, id, o', NeedOf(u, a));
    TradesSurvive(s.orders, s'.orders, s.trades, u, a);
    UnlockTotal(o.user, o.lockedAsset, LockNeed(o), u, a);
  }

  lemma CancelledRows(s: State, s': State, id: nat, o': Order)
    requires OrdersOk(s) && TradesOk(s) && id < |s.orders| && Live(s.orders[id])
    requires o' == s.orders[id].(status := OrderStatus.Cancelled, released := LockNeed(s.orders[id]))
    requires s'.orders == s.orders[id := o'] && s'.trades == s.trades && s'.pairs == s.pairs
    ensures OrdersOk(s') && TradesOk(s')
  {
    assert OrderOk(s.pairs, s.orders[id]);
    TradesSurvive(s.orders, s'.orders, s.trades, 0, 0);
  }

  function CancelTransaction(s: State, id: nat): Transaction
    requires id < |s.orders|
  {
    var o := s.orders[id];
    Transaction(FundsUnlock, OrderCancel(id), UnlockEntries(o.user, o.lockedAsset, LockNeed(o)))
  }

  ghost predicate Cancellation(s: State, s': State, id: nat) {
    && id < |s.orders| && Live(s.orders[id])
    && PostedOn(s.ledger, s'.ledger, CancelTransaction(s, id))
    && s'.orders == s.orders[id := s.orders[id].(status := OrderStatus.Cancelled, released := LockNeed(s.orders[id]))]
    && s'.pairs == s.pairs && s'.trades == s.trades && s'.outbox == s.outbox
    && s'.deposits == s.deposits && s'.withdrawals == s.withdrawals
  }

  lemma CancellationFunds(s: State, s': State, id: nat)
    requires OrdersOk(s) && TradesOk(s) && FundsOk(s) && CustodyOk(s) && Cancellation(s, s', id)
    ensures FundsOk(s') && CustodyOk(s')
  {
    var o, o', tx := s.orders[id], s'.orders[id], CancelTransaction(s, id);
    forall u, a ensures LockedTarget(s', u, a)
                     == LockedTarget(s, u, a) + AccountTotal(tx.entries, UserAccount(u, a, Locked)) {
      CancelTarget(s, s', id, o', u, a);
    }
    FundsAfterPost(s, s', tx);
    TransferTotals(UserAccount(o.user, o.lockedAsset, Locked), UserAccount(o.user, o.lockedAsset, Available),
                   o.lockedAsset, LockNeed(o));
    CustodyAfterPost(s, s', tx);
  }

  lemma CancellationKeepsInv(s: State, s': State, id: nat)
    requires Inv(s) && Cancellation(s, s', id)
    ensures Inv(s')
  {
    CancelledRows(s, s', id, s'.orders[id]);
    CancellationFunds(s, s', id);
    assert RowsEvolve(s, s');
    KeysAfterPost(s, s', CancelTransaction(s, id));
  }

  lemma CommitCancelIsCancellation(s: State, id: nat)
    requires Sound(s.ledger) && id < |s.orders| && Live(s.orders[id]) && s.orders[id].released == 0
    requires var tx := CancelTransaction(s, id); PostOutcome(s.ledger, tx.kind, tx.key, tx.entries).Posted?
    ensures Cancellation(s, CommitCancel(s, id, LockNeed(s.orders[id])), id)
  {
    var tx := CancelTransaction(s, id);
    PostEffect(s.ledger, tx.kind, tx.key, tx.entries);
  }

  /** The state of a cancel once the wallet pair of its lock is open. */
  function ReadyToCancel(s: State, user: User, asset: Asset): State {
    s.(ledger := OpenUserAccounts(s.ledger, user, asset))
  }

  /** A cancel that passes the checks either gives back the order's need or, refused, leaves all rows alone. */
  lemma CancelCases(s: State, user: User, id: nat)
    requires Inv(s) && CancelChecks(s, user, id).Success?
    ensures id < |s.orders| && Live(s.orders[id]) && s.orders[id].user == user
    ensures var o := s.orders[id]; var ready := ReadyToCancel(s, user, o.lockedAsset);
      var (s', outcome) := CancelOrder(s, user, id);
      && Inv(ready)
      && ((outcome == CancelledOrder(LockNeed(o)) && Cancellation(ready, s', id))
          || (s' == ready && outcome.CancelRefused? && outcome.error.LedgerRefused?))
  {
    var o := s.orders[id];
    assert OrderOk(s.pairs, o);
    ReleaseIsTheNeed(s.pairs, o);
    var ready := ReadyToCancel(s, user, o.lockedAsset);
    var tx := CancelTransaction(s, id);
    OpenUserKeepsInv(s, user, o.lockedAsset);
    KeyIsFree(ready, tx.key);
    PostOrRefuse(ready.ledger, tx.kind, tx.key, tx.entries);
    if PostOutcome(ready.ledger, tx.kind, tx.key, tx.entries).Posted? {
      CommitCancelIsCancellation(ready, id);
    }
  }

  lemma CancelKeepsInv(s: State, user: User, id: nat)
    requires Inv(s)
    ensures Inv(CancelOrder(s, user, id).0)
  {
    if CancelChecks(s, user, id).Success? {
      CancelCases(s, user, id);
      if CancelOrder(s, user, id).1.CancelledOrder? {
        CancellationKeepsInv(ReadyToCancel(s, user, s.orders[id].lockedAsset), CancelOrder(s, user, id).0, id);
      }
    }
  }
}
