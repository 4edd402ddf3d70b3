/** Each kind of step keeps the exchange invariant. */
module ExchangeSteps {
  import opened Sums
  import opened Ledger
  import opened Orders
  import opened Exchange
  import opened ExchangeInvariant

  // ---------- frames ----------

  /** The columns of an order that never change after it was placed. */
  predicate SameTerms(o: Order, o': Order) {
    && o'.user == o.user && o'.pair == o.pair && o'.base == o.base && o'.quote == o.quote
    && o'.side == o.side && o'.price == o.price && o'.lockedAsset == o.lockedAsset
    && o'.original == o.original && o'.createdAt == o.createdAt
  }

  /** Rows may be appended; existing rows keep their terms, and an exhausted row stays exhausted. */
  ghost predicate OrdersEvolve(orders: seq<Order>, orders': seq<Order>) {
    && |orders| <= |orders'|
    && forall i :: 0 <= i < |orders| ==>
         SameTerms(orders[i], orders'[i]) && (orders[i].remaining == 0 ==> orders'[i].remaining == 0)
  }

  lemma TradesSurvive(orders: seq<Order>, orders': seq<Order>, trades: seq<Trade>, u: User, a: Asset)
    requires OrdersEvolve(orders, orders')
    requires forall j :: 0 <= j < |trades| ==> TradeOk(orders, trades[j])
    ensures forall j :: 0 <= j < |trades| ==> TradeOk(orders', trades[j])
    ensures SumBy(trades, ImprovementOf(orders', u, a)) == SumBy(trades, ImprovementOf(orders, u, a))
  {
    SumCongruence(trades, ImprovementOf(orders', u, a), ImprovementOf(orders, u, a));
  }

  lemma {:induction false} NoFillsOf(orders: seq<Order>, trades: seq<Trade>, id: nat)
    requires forall j :: 0 <= j < |trades| ==> TradeOk(orders, trades[j])
    requires |orders| <= id
    ensures FilledByTrades(trades, id) == 0
  {
    if trades != [] {
      var n := |trades| - 1;
      assert TradeOk(orders, trades[n]);
      NoFillsOf(orders, trades[..n], id);
    }
  }

  /** Opening accounts, or any other ledger change without postings and without balances, keeps everything. */
  lemma OpeningKeepsInv(s: State, ledger: LedgerState)
    requires Inv(s) && Sound(ledger)
    requires ledger.transactions == s.ledger.transactions
    requires forall a :: Balance(ledger, a) == Balance(s.ledger, a)
    requires forall a :: a in ledger.accounts ==> KnownAccount(a)
    ensures Inv(s.(ledger := ledger))
  {
    var s' := s.(ledger := ledger);
    forall k | 0 <= k < |s'.ledger.transactions| ensures Explained(s', s'.ledger.transactions[k]) {
      assert Explained(s, s.ledger.transactions[k]);
    }
    forall u, a ensures LockedBalance(s', u, a) == LockedTarget(s', u, a) {
      assert LockedBalance(s, u, a) == LockedTarget(s, u, a);
    }
    forall a ensures Balance(s'.ledger, MainCustody(a)) == -CreditedDeposits(s', a) {
      assert Balance(s.ledger, MainCustody(a)) == -CreditedDeposits(s, a);
    }
  }

  lemma OpenUserKeepsInv(s: State, u: User, a: Asset)
    requires Inv(s)
    ensures Inv(s.(ledger := OpenUserAccounts(s.ledger, u, a)))
  {
    OpenUserKeepsSound(s.ledger, u, a);
    OpenUserEffect(s.ledger, u, a);
    OpeningKeepsInv(s, OpenUserAccounts(s.ledger, u, a));
  }

  // ---------- the parts after an accepted posting ----------

  lemma FundsAfterPost(s: State, s': State, tx: Transaction)
    requires FundsOk(s) && PostedOn(s.ledger, s'.ledger, tx)
    requires forall u, a :: LockedTarget(s', u, a)
                         == LockedTarget(s, u, a) + AccountTotal(tx.entries, UserAccount(u, a, Locked))
    ensures FundsOk(s')
  {
    forall u, a ensures LockedBalance(s', u, a) == LockedTarget(s', u, a) {
      assert LockedBalance(s, u, a) == LockedTarget(s, u, a);
    }
  }

  lemma CustodyAfterPost(s: State, s': State, tx: Transaction)
    requires CustodyOk(s) && PostedOn(s.ledger, s'.ledger, tx)
    requires forall a :: CreditedDeposits(s', a) == CreditedDeposits(s, a) - AccountTotal(tx.entries, MainCustody(a))
    ensures CustodyOk(s')
  {
    forall a ensures Balance(s'.ledger, MainCustody(a)) == -CreditedDeposits(s', a) {
      assert Balance(s.ledger, MainCustody(a)) == -CreditedDeposits(s, a);
    }
  }

  /** Row changes under which what a posting stands for stays explained. */
  ghost predicate RowsEvolve(s: State, s': State) {
    && |s.orders| <= |s'.orders| && |s.trades| <= |s'.trades|
    && |s.deposits| <= |s'.deposits| && |s.withdrawals| <= |s'.withdrawals|
    && (forall i :: 0 <= i < |s.orders| && s.orders[i].status == OrderStatus.Cancelled ==>
          s'.orders[i].status == OrderStatus.Cancelled)
    && (forall j :: 0 <= j < |s.trades| ==> s'.trades[j] == s.trades[j])
    && (forall i :: 0 <= i < |s.deposits| ==> s'.deposits[i].fiat == s.deposits[i].fiat)
    && (forall i :: 0 <= i < |s.deposits| && s.deposits[i].credited ==> s'.deposits[i].credited)
    && (forall i :: 0 <= i < |s.withdrawals| && s.withdrawals[i].locked ==> s'.withdrawals[i].locked)
    && (forall i :: 0 <= i < |s.withdrawals| && s.withdrawals[i].unlocked ==> s'.withdrawals[i].unlocked)
  }

  lemma KeysAfterPost(s: State, s': State, tx: Transaction)
    requires KeysOk(s) && RowsEvolve(s, s')
    requires PostedOn(s.ledger, s'.ledger, tx)
    requires Explained(s', tx)
    requires forall j :: |s.trades| <= j < |s'.trades| ==> tx.key == TradeSettlement(j)
    requires forall i :: 0 <= i < |s'.deposits| && s'.deposits[i].credited ==>
      (i < |s.deposits| && s.deposits[i].credited) || tx.key == DepositKey(s', i)
    requires forall i :: 0 <= i < |s'.withdrawals| && s'.withdrawals[i].locked ==>
      (i < |s.withdrawals| && s.withdrawals[i].locked) || tx.key == WithdrawalLock(i)
    requires forall i :: 0 <= i < |s'.withdrawals| && s'.withdrawals[i].unlocked ==>
      (i < |s.withdrawals| && s.withdrawals[i].unlocked) || tx.key == WithdrawalUnlock(i)
    ensures KeysOk(s')
  {
    forall key ensures HasKey(s'.ledger.transactions, key) <==> HasKey(s.ledger.transactions, key) || tx.key == key {
      HasKeyAppend(s.ledger.transactions, tx, key);
    }
    forall k | 0 <= k < |s'.ledger.transactions| ensures Explained(s', s'.ledger.transactions[k]) {
      if k < |s.ledger.transactions| {
        assert Explained(s, s.ledger.transactions[k]);
      }
    }
  }

  /** Keys of rows that do not exist, or are not in the state the key stands for, are free. */
  lemma KeyIsFree(s: State, key: Key)
    requires KeysOk(s)
    requires match key
      case MissingKey => false
      case OrderLock(i) => |s.orders| <= i
      case OrderCancel(i) => i < |s.orders| && Live(s.orders[i])
      case TradeSettlement(j) => |s.trades| <= j
      case DepositCredit(i) => i < |s.deposits| && !s.deposits[i].credited
      case FiatDepositCredit(i) => i < |s.deposits| && !s.deposits[i].credited
      case WithdrawalLock(i) => i < |s.withdrawals| && !s.withdrawals[i].locked
      case WithdrawalUnlock(i) => i < |s.withdrawals| && !s.withdrawals[i].unlocked
    ensures !HasKey(s.ledger.transactions, key)
  {
    forall k | 0 <= k < |s.ledger.transactions| ensures s.ledger.transactions[k].key != key {
      assert Explained(s, s.ledger.transactions[k]);
    }
  }

  // ---------- placing ----------

  /** The LOCKED balances a new order claims are what its lock posting moves there. */
  lemma PlaceTarget(s: State, s': State, o: Order, u: User, a: Asset)
    requires s'.orders == s.orders + [o] && s'.trades == s.trades && s'.withdrawals == s.withdrawals
    requires forall j :: 0 <= j < |s.trades| ==> TradeOk(s.orders, s.trades[j])
    requires o.status == OrderStatus.Open && o.locked == LockNeed(o)
    ensures LockedTarget(s', u, a)
      == LockedTarget(s, u, a)
       + AccountTotal(LockEntries(o.user, o.lockedAsset, o.locked), UserAccount(u, a, Locked))
  {
    SumAppend(s.orders, o, NeedOf(u, a));
    TradesSurvive(s.orders, s'.orders, s.trades, u, a);
    TransferTotals(UserAccount(o.user, o.lockedAsset, Available), UserAccount(o.user, o.lockedAsset, Locked),
                   o.lockedAsset, o.locked);
  }

  lemma PlacedOrderOk(s: State, r: PlaceRequest)
    requires TradesOk(s) && PlaceChecks(s, r).Success?
    requires NewOrder(s.pairs[r.pair], r).locked != 0
    ensures OrderOk(s.pairs, NewOrder(s.pairs[r.pair], r))
    ensures FilledByTrades(s.trades, |s.orders|) == 0
  {
    NoFillsOf(s.orders, s.trades, |s.orders|);
    PositiveFactors(r.price, r.quantity);
  }

  lemma PositiveFactors(p: int, q: int)
    requires 0 <= p && 0 <= q
    ensures 0 <= p * q
    ensures p * q != 0 ==> 0 < p && 0 < q
  {
  }

  lemma PlacedOrders(s: State, s': State, o: Order)
    requires OrdersOk(s) && TradesOk(s)
    requires OrderOk(s.pairs, o) && FilledByTrades(s.trades, |s.orders|) == 0 && o.filled == 0
    requires s'.pairs == s.pairs && s'.orders == s.orders + [o] && s'.trades == s.trades
    ensures OrdersOk(s') && TradesOk(s')
  {
    TradesSurvive(s.orders, s'.orders, s.trades, 0, 0);
  }

  function PlaceTransaction(s: State, o: Order): Transaction {
    Transaction(FundsLock, OrderLock(|s.orders|), LockEntries(o.user, o.lockedAsset, o.locked))
  }

  ghost predicate Placement(s: State, s': State, o: Order) {
    && PostedOn(s.ledger, s'.ledger, PlaceTransaction(s, o))
    && s'.pairs == s.pairs && s'.orders == s.orders + [o] && s'.trades == s.trades && s'.outbox == s.outbox
    && s'.deposits == s.deposits && s'.withdrawals == s.withdrawals
  }

  lemma PlacementFunds(s: State, s': State, o: Order)
    requires OrdersOk(s) && TradesOk(s) && FundsOk(s) && CustodyOk(s) && Placement(s, s', o)
    requires OrderOk(s.pairs, o) && o.status == OrderStatus.Open
    ensures FundsOk(s') && CustodyOk(s')
  {
    var tx := PlaceTransaction(s, o);
    forall u, a ensures LockedTarget(s', u, a)
                     == LockedTarget(s, u, a) + AccountTotal(tx.entries, UserAccount(u, a, Locked)) {
      PlaceTarget(s, s', o, u, a);
    }
    FundsAfterPost(s, s', tx);
    TransferTotals(UserAccount(o.user, o.lockedAsset, Available), UserAccount(o.user, o.lockedAsset, Locked),
                   o.lockedAsset, o.locked);
    CustodyAfterPost(s, s', tx);
  }

  lemma PlacementKeepsInv(s: State, s': State, o: Order)
    requires Inv(s) && Placement(s, s', o)
    requires OrderOk(s.pairs, o) && o.status == OrderStatus.Open
    requires FilledByTrades(s.trades, |s.orders|) == 0
    ensures Inv(s')
  {
    PlacedOrders(s, s', o);
    PlacementFunds(s, s', o);
    KeysAfterPost(s, s', PlaceTransaction(s, o));
  }

  lemma CommitPlaceIsPlacement(s: State, o: Order)
    requires Sound(s.ledger)
    requires var tx := PlaceTransaction(s, o); PostOutcome(s.ledger, tx.kind, tx.key, tx.entries).Posted?
    ensures Placement(s, CommitPlace(s, o), o)
    ensures o.locked != 0
  {
    var tx := PlaceTransaction(s, o);
    PostEffect(s.ledger, tx.kind, tx.key, tx.entries);
    assert tx.entries[1] in tx.entries;
  }

  /** The state of a place request once the wallet pair of its lock is open. */
  function ReadyToPlace(s: State, o: Order): State {
    s.(ledger := OpenUserAccounts(s.ledger, o.user, o.lockedAsset))
  }

  /** A request that passes the checks either places its order or, refused by the ledger, leaves all rows alone. */
  lemma PlaceCases(s: State, r: PlaceRequest)
    requires Inv(s) && PlaceChecks(s, r).Success?
    ensures var o := NewOrder(s.pairs[r.pair], r); var ready := ReadyToPlace(s, o);
      var (s', outcome) := PlaceOrder(s, r);
      && Inv(ready)
      && ((outcome == Placed(|s.orders|) && Placement(ready, s', o) && o.locked != 0)
          || (s' == ready && outcome.PlaceRefused? && outcome.error.LedgerRefused?))
  {
    var o := NewOrder(s.pairs[r.pair], r);
    var ready := ReadyToPlace(s, o);
    var tx := PlaceTransaction(s, o);
    OpenUserKeepsInv(s, o.user, o.lockedAsset);
    KeyIsFree(ready, tx.key);
    PostOrRefuse(ready.ledger, tx.kind, tx.key, tx.entries);
    if PostOutcome(ready.ledger, tx.kind, tx.key, tx.entries).Posted? {
      CommitPlaceIsPlacement(ready, o);
    }
  }

  lemma PlaceKeepsInv(s: State, r: PlaceRequest)
    requires Inv(s)
    ensures Inv(PlaceOrder(s, r).0)
  {
    if PlaceChecks(s, r).Success? {
      PlaceCases(s, r);
      if PlaceOrder(s, r).1.Placed? {
        var o := NewOrder(s.pairs[r.pair], r);
        PlacedOrderOk(s, r);
        PlacementKeepsInv(ReadyToPlace(s, o), PlaceOrder(s, r).0, o);
      }
    }
  }
}
