/**
 * The order and matching services as imperative code over mutable tables. Every method is proved to do what
 * the corresponding step of the exchange machine does, including what it leaves behind when it is refused.
 */
module ExchangeService {
  import opened Ledger
  import opened LedgerService
  import opened Orders
  import opened Exchange
  import opened Matching
  import opened MatchingTheorems

  class ExchangeTables {
    const pairs: seq<Pair>
    const ledger: LedgerTables
    var orders: seq<Order>
    var trades: seq<Trade>
    var outbox: seq<OutboxRow>
    var deposits: seq<DepositRow>
    var withdrawals: seq<WithdrawalRow>

    function View(): State
      reads this, ledger
    {
      State(pairs, ledger.State(), orders, trades, outbox, deposits, withdrawals)
    }

    constructor (pairs: seq<Pair>)
      ensures View() == Empty(pairs)
      ensures fresh(ledger)
    {
      this.pairs := pairs;
      ledger := new LedgerTables();
      orders, trades, outbox, deposits, withdrawals := [], [], [], [], [];
    }

    /** The first half of createTradeOrder: everything up to the committed order row and its lock. */
    method PlaceTradeOrder(r: PlaceRequest) returns (outcome: PlaceOutcome)
      modifies this, ledger
      ensures (View(), outcome) == PlaceOrder(old(View()), r)
    {
      var checks := PlaceChecks(View(), r);
      if checks.Failure? {
        return checks.error;
      }
      var order := NewOrder(pairs[r.pair], r);
      var id := |orders|;
      ledger.GetOrCreateUserWalletAccounts(order.user, order.lockedAsset);
      orders := orders + [order];
      var post := ledger.PostLedgerTransaction(FundsLock, OrderLock(id),
                                               LockEntries(order.user, order.lockedAsset, order.locked));
      if post.Refused? {
        orders := orders[..id];
        return PlaceRefused(LedgerRefused(post.error));
      }
      return Placed(id);
    }

    method GetSettlementWalletAccounts(t: Trade)
      modifies ledger
      ensures ledger.State() == OpenSettlementAccounts(old(ledger.State()), t)
    {
      ledger.GetOrCreateUserWalletAccounts(t.buyer, t.base);
      ledger.GetOrCreateUserWalletAccounts(t.buyer, t.quote);
      ledger.GetOrCreateUserWalletAccounts(t.seller, t.base);
      ledger.GetOrCreateUserWalletAccounts(t.seller, t.quote);
    }

    method UpdateMatchedOrders(taker: nat, incoming: Order, maker: nat, opposite: Order, fill: int)
      requires taker < |orders| && maker < |orders|
      requires 0 <= fill <= incoming.remaining && fill <= opposite.remaining
      modifies this`orders
      ensures orders == old(orders)[taker := OrderFillUpdate(incoming, fill).value]
                                   [maker := OrderFillUpdate(opposite, fill).value]
    {
      var incomingUpdate := OrderFillUpdate(incoming, fill);
      var oppositeUpdate := OrderFillUpdate(opposite, fill);
      orders := orders[taker := incomingUpdate.value];
      orders := orders[maker := oppositeUpdate.value];
    }

    /** executeSingleMatch, on the rows the loop holds in memory. */
    method ExecuteSingleMatch(taker: nat, incoming: Order, maker: nat, opposite: Order) returns (outcome: MatchOutcome)
      requires taker < |orders| && orders[taker] == incoming
      requires maker < |orders| && orders[maker] == opposite
      modifies this, ledger
      ensures (View(), outcome) == ExecuteMatch(old(View()), taker, maker)
    {
      var fill := FillQuantity(incoming, opposite);
      if fill.Failure? {
        return MatchRefused(FillFailed(fill.error));
      }
      var trade := TradeOf(incoming, taker, opposite, maker, fill.value);
      GetSettlementWalletAccounts(trade);
      if HasTradeKey(trades, taker, maker) {
        return MatchRefused(DuplicateTrade);
      }
      var id := |trades|;
      trades := trades + [trade];
      var post := ledger.PostLedgerTransaction(TradeSettlementPosting, TradeSettlement(id), SettlementEntries(trade));
      if post.Refused? {
        trades := trades[..id];
        return MatchRefused(LedgerRefused(post.error));
      }
      UpdateMatchedOrders(taker, incoming, maker, opposite, fill.value);
      outbox := AddOutboxRow(outbox, OutboxRow(id, trade));
      return Executed(trade);
    }

    /** processOrderMatches: the loop that asks the book again after every match. */
    method ProcessOrderMatches(taker: nat) returns (order: Order, recorded: seq<Trade>, end: Result<(), ExchangeError>)
      requires taker < |orders|
      modifies this, ledger
      ensures var run := MatchAll(old(View()), taker);
        && View() == run.state && recorded == run.trades && end == run.end
      ensures taker < |orders| && (end.Success? ==> order == orders[taker])
    {
      ghost var whole := MatchAll(View(), taker);
      order := orders[taker];
      recorded := [];
      while 0 < order.remaining
        invariant taker < |orders| && order == orders[taker]
        invariant MakesUp(whole, recorded, MatchAll(View(), taker))
        decreases |Makers(View(), taker)|
      {
        var makers := OppositeOpenOrders(orders, order);
        if makers == [] {
          return order, recorded, Success(());
        }
        LoopTurn(View(), taker);
        var outcome := ExecuteSingleMatch(taker, order, makers[0], orders[makers[0]]);
        if outcome.MatchRefused? {
          return order, recorded, Failure(outcome.error);
        }
        if orders[taker].status != OrderStatus.Filled {
          OneTradeOn(whole, recorded, outcome.trade, MatchAll(View(), taker));
        }
        recorded := recorded + [outcome.trade];
        order := orders[taker];
        if order.status == OrderStatus.Filled {
          return order, recorded, Success(());
        }
      }
      end := Success(());
    }

    /** createTradeOrder: a request whose key is known answers with the existing order and no trades. */
    method CreateTradeOrder(r: PlaceRequest)
      returns (outcome: PlaceOutcome, recorded: seq<Trade>, end: Result<(), ExchangeError>)
      modifies this, ledger
      ensures outcome == PlaceOrder(old(View()), r).1
      ensures MatchRun(View(), recorded, end) == CreateOrder(old(View()), r)
    {
      PlacedRow(View(), r);
      outcome := PlaceTradeOrder(r);
      match outcome
      case AlreadyPlaced(_) =>
        return outcome, [], Success(());
      case PlaceRefused(error) =>
        return outcome, [], Failure(error);
      case Placed(id) =>
        var order;
        order, recorded, end := ProcessOrderMatches(id);
    }

    /** cancelTradeOrder: unlock what is left of the order's lock, then mark the row. */
    method CancelTradeOrder(user: User, id: nat) returns (outcome: CancelOutcome)
      modifies this, ledger
      ensures (View(), outcome) == CancelOrder(old(View()), user, id)
    {
      var checks := CancelChecks(View(), user, id);
      if checks.Failure? {
        return CancelRefused(checks.error);
      }
      var order, amount := orders[id], checks.value;
      ledger.GetOrCreateUserWalletAccounts(user, order.lockedAsset);
      var post := ledger.PostLedgerTransaction(FundsUnlock, OrderCancel(id),
                                               UnlockEntries(user, order.lockedAsset, amount));
      if post.Refused? {
        return CancelRefused(LedgerRefused(post.error));
      }
      orders := orders[id := order.(status := OrderStatus.Cancelled, released := order.released + amount)];
      return CancelledOrder(amount);
    }

    /** creditConfirmedDeposit and creditCapturedFiatDeposit after their status checks. */
    method CreditDepositRow(id: nat)
      requires id < |deposits|
      modifies this, ledger
      ensures View() == CreditDeposit(old(View()), id)
    {
      var d := deposits[id];
      ledger.GetOrCreateUserWalletAccounts(d.user, d.asset);
      ledger.GetOrCreate(MainCustody(d.asset));
      var post := ledger.PostLedgerTransaction(DepositPosting, DepositKey(View(), id),
                                               CreditEntries(d.user, d.asset, d.amount));
      if post.Refused? {
        return;
      }
      deposits := deposits[id := d.(credited := true)];
    }
  }
}
