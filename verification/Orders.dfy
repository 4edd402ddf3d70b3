/** Limit orders, the price-time query for matchable opposite orders, and the arithmetic of one fill. */
module Orders {
  import opened Ledger

  datatype Result<+T, +E> = Success(value: T) | Failure(error: E)

  datatype Side = Buy | Sell

  datatype OrderStatus = Open | PartiallyFilled | Filled | Cancelled | Rejected | Expired

  /**
   * A row of the order table; an order's id is its index there. `createdAt` is the time priority:
   * it need not follow the order of creation, and rows that share it keep table order.
   */
  datatype Order = Order(
    user: User, pair: nat, base: Asset, quote: Asset, side: Side, price: int,
    original: int, filled: int, remaining: int,
    lockedAsset: Asset, locked: int, released: int,
    status: OrderStatus, createdAt: int, requestKey: string)

  predicate Live(o: Order) {
    o.status == Open || o.status == PartiallyFilled
  }

  /** Prices at which an order of `side` at `limit` may trade. */
  predicate Acceptable(side: Side, limit: int, price: int) {
    if side == Buy then price <= limit else limit <= price
  }

  /** The rows the matching query selects for an incoming order. */
  predicate Eligible(incoming: Order, o: Order) {
    && o.pair == incoming.pair
    && Live(o)
    && o.user != incoming.user
    && o.side != incoming.side
    && Acceptable(incoming.side, incoming.price, o.price)
  }

  /** Strict price-time priority between two rows, as seen by an incoming order of `side`. */
  predicate Precedes(orders: seq<Order>, side: Side, i: nat, j: nat) {
    && i < |orders| && j < |orders|
    && if orders[i].price != orders[j].price then
        (if side == Buy then orders[i].price < orders[j].price else orders[j].price < orders[i].price)
      else if orders[i].createdAt != orders[j].createdAt then orders[i].createdAt < orders[j].createdAt
      else i < j
  }

  ghost predicate InPriorityOrder(orders: seq<Order>, side: Side, makers: seq<nat>) {
    forall a, b :: 0 <= a < b < |makers| ==> Precedes(orders, side, makers[a], makers[b])
  }

  /** `makers` lists exactly the eligible rows, best first. */
  ghost predicate IsQueryResult(orders: seq<Order>, incoming: Order, makers: seq<nat>) {
    && (forall i :: i in makers <==> 0 <= i < |orders| && Eligible(incoming, orders[i]))
    && InPriorityOrder(orders, incoming.side, makers)
  }

  function InsertByPriority(orders: seq<Order>, side: Side, i: nat, makers: seq<nat>): (r: seq<nat>)
    requires i < |orders| && i !in makers
    requires forall m :: m in makers ==> m < |orders|
    requires InPriorityOrder(orders, side, makers)
    ensures forall m :: m in r <==> m == i || m in makers
    ensures InPriorityOrder(orders, side, r)
  {
    if makers == [] then [i]
    else if Precedes(orders, side, i, makers[0]) then
      InsertedFirst(orders, side, i, makers);
      [i] + makers
    else
      assert makers == [makers[0]] + makers[1..];
      var rest := InsertByPriority(orders, side, i, makers[1..]);
      assert forall m :: m in rest ==> Precedes(orders, side, makers[0], m) by {
        forall m | m in rest ensures Precedes(orders, side, makers[0], m) {
          if m != i {
            var k :| 0 <= k < |makers[1..]| && makers[1..][k] == m;
            assert makers[k + 1] == m;
          } else {
            assert makers[0] in makers;
          }
        }
      }
      [makers[0]] + rest
  }

  lemma InsertedFirst(orders: seq<Order>, side: Side, i: nat, makers: seq<nat>)
    requires makers != [] && InPriorityOrder(orders, side, makers)
    requires Precedes(orders, side, i, makers[0])
    ensures InPriorityOrder(orders, side, [i] + makers)
  {
    var r := [i] + makers;
    forall a, b | 0 <= a < b < |r| ensures Precedes(orders, side, r[a], r[b]) {
      if 0 < a {
        assert r[a] == makers[a - 1] && r[b] == makers[b - 1];
      } else if 1 < b {
        assert Precedes(orders, side, makers[0], makers[b - 1]);
      }
    }
  }

  /** The query over the first `n` rows. */
  function QueryPrefix(orders: seq<Order>, incoming: Order, n: nat): (makers: seq<nat>)
    requires n <= |orders|
    ensures forall i :: i in makers <==> 0 <= i < n && Eligible(incoming, orders[i])
    ensures InPriorityOrder(orders, incoming.side, makers)
  {
    if n == 0 then []
    else
      var makers := QueryPrefix(orders, incoming, n - 1);
      if Eligible(incoming, orders[n - 1]) then InsertByPriority(orders, incoming.side, n - 1, makers)
      else makers
  }

  function OppositeOpenOrders(orders: seq<Order>, incoming: Order): (makers: seq<nat>)
    ensures IsQueryResult(orders, incoming, makers)
  {
    QueryPrefix(orders, incoming, |orders|)
  }

  /** In a priority-ordered list, what follows the head is not the head. */
  lemma TailOfPriorityOrder(orders: seq<Order>, side: Side, makers: seq<nat>)
    requires makers != [] && InPriorityOrder(orders, side, makers)
    ensures InPriorityOrder(orders, side, makers[1..])
    ensures forall m :: m in makers[1..] <==> m in makers && m != makers[0]
    ensures forall m :: m in makers[1..] ==> Precedes(orders, side, makers[0], m)
  {
    assert makers == [makers[0]] + makers[1..];
    forall m | m in makers[1..] ensures Precedes(orders, side, makers[0], m) {
      var k :| 0 <= k < |makers[1..]| && makers[1..][k] == m;
      assert makers[k + 1] == m;
    }
  }

  lemma HeadIsMember(makers: seq<nat>)
    ensures makers != [] ==> makers[0] in makers
  {
  }

  /** The query has one answer: same rows and strict priority fix the sequence. */
  lemma {:induction false} QueryResultIsUnique(orders: seq<Order>, side: Side, makers: seq<nat>, makers': seq<nat>)
    requires forall i :: i in makers <==> i in makers'
    requires InPriorityOrder(orders, side, makers) && InPriorityOrder(orders, side, makers')
    ensures makers == makers'
  {
    if makers == [] {
      HeadIsMember(makers');
    } else {
      assert makers[0] in makers';
      assert makers'[0] in makers;
      TailOfPriorityOrder(orders, side, makers);
      TailOfPriorityOrder(orders, side, makers');
      QueryResultIsUnique(orders, side, makers[1..], makers'[1..]);
    }
  }

  /**
   * Price-time priority in the caller's terms. Of two listed rows the earlier has the better price for the incoming
   * order; at one price it was created no later, and at one creation time it is the earlier row.
   */
  lemma BetterPriceThenOlderFirst(orders: seq<Order>, incoming: Order, a: nat, b: nat)
    requires a < b < |OppositeOpenOrders(orders, incoming)|
    ensures var i, j := OppositeOpenOrders(orders, incoming)[a], OppositeOpenOrders(orders, incoming)[b];
      && i < |orders| && j < |orders| && i != j
      && (incoming.side == Buy ==> orders[i].price <= orders[j].price)
      && (incoming.side == Sell ==> orders[j].price <= orders[i].price)
      && (orders[i].price == orders[j].price ==> orders[i].createdAt <= orders[j].createdAt)
      && (orders[i].price == orders[j].price && orders[i].createdAt == orders[j].createdAt ==> i < j)
  {
    var makers := OppositeOpenOrders(orders, incoming);
    assert Precedes(orders, incoming.side, makers[a], makers[b]);
  }

  /** Exactly the live orders of other users on the other side of the pair at a price the incoming order accepts. */
  lemma ListedIff(orders: seq<Order>, incoming: Order, i: nat)
    ensures i in OppositeOpenOrders(orders, incoming) <==>
      && i < |orders| && orders[i].pair == incoming.pair && orders[i].user != incoming.user
      && (orders[i].status == Open || orders[i].status == PartiallyFilled)
      && (if incoming.side == Buy then orders[i].side == Sell && orders[i].price <= incoming.price
          else orders[i].side == Buy && incoming.price <= orders[i].price)
  {
    assert IsQueryResult(orders, incoming, OppositeOpenOrders(orders, incoming));
  }

  // ---------- the arithmetic of one fill ----------

  datatype FillError = IncomingExhausted | OppositeExhausted | NonPositiveFill | FillExceedsRemaining

  function FillQuantity(incoming: Order, opposite: Order): (r: Result<int, FillError>)
    ensures r.Success? <==> 0 < incoming.remaining && 0 < opposite.remaining
    ensures r.Success? ==> 0 < r.value <= incoming.remaining && r.value <= opposite.remaining
    ensures r.Success? ==> r.value == incoming.remaining || r.value == opposite.remaining
  {
    if incoming.remaining <= 0 then Failure(IncomingExhausted)
    else if opposite.remaining <= 0 then Failure(OppositeExhausted)
    else if incoming.remaining <= opposite.remaining then Success(incoming.remaining)
    else Success(opposite.remaining)
  }

  function StatusAfterFill(remaining: int): OrderStatus {
    if remaining <= 0 then Filled else PartiallyFilled
  }

  /** The row after a fill. A negative fill is refused; the library's sign test lets zero through. */
  function OrderFillUpdate(order: Order, fill: int): (r: Result<Order, FillError>)
    ensures r.Success? <==> 0 <= fill <= order.remaining
    ensures r.Success? ==> r.value.filled + r.value.remaining == order.filled + order.remaining
    ensures r.Success? ==> (r.value.status == Filled <==> fill == order.remaining)
  {
    if fill < 0 then Failure(NonPositiveFill)
    else if order.remaining - fill < 0 then Failure(FillExceedsRemaining)
    else Success(order.(filled := order.filled + fill, remaining := order.remaining - fill,
                        status := StatusAfterFill(order.remaining - fill)))
  }

  /** What placing an order locks: the full quote value of a BUY, the base quantity of a SELL. */
  function OrderLockAmount(side: Side, price: int, quantity: int): int {
    if side == Buy then price * quantity else quantity
  }

  /** calculateRemainingLockedAmount, which refuses a negative answer. */
  function RemainingLockedAmount(order: Order): Result<int, ()> {
    var consumed := OrderLockAmount(order.side, order.price, order.filled);
    var remaining := order.locked - consumed - order.released;
    if remaining < 0 then Failure(()) else Success(remaining)
  }

  /** What a live order still needs locked: its lock rule applied to what remains. */
  function LockNeed(order: Order): int {
    if Live(order) then OrderLockAmount(order.side, order.price, order.remaining) else 0
  }

  /**
   * One match in the book: after the head of the query traded with the incoming order, and the head was
   * exhausted, the query for what is left of the incoming order is the old answer without its head.
   */
  lemma QueryAfterExhaustedHead(orders: seq<Order>, orders': seq<Order>, taker: nat, makers: seq<nat>)
    requires taker < |orders| && |orders'| == |orders|
    requires IsQueryResult(orders, orders[taker], makers)
    requires makers != [] && makers[0] in makers
    requires forall i :: 0 <= i < |orders| && i != taker && i != makers[0] ==> orders'[i] == orders[i]
    requires orders'[taker].user == orders[taker].user && orders'[taker].pair == orders[taker].pair
    requires orders'[taker].side == orders[taker].side && orders'[taker].price == orders[taker].price
    requires !Live(orders'[makers[0]])
    ensures OppositeOpenOrders(orders', orders'[taker]) == makers[1..]
  {
    var head, rest := makers[0], makers[1..];
    var incoming' := orders'[taker];
    TailOfPriorityOrder(orders, incoming'.side, makers);
    forall i ensures i in rest <==> 0 <= i < |orders'| && Eligible(incoming', orders'[i]) {
      assert !Eligible(orders[taker], orders[taker]);
    }
    forall a, b | 0 <= a < b < |rest| ensures Precedes(orders', incoming'.side, rest[a], rest[b]) {
      assert rest[a] in rest && rest[b] in rest;
    }
    QueryResultIsUnique(orders', incoming'.side, rest, OppositeOpenOrders(orders', incoming'));
  }
}
