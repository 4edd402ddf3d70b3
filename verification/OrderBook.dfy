/** The public order book: live orders grouped by price, and its agreement with the matching engine. */
module OrderBook {
  import opened Sums
  import opened Orders
  import opened Exchange
  import opened ExchangeInvariant
  import opened MatchingTheorems

  /** What the book query selects of an order. */
  datatype Row = Row(price: int, remaining: int)

  datatype Level = Level(price: int, quantity: int, orderCount: int)

  function QuantityAt(price: int): Row -> int { (r: Row) => if r.price == price then r.remaining else 0 }
  function CountAt(price: int): Row -> int { (r: Row) => if r.price == price then 1 else 0 }

  /** The level that a price should have: all quantity and all orders at that price. */
  function LevelOf(rows: seq<Row>, price: int): Level {
    Level(price, SumBy(rows, QuantityAt(price)), SumBy(rows, CountAt(price)))
  }

  predicate HasPrice(rows: seq<Row>, price: int) {
    exists i :: 0 <= i < |rows| && rows[i].price == price
  }

  /** Asks go up, bids go down. */
  predicate Ahead(ascending: bool, p: int, q: int) {
    if ascending then p < q else q < p
  }

  ghost predicate StrictlySorted(levels: seq<Level>, ascending: bool) {
    forall a, b :: 0 <= a < b < |levels| ==> Ahead(ascending, levels[a].price, levels[b].price)
  }

  /** One side of the book: one level for each price, best first, with everything at that price. */
  ghost predicate IsSide(levels: seq<Level>, rows: seq<Row>, ascending: bool) {
    && StrictlySorted(levels, ascending)
    && (forall k :: 0 <= k < |levels| ==>
          HasPrice(rows, levels[k].price) && levels[k] == LevelOf(rows, levels[k].price))
    && (forall i :: 0 <= i < |rows| ==> LevelOf(rows, rows[i].price) in levels)
  }

  // ---------- building a side ----------

  lemma NoRowsAtPrice(rows: seq<Row>, price: int)
    requires !HasPrice(rows, price)
    ensures LevelOf(rows, price) == Level(price, 0, 0)
  {
    if rows != [] {
      var n := |rows| - 1;
      assert rows[n].price != price;
      assert !HasPrice(rows[..n], price) by {
        forall i | 0 <= i < n ensures rows[..n][i].price != price {
          assert rows[..n][i] == rows[i];
        }
      }
      NoRowsAtPrice(rows[..n], price);
    }
  }

  function WithRow(l: Level, r: Row): Level {
    if r.price == l.price then Level(l.price, l.quantity + r.remaining, l.orderCount + 1) else l
  }

  lemma OneMoreRow(rows: seq<Row>, r: Row, price: int)
    ensures LevelOf(rows + [r], price) == WithRow(LevelOf(rows, price), r)
    ensures HasPrice(rows + [r], price) <==> HasPrice(rows, price) || r.price == price
  {
    SumAppend(rows, r, QuantityAt(price));
    SumAppend(rows, r, CountAt(price));
    if HasPrice(rows, price) {
      var i :| 0 <= i < |rows| && rows[i].price == price;
      assert (rows + [r])[i].price == price;
    }
    if r.price == price {
      assert (rows + [r])[|rows|].price == price;
    }
  }

  /** The accumulation loop over a map from price to level. */
  method GroupByPrice(rows: seq<Row>) returns (levelsByPrice: map<int, Level>)
    ensures forall p :: p in levelsByPrice <==> HasPrice(rows, p)
    ensures forall p :: p in levelsByPrice ==> levelsByPrice[p] == LevelOf(rows, p)
  {
    levelsByPrice := map[];
    for i := 0 to |rows|
      invariant forall p :: p in levelsByPrice <==> HasPrice(rows[..i], p)
      invariant forall p :: p in levelsByPrice ==> levelsByPrice[p] == LevelOf(rows[..i], p)
    {
      var r := rows[i];
      assert rows[..i + 1] == rows[..i] + [r];
      forall p ensures HasPrice(rows[..i + 1], p) <==> HasPrice(rows[..i], p) || r.price == p {
        OneMoreRow(rows[..i], r, p);
      }
      forall p ensures LevelOf(rows[..i + 1], p) == WithRow(LevelOf(rows[..i], p), r) {
        OneMoreRow(rows[..i], r, p);
      }
      if r.price in levelsByPrice {
        var level := levelsByPrice[r.price];
        levelsByPrice := levelsByPrice[r.price :=
          level.(quantity := level.quantity + r.remaining, orderCount := level.orderCount + 1)];
      } else {
        NoRowsAtPrice(rows[..i], r.price);
        levelsByPrice := levelsByPrice[r.price := Level(r.price, r.remaining, 1)];
      }
    }
    assert rows[..|rows|] == rows;
  }

  function InsertLevel(levels: seq<Level>, level: Level, ascending: bool): (r: seq<Level>)
    requires StrictlySorted(levels, ascending)
    requires forall k :: 0 <= k < |levels| ==> levels[k].price != level.price
    ensures StrictlySorted(r, ascending)
    ensures forall l :: l in r <==> l == level || l in levels
  {
    if levels == [] then [level]
    else if Ahead(ascending, level.price, levels[0].price) then [level] + levels
    else
      var rest := InsertLevel(levels[1..], level, ascending);
      assert forall l :: l in levels <==> l == levels[0] || l in levels[1..];
      assert forall k :: 0 <= k < |rest| ==> Ahead(ascending, levels[0].price, rest[k].price) by {
        forall k | 0 <= k < |rest| ensures Ahead(ascending, levels[0].price, rest[k].price) {
          assert rest[k] in rest;
          if rest[k] != level {
            var j :| 0 <= j < |levels[1..]| && levels[1..][j] == rest[k];
            assert levels[j + 1] == rest[k];
          }
        }
      }
      [levels[0]] + rest
  }

  /** buildOrderBookLevels: group, then sort. The order in which the map gives up its levels does not matter. */
  method BuildOrderBookLevels(rows: seq<Row>, ascending: bool) returns (levels: seq<Level>)
    ensures IsSide(levels, rows, ascending)
  {
    var levelsByPrice := GroupByPrice(rows);
    levels := [];
    var pending := levelsByPrice.Keys;
    while pending != {}
      invariant pending <= levelsByPrice.Keys
      invariant StrictlySorted(levels, ascending)
      invariant forall k :: 0 <= k < |levels| ==>
        levels[k].price in levelsByPrice && levels[k].price !in pending && levels[k] == levelsByPrice[levels[k].price]
      invariant forall p :: p in levelsByPrice && p !in pending ==> levelsByPrice[p] in levels
      decreases pending
    {
      ghost var someone := SomeMember(pending);
      var price :| price in pending;
      levels := InsertLevel(levels, levelsByPrice[price], ascending);
      pending := pending - {price};
      assert forall k :: 0 <= k < |levels| ==> levels[k] in levels;
    }
  }

  // ---------- what a side says ----------

  function LevelQuantity(): Level -> int { (l: Level) => l.quantity }
  function LevelCount(): Level -> int { (l: Level) => l.orderCount }
  function RowQuantity(): Row -> int { (r: Row) => r.remaining }

  lemma {:induction false} SplitOff(rows: seq<Row>, levels: seq<Level>)
    requires forall a, b :: 0 <= a < b < |levels| ==> levels[a].price != levels[b].price
    requires forall k :: 0 <= k < |levels| ==> levels[k] == LevelOf(rows, levels[k].price)
    ensures SumBy(levels, LevelQuantity()) == SumBy(rows, QuantityIn(levels))
    ensures SumBy(levels, LevelCount()) == SumBy(rows, CountIn(levels))
  {
    if levels == [] {
      SumZero(rows, QuantityIn([]));
      SumZero(rows, CountIn([]));
    } else {
      var n := |levels| - 1;
      var rest, last := levels[..n], levels[n];
      SplitOff(rows, rest);
      assert levels == rest + [last];
      SumPointwise(rows, QuantityIn(rest), QuantityAt(last.price), QuantityIn(levels));
      SumPointwise(rows, CountIn(rest), CountAt(last.price), CountIn(levels));
    }
  }

  lemma {:induction false} SumZero(rows: seq<Row>, f: Row -> int)
    requires forall r :: f(r) == 0
    ensures SumBy(rows, f) == 0
  {
    if rows != [] {
      SumZero(rows[..|rows| - 1], f);
    }
  }

  predicate PriceIn(levels: seq<Level>, price: int) {
    exists k :: 0 <= k < |levels| && levels[k].price == price
  }

  function QuantityIn(levels: seq<Level>): Row -> int {
    (r: Row) => if PriceIn(levels, r.price) then r.remaining else 0
  }

  function CountIn(levels: seq<Level>): Row -> int {
    (r: Row) => if PriceIn(levels, r.price) then 1 else 0
  }

  lemma {:induction false} SumOnes(rows: seq<Row>, f: Row -> int)
    requires forall r :: r in rows ==> f(r) == 1
    ensures SumBy(rows, f) == |rows|
  {
    if rows != [] {
      SumOnes(rows[..|rows| - 1], f);
    }
  }

  /** The levels partition the orders: quantities and counts add up to those of the rows. */
  lemma LevelsPartitionRows(levels: seq<Level>, rows: seq<Row>, ascending: bool)
    requires IsSide(levels, rows, ascending)
    ensures SumBy(levels, LevelQuantity()) == SumBy(rows, RowQuantity())
    ensures SumBy(levels, LevelCount()) == |rows|
  {
    forall a, b | 0 <= a < b < |levels| ensures levels[a].price != levels[b].price {
      assert Ahead(ascending, levels[a].price, levels[b].price);
    }
    SplitOff(rows, levels);
    forall r | r in rows ensures PriceIn(levels, r.price) {
      assert LevelOf(rows, r.price) in levels;
    }
    SumCongruence(rows, QuantityIn(levels), RowQuantity());
    SumOnes(rows, CountIn(levels));
  }

  /** No price of the side is ahead of the head level. */
  lemma HeadIsBest(levels: seq<Level>, rows: seq<Row>, ascending: bool, i: nat)
    requires IsSide(levels, rows, ascending) && i < |rows|
    ensures levels != [] && !Ahead(ascending, rows[i].price, levels[0].price)
  {
    assert LevelOf(rows, rows[i].price) in levels;
    var k :| 0 <= k < |levels| && levels[k] == LevelOf(rows, rows[i].price);
    assert 0 < k ==> Ahead(ascending, levels[0].price, levels[k].price);
  }

  // ---------- the book of the exchange ----------

  predicate Shown(o: Order, pair: nat, side: Side) {
    o.pair == pair && o.side == side && Live(o) && 0 < o.remaining
  }

  ghost predicate Shows(orders: seq<Order>, pair: nat, side: Side, row: Row) {
    exists i :: 0 <= i < |orders| && Shown(orders[i], pair, side) && row == Row(orders[i].price, orders[i].remaining)
  }

  /** The rows of one side of a pair's book. */
  function SideRows(orders: seq<Order>, pair: nat, side: Side): (rows: seq<Row>)
    ensures forall k :: 0 <= k < |rows| ==> Shows(orders, pair, side, rows[k])
    ensures forall i :: 0 <= i < |orders| && Shown(orders[i], pair, side) ==>
      Row(orders[i].price, orders[i].remaining) in rows
  {
    if orders == [] then []
    else
      var n := |orders| - 1;
      var rows := SideRows(orders[..n], pair, side);
      assert forall r :: Shows(orders[..n], pair, side, r) ==> Shows(orders, pair, side, r) by {
        forall r | Shows(orders[..n], pair, side, r) ensures Shows(orders, pair, side, r) {
          var i :| 0 <= i < n && Shown(orders[..n][i], pair, side)
            && r == Row(orders[..n][i].price, orders[..n][i].remaining);
          assert Shown(orders[i], pair, side);
        }
      }
      if Shown(orders[n], pair, side) then rows + [Row(orders[n].price, orders[n].remaining)] else rows
  }

  function OrderQuantity(pair: nat, side: Side): Order -> int {
    (o: Order) => if Shown(o, pair, side) then o.remaining else 0
  }

  function OrderCount(pair: nat, side: Side): Order -> int {
    (o: Order) => if Shown(o, pair, side) then 1 else 0
  }

  function OrderQuantityAt(pair: nat, side: Side, price: int): Order -> int {
    (o: Order) => if Shown(o, pair, side) && o.price == price then o.remaining else 0
  }

  function OrderCountAt(pair: nat, side: Side, price: int): Order -> int {
    (o: Order) => if Shown(o, pair, side) && o.price == price then 1 else 0
  }

  /** The rows carry each live order of the side once. */
  lemma {:induction false} RowsCarryOrders(orders: seq<Order>, pair: nat, side: Side, price: int)
    ensures var rows := SideRows(orders, pair, side);
      && SumBy(rows, RowQuantity()) == SumBy(orders, OrderQuantity(pair, side))
      && |rows| == SumBy(orders, OrderCount(pair, side))
      && SumBy(rows, QuantityAt(price)) == SumBy(orders, OrderQuantityAt(pair, side, price))
      && SumBy(rows, CountAt(price)) == SumBy(orders, OrderCountAt(pair, side, price))
  {
    if orders != [] {
      var n := |orders| - 1;
      var rows, o := SideRows(orders[..n], pair, side), orders[n];
      RowsCarryOrders(orders[..n], pair, side, price);
      SumAppend(rows, Row(o.price, o.remaining), RowQuantity());
      SumAppend(rows, Row(o.price, o.remaining), QuantityAt(price));
      SumAppend(rows, Row(o.price, o.remaining), CountAt(price));
    }
  }

  /** The levels of a side partition the live orders of the pair: all of them together, and each level on its own. */
  lemma LevelsPartitionOrders(orders: seq<Order>, pair: nat, side: Side, levels: seq<Level>)
    requires IsSide(levels, SideRows(orders, pair, side), side == Sell)
    ensures SumBy(levels, LevelQuantity()) == SumBy(orders, OrderQuantity(pair, side))
    ensures SumBy(levels, LevelCount()) == SumBy(orders, OrderCount(pair, side))
    ensures forall k :: 0 <= k < |levels| ==>
      && levels[k].quantity == SumBy(orders, OrderQuantityAt(pair, side, levels[k].price))
      && levels[k].orderCount == SumBy(orders, OrderCountAt(pair, side, levels[k].price))
  {
    LevelsPartitionRows(levels, SideRows(orders, pair, side), side == Sell);
    RowsCarryOrders(orders, pair, side, 0);
    forall k | 0 <= k < |levels|
      ensures levels[k].quantity == SumBy(orders, OrderQuantityAt(pair, side, levels[k].price))
      ensures levels[k].orderCount == SumBy(orders, OrderCountAt(pair, side, levels[k].price))
    {
      RowsCarryOrders(orders, pair, side, levels[k].price);
    }
  }

  /** If something matches, its price is not ahead of the head level's. */
  lemma MakersAreBehindHead(s: State, incoming: Order, side: Side, levels: seq<Level>, i: nat)
    requires OrdersOk(s) && side != incoming.side
    requires IsSide(levels, SideRows(s.orders, incoming.pair, side), side == Sell)
    requires i < |s.orders| && Eligible(incoming, s.orders[i])
    ensures levels != [] && !Ahead(side == Sell, s.orders[i].price, levels[0].price)
  {
    var o := s.orders[i];
    assert OrderOk(s.pairs, o);
    RowIsBehindHead(levels, SideRows(s.orders, incoming.pair, side), side == Sell, Row(o.price, o.remaining));
  }

  /** No maker's price is ahead of the first maker's. */
  lemma FirstMakerIsBest(s: State, incoming: Order, i: nat)
    requires i < |s.orders| && Eligible(incoming, s.orders[i])
    ensures var makers := OppositeOpenOrders(s.orders, incoming);
      && makers != [] && makers[0] < |s.orders| && Eligible(incoming, s.orders[makers[0]])
      && !Ahead(incoming.side == Buy, s.orders[i].price, s.orders[makers[0]].price)
  {
    var makers := OppositeOpenOrders(s.orders, incoming);
    assert i in makers;
    assert makers[0] in makers;
    var k :| 0 <= k < |makers| && makers[k] == i;
    assert 0 < k ==> Precedes(s.orders, incoming.side, makers[0], makers[k]);
  }

  lemma NoEligibleNoMakers(s: State, incoming: Order)
    requires OppositeOpenOrders(s.orders, incoming) != []
    ensures var makers := OppositeOpenOrders(s.orders, incoming);
      makers[0] < |s.orders| && Eligible(incoming, s.orders[makers[0]])
  {
    var makers := OppositeOpenOrders(s.orders, incoming);
    assert makers[0] in makers;
  }

  /**
   * The book agrees with the engine: an incoming order whose user has no orders on the opposite side matches
   * something exactly when the head level is acceptable to it, and trades first at the head level's price.
   */
  lemma HeadLevelIsFirstMaker(s: State, incoming: Order, side: Side, levels: seq<Level>)
    requires OrdersOk(s) && side != incoming.side
    requires IsSide(levels, SideRows(s.orders, incoming.pair, side), side == Sell)
    requires forall i :: 0 <= i < |s.orders| && Shown(s.orders[i], incoming.pair, side) ==>
      s.orders[i].user != incoming.user
    ensures var makers := OppositeOpenOrders(s.orders, incoming);
      && (makers != [] <==> levels != [] && Acceptable(incoming.side, incoming.price, levels[0].price))
      && (makers != [] ==> makers[0] < |s.orders| && levels != [] && s.orders[makers[0]].price == levels[0].price)
  {
    var makers := OppositeOpenOrders(s.orders, incoming);
    if makers != [] {
      NoEligibleNoMakers(s, incoming);
      MakersAreBehindHead(s, incoming, side, levels, makers[0]);
    }
    if levels != [] && Acceptable(incoming.side, incoming.price, levels[0].price) {
      HeadLevelHasAnOrder(s, incoming.pair, side, levels);
      var i :| 0 <= i < |s.orders| && Shown(s.orders[i], incoming.pair, side) && s.orders[i].price == levels[0].price;
      FirstMakerIsBest(s, incoming, i);
    }
  }

  lemma RowIsBehindHead(levels: seq<Level>, rows: seq<Row>, ascending: bool, r: Row)
    requires IsSide(levels, rows, ascending) && r in rows
    ensures levels != [] && !Ahead(ascending, r.price, levels[0].price)
  {
    var i :| 0 <= i < |rows| && rows[i] == r;
    HeadIsBest(levels, rows, ascending, i);
  }

  lemma HeadLevelHasAnOrder(s: State, pair: nat, side: Side, levels: seq<Level>)
    requires IsSide(levels, SideRows(s.orders, pair, side), side == Sell) && levels != []
    ensures exists i :: 0 <= i < |s.orders| && Shown(s.orders[i], pair, side) && s.orders[i].price == levels[0].price
  {
    var rows := SideRows(s.orders, pair, side);
    assert HasPrice(rows, levels[0].price);
    var k :| 0 <= k < |rows| && rows[k].price == levels[0].price;
  }

  /**
   * The spread of an uncrossed book is positive, unless one single user owns every order at the best bid and
   * every order at the best ask.
   */
  lemma NonPositiveSpreadIsOneUser(s: State, pair: nat, bids: seq<Level>, asks: seq<Level>, i: nat, j: nat)
    requires Uncrossed(s)
    requires IsSide(bids, SideRows(s.orders, pair, Buy), false) && IsSide(asks, SideRows(s.orders, pair, Sell), true)
    requires bids != [] && asks != [] && asks[0].price - bids[0].price <= 0
    requires i < |s.orders| && Shown(s.orders[i], pair, Buy) && s.orders[i].price == bids[0].price
    requires j < |s.orders| && Shown(s.orders[j], pair, Sell) && s.orders[j].price == asks[0].price
    ensures s.orders[i].user == s.orders[j].user
  {
    assert !Crosses(s, i, j);
  }
}
