/**
 * What a client sees of its requests: when an order is placed or cancelled, for whom, once or not at all, and what
 * that does to rows and balances.
 */
module ExchangeRequests {
  import opened Ledger
  import opened Orders
  import opened Exchange
  import opened ExchangeInvariant
  import opened ExchangeSteps
  import opened ExchangeMatchStep
  import opened ExchangeTheorems

  // ---------- one order for each request key ----------

  /** A well-formed request whose key some order carries. */
  predicate IsRepeat(s: State, r: PlaceRequest) {
    && r.limit && 0 <= r.price && 0 <= r.quantity
    && exists i :: 0 <= i < |s.orders| && s.orders[i].requestKey == r.requestKey
  }

  /** Such a request is answered with that order, whatever else it asks for, and changes nothing. */
  lemma RepeatedPlaceChangesNothing(s: State, r: PlaceRequest)
    requires IsRepeat(s, r)
    ensures var (s', outcome) := PlaceOrder(s, r);
      && s' == s && outcome.AlreadyPlaced?
      && outcome.id < |s.orders| && s.orders[outcome.id].requestKey == r.requestKey
  {
    assert HasRequestKey(s.orders, r.requestKey);
  }

  ghost predicate DistinctRequestKeys(orders: seq<Order>) {
    forall i, j :: 0 <= i < j < |orders| ==> orders[i].requestKey != orders[j].requestKey
  }

  /** Rows keep their request keys, and at most one row is added, under a key that no row had. */
  ghost predicate KeysGrow(orders: seq<Order>, orders': seq<Order>) {
    && |orders| <= |orders'| <= |orders| + 1
    && (forall i :: 0 <= i < |orders| ==> orders'[i].requestKey == orders[i].requestKey)
    && (forall i :: 0 <= i < |orders| < |orders'| ==> orders'[|orders|].requestKey != orders[i].requestKey)
  }

  lemma PlaceGrowsKeys(s: State, r: PlaceRequest)
    ensures KeysGrow(s.orders, PlaceOrder(s, r).0.orders)
  {
    if PlaceOrder(s, r).1.Placed? {
      assert !HasRequestKey(s.orders, r.requestKey);
    }
  }

  lemma ExecuteKeepsKeys(s: State, taker: nat, maker: nat)
    requires taker < |s.orders| && maker < |s.orders|
    ensures KeysGrow(s.orders, ExecuteMatch(s, taker, maker).0.orders)
  {
  }

  lemma StepGrowsKeys(s: State, step: Step)
    ensures KeysGrow(s.orders, Apply(s, step).orders)
  {
    if step.PlaceStep? {
      PlaceGrowsKeys(s, step.request);
    } else if step.MatchStep? && step.taker < |s.orders| && Live(s.orders[step.taker]) {
      var makers := OppositeOpenOrders(s.orders, s.orders[step.taker]);
      if makers != [] {
        assert makers[0] in makers;
        ExecuteKeepsKeys(s, step.taker, makers[0]);
      }
    }
  }

  /** Over every run no two orders carry one request key: a request is placed once, however often it is sent. */
  lemma {:induction false} RequestsArePlacedOnce(pairs: seq<Pair>, steps: seq<Step>)
    ensures DistinctRequestKeys(Run(pairs, steps).orders)
  {
    if steps != [] {
      RequestsArePlacedOnce(pairs, steps[..|steps| - 1]);
      StepGrowsKeys(Run(pairs, steps[..|steps| - 1]), steps[|steps| - 1]);
    }
  }

  // ---------- placing ----------

  /** The asset and the amount that an order locks: quote value for a BUY, base quantity for a SELL. */
  function LockedFor(pair: Pair, r: PlaceRequest): (Asset, int) {
    if r.side == Buy then (pair.quote, r.price * r.quantity) else (pair.base, r.quantity)
  }

  /** Everything an order has to meet to be placed, in terms of the request, the pair, the book and the wallet. */
  lemma PlacedIff(s: State, r: PlaceRequest)
    requires Inv(s)
    ensures PlaceOrder(s, r).1.Placed? <==>
      && r.limit && 0 <= r.price && 0 <= r.quantity
      && (forall i :: 0 <= i < |s.orders| ==> s.orders[i].requestKey != r.requestKey)
      && r.pair < |s.pairs| && r.available
      && s.pairs[r.pair].minBase <= r.quantity && s.pairs[r.pair].minQuote <= r.price * r.quantity
      && var (asset, amount) := LockedFor(s.pairs[r.pair], r);
         0 < amount <= Balance(s.ledger, UserAccount(r.user, asset, Available))
  {
    if PlaceChecks(s, r).Success? {
      PlaceAcceptedIff(s, r);
    }
    assert HasRequestKey(s.orders, r.requestKey) <==>
      exists i :: 0 <= i < |s.orders| && s.orders[i].requestKey == r.requestKey;
  }

  /** A refused request is told what is really wrong with it; one that the ledger refuses lacks the funds. */
  lemma PlaceRefusalsAreTrue(s: State, r: PlaceRequest)
    requires Inv(s) && PlaceOrder(s, r).1.PlaceRefused?
    ensures match PlaceOrder(s, r).1.error
      case OnlyLimitOrders => !r.limit
      case PriceNotPositive => r.price < 0
      case QuantityNotPositive => r.quantity < 0
      case PairNotAvailable => |s.pairs| <= r.pair || !r.available
      case BelowMinBase => r.pair < |s.pairs| && r.quantity < s.pairs[r.pair].minBase
      case BelowMinQuote => r.pair < |s.pairs| && r.price * r.quantity < s.pairs[r.pair].minQuote
      case LedgerRefused(_) =>
        && r.pair < |s.pairs|
        && var (asset, amount) := LockedFor(s.pairs[r.pair], r);
           amount <= 0 || Balance(s.ledger, UserAccount(r.user, asset, Available)) < amount
      case _ => false
  {
    PlacedIff(s, r);
    if PlaceChecks(s, r).Success? {
      assert !HasRequestKey(s.orders, r.requestKey);
    }
  }

  /** Nothing but the opening of wallet accounts: all rows and all balances as they were. */
  ghost predicate OnlyOpens(s: State, s': State) {
    && s'.pairs == s.pairs && s'.orders == s.orders && s'.trades == s.trades && s'.outbox == s.outbox
    && s'.deposits == s.deposits && s'.withdrawals == s.withdrawals
    && s'.ledger.transactions == s.ledger.transactions
    && forall a :: Balance(s'.ledger, a) == Balance(s.ledger, a)
  }

  /** Only these two accounts of a user change: `amount` goes from one to the other. */
  ghost predicate Moves(s: State, s': State, user: User, asset: Asset, amount: int,
                        from: AccountKind, to: AccountKind)
  {
    forall a :: Balance(s'.ledger, a) == Balance(s.ledger, a)
      + (if a == UserAccount(user, asset, to) then amount else 0)
      - (if a == UserAccount(user, asset, from) then amount else 0)
  }

  /**
   * A placed order is one new row with the terms of its request, nothing of it filled, and its lock has moved from
   * AVAILABLE to LOCKED. A request that is not placed changes no row and no balance.
   */
  lemma PlaceEffect(s: State, r: PlaceRequest)
    requires Inv(s)
    ensures var (s', outcome) := PlaceOrder(s, r);
      if outcome.Placed? then
        && outcome.id == |s.orders| && |s'.orders| == |s.orders| + 1 && s'.orders[..|s.orders|] == s.orders
        && r.pair < |s.pairs|
        && (var o := s'.orders[|s.orders|];
            && o.user == r.user && o.pair == r.pair && o.side == r.side && o.price == r.price
            && o.original == o.remaining == r.quantity && o.filled == 0 && o.status == OrderStatus.Open
            && o.createdAt == r.createdAt && o.requestKey == r.requestKey)
        && s'.trades == s.trades && s'.deposits == s.deposits && s'.withdrawals == s.withdrawals
        && (var (asset, amount) := LockedFor(s.pairs[r.pair], r);
            Moves(s, s', r.user, asset, amount, Available, Locked))
      else OnlyOpens(s, s')
  {
    if PlaceChecks(s, r).Success? {
      var o := NewOrder(s.pairs[r.pair], r);
      PlaceRows(s, r);
      if PlaceOrder(s, r).1.Placed? {
        LockMoves(s, PlaceOrder(s, r).0, o);
      } else {
        OpeningMovesNothing(s, o.user, o.lockedAsset);
      }
    }
  }

  lemma PlaceRows(s: State, r: PlaceRequest)
    requires Inv(s) && PlaceChecks(s, r).Success?
    ensures var o := NewOrder(s.pairs[r.pair], r); var (s', outcome) := PlaceOrder(s, r);
      if outcome.Placed? then outcome.id == |s.orders| && Placement(ReadyToPlace(s, o), s', o)
      else s' == ReadyToPlace(s, o)
  {
    PlaceCases(s, r);
  }

  lemma OpeningMovesNothing(s: State, user: User, asset: Asset)
    requires Sound(s.ledger)
    ensures OnlyOpens(s, s.(ledger := OpenUserAccounts(s.ledger, user, asset)))
  {
    OpenUserKeepsSound(s.ledger, user, asset);
  }

  lemma LockMoves(s: State, s': State, o: Order)
    requires Sound(s.ledger) && Placement(ReadyToPlace(s, o), s', o)
    ensures Moves(s, s', o.user, o.lockedAsset, o.locked, Available, Locked)
  {
    OpeningMovesNothing(s, o.user, o.lockedAsset);
    TransferTotals(UserAccount(o.user, o.lockedAsset, Available), UserAccount(o.user, o.lockedAsset, Locked),
                   o.lockedAsset, o.locked);
  }

  // ---------- cancelling ----------

  /** Nobody but the owner cancels an order; to anybody else it does not exist. */
  lemma StrangersCannotCancel(s: State, user: User, id: nat)
    requires id < |s.orders| ==> s.orders[id].user != user
    ensures CancelOrder(s, user, id) == (s, CancelRefused(OrderNotFound))
  {
  }

  /** An order that is no longer live is not cancelled again. */
  lemma DeadOrdersStayDead(s: State, user: User, id: nat)
    requires id < |s.orders| && s.orders[id].user == user
    requires s.orders[id].status != OrderStatus.Open && s.orders[id].status != OrderStatus.PartiallyFilled
    ensures CancelOrder(s, user, id) == (s, CancelRefused(NotCancellable))
  {
  }

  /** What is still locked for a live order: its price times what remains for a BUY, what remains for a SELL. */
  function StillLockedFor(o: Order): int {
    if o.side == Buy then o.price * o.remaining else o.remaining
  }

  /** A cancel is accepted exactly when it comes from the owner and is for a live order whose lock is there. */
  lemma CancelledIff(s: State, user: User, id: nat)
    requires Inv(s)
    ensures CancelOrder(s, user, id).1.CancelledOrder? <==>
      && id < |s.orders| && s.orders[id].user == user
      && (s.orders[id].status == OrderStatus.Open || s.orders[id].status == OrderStatus.PartiallyFilled)
      && StillLockedFor(s.orders[id]) <= Balance(s.ledger, UserAccount(user, s.orders[id].lockedAsset, Locked))
  {
    if id < |s.orders| && s.orders[id].user == user && Live(s.orders[id]) {
      CancelReleasesIff(s, id);
    }
  }

  /**
   * An accepted cancel marks that order and no other, and what was still locked for it goes back to its owner's
   * AVAILABLE. A refused cancel changes no row and no balance.
   */
  lemma CancelEffect(s: State, user: User, id: nat)
    requires Inv(s)
    ensures var (s', outcome) := CancelOrder(s, user, id);
      if outcome.CancelledOrder? then
        && id < |s.orders| == |s'.orders|
        && outcome.released == StillLockedFor(s.orders[id])
        && s'.orders[id].status == OrderStatus.Cancelled && SameTerms(s.orders[id], s'.orders[id])
        && s'.orders[id].remaining == s.orders[id].remaining
        && (forall i :: 0 <= i < |s.orders| && i != id ==> s'.orders[i] == s.orders[i])
        && s'.trades == s.trades && s'.deposits == s.deposits && s'.withdrawals == s.withdrawals
        && Moves(s, s', user, s.orders[id].lockedAsset, StillLockedFor(s.orders[id]), Locked, Available)
      else OnlyOpens(s, s')
  {
    if CancelChecks(s, user, id).Success? {
      CancelRows(s, user, id);
      if CancelOrder(s, user, id).1.CancelledOrder? {
        ReleaseMoves(s, CancelOrder(s, user, id).0, id);
      } else {
        OpeningMovesNothing(s, user, s.orders[id].lockedAsset);
      }
    }
  }

  /** A refused cancel is told why: no such order of that user, one that is not live, or a lock that is not there. */
  lemma CancelRefusalsAreTrue(s: State, user: User, id: nat)
    requires Inv(s) && CancelOrder(s, user, id).1.CancelRefused?
    ensures match CancelOrder(s, user, id).1.error
      case OrderNotFound => |s.orders| <= id || s.orders[id].user != user
      case NotCancellable => id < |s.orders| && !Live(s.orders[id])
      case LedgerRefused(_) =>
        && id < |s.orders| && Live(s.orders[id])
        && Balance(s.ledger, UserAccount(user, s.orders[id].lockedAsset, Locked)) < StillLockedFor(s.orders[id])
      case _ => false
  {
    CancelledIff(s, user, id);
    if id < |s.orders| && s.orders[id].user == user && Live(s.orders[id]) {
      assert OrderOk(s.pairs, s.orders[id]);
      ReleaseIsTheNeed(s.pairs, s.orders[id]);
    }
  }

  lemma CancelRows(s: State, user: User, id: nat)
    requires Inv(s) && CancelChecks(s, user, id).Success?
    ensures id < |s.orders| && Live(s.orders[id]) && s.orders[id].user == user
    ensures var o := s.orders[id]; var ready := ReadyToCancel(s, user, o.lockedAsset);
      var (s', outcome) := CancelOrder(s, user, id);
      if outcome.CancelledOrder? then outcome.released == LockNeed(o) && Cancellation(ready, s', id)
      else s' == ready
  {
    CancelCases(s, user, id);
  }

  lemma ReleaseMoves(s: State, s': State, id: nat)
    requires Sound(s.ledger) && id < |s.orders|
    requires var o := s.orders[id]; Cancellation(ReadyToCancel(s, o.user, o.lockedAsset), s', id)
    ensures var o := s.orders[id]; Moves(s, s', o.user, o.lockedAsset, StillLockedFor(o), Locked, Available)
  {
    var o := s.orders[id];
    OpeningMovesNothing(s, o.user, o.lockedAsset);
    TransferTotals(UserAccount(o.user, o.lockedAsset, Locked), UserAccount(o.user, o.lockedAsset, Available),
                   o.lockedAsset, StillLockedFor(o));
  }
}
