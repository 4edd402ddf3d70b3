/**
 * The money core of the exchange as one state machine: wallet ledger, orders that lock funds, the matching
 * engine that settles through the ledger, cancellation, deposits and withdrawals.
 */
module Exchange {
  import opened Ledger
  import opened Orders

  datatype Pair = Pair(base: Asset, quote: Asset, minBase: int, minQuote: int)

  /** A trade row; its id is its index. `(taker, maker)` is the content of its unique idempotency key. */
  datatype Trade = Trade(
    pair: nat, base: Asset, quote: Asset, maker: nat, taker: nat, buyer: User, seller: User,
    price: int, quantity: int, quoteAmount: int, makerSide: Side, takerSide: Side)

  /** A `trade.executed` row of the outbox, keyed by the trade's id. */
  datatype OutboxRow = OutboxRow(trade: nat, payload: Trade)

  /** A crypto or fiat deposit; both are credited against the main custody account. */
  datatype DepositRow = DepositRow(user: User, asset: Asset, amount: int, fiat: bool, credited: bool)

  /** A withdrawal, with the postings its lock and its unlock have made so far. */
  datatype WithdrawalRow = WithdrawalRow(user: User, asset: Asset, total: int, locked: bool, unlocked: bool)

  datatype State = State(
    pairs: seq<Pair>, ledger: LedgerState, orders: seq<Order>, trades: seq<Trade>, outbox: seq<OutboxRow>,
    deposits: seq<DepositRow>, withdrawals: seq<WithdrawalRow>)

  function Empty(pairs: seq<Pair>): State {
    State(pairs, EmptyLedger, [], [], [], [], [])
  }

  datatype ExchangeError =
    | OnlyLimitOrders | PriceNotPositive | QuantityNotPositive | PairNotAvailable
    | BelowMinBase | BelowMinQuote
    | OrderNotFound | NotCancellable | OverConsumed | NothingLocked
    | FillFailed(fill: FillError) | DuplicateTrade
    | LedgerRefused(ledger: LedgerError)

  /** A create request after normalisation. `available` is whether pair and assets are active just now. */
  datatype PlaceRequest = PlaceRequest(
    user: User, pair: nat, side: Side, price: int, quantity: int, limit: bool, available: bool,
    createdAt: int, requestKey: string)

  // ---------- the entries each operation posts ----------

  function LockEntries(user: User, asset: Asset, amount: int): seq<Entry> {
    [Entry(UserAccount(user, asset, Available), asset, -amount),
     Entry(UserAccount(user, asset, Locked), asset, amount)]
  }

  function UnlockEntries(user: User, asset: Asset, amount: int): seq<Entry> {
    [Entry(UserAccount(user, asset, Locked), asset, -amount),
     Entry(UserAccount(user, asset, Available), asset, amount)]
  }

  function CreditEntries(user: User, asset: Asset, amount: int): seq<Entry> {
    [Entry(MainCustody(asset), asset, -amount),
     Entry(UserAccount(user, asset, Available), asset, amount)]
  }

  /** Base leaves the seller's lock for the buyer, quote leaves the buyer's lock for the seller. */
  function SettlementEntries(t: Trade): seq<Entry> {
    [Entry(UserAccount(t.seller, t.base, Locked), t.base, -t.quantity),
     Entry(UserAccount(t.buyer, t.base, Available), t.base, t.quantity),
     Entry(UserAccount(t.buyer, t.quote, Locked), t.quote, -t.quoteAmount),
     Entry(UserAccount(t.seller, t.quote, Available), t.quote, t.quoteAmount)]
  }

  // ---------- placing an order ----------

  predicate HasRequestKey(orders: seq<Order>, key: string) {
    exists i :: 0 <= i < |orders| && orders[i].requestKey == key
  }

  function FindRequest(orders: seq<Order>, key: string): (id: nat)
    requires HasRequestKey(orders, key)
    ensures id < |orders| && orders[id].requestKey == key
  {
    var last := |orders| - 1;
    if orders[last].requestKey == key then last else FindRequest(orders[..last], key)
  }

  function NewOrder(pair: Pair, r: PlaceRequest): Order {
    Order(r.user, r.pair, pair.base, pair.quote, r.side, r.price, r.quantity, 0, r.quantity,
          if r.side == Buy then pair.quote else pair.base,
          OrderLockAmount(r.side, r.price, r.quantity), 0, OrderStatus.Open, r.createdAt, r.requestKey)
  }

  datatype PlaceOutcome = Placed(id: nat) | AlreadyPlaced(id: nat) | PlaceRefused(error: ExchangeError)

  /** The checks made before any row is written; an order with the request's key answers first. */
  function PlaceChecks(s: State, r: PlaceRequest): Result<(), PlaceOutcome> {
    if !r.limit then Failure(PlaceRefused(OnlyLimitOrders))
    else if r.price < 0 then Failure(PlaceRefused(PriceNotPositive))
    else if r.quantity < 0 then Failure(PlaceRefused(QuantityNotPositive))
    else if HasRequestKey(s.orders, r.requestKey) then Failure(AlreadyPlaced(FindRequest(s.orders, r.requestKey)))
    else if |s.pairs| <= r.pair || !r.available then Failure(PlaceRefused(PairNotAvailable))
    else if r.quantity < s.pairs[r.pair].minBase then Failure(PlaceRefused(BelowMinBase))
    else if r.price * r.quantity < s.pairs[r.pair].minQuote then Failure(PlaceRefused(BelowMinQuote))
    else Success(())
  }

  /** Order row and lock posting, written together. */
  ghost function CommitPlace(s: State, o: Order): State {
    s.(ledger := AfterPost(s.ledger, FundsLock, OrderLock(|s.orders|), LockEntries(o.user, o.lockedAsset, o.locked)),
       orders := s.orders + [o])
  }

  /** Order row and lock posting are one database transaction; the wallet upserts before it stay. */
  ghost function PlaceOrder(s: State, r: PlaceRequest): (State, PlaceOutcome) {
    var checks := PlaceChecks(s, r);
    if checks.Failure? then (s, checks.error)
    else
      var o := NewOrder(s.pairs[r.pair], r);
      var ready := s.(ledger := OpenUserAccounts(s.ledger, o.user, o.lockedAsset));
      var post := PostOutcome(ready.ledger, FundsLock, OrderLock(|s.orders|),
                              LockEntries(o.user, o.lockedAsset, o.locked));
      if post.Refused? then (ready, PlaceRefused(LedgerRefused(post.error)))
      else (CommitPlace(ready, o), Placed(|s.orders|))
  }

  // ---------- one match ----------

  predicate HasTradeKey(trades: seq<Trade>, taker: nat, maker: nat) {
    exists j :: 0 <= j < |trades| && trades[j].taker == taker && trades[j].maker == maker
  }

  /** The trade at the maker's price. */
  function TradeOf(incoming: Order, taker: nat, opposite: Order, maker: nat, quantity: int): Trade {
    Trade(incoming.pair, incoming.base, incoming.quote, maker, taker,
          if incoming.side == Buy then incoming.user else opposite.user,
          if incoming.side == Buy then opposite.user else incoming.user,
          opposite.price, quantity, opposite.price * quantity, opposite.side, incoming.side)
  }

  function OpenSettlementAccounts(ledger: LedgerState, t: Trade): LedgerState {
    OpenUserAccounts(
      OpenUserAccounts(
        OpenUserAccounts(
          OpenUserAccounts(ledger, t.buyer, t.base), t.buyer, t.quote), t.seller, t.base), t.seller, t.quote)
  }

  /** The keyed no-op upsert of an outbox row. */
  function AddOutboxRow(outbox: seq<OutboxRow>, row: OutboxRow): seq<OutboxRow> {
    if exists k :: 0 <= k < |outbox| && outbox[k].trade == row.trade then outbox else outbox + [row]
  }

  datatype MatchOutcome = Executed(trade: Trade) | MatchRefused(error: ExchangeError)

  /** Trade row, settlement, both order rows and the outbox row, written together. */
  ghost function CommitMatch(s: State, t: Trade): State
    requires t.taker < |s.orders| && t.maker < |s.orders|
    requires 0 <= t.quantity <= s.orders[t.taker].remaining && t.quantity <= s.orders[t.maker].remaining
  {
    var id := |s.trades|;
    s.(ledger := AfterPost(s.ledger, TradeSettlementPosting, TradeSettlement(id), SettlementEntries(t)),
       orders := s.orders[t.taker := OrderFillUpdate(s.orders[t.taker], t.quantity).value]
                         [t.maker := OrderFillUpdate(s.orders[t.maker], t.quantity).value],
       trades := s.trades + [t],
       outbox := AddOutboxRow(s.outbox, OutboxRow(id, t)))
  }

  /** A match is one database transaction; the wallet upserts before it stay. */
  ghost function ExecuteMatch(s: State, taker: nat, maker: nat): (State, MatchOutcome)
    requires taker < |s.orders| && maker < |s.orders|
  {
    var fill := FillQuantity(s.orders[taker], s.orders[maker]);
    if fill.Failure? then (s, MatchRefused(FillFailed(fill.error)))
    else
      var t := TradeOf(s.orders[taker], taker, s.orders[maker], maker, fill.value);
      var ready := s.(ledger := OpenSettlementAccounts(s.ledger, t));
      var post := PostOutcome(ready.ledger, TradeSettlementPosting, TradeSettlement(|s.trades|), SettlementEntries(t));
      if HasTradeKey(s.trades, taker, maker) then (ready, MatchRefused(DuplicateTrade))
      else if post.Refused? then (ready, MatchRefused(LedgerRefused(post.error)))
      else (CommitMatch(ready, t), Executed(t))
  }

  /** One iteration of the matching loop for a live order: trade with the head of the query, if any. */
  ghost function MatchHead(s: State, taker: nat): State
    requires taker < |s.orders|
  {
    var makers := OppositeOpenOrders(s.orders, s.orders[taker]);
    if makers == [] then s
    else
      assert makers[0] in makers;
      ExecuteMatch(s, taker, makers[0]).0
  }

  // ---------- cancelling ----------

  datatype CancelOutcome = CancelledOrder(released: int) | CancelRefused(error: ExchangeError)

  function CancelChecks(s: State, user: User, id: nat): Result<int, ExchangeError> {
    if |s.orders| <= id || s.orders[id].user != user then Failure(OrderNotFound)
    else if !Live(s.orders[id]) then Failure(NotCancellable)
    else
      var amount := RemainingLockedAmount(s.orders[id]);
      if amount.Failure? then Failure(OverConsumed)
      else if amount.value <= 0 then Failure(NothingLocked)
      else Success(amount.value)
  }

  /** Unlock posting and order row, written together. */
  ghost function CommitCancel(s: State, id: nat, amount: int): State
    requires id < |s.orders|
  {
    var o := s.orders[id];
    s.(ledger := AfterPost(s.ledger, FundsUnlock, OrderCancel(id), UnlockEntries(o.user, o.lockedAsset, amount)),
       orders := s.orders[id := o.(status := OrderStatus.Cancelled, released := o.released + amount)])
  }

  ghost function CancelOrder(s: State, user: User, id: nat): (State, CancelOutcome) {
    var checks := CancelChecks(s, user, id);
    if checks.Failure? then (s, CancelRefused(checks.error))
    else
      var o, amount := s.orders[id], checks.value;
      var ready := s.(ledger := OpenUserAccounts(s.ledger, user, o.lockedAsset));
      var post := PostOutcome(ready.ledger, FundsUnlock, OrderCancel(id), UnlockEntries(user, o.lockedAsset, amount));
      if post.Refused? then (ready, CancelRefused(LedgerRefused(post.error)))
      else (CommitCancel(ready, id, amount), CancelledOrder(amount))
  }

  // ---------- money in and money on its way out ----------

  function DepositKey(s: State, id: nat): Key
    requires id < |s.deposits|
  {
    if s.deposits[id].fiat then FiatDepositCredit(id) else DepositCredit(id)
  }

  /** Crediting a deposit, possibly again: the posting is keyed by the deposit, the row is marked after it. */
  ghost function CreditDeposit(s: State, id: nat): State
    requires id < |s.deposits|
  {
    var d := s.deposits[id];
    var ready := OpenAccount(OpenUserAccounts(s.ledger, d.user, d.asset), MainCustody(d.asset));
    var entries := CreditEntries(d.user, d.asset, d.amount);
    var post := PostOutcome(ready, DepositPosting, DepositKey(s, id), entries);
    if post.Refused? then s.(ledger := ready)
    else s.(ledger := AfterPost(ready, DepositPosting, DepositKey(s, id), entries),
            deposits := s.deposits[id := d.(credited := true)])
  }

  ghost function LockWithdrawal(s: State, id: nat): State
    requires id < |s.withdrawals|
  {
    var w := s.withdrawals[id];
    var ready := OpenUserAccounts(s.ledger, w.user, w.asset);
    var entries := LockEntries(w.user, w.asset, w.total);
    var post := PostOutcome(ready, FundsLock, WithdrawalLock(id), entries);
    if post.Refused? then s.(ledger := ready)
    else s.(ledger := AfterPost(ready, FundsLock, WithdrawalLock(id), entries),
            withdrawals := s.withdrawals[id := w.(locked := true)])
  }

  /** The unlock of the fail path. It does not look whether the lock was ever posted. */
  ghost function UnlockWithdrawal(s: State, id: nat): State
    requires id < |s.withdrawals|
  {
    var w := s.withdrawals[id];
    var ready := OpenUserAccounts(s.ledger, w.user, w.asset);
    var entries := UnlockEntries(w.user, w.asset, w.total);
    var post := PostOutcome(ready, FundsUnlock, WithdrawalUnlock(id), entries);
    if post.Refused? then s.(ledger := ready)
    else s.(ledger := AfterPost(ready, FundsUnlock, WithdrawalUnlock(id), entries),
            withdrawals := s.withdrawals[id := w.(unlocked := true)])
  }

  // ---------- the machine ----------

  datatype Step =
    | PlaceStep(request: PlaceRequest)
    | MatchStep(taker: nat)
    | CancelStep(user: User, id: nat)
    | DepositStep(depositor: User, asset: Asset, amount: int, fiat: bool)
    | CreditStep(deposit: nat)
    | WithdrawStep(withdrawer: User, asset: Asset, amount: int)
    | LockStep(withdrawal: nat)
    | UnlockStep(withdrawal: nat)

  /** Steps on rows that do not exist, and amounts the services refuse as negative, change nothing. */
  ghost function Apply(s: State, step: Step): State {
    match step
    case PlaceStep(r) => PlaceOrder(s, r).0
    case MatchStep(taker) => if taker < |s.orders| && Live(s.orders[taker]) then MatchHead(s, taker) else s
    case CancelStep(user, id) => CancelOrder(s, user, id).0
    case DepositStep(user, asset, amount, fiat) =>
      if amount < 0 then s else s.(deposits := s.deposits + [DepositRow(user, asset, amount, fiat, false)])
    case CreditStep(id) => if id < |s.deposits| then CreditDeposit(s, id) else s
    case WithdrawStep(user, asset, amount) =>
      if amount < 0 then s else s.(withdrawals := s.withdrawals + [WithdrawalRow(user, asset, amount, false, false)])
    case LockStep(id) => if id < |s.withdrawals| then LockWithdrawal(s, id) else s
    case UnlockStep(id) => if id < |s.withdrawals| then UnlockWithdrawal(s, id) else s
  }

  ghost function Run(pairs: seq<Pair>, steps: seq<Step>): State {
    if steps == [] then Empty(pairs)
    else Apply(Run(pairs, steps[..|steps| - 1]), steps[|steps| - 1])
  }
}
