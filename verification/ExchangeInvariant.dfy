/** What every step of the exchange keeps. */
module ExchangeInvariant {
  import opened Sums
  import opened Ledger
  import opened Orders
  import opened Exchange

  // ---------- the parts of the invariant ----------

  /** The ledger is sound, and holds user AVAILABLE/LOCKED accounts and main custody accounts only. */
  ghost predicate LedgerOk(s: State) {
    && Sound(s.ledger)
    && forall a :: a in s.ledger.accounts ==> KnownAccount(a)
  }

  predicate KnownAccount(a: Account) {
    match a
    case UserAccount(_, _, kind) => kind == Available || kind == Locked
    case SystemAccount(_, asset, _) => a == MainCustody(asset)
  }

  /** One order row on its own: quantities add up, the lock follows the lock rule, the status is earned. */
  ghost predicate OrderOk(pairs: seq<Pair>, o: Order) {
    && o.pair < |pairs| && o.base == pairs[o.pair].base && o.quote == pairs[o.pair].quote
    && pairs[o.pair].minQuote <= o.price * o.original
    && 0 <= o.price && 0 < o.original && 0 <= o.filled && 0 <= o.remaining
    && o.filled + o.remaining == o.original
    && o.lockedAsset == (if o.side == Buy then o.quote else o.base)
    && o.locked == OrderLockAmount(o.side, o.price, o.original) && 0 < o.locked
    && match o.status
       case Open => o.filled == 0 && o.released == 0
       case PartiallyFilled => 0 < o.filled && 0 < o.remaining && o.released == 0
       case Filled => o.remaining == 0 && o.released == 0
       case Cancelled => 0 < o.remaining && o.released == OrderLockAmount(o.side, o.price, o.remaining)
       case Rejected => false
       case Expired => false
  }

  function FillsOf(id: nat): Trade -> int {
    (t: Trade) => if t.maker == id || t.taker == id then t.quantity else 0
  }

  /** Everything the trades filled of one order. */
  function FilledByTrades(trades: seq<Trade>, id: nat): int {
    SumBy(trades, FillsOf(id))
  }

  ghost predicate OrdersOk(s: State) {
    forall i :: 0 <= i < |s.orders| ==>
      OrderOk(s.pairs, s.orders[i]) && s.orders[i].filled == FilledByTrades(s.trades, i)
  }

  /** One trade row against the two orders it names; at least one of them was exhausted by it. */
  ghost predicate TradeOk(orders: seq<Order>, t: Trade) {
    && t.maker < |orders| && t.taker < |orders| && t.maker != t.taker
    && var m, k := orders[t.maker], orders[t.taker];
    && m.pair == k.pair == t.pair
    && t.base == k.base && t.quote == k.quote
    && t.makerSide == m.side && t.takerSide == k.side && m.side != k.side
    && m.user != k.user
    && t.buyer == (if k.side == Buy then k.user else m.user)
    && t.seller == (if k.side == Buy then m.user else k.user)
    && t.price == m.price && Acceptable(k.side, k.price, t.price)
    && 0 < t.quantity && t.quoteAmount == t.price * t.quantity
    && (m.remaining == 0 || k.remaining == 0)
  }

  /** No two trades carry the same (taker, maker) key. */
  ghost predicate UniqueTradeKeys(trades: seq<Trade>) {
    forall i, j :: 0 <= i < j < |trades| ==> trades[i].taker != trades[j].taker || trades[i].maker != trades[j].maker
  }

  ghost predicate TradesOk(s: State) {
    && (forall j :: 0 <= j < |s.trades| ==> TradeOk(s.orders, s.trades[j]))
    && UniqueTradeKeys(s.trades)
  }

  /** Exactly one `trade.executed` row for each trade. */
  ghost predicate OutboxOk(s: State) {
    && |s.outbox| == |s.trades|
    && forall j :: 0 <= j < |s.trades| ==> s.outbox[j] == OutboxRow(j, s.trades[j])
  }

  /** Every posting in the ledger belongs to a row that is in the state the posting says. */
  ghost predicate Explained(s: State, tx: Transaction) {
    match tx.key
    case MissingKey => false
    case OrderLock(i) => i < |s.orders|
    case OrderCancel(i) => i < |s.orders| && s.orders[i].status == OrderStatus.Cancelled
    case TradeSettlement(j) => j < |s.trades| && tx.entries == SettlementEntries(s.trades[j])
    case DepositCredit(i) => i < |s.deposits| && s.deposits[i].credited && !s.deposits[i].fiat
    case FiatDepositCredit(i) => i < |s.deposits| && s.deposits[i].credited && s.deposits[i].fiat
    case WithdrawalLock(i) => i < |s.withdrawals| && s.withdrawals[i].locked
    case WithdrawalUnlock(i) => i < |s.withdrawals| && s.withdrawals[i].unlocked
  }

  /** Postings and rows agree in both directions. */
  ghost predicate KeysOk(s: State) {
    && (forall k :: 0 <= k < |s.ledger.transactions| ==> Explained(s, s.ledger.transactions[k]))
    && (forall j :: 0 <= j < |s.trades| ==> HasKey(s.ledger.transactions, TradeSettlement(j)))
    && (forall i :: 0 <= i < |s.deposits| && s.deposits[i].credited ==>
          HasKey(s.ledger.transactions, DepositKey(s, i)))
    && (forall i :: 0 <= i < |s.withdrawals| && s.withdrawals[i].locked ==>
          HasKey(s.ledger.transactions, WithdrawalLock(i)))
    && (forall i :: 0 <= i < |s.withdrawals| && s.withdrawals[i].unlocked ==>
          HasKey(s.ledger.transactions, WithdrawalUnlock(i)))
  }

  // What a user's LOCKED balance consists of.

  function NeedOf(u: User, a: Asset): Order -> int {
    (o: Order) => if o.user == u && o.lockedAsset == a then LockNeed(o) else 0
  }

  /** What a BUY taker's fill below its limit leaves behind in LOCKED. */
  function ImprovementOf(orders: seq<Order>, u: User, a: Asset): Trade -> int {
    (t: Trade) =>
      if t.takerSide == Buy && t.buyer == u && t.quote == a && t.taker < |orders|
      then (orders[t.taker].price - t.price) * t.quantity else 0
  }

  function HeldOf(u: User, a: Asset): WithdrawalRow -> int {
    (w: WithdrawalRow) =>
      if w.user == u && w.asset == a
      then (if w.locked then w.total else 0) - (if w.unlocked then w.total else 0) else 0
  }

  function OrderLocks(s: State, u: User, a: Asset): int { SumBy(s.orders, NeedOf(u, a)) }
  function Improvements(s: State, u: User, a: Asset): int { SumBy(s.trades, ImprovementOf(s.orders, u, a)) }
  function WithdrawalHolds(s: State, u: User, a: Asset): int { SumBy(s.withdrawals, HeldOf(u, a)) }

  function LockedTarget(s: State, u: User, a: Asset): int {
    OrderLocks(s, u, a) + Improvements(s, u, a) + WithdrawalHolds(s, u, a)
  }

  function LockedBalance(s: State, u: User, a: Asset): int {
    Balance(s.ledger, UserAccount(u, a, Locked))
  }

  /** Lock accounting, exact: every LOCKED balance is its live orders' needs, its improvements and its holds. */
  ghost predicate FundsOk(s: State) {
    forall u, a :: LockedBalance(s, u, a) == LockedTarget(s, u, a)
  }

  function CreditedOf(a: Asset): DepositRow -> int {
    (d: DepositRow) => if d.credited && d.asset == a then d.amount else 0
  }

  /** The summed amounts of the distinct credited deposits of an asset. */
  function CreditedDeposits(s: State, a: Asset): int { SumBy(s.deposits, CreditedOf(a)) }

  ghost predicate CustodyOk(s: State) {
    forall a :: Balance(s.ledger, MainCustody(a)) == -CreditedDeposits(s, a)
  }

  ghost predicate RowsOk(s: State) {
    && (forall i :: 0 <= i < |s.deposits| ==> 0 <= s.deposits[i].amount)
    && (forall i :: 0 <= i < |s.withdrawals| ==> 0 <= s.withdrawals[i].total)
  }

  ghost predicate Inv(s: State) {
    LedgerOk(s) && OrdersOk(s) && TradesOk(s) && OutboxOk(s) && KeysOk(s) && FundsOk(s) && CustodyOk(s) && RowsOk(s)
  }

  // ---------- posting on an explained ledger ----------

  ghost predicate NonNegative(s: LedgerState) {
    forall a: Account :: a.UserAccount? ==> 0 <= Balance(s, a)
  }

  lemma SoundIsNonNegative(s: LedgerState)
    requires Sound(s)
    ensures NonNegative(s)
  {
  }

  /** `l'` is `l` with `tx` posted on it. */
  ghost predicate PostedOn(l: LedgerState, l': LedgerState, tx: Transaction) {
    && Sound(l') && l'.accounts == l.accounts
    && l'.transactions == l.transactions + [tx]
    && forall a :: Balance(l', a) == Balance(l, a) + AccountTotal(tx.entries, a)
  }

  /** What an accepted posting does to the ledger, in the terms the invariant uses. */
  lemma PostEffect(s: LedgerState, kind: TransactionType, key: Key, entries: seq<Entry>)
    requires Sound(s) && PostOutcome(s, kind, key, entries).Posted?
    ensures PostedOn(s, AfterPost(s, kind, key, entries), Transaction(kind, key, entries))
  {
    PostKeepsSound(s, kind, key, entries);
    forall a | a !in s.accounts ensures AccountTotal(entries, a) == 0 {
      UntouchedTotal(entries, a);
    }
  }

  /** A replayed or refused posting changes nothing, and a free key is not replayed. */
  lemma PostOrRefuse(s: LedgerState, kind: TransactionType, key: Key, entries: seq<Entry>)
    requires !HasKey(s.transactions, key)
    ensures PostOutcome(s, kind, key, entries).Posted? || PostOutcome(s, kind, key, entries).Refused?
  {
  }

  lemma HasKeyAppend(transactions: seq<Transaction>, tx: Transaction, key: Key)
    ensures HasKey(transactions + [tx], key) <==> HasKey(transactions, key) || tx.key == key
  {
    if HasKey(transactions, key) {
      var i :| 0 <= i < |transactions| && transactions[i].key == key;
      assert (transactions + [tx])[i].key == key;
    }
    if tx.key == key {
      assert (transactions + [tx])[|transactions|].key == key;
    }
  }

  /** A two-entry transfer moves its amount from one account to the other and nothing else. */
  lemma TransferTotals(from: Account, to: Account, asset: Asset, amount: int)
    requires from != to
    ensures var entries := [Entry(from, asset, -amount), Entry(to, asset, amount)];
      && Balanced(entries)
      && forall a :: AccountTotal(entries, a) == if a == from then -amount else if a == to then amount else 0
  {
    var x, y := Entry(from, asset, -amount), Entry(to, asset, amount);
    forall b ensures AssetTotal([x, y], b) == 0 {
      SumTwo(x, y, AssetAmount(b));
    }
    forall a ensures AccountTotal([x, y], a) == if a == from then -amount else if a == to then amount else 0 {
      SumTwo(x, y, AccountAmount(a));
    }
  }

  /** When a transfer between two open accounts is posted, and what else can happen to it. */
  lemma TransferOutcome(s: LedgerState, kind: TransactionType, key: Key, from: Account, to: Account,
                        asset: Asset, amount: int)
    requires Sound(s) && kind != UnknownType && key != MissingKey && !HasKey(s.transactions, key)
    requires from != to && from in s.accounts && to in s.accounts && from.asset == asset && to.asset == asset
    requires amount >= 0
    ensures PostOutcome(s, kind, key, [Entry(from, asset, -amount), Entry(to, asset, amount)]).Posted?
       <==> amount != 0 && (from.UserAccount? ==> amount <= s.balances[from])
  {
    var x, y := Entry(from, asset, -amount), Entry(to, asset, amount);
    var entries := [x, y];
    TransferTotals(from, to, asset, amount);
    assert x in entries && y in entries;
    assert forall e :: e in entries ==> e == x || e == y;
    assert Affordable(s, entries) <==> (from.UserAccount? ==> amount <= s.balances[from]);
  }

  lemma OpenUserEffect(s: LedgerState, u: User, a: Asset)
    ensures var s' := OpenUserAccounts(s, u, a);
      && s'.transactions == s.transactions
      && s'.accounts == s.accounts + {UserAccount(u, a, Available), UserAccount(u, a, Locked)}
  {
  }
}
