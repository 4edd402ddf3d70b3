/** What holds in every reachable state of the exchange. */
module ExchangeTheorems {
  import opened Sums
  import opened Ledger
  import opened Orders
  import opened Exchange
  import opened ExchangeInvariant
  import opened ExchangeSteps
  import opened ExchangeMatchStep
  import opened ExchangeMoneyStep

  // ---------- every run ----------

  lemma MatchHeadKeepsInv(s: State, taker: nat)
    requires Inv(s) && taker < |s.orders| && Live(s.orders[taker])
    ensures Inv(MatchHead(s, taker))
  {
    var makers := OppositeOpenOrders(s.orders, s.orders[taker]);
    if makers != [] {
      assert makers[0] in makers;
      ExecuteKeepsInv(s, taker, makers[0]);
    }
  }

  lemma TradingKeepsInv(s: State, step: Step)
    requires Inv(s) && (step.PlaceStep? || step.MatchStep? || step.CancelStep?)
    ensures Inv(Apply(s, step))
  {
    match step
    case PlaceStep(r) => PlaceKeepsInv(s, r);
    case MatchStep(taker) =>
      if taker < |s.orders| && Live(s.orders[taker]) {
        MatchHeadKeepsInv(s, taker);
      }
    case CancelStep(user, id) => CancelKeepsInv(s, user, id);
  }

  lemma RecordingKeepsInv(s: State, step: Step)
    requires Inv(s) && (step.DepositStep? || step.WithdrawStep?)
    ensures Inv(Apply(s, step))
  {
    match step
    case DepositStep(user, asset, amount, fiat) =>
      if 0 <= amount {
        NewDepositKeepsInv(s, DepositRow(user, asset, amount, fiat, false));
      }
    case WithdrawStep(user, asset, amount) =>
      if 0 <= amount {
        NewWithdrawalKeepsInv(s, WithdrawalRow(user, asset, amount, false, false));
      }
  }

  lemma ApplyKeepsInv(s: State, step: Step)
    requires Inv(s)
    ensures Inv(Apply(s, step))
  {
    match step
    case CreditStep(id) =>
      if id < |s.deposits| {
        CreditKeepsInv(s, id);
      }
    case LockStep(id) =>
      if id < |s.withdrawals| {
        HoldKeepsInv(s, id, true);
      }
    case UnlockStep(id) =>
      if id < |s.withdrawals| {
        HoldKeepsInv(s, id, false);
      }
    case _ =>
      if step.DepositStep? || step.WithdrawStep? {
        RecordingKeepsInv(s, step);
      } else {
        TradingKeepsInv(s, step);
      }
  }

  lemma EmptyInv(pairs: seq<Pair>)
    ensures Inv(Empty(pairs))
  {
  }

  /** Every run of any steps whatever, in any order, keeps the exact lock accounting and all bookkeeping. */
  lemma {:induction false} EveryRunKeepsInv(pairs: seq<Pair>, steps: seq<Step>)
    ensures Inv(Run(pairs, steps))
  {
    if steps == [] {
      EmptyInv(pairs);
    } else {
      EveryRunKeepsInv(pairs, steps[..|steps| - 1]);
      ApplyKeepsInv(Run(pairs, steps[..|steps| - 1]), steps[|steps| - 1]);
    }
  }

  // ---------- locks cover what they are for ----------

  /** No withdrawal was unlocked without its lock having been posted. */
  ghost predicate Backed(s: State) {
    forall i :: 0 <= i < |s.withdrawals| && s.withdrawals[i].unlocked ==> s.withdrawals[i].locked
  }

  lemma LockAmountNonNegative(side: Side, price: int, quantity: int)
    requires 0 <= price && 0 <= quantity
    ensures 0 <= OrderLockAmount(side, price, quantity)
  {
  }

  lemma TermsNonNegative(s: State, u: User, a: Asset)
    requires Inv(s)
    ensures forall o :: o in s.orders ==> 0 <= NeedOf(u, a)(o)
    ensures forall t :: t in s.trades ==> 0 <= ImprovementOf(s.orders, u, a)(t)
    ensures Backed(s) ==> forall w :: w in s.withdrawals ==> 0 <= HeldOf(u, a)(w)
  {
    forall o | o in s.orders ensures 0 <= NeedOf(u, a)(o) {
      assert OrderOk(s.pairs, o);
      LockAmountNonNegative(o.side, o.price, o.remaining);
    }
    forall t | t in s.trades ensures 0 <= ImprovementOf(s.orders, u, a)(t) {
      assert TradeOk(s.orders, t);
      if t.takerSide == Buy {
        LockAmountNonNegative(Buy, s.orders[t.taker].price - t.price, t.quantity);
      }
    }
  }

  /** While withdrawals are backed, a LOCKED balance covers each live order of its user on its own. */
  lemma LockedCoversOrder(s: State, id: nat)
    requires Inv(s) && Backed(s) && id < |s.orders|
    ensures LockNeed(s.orders[id]) <= LockedBalance(s, s.orders[id].user, s.orders[id].lockedAsset)
  {
    var u, a := s.orders[id].user, s.orders[id].lockedAsset;
    TermsNonNegative(s, u, a);
    SumBoundsTerm(s.orders, NeedOf(u, a));
    SumBoundsTerm(s.trades, ImprovementOf(s.orders, u, a));
    SumBoundsTerm(s.withdrawals, HeldOf(u, a));
    assert LockedBalance(s, u, a) == LockedTarget(s, u, a);
    assert NeedOf(u, a)(s.orders[id]) <= OrderLocks(s, u, a);
  }

  lemma SmallerProduct(p: int, p': int, q: int, q': int)
    requires 0 <= p <= p' && 0 <= q <= q'
    ensures p * q <= p' * q'
  {
    assert p * q <= p' * q;
    assert p' * q <= p' * q';
  }

  /** Both sides of a match have locked what the settlement takes. */
  lemma LocksCoverSettlement(s: State, t: Trade)
    requires Inv(s) && Backed(s) && Matchable(s, t)
    ensures t.quantity <= LockedBalance(s, t.seller, t.base)
    ensures t.quoteAmount <= LockedBalance(s, t.buyer, t.quote)
  {
    var k, m := s.orders[t.taker], s.orders[t.maker];
    assert OrderOk(s.pairs, k) && OrderOk(s.pairs, m);
    LockedCoversOrder(s, t.taker);
    LockedCoversOrder(s, t.maker);
    var buy := if k.side == Buy then k else m;
    SmallerProduct(t.price, buy.price, t.quantity, buy.remaining);
  }

  /** The shape of a settlement is sound exactly when it moves a non-zero quote amount. */
  lemma SettlementShape(key: Key, t: Trade)
    requires 0 < t.quantity && t.buyer != t.seller && key != MissingKey
    ensures ShapeVerdict(TradeSettlementPosting, key, SettlementEntries(t)).Fine? <==> t.quoteAmount != 0
  {
    SettlementTotals(t);
    var e := SettlementEntries(t);
    assert forall x :: x in e <==> x == e[0] || x == e[1] || x == e[2] || x == e[3];
  }

  lemma SettlementAccountTotals(t: Trade)
    requires t.buyer != t.seller
    ensures AccountTotal(SettlementEntries(t), UserAccount(t.seller, t.base, Locked)) == -t.quantity
    ensures AccountTotal(SettlementEntries(t), UserAccount(t.buyer, t.base, Available)) == t.quantity
    ensures AccountTotal(SettlementEntries(t), UserAccount(t.buyer, t.quote, Locked)) == -t.quoteAmount
    ensures AccountTotal(SettlementEntries(t), UserAccount(t.seller, t.quote, Available)) == t.quoteAmount
  {
    var e := SettlementEntries(t);
    SumFour(e[0], e[1], e[2], e[3], AccountAmount(e[0].account));
    SumFour(e[0], e[1], e[2], e[3], AccountAmount(e[1].account));
    SumFour(e[0], e[1], e[2], e[3], AccountAmount(e[2].account));
    SumFour(e[0], e[1], e[2], e[3], AccountAmount(e[3].account));
  }

  /** The settlement is affordable exactly when the two LOCKED balances cover what it debits. */
  lemma SettlementAffordableIff(l: LedgerState, t: Trade)
    requires Sound(l) && t.buyer != t.seller && 0 <= t.quantity && 0 <= t.quoteAmount
    requires {UserAccount(t.seller, t.base, Locked), UserAccount(t.buyer, t.base, Available),
              UserAccount(t.buyer, t.quote, Locked), UserAccount(t.seller, t.quote, Available)} <= l.accounts
    ensures AccountVerdict(l, SettlementEntries(t)).Fine? <==>
      && t.quantity <= Balance(l, UserAccount(t.seller, t.base, Locked))
      && t.quoteAmount <= Balance(l, UserAccount(t.buyer, t.quote, Locked))
  {
    SettlementAccountTotals(t);
    var e := SettlementEntries(t);
    assert e[0] in e && e[2] in e;
    assert forall x :: x in e <==> x == e[0] || x == e[1] || x == e[2] || x == e[3];
    assert FirstFault(l, e) == {};
  }

  lemma SettlementPostsIff(l: LedgerState, key: Key, t: Trade)
    requires Sound(l) && t.buyer != t.seller && 0 < t.quantity && 0 <= t.quoteAmount
    requires key != MissingKey && !HasKey(l.transactions, key)
    requires {UserAccount(t.seller, t.base, Locked), UserAccount(t.buyer, t.base, Available),
              UserAccount(t.buyer, t.quote, Locked), UserAccount(t.seller, t.quote, Available)} <= l.accounts
    ensures PostOutcome(l, TradeSettlementPosting, key, SettlementEntries(t)).Posted? <==>
      && t.quoteAmount != 0
      && t.quantity <= Balance(l, UserAccount(t.seller, t.base, Locked))
      && t.quoteAmount <= Balance(l, UserAccount(t.buyer, t.quote, Locked))
  {
    SettlementShape(key, t);
    SettlementAffordableIff(l, t);
  }

  lemma QuoteIsZeroIff(price: int, quantity: int)
    requires 0 <= price && 0 < quantity
    ensures 0 <= price * quantity
    ensures price * quantity != 0 <==> price != 0
  {
  }

  lemma MatchableFacts(s: State, t: Trade)
    requires OrdersOk(s) && Matchable(s, t)
    ensures t.buyer != t.seller && 0 < t.quantity && 0 <= t.quoteAmount
    ensures t.quoteAmount != 0 <==> s.orders[t.maker].price != 0
  {
    assert OrderOk(s.pairs, s.orders[t.maker]);
    QuoteIsZeroIff(t.price, t.quantity);
  }

  /** The LOCKED balances of seller and buyer cover what the trade's settlement debits. */
  predicate Covers(s: State, t: Trade) {
    t.quantity <= LockedBalance(s, t.seller, t.base) && t.quoteAmount <= LockedBalance(s, t.buyer, t.quote)
  }

  /**
   * A match between a live order and an eligible opposite order executes if and only if the maker's price is not
   * zero and the two LOCKED balances cover the settlement; a duplicate trade key never stands in its way.
   */
  lemma MatchExecutesIff(s: State, taker: nat, maker: nat)
    requires Inv(s) && taker < |s.orders| && maker < |s.orders|
    requires Live(s.orders[taker]) && Eligible(s.orders[taker], s.orders[maker])
    ensures FillQuantity(s.orders[taker], s.orders[maker]).Success?
    ensures ExecuteMatch(s, taker, maker).1.Executed? <==>
      s.orders[maker].price != 0 && Covers(s, TradeBetween(s, taker, maker))
  {
    ExecuteKeepsInv(s, taker, maker);
    var t := TradeBetween(s, taker, maker);
    ReadySettles(s, t);
  }

  lemma ReadySettles(s: State, t: Trade)
    requires Inv(s) && Inv(Ready(s, t)) && Matchable(Ready(s, t), t)
    ensures SettlementOutcome(s, t).Posted? <==> s.orders[t.maker].price != 0 && Covers(s, t)
  {
    var ready := Ready(s, t);
    OpenSettlementKeepsInv(s, t);
    MatchableFacts(ready, t);
    KeyIsFree(ready, TradeSettlement(|s.trades|));
    SettlementPostsIff(ready.ledger, TradeSettlement(|s.trades|), t);
    SameLocks(s, ready, t.seller, t.base);
    SameLocks(s, ready, t.buyer, t.quote);
  }

  /** LOCKED depends on orders, trades and withdrawals only. */
  lemma SameLocks(s: State, s': State, u: User, a: Asset)
    requires FundsOk(s) && FundsOk(s')
    requires s'.orders == s.orders && s'.trades == s.trades && s'.withdrawals == s.withdrawals
    ensures LockedBalance(s', u, a) == LockedBalance(s, u, a)
  {
    assert LockedBalance(s, u, a) == LockedTarget(s, u, a);
    assert LockedBalance(s', u, a) == LockedTarget(s', u, a);
  }

  /**
   * While no withdrawal was unlocked without its lock, a settlement is never refused for lack of locked funds: the
   * match executes if and only if the maker's price is not zero.
   */
  lemma BackedMatchExecutesIff(s: State, taker: nat, maker: nat)
    requires Inv(s) && Backed(s) && taker < |s.orders| && maker < |s.orders|
    requires Live(s.orders[taker]) && Eligible(s.orders[taker], s.orders[maker])
    ensures ExecuteMatch(s, taker, maker).1.Executed? <==> s.orders[maker].price != 0
  {
    MatchExecutesIff(s, taker, maker);
    ExecuteKeepsInv(s, taker, maker);
    var t := TradeBetween(s, taker, maker);
    LocksCoverSettlement(Ready(s, t), t);
    SameLocks(s, Ready(s, t), t.seller, t.base);
    SameLocks(s, Ready(s, t), t.buyer, t.quote);
  }

  /** Every pair demands a positive order value, as the seeded pairs do. */
  ghost predicate PositiveMinimums(pairs: seq<Pair>) {
    forall i :: 0 <= i < |pairs| ==> 0 < pairs[i].minQuote
  }

  /** Moving an amount between a user's two accounts, which are opened first, posts iff it is there to move. */
  lemma OwnTransferPostsIff(l: LedgerState, kind: TransactionType, key: Key, u: User, a: Asset, lock: bool, amount: int)
    requires Sound(l) && kind != UnknownType && key != MissingKey && !HasKey(l.transactions, key) && 0 <= amount
    ensures var entries := if lock then LockEntries(u, a, amount) else UnlockEntries(u, a, amount);
      var outcome := PostOutcome(OpenUserAccounts(l, u, a), kind, key, entries);
      && (outcome.Posted? || outcome.Refused?)
      && (outcome.Posted? <==> 0 < amount <= Balance(l, UserAccount(u, a, if lock then Available else Locked)))
  {
    OpenUserKeepsSound(l, u, a);
    OpenUserEffect(l, u, a);
    var ready := OpenUserAccounts(l, u, a);
    PostOrRefuse(ready, kind, key, if lock then LockEntries(u, a, amount) else UnlockEntries(u, a, amount));
    if lock {
      TransferOutcome(ready, kind, key, UserAccount(u, a, Available), UserAccount(u, a, Locked), a, amount);
    } else {
      TransferOutcome(ready, kind, key, UserAccount(u, a, Locked), UserAccount(u, a, Available), a, amount);
    }
  }

  /**
   * The owner's cancel of a live order gives back exactly what the order still needs locked, if and only if the
   * owner's LOCKED balance covers it; otherwise the ledger refuses it.
   */
  lemma CancelReleasesIff(s: State, id: nat)
    requires Inv(s) && id < |s.orders| && Live(s.orders[id])
    ensures var o := s.orders[id]; var outcome := CancelOrder(s, o.user, id).1;
      if LockNeed(o) <= LockedBalance(s, o.user, o.lockedAsset) then outcome == CancelledOrder(LockNeed(o))
      else outcome.CancelRefused? && outcome.error.LedgerRefused?
  {
    assert OrderOk(s.pairs, s.orders[id]);
    CancelPosts(s, id);
  }

  lemma CancelPosts(s: State, id: nat)
    requires Sound(s.ledger) && KeysOk(s) && id < |s.orders| && Live(s.orders[id]) && OrderOk(s.pairs, s.orders[id])
    ensures var o := s.orders[id]; var outcome := CancelOrder(s, o.user, id).1;
      if LockNeed(o) <= LockedBalance(s, o.user, o.lockedAsset) then outcome == CancelledOrder(LockNeed(o))
      else outcome.CancelRefused? && outcome.error.LedgerRefused?
  {
    var o := s.orders[id];
    ReleaseIsTheNeed(s.pairs, o);
    KeyIsFree(s, OrderCancel(id));
    OwnTransferPostsIff(s.ledger, FundsUnlock, OrderCancel(id), o.user, o.lockedAsset, false, LockNeed(o));
  }

  /** While no withdrawal was unlocked without its lock, that is always so. */
  lemma CancelIsNeverRefused(s: State, id: nat)
    requires Inv(s) && Backed(s) && id < |s.orders| && Live(s.orders[id])
    ensures CancelOrder(s, s.orders[id].user, id).1 == CancelledOrder(LockNeed(s.orders[id]))
  {
    LockedCoversOrder(s, id);
    CancelReleasesIff(s, id);
  }

  /** An order that passes the checks is placed if and only if its lock is non-zero and covered by AVAILABLE. */
  lemma PlaceAcceptedIff(s: State, r: PlaceRequest)
    requires Inv(s) && PlaceChecks(s, r).Success?
    ensures var o := NewOrder(s.pairs[r.pair], r);
      PlaceOrder(s, r).1.Placed? <==>
        0 < o.locked <= Balance(s.ledger, UserAccount(o.user, o.lockedAsset, Available))
  {
    PlacePosts(s, r);
  }

  lemma PlacePosts(s: State, r: PlaceRequest)
    requires Sound(s.ledger) && KeysOk(s) && PlaceChecks(s, r).Success?
    ensures var o := NewOrder(s.pairs[r.pair], r);
      PlaceOrder(s, r).1.Placed? <==>
        0 < o.locked <= Balance(s.ledger, UserAccount(o.user, o.lockedAsset, Available))
  {
    var o := NewOrder(s.pairs[r.pair], r);
    LockAmountNonNegative(r.side, r.price, r.quantity);
    KeyIsFree(s, OrderLock(|s.orders|));
    OwnTransferPostsIff(s.ledger, FundsLock, OrderLock(|s.orders|), o.user, o.lockedAsset, true, o.locked);
  }

  // ---------- the fail path of withdrawals ----------

  function ActiveHoldOf(u: User, a: Asset): WithdrawalRow -> int {
    (w: WithdrawalRow) => if w.user == u && w.asset == a && w.locked && !w.unlocked then w.total else 0
  }

  /** Every LOCKED balance covers the needs of live orders, the improvements and the withdrawals still held. */
  ghost predicate Covered(s: State) {
    forall u, a :: OrderLocks(s, u, a) + Improvements(s, u, a) + SumBy(s.withdrawals, ActiveHoldOf(u, a))
                <= LockedBalance(s, u, a)
  }

  lemma BackedIsCovered(s: State)
    requires Inv(s) && Backed(s)
    ensures Covered(s)
  {
    forall u, a ensures OrderLocks(s, u, a) + Improvements(s, u, a) + SumBy(s.withdrawals, ActiveHoldOf(u, a))
                     <= LockedBalance(s, u, a) {
      SumCongruence(s.withdrawals, HeldOf(u, a), ActiveHoldOf(u, a));
      assert LockedBalance(s, u, a) == LockedTarget(s, u, a);
    }
  }

  lemma {:induction false} HoldsNeverExceedActive(rows: seq<WithdrawalRow>, id: nat, u: User, a: Asset)
    requires forall w :: w in rows ==> 0 <= w.total
    requires id < |rows| && rows[id].user == u && rows[id].asset == a && rows[id].unlocked && !rows[id].locked
    ensures SumBy(rows, HeldOf(u, a)) + rows[id].total <= SumBy(rows, ActiveHoldOf(u, a))
  {
    var slack := (w: WithdrawalRow) => ActiveHoldOf(u, a)(w) - HeldOf(u, a)(w);
    SumPointwise(rows, HeldOf(u, a), slack, ActiveHoldOf(u, a));
    SumBoundsTerm(rows, slack);
    assert slack(rows[id]) == rows[id].total;
  }

  /** The fail path's unlock posts whenever the user's LOCKED balance, whatever it is for, is large enough. */
  lemma UnlockPostsIff(s: State, id: nat)
    requires Sound(s.ledger) && KeysOk(s) && RowsOk(s) && id < |s.withdrawals| && !s.withdrawals[id].unlocked
    ensures UnlockWithdrawal(s, id).withdrawals[id].unlocked
       <==> 0 < s.withdrawals[id].total <= LockedBalance(s, s.withdrawals[id].user, s.withdrawals[id].asset)
    ensures UnlockWithdrawal(s, id).withdrawals[id].unlocked ==>
      UnlockWithdrawal(s, id).withdrawals == s.withdrawals[id := s.withdrawals[id].(unlocked := true)]
  {
    var w := s.withdrawals[id];
    KeyIsFree(s, WithdrawalUnlock(id));
    OwnTransferPostsIff(s.ledger, FundsUnlock, WithdrawalUnlock(id), w.user, w.asset, false, w.total);
  }

  lemma UnbackedIsNotCovered(s: State, id: nat)
    requires Inv(s) && id < |s.withdrawals|
    requires s.withdrawals[id].unlocked && !s.withdrawals[id].locked && 0 < s.withdrawals[id].total
    ensures !Covered(s)
  {
    var w := s.withdrawals[id];
    HoldsNeverExceedActive(s.withdrawals, id, w.user, w.asset);
    assert LockedBalance(s, w.user, w.asset) == LockedTarget(s, w.user, w.asset);
    assert OrderLocks(s, w.user, w.asset) + Improvements(s, w.user, w.asset)
      + SumBy(s.withdrawals, ActiveHoldOf(w.user, w.asset)) > LockedBalance(s, w.user, w.asset);
  }

  /**
   * The unlock does not check for the lock. After an unlock that posted, the locks are still covered if and
   * only if the withdrawal's own lock had been posted before.
   */
  lemma UnlockKeepsCoverIff(s: State, id: nat)
    requires Inv(s) && Backed(s) && id < |s.withdrawals| && !s.withdrawals[id].unlocked
    requires 0 < s.withdrawals[id].total <= LockedBalance(s, s.withdrawals[id].user, s.withdrawals[id].asset)
    ensures Covered(UnlockWithdrawal(s, id)) <==> s.withdrawals[id].locked
  {
    UnlockMarks(s, id);
    UnlockedCoverIff(UnlockWithdrawal(s, id), id);
  }

  lemma UnlockMarks(s: State, id: nat)
    requires Inv(s) && Backed(s) && id < |s.withdrawals| && !s.withdrawals[id].unlocked
    requires 0 < s.withdrawals[id].total <= LockedBalance(s, s.withdrawals[id].user, s.withdrawals[id].asset)
    ensures Inv(UnlockWithdrawal(s, id))
    ensures UnlockWithdrawal(s, id).withdrawals == s.withdrawals[id := s.withdrawals[id].(unlocked := true)]
  {
    HoldKeepsInv(s, id, false);
    UnlockPostsIff(s, id);
  }

  /** After the unlock of one withdrawal, all others being backed, the locks are covered iff that one was locked. */
  lemma UnlockedCoverIff(s: State, id: nat)
    requires Inv(s) && id < |s.withdrawals| && s.withdrawals[id].unlocked && 0 < s.withdrawals[id].total
    requires forall i :: 0 <= i < |s.withdrawals| && i != id && s.withdrawals[i].unlocked ==> s.withdrawals[i].locked
    ensures Covered(s) <==> s.withdrawals[id].locked
  {
    if s.withdrawals[id].locked {
      BackedIsCovered(s);
    } else {
      UnbackedIsNotCovered(s, id);
    }
  }

  // ---------- conservation ----------

  ghost function UserAccountsOf(s: LedgerState, asset: Asset): set<Account> {
    set a | a in s.accounts && a.asset == asset && a.UserAccount?
  }

  /**
   * What all users own of an asset, AVAILABLE and LOCKED together, is minus the main custody balance and is
   * the sum of the distinct credited deposits, crypto and fiat. Holds whether or not withdrawals are backed.
   */
  lemma UsersOwnWhatWasDeposited(s: State, asset: Asset)
    requires Inv(s)
    ensures SetSum(UserAccountsOf(s.ledger, asset), BalanceIn(s.ledger)) == -Balance(s.ledger, MainCustody(asset))
    ensures SetSum(UserAccountsOf(s.ledger, asset), BalanceIn(s.ledger)) == CreditedDeposits(s, asset)
  {
    var users, all, custody := UserAccountsOf(s.ledger, asset), AccountsOf(s.ledger, asset), MainCustody(asset);
    SoundLedgerConserves(s.ledger, asset);
    if custody in s.ledger.accounts {
      assert all == users + {custody};
      SetSumSplit(users, {custody}, BalanceIn(s.ledger));
      SetSumSingle({custody}, custody, BalanceIn(s.ledger));
    } else {
      assert all == users;
    }
    assert Balance(s.ledger, MainCustody(asset)) == -CreditedDeposits(s, asset);
  }

  /** Conservation in every reachable state. */
  lemma EveryRunConserves(pairs: seq<Pair>, steps: seq<Step>, asset: Asset)
    ensures var s := Run(pairs, steps);
      SetSum(UserAccountsOf(s.ledger, asset), BalanceIn(s.ledger)) == CreditedDeposits(s, asset)
        == -Balance(s.ledger, MainCustody(asset))
  {
    EveryRunKeepsInv(pairs, steps);
    UsersOwnWhatWasDeposited(Run(pairs, steps), asset);
  }

  // ---------- bookkeeping ----------

  /** The posting at `k` carries `key` and `entries`, and no other posting carries the key. */
  ghost predicate OnlyPosting(transactions: seq<Transaction>, k: nat, key: Key, entries: seq<Entry>) {
    && k < |transactions| && transactions[k].key == key && transactions[k].entries == entries
    && forall k' :: 0 <= k' < |transactions| && transactions[k'].key == key ==> k' == k
  }

  /** Each trade has one settlement posting, with its entries, and no other posting carries its key. */
  lemma OneSettlementPerTrade(s: State, j: nat)
    requires Inv(s) && j < |s.trades|
    ensures exists k: nat :: OnlyPosting(s.ledger.transactions, k, TradeSettlement(j), SettlementEntries(s.trades[j]))
  {
    assert HasKey(s.ledger.transactions, TradeSettlement(j));
    var k :| 0 <= k < |s.ledger.transactions| && s.ledger.transactions[k].key == TradeSettlement(j);
    assert Explained(s, s.ledger.transactions[k]);
    assert OnlyPosting(s.ledger.transactions, k, TradeSettlement(j), SettlementEntries(s.trades[j]));
  }

  /** A user's LOCKED balance in every reachable state: live orders, improvements, withdrawal holds, exactly. */
  lemma LockedIsExact(pairs: seq<Pair>, steps: seq<Step>, u: User, a: Asset)
    ensures var s := Run(pairs, steps);
      LockedBalance(s, u, a) == OrderLocks(s, u, a) + Improvements(s, u, a) + WithdrawalHolds(s, u, a)
  {
    EveryRunKeepsInv(pairs, steps);
    var s := Run(pairs, steps);
    assert LockedBalance(s, u, a) == LockedTarget(s, u, a);
  }

  /**
   * Order bookkeeping in every reachable state: filled is what the trades filled, filled and remaining make up
   * the original quantity, and an order that was not cancelled is FILLED exactly when nothing remains.
   */
  lemma OrdersAddUp(pairs: seq<Pair>, steps: seq<Step>, id: nat)
    ensures var s := Run(pairs, steps);
      id < |s.orders| ==>
        var o := s.orders[id];
        && o.filled == FilledByTrades(s.trades, id) && o.filled + o.remaining == o.original
        && (o.status != OrderStatus.Cancelled ==> (o.status == OrderStatus.Filled <==> o.remaining == 0))
        && (Live(o) ==> 0 < o.remaining)
  {
    EveryRunKeepsInv(pairs, steps);
    var s := Run(pairs, steps);
    if id < |s.orders| {
      assert OrderOk(s.pairs, s.orders[id]);
    }
  }

  /** Over the whole history no taker trades with the same maker twice, so no unique trade key is violated. */
  lemma NoPairTradesTwice(pairs: seq<Pair>, steps: seq<Step>)
    ensures UniqueTradeKeys(Run(pairs, steps).trades)
    ensures var s := Run(pairs, steps);
      forall j :: 0 <= j < |s.trades| ==> TradeOk(s.orders, s.trades[j])
  {
    EveryRunKeepsInv(pairs, steps);
  }

  /** Every trade has exactly one `trade.executed` outbox row, and there are no others. */
  lemma OneOutboxRowPerTrade(pairs: seq<Pair>, steps: seq<Step>)
    ensures var s := Run(pairs, steps);
      |s.outbox| == |s.trades| && forall j :: 0 <= j < |s.trades| ==> s.outbox[j] == OutboxRow(j, s.trades[j])
  {
    EveryRunKeepsInv(pairs, steps);
  }

  /** A deposit is credited by at most one posting, however often the credit is attempted. */
  lemma RecreditingChangesNothing(s: State, id: nat)
    requires Inv(s) && id < |s.deposits| && s.deposits[id].credited
    ensures CreditDeposit(s, id).deposits == s.deposits
    ensures forall a :: Balance(CreditDeposit(s, id).ledger, a) == Balance(s.ledger, a)
    ensures CreditDeposit(s, id).ledger.transactions == s.ledger.transactions
  {
    var d := s.deposits[id];
    OpenCreditAccounts(s, id);
    var l := OpenUserAccounts(s.ledger, d.user, d.asset);
    OpenUserKeepsSound(s.ledger, d.user, d.asset);
    OpenUserEffect(s.ledger, d.user, d.asset);
    OpenKeepsSound(l, MainCustody(d.asset));
    CreditCases(s, s.(ledger := OpenAccount(l, MainCustody(d.asset))), id);
  }
}
