/** Deposits, credits and withdrawals keep the exchange invariant. */
module ExchangeMoneyStep {
  import opened Sums
  import opened Ledger
  import opened Exchange
  import opened ExchangeInvariant
  import opened ExchangeSteps

  ghost predicate SameTrading(s: State, s': State) {
    s'.pairs == s.pairs && s'.orders == s.orders && s'.trades == s.trades && s'.outbox == s.outbox
  }

  lemma SameTradingOk(s: State, s': State)
    requires SameTrading(s, s') && OrdersOk(s) && TradesOk(s) && OutboxOk(s)
    ensures OrdersOk(s') && TradesOk(s') && OutboxOk(s')
  {
  }

  // ---------- crediting a deposit ----------

  function CreditTransaction(s: State, id: nat): Transaction
    requires id < |s.deposits|
  {
    var d := s.deposits[id];
    Transaction(DepositPosting, DepositKey(s, id), CreditEntries(d.user, d.asset, d.amount))
  }

  ghost predicate Crediting(s: State, s': State, id: nat) {
    && id < |s.deposits| && !s.deposits[id].credited
    && PostedOn(s.ledger, s'.ledger, CreditTransaction(s, id))
    && s'.deposits == s.deposits[id := s.deposits[id].(credited := true)]
    && s'.withdrawals == s.withdrawals && SameTrading(s, s')
  }

  lemma CreditingFunds(s: State, s': State, id: nat)
    requires FundsOk(s) && CustodyOk(s) && Crediting(s, s', id)
    ensures FundsOk(s') && CustodyOk(s')
  {
    var d, tx := s.deposits[id], CreditTransaction(s, id);
    TransferTotals(MainCustody(d.asset), UserAccount(d.user, d.asset, Available), d.asset, d.amount);
    FundsAfterPost(s, s', tx);
    forall a ensures CreditedDeposits(s', a) == CreditedDeposits(s, a) - AccountTotal(tx.entries, MainCustody(a)) {
      SumUpdate(s.deposits, id, d.(credited := true), CreditedOf(a));
    }
    CustodyAfterPost(s, s', tx);
  }

  lemma CreditingKeepsInv(s: State, s': State, id: nat)
    requires Inv(s) && Crediting(s, s', id)
    ensures Inv(s')
  {
    SameTradingOk(s, s');
    CreditingFunds(s, s', id);
    assert RowsEvolve(s, s');
    KeysAfterPost(s, s', CreditTransaction(s, id));
  }

  /** A posting that the ledger already has is explained by its row, whatever the row is. */
  lemma PostedKeyIsExplained(s: State, key: Key)
    requires KeysOk(s) && HasKey(s.ledger.transactions, key)
    ensures exists tx: Transaction :: tx.key == key && Explained(s, tx)
  {
    var k :| 0 <= k < |s.ledger.transactions| && s.ledger.transactions[k].key == key;
    assert Explained(s, s.ledger.transactions[k]);
  }

  lemma OpenCreditAccounts(s: State, id: nat)
    requires Inv(s) && id < |s.deposits|
    ensures var d := s.deposits[id];
      Inv(s.(ledger := OpenAccount(OpenUserAccounts(s.ledger, d.user, d.asset), MainCustody(d.asset))))
  {
    var d := s.deposits[id];
    var l := OpenUserAccounts(s.ledger, d.user, d.asset);
    OpenUserKeepsInv(s, d.user, d.asset);
    OpenKeepsSound(l, MainCustody(d.asset));
    OpeningKeepsInv(s.(ledger := l), OpenAccount(l, MainCustody(d.asset)));
  }

  /** A credit is posted once; every further attempt finds the posting and leaves the row credited. */
  lemma CreditCases(s: State, ready: State, id: nat)
    requires id < |s.deposits| && Sound(ready.ledger) && KeysOk(ready)
    requires ready == s.(ledger := OpenAccount(OpenUserAccounts(s.ledger, s.deposits[id].user, s.deposits[id].asset),
                                               MainCustody(s.deposits[id].asset)))
    ensures CreditDeposit(s, id) == ready || Crediting(ready, CreditDeposit(s, id), id)
  {
    var d, tx := s.deposits[id], CreditTransaction(s, id);
    if HasKey(ready.ledger.transactions, tx.key) {
      PostedKeyIsExplained(ready, tx.key);
      assert d == d.(credited := true);
      assert s.deposits[id := d] == s.deposits;
    } else if PostOutcome(ready.ledger, tx.kind, tx.key, tx.entries).Posted? {
      PostEffect(ready.ledger, tx.kind, tx.key, tx.entries);
      assert ready.deposits[id] == d;
    }
  }

  lemma CreditKeepsInv(s: State, id: nat)
    requires Inv(s) && id < |s.deposits|
    ensures Inv(CreditDeposit(s, id))
  {
    var d := s.deposits[id];
    var ready := s.(ledger := OpenAccount(OpenUserAccounts(s.ledger, d.user, d.asset), MainCustody(d.asset)));
    OpenCreditAccounts(s, id);
    CreditCases(s, ready, id);
    if CreditDeposit(s, id) != ready {
      CreditingKeepsInv(ready, CreditDeposit(s, id), id);
    }
  }

  // ---------- locking and unlocking a withdrawal ----------

  function HoldTransaction(s: State, id: nat, lock: bool): Transaction
    requires id < |s.withdrawals|
  {
    var w := s.withdrawals[id];
    if lock then Transaction(FundsLock, WithdrawalLock(id), LockEntries(w.user, w.asset, w.total))
    else Transaction(FundsUnlock, WithdrawalUnlock(id), UnlockEntries(w.user, w.asset, w.total))
  }

  function Held(w: WithdrawalRow, lock: bool): WithdrawalRow {
    if lock then w.(locked := true) else w.(unlocked := true)
  }

  ghost predicate Holding(s: State, s': State, id: nat, lock: bool) {
    && id < |s.withdrawals| && Held(s.withdrawals[id], lock) != s.withdrawals[id]
    && PostedOn(s.ledger, s'.ledger, HoldTransaction(s, id, lock))
    && s'.withdrawals == s.withdrawals[id := Held(s.withdrawals[id], lock)]
    && s'.deposits == s.deposits && SameTrading(s, s')
  }

  lemma HoldingFunds(s: State, s': State, id: nat, lock: bool)
    requires FundsOk(s) && CustodyOk(s) && Holding(s, s', id, lock)
    ensures FundsOk(s') && CustodyOk(s')
  {
    var w, tx := s.withdrawals[id], HoldTransaction(s, id, lock);
    var available, locked := UserAccount(w.user, w.asset, Available), UserAccount(w.user, w.asset, Locked);
    TransferTotals(available, locked, w.asset, w.total);
    TransferTotals(locked, available, w.asset, w.total);
    forall u, a ensures LockedTarget(s', u, a)
                     == LockedTarget(s, u, a) + AccountTotal(tx.entries, UserAccount(u, a, Locked)) {
      SumUpdate(s.withdrawals, id, Held(w, lock), HeldOf(u, a));
    }
    FundsAfterPost(s, s', tx);
    CustodyAfterPost(s, s', tx);
  }

  lemma HoldingKeepsInv(s: State, s': State, id: nat, lock: bool)
    requires Inv(s) && Holding(s, s', id, lock)
    ensures Inv(s')
  {
    SameTradingOk(s, s');
    HoldingFunds(s, s', id, lock);
    assert RowsEvolve(s, s');
    KeysAfterPost(s, s', HoldTransaction(s, id, lock));
  }

  ghost function HoldWithdrawal(s: State, id: nat, lock: bool): State
    requires id < |s.withdrawals|
  {
    if lock then LockWithdrawal(s, id) else UnlockWithdrawal(s, id)
  }

  /** The ledger and the row after a hold under a key that is not refused. */
  lemma HoldIsHolding(s: State, s': State, id: nat, lock: bool)
    requires id < |s.withdrawals| && Sound(s.ledger) && KeysOk(s)
    requires var w, tx := s.withdrawals[id], HoldTransaction(s, id, lock);
      && !PostOutcome(s.ledger, tx.kind, tx.key, tx.entries).Refused?
      && s' == s.(ledger := AfterPost(s.ledger, tx.kind, tx.key, tx.entries),
                  withdrawals := s.withdrawals[id := Held(w, lock)])
    ensures s' == s || Holding(s, s', id, lock)
  {
    var w, tx := s.withdrawals[id], HoldTransaction(s, id, lock);
    if HasKey(s.ledger.transactions, tx.key) {
      PostedKeyIsExplained(s, tx.key);
      assert s.withdrawals[id := w] == s.withdrawals;
    } else {
      PostEffect(s.ledger, tx.kind, tx.key, tx.entries);
      HeldRowsHaveKeys(s, id);
    }
  }

  lemma HeldRowsHaveKeys(s: State, id: nat)
    requires KeysOk(s) && id < |s.withdrawals|
    ensures s.withdrawals[id].locked ==> HasKey(s.ledger.transactions, WithdrawalLock(id))
    ensures s.withdrawals[id].unlocked ==> HasKey(s.ledger.transactions, WithdrawalUnlock(id))
  {
  }

  lemma HoldCases(s: State, ready: State, id: nat, lock: bool)
    requires id < |s.withdrawals| && Sound(ready.ledger) && KeysOk(ready)
    requires ready == s.(ledger := OpenUserAccounts(s.ledger, s.withdrawals[id].user, s.withdrawals[id].asset))
    ensures HoldWithdrawal(s, id, lock) == ready || Holding(ready, HoldWithdrawal(s, id, lock), id, lock)
  {
    var tx := HoldTransaction(ready, id, lock);
    if !PostOutcome(ready.ledger, tx.kind, tx.key, tx.entries).Refused? {
      HoldIsHolding(ready, HoldWithdrawal(s, id, lock), id, lock);
    }
  }

  lemma HoldKeepsInv(s: State, id: nat, lock: bool)
    requires Inv(s) && id < |s.withdrawals|
    ensures Inv(HoldWithdrawal(s, id, lock))
  {
    var w := s.withdrawals[id];
    var ready := s.(ledger := OpenUserAccounts(s.ledger, w.user, w.asset));
    OpenUserKeepsInv(s, w.user, w.asset);
    HoldCases(s, ready, id, lock);
    if HoldWithdrawal(s, id, lock) != ready {
      HoldingKeepsInv(ready, HoldWithdrawal(s, id, lock), id, lock);
    }
  }

  // ---------- new rows ----------

  lemma NewDepositKeepsInv(s: State, d: DepositRow)
    requires Inv(s) && !d.credited && 0 <= d.amount
    ensures Inv(s.(deposits := s.deposits + [d]))
  {
    var s' := s.(deposits := s.deposits + [d]);
    SameTradingOk(s, s');
    NewRowsExplained(s, s');
    forall u, a ensures LockedBalance(s', u, a) == LockedTarget(s', u, a) {
      assert LockedBalance(s, u, a) == LockedTarget(s, u, a);
    }
    forall a ensures Balance(s'.ledger, MainCustody(a)) == -CreditedDeposits(s', a) {
      SumAppend(s.deposits, d, CreditedOf(a));
      assert Balance(s.ledger, MainCustody(a)) == -CreditedDeposits(s, a);
    }
  }

  lemma NewRowsExplained(s: State, s': State)
    requires KeysOk(s) && RowsEvolve(s, s') && s'.ledger == s.ledger && s'.trades == s.trades
    requires forall i :: 0 <= i < |s'.deposits| && s'.deposits[i].credited ==>
      i < |s.deposits| && s.deposits[i].credited
    requires forall i :: 0 <= i < |s'.withdrawals| && s'.withdrawals[i].locked ==>
      i < |s.withdrawals| && s.withdrawals[i].locked
    requires forall i :: 0 <= i < |s'.withdrawals| && s'.withdrawals[i].unlocked ==>
      i < |s.withdrawals| && s.withdrawals[i].unlocked
    ensures KeysOk(s')
  {
    forall k | 0 <= k < |s'.ledger.transactions| ensures Explained(s', s'.ledger.transactions[k]) {
      assert Explained(s, s.ledger.transactions[k]);
    }
  }

  lemma NewWithdrawalKeepsInv(s: State, w: WithdrawalRow)
    requires Inv(s) && !w.locked && !w.unlocked && 0 <= w.total
    ensures Inv(s.(withdrawals := s.withdrawals + [w]))
  {
    var s' := s.(withdrawals := s.withdrawals + [w]);
    SameTradingOk(s, s');
    NewRowsExplained(s, s');
    forall u, a ensures LockedBalance(s', u, a) == LockedTarget(s', u, a) {
      SumAppend(s.withdrawals, w, HeldOf(u, a));
      assert LockedBalance(s, u, a) == LockedTarget(s, u, a);
    }
    forall a ensures Balance(s'.ledger, MainCustody(a)) == -CreditedDeposits(s', a) {
      assert Balance(s.ledger, MainCustody(a)) == -CreditedDeposits(s, a);
    }
  }
}
