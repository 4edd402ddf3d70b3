/**
 * The deposit and withdrawal services against the steps of the exchange machine that stand for them: the same ledger,
 * the same amounts, and marks that say which postings were made.
 */
module Correspondence {
  import opened Ledger
  import Orders
  import Exchange
  import ExchangeInvariant
  import ExchangeTheorems
  import Deposits
  import Withdrawals
  import WithdrawalTheorems

  // ---------- withdrawals ----------

  predicate SameWithdrawal(x: Exchange.WithdrawalRow, w: Withdrawals.Withdrawal,
                           transactions: seq<Transaction>, i: nat) {
    && x.user == w.user && x.asset == w.asset && x.total == w.total
    && (x.locked <==> HasKey(transactions, WithdrawalLock(i)))
    && (x.unlocked <==> HasKey(transactions, WithdrawalUnlock(i)))
  }

  ghost predicate SameWithdrawals(s: Exchange.State, t: Withdrawals.Tables) {
    && s.ledger == t.ledger && |s.withdrawals| == |t.rows|
    && forall i :: 0 <= i < |t.rows| ==> SameWithdrawal(s.withdrawals[i], t.rows[i], t.ledger.transactions, i)
  }

  /** Posting, or being refused, under one key concerns no other key. */
  lemma OtherKeysStay(l: LedgerState, kind: TransactionType, key: Key, entries: seq<Entry>, other: Key)
    requires other != key
    ensures HasKey(AfterPost(l, kind, key, entries).transactions, other) <==> HasKey(l.transactions, other)
  {
    if PostOutcome(l, kind, key, entries).Posted? {
      ExchangeInvariant.HasKeyAppend(l.transactions, PostOutcome(l, kind, key, entries).posted, other);
    }
  }

  /** A key is in the ledger after a posting under it unless that was refused and the key is new. */
  lemma OwnKeyStays(l: LedgerState, kind: TransactionType, key: Key, entries: seq<Entry>)
    ensures HasKey(AfterPost(l, kind, key, entries).transactions, key) <==>
      HasKey(l.transactions, key) || !PostOutcome(l, kind, key, entries).Refused?
  {
    if PostOutcome(l, kind, key, entries).Posted? {
      ExchangeInvariant.HasKeyAppend(l.transactions, PostOutcome(l, kind, key, entries).posted, key);
    }
  }

  /** The withdraw step and the lock step of the machine. */
  ghost function WithdrawAndLock(s: Exchange.State, r: Withdrawals.CreateRequest): Exchange.State {
    Exchange.Apply(Exchange.Apply(s, Exchange.WithdrawStep(r.user, r.asset, r.amount)),
                   Exchange.LockStep(|s.withdrawals|))
  }

  /** A create request is a withdraw step and a lock step, its refused lock included; a known key is no step. */
  lemma CreateIsTheSteps(s: Exchange.State, t: Withdrawals.Tables, r: Withdrawals.CreateRequest)
    requires ExchangeInvariant.Inv(s) && SameWithdrawals(s, t)
    ensures SameWithdrawals(
      if Withdrawals.CreateChecks(t.rows, r) == Orders.Success(true) then WithdrawAndLock(s, r) else s,
      Withdrawals.Create(t, r).0)
  {
    if Withdrawals.CreateChecks(t.rows, r) == Orders.Success(true) {
      var id := |t.rows|;
      WithdrawalKeysAreFree(s, id);
      NewRowLocks(s, t, r);
    }
  }

  lemma WithdrawalKeysAreFree(s: Exchange.State, id: nat)
    requires ExchangeInvariant.KeysOk(s) && |s.withdrawals| <= id
    ensures !HasKey(s.ledger.transactions, WithdrawalLock(id)) && !HasKey(s.ledger.transactions, WithdrawalUnlock(id))
  {
    forall k | 0 <= k < |s.ledger.transactions|
      ensures s.ledger.transactions[k].key != WithdrawalLock(id) && s.ledger.transactions[k].key != WithdrawalUnlock(id)
    {
      assert ExchangeInvariant.Explained(s, s.ledger.transactions[k]);
    }
  }

  lemma NewRowLocks(s: Exchange.State, t: Withdrawals.Tables, r: Withdrawals.CreateRequest)
    requires SameWithdrawals(s, t) && Withdrawals.CreateChecks(t.rows, r) == Orders.Success(true)
    requires var id := |t.rows|;
      !HasKey(s.ledger.transactions, WithdrawalLock(id)) && !HasKey(s.ledger.transactions, WithdrawalUnlock(id))
    ensures SameWithdrawals(WithdrawAndLock(s, r), Withdrawals.Create(t, r).0)
  {
    var id, w, l := |t.rows|, Withdrawals.RowOf(r), OpenUserAccounts(t.ledger, r.user, r.asset);
    OwnKeyStays(l, FundsLock, WithdrawalLock(id), Withdrawals.LockOf(w));
    OtherKeysStay(l, FundsLock, WithdrawalLock(id), Withdrawals.LockOf(w), WithdrawalUnlock(id));
    forall i | 0 <= i < id
      ensures SameWithdrawal(s.withdrawals[i], t.rows[i],
                             AfterPost(l, FundsLock, WithdrawalLock(id), Withdrawals.LockOf(w)).transactions, i)
    {
      assert SameWithdrawal(s.withdrawals[i], t.rows[i], t.ledger.transactions, i);
      OtherKeysStay(l, FundsLock, WithdrawalLock(id), Withdrawals.LockOf(w), WithdrawalLock(i));
      OtherKeysStay(l, FundsLock, WithdrawalLock(id), Withdrawals.LockOf(w), WithdrawalUnlock(i));
    }
  }

  /** The unlock gets past the checks on the row. */
  predicate UnlockIsTried(t: Withdrawals.Tables, id: nat)
    requires id < |t.rows|
  {
    t.rows[id].status != Withdrawals.Completed && !Withdrawals.HoldsTransfer(t.rows[id])
  }

  /** Both ledgers after an unlock, and the marks that go with it. */
  lemma UnlockMarksAgree(s: Exchange.State, t: Withdrawals.Tables, id: nat, l: LedgerState)
    requires SameWithdrawals(s, t) && id < |t.rows| && l.transactions == t.ledger.transactions
    ensures var w, key := t.rows[id], WithdrawalUnlock(id);
      var after := AfterPost(l, FundsUnlock, key, Withdrawals.UnlockOf(w)).transactions;
      && (forall i :: 0 <= i < |t.rows| && i != id ==> SameWithdrawal(s.withdrawals[i], t.rows[i], after, i))
      && (HasKey(after, WithdrawalLock(id)) <==> s.withdrawals[id].locked)
      && (HasKey(after, key) <==>
            s.withdrawals[id].unlocked || !PostOutcome(l, FundsUnlock, key, Withdrawals.UnlockOf(w)).Refused?)
  {
    var w, key := t.rows[id], WithdrawalUnlock(id);
    SameRow(s, t, id);
    OwnKeyStays(l, FundsUnlock, key, Withdrawals.UnlockOf(w));
    OtherKeysStay(l, FundsUnlock, key, Withdrawals.UnlockOf(w), WithdrawalLock(id));
    forall i | 0 <= i < |t.rows| && i != id
      ensures SameWithdrawal(s.withdrawals[i], t.rows[i],
                             AfterPost(l, FundsUnlock, key, Withdrawals.UnlockOf(w)).transactions, i)
    {
      SameRow(s, t, i);
      OtherKeysStay(l, FundsUnlock, key, Withdrawals.UnlockOf(w), WithdrawalLock(i));
      OtherKeysStay(l, FundsUnlock, key, Withdrawals.UnlockOf(w), WithdrawalUnlock(i));
    }
  }

  /** Failing a withdrawal is an unlock step if the unlock is tried, and no step otherwise. */
  lemma FailIsTheStep(s: Exchange.State, t: Withdrawals.Tables, id: nat)
    requires SameWithdrawals(s, t) && id < |t.rows|
    ensures SameWithdrawals(if UnlockIsTried(t, id) then Exchange.Apply(s, Exchange.UnlockStep(id)) else s,
                            Withdrawals.Fail(t, id).0)
  {
    SameRow(s, t, id);
    if UnlockIsTried(t, id) {
      UnlockIsTheStep(s, id);
      TriedUnlock(t, id);
      UnlockMarksAgree(s, t, id, OpenUserAccounts(t.ledger, t.rows[id].user, t.rows[id].asset));
    }
  }

  lemma TriedUnlock(t: Withdrawals.Tables, id: nat)
    requires id < |t.rows| && UnlockIsTried(t, id)
    ensures var w := t.rows[id];
      Withdrawals.Fail(t, id).0 == Withdrawals.Tables(
        t.rows[id := w.(status := Withdrawals.Failed)],
        AfterPost(OpenUserAccounts(t.ledger, w.user, w.asset), FundsUnlock, WithdrawalUnlock(id),
                  Withdrawals.UnlockOf(w)))
  {
  }

  lemma UnlockStepKeepsCoverIff(s: Exchange.State, id: nat)
    requires ExchangeInvariant.Inv(s) && ExchangeTheorems.Backed(s)
    requires id < |s.withdrawals| && !s.withdrawals[id].unlocked
    requires var x := s.withdrawals[id]; 0 < x.total <= Balance(s.ledger, UserAccount(x.user, x.asset, Locked))
    ensures ExchangeTheorems.Covered(Exchange.Apply(s, Exchange.UnlockStep(id))) <==> s.withdrawals[id].locked
  {
    ExchangeTheorems.UnlockKeepsCoverIff(s, id);
    UnlockIsTheStep(s, id);
  }

  lemma UnlockIsTheStep(s: Exchange.State, id: nat)
    requires id < |s.withdrawals|
    ensures Exchange.Apply(s, Exchange.UnlockStep(id)) == Exchange.UnlockWithdrawal(s, id)
  {
  }

  /**
   * What failing a withdrawal does to everybody's locks: when the unlock posts, they stay covered if and only if the
   * withdrawal had been locked, and so always for a withdrawal that had got beyond REQUESTED.
   */
  lemma FailKeepsCoverIff(s: Exchange.State, t: Withdrawals.State, id: nat)
    requires ExchangeInvariant.Inv(s) && ExchangeTheorems.Backed(s) && SameWithdrawals(s, t.tables)
    requires WithdrawalTheorems.LocksOk(t) && id < |t.tables.rows|
    requires WithdrawalTheorems.Unlockable(t.tables, id)
    requires !HasKey(t.tables.ledger.transactions, WithdrawalUnlock(id))
    ensures var s' := Exchange.Apply(s, Exchange.UnlockStep(id));
      && SameWithdrawals(s', Withdrawals.Fail(t.tables, id).0)
      && (ExchangeTheorems.Covered(s') <==> HasKey(t.tables.ledger.transactions, WithdrawalLock(id)))
      && (WithdrawalTheorems.Accepted(t.tables.rows[id]) ==> ExchangeTheorems.Covered(s'))
  {
    FailIsTheStep(s, t.tables, id);
    SameRow(s, t.tables, id);
    UnlockStepKeepsCoverIff(s, id);
  }

  lemma SameRow(s: Exchange.State, t: Withdrawals.Tables, id: nat)
    requires SameWithdrawals(s, t) && id < |t.rows|
    ensures id < |s.withdrawals| && SameWithdrawal(s.withdrawals[id], t.rows[id], t.ledger.transactions, id)
  {
  }

  // ---------- deposits ----------

  predicate SameDeposit(x: Exchange.DepositRow, d: Deposits.Deposit, transactions: seq<Transaction>, i: nat) {
    && x.user == d.user && x.asset == d.assetNetwork.asset && x.amount == d.amount && !x.fiat
    && (x.credited <==> HasKey(transactions, DepositCredit(i)))
  }

  ghost predicate SameDeposits(s: Exchange.State, t: Deposits.Tables) {
    && s.ledger == t.ledger && |s.deposits| == |t.deposits|
    && forall i :: 0 <= i < |t.deposits| ==> SameDeposit(s.deposits[i], t.deposits[i], t.ledger.transactions, i)
  }

  /** The exchange's state after a payload was recorded: a deposit step for a new row. */
  ghost function Recorded(s: Exchange.State, t: Deposits.Tables, p: Deposits.Payload, found: Deposits.Lookup)
    : Exchange.State
  {
    if |Deposits.Record(t, p, found).0.deposits| == |t.deposits| then s
    else Exchange.Apply(s, Exchange.DepositStep(found.user, found.assetNetwork.asset, p.amount, false))
  }

  /** Recording a new event is a deposit step; a known event or a failed check is no step. */
  lemma RecordIsTheStep(s: Exchange.State, t: Deposits.Tables, p: Deposits.Payload, found: Deposits.Lookup)
    requires ExchangeInvariant.Inv(s) && SameDeposits(s, t)
    ensures SameDeposits(Recorded(s, t, p, found), Deposits.Record(t, p, found).0)
  {
    if |Deposits.Record(t, p, found).0.deposits| != |t.deposits| {
      DepositKeyIsFree(s, |t.deposits|);
    }
  }

  lemma DepositKeyIsFree(s: Exchange.State, id: nat)
    requires ExchangeInvariant.KeysOk(s) && |s.deposits| <= id
    ensures !HasKey(s.ledger.transactions, DepositCredit(id))
  {
    forall k | 0 <= k < |s.ledger.transactions| ensures s.ledger.transactions[k].key != DepositCredit(id) {
      assert ExchangeInvariant.Explained(s, s.ledger.transactions[k]);
    }
  }

  /** Confirmations are nothing to the exchange. */
  lemma UpdateIsNoStep(s: Exchange.State, t: Deposits.Tables, id: nat, confirmations: int)
    requires SameDeposits(s, t)
    ensures SameDeposits(s, Deposits.Update(t, id, confirmations).0)
  {
  }

  /** Crediting a confirmed deposit is a credit step, refused or replayed or not. */
  lemma CreditIsTheStep(s: Exchange.State, t: Deposits.Tables, id: nat)
    requires SameDeposits(s, t) && id < |t.deposits| && t.deposits[id].status == Deposits.Confirmed
    ensures SameDeposits(Exchange.Apply(s, Exchange.CreditStep(id)), Deposits.Credit(t, id).0)
  {
    var d := t.deposits[id];
    var l, entries := Deposits.OpenCreditAccounts(t.ledger, d), Deposits.CreditOf(d);
    assert SameDeposit(s.deposits[id], d, t.ledger.transactions, id);
    OwnKeyStays(l, DepositPosting, DepositCredit(id), entries);
    forall i | 0 <= i < |t.deposits| && i != id
      ensures SameDeposit(s.deposits[i], t.deposits[i],
                          AfterPost(l, DepositPosting, DepositCredit(id), entries).transactions, i)
    {
      assert SameDeposit(s.deposits[i], t.deposits[i], t.ledger.transactions, i);
      OtherKeysStay(l, DepositPosting, DepositCredit(id), entries, DepositCredit(i));
    }
  }

  /** And after a row was finished: a credit step if it came to be confirmed. */
  ghost function Finished(s: Exchange.State, t: Deposits.Tables, id: nat, confirmations: int): Exchange.State {
    var (_, row) := Deposits.Update(t, id, confirmations);
    if row.Success? && row.value.status == Deposits.Confirmed then Exchange.Apply(s, Exchange.CreditStep(id)) else s
  }

  lemma FinishIsTheStep(s: Exchange.State, t: Deposits.Tables, id: nat, confirmations: int)
    requires ExchangeInvariant.Inv(s) && SameDeposits(s, t)
    ensures SameDeposits(Finished(s, t, id, confirmations), Deposits.Finish(t, id, confirmations).0)
    ensures ExchangeInvariant.Inv(Finished(s, t, id, confirmations))
  {
    var (updated, row) := Deposits.Update(t, id, confirmations);
    UpdateIsNoStep(s, t, id, confirmations);
    if row.Success? && row.value.status == Deposits.Confirmed {
      CreditIsTheStep(s, updated, id);
      ExchangeTheorems.ApplyKeepsInv(s, Exchange.CreditStep(id));
    }
  }

  lemma RecordedKeepsInv(s: Exchange.State, t: Deposits.Tables, p: Deposits.Payload, found: Deposits.Lookup)
    requires ExchangeInvariant.Inv(s)
    ensures ExchangeInvariant.Inv(Recorded(s, t, p, found))
  {
    if |Deposits.Record(t, p, found).0.deposits| != |t.deposits| {
      ExchangeTheorems.ApplyKeepsInv(s, Exchange.DepositStep(found.user, found.assetNetwork.asset, p.amount, false));
    }
  }

  /** The exchange's state after a payload was processed. */
  ghost function Processed(s: Exchange.State, t: Deposits.Tables, p: Deposits.Payload, found: Deposits.Lookup)
    : Exchange.State
  {
    var (recorded, id) := Deposits.Record(t, p, found);
    var s1 := Recorded(s, t, p, found);
    if id.Failure? || |recorded.deposits| <= id.value then s1
    else
      Finished(s1, recorded, id.value, if p.confirmations.Some? then p.confirmations.value
                                       else recorded.deposits[id.value].confirmations)
  }

  /** Processing a payload is those steps of the exchange. */
  lemma ProcessIsTheSteps(s: Exchange.State, t: Deposits.Tables, p: Deposits.Payload, found: Deposits.Lookup)
    requires ExchangeInvariant.Inv(s) && SameDeposits(s, t)
    ensures SameDeposits(Processed(s, t, p, found), Deposits.Process(t, p, found).0)
    ensures ExchangeInvariant.Inv(Processed(s, t, p, found))
  {
    var (recorded, id) := Deposits.Record(t, p, found);
    RecordIsTheStep(s, t, p, found);
    RecordedKeepsInv(s, t, p, found);
    if id.Success? && id.value < |recorded.deposits| {
      FinishIsTheStep(Recorded(s, t, p, found), recorded, id.value,
                      if p.confirmations.Some? then p.confirmations.value
                      else recorded.deposits[id.value].confirmations);
    }
  }
}
