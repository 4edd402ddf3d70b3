/**
 * The withdrawal services as imperative code over mutable tables. What the provider and the calls after it answer
 * are parameters.
 */
module WithdrawalService {
  import opened Ledger
  import opened LedgerService
  import opened Orders
  import opened Withdrawals

  class WithdrawalTables {
    const ledger: LedgerTables
    var rows: seq<Withdrawal>

    function View(): Tables
      reads this, ledger
    {
      Tables(rows, ledger.State())
    }

    constructor (ledger: LedgerTables)
      ensures this.ledger == ledger && rows == []
    {
      this.ledger := ledger;
      rows := [];
    }

    method CreateWithdrawalRequest(r: CreateRequest) returns (end: Result<(), WithdrawalError>)
      modifies this`rows, ledger
      ensures (View(), end) == Create(old(View()), r)
    {
      var checks := CreateChecks(rows, r);
      if checks.Failure? {
        return Failure(checks.error);
      }
      if !checks.value {
        return Success(());
      }
      ledger.GetOrCreateUserWalletAccounts(r.user, r.asset);
      var id, withdrawal := |rows|, RowOf(r);
      rows := rows + [withdrawal];
      var post := ledger.PostLedgerTransaction(FundsLock, WithdrawalLock(id), LockOf(withdrawal));
      if post.Refused? {
        return Failure(LedgerRefused(post.error));
      }
      rows := rows[id := withdrawal.(status := if withdrawal.review then PendingReview else Approved)];
      assert rows == old(rows) + [Accept(withdrawal)];
      return Success(());
    }

    method UnlockWithdrawalFunds(id: nat) returns (end: Result<(), WithdrawalError>)
      modifies ledger
      ensures (View(), end) == Unlock(old(View()), id)
    {
      if |rows| <= id {
        return Failure(WithdrawalNotFound);
      }
      var withdrawal := rows[id];
      if withdrawal.status in {Submitted, Broadcasted, Confirmed, Completed} {
        return Failure(AlreadySubmitted);
      }
      if withdrawal.ids.transferId != "" || withdrawal.ids.txHash != "" {
        return Failure(TransferExists);
      }
      ledger.GetOrCreateUserWalletAccounts(withdrawal.user, withdrawal.asset);
      var post := ledger.PostLedgerTransaction(FundsUnlock, WithdrawalUnlock(id), UnlockOf(withdrawal));
      if post.Refused? {
        return Failure(LedgerRefused(post.error));
      }
      return Success(());
    }

    method FailWithdrawalAndUnlockFunds(id: nat) returns (end: Result<(), WithdrawalError>)
      modifies this`rows, ledger
      ensures (View(), end) == Fail(old(View()), id)
    {
      if |rows| <= id {
        return Failure(WithdrawalNotFound);
      }
      if rows[id].status == Completed {
        return Failure(CannotFailCompleted);
      }
      rows := rows[id := rows[id].(status := Failed)];
      end := UnlockWithdrawalFunds(id);
    }

    /** The try block of a job: ask the provider, store its ids, announce. */
    method TrySubmit(id: nat, send: Answer, store: Answer, announce: Answer) returns (interrupted: bool)
      requires id < |rows|
      modifies this`rows
      ensures rows == old(rows)[id := Tried(old(rows)[id], send, store)]
      ensures interrupted <==> Interrupts(send, store, announce)
    {
      rows := rows[id := AfterSend(rows[id], send)];
      if !send.SentAs? {
        return true;
      }
      if store != NotApplied {
        rows := rows[id := rows[id].(status := Submitted, ids := send.ids)];
      }
      return store == Lost || store == NotApplied || announce == Lost || announce == NotApplied;
    }

    method ProcessApprovedWithdrawal(id: nat, send: Answer, store: Answer, announce: Answer)
      returns (end: Result<(), WithdrawalError>)
      modifies this`rows, ledger
      ensures (View(), end) == Process(old(View()), id, send, store, announce)
    {
      if |rows| <= id {
        return Failure(WithdrawalNotFound);
      }
      if rows[id].status != Approved {
        return Success(());
      }
      ghost var before := View();
      ghost var tried := Tried(rows[id].(status := Processing), send, store);
      rows := rows[id := rows[id].(status := Processing)];
      var interrupted := TrySubmit(id, send, store, announce);
      OverwrittenRow(before.rows, id, before.rows[id].(status := Processing), tried);
      assert View() == before.(rows := before.rows[id := tried]);
      ProcessTries(before, id, send, store, announce);
      if interrupted {
        var _ := FailWithdrawalAndUnlockFunds(id);
        return Failure(Interrupted);
      }
      return Success(());
    }

    method FinalizeSubmittedWithdrawal(id: nat, answer: Answer) returns (end: Result<(), WithdrawalError>)
      modifies this`rows
      ensures (View(), end) == Finalize(old(View()), id, answer)
    {
      if |rows| <= id {
        return Failure(WithdrawalNotFound);
      }
      var withdrawal := rows[id];
      if withdrawal.status !in {Submitted, Broadcasted, Confirmed} {
        return Success(());
      }
      if withdrawal.ids.transferId == "" && withdrawal.ids.txRequestId != "" {
        return Success(());
      }
      if withdrawal.ids.transferId == "" {
        return Failure(TransferIdMissing);
      }
      if !answer.TransferIs? {
        return Failure(Interrupted);
      }
      var transfer := answer.transfer;
      var txHash := if transfer.txid != "" then transfer.txid else withdrawal.ids.txHash;
      var nextStatus := NextStatus(withdrawal, transfer);
      var updated := withdrawal.(confirmations := transfer.confirmations, ids := withdrawal.ids.(txHash := txHash));
      if nextStatus != withdrawal.status {
        updated := updated.(status := nextStatus);
      }
      rows := rows[id := updated];
      return Success(());
    }
  }
}
