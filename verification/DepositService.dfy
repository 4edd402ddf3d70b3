/** The deposit service as imperative code over mutable tables. */
module DepositService {
  import opened Ledger
  import opened LedgerService
  import opened Orders
  import opened Deposits

  class DepositTables {
    const ledger: LedgerTables
    var deposits: seq<Deposit>

    function View(): Tables
      reads this, ledger
    {
      Tables(deposits, ledger.State())
    }

    constructor (ledger: LedgerTables)
      ensures this.ledger == ledger && deposits == []
    {
      this.ledger := ledger;
      deposits := [];
    }

    method RecordDetectedDeposit(p: Payload, found: Lookup) returns (id: Result<nat, DepositError>)
      modifies this`deposits
      ensures (View(), id) == Record(old(View()), p, found)
    {
      var checks := RecordChecks(p, found);
      if checks.Failure? {
        return Failure(checks.error);
      }
      var row := RowOf(p, found);
      if HasEvent(deposits, row) {
        return Success(FindEvent(deposits, row));
      }
      id := Success(|deposits|);
      deposits := deposits + [row];
    }

    method UpdateDepositConfirmations(id: nat, confirmations: int) returns (row: Result<Deposit, DepositError>)
      modifies this`deposits
      ensures (View(), row) == Update(old(View()), id, confirmations)
    {
      if confirmations < 0 {
        return Failure(ConfirmationsInvalid);
      }
      if |deposits| <= id {
        return Failure(DepositNotFound);
      }
      var deposit := deposits[id];
      if deposit.status == Credited || deposit.status == DepositStatus.Rejected {
        return Success(deposit);
      }
      if confirmations < deposit.confirmations {
        return Success(deposit);
      }
      var nextStatus := StatusFrom(confirmations, deposit.assetNetwork.minConfirmations);
      deposits := deposits[id := deposit.(confirmations := confirmations, status := nextStatus)];
      return Success(deposits[id]);
    }

    method CreditConfirmedDeposit(id: nat) returns (end: Result<(), DepositError>)
      modifies this`deposits, ledger
      ensures (View(), end) == Credit(old(View()), id)
    {
      if |deposits| <= id {
        return Failure(DepositNotFound);
      }
      var deposit := deposits[id];
      if deposit.status == Credited {
        return Success(());
      }
      if deposit.status != Confirmed {
        return Failure(OnlyConfirmed);
      }
      ledger.GetOrCreateUserWalletAccounts(deposit.user, deposit.assetNetwork.asset);
      ledger.GetOrCreate(MainCustody(deposit.assetNetwork.asset));
      var post := ledger.PostLedgerTransaction(DepositPosting, DepositCredit(id), CreditOf(deposit));
      if post.Refused? {
        return Failure(CreditRefused(post.error));
      }
      deposits := deposits[id := deposit.(status := Credited)];
      return Success(());
    }

    method ProcessDetectedDeposit(p: Payload, found: Lookup) returns (id: Result<nat, DepositError>)
      modifies this`deposits, ledger
      ensures (View(), id) == Process(old(View()), p, found)
    {
      id := RecordDetectedDeposit(p, found);
      if id.Failure? {
        return;
      }
      var deposit := deposits[id.value];
      var confirmations := if p.confirmations.Some? then p.confirmations.value else deposit.confirmations;
      var updated := UpdateDepositConfirmations(id.value, confirmations);
      if updated.Failure? {
        return Failure(updated.error);
      }
      if updated.value.status != Confirmed {
        return;
      }
      var credited := CreditConfirmedDeposit(id.value);
      if credited.Failure? {
        return Failure(credited.error);
      }
    }
  }
}
