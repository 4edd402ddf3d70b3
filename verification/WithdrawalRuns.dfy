/**
 * Two concrete runs: one in which funds are given back although the provider was made to send them, and one in which
 * a provider that un-confirms a transfer takes a withdrawal back from CONFIRMED.
 */
module WithdrawalRuns {
  import opened Ledger
  import opened Withdrawals
  import opened WithdrawalTheorems
  import opened ExchangeInvariant

  const AVAILABLE := UserAccount(1, 0, Available)
  const LOCKED := UserAccount(1, 0, Locked)
  const CUSTODY := MainCustody(0)

  const CREDIT := [Entry(CUSTODY, 0, -1), Entry(AVAILABLE, 0, 1)]

  /** User 1 asks for one unit of asset 0 on a network that wants one confirmation; no review is needed. */
  const REQUEST := CreateRequest(1, 0, 1, "destination", "key", true, false, 1)

  // ---------- calls as steps ----------

  function Calls(id: nat, answers: seq<Answer>): seq<Step> {
    if answers == [] then [] else [AdvanceStep(id, answers[0])] + Calls(id, answers[1..])
  }

  lemma {:induction false} ContinueAdds(s: State, steps: seq<Step>, more: seq<Step>)
    ensures Continue(s, steps + more) == Continue(Continue(s, steps), more)
  {
    if more == [] {
      assert steps + more == steps;
    } else {
      assert (steps + more)[..|steps + more| - 1] == steps + more[..|more| - 1];
      ContinueAdds(s, steps, more[..|more| - 1]);
    }
  }

  lemma ContinueSingle(s: State, step: Step)
    ensures Continue(s, [step]) == Apply(s, step)
  {
    assert [step][..0] == [];
  }

  lemma {:induction false} CallsGoThrough(s: State, id: nat, answers: seq<Answer>)
    ensures Continue(s, Calls(id, answers)) == Through(s, id, answers)
    decreases |answers|
  {
    if answers != [] {
      var first := AdvanceStep(id, answers[0]);
      ContinueAdds(s, [first], Calls(id, answers[1..]));
      ContinueSingle(s, first);
      CallsGoThrough(Apply(s, first), id, answers[1..]);
    }
  }

  /** An operation that begins and makes its calls, after what happened before. */
  lemma OperationRuns(steps: seq<Step>, begin: Step, id: nat, answers: seq<Answer>)
    ensures Continue(Start, steps + ([begin] + Calls(id, answers)))
         == Through(Apply(Continue(Start, steps), begin), id, answers)
  {
    var s := Continue(Start, steps);
    ContinueAdds(Start, steps, [begin] + Calls(id, answers));
    ContinueAdds(s, [begin], Calls(id, answers));
    ContinueSingle(s, begin);
    CallsGoThrough(Apply(s, begin), id, answers);
  }

  // ---------- a funded user ----------

  /** One unit reaches the user's AVAILABLE. */
  function FundSteps(): seq<Step> {
    [ElsewhereStep(OpenRequest(CUSTODY))] + [ElsewhereStep(OpenRequest(AVAILABLE))]
    + [ElsewhereStep(PostRequest(DepositPosting, DepositCredit(0), CREDIT))]
  }

  ghost function FundedLedger(): LedgerState {
    AfterPost(OpenAccount(OpenAccount(EmptyLedger, CUSTODY), AVAILABLE), DepositPosting, DepositCredit(0), CREDIT)
  }

  lemma FundedRun()
    ensures Continue(Start, FundSteps()) == State(Tables([], FundedLedger()), [])
  {
    var one := [ElsewhereStep(OpenRequest(CUSTODY))];
    var two := one + [ElsewhereStep(OpenRequest(AVAILABLE))];
    ContinueSingle(Start, one[0]);
    ContinueOne(Start, one, ElsewhereStep(OpenRequest(AVAILABLE)));
    ContinueOne(Start, two, ElsewhereStep(PostRequest(DepositPosting, DepositCredit(0), CREDIT)));
  }

  lemma FundsArrive()
    ensures var l := FundedLedger();
      Sound(l) && 1 <= Balance(l, AVAILABLE) && !HasKey(l.transactions, WithdrawalLock(0))
  {
    OpenKeepsSound(EmptyLedger, CUSTODY);
    OpenKeepsSound(OpenAccount(EmptyLedger, CUSTODY), AVAILABLE);
    CreditArrives(OpenAccount(OpenAccount(EmptyLedger, CUSTODY), AVAILABLE));
  }

  lemma CreditArrives(l: LedgerState)
    requires Sound(l) && l.transactions == [] && CUSTODY in l.accounts && AVAILABLE in l.accounts
    ensures var l' := AfterPost(l, DepositPosting, DepositCredit(0), CREDIT);
      Sound(l') && 1 <= Balance(l', AVAILABLE) && !HasKey(l'.transactions, WithdrawalLock(0))
  {
    TransferOutcome(l, DepositPosting, DepositCredit(0), CUSTODY, AVAILABLE, 0, 1);
    PostEffect(l, DepositPosting, DepositCredit(0), CREDIT);
    TransferTotals(CUSTODY, AVAILABLE, 0, 1);
    SoundIsNonNegative(l);
  }

  // ---------- an approved withdrawal ----------

  function ApprovedSteps(): seq<Step> {
    FundSteps() + ([CreateStep(REQUEST)] + Calls(0, [Done] + ([Done] + [Done])))
  }

  /** The lock is accepted, and the unit moves to LOCKED. */
  lemma LockIsPosted(ledger: LedgerState)
    requires Sound(ledger) && 1 <= Balance(ledger, AVAILABLE) && !HasKey(ledger.transactions, WithdrawalLock(0))
    ensures var ready, entries := OpenUserAccounts(ledger, 1, 0), LockOf(RowOf(REQUEST));
      && PostOutcome(ready, FundsLock, WithdrawalLock(0), entries).Posted?
      && 1 <= Balance(AfterPost(ready, FundsLock, WithdrawalLock(0), entries), LOCKED)
  {
    var ready := OpenUserAccounts(ledger, 1, 0);
    OpenUserKeepsSound(ledger, 1, 0);
    assert Balance(ready, AVAILABLE) == Balance(ledger, AVAILABLE);
    TransferOutcome(ready, FundsLock, WithdrawalLock(0), AVAILABLE, LOCKED, 0, 1);
    PostEffect(ready, FundsLock, WithdrawalLock(0), LockOf(RowOf(REQUEST)));
    TransferTotals(AVAILABLE, LOCKED, 0, 1);
    SoundIsNonNegative(ready);
  }

  lemma CreatedTables(ledger: LedgerState)
    requires Sound(ledger) && 1 <= Balance(ledger, AVAILABLE) && !HasKey(ledger.transactions, WithdrawalLock(0))
    ensures var (t, end) := Create(Tables([], ledger), REQUEST);
      end.Success? && t.rows == [Accept(RowOf(REQUEST))] && 1 <= Balance(t.ledger, LOCKED)
  {
    LockIsPosted(ledger);
  }

  lemma ApprovedTables()
    ensures var s := Continue(Start, ApprovedSteps());
      && Working(s, 0, Idle) && s.tables.rows == [Accept(RowOf(REQUEST))] && 1 <= Balance(s.tables.ledger, LOCKED)
  {
    FundedRun();
    FundsArrive();
    CreatedTables(FundedLedger());
    CreateInSteps(Continue(Start, FundSteps()), REQUEST);
    OperationRuns(FundSteps(), CreateStep(REQUEST), 0, [Done] + ([Done] + [Done]));
  }

  lemma ApprovedRun()
    ensures var s := Continue(Start, ApprovedSteps());
      && WithdrawalTheorems.Inv(s) && Working(s, 0, Idle) && s.tables.rows == [Accept(RowOf(REQUEST))]
      && 1 <= Balance(s.tables.ledger, LOCKED)
  {
    ApprovedTables();
    EveryRunKeepsInv(ApprovedSteps());
  }

  // ---------- sent, yet unlocked ----------

  /** The job's send reaches the provider and its answer is lost; the job fails the withdrawal. */
  function LostSendSteps(): seq<Step> {
    ApprovedSteps() + ([ProcessStep(0)] + Calls(0, ProcessCalls(Lost, Done, Done)))
  }

  /** One transfer was started, and the funds were given back. */
  lemma SentAndUnlocked()
    ensures var t := Continue(Start, LostSendSteps()).tables;
      |t.rows| == 1 && t.rows[0].sends == 1 && HasKey(t.ledger.transactions, WithdrawalUnlock(0))
  {
    var s := Continue(Start, ApprovedSteps());
    ApprovedRun();
    OperationRuns(ApprovedSteps(), ProcessStep(0), 0, ProcessCalls(Lost, Done, Done));
    ProcessInSteps(Apply(s, ProcessStep(0)), 0, Lost, Done, Done);
    SentYetUnlockedIff(s, 0, Lost, Done, Done);
    JobKeepsRowCount(s.tables, 0, Lost, Done, Done);
  }

  lemma JobKeepsRowCount(t: Tables, id: nat, send: Answer, store: Answer, announce: Answer)
    ensures |Process(t, id, send, store, announce).0.rows| == |t.rows|
  {
  }

  // ---------- from CONFIRMED back to BROADCASTED ----------

  const IDS := ProviderIds("transfer", "", "hash")

  function SubmittedSteps(): seq<Step> {
    ApprovedSteps() + ([ProcessStep(0)] + Calls(0, ProcessCalls(SentAs(IDS), Done, Done)))
  }

  function ConfirmedSteps(): seq<Step> {
    SubmittedSteps() + ([FinalizeStep(0)] + Calls(0, [TransferIs(Transfer(TransferConfirmed, 0, ""))]))
  }

  function UnconfirmedSteps(): seq<Step> {
    ConfirmedSteps() + ([FinalizeStep(0)] + Calls(0, [TransferIs(Transfer(OtherState, 0, ""))]))
  }

  lemma SubmittedRun()
    ensures var s := Continue(Start, SubmittedSteps());
      && Working(s, 0, Idle) && s.tables.rows[0].status == Submitted && s.tables.rows[0].ids == IDS
      && s.tables.rows[0].required == 1
  {
    var s := Continue(Start, ApprovedSteps());
    ApprovedRun();
    OperationRuns(ApprovedSteps(), ProcessStep(0), 0, ProcessCalls(SentAs(IDS), Done, Done));
    ProcessInSteps(Apply(s, ProcessStep(0)), 0, SentAs(IDS), Done, Done);
  }

  /** A look-up of a withdrawal at rest with a stored transfer follows that transfer. */
  lemma LookUpFollows(steps: seq<Step>, t: Transfer)
    requires var s := Continue(Start, steps);
      Working(s, 0, Idle) && Finalizable(s.tables.rows[0]) && s.tables.rows[0].ids.transferId != ""
    ensures var s := Continue(Start, steps);
      var s' := Continue(Start, steps + ([FinalizeStep(0)] + Calls(0, [TransferIs(t)])));
      Working(s', 0, Idle) && s'.tables.rows[0] == Follow(s.tables.rows[0], t)
  {
    OperationRuns(steps, FinalizeStep(0), 0, [TransferIs(t)]);
    assert [TransferIs(t)] + [] == [TransferIs(t)];
    OneStep(Apply(Continue(Start, steps), FinalizeStep(0)), 0, TransferIs(t), []);
  }

  /** The provider first confirms and then no longer does; the rank drops. */
  lemma RankCanDrop()
    ensures var before := Continue(Start, ConfirmedSteps()).tables.rows;
      var after := Continue(Start, UnconfirmedSteps()).tables.rows;
      before != [] && after != [] && before[0].status == Confirmed && after[0].status == Broadcasted
  {
    SubmittedRun();
    LookUpFollows(SubmittedSteps(), Transfer(TransferConfirmed, 0, ""));
    LookUpFollows(ConfirmedSteps(), Transfer(OtherState, 0, ""));
  }
}
