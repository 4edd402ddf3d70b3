/**
 * The life of a withdrawal: funds locked, sent once through the custody provider, followed to its end, or failed and
 * unlocked. Operations on one withdrawal do not overlap, but each may stop between any two calls and any call may fail
 * with or without having taken effect.
 */
module Withdrawals {
  import opened Ledger
  import opened Orders
  import Exchange

  datatype WithdrawalStatus =
    | Requested | PendingReview | Approved | Processing
    | Submitted | Broadcasted | Confirmed | Completed | Failed

  /** Identifiers from the provider; the empty string stands for a missing one. */
  datatype ProviderIds = ProviderIds(transferId: string, txRequestId: string, txHash: string)

  const NO_IDS := ProviderIds("", "", "")

  /** A withdrawal row; its id is its index. `sends` counts the transfers that the provider was made to start. */
  datatype Withdrawal = Withdrawal(
    user: User, asset: Asset, total: int, requestKey: string, review: bool, required: int,
    status: WithdrawalStatus, ids: ProviderIds, confirmations: int, sends: nat)

  /** A create request, with what configuration and tables say about it just now. */
  datatype CreateRequest = CreateRequest(
    user: User, asset: Asset, amount: int, destination: string, requestKey: string,
    supported: bool, review: bool, minConfirmations: int)

  datatype TransferState = TransferFailed | TransferRejected | TransferCanceled | TransferConfirmed | OtherState

  datatype Transfer = Transfer(state: TransferState, confirmations: int, txid: string)

  /** What a call did, and whether its caller was told; a send and a look-up also bring data back. */
  datatype Answer = Done | Lost | NotApplied | SentAs(ids: ProviderIds) | TransferIs(transfer: Transfer)

  datatype WithdrawalError =
    | DestinationRequired | RequestKeyRequired | AmountNotPositive | NotSupported | WithdrawalNotFound
    | CannotFailCompleted | AlreadySubmitted | TransferExists | TransferIdMissing | Interrupted
    | LedgerRefused(ledger: LedgerError)

  datatype Tables = Tables(rows: seq<Withdrawal>, ledger: LedgerState)

  // ---------- creating ----------

  predicate HasRequest(rows: seq<Withdrawal>, key: string) {
    exists i :: 0 <= i < |rows| && rows[i].requestKey == key
  }

  function CreateChecks(rows: seq<Withdrawal>, r: CreateRequest): Result<bool, WithdrawalError> {
    if r.destination == "" then Failure(DestinationRequired)
    else if r.requestKey == "" then Failure(RequestKeyRequired)
    else if r.amount < 0 then Failure(AmountNotPositive)
    else if HasRequest(rows, r.requestKey) then Success(false)
    else if !r.supported then Failure(NotSupported)
    else Success(true)
  }

  function RowOf(r: CreateRequest): Withdrawal {
    Withdrawal(r.user, r.asset, r.amount, r.requestKey, r.review, r.minConfirmations, Requested, NO_IDS, 0, 0)
  }

  function LockOf(w: Withdrawal): seq<Entry> {
    Exchange.LockEntries(w.user, w.asset, w.total)
  }

  function UnlockOf(w: Withdrawal): seq<Entry> {
    Exchange.UnlockEntries(w.user, w.asset, w.total)
  }

  function Accept(w: Withdrawal): Withdrawal {
    w.(status := if w.review then PendingReview else Approved)
  }

  /** createWithdrawalRequest: row first, then the lock, then the status that lets a job pick it up. */
  ghost function Create(t: Tables, r: CreateRequest): (Tables, Result<(), WithdrawalError>) {
    var checks := CreateChecks(t.rows, r);
    if checks.Failure? then (t, Failure(checks.error))
    else if !checks.value then (t, Success(()))
    else
      var w, id, ready := RowOf(r), |t.rows|, OpenUserAccounts(t.ledger, r.user, r.asset);
      var post := PostOutcome(ready, FundsLock, WithdrawalLock(id), LockOf(w));
      if post.Refused? then (Tables(t.rows + [w], ready), Failure(LedgerRefused(post.error)))
      else (Tables(t.rows + [Accept(w)], AfterPost(ready, FundsLock, WithdrawalLock(id), LockOf(w))), Success(()))
  }

  // ---------- failing ----------

  predicate UnlockIsUnsafe(w: Withdrawal) {
    w.status == Submitted || w.status == Broadcasted || w.status == Confirmed || w.status == Completed
  }

  predicate HoldsTransfer(w: Withdrawal) {
    w.ids.transferId != "" || w.ids.txHash != ""
  }

  ghost function Unlock(t: Tables, id: nat): (Tables, Result<(), WithdrawalError>) {
    if |t.rows| <= id then (t, Failure(WithdrawalNotFound))
    else if UnlockIsUnsafe(t.rows[id]) then (t, Failure(AlreadySubmitted))
    else if HoldsTransfer(t.rows[id]) then (t, Failure(TransferExists))
    else
      var w := t.rows[id];
      var ready := OpenUserAccounts(t.ledger, w.user, w.asset);
      var post := PostOutcome(ready, FundsUnlock, WithdrawalUnlock(id), UnlockOf(w));
      (t.(ledger := AfterPost(ready, FundsUnlock, WithdrawalUnlock(id), UnlockOf(w))),
       if post.Refused? then Failure(LedgerRefused(post.error)) else Success(()))
  }

  /** failWithdrawalAndUnlockFunds: the row is FAILED before the unlock is even tried. */
  ghost function Fail(t: Tables, id: nat): (Tables, Result<(), WithdrawalError>) {
    if |t.rows| <= id then (t, Failure(WithdrawalNotFound))
    else if t.rows[id].status == Completed then (t, Failure(CannotFailCompleted))
    else Unlock(t.(rows := t.rows[id := t.rows[id].(status := Failed)]), id)
  }

  // ---------- sending ----------

  /** The row after the provider was asked: a transfer was started unless the call failed before reaching it. */
  function AfterSend(w: Withdrawal, send: Answer): Withdrawal {
    if send.SentAs? || send == Lost then w.(sends := w.sends + 1) else w
  }

  function Submit(w: Withdrawal, ids: ProviderIds): Withdrawal {
    w.(status := Submitted, ids := ids)
  }

  /** processApprovedWithdrawal, with the answers of the provider, of the update to SUBMITTED and of what follows it. */
  ghost function Process(t: Tables, id: nat, send: Answer, store: Answer, announce: Answer)
    : (Tables, Result<(), WithdrawalError>)
  {
    if |t.rows| <= id then (t, Failure(WithdrawalNotFound))
    else if t.rows[id].status != Approved then (t, Success(()))
    else
      var sent := AfterSend(t.rows[id].(status := Processing), send);
      if !send.SentAs? then (Fail(t.(rows := t.rows[id := sent]), id).0, Failure(Interrupted))
      else
        var stored := if store == NotApplied then sent else Submit(sent, send.ids);
        var t' := t.(rows := t.rows[id := stored]);
        if store == Lost || store == NotApplied || announce == Lost || announce == NotApplied then
          (Fail(t', id).0, Failure(Interrupted))
        else (t', Success(()))
  }

  /** The row after the try block of a job, and whether the block was left by an exception. */
  function Tried(w: Withdrawal, send: Answer, store: Answer): Withdrawal {
    if send.SentAs? && store != NotApplied then Submit(AfterSend(w, send), send.ids) else AfterSend(w, send)
  }

  predicate Interrupts(send: Answer, store: Answer, announce: Answer) {
    !send.SentAs? || store == Lost || store == NotApplied || announce == Lost || announce == NotApplied
  }

  lemma ProcessTries(t: Tables, id: nat, send: Answer, store: Answer, announce: Answer)
    requires id < |t.rows| && t.rows[id].status == Approved
    ensures var t' := t.(rows := t.rows[id := Tried(t.rows[id].(status := Processing), send, store)]);
      Process(t, id, send, store, announce) ==
        if Interrupts(send, store, announce) then (Fail(t', id).0, Failure(Interrupted)) else (t', Success(()))
  {
  }

  // ---------- following the transfer ----------

  function NextStatus(w: Withdrawal, t: Transfer): WithdrawalStatus {
    if t.state == TransferFailed || t.state == TransferRejected || t.state == TransferCanceled then Failed
    else if t.state == TransferConfirmed && (w.required == 0 || w.required <= t.confirmations) then Completed
    else if t.state == TransferConfirmed then Confirmed
    else if t.txid != "" || w.ids.txHash != "" then Broadcasted
    else w.status
  }

  predicate Finalizable(w: Withdrawal) {
    w.status == Submitted || w.status == Broadcasted || w.status == Confirmed
  }

  function Follow(w: Withdrawal, t: Transfer): Withdrawal {
    w.(status := NextStatus(w, t), confirmations := t.confirmations,
       ids := w.ids.(txHash := if t.txid != "" then t.txid else w.ids.txHash))
  }

  /** finalizeSubmittedWithdrawal. Without a transfer id it waits for the provider's approval, or fails. */
  function Finalize(t: Tables, id: nat, answer: Answer): (Tables, Result<(), WithdrawalError>) {
    if |t.rows| <= id then (t, Failure(WithdrawalNotFound))
    else if !Finalizable(t.rows[id]) then (t, Success(()))
    else if t.rows[id].ids.transferId == "" then
      (t, if t.rows[id].ids.txRequestId != "" then Success(()) else Failure(TransferIdMissing))
    else if !answer.TransferIs? then (t, Failure(Interrupted))
    else (t.(rows := t.rows[id := Follow(t.rows[id], answer.transfer)]), Success(()))
  }

  // ---------- the same operations, one call at a time ----------

  /** The call that the operation at work on a withdrawal makes next. */
  datatype Op =
    | Idle
    | Logging | Locking | Accepting
    | Starting | Sending | Storing(ids: ProviderIds) | Announcing
    | Failing | Unlocking | PostingUnlock
    | Finalizing

  datatype State = State(tables: Tables, ops: seq<Op>)

  datatype Step =
    | CreateStep(request: CreateRequest)
    | ProcessStep(id: nat)
    | FailStep(id: nat)
    | FinalizeStep(id: nat)
    | AdvanceStep(id: nat, answer: Answer)
    | CrashStep(id: nat)
    | ElsewhereStep(posting: Ledger.Request)

  function Goto(s: State, id: nat, op: Op): State {
    if id < |s.ops| then s.(ops := s.ops[id := op]) else s
  }

  function SetRow(s: State, id: nat, w: Withdrawal): State {
    if id < |s.tables.rows| then s.(tables := s.tables.(rows := s.tables.rows[id := w])) else s
  }

  function SetLedger(s: State, ledger: LedgerState): State {
    s.(tables := s.tables.(ledger := ledger))
  }

  /** A call that throws ends its operation; inside the try block of a send it leads to failing. */
  ghost function Advance(s: State, id: nat, answer: Answer): State
    requires id < |s.tables.rows| && id < |s.ops|
  {
    var w, ledger := s.tables.rows[id], s.tables.ledger;
    match s.ops[id]
    case Idle => s
    case Logging => Goto(s, id, if answer == Done then Locking else Idle)
    case Locking =>
      var s' := if answer == NotApplied then s
                else SetLedger(s, AfterPost(ledger, FundsLock, WithdrawalLock(id), LockOf(w)));
      var refused := PostOutcome(ledger, FundsLock, WithdrawalLock(id), LockOf(w)).Refused?;
      Goto(s', id, if answer == Done && !refused then Accepting else Idle)
    case Accepting => Goto(if answer == NotApplied then s else SetRow(s, id, Accept(w)), id, Idle)
    case Starting =>
      if w.status != Approved || answer == NotApplied then Goto(s, id, Idle)
      else Goto(SetRow(s, id, w.(status := Processing)), id, if answer == Lost then Idle else Sending)
    case Sending =>
      Goto(SetRow(s, id, AfterSend(w, answer)), id, if answer.SentAs? then Storing(answer.ids) else Failing)
    case Storing(ids) =>
      Goto(if answer == NotApplied then s else SetRow(s, id, Submit(w, ids)), id,
           if answer == Lost || answer == NotApplied then Failing else Announcing)
    case Announcing => Goto(s, id, if answer == Lost || answer == NotApplied then Failing else Idle)
    case Failing =>
      if w.status == Completed || answer == NotApplied then Goto(s, id, Idle)
      else Goto(SetRow(s, id, w.(status := Failed)), id, if answer == Lost then Idle else Unlocking)
    case Unlocking =>
      if UnlockIsUnsafe(w) || HoldsTransfer(w) || answer == NotApplied then Goto(s, id, Idle)
      else
        Goto(SetLedger(s, OpenUserAccounts(ledger, w.user, w.asset)), id,
             if answer == Lost then Idle else PostingUnlock)
    case PostingUnlock =>
      Goto(if answer == NotApplied then s
           else SetLedger(s, AfterPost(ledger, FundsUnlock, WithdrawalUnlock(id), UnlockOf(w))), id, Idle)
    case Finalizing =>
      Goto(if answer.TransferIs? && Finalizable(w) && w.ids.transferId != ""
           then SetRow(s, id, Follow(w, answer.transfer)) else s, id, Idle)
  }

  /** An operation starts only when no other is at work on the withdrawal. */
  function Begin(s: State, id: nat, op: Op): State {
    if id < |s.ops| && s.ops[id].Idle? then Goto(s, id, op) else s
  }

  function BeginCreate(s: State, r: CreateRequest): State {
    if CreateChecks(s.tables.rows, r) != Success(true) then s
    else
      State(Tables(s.tables.rows + [RowOf(r)], OpenUserAccounts(s.tables.ledger, r.user, r.asset)), s.ops + [Logging])
  }

  /** The rest of the system posts under other keys. */
  predicate Foreign(posting: Ledger.Request) {
    posting.PostRequest? ==> !posting.key.WithdrawalLock? && !posting.key.WithdrawalUnlock?
  }

  ghost function Apply(s: State, step: Step): State {
    match step
    case CreateStep(r) => BeginCreate(s, r)
    case ProcessStep(id) => Begin(s, id, Starting)
    case FailStep(id) => Begin(s, id, Failing)
    case FinalizeStep(id) => Begin(s, id, Finalizing)
    case AdvanceStep(id, answer) => if id < |s.tables.rows| && id < |s.ops| then Advance(s, id, answer) else s
    case CrashStep(id) => Goto(s, id, Idle)
    case ElsewhereStep(posting) =>
      if Foreign(posting) then SetLedger(s, Serve(s.tables.ledger, posting)) else s
  }

  const Start := State(Tables([], EmptyLedger), [])

  ghost function Continue(s: State, steps: seq<Step>): State {
    if steps == [] then s else Apply(Continue(s, steps[..|steps| - 1]), steps[|steps| - 1])
  }

  // ---------- uninterrupted steps are the operation ----------

  /** The steps of an operation in order, from its next call on. */
  ghost function Through(s: State, id: nat, answers: seq<Answer>): State
    decreases |answers|
  {
    if answers == [] then s else Through(Apply(s, AdvanceStep(id, answers[0])), id, answers[1..])
  }

  lemma {:induction false} IdleStays(s: State, id: nat, answers: seq<Answer>)
    requires id < |s.ops| && s.ops[id].Idle?
    ensures Through(s, id, answers) == s
    decreases |answers|
  {
    if answers != [] {
      IdleStays(s, id, answers[1..]);
    }
  }

  predicate Working(s: State, id: nat, op: Op) {
    id < |s.tables.rows| && |s.ops| == |s.tables.rows| && s.ops[id] == op
  }

  lemma OneStep(s: State, id: nat, answer: Answer, rest: seq<Answer>)
    ensures Through(s, id, [answer] + rest) == Through(Apply(s, AdvanceStep(id, answer)), id, rest)
  {
    assert ([answer] + rest)[1..] == rest;
  }

  lemma PostUnlockInSteps(s: State, id: nat)
    requires Working(s, id, PostingUnlock)
    ensures Through(s, id, [Done]).tables == s.tables.(ledger :=
      AfterPost(s.tables.ledger, FundsUnlock, WithdrawalUnlock(id), UnlockOf(s.tables.rows[id])))
    ensures Working(Through(s, id, [Done]), id, Idle)
  {
    assert [Done] + [] == [Done];
    OneStep(s, id, Done, []);
  }

  lemma UnlockInSteps(s: State, id: nat)
    requires Working(s, id, Unlocking)
    ensures Through(s, id, [Done] + [Done]).tables == Unlock(s.tables, id).0
    ensures Working(Through(s, id, [Done] + [Done]), id, Idle)
  {
    var s1 := Apply(s, AdvanceStep(id, Done));
    OneStep(s, id, Done, [Done]);
    if s1.ops[id].Idle? {
      IdleStays(s1, id, [Done]);
    } else {
      PostUnlockInSteps(s1, id);
    }
  }

  /** The answers that let a failure run to its end. */
  const FAIL_CALLS := [Done] + ([Done] + [Done])

  lemma FailInSteps(s: State, id: nat)
    requires Working(s, id, Failing)
    ensures Through(s, id, FAIL_CALLS).tables == Fail(s.tables, id).0
    ensures Working(Through(s, id, FAIL_CALLS), id, Idle)
  {
    var s1 := Apply(s, AdvanceStep(id, Done));
    OneStep(s, id, Done, [Done] + [Done]);
    if s1.ops[id].Idle? {
      IdleStays(s1, id, [Done] + [Done]);
    } else {
      UnlockInSteps(s1, id);
    }
  }

  function StoreCalls(store: Answer, announce: Answer): seq<Answer> {
    var fails := announce == Lost || announce == NotApplied;
    if store == Lost || store == NotApplied then [store] + FAIL_CALLS
    else [store] + ([announce] + (if fails then FAIL_CALLS else []))
  }

  /** The calls that a processing job makes, given what the three calls in its try block answer. */
  function ProcessCalls(send: Answer, store: Answer, announce: Answer): seq<Answer> {
    [Done] + ([send] + (if send.SentAs? then StoreCalls(store, announce) else FAIL_CALLS))
  }

  lemma SendCalls(s: State, id: nat, send: Answer)
    requires Working(s, id, Starting) && s.tables.rows[id].status == Approved
    ensures var s2 := Apply(Apply(s, AdvanceStep(id, Done)), AdvanceStep(id, send));
      var sent := AfterSend(s.tables.rows[id].(status := Processing), send);
      && s2.tables == s.tables.(rows := s.tables.rows[id := sent])
      && Working(s2, id, if send.SentAs? then Storing(send.ids) else Failing)
  {
  }

  lemma SendInSteps(s: State, id: nat, send: Answer, rest: seq<Answer>)
    requires Working(s, id, Starting) && s.tables.rows[id].status == Approved
    ensures var s2 := Apply(Apply(s, AdvanceStep(id, Done)), AdvanceStep(id, send));
      var sent := AfterSend(s.tables.rows[id].(status := Processing), send);
      && s2.tables == s.tables.(rows := s.tables.rows[id := sent])
      && Working(s2, id, if send.SentAs? then Storing(send.ids) else Failing)
      && Through(s, id, [Done] + ([send] + rest)) == Through(s2, id, rest)
  {
    SendCalls(s, id, send);
    OneStep(s, id, Done, [send] + rest);
    OneStep(Apply(s, AdvanceStep(id, Done)), id, send, rest);
  }

  /** Left alone, a processing job does what the operation says, its failing included. */
  lemma ProcessInSteps(s: State, id: nat, send: Answer, store: Answer, announce: Answer)
    requires Working(s, id, Starting)
    ensures Through(s, id, ProcessCalls(send, store, announce)).tables
         == Process(s.tables, id, send, store, announce).0
    ensures Working(Through(s, id, ProcessCalls(send, store, announce)), id, Idle)
  {
    var rest := if send.SentAs? then StoreCalls(store, announce) else FAIL_CALLS;
    if s.tables.rows[id].status != Approved {
      OneStep(s, id, Done, [send] + rest);
      IdleStays(Apply(s, AdvanceStep(id, Done)), id, [send] + rest);
    } else {
      SendInSteps(s, id, send, rest);
      var s2 := Apply(Apply(s, AdvanceStep(id, Done)), AdvanceStep(id, send));
      if send.SentAs? {
        StoreInSteps(s2, id, send.ids, store, announce);
        OverwrittenRow(s.tables.rows, id, s2.tables.rows[id], Submit(s2.tables.rows[id], send.ids));
      } else {
        FailInSteps(s2, id);
      }
    }
  }

  lemma OverwrittenRow(rows: seq<Withdrawal>, id: nat, w: Withdrawal, w': Withdrawal)
    requires id < |rows|
    ensures rows[id := w][id := w'] == rows[id := w'] && rows[id := w][id := w] == rows[id := w]
  {
  }

  lemma AnnounceInSteps(s: State, id: nat, announce: Answer)
    requires Working(s, id, Announcing)
    ensures var fails := announce == Lost || announce == NotApplied;
      var end := Through(s, id, [announce] + (if fails then FAIL_CALLS else []));
      end.tables == (if fails then Fail(s.tables, id).0 else s.tables) && Working(end, id, Idle)
  {
    var fails := announce == Lost || announce == NotApplied;
    OneStep(s, id, announce, if fails then FAIL_CALLS else []);
    if fails {
      FailInSteps(Apply(s, AdvanceStep(id, announce)), id);
    }
  }

  /** The tables after the update to SUBMITTED, by its answer. */
  function StoredTables(t: Tables, id: nat, ids: ProviderIds, store: Answer): Tables
    requires id < |t.rows|
  {
    if store == NotApplied then t else t.(rows := t.rows[id := Submit(t.rows[id], ids)])
  }

  lemma FailedStoreInSteps(s: State, id: nat, ids: ProviderIds, store: Answer)
    requires Working(s, id, Storing(ids)) && (store == Lost || store == NotApplied)
    ensures var end := Through(s, id, [store] + FAIL_CALLS);
      end.tables == Fail(StoredTables(s.tables, id, ids, store), id).0 && Working(end, id, Idle)
  {
    OneStep(s, id, store, FAIL_CALLS);
    FailInSteps(Apply(s, AdvanceStep(id, store)), id);
  }

  lemma StoreInSteps(s: State, id: nat, ids: ProviderIds, store: Answer, announce: Answer)
    requires Working(s, id, Storing(ids))
    ensures var t := StoredTables(s.tables, id, ids, store); var end := Through(s, id, StoreCalls(store, announce));
      var fails := store == Lost || store == NotApplied || announce == Lost || announce == NotApplied;
      end.tables == (if fails then Fail(t, id).0 else t) && Working(end, id, Idle)
  {
    if store == Lost || store == NotApplied {
      FailedStoreInSteps(s, id, ids, store);
    } else {
      var fails := announce == Lost || announce == NotApplied;
      OneStep(s, id, store, [announce] + (if fails then FAIL_CALLS else []));
      AnnounceInSteps(Apply(s, AdvanceStep(id, store)), id, announce);
    }
  }

  /** Left alone, a create request does what the operation says. */
  lemma CreateInSteps(s: State, r: CreateRequest)
    requires |s.ops| == |s.tables.rows|
    ensures var end := Through(BeginCreate(s, r), |s.ops|, [Done] + ([Done] + [Done]));
      && end.tables == Create(s.tables, r).0
      && (CreateChecks(s.tables.rows, r) == Success(true) ==> Working(end, |s.ops|, Idle))
  {
    var id, s0 := |s.ops|, BeginCreate(s, r);
    if CreateChecks(s.tables.rows, r) != Success(true) {
      NothingThere(s, id, [Done] + ([Done] + [Done]));
    } else {
      var s1 := Apply(s0, AdvanceStep(id, Done));
      var s2 := Apply(s1, AdvanceStep(id, Done));
      OneStep(s0, id, Done, [Done] + [Done]);
      OneStep(s1, id, Done, [Done]);
      if s2.ops[id].Idle? {
        IdleStays(s2, id, [Done]);
      } else {
        assert [Done] + [] == [Done];
        OneStep(s2, id, Done, []);
      }
    }
  }

  lemma {:induction false} NothingThere(s: State, id: nat, answers: seq<Answer>)
    requires |s.ops| <= id
    ensures Through(s, id, answers) == s
    decreases |answers|
  {
    if answers != [] {
      NothingThere(s, id, answers[1..]);
    }
  }
}
