/**
 * What becomes of a withdrawal: how a create request leaves it, that a review is waited for, what each state of its
 * transfer makes of it, and that its ends are final.
 */
module WithdrawalOutcomes {
  import opened Ledger
  import opened Orders
  import opened Withdrawals
  import opened WithdrawalTheorems
  import ExchangeInvariant

  // ---------- creating ----------

  /** A request that adds a row: complete, not negative, for something supported, and under a key no row has. */
  predicate AddsRow(rows: seq<Withdrawal>, r: CreateRequest) {
    && r.destination != "" && r.requestKey != "" && 0 <= r.amount && r.supported
    && forall i :: 0 <= i < |rows| ==> rows[i].requestKey != r.requestKey
  }

  /** All other requests change nothing, and a repeated one is not refused either. */
  lemma OnlyNewRequestsCount(t: Tables, r: CreateRequest)
    requires !AddsRow(t.rows, r)
    ensures Create(t, r).0 == t
    ensures Create(t, r).1.Success? <==>
      && r.destination != "" && r.requestKey != "" && 0 <= r.amount
      && exists i :: 0 <= i < |t.rows| && t.rows[i].requestKey == r.requestKey
  {
    assert HasRequest(t.rows, r.requestKey) <==>
      exists i :: 0 <= i < |t.rows| && t.rows[i].requestKey == r.requestKey;
  }

  /** A refused request is told what is really wrong with it. */
  lemma CreateRefusalsAreTrue(t: Tables, r: CreateRequest)
    requires CreateChecks(t.rows, r).Failure?
    ensures Create(t, r) == (t, Failure(CreateChecks(t.rows, r).error))
    ensures match CreateChecks(t.rows, r).error
      case DestinationRequired => r.destination == ""
      case RequestKeyRequired => r.requestKey == ""
      case AmountNotPositive => r.amount < 0
      case NotSupported => !r.supported
      case _ => false
  {
  }

  /** What changes between two ledgers: `amount` goes from one kind of a user's account to the other. */
  ghost predicate Moves(l: LedgerState, l': LedgerState, user: User, asset: Asset, amount: int,
                        from: AccountKind, to: AccountKind)
  {
    forall a :: Balance(l', a) == Balance(l, a)
      + (if a == UserAccount(user, asset, to) then amount else 0)
      - (if a == UserAccount(user, asset, from) then amount else 0)
  }

  /** A transfer between the two accounts of a user is posted exactly when it is positive and covered. */
  lemma TransferMoves(ledger: LedgerState, kind: TransactionType, key: Key, user: User, asset: Asset, amount: int,
                      from: AccountKind, to: AccountKind, entries: seq<Entry>)
    requires Sound(ledger) && kind != UnknownType && key != MissingKey && !HasKey(ledger.transactions, key)
    requires 0 <= amount && ((from == Available && to == Locked) || (from == Locked && to == Available))
    requires entries == [Entry(UserAccount(user, asset, from), asset, -amount),
                         Entry(UserAccount(user, asset, to), asset, amount)]
    ensures var ready := OpenUserAccounts(ledger, user, asset);
      var posts := 0 < amount <= Balance(ledger, UserAccount(user, asset, from));
      && (PostOutcome(ready, kind, key, entries).Refused? <==> !posts)
      && Moves(ledger, AfterPost(ready, kind, key, entries), user, asset, if posts then amount else 0, from, to)
  {
    var ready := OpenUserAccounts(ledger, user, asset);
    var x, y := UserAccount(user, asset, from), UserAccount(user, asset, to);
    OpenUserKeepsSound(ledger, user, asset);
    ExchangeInvariant.TransferOutcome(ready, kind, key, x, y, asset, amount);
    if PostOutcome(ready, kind, key, entries).Posted? {
      PostedMoves(ready, kind, key, user, asset, amount, from, to, entries);
    }
  }

  lemma PostedMoves(ledger: LedgerState, kind: TransactionType, key: Key, user: User, asset: Asset, amount: int,
                    from: AccountKind, to: AccountKind, entries: seq<Entry>)
    requires Sound(ledger) && PostOutcome(ledger, kind, key, entries).Posted? && from != to
    requires entries == [Entry(UserAccount(user, asset, from), asset, -amount),
                         Entry(UserAccount(user, asset, to), asset, amount)]
    ensures Moves(ledger, AfterPost(ledger, kind, key, entries), user, asset, amount, from, to)
  {
    ExchangeInvariant.PostEffect(ledger, kind, key, entries);
    ExchangeInvariant.TransferTotals(UserAccount(user, asset, from), UserAccount(user, asset, to), asset, amount);
  }

  lemma LockMoves(ledger: LedgerState, id: nat, w: Withdrawal)
    requires Sound(ledger) && !HasKey(ledger.transactions, WithdrawalLock(id)) && 0 <= w.total
    ensures var ready, key := OpenUserAccounts(ledger, w.user, w.asset), WithdrawalLock(id);
      var locks := 0 < w.total <= Balance(ledger, UserAccount(w.user, w.asset, Available));
      && (PostOutcome(ready, FundsLock, key, LockOf(w)).Refused? <==> !locks)
      && Moves(ledger, AfterPost(ready, FundsLock, key, LockOf(w)), w.user, w.asset,
               if locks then w.total else 0, Available, Locked)
  {
    TransferMoves(ledger, FundsLock, WithdrawalLock(id), w.user, w.asset, w.total, Available, Locked, LockOf(w));
  }

  lemma UnlockMoves(ledger: LedgerState, id: nat, w: Withdrawal)
    requires Sound(ledger) && !HasKey(ledger.transactions, WithdrawalUnlock(id)) && 0 <= w.total
    ensures var ready, key := OpenUserAccounts(ledger, w.user, w.asset), WithdrawalUnlock(id);
      var covered := 0 < w.total <= Balance(ledger, UserAccount(w.user, w.asset, Locked));
      Moves(ledger, AfterPost(ready, FundsUnlock, key, UnlockOf(w)), w.user, w.asset,
            if covered then w.total else 0, Locked, Available)
  {
    TransferMoves(ledger, FundsUnlock, WithdrawalUnlock(id), w.user, w.asset, w.total, Locked, Available,
                  UnlockOf(w));
  }

  /** The row of a new request, by whether its funds could be locked. */
  predicate NewRow(w: Withdrawal, r: CreateRequest, locked: bool) {
    && w.user == r.user && w.asset == r.asset && w.total == r.amount && w.requestKey == r.requestKey
    && w.review == r.review && w.required == r.minConfirmations
    && w.ids == NO_IDS && w.confirmations == 0 && w.sends == 0
    && (w.status == Requested <==> !locked)
    && (w.status == PendingReview <==> locked && r.review)
    && (w.status == Approved <==> locked && !r.review)
  }

  lemma CreateRows(t: Tables, r: CreateRequest)
    requires AddsRow(t.rows, r)
    ensures var (t', end) := Create(t, r);
      var ready, key := OpenUserAccounts(t.ledger, r.user, r.asset), WithdrawalLock(|t.rows|);
      var entries := LockOf(RowOf(r));
      var locked := !PostOutcome(ready, FundsLock, key, entries).Refused?;
      && |t'.rows| == |t.rows| + 1 && t'.rows[..|t.rows|] == t.rows
      && NewRow(t'.rows[|t.rows|], r, locked) && (end.Success? <==> locked)
      && t'.ledger == AfterPost(ready, FundsLock, key, entries)
  {
    assert !HasRequest(t.rows, r.requestKey);
  }

  /**
   * A new request becomes one row with its terms, for which nothing was sent. When AVAILABLE covers a positive amount
   * it is locked, and the row waits for its review, or is approved if it needs none; otherwise it stays REQUESTED.
   */
  lemma CreateEffect(t: Tables, r: CreateRequest)
    requires Sound(t.ledger) && !HasKey(t.ledger.transactions, WithdrawalLock(|t.rows|)) && AddsRow(t.rows, r)
    ensures var (t', end) := Create(t, r);
      var locks := 0 < r.amount <= Balance(t.ledger, UserAccount(r.user, r.asset, Available));
      && |t'.rows| == |t.rows| + 1 && t'.rows[..|t.rows|] == t.rows
      && NewRow(t'.rows[|t.rows|], r, locks) && (end.Success? <==> locks)
      && Moves(t.ledger, t'.ledger, r.user, r.asset, if locks then r.amount else 0, Available, Locked)
  {
    LockMoves(t.ledger, |t.rows|, RowOf(r));
    CreateRows(t, r);
  }

  /** Rows keep their request keys, and at most one row is added, under a key that no row had. */
  ghost predicate KeysGrow(rows: seq<Withdrawal>, rows': seq<Withdrawal>) {
    && |rows| <= |rows'| <= |rows| + 1
    && (forall i :: 0 <= i < |rows| ==> rows'[i].requestKey == rows[i].requestKey)
    && (forall i :: 0 <= i < |rows| < |rows'| ==> rows'[|rows|].requestKey != rows[i].requestKey)
  }

  ghost predicate DistinctRequestKeys(rows: seq<Withdrawal>) {
    forall i, j :: 0 <= i < j < |rows| ==> rows[i].requestKey != rows[j].requestKey
  }

  lemma AdvanceKeepsKeys(s: State, id: nat, answer: Answer)
    requires id < |s.tables.rows| && id < |s.ops|
    ensures KeysGrow(s.tables.rows, Advance(s, id, answer).tables.rows)
  {
    if s.ops[id].Locking? || s.ops[id].Unlocking? || s.ops[id].PostingUnlock? {
      LedgerCallKeepsRows(s, id, answer);
    } else {
      RowCallKeepsKeys(s, id, answer);
    }
  }

  lemma LedgerCallKeepsRows(s: State, id: nat, answer: Answer)
    requires id < |s.tables.rows| && id < |s.ops|
    requires s.ops[id].Locking? || s.ops[id].Unlocking? || s.ops[id].PostingUnlock?
    ensures Advance(s, id, answer).tables.rows == s.tables.rows
  {
  }

  lemma RowCallKeepsKeys(s: State, id: nat, answer: Answer)
    requires id < |s.tables.rows| && id < |s.ops|
    requires !s.ops[id].Locking? && !s.ops[id].Unlocking? && !s.ops[id].PostingUnlock?
    ensures KeysGrow(s.tables.rows, Advance(s, id, answer).tables.rows)
  {
  }

  lemma StepGrowsKeys(s: State, step: Step)
    ensures KeysGrow(s.tables.rows, Apply(s, step).tables.rows)
  {
    if step.CreateStep? && CreateChecks(s.tables.rows, step.request) == Success(true) {
      assert !HasRequest(s.tables.rows, step.request.requestKey);
    } else if step.AdvanceStep? && step.id < |s.tables.rows| && step.id < |s.ops| {
      AdvanceKeepsKeys(s, step.id, step.answer);
    }
  }

  /** Over every run no two withdrawals carry one request key, however often a request is sent. */
  lemma {:induction false} RequestsAreCreatedOnce(steps: seq<Step>)
    ensures DistinctRequestKeys(Continue(Start, steps).tables.rows)
  {
    if steps != [] {
      var s, step := Continue(Start, steps[..|steps| - 1]), steps[|steps| - 1];
      RequestsAreCreatedOnce(steps[..|steps| - 1]);
      StepGrowsKeys(s, step);
      GrowthStaysDistinct(s.tables.rows, Apply(s, step).tables.rows);
    }
  }

  lemma GrowthStaysDistinct(rows: seq<Withdrawal>, rows': seq<Withdrawal>)
    requires DistinctRequestKeys(rows) && KeysGrow(rows, rows')
    ensures DistinctRequestKeys(rows')
  {
  }

  // ---------- a review is waited for ----------

  /** Nothing here approves a withdrawal that is to be reviewed, so nothing is ever sent for it. */
  predicate WaitsForReview(w: Withdrawal, op: Op) {
    w.review ==>
      && (w.status == Requested || w.status == PendingReview || w.status == Failed)
      && w.sends == 0 && w.ids == NO_IDS
      && !op.Sending? && !op.Storing? && !op.Announcing?
  }

  ghost predicate ReviewsOk(s: State) {
    && |s.ops| == |s.tables.rows|
    && forall i :: 0 <= i < |s.ops| ==> WaitsForReview(s.tables.rows[i], s.ops[i])
  }

  lemma AdvanceKeepsReview(s: State, id: nat, answer: Answer)
    requires ReviewsOk(s) && id < |s.ops|
    ensures ReviewsOk(Advance(s, id, answer))
  {
    assert WaitsForReview(s.tables.rows[id], s.ops[id]);
    if s.ops[id].Locking? || s.ops[id].Unlocking? || s.ops[id].PostingUnlock? {
      LedgerCallKeepsWaiting(s, id, answer);
    } else {
      RowCallKeepsWaiting(s, id, answer);
    }
  }

  /** Nothing but row and operation of one withdrawal changes in the tables and the operations at work. */
  ghost predicate OnlyAt(s: State, s': State, id: nat, w: Withdrawal, op: Op) {
    && id < |s.ops| == |s.tables.rows|
    && s'.tables.rows == s.tables.rows[id := w] && s'.ops == s.ops[id := op]
  }

  lemma LedgerCallKeepsWaiting(s: State, id: nat, answer: Answer)
    requires |s.ops| == |s.tables.rows| && id < |s.ops| && WaitsForReview(s.tables.rows[id], s.ops[id])
    requires s.ops[id].Locking? || s.ops[id].Unlocking? || s.ops[id].PostingUnlock?
    ensures var s' := Advance(s, id, answer);
      && OnlyAt(s, s', id, s.tables.rows[id], if id < |s'.ops| then s'.ops[id] else Idle)
      && id < |s'.ops| && WaitsForReview(s.tables.rows[id], s'.ops[id])
  {
    assert s.tables.rows[id := s.tables.rows[id]] == s.tables.rows;
  }

  lemma RowCallKeepsWaiting(s: State, id: nat, answer: Answer)
    requires |s.ops| == |s.tables.rows| && id < |s.ops| && WaitsForReview(s.tables.rows[id], s.ops[id])
    requires !s.ops[id].Locking? && !s.ops[id].Unlocking? && !s.ops[id].PostingUnlock?
    ensures var s' := Advance(s, id, answer);
      && id < |s'.ops| && id < |s'.tables.rows|
      && OnlyAt(s, s', id, s'.tables.rows[id], s'.ops[id]) && WaitsForReview(s'.tables.rows[id], s'.ops[id])
  {
    RowCallIs(s, id, answer);
  }

  lemma RowCallIs(s: State, id: nat, answer: Answer)
    requires |s.ops| == |s.tables.rows| && id < |s.ops|
    requires !s.ops[id].Locking? && !s.ops[id].Unlocking? && !s.ops[id].PostingUnlock?
    ensures var s' := Advance(s, id, answer);
      && id < |s'.ops| && id < |s'.tables.rows| && OnlyAt(s, s', id, s'.tables.rows[id], s'.ops[id])
  {
  }

  lemma ApplyKeepsReview(s: State, step: Step)
    requires ReviewsOk(s)
    ensures ReviewsOk(Apply(s, step))
  {
    if step.AdvanceStep? && step.id < |s.ops| {
      AdvanceKeepsReview(s, step.id, step.answer);
    }
  }

  lemma {:induction false} EveryRunKeepsReviews(steps: seq<Step>)
    ensures ReviewsOk(Continue(Start, steps))
  {
    if steps != [] {
      EveryRunKeepsReviews(steps[..|steps| - 1]);
      ApplyKeepsReview(Continue(Start, steps[..|steps| - 1]), steps[|steps| - 1]);
    }
  }

  /** Over every run: the provider was never made to send a withdrawal that waits for its review. */
  lemma ReviewIsWaitedFor(steps: seq<Step>, id: nat)
    requires id < |Continue(Start, steps).tables.rows| && Continue(Start, steps).tables.rows[id].review
    ensures var w := Continue(Start, steps).tables.rows[id];
      (w.status == Requested || w.status == PendingReview || w.status == Failed) && w.sends == 0 && w.ids == NO_IDS
  {
    EveryRunKeepsReviews(steps);
    var s := Continue(Start, steps);
    assert WaitsForReview(s.tables.rows[id], s.ops[id]);
  }

  // ---------- sending ----------

  predicate Fails(answer: Answer) {
    answer == Lost || answer == NotApplied
  }

  /** A job acts on an APPROVED withdrawal only, and leaves it SUBMITTED when every call succeeds, and FAILED if not. */
  lemma ProcessEffect(t: Tables, id: nat, send: Answer, store: Answer, announce: Answer)
    ensures var t' := Process(t, id, send, store, announce).0;
      && |t'.rows| == |t.rows| && (forall i :: 0 <= i < |t.rows| && i != id ==> t'.rows[i] == t.rows[i])
      && (id < |t.rows| && t.rows[id].status != Approved ==> t' == t)
      && (id < |t.rows| && t.rows[id].status == Approved ==>
            var w, w' := t.rows[id], t'.rows[id];
            && w'.status == (if send.SentAs? && !Fails(store) && !Fails(announce) then Submitted else Failed)
            && w'.ids == (if send.SentAs? && store != NotApplied then send.ids else w.ids)
            && w'.sends == w.sends + (if send.SentAs? || send == Lost then 1 else 0)
            && w'.total == w.total && w'.user == w.user && w'.asset == w.asset
            && w'.required == w.required && w'.confirmations == w.confirmations)
  {
    if id < |t.rows| && t.rows[id].status == Approved && Interrupts(send, store, announce) {
      InterruptedJob(t, id, send, store, announce);
    }
  }

  // ---------- failing ----------

  /** Which withdrawals are not unlocked, and what is answered for them. */
  lemma UnlockRefuses(t: Tables, id: nat)
    requires id < |t.rows|
    ensures var w, (t', end) := t.rows[id], Unlock(t, id);
      var submitted := w.status in {Submitted, Broadcasted, Confirmed, Completed};
      && (submitted ==> t' == t && end == Failure(AlreadySubmitted))
      && (!submitted && (w.ids.transferId != "" || w.ids.txHash != "") ==> t' == t && end == Failure(TransferExists))
  {
  }

  /** Failing marks the row, unless it is COMPLETED, and gives the total back when it is still locked and unsent. */
  lemma FailEffect(t: Tables, id: nat)
    requires Sound(t.ledger) && id < |t.rows| && 0 <= t.rows[id].total
    requires !HasKey(t.ledger.transactions, WithdrawalUnlock(id))
    ensures var w, t' := t.rows[id], Fail(t, id).0;
      if w.status == Completed then t' == t && Fail(t, id).1 == Failure(CannotFailCompleted)
      else
        var gives := w.ids.transferId == "" && w.ids.txHash == ""
                     && 0 < w.total <= Balance(t.ledger, UserAccount(w.user, w.asset, Locked));
        && t'.rows == t.rows[id := w.(status := Failed)]
        && Moves(t.ledger, t'.ledger, w.user, w.asset, if gives then w.total else 0, Locked, Available)
  {
    var w := t.rows[id];
    if w.status != Completed && !HoldsTransfer(w) {
      UnlockEffect(t.(rows := t.rows[id := w.(status := Failed)]), id);
    }
  }

  lemma UnlockEffect(t: Tables, id: nat)
    requires Sound(t.ledger) && id < |t.rows| && 0 <= t.rows[id].total
    requires !HasKey(t.ledger.transactions, WithdrawalUnlock(id))
    requires t.rows[id].status == Failed && !HoldsTransfer(t.rows[id])
    ensures var w, t' := t.rows[id], Unlock(t, id).0;
      var covered := 0 < w.total <= Balance(t.ledger, UserAccount(w.user, w.asset, Locked));
      && t'.rows == t.rows
      && Moves(t.ledger, t'.ledger, w.user, w.asset, if covered then w.total else 0, Locked, Available)
  {
    UnlockTables(t, id);
    UnlockMoves(t.ledger, id, t.rows[id]);
  }

  lemma UnlockTables(t: Tables, id: nat)
    requires id < |t.rows| && t.rows[id].status == Failed && !HoldsTransfer(t.rows[id])
    ensures var w := t.rows[id];
      Unlock(t, id).0 == t.(ledger := AfterPost(OpenUserAccounts(t.ledger, w.user, w.asset), FundsUnlock,
                                                WithdrawalUnlock(id), UnlockOf(w)))
  {
  }

  // ---------- following the transfer ----------

  /** What each state of the transfer makes of a withdrawal that is followed. */
  lemma FollowEffect(w: Withdrawal, t: Transfer)
    requires Finalizable(w)
    ensures var w' := Follow(w, t);
      var enough := w.required == 0 || w.required <= t.confirmations;
      && (w'.status == Failed <==> t.state in {TransferFailed, TransferRejected, TransferCanceled})
      && (w'.status == Completed <==> t.state == TransferConfirmed && enough)
      && (t.state == TransferConfirmed && !enough ==> w'.status == Confirmed)
      && (t.state == OtherState ==>
            w'.status == if w'.ids.txHash != "" then Broadcasted else w.status)
      && w'.ids.txHash == (if t.txid == "" then w.ids.txHash else t.txid)
      && w'.ids.transferId == w.ids.transferId && w'.ids.txRequestId == w.ids.txRequestId
      && w'.confirmations == t.confirmations && w'.sends == w.sends && w'.required == w.required
      && SameTerms(w, w')
  {
  }

  /** Which withdrawals are followed at all, and what is answered for the others. */
  lemma FinalizeEffect(t: Tables, id: nat, answer: Answer)
    requires id < |t.rows|
    ensures var w, (t', end) := t.rows[id], Finalize(t, id, answer);
      var followed := w.status in {Submitted, Broadcasted, Confirmed};
      && t'.ledger == t.ledger
      && t' == (if followed && w.ids.transferId != "" && answer.TransferIs?
                then t.(rows := t.rows[id := Follow(w, answer.transfer)]) else t)
      && (end == Failure(TransferIdMissing) <==> followed && w.ids.transferId == "" && w.ids.txRequestId == "")
      && (end == Failure(Interrupted) <==> followed && w.ids.transferId != "" && !answer.TransferIs?)
      && (end.Failure? ==> end == Failure(TransferIdMissing) || end == Failure(Interrupted))
  {
  }

  // ---------- ends are final ----------

  /** COMPLETED is reported with enough confirmations, and those are stored. */
  predicate EarnedCompletion(w: Withdrawal) {
    w.status == Completed ==> w.required == 0 || w.required <= w.confirmations
  }

  ghost predicate CompletionsOk(s: State) {
    forall i :: 0 <= i < |s.tables.rows| ==> EarnedCompletion(s.tables.rows[i])
  }

  lemma AdvanceKeepsCompletions(s: State, id: nat, answer: Answer)
    requires Inv(s) && CompletionsOk(s) && id < |s.ops|
    ensures CompletionsOk(Advance(s, id, answer))
  {
    assert OpOk(s.tables.rows[id], s.ops[id]) && EarnedCompletion(s.tables.rows[id]);
    assert EarnedCompletion(Advance(s, id, answer).tables.rows[id]);
  }

  lemma {:induction false} EveryRunEarnsCompletions(steps: seq<Step>)
    ensures CompletionsOk(Continue(Start, steps))
  {
    if steps != [] {
      var before, step := Continue(Start, steps[..|steps| - 1]), steps[|steps| - 1];
      EveryRunKeepsInv(steps[..|steps| - 1]);
      EveryRunEarnsCompletions(steps[..|steps| - 1]);
      if step.AdvanceStep? && step.id < |before.ops| {
        AdvanceKeepsCompletions(before, step.id, step.answer);
      }
    }
  }

  predicate Ended(w: Withdrawal) {
    w.status == Completed || w.status == Failed
  }

  lemma EndedRowStays(s: State, step: Step, id: nat)
    requires Inv(s) && id < |s.tables.rows| && Ended(s.tables.rows[id])
    ensures id < |Apply(s, step).tables.rows| && Apply(s, step).tables.rows[id] == s.tables.rows[id]
  {
    assert OpOk(s.tables.rows[id], s.ops[id]);
  }

  /** Over every run and continuation: a COMPLETED or FAILED withdrawal never changes again. */
  lemma {:induction false} EndsAreFinal(steps: seq<Step>, more: seq<Step>, id: nat)
    requires id < |Continue(Start, steps).tables.rows| && Ended(Continue(Start, steps).tables.rows[id])
    ensures id < |Continue(Start, steps + more).tables.rows|
    ensures Continue(Start, steps + more).tables.rows[id] == Continue(Start, steps).tables.rows[id]
  {
    if more == [] {
      assert steps + more == steps;
    } else {
      var prefix, step := steps + more[..|more| - 1], more[|more| - 1];
      assert steps + more == prefix + [step];
      EndsAreFinal(steps, more[..|more| - 1], id);
      EveryRunKeepsInv(prefix);
      ContinueOne(Start, prefix, step);
      EndedRowStays(Continue(Start, prefix), step, id);
    }
  }

  /** A COMPLETED withdrawal was sent once, with as many confirmations as its network wants, and was not unlocked. */
  lemma CompletedIsEarned(steps: seq<Step>, id: nat)
    requires id < |Continue(Start, steps).tables.rows| && Continue(Start, steps).tables.rows[id].status == Completed
    ensures var s := Continue(Start, steps); var w := s.tables.rows[id];
      w.sends == 1 && (w.required == 0 || w.required <= w.confirmations)
      && !HasKey(s.tables.ledger.transactions, WithdrawalUnlock(id))
  {
    EveryRunKeepsInv(steps);
    EveryRunEarnsCompletions(steps);
    var s := Continue(Start, steps);
    assert RowOk(s.tables.rows[id]) && EarnedCompletion(s.tables.rows[id]);
    NoUnlockYet(s, id);
  }
}
