/** What holds of withdrawals over any mix of creates, job retries, failures, finalizations and crashes. */
module WithdrawalTheorems {
  import opened Ledger
  import opened Orders
  import opened Withdrawals
  import ExchangeInvariant

  // ---------- the invariant ----------

  /** Where a row can be while no transfer was started for it. */
  predicate Unsent(w: Withdrawal) {
    w.sends == 0 && w.ids == NO_IDS
  }

  predicate RowOk(w: Withdrawal) {
    && 0 <= w.total && w.sends <= 1
    && (w.sends == 0 ==> w.ids == NO_IDS)
    && (w.status == Requested || w.status == PendingReview || w.status == Approved ==> Unsent(w))
    && (w.status == Processing ==> w.ids == NO_IDS)
    && (Finalizable(w) || w.status == Completed ==> w.sends == 1)
  }

  /** What the operation at work may rely on. */
  predicate OpOk(w: Withdrawal, op: Op) {
    match op
    case Logging => w.status == Requested
    case Locking => w.status == Requested
    case Accepting => w.status == Requested
    case Sending => w.status == Processing && Unsent(w)
    case Storing(_) => w.status == Processing && w.sends == 1
    case Announcing => w.status == Submitted
    case Unlocking => w.status == Failed
    case PostingUnlock => w.status == Failed && !HoldsTransfer(w)
    case _ => true
  }

  /** An unlock was posted only for a row that failed without a stored transfer. */
  predicate UnlockOk(transactions: seq<Transaction>, id: nat, w: Withdrawal) {
    HasKey(transactions, WithdrawalUnlock(id)) ==> w.status == Failed && !HoldsTransfer(w)
  }

  ghost predicate Inv(s: State) {
    && Sound(s.tables.ledger)
    && |s.ops| == |s.tables.rows|
    && (forall id :: 0 <= id < |s.tables.rows| ==>
          RowOk(s.tables.rows[id]) && OpOk(s.tables.rows[id], s.ops[id])
          && UnlockOk(s.tables.ledger.transactions, id, s.tables.rows[id]))
    && NoStrayUnlocks(s)
  }

  /** Unlock postings name rows that exist. */
  ghost predicate NoStrayUnlocks(s: State) {
    forall k :: 0 <= k < |s.tables.ledger.transactions| && s.tables.ledger.transactions[k].key.WithdrawalUnlock? ==>
      s.tables.ledger.transactions[k].key.id < |s.tables.rows|
  }

  // ---------- the invariant is kept ----------

  /** Posting under `key` adds that key at most. */
  lemma PostedKeys(ledger: LedgerState, kind: TransactionType, key: Key, entries: seq<Entry>, other: Key)
    ensures HasKey(AfterPost(ledger, kind, key, entries).transactions, other) ==>
      HasKey(ledger.transactions, other) || other == key
  {
    var after := AfterPost(ledger, kind, key, entries).transactions;
    if HasKey(after, other) {
      var k :| 0 <= k < |after| && after[k].key == other;
      assert k < |ledger.transactions| ==> after[k] == ledger.transactions[k];
    }
  }

  /** A change of the ledger under keys that are not this module's unlocks concerns no row. */
  lemma LedgerStepKeepsInv(s: State, ledger: LedgerState)
    requires Inv(s) && Sound(ledger)
    requires ledger.transactions == s.tables.ledger.transactions
      || exists tx :: ledger.transactions == s.tables.ledger.transactions + [tx] && !tx.key.WithdrawalUnlock?
    ensures Inv(SetLedger(s, ledger))
  {
    var s' := SetLedger(s, ledger);
    forall id | 0 <= id < |s'.tables.rows| ensures UnlockOk(ledger.transactions, id, s'.tables.rows[id]) {
      if HasKey(ledger.transactions, WithdrawalUnlock(id)) {
        var k :| 0 <= k < |ledger.transactions| && ledger.transactions[k].key == WithdrawalUnlock(id);
        assert k < |s.tables.ledger.transactions| && s.tables.ledger.transactions[k] == ledger.transactions[k];
      }
    }
  }

  lemma OpenedLedger(s: State, user: User, asset: Asset)
    requires Inv(s)
    ensures Inv(SetLedger(s, OpenUserAccounts(s.tables.ledger, user, asset)))
  {
    OpenUserKeepsSound(s.tables.ledger, user, asset);
    LedgerStepKeepsInv(s, OpenUserAccounts(s.tables.ledger, user, asset));
  }

  lemma PostedLedger(s: State, kind: TransactionType, key: Key, entries: seq<Entry>)
    requires Inv(s) && !key.WithdrawalUnlock?
    ensures Inv(SetLedger(s, AfterPost(s.tables.ledger, kind, key, entries)))
  {
    PostKeepsSound(s.tables.ledger, kind, key, entries);
    var after := AfterPost(s.tables.ledger, kind, key, entries).transactions;
    if PostOutcome(s.tables.ledger, kind, key, entries).Posted? {
      assert after == s.tables.ledger.transactions + [Transaction(kind, key, entries)];
    }
    LedgerStepKeepsInv(s, AfterPost(s.tables.ledger, kind, key, entries));
  }

  /** One row and its operation change. */
  lemma RowStepKeepsInv(s: State, id: nat, w: Withdrawal, op: Op)
    requires Inv(s) && id < |s.tables.rows| && RowOk(w) && OpOk(w, op)
    requires UnlockOk(s.tables.ledger.transactions, id, w)
    ensures Inv(Goto(SetRow(s, id, w), id, op))
  {
  }

  lemma OpStepKeepsInv(s: State, id: nat, op: Op)
    requires Inv(s) && id < |s.tables.rows| && OpOk(s.tables.rows[id], op)
    ensures Inv(Goto(s, id, op))
  {
    RowStepKeepsInv(s, id, s.tables.rows[id], op);
    assert SetRow(s, id, s.tables.rows[id]) == s;
  }

  lemma BeginCreateKeepsInv(s: State, r: CreateRequest)
    requires Inv(s)
    ensures Inv(BeginCreate(s, r))
  {
    if CreateChecks(s.tables.rows, r) == Success(true) {
      OpenedLedger(s, r.user, r.asset);
      var s', id := BeginCreate(s, r), |s.tables.rows|;
      assert UnlockOk(s'.tables.ledger.transactions, id, s'.tables.rows[id]) by {
        assert s'.tables.ledger.transactions == s.tables.ledger.transactions;
      }
    }
  }

  lemma LockingKeepsInv(s: State, id: nat, answer: Answer)
    requires Inv(s) && id < |s.tables.rows| && s.ops[id] == Locking
    ensures Inv(Advance(s, id, answer))
  {
    var w := s.tables.rows[id];
    if answer != NotApplied {
      PostedLedger(s, FundsLock, WithdrawalLock(id), LockOf(w));
      var s1 := SetLedger(s, AfterPost(s.tables.ledger, FundsLock, WithdrawalLock(id), LockOf(w)));
      OpStepKeepsInv(s1, id, Advance(s, id, answer).ops[id]);
    } else {
      OpStepKeepsInv(s, id, Idle);
    }
  }

  lemma UnlockingKeepsInv(s: State, id: nat, answer: Answer)
    requires Inv(s) && id < |s.tables.rows| && s.ops[id] == Unlocking
    ensures Inv(Advance(s, id, answer))
  {
    var w := s.tables.rows[id];
    if UnlockIsUnsafe(w) || HoldsTransfer(w) || answer == NotApplied {
      OpStepKeepsInv(s, id, Idle);
    } else {
      OpenedLedger(s, w.user, w.asset);
      var s1 := SetLedger(s, OpenUserAccounts(s.tables.ledger, w.user, w.asset));
      OpStepKeepsInv(s1, id, Advance(s, id, answer).ops[id]);
    }
  }

  /** The unlock itself: the row it is posted for has failed and holds no transfer. */
  lemma PostingUnlockKeepsInv(s: State, id: nat, answer: Answer)
    requires Inv(s) && id < |s.tables.rows| && s.ops[id] == PostingUnlock
    ensures Inv(Advance(s, id, answer))
  {
    var w, ledger := s.tables.rows[id], s.tables.ledger;
    OpStepKeepsInv(s, id, Idle);
    if answer != NotApplied {
      var s' := Advance(s, id, answer);
      assert s' == SetLedger(Goto(s, id, Idle), AfterPost(ledger, FundsUnlock, WithdrawalUnlock(id), UnlockOf(w)));
      OwnUnlockKeepsInv(Goto(s, id, Idle), id);
    }
  }

  lemma OwnUnlockKeepsInv(s: State, id: nat)
    requires Inv(s) && id < |s.tables.rows|
    requires s.tables.rows[id].status == Failed && !HoldsTransfer(s.tables.rows[id])
    ensures var w := s.tables.rows[id];
      Inv(SetLedger(s, AfterPost(s.tables.ledger, FundsUnlock, WithdrawalUnlock(id), UnlockOf(w))))
  {
    var w, ledger := s.tables.rows[id], s.tables.ledger;
    var ledger' := AfterPost(ledger, FundsUnlock, WithdrawalUnlock(id), UnlockOf(w));
    PostKeepsSound(ledger, FundsUnlock, WithdrawalUnlock(id), UnlockOf(w));
    forall i | 0 <= i < |s.tables.rows| ensures UnlockOk(ledger'.transactions, i, s.tables.rows[i]) {
      PostedKeys(ledger, FundsUnlock, WithdrawalUnlock(id), UnlockOf(w), WithdrawalUnlock(i));
    }
  }

  lemma NoUnlockYet(s: State, id: nat)
    requires Inv(s) && id < |s.tables.rows| && s.tables.rows[id].status != Failed
    ensures !HasKey(s.tables.ledger.transactions, WithdrawalUnlock(id))
  {
    assert UnlockOk(s.tables.ledger.transactions, id, s.tables.rows[id]);
  }

  lemma FinalizingKeepsInv(s: State, id: nat, answer: Answer)
    requires Inv(s) && id < |s.tables.rows| && s.ops[id] == Finalizing
    ensures Inv(Advance(s, id, answer))
  {
    var w := s.tables.rows[id];
    if answer.TransferIs? && Finalizable(w) && w.ids.transferId != "" {
      NoUnlockYet(s, id);
      RowStepKeepsInv(s, id, Follow(w, answer.transfer), Idle);
    } else {
      OpStepKeepsInv(s, id, Idle);
    }
  }

  lemma RowOperationsKeepInv(s: State, id: nat, answer: Answer)
    requires Inv(s) && id < |s.tables.rows|
    requires s.ops[id].Accepting? || s.ops[id].Starting? || s.ops[id].Sending? || s.ops[id].Storing?
    ensures Inv(Advance(s, id, answer))
  {
    var w, s' := s.tables.rows[id], Advance(s, id, answer);
    if w.status == Failed {
      assert s.ops[id].Starting?;
      OpStepKeepsInv(s, id, Idle);
    } else {
      NoUnlockYet(s, id);
      assert RowOk(w) && OpOk(w, s.ops[id]);
      RowStepKeepsInv(s, id, s'.tables.rows[id], s'.ops[id]);
      assert s' == Goto(SetRow(s, id, s'.tables.rows[id]), id, s'.ops[id]);
    }
  }

  lemma FailingKeepsInv(s: State, id: nat, answer: Answer)
    requires Inv(s) && id < |s.tables.rows| && s.ops[id] == Failing
    ensures Inv(Advance(s, id, answer))
  {
    var w := s.tables.rows[id];
    assert RowOk(w) && UnlockOk(s.tables.ledger.transactions, id, w);
    if w.status == Completed || answer == NotApplied {
      OpStepKeepsInv(s, id, Idle);
    } else {
      RowStepKeepsInv(s, id, w.(status := Failed), Advance(s, id, answer).ops[id]);
    }
  }

  lemma AdvanceKeepsInv(s: State, id: nat, answer: Answer)
    requires Inv(s) && id < |s.tables.rows|
    ensures Inv(Advance(s, id, answer))
  {
    match s.ops[id]
    case Idle =>
    case Logging => OpStepKeepsInv(s, id, if answer == Done then Locking else Idle);
    case Locking => LockingKeepsInv(s, id, answer);
    case Accepting => RowOperationsKeepInv(s, id, answer);
    case Starting => RowOperationsKeepInv(s, id, answer);
    case Sending => RowOperationsKeepInv(s, id, answer);
    case Storing(_) => RowOperationsKeepInv(s, id, answer);
    case Announcing => OpStepKeepsInv(s, id, Advance(s, id, answer).ops[id]);
    case Failing => FailingKeepsInv(s, id, answer);
    case Unlocking => UnlockingKeepsInv(s, id, answer);
    case PostingUnlock => PostingUnlockKeepsInv(s, id, answer);
    case Finalizing => FinalizingKeepsInv(s, id, answer);
  }

  lemma ApplyKeepsInv(s: State, step: Step)
    requires Inv(s)
    ensures Inv(Apply(s, step))
  {
    match step
    case CreateStep(r) => BeginCreateKeepsInv(s, r);
    case ProcessStep(id) => if id < |s.ops| { OpStepKeepsInv(s, id, Starting); }
    case FailStep(id) => if id < |s.ops| { OpStepKeepsInv(s, id, Failing); }
    case FinalizeStep(id) => if id < |s.ops| { OpStepKeepsInv(s, id, Finalizing); }
    case AdvanceStep(id, answer) => if id < |s.ops| { AdvanceKeepsInv(s, id, answer); }
    case CrashStep(id) => if id < |s.ops| { OpStepKeepsInv(s, id, Idle); }
    case ElsewhereStep(posting) =>
      match posting {
        case OpenRequest(account) =>
          OpenKeepsSound(s.tables.ledger, account);
          LedgerStepKeepsInv(s, OpenAccount(s.tables.ledger, account));
        case PostRequest(kind, key, entries) =>
          if Foreign(posting) {
            PostedLedger(s, kind, key, entries);
          }
      }
  }

  lemma {:induction false} EveryRunKeepsInv(steps: seq<Step>)
    ensures Inv(Continue(Start, steps))
  {
    if steps != [] {
      EveryRunKeepsInv(steps[..|steps| - 1]);
      ApplyKeepsInv(Continue(Start, steps[..|steps| - 1]), steps[|steps| - 1]);
    }
  }

  // ---------- safety over every run ----------

  /** The provider is made to start at most one transfer, however often the job is retried. */
  lemma SentAtMostOnce(steps: seq<Step>, id: nat)
    requires id < |Continue(Start, steps).tables.rows|
    ensures Continue(Start, steps).tables.rows[id].sends <= 1
  {
    EveryRunKeepsInv(steps);
    assert RowOk(Continue(Start, steps).tables.rows[id]);
  }

  /** An unlock posting and a stored transfer id or hash exclude each other, and an unlocked withdrawal stays FAILED. */
  lemma UnlockExcludesTransfer(steps: seq<Step>, id: nat)
    requires HasKey(Continue(Start, steps).tables.ledger.transactions, WithdrawalUnlock(id))
    ensures var rows := Continue(Start, steps).tables.rows;
      id < |rows| && rows[id].status == Failed && rows[id].ids.transferId == "" && rows[id].ids.txHash == ""
  {
    EveryRunKeepsInv(steps);
    var s := Continue(Start, steps);
    var transactions := s.tables.ledger.transactions;
    var k :| 0 <= k < |transactions| && transactions[k].key == WithdrawalUnlock(id);
    assert transactions[k].key.WithdrawalUnlock?;
    assert UnlockOk(transactions, id, s.tables.rows[id]);
  }

  // ---------- locks ----------

  /** A row that a review or a job may pick up, or that one has picked up. */
  predicate Accepted(w: Withdrawal) {
    w.status != Requested && w.status != Failed
  }

  /** A posting under a withdrawal's key moves that withdrawal's total. */
  predicate OwnPosting(rows: seq<Withdrawal>, tx: Transaction) {
    match tx.key
    case WithdrawalLock(id) => id < |rows| && tx.entries == LockOf(rows[id])
    case WithdrawalUnlock(id) => id < |rows| && tx.entries == UnlockOf(rows[id])
    case _ => true
  }

  ghost predicate LocksOk(s: State) {
    && |s.ops| == |s.tables.rows|
    && (forall id :: 0 <= id < |s.ops| && (Accepted(s.tables.rows[id]) || s.ops[id] == Accepting) ==>
          HasKey(s.tables.ledger.transactions, WithdrawalLock(id)))
    && (forall k :: 0 <= k < |s.tables.ledger.transactions| ==>
          OwnPosting(s.tables.rows, s.tables.ledger.transactions[k]))
  }

  predicate SameTerms(w: Withdrawal, w': Withdrawal) {
    w.user == w'.user && w.asset == w'.asset && w.total == w'.total
  }

  /** Rows and history only grow, and rows keep user, asset and total. */
  ghost predicate Grows(s: State, s': State) {
    && |s.tables.rows| <= |s'.tables.rows| && |s'.ops| == |s'.tables.rows|
    && (forall i :: 0 <= i < |s.tables.rows| ==> SameTerms(s.tables.rows[i], s'.tables.rows[i]))
    && s.tables.ledger.transactions <= s'.tables.ledger.transactions
  }

  lemma KeyGrows(transactions: seq<Transaction>, transactions': seq<Transaction>, key: Key)
    requires transactions <= transactions' && HasKey(transactions, key)
    ensures HasKey(transactions', key)
  {
    var k :| 0 <= k < |transactions| && transactions[k].key == key;
    assert transactions'[k] == transactions[k];
  }

  /** What a step has to show: newly accepted rows are locked, and what it posts is its own. */
  lemma LocksStayOk(s: State, s': State)
    requires LocksOk(s) && Grows(s, s')
    requires forall id :: 0 <= id < |s'.ops| && (Accepted(s'.tables.rows[id]) || s'.ops[id] == Accepting) ==>
      (id < |s.ops| && (Accepted(s.tables.rows[id]) || s.ops[id] == Accepting))
      || HasKey(s'.tables.ledger.transactions, WithdrawalLock(id))
    requires forall k :: |s.tables.ledger.transactions| <= k < |s'.tables.ledger.transactions| ==>
      OwnPosting(s'.tables.rows, s'.tables.ledger.transactions[k])
    ensures LocksOk(s')
  {
    forall id | 0 <= id < |s'.ops| && (Accepted(s'.tables.rows[id]) || s'.ops[id] == Accepting)
      ensures HasKey(s'.tables.ledger.transactions, WithdrawalLock(id))
    {
      if id < |s.ops| && (Accepted(s.tables.rows[id]) || s.ops[id] == Accepting) {
        KeyGrows(s.tables.ledger.transactions, s'.tables.ledger.transactions, WithdrawalLock(id));
      }
    }
    forall k | 0 <= k < |s'.tables.ledger.transactions|
      ensures OwnPosting(s'.tables.rows, s'.tables.ledger.transactions[k])
    {
      if k < |s.tables.ledger.transactions| {
        assert OwnPosting(s.tables.rows, s.tables.ledger.transactions[k]);
      }
    }
  }

  lemma LockingKeepsLocks(s: State, id: nat, answer: Answer)
    requires LocksOk(s) && id < |s.ops| && s.ops[id] == Locking
    ensures LocksOk(Advance(s, id, answer))
  {
    var s', w, ledger := Advance(s, id, answer), s.tables.rows[id], s.tables.ledger;
    var outcome := PostOutcome(ledger, FundsLock, WithdrawalLock(id), LockOf(w));
    if s'.ops[id] == Accepting {
      PostLeavesKey(ledger, FundsLock, WithdrawalLock(id), LockOf(w));
    }
    LocksStayOk(s, s');
  }

  lemma PostLeavesKey(ledger: LedgerState, kind: TransactionType, key: Key, entries: seq<Entry>)
    requires !PostOutcome(ledger, kind, key, entries).Refused?
    ensures HasKey(AfterPost(ledger, kind, key, entries).transactions, key)
  {
    if PostOutcome(ledger, kind, key, entries).Posted? {
      assert AfterPost(ledger, kind, key, entries).transactions[|ledger.transactions|].key == key;
    }
  }

  /** The unlocking calls: the row stays, and the history gains the withdrawal's own unlock at most. */
  lemma UnlockingKeepsLocks(s: State, id: nat, answer: Answer)
    requires LocksOk(s) && id < |s.ops| && (s.ops[id] == Unlocking || s.ops[id] == PostingUnlock)
    ensures LocksOk(Advance(s, id, answer))
  {
    LocksStayOk(s, Advance(s, id, answer));
  }

  /** All other calls leave the history alone, and accept only rows that are locked. */
  lemma RowCallsKeepLocks(s: State, id: nat, answer: Answer)
    requires LocksOk(s) && id < |s.ops| && OpOk(s.tables.rows[id], s.ops[id])
    requires s.ops[id] != Locking && s.ops[id] != Unlocking && s.ops[id] != PostingUnlock
    ensures LocksOk(Advance(s, id, answer))
  {
    var s' := Advance(s, id, answer);
    RowCallsAccept(s, id, answer);
    LocksStayOk(s, s');
  }

  lemma RowCallsAccept(s: State, id: nat, answer: Answer)
    requires |s.ops| == |s.tables.rows| && id < |s.ops| && OpOk(s.tables.rows[id], s.ops[id])
    requires s.ops[id] != Locking && s.ops[id] != Unlocking && s.ops[id] != PostingUnlock
    ensures var s' := Advance(s, id, answer);
      && s'.tables.ledger == s.tables.ledger && |s'.ops| == |s.ops| == |s'.tables.rows|
      && SameTerms(s.tables.rows[id], s'.tables.rows[id])
      && (forall i :: 0 <= i < |s.ops| && i != id ==>
            s'.tables.rows[i] == s.tables.rows[i] && s'.ops[i] == s.ops[i])
      && (Accepted(s'.tables.rows[id]) || s'.ops[id] == Accepting ==>
            Accepted(s.tables.rows[id]) || s.ops[id] == Accepting)
  {
  }

  lemma AdvanceKeepsLocks(s: State, id: nat, answer: Answer)
    requires Inv(s) && LocksOk(s) && id < |s.ops|
    ensures LocksOk(Advance(s, id, answer))
  {
    assert OpOk(s.tables.rows[id], s.ops[id]);
    if s.ops[id] == Locking {
      LockingKeepsLocks(s, id, answer);
    } else if s.ops[id] == Unlocking || s.ops[id] == PostingUnlock {
      UnlockingKeepsLocks(s, id, answer);
    } else {
      RowCallsKeepLocks(s, id, answer);
    }
  }

  lemma ApplyKeepsLocks(s: State, step: Step)
    requires Inv(s) && LocksOk(s)
    ensures LocksOk(Apply(s, step))
  {
    if step.AdvanceStep? {
      if step.id < |s.ops| {
        AdvanceKeepsLocks(s, step.id, step.answer);
      }
    } else {
      LocksStayOk(s, Apply(s, step));
    }
  }

  lemma {:induction false} EveryRunKeepsLocks(steps: seq<Step>)
    ensures LocksOk(Continue(Start, steps))
  {
    if steps != [] {
      EveryRunKeepsInv(steps[..|steps| - 1]);
      EveryRunKeepsLocks(steps[..|steps| - 1]);
      ApplyKeepsLocks(Continue(Start, steps[..|steps| - 1]), steps[|steps| - 1]);
    }
  }

  /** In every reachable state a withdrawal is without its lock only while it is REQUESTED, or after it failed. */
  lemma AcceptedIsLocked(steps: seq<Step>, id: nat)
    requires id < |Continue(Start, steps).tables.rows| && Accepted(Continue(Start, steps).tables.rows[id])
    ensures var s := Continue(Start, steps);
      exists k :: 0 <= k < |s.tables.ledger.transactions|
               && s.tables.ledger.transactions[k].key == WithdrawalLock(id)
               && s.tables.ledger.transactions[k].entries == LockOf(s.tables.rows[id])
  {
    EveryRunKeepsInv(steps);
    EveryRunKeepsLocks(steps);
    var s := Continue(Start, steps);
    var k :| 0 <= k < |s.tables.ledger.transactions| && s.tables.ledger.transactions[k].key == WithdrawalLock(id);
    assert OwnPosting(s.tables.rows, s.tables.ledger.transactions[k]);
  }

  // ---------- when funds come back ----------

  /** The conditions under which failing a withdrawal posts its unlock: nothing stored, and the funds are in LOCKED. */
  predicate Unlockable(t: Tables, id: nat)
    requires id < |t.rows|
  {
    var w := t.rows[id];
    && w.status != Completed && !HoldsTransfer(w)
    && 0 < w.total <= Balance(t.ledger, UserAccount(w.user, w.asset, Locked))
  }

  lemma UnlockIsPostedIff(ready: LedgerState, id: nat, w: Withdrawal)
    requires Sound(ready) && 0 <= w.total && !HasKey(ready.transactions, WithdrawalUnlock(id))
    requires UserAccount(w.user, w.asset, Locked) in ready.accounts
    requires UserAccount(w.user, w.asset, Available) in ready.accounts
    ensures HasKey(AfterPost(ready, FundsUnlock, WithdrawalUnlock(id), UnlockOf(w)).transactions, WithdrawalUnlock(id))
       <==> 0 < w.total <= Balance(ready, UserAccount(w.user, w.asset, Locked))
  {
    var from, to := UserAccount(w.user, w.asset, Locked), UserAccount(w.user, w.asset, Available);
    ExchangeInvariant.TransferOutcome(ready, FundsUnlock, WithdrawalUnlock(id), from, to, w.asset, w.total);
    PostedIff(ready, FundsUnlock, WithdrawalUnlock(id), UnlockOf(w));
  }

  lemma UnlockPostsIff(t: Tables, id: nat)
    requires Sound(t.ledger) && id < |t.rows| && 0 <= t.rows[id].total
    requires !HasKey(t.ledger.transactions, WithdrawalUnlock(id)) && t.rows[id].status == Failed
    ensures HasKey(Unlock(t, id).0.ledger.transactions, WithdrawalUnlock(id)) <==> Unlockable(t, id)
  {
    var w := t.rows[id];
    if !HoldsTransfer(w) {
      OpenUserKeepsSound(t.ledger, w.user, w.asset);
      UnlockIsPostedIff(OpenUserAccounts(t.ledger, w.user, w.asset), id, w);
    }
  }

  lemma PostedIff(ledger: LedgerState, kind: TransactionType, key: Key, entries: seq<Entry>)
    requires !HasKey(ledger.transactions, key)
    ensures HasKey(AfterPost(ledger, kind, key, entries).transactions, key)
       <==> PostOutcome(ledger, kind, key, entries).Posted?
  {
    if PostOutcome(ledger, kind, key, entries).Posted? {
      assert AfterPost(ledger, kind, key, entries).transactions[|ledger.transactions|].key == key;
    }
  }

  /** Failing a withdrawal that was not unlocked yet unlocks it exactly when it can. */
  lemma FailUnlocksIff(s: State, id: nat)
    requires Inv(s) && id < |s.tables.rows| && !HasKey(s.tables.ledger.transactions, WithdrawalUnlock(id))
    ensures HasKey(Fail(s.tables, id).0.ledger.transactions, WithdrawalUnlock(id)) <==> Unlockable(s.tables, id)
  {
    var w := s.tables.rows[id];
    assert RowOk(w);
    if w.status != Completed {
      UnlockPostsIff(s.tables.(rows := s.tables.rows[id := w.(status := Failed)]), id);
    }
  }

  /** What the row knows of the transfer when the job fails. */
  function KnownIds(send: Answer, store: Answer): ProviderIds {
    if send.SentAs? && store != NotApplied then send.ids else NO_IDS
  }

  /** The row that the job fails, if it does. */
  function FailedRow(w: Withdrawal, send: Answer, store: Answer): Withdrawal {
    AfterSend(w, send).(status := Failed, ids := if send.SentAs? && store != NotApplied then send.ids else w.ids)
  }

  /** An interrupted job is a failed row followed by an attempt to unlock it. */
  lemma InterruptedJob(t: Tables, id: nat, send: Answer, store: Answer, announce: Answer)
    requires id < |t.rows| && t.rows[id].status == Approved && Interrupts(send, store, announce)
    ensures Process(t, id, send, store, announce).0
         == Unlock(t.(rows := t.rows[id := FailedRow(t.rows[id], send, store)]), id).0
  {
    var sent := AfterSend(t.rows[id].(status := Processing), send);
    var stored := if send.SentAs? && store != NotApplied then Submit(sent, send.ids) else sent;
    OverwrittenRow(t.rows, id, stored, FailedRow(t.rows[id], send, store));
  }

  lemma JobSends(t: Tables, id: nat, send: Answer, store: Answer, announce: Answer)
    requires id < |t.rows| && t.rows[id].status == Approved && t.rows[id].sends == 0
    ensures var rows := Process(t, id, send, store, announce).0.rows;
      id < |rows| && (rows[id].sends == 1 <==> send.SentAs? || send == Lost)
  {
    if Interrupts(send, store, announce) {
      InterruptedJob(t, id, send, store, announce);
    }
  }

  lemma UndisturbedJobPostsNothing(t: Tables, id: nat, send: Answer, store: Answer, announce: Answer)
    requires id < |t.rows| && t.rows[id].status == Approved && !Interrupts(send, store, announce)
    ensures Process(t, id, send, store, announce).0.ledger == t.ledger
  {
  }

  /** An interrupted job posts the unlock exactly when it stored no transfer and LOCKED covers the total. */
  lemma InterruptedJobUnlocksIff(t: Tables, id: nat, send: Answer, store: Answer, announce: Answer)
    requires Sound(t.ledger) && !HasKey(t.ledger.transactions, WithdrawalUnlock(id))
    requires id < |t.rows| && t.rows[id].status == Approved && 0 <= t.rows[id].total && t.rows[id].ids == NO_IDS
    requires Interrupts(send, store, announce)
    ensures var w := t.rows[id];
      HasKey(Process(t, id, send, store, announce).0.ledger.transactions, WithdrawalUnlock(id)) <==>
        && KnownIds(send, store).transferId == "" && KnownIds(send, store).txHash == ""
        && 0 < w.total <= Balance(t.ledger, UserAccount(w.user, w.asset, Locked))
  {
    InterruptedJob(t, id, send, store, announce);
    UnlockPostsIff(t.(rows := t.rows[id := FailedRow(t.rows[id], send, store)]), id);
  }

  /**
   * A job may give the funds back although the provider was made to send them. It does so exactly when a call after
   * the send fails and neither a transfer id nor a hash was stored: the send's answer was lost, storing it failed, or
   * the provider had only a pending request to show.
   */
  lemma SentYetUnlockedIff(s: State, id: nat, send: Answer, store: Answer, announce: Answer)
    requires Inv(s) && id < |s.tables.rows| && s.tables.rows[id].status == Approved
    ensures var t := Process(s.tables, id, send, store, announce).0; var w := s.tables.rows[id];
      && id < |t.rows|
      && (t.rows[id].sends == 1 <==> send.SentAs? || send == Lost)
      && (HasKey(t.ledger.transactions, WithdrawalUnlock(id)) <==>
            && Interrupts(send, store, announce)
            && KnownIds(send, store).transferId == "" && KnownIds(send, store).txHash == ""
            && 0 < w.total <= Balance(s.tables.ledger, UserAccount(w.user, w.asset, Locked)))
  {
    assert RowOk(s.tables.rows[id]);
    NoUnlockYet(s, id);
    JobSends(s.tables, id, send, store, announce);
    if Interrupts(send, store, announce) {
      InterruptedJobUnlocksIff(s.tables, id, send, store, announce);
    } else {
      UndisturbedJobPostsNothing(s.tables, id, send, store, announce);
    }
  }

  // ---------- following never goes back ----------

  function Rank(status: WithdrawalStatus): int {
    match status
    case Submitted => 1
    case Broadcasted => 2
    case Confirmed => 3
    case Completed => 4
    case _ => 0
  }

  predicate Ranked(status: WithdrawalStatus) {
    0 < Rank(status)
  }

  /** A look-up lowers the rank exactly when a confirmed withdrawal's transfer is reported as unconfirmed. */
  lemma FollowLowersIff(w: Withdrawal, t: Transfer)
    requires Finalizable(w)
    ensures Ranked(NextStatus(w, t)) && Rank(NextStatus(w, t)) < Rank(w.status) <==>
      w.status == Confirmed && t.state == OtherState && (t.txid != "" || w.ids.txHash != "")
  {
  }

  /** FAILED is the one way out of the ranks. */
  predicate NotLowered(before: WithdrawalStatus, after: WithdrawalStatus) {
    after == Failed || Rank(before) <= Rank(after)
  }

  /** The provider answers a look-up of the withdrawal with this state. */
  predicate Answers(step: Step, id: nat, state: TransferState) {
    step.AdvanceStep? && step.id == id && step.answer.TransferIs? && step.answer.transfer.state == state
  }

  /** The provider does not un-confirm: after a confirmation no later look-up of that withdrawal finds none. */
  ghost predicate NeverUnconfirms(steps: seq<Step>) {
    forall i, j, id :: 0 <= i < j < |steps| && Answers(steps[i], id, TransferConfirmed) ==>
      !Answers(steps[j], id, OtherState)
  }

  predicate Confirms(steps: seq<Step>, id: nat) {
    exists i :: 0 <= i < |steps| && Answers(steps[i], id, TransferConfirmed)
  }

  lemma AdvanceDoesNotLower(s: State, id: nat, answer: Answer)
    requires id < |s.tables.rows| && id < |s.ops| && OpOk(s.tables.rows[id], s.ops[id])
    requires answer.TransferIs? && s.tables.rows[id].status == Confirmed ==> answer.transfer.state != OtherState
    ensures var rows := Advance(s, id, answer).tables.rows; var before := s.tables.rows[id].status;
      && |rows| == |s.tables.rows| && (forall i :: 0 <= i < |rows| && i != id ==> rows[i] == s.tables.rows[i])
      && NotLowered(before, rows[id].status) && (before == Failed ==> rows[id].status == Failed)
  {
  }

  /** A row becomes CONFIRMED only by a look-up that says so. */
  lemma OnlyAnswersConfirm(s: State, step: Step, id: nat)
    requires Inv(s) && id < |Apply(s, step).tables.rows| && Apply(s, step).tables.rows[id].status == Confirmed
    ensures (id < |s.tables.rows| && s.tables.rows[id].status == Confirmed) || Answers(step, id, TransferConfirmed)
  {
    if step.AdvanceStep? && step.id == id && id < |s.tables.rows| && s.tables.rows[id].status != Confirmed {
      assert OpOk(s.tables.rows[id], s.ops[id]);
      OnlyLookUpsConfirm(s, id, step.answer);
    }
  }

  lemma OnlyLookUpsConfirm(s: State, id: nat, answer: Answer)
    requires id < |s.tables.rows| && id < |s.ops| && OpOk(s.tables.rows[id], s.ops[id])
    requires Advance(s, id, answer).tables.rows[id].status == Confirmed && s.tables.rows[id].status != Confirmed
    ensures answer.TransferIs? && answer.transfer.state == TransferConfirmed
  {
  }

  lemma {:induction false} ConfirmedWasAnswered(steps: seq<Step>, id: nat)
    requires id < |Continue(Start, steps).tables.rows|
    requires Continue(Start, steps).tables.rows[id].status == Confirmed
    ensures Confirms(steps, id)
  {
    if steps != [] {
      var n := |steps| - 1;
      EveryRunKeepsInv(steps[..n]);
      OnlyAnswersConfirm(Continue(Start, steps[..n]), steps[n], id);
      if !Answers(steps[n], id, TransferConfirmed) {
        ConfirmedWasAnswered(steps[..n], id);
        var i :| 0 <= i < n && Answers(steps[..n][i], id, TransferConfirmed);
        assert Answers(steps[i], id, TransferConfirmed);
      }
    }
  }

  lemma StepDoesNotLower(s: State, step: Step, id: nat)
    requires Inv(s) && id < |s.tables.rows|
    requires s.tables.rows[id].status == Confirmed ==> !Answers(step, id, OtherState)
    ensures id < |Apply(s, step).tables.rows|
    ensures NotLowered(s.tables.rows[id].status, Apply(s, step).tables.rows[id].status)
    ensures s.tables.rows[id].status == Failed ==> Apply(s, step).tables.rows[id].status == Failed
  {
    if step.AdvanceStep? && step.id == id {
      assert OpOk(s.tables.rows[id], s.ops[id]);
      AdvanceDoesNotLower(s, id, step.answer);
    }
  }

  /** With such a provider, over any run a withdrawal only climbs, or fails for good. */
  lemma {:induction false} RankOnlyRises(steps: seq<Step>, more: seq<Step>, id: nat)
    requires NeverUnconfirms(steps + more) && id < |Continue(Start, steps).tables.rows|
    ensures id < |Continue(Start, steps + more).tables.rows|
    ensures var before, after := Continue(Start, steps).tables.rows[id], Continue(Start, steps + more).tables.rows[id];
      NotLowered(before.status, after.status) && (before.status == Failed ==> after.status == Failed)
  {
    if more == [] {
      assert steps + more == steps;
    } else {
      var n := |more| - 1;
      var prefix, step := steps + more[..n], more[n];
      assert steps + more == prefix + [step];
      PrefixNeverUnconfirms(prefix, step, id);
      RankOnlyRises(steps, more[..n], id);
      ContinueOne(Start, prefix, step);
      EveryRunKeepsInv(prefix);
      if Continue(Start, prefix).tables.rows[id].status == Confirmed {
        ConfirmedWasAnswered(prefix, id);
      }
      StepDoesNotLower(Continue(Start, prefix), step, id);
    }
  }

  lemma PrefixNeverUnconfirms(prefix: seq<Step>, step: Step, id: nat)
    requires NeverUnconfirms(prefix + [step])
    ensures NeverUnconfirms(prefix)
    ensures Confirms(prefix, id) ==> !Answers(step, id, OtherState)
  {
    var all := prefix + [step];
    forall i, j, k | 0 <= i < j < |prefix| && Answers(prefix[i], k, TransferConfirmed)
      ensures !Answers(prefix[j], k, OtherState)
    {
      assert all[i] == prefix[i] && all[j] == prefix[j];
    }
    if Confirms(prefix, id) {
      var i :| 0 <= i < |prefix| && Answers(prefix[i], id, TransferConfirmed);
      assert all[i] == prefix[i] && all[|prefix|] == step;
    }
  }

  lemma ContinueOne(s: State, steps: seq<Step>, step: Step)
    ensures Continue(s, steps + [step]) == Apply(Continue(s, steps), step)
  {
    assert (steps + [step])[..|steps + [step]| - 1] == steps;
  }
}
