/** What holds of crediting in every interleaving, and what an undisturbed delivery achieves. */
module DepositTheorems {
  import opened Arithmetic
  import opened Ledger
  import opened Deposits
  import ExchangeInvariant

  // ---------- rows, sightings and postings only accumulate ----------

  predicate SameDeposit(d: Deposit, e: Deposit) {
    SameEvent(d, e) && d.user == e.user && d.assetNetwork == e.assetNetwork && d.amount == e.amount
  }

  ghost predicate Grows(s: State, s': State) {
    && |s.tables.deposits| <= |s'.tables.deposits|
    && (forall i :: 0 <= i < |s.tables.deposits| ==> SameDeposit(s.tables.deposits[i], s'.tables.deposits[i]))
    && s.seen <= s'.seen
    && s.tables.ledger.transactions <= s'.tables.ledger.transactions
  }

  lemma PostingGrows(ledger: LedgerState, kind: TransactionType, key: Key, entries: seq<Entry>)
    ensures ledger.transactions <= AfterPost(ledger, kind, key, entries).transactions
  {
  }

  lemma AdvanceGrows(s: State, w: nat)
    ensures Grows(s, Advance(s, w))
  {
    if TaskOf(s, w).PostCredit? {
      var task := TaskOf(s, w);
      PostingGrows(s.tables.ledger, DepositPosting, DepositCredit(task.id), CreditOf(task.read));
    }
  }

  /** A step never removes a row, a sighting or a posting, and never changes whose deposit it is or its amount. */
  lemma StepGrows(s: State, step: Step)
    ensures Grows(s, Apply(s, step))
  {
    if step.AdvanceStep? {
      AdvanceGrows(s, step.w);
    }
  }

  lemma GrowthAddsUp(s: State, s': State, s'': State)
    requires Grows(s, s') && Grows(s', s'')
    ensures Grows(s, s'')
  {
  }

  // ---------- the invariant ----------

  /** Some payload reported this number of confirmations for the event of the row. */
  predicate Sighted(seen: seq<Sighting>, d: Deposit, confirmations: int) {
    exists i :: 0 <= i < |seen| && SameEvent(seen[i].row, d) && seen[i].confirmations == confirmations
  }

  /** Some payload reported enough confirmations for the event of the row. */
  predicate Reached(seen: seq<Sighting>, d: Deposit) {
    exists i :: 0 <= i < |seen| && SameEvent(seen[i].row, d)
             && 0 < seen[i].confirmations && d.assetNetwork.minConfirmations <= seen[i].confirmations
  }

  predicate RowOk(seen: seq<Sighting>, d: Deposit) {
    && 0 <= d.amount && 0 <= d.confirmations && d.status != DepositStatus.Rejected
    && Sighted(seen, d, d.confirmations)
    && (d.status != Credited ==> d.status == StatusFrom(d.confirmations, d.assetNetwork.minConfirmations))
  }

  predicate OneRowPerEvent(deposits: seq<Deposit>) {
    forall i, j :: 0 <= i < j < |deposits| ==> !SameEvent(deposits[i], deposits[j])
  }

  predicate TaskOk(s: State, task: Task) {
    var deposits := s.tables.deposits;
    match task
    case Idle => true
    case CreateRow(row) => RowOk(s.seen, row) && row.status != Credited
    case ReadForUpdate(id, confirmations) =>
      id < |deposits| && 0 <= confirmations && Sighted(s.seen, deposits[id], confirmations)
    case WriteUpdate(id, read, confirmations) =>
      id < |deposits| && SameDeposit(read, deposits[id])
      && 0 <= confirmations && Sighted(s.seen, deposits[id], confirmations)
    case ReadForCredit(id) => id < |deposits|
    case OpenAccounts(id, read) => id < |deposits| && SameDeposit(read, deposits[id]) && Reached(s.seen, read)
    case PostCredit(id, read) => id < |deposits| && SameDeposit(read, deposits[id]) && Reached(s.seen, read)
    case MarkCredited(id) => id < |deposits| && HasKey(s.tables.ledger.transactions, DepositCredit(id))
  }

  /** A posting under a deposit's key credits that deposit, whose event had been seen with enough confirmations. */
  ghost predicate CreditOk(s: State, tx: Transaction) {
    tx.key.DepositCredit? ==>
      && tx.key.id < |s.tables.deposits|
      && tx.kind == DepositPosting && tx.entries == CreditOf(s.tables.deposits[tx.key.id])
      && Reached(s.seen, s.tables.deposits[tx.key.id])
  }

  ghost predicate RowsOk(s: State) {
    && OneRowPerEvent(s.tables.deposits)
    && forall i :: 0 <= i < |s.tables.deposits| ==>
         RowOk(s.seen, s.tables.deposits[i]) && MarkOk(s.tables.ledger.transactions, i, s.tables.deposits[i])
  }

  /** A row marked as credited was credited. */
  predicate MarkOk(transactions: seq<Transaction>, i: nat, d: Deposit) {
    d.status == Credited ==> HasKey(transactions, DepositCredit(i))
  }

  ghost predicate TasksOk(s: State) {
    forall w :: w in s.tasks ==> TaskOk(s, s.tasks[w])
  }

  ghost predicate CreditsOk(s: State) {
    var transactions := s.tables.ledger.transactions;
    forall i :: 0 <= i < |transactions| ==> CreditOk(s, transactions[i])
  }

  ghost predicate Inv(s: State) {
    Sound(s.tables.ledger) && RowsOk(s) && TasksOk(s) && CreditsOk(s)
  }

  // ---------- the invariant is kept ----------

  lemma SightedGrows(seen: seq<Sighting>, seen': seq<Sighting>, d: Deposit, e: Deposit, confirmations: int)
    requires seen <= seen' && SameEvent(d, e) && Sighted(seen, d, confirmations)
    ensures Sighted(seen', e, confirmations)
  {
    var i :| 0 <= i < |seen| && SameEvent(seen[i].row, d) && seen[i].confirmations == confirmations;
    assert seen'[i] == seen[i];
  }

  lemma ReachedGrows(seen: seq<Sighting>, seen': seq<Sighting>, d: Deposit, e: Deposit)
    requires seen <= seen' && SameDeposit(d, e) && Reached(seen, d)
    ensures Reached(seen', e)
  {
    var i :| 0 <= i < |seen| && SameEvent(seen[i].row, d)
          && 0 < seen[i].confirmations && d.assetNetwork.minConfirmations <= seen[i].confirmations;
    assert seen'[i] == seen[i];
  }

  lemma KeyGrows(transactions: seq<Transaction>, transactions': seq<Transaction>, key: Key)
    requires transactions <= transactions' && HasKey(transactions, key)
    ensures HasKey(transactions', key)
  {
    var i :| 0 <= i < |transactions| && transactions[i].key == key;
    assert transactions'[i] == transactions[i];
  }

  lemma TaskStaysOk(s: State, s': State, task: Task)
    requires Grows(s, s') && TaskOk(s, task)
    ensures TaskOk(s', task)
  {
    match task
    case Idle =>
    case CreateRow(row) =>
      SightedGrows(s.seen, s'.seen, row, row, row.confirmations);
    case ReadForUpdate(id, confirmations) =>
      SightedGrows(s.seen, s'.seen, s.tables.deposits[id], s'.tables.deposits[id], confirmations);
    case WriteUpdate(id, read, confirmations) =>
      SightedGrows(s.seen, s'.seen, s.tables.deposits[id], s'.tables.deposits[id], confirmations);
    case ReadForCredit(id) =>
    case OpenAccounts(id, read) =>
      ReachedGrows(s.seen, s'.seen, read, read);
    case PostCredit(id, read) =>
      ReachedGrows(s.seen, s'.seen, read, read);
    case MarkCredited(id) =>
      KeyGrows(s.tables.ledger.transactions, s'.tables.ledger.transactions, DepositCredit(id));
  }

  /** Every other task is still right after a step; only the one that moved is left to look at. */
  lemma OtherTasksStayOk(s: State, s': State, w: nat)
    requires Grows(s, s') && TasksOk(s)
    requires forall v :: v in s'.tasks && v != w ==> v in s.tasks && s'.tasks[v] == s.tasks[v]
    requires w in s'.tasks ==> TaskOk(s', s'.tasks[w])
    ensures TasksOk(s')
  {
    forall v | v in s'.tasks ensures TaskOk(s', s'.tasks[v]) {
      if v != w {
        TaskStaysOk(s, s', s.tasks[v]);
      }
    }
  }

  lemma CreditStaysOk(s: State, s': State, tx: Transaction)
    requires Grows(s, s') && CreditOk(s, tx)
    ensures CreditOk(s', tx)
  {
    if tx.key.DepositCredit? {
      ReachedGrows(s.seen, s'.seen, s.tables.deposits[tx.key.id], s'.tables.deposits[tx.key.id]);
    }
  }

  /** Postings made before stay right; only one that a step adds is left to look at. */
  lemma CreditsStayOk(s: State, s': State)
    requires Grows(s, s') && CreditsOk(s)
    requires |s'.tables.ledger.transactions| <= |s.tables.ledger.transactions| + 1
    requires |s'.tables.ledger.transactions| == |s.tables.ledger.transactions| + 1 ==>
      CreditOk(s', s'.tables.ledger.transactions[|s.tables.ledger.transactions|])
    ensures CreditsOk(s')
  {
    var old', new' := s.tables.ledger.transactions, s'.tables.ledger.transactions;
    forall i | 0 <= i < |new'| ensures CreditOk(s', new'[i]) {
      if i < |old'| {
        CreditStaysOk(s, s', old'[i]);
      }
    }
  }

  lemma RowStaysOk(s: State, s': State, i: nat, d: Deposit)
    requires Grows(s, s') && RowOk(s.seen, d) && MarkOk(s.tables.ledger.transactions, i, d)
    ensures RowOk(s'.seen, d) && MarkOk(s'.tables.ledger.transactions, i, d)
  {
    SightedGrows(s.seen, s'.seen, d, d, d.confirmations);
    if d.status == Credited {
      KeyGrows(s.tables.ledger.transactions, s'.tables.ledger.transactions, DepositCredit(i));
    }
  }

  /** Rows that a step does not write stay right; only row `k` is left to look at. */
  lemma RowsStayOk(s: State, s': State, k: nat)
    requires Grows(s, s') && RowsOk(s)
    requires |s'.tables.deposits| == |s.tables.deposits|
    requires forall i :: 0 <= i < |s.tables.deposits| && i != k ==> s'.tables.deposits[i] == s.tables.deposits[i]
    requires k < |s.tables.deposits| ==>
      RowOk(s'.seen, s'.tables.deposits[k]) && MarkOk(s'.tables.ledger.transactions, k, s'.tables.deposits[k])
    ensures RowsOk(s')
  {
    forall i | 0 <= i < |s'.tables.deposits|
      ensures RowOk(s'.seen, s'.tables.deposits[i]) && MarkOk(s'.tables.ledger.transactions, i, s'.tables.deposits[i])
    {
      if i != k {
        RowStaysOk(s, s', i, s.tables.deposits[i]);
      }
    }
  }

  lemma NewRowOk(s: State, s': State, row: Deposit)
    requires Grows(s, s') && RowsOk(s) && RowOk(s.seen, row) && row.status != Credited
    requires !HasEvent(s.tables.deposits, row) && s'.tables.deposits == s.tables.deposits + [row]
    ensures RowsOk(s')
  {
    var n := |s.tables.deposits|;
    forall i | 0 <= i < |s'.tables.deposits|
      ensures RowOk(s'.seen, s'.tables.deposits[i]) && MarkOk(s'.tables.ledger.transactions, i, s'.tables.deposits[i])
    {
      RowStaysOk(s, s', i, s'.tables.deposits[i]);
    }
  }

  lemma GotoKeepsInv(s: State, w: nat, task: Task)
    requires Inv(s) && TaskOk(s, task)
    ensures Inv(Goto(s, w, task))
  {
    var s' := Goto(s, w, task);
    OtherTasksStayOk(s, s', w);
    RowsStayOk(s, s', |s.tables.deposits|);
    CreditsStayOk(s, s');
  }

  lemma SightingKeepsInv(s: State, row: Deposit)
    requires Inv(s)
    ensures Inv(s.(seen := s.seen + [Sighting(row, row.confirmations)]))
  {
    var s' := s.(seen := s.seen + [Sighting(row, row.confirmations)]);
    forall w | w in s'.tasks ensures TaskOk(s', s'.tasks[w]) {
      TaskStaysOk(s, s', s.tasks[w]);
    }
    RowsStayOk(s, s', |s.tables.deposits|);
    CreditsStayOk(s, s');
  }

  lemma ReceiveKeepsInv(s: State, w: nat, p: Payload, found: Lookup)
    requires Inv(s)
    ensures Inv(Receive(s, w, p, found))
  {
    if RecordChecks(p, found).Success? {
      var row := RowOf(p, found);
      var s' := s.(seen := s.seen + [Sighting(row, row.confirmations)]);
      SightingKeepsInv(s, row);
      assert s'.seen[|s.seen|] == Sighting(row, row.confirmations);
      if HasEvent(s.tables.deposits, row) {
        var id := FindEvent(s.tables.deposits, row);
        assert RowOk(s'.seen, s'.tables.deposits[id]);
        assert SameEvent(s'.seen[|s.seen|].row, s'.tables.deposits[id]);
        GotoKeepsInv(s', w, TaskOf(Receive(s, w, p, found), w));
      } else {
        GotoKeepsInv(s', w, CreateRow(row));
      }
    }
  }

  lemma CreateKeepsInv(s: State, w: nat, row: Deposit)
    requires Inv(s) && TaskOf(s, w) == CreateRow(row)
    ensures Inv(Advance(s, w))
  {
    if HasEvent(s.tables.deposits, row) {
      GotoKeepsInv(s, w, Idle);
    } else {
      var s' := Advance(s, w);
      StepGrows(s, AdvanceStep(w));
      NewRowOk(s, s', row);
      CreditsStayOk(s, s');
      OtherTasksStayOk(s, s', w);
    }
  }

  /** Overwriting a row's count by one that was seen keeps the row right, whatever the row says by now. */
  lemma WriteKeepsInv(s: State, w: nat, id: nat, read: Deposit, confirmations: int)
    requires Inv(s) && TaskOf(s, w) == WriteUpdate(id, read, confirmations)
    ensures Inv(Advance(s, w))
  {
    var s' := Advance(s, w);
    StepGrows(s, AdvanceStep(w));
    assert TaskOk(s, s.tasks[w]) && RowOk(s.seen, s.tables.deposits[id]);
    SightedGrows(s.seen, s'.seen, s.tables.deposits[id], s'.tables.deposits[id], confirmations);
    RowsStayOk(s, s', id);
    CreditsStayOk(s, s');
    OtherTasksStayOk(s, s', w);
  }

  lemma ConfirmedWasReached(seen: seq<Sighting>, d: Deposit)
    requires RowOk(seen, d) && d.status == Confirmed
    ensures Reached(seen, d)
  {
  }

  lemma OpenKeepsInv(s: State, w: nat, id: nat, read: Deposit)
    requires Inv(s) && TaskOf(s, w) == OpenAccounts(id, read)
    ensures Inv(Advance(s, w))
  {
    var s' := Advance(s, w);
    StepGrows(s, AdvanceStep(w));
    CreditAccountsOpen(s.tables.ledger, read);
    assert TaskOk(s, s.tasks[w]);
    TaskStaysOk(s, s', OpenAccounts(id, read));
    RowsStayOk(s, s', |s.tables.deposits|);
    CreditsStayOk(s, s');
    OtherTasksStayOk(s, s', w);
  }

  lemma CreditAccountsOpen(ledger: LedgerState, d: Deposit)
    requires Sound(ledger)
    ensures Sound(OpenCreditAccounts(ledger, d))
    ensures OpenCreditAccounts(ledger, d).transactions == ledger.transactions
  {
    OpenUserKeepsSound(ledger, d.user, d.assetNetwork.asset);
    OpenKeepsSound(OpenUserAccounts(ledger, d.user, d.assetNetwork.asset), MainCustody(d.assetNetwork.asset));
  }

  /** Posting, refused or not, leaves the key behind unless it was refused. */
  lemma PostLeavesKey(ledger: LedgerState, kind: TransactionType, key: Key, entries: seq<Entry>)
    requires !PostOutcome(ledger, kind, key, entries).Refused?
    ensures var after := AfterPost(ledger, kind, key, entries).transactions;
      && HasKey(after, key)
      && (after == ledger.transactions || after == ledger.transactions + [Transaction(kind, key, entries)])
  {
    if PostOutcome(ledger, kind, key, entries).Posted? {
      assert AfterPost(ledger, kind, key, entries).transactions[|ledger.transactions|].key == key;
    }
  }

  /** A ledger with one more posting, or the same postings, that explains `key`. */
  ghost predicate Keyed(ledger: LedgerState, ledger': LedgerState, tx: Transaction) {
    && Sound(ledger') && HasKey(ledger'.transactions, tx.key)
    && (ledger'.transactions == ledger.transactions || ledger'.transactions == ledger.transactions + [tx])
  }

  lemma PostIsKeyed(ledger: LedgerState, kind: TransactionType, key: Key, entries: seq<Entry>)
    requires Sound(ledger) && !PostOutcome(ledger, kind, key, entries).Refused?
    ensures Keyed(ledger, AfterPost(ledger, kind, key, entries), Transaction(kind, key, entries))
  {
    PostKeepsSound(ledger, kind, key, entries);
    PostLeavesKey(ledger, kind, key, entries);
  }

  lemma KeyedKeepsInv(s: State, w: nat, id: nat, read: Deposit, ledger: LedgerState)
    requires Inv(s) && TaskOf(s, w) == PostCredit(id, read)
    requires Keyed(s.tables.ledger, ledger, Transaction(DepositPosting, DepositCredit(id), CreditOf(read)))
    ensures Inv(Goto(s.(tables := s.tables.(ledger := ledger)), w, MarkCredited(id)))
  {
    var s' := Goto(s.(tables := s.tables.(ledger := ledger)), w, MarkCredited(id));
    assert TaskOk(s, s.tasks[w]);
    ReachedGrows(s.seen, s'.seen, read, s'.tables.deposits[id]);
    RowsStayOk(s, s', |s.tables.deposits|);
    CreditsStayOk(s, s');
    OtherTasksStayOk(s, s', w);
  }

  lemma PostKeepsInv(s: State, w: nat, id: nat, read: Deposit)
    requires Inv(s) && TaskOf(s, w) == PostCredit(id, read)
    ensures Inv(Advance(s, w))
  {
    if PostOutcome(s.tables.ledger, DepositPosting, DepositCredit(id), CreditOf(read)).Refused? {
      GotoKeepsInv(s, w, Idle);
    } else {
      PostIsKeyed(s.tables.ledger, DepositPosting, DepositCredit(id), CreditOf(read));
      KeyedKeepsInv(s, w, id, read, AfterPost(s.tables.ledger, DepositPosting, DepositCredit(id), CreditOf(read)));
    }
  }

  lemma MarkKeepsInv(s: State, w: nat, id: nat)
    requires Inv(s) && TaskOf(s, w) == MarkCredited(id)
    ensures Inv(Advance(s, w))
  {
    var s' := Advance(s, w);
    StepGrows(s, AdvanceStep(w));
    assert TaskOk(s, s.tasks[w]) && RowOk(s.seen, s.tables.deposits[id]);
    SightedGrows(s.seen, s'.seen, s.tables.deposits[id], s'.tables.deposits[id], s.tables.deposits[id].confirmations);
    RowsStayOk(s, s', id);
    CreditsStayOk(s, s');
    OtherTasksStayOk(s, s', w);
  }

  lemma ReadForUpdateKeepsInv(s: State, w: nat, id: nat, confirmations: int)
    requires Inv(s) && TaskOf(s, w) == ReadForUpdate(id, confirmations)
    ensures Inv(Advance(s, w))
  {
    assert TaskOk(s, s.tasks[w]);
    GotoKeepsInv(s, w, TaskOf(Advance(s, w), w));
  }

  lemma ReadForCreditKeepsInv(s: State, w: nat, id: nat)
    requires Inv(s) && TaskOf(s, w) == ReadForCredit(id)
    ensures Inv(Advance(s, w))
  {
    assert TaskOk(s, s.tasks[w]) && RowOk(s.seen, s.tables.deposits[id]);
    if s.tables.deposits[id].status == Confirmed {
      ConfirmedWasReached(s.seen, s.tables.deposits[id]);
    }
    GotoKeepsInv(s, w, TaskOf(Advance(s, w), w));
  }

  lemma AdvanceKeepsInv(s: State, w: nat)
    requires Inv(s)
    ensures Inv(Advance(s, w))
  {
    match TaskOf(s, w)
    case Idle =>
    case CreateRow(row) => CreateKeepsInv(s, w, row);
    case ReadForUpdate(id, confirmations) => ReadForUpdateKeepsInv(s, w, id, confirmations);
    case WriteUpdate(id, read, confirmations) => WriteKeepsInv(s, w, id, read, confirmations);
    case ReadForCredit(id) => ReadForCreditKeepsInv(s, w, id);
    case OpenAccounts(id, read) => OpenKeepsInv(s, w, id, read);
    case PostCredit(id, read) => PostKeepsInv(s, w, id, read);
    case MarkCredited(id) => MarkKeepsInv(s, w, id);
  }

  lemma ElsewhereKeepsInv(s: State, request: Ledger.Request)
    requires Inv(s)
    ensures Inv(Apply(s, ElsewhereStep(request)))
  {
    if !(request.PostRequest? && request.key.DepositCredit?) {
      var s' := Apply(s, ElsewhereStep(request));
      StepGrows(s, ElsewhereStep(request));
      match request {
        case OpenRequest(account) => OpenKeepsSound(s.tables.ledger, account);
        case PostRequest(kind, key, entries) => PostKeepsSound(s.tables.ledger, kind, key, entries);
      }
      forall w | w in s'.tasks ensures TaskOk(s', s'.tasks[w]) {
        TaskStaysOk(s, s', s.tasks[w]);
      }
      RowsStayOk(s, s', |s.tables.deposits|);
      CreditsStayOk(s, s');
    }
  }

  lemma ApplyKeepsInv(s: State, step: Step)
    requires Inv(s)
    ensures Inv(Apply(s, step))
  {
    match step
    case ReceiveStep(w, p, found) => ReceiveKeepsInv(s, w, p, found);
    case RecoverStep(w, id) =>
      if id < |s.tables.deposits| {
        GotoKeepsInv(s, w, ReadForCredit(id));
      }
    case AdvanceStep(w) => AdvanceKeepsInv(s, w);
    case CrashStep(w) => GotoKeepsInv(s, w, Idle);
    case ElsewhereStep(request) => ElsewhereKeepsInv(s, request);
  }

  lemma {:induction false} ContinueKeepsInv(s: State, steps: seq<Step>)
    requires Inv(s)
    ensures Inv(Continue(s, steps))
  {
    if steps != [] {
      ContinueKeepsInv(s, steps[..|steps| - 1]);
      ApplyKeepsInv(Continue(s, steps[..|steps| - 1]), steps[|steps| - 1]);
    }
  }

  lemma EveryRunKeepsInv(steps: seq<Step>)
    ensures Inv(Run(steps))
  {
    ContinueKeepsInv(Start, steps);
  }

  // ---------- safety over every run ----------

  /**
   * Whatever was redelivered, interleaved, overwritten or lost: a deposit is credited at most once, in full, to its
   * user, and only if some payload had reported enough confirmations.
   */
  lemma CreditedAtMostOnce(steps: seq<Step>, i: nat, j: nat, id: nat)
    requires var transactions := Run(steps).tables.ledger.transactions;
      i < |transactions| && j < |transactions|
      && transactions[i].key == DepositCredit(id) && transactions[j].key == DepositCredit(id)
    ensures i == j
    ensures var s := Run(steps);
      && id < |s.tables.deposits|
      && s.tables.ledger.transactions[i].entries == CreditOf(s.tables.deposits[id])
      && Reached(s.seen, s.tables.deposits[id])
  {
    EveryRunKeepsInv(steps);
    var s := Run(steps);
    assert CreditOk(s, s.tables.ledger.transactions[i]);
  }

  /** An event has one row, so one credit: two credited rows of a run belong to different events. */
  lemma OneCreditPerEvent(steps: seq<Step>, i: nat, j: nat)
    requires var transactions := Run(steps).tables.ledger.transactions;
      i < |transactions| && j < |transactions|
      && transactions[i].key.DepositCredit? && transactions[j].key.DepositCredit?
    ensures var s := Run(steps); var transactions := s.tables.ledger.transactions;
      var k, l := transactions[i].key.id, transactions[j].key.id;
      && k < |s.tables.deposits| && l < |s.tables.deposits|
      && (SameEvent(s.tables.deposits[k], s.tables.deposits[l]) <==> i == j)
  {
    EveryRunKeepsInv(steps);
    var s := Run(steps);
    assert CreditOk(s, s.tables.ledger.transactions[i]) && CreditOk(s, s.tables.ledger.transactions[j]);
    var k, l := s.tables.ledger.transactions[i].key.id, s.tables.ledger.transactions[j].key.id;
    if SameEvent(s.tables.deposits[k], s.tables.deposits[l]) {
      assert k == l;
      CreditedAtMostOnce(steps, i, j, k);
    }
  }

  lemma {:induction false} ContinueAdds(s: State, steps: seq<Step>, more: seq<Step>)
    ensures Continue(s, steps + more) == Continue(Continue(s, steps), more)
  {
    if more == [] {
      assert steps + more == steps;
    } else {
      assert (steps + more)[..|steps + more| - 1] == steps + more[..|more| - 1];
      ContinueAdds(s, steps, more[..|more| - 1]);
    }
  }

  lemma {:induction false} ContinueGrows(s: State, steps: seq<Step>)
    ensures Grows(s, Continue(s, steps))
  {
    if steps != [] {
      var before := Continue(s, steps[..|steps| - 1]);
      ContinueGrows(s, steps[..|steps| - 1]);
      StepGrows(before, steps[|steps| - 1]);
      GrowthAddsUp(s, before, Continue(s, steps));
    }
  }

  /** What was recorded first stays: user, asset, network and amount of a row never change afterwards. */
  lemma RecordsAreFixed(steps: seq<Step>, more: seq<Step>)
    ensures Grows(Run(steps), Run(steps + more))
  {
    ContinueAdds(Start, steps, more);
    ContinueGrows(Run(steps), more);
  }

  // ---------- the CREDITED mark ----------

  predicate StandsAtWrite(s: State, w: nat, id: nat) {
    TaskOf(s, w).WriteUpdate? && TaskOf(s, w).id == id
  }

  ghost predicate IsCredited(s: State, id: nat) {
    id < |s.tables.deposits| && s.tables.deposits[id].status == Credited
  }

  /** One step overwrites the mark only when a task that had read the row writes what it had decided then. */
  lemma CreditedIsLostIff(s: State, step: Step, id: nat)
    requires Inv(s) && IsCredited(s, id)
    ensures !IsCredited(Apply(s, step), id) <==> step.AdvanceStep? && StandsAtWrite(s, step.w, id)
  {
  }

  /** While a row is credited, no task comes to stand at a write of it. */
  lemma NoNewWrites(s: State, step: Step, id: nat)
    requires Inv(s) && IsCredited(s, id)
    requires forall w :: !StandsAtWrite(s, w, id)
    ensures forall w :: !StandsAtWrite(Apply(s, step), w, id)
  {
    forall w ensures !StandsAtWrite(Apply(s, step), w, id) {
      assert !StandsAtWrite(s, w, id);
      if step.AdvanceStep? {
        AdvanceStartsNoWrite(s, step.w, w, id);
      }
    }
  }

  lemma AdvanceStartsNoWrite(s: State, v: nat, w: nat, id: nat)
    requires IsCredited(s, id) && !StandsAtWrite(s, w, id)
    ensures !StandsAtWrite(Advance(s, v), w, id)
  {
  }

  lemma {:induction false} UnwrittenStaysCredited(s: State, steps: seq<Step>, id: nat)
    requires Inv(s) && IsCredited(s, id) && forall w :: !StandsAtWrite(s, w, id)
    ensures IsCredited(Continue(s, steps), id) && forall w :: !StandsAtWrite(Continue(s, steps), w, id)
  {
    if steps != [] {
      var before := Continue(s, steps[..|steps| - 1]);
      UnwrittenStaysCredited(s, steps[..|steps| - 1], id);
      ContinueKeepsInv(s, steps[..|steps| - 1]);
      CreditedIsLostIff(before, steps[|steps| - 1], id);
      NoNewWrites(before, steps[|steps| - 1], id);
    }
  }

  /**
   * Over runs: a credited row stays CREDITED whatever happens next, exactly when no task stands at a write that it
   * had decided on before the row was credited.
   */
  lemma CreditedIsFinalIff(s: State, id: nat)
    requires Inv(s) && IsCredited(s, id)
    ensures (forall steps :: IsCredited(Continue(s, steps), id)) <==> (forall w :: !StandsAtWrite(s, w, id))
  {
    if exists w :: StandsAtWrite(s, w, id) {
      var w :| StandsAtWrite(s, w, id);
      WriteOverwrites(s, w, id);
    } else {
      forall steps ensures IsCredited(Continue(s, steps), id) {
        UnwrittenStaysCredited(s, steps, id);
      }
    }
  }

  lemma WriteOverwrites(s: State, w: nat, id: nat)
    requires Inv(s) && IsCredited(s, id) && StandsAtWrite(s, w, id)
    ensures !IsCredited(Continue(s, [AdvanceStep(w)]), id)
  {
    CreditedIsLostIff(s, AdvanceStep(w), id);
    assert [AdvanceStep(w)][..0] == [];
  }

  /** A lost mark costs nothing: the posting is still there, so crediting again only restores the mark. */
  lemma LostMarkIsRestored(s: State, id: nat)
    requires Inv(s) && id < |s.tables.deposits| && s.tables.deposits[id].status == Confirmed
    requires HasKey(s.tables.ledger.transactions, DepositCredit(id))
    ensures var (t, end) := Credit(s.tables, id);
      && end.Success? && t.deposits == s.tables.deposits[id := s.tables.deposits[id].(status := Credited)]
      && t.ledger.transactions == s.tables.ledger.transactions
      && forall a :: Balance(t.ledger, a) == Balance(s.tables.ledger, a)
  {
    var d, ledger := s.tables.deposits[id], s.tables.ledger;
    CreditedAmountIsNotZero(s, id);
    CreditPostsIff(ledger, id, d);
    OpenUserKeepsSound(ledger, d.user, d.assetNetwork.asset);
    OpenKeepsSound(OpenUserAccounts(ledger, d.user, d.assetNetwork.asset), MainCustody(d.assetNetwork.asset));
    assert HasKey(OpenCreditAccounts(ledger, d).transactions, DepositCredit(id));
  }

  lemma CreditedAmountIsNotZero(s: State, id: nat)
    requires Inv(s) && HasKey(s.tables.ledger.transactions, DepositCredit(id))
    ensures id < |s.tables.deposits| && s.tables.deposits[id].amount != 0
  {
    var transactions := s.tables.ledger.transactions;
    var i :| 0 <= i < |transactions| && transactions[i].key == DepositCredit(id);
    assert CreditOk(s, transactions[i]);
    assert WellFormedTransaction(s.tables.ledger, transactions[i]);
    assert transactions[i].entries[1] in transactions[i].entries;
  }

  // ---------- what an undisturbed delivery achieves ----------

  /** The credit is accepted, for the first time or as a replay, exactly for a positive amount. */
  lemma CreditPostsIff(ledger: LedgerState, id: nat, d: Deposit)
    requires Sound(ledger) && 0 <= d.amount
    ensures PostOutcome(OpenCreditAccounts(ledger, d), DepositPosting, DepositCredit(id), CreditOf(d)).Refused?
       <==> d.amount == 0
  {
    var ready, asset := OpenCreditAccounts(ledger, d), d.assetNetwork.asset;
    var from, to := MainCustody(asset), UserAccount(d.user, asset, Available);
    CreditAccountsOpen(ledger, d);
    ExchangeInvariant.TransferTotals(from, to, asset, d.amount);
    CreditShape(id, d);
    if !HasKey(ready.transactions, DepositCredit(id)) {
      ExchangeInvariant.TransferOutcome(ready, DepositPosting, DepositCredit(id), from, to, asset, d.amount);
    }
  }

  lemma CreditShape(id: nat, d: Deposit)
    requires 0 <= d.amount && Balanced(CreditOf(d))
    ensures ShapeVerdict(DepositPosting, DepositCredit(id), CreditOf(d)).Fine? <==> d.amount != 0
  {
    var entries := CreditOf(d);
    assert entries[0] in entries && entries[1] in entries;
    assert forall e :: e in entries ==> e == entries[0] || e == entries[1];
  }

  lemma CreditEndsCreditedIff(s: State, t: Tables, id: nat)
    requires Inv(s) && t.ledger == s.tables.ledger && id < |t.deposits|
    requires t.deposits[id].status == Confirmed && 0 <= t.deposits[id].amount
    ensures var (t', end) := Credit(t, id);
      id < |t'.deposits| && (t'.deposits[id].status == Credited <==> t.deposits[id].amount != 0)
  {
    CreditPostsIff(t.ledger, id, t.deposits[id]);
  }

  /** The row a payload is about: the stored one, or the one it creates. */
  function RowBefore(deposits: seq<Deposit>, p: Payload, found: Lookup): Deposit
    requires found.Found?
  {
    var row := RowOf(p, found);
    if HasEvent(deposits, row) then deposits[FindEvent(deposits, row)] else row
  }

  /** Update and credit together, from the row as it stands. */
  lemma FinishEndsCreditedIff(s: State, t: Tables, id: nat, reported: int)
    requires Inv(s) && t.ledger == s.tables.ledger && id < |t.deposits| && 0 <= reported
    requires var d := t.deposits[id];
      && 0 <= d.amount && d.status != DepositStatus.Rejected
      && (d.status == Credited ==> HasKey(s.tables.ledger.transactions, DepositCredit(id)) && d.amount != 0)
      && (d.status != Credited ==> d.status == StatusFrom(d.confirmations, d.assetNetwork.minConfirmations))
    ensures var d, after := t.deposits[id], Finish(t, id, reported).0.deposits;
      && |after| == |t.deposits| && after == t.deposits[id := after[id]] && SameEvent(after[id], d)
      && (after[id].status == Credited <==>
           d.amount != 0 &&
           (d.status == Credited
            || (0 < Max(reported, d.confirmations)
                && d.assetNetwork.minConfirmations <= Max(reported, d.confirmations))))
  {
    var (updated, answer) := Update(t, id, reported);
    if updated.deposits[id].status == Confirmed {
      CreditEndsCreditedIff(s, updated, id);
    }
  }

  /**
   * Processing a payload to its end, from any reachable state, leaves the deposit CREDITED exactly when its amount is
   * not zero and it was credited before, or the larger of stored and reported confirmations is enough.
   */
  lemma ProcessEndsCreditedIff(s: State, p: Payload, found: Lookup)
    requires Inv(s) && RecordChecks(p, found).Success?
    ensures var row := RowBefore(s.tables.deposits, p, found);
      var reported := if p.confirmations.Some? then p.confirmations.value else row.confirmations;
      var after := Process(s.tables, p, found).0.deposits;
      && HasEvent(after, row)
      && (after[FindEvent(after, row)].status == Credited <==>
           row.amount != 0 &&
           (row.status == Credited
            || (0 < Max(reported, row.confirmations)
                && row.assetNetwork.minConfirmations <= Max(reported, row.confirmations))))
  {
    var (recorded, id) := Record(s.tables, p, found);
    RecordedRow(s, p, found);
    var row := RowBefore(s.tables.deposits, p, found);
    var reported := if p.confirmations.Some? then p.confirmations.value else row.confirmations;
    if row.status == Credited {
      CreditedAmountIsNotZero(s, id.value);
    }
    FinishEndsCreditedIff(s, recorded, id.value, reported);
    var after := Finish(recorded, id.value, reported).0.deposits;
    StillOneRowPerEvent(recorded.deposits, after, id.value);
    FoundRow(after, row, id.value);
  }

  lemma StillOneRowPerEvent(deposits: seq<Deposit>, after: seq<Deposit>, id: nat)
    requires OneRowPerEvent(deposits) && id < |deposits| && |after| == |deposits|
    requires after == deposits[id := after[id]] && SameEvent(after[id], deposits[id])
    ensures OneRowPerEvent(after)
  {
  }

  lemma RecordedRow(s: State, p: Payload, found: Lookup)
    requires Inv(s) && RecordChecks(p, found).Success?
    ensures var (recorded, id) := Record(s.tables, p, found); var row := RowBefore(s.tables.deposits, p, found);
      && recorded.ledger == s.tables.ledger && id.Success? && id.value < |recorded.deposits|
      && recorded.deposits[id.value] == row && 0 <= row.amount && 0 <= row.confirmations
      && row.status != DepositStatus.Rejected && OneRowPerEvent(recorded.deposits)
      && (row.status == Credited ==> HasKey(s.tables.ledger.transactions, DepositCredit(id.value)))
      && (row.status != Credited ==> row.status == StatusFrom(row.confirmations, row.assetNetwork.minConfirmations))
  {
  }

  lemma FoundRow(deposits: seq<Deposit>, row: Deposit, id: nat)
    requires OneRowPerEvent(deposits) && id < |deposits| && SameEvent(deposits[id], row)
    ensures HasEvent(deposits, row) && FindEvent(deposits, row) == id
  {
  }

  /** So a delivery that runs to its end with enough confirmations credits, whatever had gone wrong before it. */
  lemma EnoughConfirmationsCredit(steps: seq<Step>, w: nat, p: Payload, found: Lookup)
    requires var s := Run(steps);
      && TaskOf(s, w).Idle? && RecordChecks(p, found).Success? && p.confirmations.Some?
      && RowBefore(s.tables.deposits, p, found).amount != 0
      && 0 < p.confirmations.value
      && RowBefore(s.tables.deposits, p, found).assetNetwork.minConfirmations <= p.confirmations.value
    ensures var row, after := RowBefore(Run(steps).tables.deposits, p, found),
                              Uninterrupted(Run(steps), w, p, found).tables.deposits;
      HasEvent(after, row) && after[FindEvent(after, row)].status == Credited
  {
    EveryRunKeepsInv(steps);
    var s := Run(steps);
    ProcessEndsCreditedIff(s, p, found);
    forall i | 0 <= i < |s.tables.deposits| ensures 0 <= s.tables.deposits[i].confirmations {
      assert RowOk(s.seen, s.tables.deposits[i]);
    }
    UninterruptedIsProcess(s, w, p, found);
  }

  // ---------- a run in which the mark is lost ----------

  const PAYLOAD := Payload("address", "hash", 0, 1, Some(1))
  const FOUND := Found(1, AssetNetwork(0, 0, 1), true)

  /** Two deliveries of one payload; the second has read the row and is about to write its count. */
  function TwoDeliveries(): seq<Step> {
    [] + [ReceiveStep(0, PAYLOAD, FOUND)] + [AdvanceStep(0)] + [ReceiveStep(1, PAYLOAD, FOUND)] + [AdvanceStep(1)]
  }

  function Advances(w: nat, n: nat): seq<Step> {
    if n == 0 then [] else Advances(w, n - 1) + [AdvanceStep(w)]
  }

  lemma ContinueOne(s: State, steps: seq<Step>, step: Step)
    ensures Continue(s, steps + [step]) == Apply(Continue(s, steps), step)
  {
    assert (steps + [step])[..|steps + [step]| - 1] == steps;
  }

  lemma OneMoreAdvance(s: State, w: nat, n: nat)
    ensures AdvanceBy(s, w, n + 1) == Apply(AdvanceBy(s, w, n), AdvanceStep(w))
  {
    AdvancesAdd(s, w, n, 1);
    OneAdvance(AdvanceBy(s, w, n), w, 1);
  }

  lemma {:induction false} ContinueAdvances(s: State, w: nat, n: nat)
    ensures Continue(s, Advances(w, n)) == AdvanceBy(s, w, n)
  {
    if n != 0 {
      ContinueAdvances(s, w, n - 1);
      ContinueOne(s, Advances(w, n - 1), AdvanceStep(w));
      OneMoreAdvance(s, w, n - 1);
    }
  }

  lemma OtherTaskUntouched(s: State, w: nat, v: nat)
    requires v != w
    ensures TaskOf(Advance(s, w), v) == TaskOf(s, v)
  {
  }

  lemma {:induction false} OtherTaskWaits(s: State, w: nat, v: nat, n: nat)
    requires v != w
    ensures TaskOf(AdvanceBy(s, w, n), v) == TaskOf(s, v)
    decreases n
  {
    if n != 0 {
      OtherTaskUntouched(s, w, v);
      OtherTaskWaits(Advance(s, w), w, v, n - 1);
    }
  }

  lemma BothAreUnderWay()
    ensures var s, row := Run(TwoDeliveries()), RowOf(PAYLOAD, FOUND);
      && s.tables == Tables([row], EmptyLedger)
      && TaskOf(s, 0) == ReadForUpdate(0, 1) && TaskOf(s, 1) == WriteUpdate(0, row, 1)
  {
    var one := [] + [ReceiveStep(0, PAYLOAD, FOUND)];
    var row := RowOf(PAYLOAD, FOUND);
    ContinueOne(Start, [], ReceiveStep(0, PAYLOAD, FOUND));
    ContinueOne(Start, one, AdvanceStep(0));
    ContinueOne(Start, one + [AdvanceStep(0)], ReceiveStep(1, PAYLOAD, FOUND));
    ContinueOne(Start, one + [AdvanceStep(0)] + [ReceiveStep(1, PAYLOAD, FOUND)], AdvanceStep(1));
    assert !HasEvent([], row) && [] + [row] == [row];
    assert Run(one).tables == Start.tables && TaskOf(Run(one), 0) == CreateRow(row);
    assert Run(one + [AdvanceStep(0)]).tables == Tables([row], EmptyLedger);
    assert SameEvent([row][0], row) && HasEvent([row], row);
  }

  lemma FirstDeliveryCredits(s: State)
    requires Inv(s) && s.tables == Tables([RowOf(PAYLOAD, FOUND)], EmptyLedger)
    requires TaskOf(s, 0) == ReadForUpdate(0, 1)
    ensures IsCredited(AdvanceBy(s, 0, 6), 0) && TaskOf(AdvanceBy(s, 0, 6), 1) == TaskOf(s, 1)
  {
    UpdateInSteps(s, 0, 0, 1);
    FinishEndsCreditedIff(s, s.tables, 0, 1);
    OtherTaskWaits(s, 0, 1, 6);
  }

  lemma SecondDeliveryOverwrites(s: State)
    requires Inv(s) && IsCredited(s, 0) && StandsAtWrite(s, 1, 0)
    ensures !IsCredited(Apply(s, AdvanceStep(1)), 0)
    ensures HasKey(Apply(s, AdvanceStep(1)).tables.ledger.transactions, DepositCredit(0))
  {
    CreditedIsLostIff(s, AdvanceStep(1), 0);
    CreditedWasPosted(s, 0);
    StepGrows(s, AdvanceStep(1));
    KeyGrows(s.tables.ledger.transactions, Apply(s, AdvanceStep(1)).tables.ledger.transactions, DepositCredit(0));
  }

  /** The first delivery credits, then the second overwrites the mark it never saw. */
  lemma CreditedCanBeLost()
    ensures var steps := TwoDeliveries() + Advances(0, 6);
      && IsCredited(Run(steps), 0) && !IsCredited(Run(steps + [AdvanceStep(1)]), 0)
      && HasKey(Run(steps + [AdvanceStep(1)]).tables.ledger.transactions, DepositCredit(0))
  {
    var steps := TwoDeliveries() + Advances(0, 6);
    BothAreUnderWay();
    EveryRunKeepsInv(TwoDeliveries());
    FirstDeliveryCredits(Run(TwoDeliveries()));
    AfterTheFirst();
    EveryRunKeepsInv(steps);
    SecondDeliveryOverwrites(Run(steps));
    ContinueOne(Start, steps, AdvanceStep(1));
  }

  lemma AfterTheFirst()
    ensures Run(TwoDeliveries() + Advances(0, 6)) == AdvanceBy(Run(TwoDeliveries()), 0, 6)
  {
    ContinueAdds(Start, TwoDeliveries(), Advances(0, 6));
    ContinueAdvances(Run(TwoDeliveries()), 0, 6);
  }

  lemma CreditedWasPosted(s: State, id: nat)
    requires Inv(s) && IsCredited(s, id)
    ensures HasKey(s.tables.ledger.transactions, DepositCredit(id))
  {
    assert MarkOk(s.tables.ledger.transactions, id, s.tables.deposits[id]);
  }
}
