/**
 * Crediting crypto deposits under at-least-once delivery: any number of tasks run the same deposit at once, each
 * stopping between any two database calls, holding rows that may be out of date, and possibly never resuming.
 */
module Deposits {
  import opened Ledger
  import opened Orders
  import Exchange

  datatype DepositStatus = Detected | Confirming | Confirmed | Credited | Rejected

  datatype AssetNetwork = AssetNetwork(network: nat, asset: Asset, minConfirmations: int)

  /** A deposit row; its id is its index. The first three columns are unique together. */
  datatype Deposit = Deposit(
    network: nat, txHash: string, eventIndex: int, user: User, assetNetwork: AssetNetwork,
    amount: int, confirmations: int, status: DepositStatus)

  /** What a webhook, a scan or a finalizer job reports. */
  datatype Payload = Payload(address: string, txHash: string, eventIndex: int, amount: int, confirmations: Option<int>)

  datatype Option<T> = None | Some(value: T)

  /** What the active deposit addresses say about the payload's address just now. */
  datatype Lookup = NoAddress | Found(user: User, assetNetwork: AssetNetwork, enabled: bool)

  datatype DepositError =
    | AddressRequired | TransactionHashRequired | ConfirmationsInvalid | EventIndexInvalid | AmountNotPositive
    | AddressNotFound | DepositsDisabled | DepositNotFound | OnlyConfirmed | CreditRefused(ledger: LedgerError)

  datatype Tables = Tables(deposits: seq<Deposit>, ledger: LedgerState)

  function StatusFrom(confirmations: int, minConfirmations: int): DepositStatus {
    if confirmations <= 0 then Detected
    else if confirmations < minConfirmations then Confirming
    else Confirmed
  }

  // ---------- the operations, uninterrupted ----------

  function RecordChecks(p: Payload, found: Lookup): Result<(), DepositError> {
    if p.address == "" then Failure(AddressRequired)
    else if p.txHash == "" then Failure(TransactionHashRequired)
    else if p.confirmations.Some? && p.confirmations.value < 0 then Failure(ConfirmationsInvalid)
    else if p.eventIndex < 0 then Failure(EventIndexInvalid)
    else if p.amount < 0 then Failure(AmountNotPositive)
    else if found.NoAddress? then Failure(AddressNotFound)
    else if !found.enabled then Failure(DepositsDisabled)
    else Success(())
  }

  /** The row a payload would create. Without a count of confirmations it starts at none. */
  function RowOf(p: Payload, found: Lookup): Deposit
    requires found.Found?
  {
    var confirmations := if p.confirmations.Some? then p.confirmations.value else 0;
    Deposit(found.assetNetwork.network, p.txHash, p.eventIndex, found.user, found.assetNetwork, p.amount,
            confirmations, StatusFrom(confirmations, found.assetNetwork.minConfirmations))
  }

  predicate SameEvent(d: Deposit, e: Deposit) {
    d.network == e.network && d.txHash == e.txHash && d.eventIndex == e.eventIndex
  }

  predicate HasEvent(deposits: seq<Deposit>, row: Deposit) {
    exists i :: 0 <= i < |deposits| && SameEvent(deposits[i], row)
  }

  function FindEvent(deposits: seq<Deposit>, row: Deposit): (id: nat)
    requires HasEvent(deposits, row)
    ensures id < |deposits| && SameEvent(deposits[id], row)
  {
    var last := |deposits| - 1;
    if SameEvent(deposits[last], row) then last else FindEvent(deposits[..last], row)
  }

  function Record(t: Tables, p: Payload, found: Lookup): (Tables, Result<nat, DepositError>) {
    var checks := RecordChecks(p, found);
    if checks.Failure? then (t, Failure(checks.error))
    else
      var row := RowOf(p, found);
      if HasEvent(t.deposits, row) then (t, Success(FindEvent(t.deposits, row)))
      else (t.(deposits := t.deposits + [row]), Success(|t.deposits|))
  }

  predicate UpdateSkipped(d: Deposit, confirmations: int) {
    d.status == Credited || d.status == DepositStatus.Rejected || confirmations < d.confirmations
  }

  function Confirm(d: Deposit, confirmations: int): Deposit {
    d.(confirmations := confirmations, status := StatusFrom(confirmations, d.assetNetwork.minConfirmations))
  }

  function Update(t: Tables, id: nat, confirmations: int): (Tables, Result<Deposit, DepositError>) {
    if confirmations < 0 then (t, Failure(ConfirmationsInvalid))
    else if |t.deposits| <= id then (t, Failure(DepositNotFound))
    else if UpdateSkipped(t.deposits[id], confirmations) then (t, Success(t.deposits[id]))
    else
      var d := Confirm(t.deposits[id], confirmations);
      (t.(deposits := t.deposits[id := d]), Success(d))
  }

  function OpenCreditAccounts(ledger: LedgerState, d: Deposit): LedgerState {
    OpenAccount(OpenUserAccounts(ledger, d.user, d.assetNetwork.asset), MainCustody(d.assetNetwork.asset))
  }

  function CreditOf(d: Deposit): seq<Entry> {
    Exchange.CreditEntries(d.user, d.assetNetwork.asset, d.amount)
  }

  ghost function Credit(t: Tables, id: nat): (Tables, Result<(), DepositError>) {
    if |t.deposits| <= id then (t, Failure(DepositNotFound))
    else if t.deposits[id].status == Credited then (t, Success(()))
    else if t.deposits[id].status != Confirmed then (t, Failure(OnlyConfirmed))
    else
      var d := t.deposits[id];
      var ready := OpenCreditAccounts(t.ledger, d);
      var post := PostOutcome(ready, DepositPosting, DepositCredit(id), CreditOf(d));
      if post.Refused? then (t.(ledger := ready), Failure(CreditRefused(post.error)))
      else (Tables(t.deposits[id := d.(status := Credited)],
                   AfterPost(ready, DepositPosting, DepositCredit(id), CreditOf(d))), Success(()))
  }

  /** Update, then credit if the update left the row confirmed. */
  ghost function Finish(t: Tables, id: nat, confirmations: int): (Tables, Result<nat, DepositError>) {
    var (updated, row) := Update(t, id, confirmations);
    if row.Failure? then (updated, Failure(row.error))
    else if row.value.status != Confirmed then (updated, Success(id))
    else
      var (credited, end) := Credit(updated, id);
      (credited, if end.Failure? then Failure(end.error) else Success(id))
  }

  /** processDetectedDeposit: record, then finish with the payload's confirmations or else the row's own. */
  ghost function Process(t: Tables, p: Payload, found: Lookup): (Tables, Result<nat, DepositError>) {
    var (recorded, id) := Record(t, p, found);
    if id.Failure? || |recorded.deposits| <= id.value then (recorded, id)
    else
      Finish(recorded, id.value, if p.confirmations.Some? then p.confirmations.value
                                 else recorded.deposits[id.value].confirmations)
  }

  // ---------- the same operations, one database call at a time ----------

  /** Where a task stands: the call it makes next, with the row it read before. */
  datatype Task =
    | Idle
    | CreateRow(row: Deposit)
    | ReadForUpdate(id: nat, confirmations: int)
    | WriteUpdate(id: nat, read: Deposit, confirmations: int)
    | ReadForCredit(id: nat)
    | OpenAccounts(id: nat, read: Deposit)
    | PostCredit(id: nat, read: Deposit)
    | MarkCredited(id: nat)

  /** A number of confirmations that some payload reported for an event. */
  datatype Sighting = Sighting(row: Deposit, confirmations: int)

  datatype State = State(tables: Tables, tasks: map<nat, Task>, seen: seq<Sighting>)

  function TaskOf(s: State, w: nat): Task {
    if w in s.tasks then s.tasks[w] else Idle
  }

  function Goto(s: State, w: nat, task: Task): State {
    s.(tasks := s.tasks[w := task])
  }

  /** The start of processDetectedDeposit, up to its look for an existing row. */
  function Receive(s: State, w: nat, p: Payload, found: Lookup): State {
    if RecordChecks(p, found).Failure? then s
    else
      var row := RowOf(p, found);
      var s' := s.(seen := s.seen + [Sighting(row, row.confirmations)]);
      if !HasEvent(s.tables.deposits, row) then Goto(s', w, CreateRow(row))
      else
        var id := FindEvent(s.tables.deposits, row);
        Goto(s', w, ReadForUpdate(id, if p.confirmations.Some? then row.confirmations
                                      else s.tables.deposits[id].confirmations))
  }

  /** The next database call of a task. */
  ghost function Advance(s: State, w: nat): State {
    var deposits, ledger := s.tables.deposits, s.tables.ledger;
    match TaskOf(s, w)
    case Idle => s
    case CreateRow(row) =>
      if HasEvent(deposits, row) then Goto(s, w, Idle)
      else Goto(s.(tables := Tables(deposits + [row], ledger)), w, ReadForUpdate(|deposits|, row.confirmations))
    case ReadForUpdate(id, confirmations) =>
      if |deposits| <= id then Goto(s, w, Idle)
      else if !UpdateSkipped(deposits[id], confirmations) then Goto(s, w, WriteUpdate(id, deposits[id], confirmations))
      else Goto(s, w, if deposits[id].status == Confirmed then ReadForCredit(id) else Idle)
    case WriteUpdate(id, read, confirmations) =>
      if |deposits| <= id then Goto(s, w, Idle)
      else
        var status := StatusFrom(confirmations, read.assetNetwork.minConfirmations);
        var row := deposits[id].(confirmations := confirmations, status := status);
        Goto(s.(tables := Tables(deposits[id := row], ledger)), w,
             if status == Confirmed then ReadForCredit(id) else Idle)
    case ReadForCredit(id) =>
      if |deposits| <= id || deposits[id].status != Confirmed then Goto(s, w, Idle)
      else Goto(s, w, OpenAccounts(id, deposits[id]))
    case OpenAccounts(id, read) =>
      Goto(s.(tables := Tables(deposits, OpenCreditAccounts(ledger, read))), w, PostCredit(id, read))
    case PostCredit(id, read) =>
      var post := PostOutcome(ledger, DepositPosting, DepositCredit(id), CreditOf(read));
      if post.Refused? then Goto(s, w, Idle)
      else Goto(s.(tables := Tables(deposits, AfterPost(ledger, DepositPosting, DepositCredit(id), CreditOf(read)))),
                w, MarkCredited(id))
    case MarkCredited(id) =>
      if |deposits| <= id then Goto(s, w, Idle)
      else Goto(s.(tables := Tables(deposits[id := deposits[id].(status := Credited)], ledger)), w, Idle)
  }

  datatype Step =
    | ReceiveStep(w: nat, payload: Payload, found: Lookup)
    | RecoverStep(w: nat, id: nat)
    | AdvanceStep(w: nat)
    | CrashStep(w: nat)
    | ElsewhereStep(request: Ledger.Request)

  /** A busy task takes no new work; the rest of the system posts under other keys. */
  ghost function Apply(s: State, step: Step): State {
    match step
    case ReceiveStep(w, p, found) => if TaskOf(s, w).Idle? then Receive(s, w, p, found) else s
    case RecoverStep(w, id) =>
      if TaskOf(s, w).Idle? && id < |s.tables.deposits| then Goto(s, w, ReadForCredit(id)) else s
    case AdvanceStep(w) => Advance(s, w)
    case CrashStep(w) => Goto(s, w, Idle)
    case ElsewhereStep(request) =>
      if request.PostRequest? && request.key.DepositCredit? then s
      else s.(tables := s.tables.(ledger := Serve(s.tables.ledger, request)))
  }

  const Start := State(Tables([], EmptyLedger), map[], [])

  ghost function Continue(s: State, steps: seq<Step>): State {
    if steps == [] then s else Apply(Continue(s, steps[..|steps| - 1]), steps[|steps| - 1])
  }

  ghost function Run(steps: seq<Step>): State {
    Continue(Start, steps)
  }

  // ---------- uninterrupted steps are the operation ----------

  ghost function AdvanceBy(s: State, w: nat, n: nat): State
    decreases n
  {
    if n == 0 then s else AdvanceBy(Advance(s, w), w, n - 1)
  }

  lemma {:induction false} IdleStays(s: State, w: nat, n: nat)
    requires TaskOf(s, w).Idle?
    ensures AdvanceBy(s, w, n) == s
    decreases n
  {
    if n != 0 {
      IdleStays(s, w, n - 1);
    }
  }

  lemma OneAdvance(s: State, w: nat, n: nat)
    requires 0 < n
    ensures AdvanceBy(s, w, n) == AdvanceBy(Advance(s, w), w, n - 1)
  {
  }

  lemma PostInSteps(s: State, w: nat, id: nat, read: Deposit)
    requires TaskOf(s, w) == PostCredit(id, read) && id < |s.tables.deposits|
    ensures var post := PostOutcome(s.tables.ledger, DepositPosting, DepositCredit(id), CreditOf(read));
      AdvanceBy(s, w, 2).tables ==
        if post.Refused? then s.tables
        else Tables(s.tables.deposits[id := s.tables.deposits[id].(status := Credited)],
                    AfterPost(s.tables.ledger, DepositPosting, DepositCredit(id), CreditOf(read)))
    ensures TaskOf(AdvanceBy(s, w, 2), w).Idle?
  {
    var s1 := Advance(s, w);
    OneAdvance(s, w, 2);
    if TaskOf(s1, w).Idle? {
      IdleStays(s1, w, 1);
    } else {
      OneAdvance(s1, w, 1);
    }
  }

  lemma CreditInSteps(s: State, w: nat, id: nat)
    requires TaskOf(s, w) == ReadForCredit(id)
    ensures AdvanceBy(s, w, 4).tables == Credit(s.tables, id).0
    ensures TaskOf(AdvanceBy(s, w, 4), w).Idle?
  {
    var s1 := Advance(s, w);
    OneAdvance(s, w, 4);
    if TaskOf(s1, w).Idle? {
      IdleStays(s1, w, 3);
    } else {
      OneAdvance(s1, w, 3);
      PostInSteps(Advance(s1, w), w, id, s.tables.deposits[id]);
    }
  }

  lemma UpdateInSteps(s: State, w: nat, id: nat, confirmations: int)
    requires TaskOf(s, w) == ReadForUpdate(id, confirmations) && id < |s.tables.deposits| && 0 <= confirmations
    ensures AdvanceBy(s, w, 6).tables == Finish(s.tables, id, confirmations).0
    ensures TaskOf(AdvanceBy(s, w, 6), w).Idle?
  {
    var s1 := Advance(s, w);
    if UpdateSkipped(s.tables.deposits[id], confirmations) {
      if TaskOf(s1, w).Idle? {
        IdleStays(s1, w, 5);
      } else {
        CreditInSteps(s1, w, id);
        AdvancesAdd(s1, w, 4, 1);
        IdleStays(AdvanceBy(s1, w, 4), w, 1);
      }
    } else {
      var s2 := Advance(s1, w);
      assert s2.tables == Update(s.tables, id, confirmations).0;
      if TaskOf(s2, w).Idle? {
        IdleStays(s2, w, 4);
      } else {
        CreditInSteps(s2, w, id);
      }
    }
  }

  lemma {:induction false} AdvancesAdd(s: State, w: nat, m: nat, n: nat)
    ensures AdvanceBy(s, w, m + n) == AdvanceBy(AdvanceBy(s, w, m), w, n)
    decreases m
  {
    if m != 0 {
      AdvancesAdd(Advance(s, w), w, m - 1, n);
    }
  }

  ghost function Uninterrupted(s: State, w: nat, p: Payload, found: Lookup): State {
    AdvanceBy(Apply(s, ReceiveStep(w, p, found)), w, 7)
  }

  predicate StoredCountsAreNatural(deposits: seq<Deposit>) {
    forall i :: 0 <= i < |deposits| ==> 0 <= deposits[i].confirmations
  }

  /** A task that is left alone does exactly what the operation says, and comes to rest. */
  lemma UninterruptedIsProcess(s: State, w: nat, p: Payload, found: Lookup)
    requires TaskOf(s, w).Idle? && StoredCountsAreNatural(s.tables.deposits)
    ensures Uninterrupted(s, w, p, found).tables == Process(s.tables, p, found).0
    ensures TaskOf(Uninterrupted(s, w, p, found), w).Idle?
  {
    var s1 := Receive(s, w, p, found);
    if RecordChecks(p, found).Failure? {
      IdleStays(s1, w, 7);
    } else {
      var row := RowOf(p, found);
      if HasEvent(s.tables.deposits, row) {
        var id := FindEvent(s.tables.deposits, row);
        UpdateInSteps(s1, w, id, TaskOf(s1, w).confirmations);
        AdvancesAdd(s1, w, 6, 1);
        IdleStays(AdvanceBy(s1, w, 6), w, 1);
      } else {
        var s2 := Advance(s1, w);
        assert s2.tables == Record(s.tables, p, found).0;
        UpdateInSteps(s2, w, |s.tables.deposits|, row.confirmations);
      }
    }
  }
}
