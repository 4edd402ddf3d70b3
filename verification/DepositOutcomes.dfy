/** What the deposit operations make of a row, in terms of what was reported and of what the row held. */
module DepositOutcomes {
  import opened Ledger
  import opened Orders
  import opened Deposits
  import opened DepositTheorems
  import ExchangeInvariant

  /** A row's status says how its count stands to what its network wants. */
  predicate StatusFits(d: Deposit) {
    var count, wanted := d.confirmations, d.assetNetwork.minConfirmations;
    && (d.status == Detected <==> count <= 0)
    && (d.status == Confirming <==> 0 < count < wanted)
    && (d.status == Confirmed <==> 0 < count && wanted <= count)
  }

  /** Over every run, in any interleaving: count and status of a row that is not credited belong together. */
  lemma StatusesFit(steps: seq<Step>, i: nat)
    requires i < |Run(steps).tables.deposits| && Run(steps).tables.deposits[i].status != Credited
    ensures StatusFits(Run(steps).tables.deposits[i])
  {
    EveryRunKeepsInv(steps);
    var s := Run(steps);
    assert RowOk(s.seen, s.tables.deposits[i]);
  }

  // ---------- recording ----------

  /** A payload that is complete, and for an address that takes deposits. */
  predicate Recordable(p: Payload, found: Lookup) {
    && p.address != "" && p.txHash != "" && 0 <= p.eventIndex && 0 <= p.amount
    && (p.confirmations.Some? ==> 0 <= p.confirmations.value)
    && found.Found? && found.enabled
  }

  /** The row stands for this event of this transaction on this network. */
  predicate IsEvent(d: Deposit, network: nat, txHash: string, eventIndex: int) {
    d.network == network && d.txHash == txHash && d.eventIndex == eventIndex
  }

  predicate IsNewRow(d: Deposit, p: Payload, found: Lookup) {
    && found.Found? && IsEvent(d, found.assetNetwork.network, p.txHash, p.eventIndex)
    && d.user == found.user && d.assetNetwork == found.assetNetwork && d.amount == p.amount
    && d.confirmations == (if p.confirmations.Some? then p.confirmations.value else 0)
    && StatusFits(d)
  }

  /**
   * A payload that cannot be recorded changes nothing and fails; one about a known event changes nothing and answers
   * with its row, whatever else it says; one about a new event adds one row.
   */
  lemma RecordEffect(t: Tables, p: Payload, found: Lookup)
    ensures var (t', id) := Record(t, p, found);
      && (id.Success? <==> Recordable(p, found)) && (id.Failure? ==> t' == t)
      && (id.Success? ==>
            var network := found.assetNetwork.network;
            && id.value < |t'.deposits| && IsEvent(t'.deposits[id.value], network, p.txHash, p.eventIndex)
            && t'.ledger == t.ledger
            && var known := exists i :: 0 <= i < |t.deposits|
                                     && IsEvent(t.deposits[i], network, p.txHash, p.eventIndex);
            && (known ==> t' == t)
            && (!known ==>
                  && id.value == |t.deposits| && |t'.deposits| == |t.deposits| + 1
                  && t'.deposits[..|t.deposits|] == t.deposits && IsNewRow(t'.deposits[|t.deposits|], p, found)))
  {
    if Recordable(p, found) {
      KnownIff(t.deposits, RowOf(p, found));
    }
  }

  /** A payload that is not recorded is told what is really wrong with it. */
  lemma RecordRefusalsAreTrue(t: Tables, p: Payload, found: Lookup)
    requires Record(t, p, found).1.Failure?
    ensures match Record(t, p, found).1.error
      case AddressRequired => p.address == ""
      case TransactionHashRequired => p.txHash == ""
      case ConfirmationsInvalid => p.confirmations.Some? && p.confirmations.value < 0
      case EventIndexInvalid => p.eventIndex < 0
      case AmountNotPositive => p.amount < 0
      case AddressNotFound => found.NoAddress?
      case DepositsDisabled => found.Found? && !found.enabled
      case _ => false
  {
  }

  lemma KnownIff(deposits: seq<Deposit>, row: Deposit)
    ensures HasEvent(deposits, row) <==>
      exists i :: 0 <= i < |deposits| && IsEvent(deposits[i], row.network, row.txHash, row.eventIndex)
  {
    if HasEvent(deposits, row) {
      var i :| 0 <= i < |deposits| && SameEvent(deposits[i], row);
      assert IsEvent(deposits[i], row.network, row.txHash, row.eventIndex);
    }
    if i :| 0 <= i < |deposits| && IsEvent(deposits[i], row.network, row.txHash, row.eventIndex) {
      assert SameEvent(deposits[i], row);
    }
  }

  // ---------- updating ----------

  /** A count is taken over unless it is lower than the stored one, or the row is final; nothing else changes. */
  lemma UpdateEffect(t: Tables, id: nat, confirmations: int)
    requires id < |t.deposits| && 0 <= confirmations
    ensures var d, (t', end) := t.deposits[id], Update(t, id, confirmations);
      && end.Success? && id < |t'.deposits| && end.value == t'.deposits[id]
      && t'.ledger == t.ledger && t'.deposits == t.deposits[id := t'.deposits[id]]
      && d.confirmations <= t'.deposits[id].confirmations
      && var skips := d.status == Credited || d.status == DepositStatus.Rejected || confirmations < d.confirmations;
      && (skips ==> t'.deposits[id] == d)
      && (!skips ==>
            && t'.deposits[id].confirmations == confirmations && StatusFits(t'.deposits[id])
            && SameDeposit(t'.deposits[id], d))
  {
  }

  // ---------- crediting ----------

  /** A confirmed deposit of a positive amount, not credited before, moves that amount from custody to its user. */
  lemma CreditEffect(t: Tables, id: nat)
    requires Sound(t.ledger) && id < |t.deposits| && 0 < t.deposits[id].amount
    requires t.deposits[id].status == Confirmed && !HasKey(t.ledger.transactions, DepositCredit(id))
    ensures var d, (t', end) := t.deposits[id], Credit(t, id);
      && end.Success? && t'.deposits == t.deposits[id := d.(status := Credited)]
      && forall a :: Balance(t'.ledger, a) == Balance(t.ledger, a)
           + (if a == UserAccount(d.user, d.assetNetwork.asset, Available) then d.amount else 0)
           - (if a == MainCustody(d.assetNetwork.asset) then d.amount else 0)
  {
    var d := t.deposits[id];
    CreditMoves(t.ledger, id, d);
  }

  lemma AccountsOpen(ledger: LedgerState, d: Deposit)
    requires Sound(ledger)
    ensures var ready, asset := OpenCreditAccounts(ledger, d), d.assetNetwork.asset;
      && Sound(ready) && ready.transactions == ledger.transactions
      && MainCustody(asset) in ready.accounts && UserAccount(d.user, asset, Available) in ready.accounts
      && forall a :: Balance(ready, a) == Balance(ledger, a)
  {
    OpenUserKeepsSound(ledger, d.user, d.assetNetwork.asset);
    OpenKeepsSound(OpenUserAccounts(ledger, d.user, d.assetNetwork.asset), MainCustody(d.assetNetwork.asset));
  }

  lemma CreditIsPosted(ledger: LedgerState, id: nat, d: Deposit)
    requires Sound(ledger) && 0 < d.amount && !HasKey(ledger.transactions, DepositCredit(id))
    ensures PostOutcome(OpenCreditAccounts(ledger, d), DepositPosting, DepositCredit(id), CreditOf(d)).Posted?
  {
    CreditPostsIff(ledger, id, d);
    CreditAccountsOpen(ledger, d);
    ExchangeInvariant.PostOrRefuse(OpenCreditAccounts(ledger, d), DepositPosting, DepositCredit(id), CreditOf(d));
  }

  lemma CreditMoves(ledger: LedgerState, id: nat, d: Deposit)
    requires Sound(ledger) && 0 < d.amount && !HasKey(ledger.transactions, DepositCredit(id))
    ensures var ready, asset := OpenCreditAccounts(ledger, d), d.assetNetwork.asset;
      var ledger' := AfterPost(ready, DepositPosting, DepositCredit(id), CreditOf(d));
      && PostOutcome(ready, DepositPosting, DepositCredit(id), CreditOf(d)).Posted?
      && forall a :: Balance(ledger', a) == Balance(ledger, a)
           + (if a == UserAccount(d.user, asset, Available) then d.amount else 0)
           - (if a == MainCustody(asset) then d.amount else 0)
  {
    AccountsOpen(ledger, d);
    CreditIsPosted(ledger, id, d);
    var asset := d.assetNetwork.asset;
    PostedMoves(OpenCreditAccounts(ledger, d), DepositPosting, DepositCredit(id), MainCustody(asset),
                UserAccount(d.user, asset, Available), asset, d.amount);
  }

  lemma PostedMoves(ledger: LedgerState, kind: TransactionType, key: Key, from: Account, to: Account, asset: Asset,
                    amount: int)
    requires var entries := [Entry(from, asset, -amount), Entry(to, asset, amount)];
      Sound(ledger) && from != to && PostOutcome(ledger, kind, key, entries).Posted?
    ensures var entries := [Entry(from, asset, -amount), Entry(to, asset, amount)];
      forall a :: Balance(AfterPost(ledger, kind, key, entries), a)
               == Balance(ledger, a) + (if a == to then amount else 0) - (if a == from then amount else 0)
  {
    var entries := [Entry(from, asset, -amount), Entry(to, asset, amount)];
    ExchangeInvariant.PostEffect(ledger, kind, key, entries);
    ExchangeInvariant.TransferTotals(from, to, asset, amount);
  }

  /** Nothing else is ever credited: a row that is not confirmed is refused, and a credited one is left alone. */
  lemma OnlyConfirmedIsCredited(t: Tables, id: nat)
    requires id < |t.deposits| && t.deposits[id].status != Confirmed
    ensures Credit(t, id).0 == t
    ensures Credit(t, id).1 == if t.deposits[id].status == Credited then Success(()) else Failure(OnlyConfirmed)
  {
  }
}
