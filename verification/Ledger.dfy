/** The double-entry ledger: wallet accounts, immutable transactions and balance snapshots. */
module Ledger {
  import opened Sums

  type Asset = nat
  type User = nat

  /** WalletAccountType */
  datatype AccountKind = Available | Locked | Custody | FeeRevenue

  /** A wallet account, named by the columns that are unique in its table. */
  datatype Account =
    | UserAccount(user: User, asset: Asset, kind: AccountKind)
    | SystemAccount(systemKey: string, asset: Asset, kind: AccountKind)

  /** LedgerTransactionType, with one extra constructor for a value outside the enumeration. */
  datatype TransactionType =
    | DepositPosting | WithdrawalPosting | FundsLock | FundsUnlock | TradeSettlementPosting
    | FeePosting | AdminAdjustment
    | UnknownType

  /** Idempotency keys, one constructor per key prefix used by the services. */
  datatype Key =
    | MissingKey
    | OrderLock(id: nat)
    | OrderCancel(id: nat)
    | TradeSettlement(id: nat)
    | DepositCredit(id: nat)
    | FiatDepositCredit(id: nat)
    | WithdrawalLock(id: nat)
    | WithdrawalUnlock(id: nat)

  datatype Entry = Entry(account: Account, asset: Asset, amount: int)

  datatype Transaction = Transaction(kind: TransactionType, key: Key, entries: seq<Entry>)

  datatype LedgerState = LedgerState(
    accounts: set<Account>,
    balances: map<Account, int>,
    transactions: seq<Transaction>)

  datatype LedgerError =
    | InvalidType | IdempotencyKeyRequired | TooFewEntries | ZeroAmount | Unbalanced
    | AccountNotFound | AssetMismatch | BalanceMissing | InsufficientBalance

  datatype Outcome =
    | Posted(posted: Transaction)
    | Replayed(original: Transaction)
    | Refused(error: LedgerError)

  const EmptyLedger := LedgerState({}, map[], [])

  // ---------- what a list of entries moves ----------

  function AccountAmount(account: Account): Entry -> int {
    (e: Entry) => if e.account == account then e.amount else 0
  }

  function AssetAmount(asset: Asset): Entry -> int {
    (e: Entry) => if e.asset == asset then e.amount else 0
  }

  /** What `entries` move on one account, an account that is named twice counted twice. */
  function AccountTotal(entries: seq<Entry>, account: Account): int {
    SumBy(entries, AccountAmount(account))
  }

  function AssetTotal(entries: seq<Entry>, asset: Asset): int {
    SumBy(entries, AssetAmount(asset))
  }

  /** The double-entry rule: every asset balances on its own. */
  ghost predicate Balanced(entries: seq<Entry>) {
    forall asset :: AssetTotal(entries, asset) == 0
  }

  // ---------- posting ----------

  predicate HasKey(transactions: seq<Transaction>, key: Key) {
    exists i :: 0 <= i < |transactions| && transactions[i].key == key
  }

  function FindByKey(transactions: seq<Transaction>, key: Key): (tx: Transaction)
    requires HasKey(transactions, key)
    ensures tx in transactions && tx.key == key
  {
    if transactions[0].key == key then transactions[0] else FindByKey(transactions[1..], key)
  }

  /** The fault of the first entry that does not fit its account. */
  function FirstFault(s: LedgerState, entries: seq<Entry>): (fault: set<LedgerError>)
    ensures fault <= {AssetMismatch, BalanceMissing}
    ensures fault == {} <==> forall e :: e in entries ==> e.account.asset == e.asset && e.account in s.balances
  {
    if entries == [] then {}
    else if entries[0].account.asset != entries[0].asset then {AssetMismatch}
    else if entries[0].account !in s.balances then {BalanceMissing}
    else FirstFault(s, entries[1..])
  }

  /** No user account would end below zero. System accounts may. */
  ghost predicate Affordable(s: LedgerState, entries: seq<Entry>)
    requires forall e :: e in entries ==> e.account in s.balances
  {
    forall e :: e in entries && e.account.UserAccount? ==>
      0 <= s.balances[e.account] + AccountTotal(entries, e.account)
  }

  datatype Verdict = Fine | Fault(error: LedgerError)

  /** What is wrong with a request before any table is read. */
  ghost function ShapeVerdict(kind: TransactionType, key: Key, entries: seq<Entry>): Verdict {
    if kind == UnknownType then Fault(InvalidType)
    else if key == MissingKey then Fault(IdempotencyKeyRequired)
    else if |entries| < 2 then Fault(TooFewEntries)
    else if exists e :: e in entries && e.amount == 0 then Fault(ZeroAmount)
    else if !Balanced(entries) then Fault(Unbalanced)
    else Fine
  }

  /** What is wrong with the entries given the accounts and their balances. */
  ghost function AccountVerdict(s: LedgerState, entries: seq<Entry>): Verdict {
    if exists e :: e in entries && e.account !in s.accounts then Fault(AccountNotFound)
    else if AssetMismatch in FirstFault(s, entries) then Fault(AssetMismatch)
    else if BalanceMissing in FirstFault(s, entries) then Fault(BalanceMissing)
    else if !Affordable(s, entries) then Fault(InsufficientBalance)
    else Fine
  }

  /** What posting answers, in the order in which the service makes its checks. */
  ghost function PostOutcome(s: LedgerState, kind: TransactionType, key: Key, entries: seq<Entry>): Outcome {
    var shape := ShapeVerdict(kind, key, entries);
    var accounts := AccountVerdict(s, entries);
    if shape.Fault? then Refused(shape.error)
    else if HasKey(s.transactions, key) then Replayed(FindByKey(s.transactions, key))
    else if accounts.Fault? then Refused(accounts.error)
    else Posted(Transaction(kind, key, entries))
  }

  /** Every balance moved by what the entries move on its account. */
  function MovedBalances(balances: map<Account, int>, entries: seq<Entry>): map<Account, int> {
    map a | a in balances :: balances[a] + AccountTotal(entries, a)
  }

  /** The ledger after `tx` was written: history grows, every snapshot moves by its account's entries. */
  function Write(s: LedgerState, tx: Transaction): LedgerState {
    s.(balances := MovedBalances(s.balances, tx.entries),
       transactions := s.transactions + [tx])
  }

  /** A refused or replayed request writes nothing. */
  ghost function AfterPost(s: LedgerState, kind: TransactionType, key: Key, entries: seq<Entry>): LedgerState {
    var outcome := PostOutcome(s, kind, key, entries);
    if outcome.Posted? then Write(s, outcome.posted) else s
  }

  /** The zero-balance upsert of a wallet account: an existing account keeps its balance. */
  function OpenAccount(s: LedgerState, account: Account): LedgerState {
    if account in s.accounts then s
    else s.(accounts := s.accounts + {account}, balances := s.balances[account := 0])
  }

  /** The AVAILABLE and LOCKED pair of a user, opened together. */
  function OpenUserAccounts(s: LedgerState, user: User, asset: Asset): LedgerState {
    OpenAccount(OpenAccount(s, UserAccount(user, asset, Available)), UserAccount(user, asset, Locked))
  }

  /** The main custody account of an asset. */
  function MainCustody(asset: Asset): Account {
    SystemAccount("MAIN", asset, Custody)
  }

  function Balance(s: LedgerState, account: Account): int {
    if account in s.balances then s.balances[account] else 0
  }

  // ---------- the ledger invariant ----------

  function MovesOn(account: Account): Transaction -> int {
    (tx: Transaction) => AccountTotal(tx.entries, account)
  }

  /** Everything the history ever moved on one account. */
  function HistoryTotal(transactions: seq<Transaction>, account: Account): int {
    SumBy(transactions, MovesOn(account))
  }

  ghost predicate WellFormedTransaction(s: LedgerState, tx: Transaction) {
    && tx.kind != UnknownType && tx.key != MissingKey && 2 <= |tx.entries|
    && Balanced(tx.entries)
    && forall e :: e in tx.entries ==> e.amount != 0 && e.account in s.accounts && e.account.asset == e.asset
  }

  ghost predicate DistinctKeys(transactions: seq<Transaction>) {
    forall i, j :: 0 <= i < j < |transactions| ==> transactions[i].key != transactions[j].key
  }

  /** Snapshots agree with the history, the history is double-entry and keyed, and no user is overdrawn. */
  ghost predicate Sound(s: LedgerState) {
    && s.balances.Keys == s.accounts
    && (forall a :: a in s.accounts ==> s.balances[a] == HistoryTotal(s.transactions, a))
    && (forall tx :: tx in s.transactions ==> WellFormedTransaction(s, tx))
    && DistinctKeys(s.transactions)
    && (forall a :: a in s.accounts && a.UserAccount? ==> 0 <= s.balances[a])
  }

  lemma {:induction false} UntouchedTotal(entries: seq<Entry>, account: Account)
    requires forall e :: e in entries ==> e.account != account
    ensures AccountTotal(entries, account) == 0
  {
    if entries != [] {
      UntouchedTotal(entries[..|entries| - 1], account);
    }
  }

  lemma {:induction false} UntouchedAsset(entries: seq<Entry>, asset: Asset)
    requires forall e :: e in entries ==> e.asset != asset
    ensures AssetTotal(entries, asset) == 0
  {
    if entries != [] {
      UntouchedAsset(entries[..|entries| - 1], asset);
    }
  }

  lemma {:induction false} UntouchedHistory(transactions: seq<Transaction>, account: Account)
    requires forall tx :: tx in transactions ==> forall e :: e in tx.entries ==> e.account != account
    ensures HistoryTotal(transactions, account) == 0
  {
    if transactions != [] {
      UntouchedHistory(transactions[..|transactions| - 1], account);
      UntouchedTotal(transactions[|transactions| - 1].entries, account);
    }
  }

  /** Everything a request has to meet to be posted. */
  lemma PostedExactlyIf(s: LedgerState, kind: TransactionType, key: Key, entries: seq<Entry>)
    requires s.balances.Keys == s.accounts
    ensures PostOutcome(s, kind, key, entries).Posted? <==>
      && kind != UnknownType && key != MissingKey && 2 <= |entries|
      && (forall e :: e in entries ==> e.amount != 0 && e.account in s.accounts && e.account.asset == e.asset)
      && (forall asset :: AssetTotal(entries, asset) == 0)
      && (forall i :: 0 <= i < |s.transactions| ==> s.transactions[i].key != key)
      && (forall a: Account :: a.UserAccount? && a in s.accounts && (exists e :: e in entries && e.account == a) ==>
            0 <= s.balances[a] + AccountTotal(entries, a))
  {
    AccountsAreFineIff(s, entries);
  }

  lemma AccountsAreFineIff(s: LedgerState, entries: seq<Entry>)
    requires s.balances.Keys == s.accounts
    ensures AccountVerdict(s, entries).Fine? <==>
      && (forall e :: e in entries ==> e.account in s.accounts && e.account.asset == e.asset)
      && (forall a: Account :: a.UserAccount? && a in s.accounts && (exists e :: e in entries && e.account == a) ==>
            0 <= s.balances[a] + AccountTotal(entries, a))
  {
    assert FirstFault(s, entries) == {} <==>
      forall e :: e in entries ==> e.account.asset == e.asset && e.account in s.balances;
    if forall e :: e in entries ==> e.account in s.balances {
      assert Affordable(s, entries) <==>
        forall a: Account :: a.UserAccount? && (exists e :: e in entries && e.account == a) ==>
          0 <= s.balances[a] + AccountTotal(entries, a);
    }
  }

  /** A refusal names a fault that the request really has. */
  lemma RefusalsAreTrue(s: LedgerState, kind: TransactionType, key: Key, entries: seq<Entry>)
    requires PostOutcome(s, kind, key, entries).Refused?
    ensures match PostOutcome(s, kind, key, entries).error
      case InvalidType => kind == UnknownType
      case IdempotencyKeyRequired => key == MissingKey
      case TooFewEntries => |entries| < 2
      case ZeroAmount => exists e :: e in entries && e.amount == 0
      case Unbalanced => exists asset :: AssetTotal(entries, asset) != 0
      case AccountNotFound => exists e :: e in entries && e.account !in s.accounts
      case AssetMismatch => exists e :: e in entries && e.account.asset != e.asset
      case BalanceMissing => exists e :: e in entries && e.account !in s.balances
      case InsufficientBalance =>
        exists e :: e in entries && e.account.UserAccount? && e.account in s.balances
                 && s.balances[e.account] + AccountTotal(entries, e.account) < 0
  {
    FaultsAreTrue(s, entries);
  }

  lemma {:induction false} FaultsAreTrue(s: LedgerState, entries: seq<Entry>)
    ensures AssetMismatch in FirstFault(s, entries) ==> exists e :: e in entries && e.account.asset != e.asset
    ensures BalanceMissing in FirstFault(s, entries) ==> exists e :: e in entries && e.account !in s.balances
  {
    if entries != [] {
      assert entries[0] in entries;
      FaultsAreTrue(s, entries[1..]);
      assert forall e :: e in entries[1..] ==> e in entries;
    }
  }

  lemma OpenKeepsSound(s: LedgerState, account: Account)
    requires Sound(s)
    ensures Sound(OpenAccount(s, account))
    ensures forall a :: Balance(OpenAccount(s, account), a) == Balance(s, a)
  {
    if account !in s.accounts {
      UntouchedHistory(s.transactions, account);
      var s' := OpenAccount(s, account);
      forall tx | tx in s'.transactions ensures WellFormedTransaction(s', tx) {
        assert WellFormedTransaction(s, tx);
      }
    }
  }

  lemma OpenUserKeepsSound(s: LedgerState, user: User, asset: Asset)
    requires Sound(s)
    ensures Sound(OpenUserAccounts(s, user, asset))
    ensures forall a :: Balance(OpenUserAccounts(s, user, asset), a) == Balance(s, a)
  {
    OpenKeepsSound(s, UserAccount(user, asset, Available));
    OpenKeepsSound(OpenAccount(s, UserAccount(user, asset, Available)), UserAccount(user, asset, Locked));
  }

  lemma WriteMovesBalances(s: LedgerState, tx: Transaction, a: Account)
    requires Sound(s)
    requires forall e :: e in tx.entries ==> e.account in s.balances
    requires Affordable(s, tx.entries)
    requires a in s.accounts
    ensures var s' := Write(s, tx);
      && s'.balances[a] == HistoryTotal(s'.transactions, a)
      && (a.UserAccount? ==> 0 <= s'.balances[a])
  {
    SumAppend(s.transactions, tx, MovesOn(a));
    if forall e :: e in tx.entries ==> e.account != a {
      UntouchedTotal(tx.entries, a);
    }
  }

  lemma WriteKeepsSound(s: LedgerState, tx: Transaction)
    requires Sound(s)
    requires WellFormedTransaction(s, tx) && !HasKey(s.transactions, tx.key)
    requires Affordable(s, tx.entries)
    ensures Sound(Write(s, tx))
  {
    var s' := Write(s, tx);
    forall a | a in s'.accounts
      ensures s'.balances[a] == HistoryTotal(s'.transactions, a)
      ensures a.UserAccount? ==> 0 <= s'.balances[a]
    {
      WriteMovesBalances(s, tx, a);
    }
    forall t | t in s'.transactions ensures WellFormedTransaction(s', t) {
      if t in s.transactions {
        assert WellFormedTransaction(s, t);
      }
    }
  }

  /** Any posting request, accepted, refused or replayed, keeps the ledger sound. */
  lemma PostKeepsSound(s: LedgerState, kind: TransactionType, key: Key, entries: seq<Entry>)
    requires Sound(s)
    ensures Sound(AfterPost(s, kind, key, entries))
  {
    var outcome := PostOutcome(s, kind, key, entries);
    if outcome.Posted? {
      WriteKeepsSound(s, outcome.posted);
    }
  }

  // ---------- runs of arbitrary requests ----------

  datatype Request =
    | OpenRequest(account: Account)
    | PostRequest(kind: TransactionType, key: Key, entries: seq<Entry>)

  ghost function Serve(s: LedgerState, request: Request): LedgerState {
    match request
    case OpenRequest(account) => OpenAccount(s, account)
    case PostRequest(kind, key, entries) => AfterPost(s, kind, key, entries)
  }

  ghost function ServeAll(requests: seq<Request>): LedgerState {
    if requests == [] then EmptyLedger
    else Serve(ServeAll(requests[..|requests| - 1]), requests[|requests| - 1])
  }

  /** After any sequence of requests, whatever they ask for, the ledger is sound. */
  lemma {:induction false} EveryRunIsSound(requests: seq<Request>)
    ensures Sound(ServeAll(requests))
  {
    if requests != [] {
      EveryRunIsSound(requests[..|requests| - 1]);
      var s := ServeAll(requests[..|requests| - 1]);
      match requests[|requests| - 1]
      case OpenRequest(account) => OpenKeepsSound(s, account);
      case PostRequest(kind, key, entries) => PostKeepsSound(s, kind, key, entries);
    }
  }

  /** Posting the same key again, with any other content, is a replay or a refusal and changes nothing. */
  lemma ReplayIsIdempotent(s: LedgerState, kind: TransactionType, key: Key, entries: seq<Entry>,
                           kind': TransactionType, entries': seq<Entry>)
    requires PostOutcome(s, kind, key, entries).Posted?
    ensures var s' := AfterPost(s, kind, key, entries);
      && AfterPost(s', kind', key, entries') == s'
      && !PostOutcome(s', kind', key, entries').Posted?
  {
    var s' := AfterPost(s, kind, key, entries);
    assert s'.transactions[|s.transactions|].key == key;
  }

  // ---------- conservation ----------

  ghost function AccountsOf(s: LedgerState, asset: Asset): set<Account> {
    set a | a in s.accounts && a.asset == asset
  }

  ghost function BalanceIn(s: LedgerState): Account -> int {
    (a: Account) => Balance(s, a)
  }

  ghost function HistoryIn(transactions: seq<Transaction>): Account -> int {
    (a: Account) => HistoryTotal(transactions, a)
  }

  ghost function TotalIn(entries: seq<Entry>): Account -> int {
    (a: Account) => AccountTotal(entries, a)
  }

  /** Summing what entries move over all accounts of an asset gives what they move of that asset. */
  lemma {:induction false} AccountsOfAssetCarryItsTotal(accounts: set<Account>, entries: seq<Entry>, asset: Asset)
    requires forall e :: e in entries ==> e.account.asset == e.asset
    requires forall e :: e in entries && e.asset == asset ==> e.account in accounts
    requires forall a :: a in accounts ==> a.asset == asset
    ensures SetSum(accounts, TotalIn(entries)) == AssetTotal(entries, asset)
  {
    if entries == [] {
      SetSumZero(accounts, TotalIn(entries));
    } else {
      var n := |entries| - 1;
      var last := entries[n];
      assert last in entries;
      AccountsOfAssetCarryItsTotal(accounts, entries[..n], asset);
      var single := (a: Account) => if a == last.account then last.amount else 0;
      SetSumSingle(accounts, last.account, single);
      SetSumPointwise(accounts, TotalIn(entries[..n]), single, TotalIn(entries));
    }
  }

  lemma {:induction false} HistorySumsToZero(s: LedgerState, transactions: seq<Transaction>, asset: Asset)
    requires forall tx :: tx in transactions ==> WellFormedTransaction(s, tx)
    ensures SetSum(AccountsOf(s, asset), HistoryIn(transactions)) == 0
  {
    var accounts := AccountsOf(s, asset);
    if transactions == [] {
      SetSumZero(accounts, HistoryIn(transactions));
    } else {
      var n := |transactions| - 1;
      var last := transactions[n];
      assert last in transactions && WellFormedTransaction(s, last);
      HistorySumsToZero(s, transactions[..n], asset);
      AccountsOfAssetCarryItsTotal(accounts, last.entries, asset);
      SetSumPointwise(accounts, HistoryIn(transactions[..n]), TotalIn(last.entries), HistoryIn(transactions));
    }
  }

  /** In a sound ledger the balances of all accounts of one asset, users and system together, cancel out. */
  lemma SoundLedgerConserves(s: LedgerState, asset: Asset)
    requires Sound(s)
    ensures SetSum(AccountsOf(s, asset), BalanceIn(s)) == 0
  {
    HistorySumsToZero(s, s.transactions, asset);
    SetSumCongruence(AccountsOf(s, asset), BalanceIn(s), HistoryIn(s.transactions));
  }
}
