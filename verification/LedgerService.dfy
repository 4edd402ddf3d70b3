/** `postLedgerTransaction` and the wallet-account upserts as imperative code over mutable tables. */
module LedgerService {
  import opened Sums
  import opened Ledger

  lemma PrefixTotals(entries: seq<Entry>, i: nat, asset: Asset, account: Account)
    requires i < |entries|
    ensures AssetTotal(entries[..i + 1], asset)
         == AssetTotal(entries[..i], asset) + AssetAmount(asset)(entries[i])
    ensures AccountTotal(entries[..i + 1], account)
         == AccountTotal(entries[..i], account) + AccountAmount(account)(entries[i])
  {
    assert entries[..i + 1] == entries[..i] + [entries[i]];
    SumAppend(entries[..i], entries[i], AssetAmount(asset));
    SumAppend(entries[..i], entries[i], AccountAmount(account));
  }

  /** The totals per asset, accumulated entry by entry. */
  method TotalsByAsset(entries: seq<Entry>) returns (totals: map<Asset, int>)
    ensures forall e :: e in entries ==> e.asset in totals
    ensures forall asset :: asset in totals ==> totals[asset] == AssetTotal(entries, asset)
  {
    totals := map[];
    for i := 0 to |entries|
      invariant forall k :: 0 <= k < i ==> entries[k].asset in totals
      invariant forall asset :: asset in totals ==> totals[asset] == AssetTotal(entries[..i], asset)
      invariant forall e :: e in entries[..i] ==> e.asset in totals
    {
      var e := entries[i];
      forall asset ensures AssetTotal(entries[..i + 1], asset)
                        == AssetTotal(entries[..i], asset) + AssetAmount(asset)(e) {
        PrefixTotals(entries, i, asset, e.account);
      }
      if e.asset !in totals {
        UntouchedAsset(entries[..i], e.asset);
      }
      var current := if e.asset in totals then totals[e.asset] else 0;
      totals := totals[e.asset := current + e.amount];
    }
    assert entries[..|entries|] == entries;
  }

  /** Checks every accumulated total. */
  method CheckBalanced(entries: seq<Entry>) returns (balanced: bool)
    ensures balanced <==> Balanced(entries)
  {
    var totals := TotalsByAsset(entries);
    forall asset | asset !in totals ensures AssetTotal(entries, asset) == 0 {
      UntouchedAsset(entries, asset);
    }
    var pending := totals.Keys;
    while pending != {}
      invariant pending <= totals.Keys
      invariant forall asset :: asset in totals && asset !in pending ==> totals[asset] == 0
      decreases pending
    {
      var asset :| asset in pending;
      if totals[asset] != 0 {
        assert AssetTotal(entries, asset) != 0;
        return false;
      }
      pending := pending - {asset};
    }
    return true;
  }

  /** Simulates the balances after the entries, an account that is named twice moving twice. */
  method SimulateBalances(balances: map<Account, int>, entries: seq<Entry>) returns (next: map<Account, int>)
    requires forall e :: e in entries ==> e.account in balances
    ensures forall a :: a in next <==> exists e :: e in entries && e.account == a
    ensures forall a :: a in next ==> a in balances && next[a] == balances[a] + AccountTotal(entries, a)
  {
    next := map[];
    for i := 0 to |entries|
      invariant forall a :: a in next <==> exists e :: e in entries[..i] && e.account == a
      invariant forall a :: a in next ==>
        a in balances && next[a] == balances[a] + AccountTotal(entries[..i], a)
    {
      var e := entries[i];
      assert entries[..i + 1] == entries[..i] + [e];
      forall a ensures AccountTotal(entries[..i + 1], a)
                    == AccountTotal(entries[..i], a) + AccountAmount(a)(e) {
        PrefixTotals(entries, i, e.asset, a);
      }
      if e.account !in next {
        UntouchedTotal(entries[..i], e.account);
      }
      var current := if e.account in next then next[e.account] else balances[e.account];
      next := next[e.account := current + e.amount];
    }
    assert entries[..|entries|] == entries;
  }

  method CheckShape(kind: TransactionType, key: Key, entries: seq<Entry>) returns (verdict: Verdict)
    ensures verdict == ShapeVerdict(kind, key, entries)
  {
    if kind == UnknownType {
      return Fault(InvalidType);
    }
    if key == MissingKey {
      return Fault(IdempotencyKeyRequired);
    }
    if |entries| < 2 {
      return Fault(TooFewEntries);
    }
    if exists e :: e in entries && e.amount == 0 {
      return Fault(ZeroAmount);
    }
    var balanced := CheckBalanced(entries);
    return if balanced then Fine else Fault(Unbalanced);
  }

  /** Replacing the simulated snapshots is the same as moving every balance by its total. */
  lemma SimulatedIsMoved(balances: map<Account, int>, entries: seq<Entry>, next: map<Account, int>)
    requires forall a :: a in next <==> exists e :: e in entries && e.account == a
    requires forall a :: a in next ==> a in balances && next[a] == balances[a] + AccountTotal(entries, a)
    ensures balances + next == MovedBalances(balances, entries)
  {
    forall a | a in balances && a !in next
      ensures MovedBalances(balances, entries)[a] == balances[a]
    {
      UntouchedTotal(entries, a);
    }
  }

  class LedgerTables {
    var accounts: set<Account>
    var balances: map<Account, int>
    var transactions: seq<Transaction>

    function State(): LedgerState
      reads this
    {
      LedgerState(accounts, balances, transactions)
    }

    constructor ()
      ensures State() == EmptyLedger
    {
      accounts, balances, transactions := {}, map[], [];
    }

    method GetOrCreate(account: Account)
      modifies this
      ensures State() == OpenAccount(old(State()), account)
    {
      if account !in accounts {
        accounts := accounts + {account};
        balances := balances[account := 0];
      }
    }

    method GetOrCreateUserWalletAccounts(user: User, asset: Asset)
      modifies this
      ensures State() == OpenUserAccounts(old(State()), user, asset)
    {
      var kinds := [Available, Locked];
      GetOrCreate(UserAccount(user, asset, kinds[0]));
      GetOrCreate(UserAccount(user, asset, kinds[1]));
    }

    /** Checks the entries against their accounts and hands over the balances they would leave. */
    method CheckAccounts(entries: seq<Entry>) returns (verdict: Verdict, next: map<Account, int>)
      ensures verdict == AccountVerdict(State(), entries)
      ensures verdict.Fine? ==> balances + next == MovedBalances(balances, entries)
    {
      next := map[];
      if exists e :: e in entries && e.account !in accounts {
        return Fault(AccountNotFound), next;
      }
      ghost var s := State();
      for i := 0 to |entries|
        invariant FirstFault(s, entries[i..]) == FirstFault(s, entries)
      {
        assert entries[i..][1..] == entries[i + 1..];
        if entries[i].account.asset != entries[i].asset {
          return Fault(AssetMismatch), next;
        }
        if entries[i].account !in balances {
          return Fault(BalanceMissing), next;
        }
      }
      next := SimulateBalances(balances, entries);
      if exists e :: e in entries && e.account.UserAccount? && next[e.account] < 0 {
        assert !Affordable(s, entries);
        return Fault(InsufficientBalance), next;
      }
      assert Affordable(s, entries);
      SimulatedIsMoved(balances, entries, next);
      return Fine, next;
    }

    method PostLedgerTransaction(kind: TransactionType, key: Key, entries: seq<Entry>) returns (outcome: Outcome)
      modifies this
      ensures outcome == PostOutcome(old(State()), kind, key, entries)
      ensures State() == AfterPost(old(State()), kind, key, entries)
    {
      var shape := CheckShape(kind, key, entries);
      if shape.Fault? {
        return Refused(shape.error);
      }
      if HasKey(transactions, key) {
        return Replayed(FindByKey(transactions, key));
      }
      var verdict, next := CheckAccounts(entries);
      if verdict.Fault? {
        return Refused(verdict.error);
      }
      var tx := Transaction(kind, key, entries);
      transactions := transactions + [tx];
      balances := balances + next;
      return Posted(tx);
    }
  }
}
