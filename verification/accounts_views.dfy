/**
 * The account endpoints: the listing queryset (active accounts by code), the
 * `by_type` grouping and the `chart_summary` counts and balance totals. The
 * two actions fill their result dictionaries one account type at a time.
 */
module AccountViews {
  import opened Basics
  import opened Ordering
  import opened TransactionModels
  import opened AccountModels

  /** `AccountViewSet.queryset`: only active accounts, in code order. */
  function Queryset(accounts: seq<Account>): (r: seq<Account>)
    ensures multiset(r) == multiset(Filter(accounts, IsActive))
    ensures forall i :: 0 <= i < |r| ==> r[i].isActive && r[i] in accounts
    ensures forall i :: 0 <= i < |accounts| && accounts[i].isActive ==> accounts[i] in r
    ensures forall i, j :: 0 <= i < j < |r| ==> StrLe(r[i].code, r[j].code)
  {
    var r := OrderedByCode(Filter(accounts, IsActive));
    forall i | 0 <= i < |r| ensures r[i].isActive && r[i] in accounts {
      assert r[i] in multiset(Filter(accounts, IsActive));
    }
    forall i | 0 <= i < |accounts| && accounts[i].isActive ensures accounts[i] in r {
      FilterKeeps(accounts, IsActive);
      assert accounts[i] in multiset(Filter(accounts, IsActive));
    }
    r
  }

  /** A dictionary keyed by type name over all five types has exactly the five names as keys. */
  lemma TypeNameKeys<V>(m: map<string, V>, f: AccountType -> V)
    requires m == Tabulate(AccountTypes, AccountTypeValue, f)
    ensures forall k :: k in m <==> ParseAccountType(k).Some?
    ensures forall t: AccountType :: AccountTypeValue(t) in m && m[AccountTypeValue(t)] == f(t)
  {
    AccountTypeValueInjective();
    TabulateAll(m, AccountTypeValue, f);
    forall k | ParseAccountType(k).Some?
      ensures k in m
    {
      assert AccountTypeValue(ParseAccountType(k).value) == k;
    }
  }

  /** Filtering the queryset by type yields the active accounts of that type, reordered. */
  lemma QuerysetOfType(accounts: seq<Account>, txs: seq<Transaction>, t: AccountType)
    ensures |Filter(Queryset(accounts), OfType(t))| == |Filter(accounts, ActiveOfType(t))|
    ensures SumBalances(Filter(Queryset(accounts), OfType(t)), txs) == SumBalances(Filter(accounts, ActiveOfType(t)), txs)
  {
    PermutationFilter(Queryset(accounts), Filter(accounts, IsActive), OfType(t));
    FilterFilter(accounts, IsActive, OfType(t), ActiveOfType(t));
    var a, b := Filter(Queryset(accounts), OfType(t)), Filter(accounts, ActiveOfType(t));
    assert |a| == |multiset(a)| == |multiset(b)| == |b|;
    PermutationSum(a, b, BalanceIn(txs));
  }

  /** One `by_type` group: the active accounts of type `t`, in code order. */
  function TypeGroup(accounts: seq<Account>, t: AccountType): seq<Account>
  {
    OrderedByCode(Filter(accounts, ActiveOfType(t)))
  }

  /**
   * A `by_type` group holds exactly the active accounts of its type, each as
   * often as in the table, and in code order.
   */
  lemma GroupMembers(accounts: seq<Account>, t: AccountType)
    ensures multiset(TypeGroup(accounts, t)) == multiset(Filter(accounts, ActiveOfType(t)))
    ensures forall i :: 0 <= i < |TypeGroup(accounts, t)| ==>
              var a := TypeGroup(accounts, t)[i]; a in accounts && a.isActive && a.accountType == t
    ensures forall i :: 0 <= i < |accounts| && accounts[i].isActive && accounts[i].accountType == t ==>
              accounts[i] in TypeGroup(accounts, t)
    ensures forall i, j :: 0 <= i < j < |TypeGroup(accounts, t)| ==>
              StrLe(TypeGroup(accounts, t)[i].code, TypeGroup(accounts, t)[j].code)
  {
    var s := Filter(accounts, ActiveOfType(t));
    var g := TypeGroup(accounts, t);
    forall i | 0 <= i < |g| ensures g[i] in accounts && g[i].isActive && g[i].accountType == t {
      assert g[i] in multiset(s);
    }
    forall i | 0 <= i < |accounts| && accounts[i].isActive && accounts[i].accountType == t
      ensures accounts[i] in g
    {
      FilterKeeps(accounts, ActiveOfType(t));
      assert ActiveOfType(t)(accounts[i]);
      assert accounts[i] in multiset(s);
    }
  }

  /**
   * `by_type`: for each of the five types, its group (see GroupMembers);
   * exactly the five type names are keys.
   */
  method ByType(accounts: seq<Account>) returns (groups: map<string, seq<Account>>)
    ensures forall k :: k in groups <==> ParseAccountType(k).Some?
    ensures forall t: AccountType :: AccountTypeValue(t) in groups && groups[AccountTypeValue(t)] == TypeGroup(accounts, t)
  {
    ghost var group := (t: AccountType) => TypeGroup(accounts, t);
    groups := map[];
    for i := 0 to |AccountTypes|
      invariant groups == Tabulate(AccountTypes[..i], AccountTypeValue, group)
    {
      var t := AccountTypes[i];
      groups := groups[AccountTypeValue(t) := TypeGroup(accounts, t)];
      assert AccountTypes[..i + 1][..i] == AccountTypes[..i];
    }
    assert AccountTypes[..|AccountTypes|] == AccountTypes;
    TypeNameKeys(groups, group);
  }

  /** The number of accounts of type `t` in `qs`. */
  function TypeCount(qs: seq<Account>, t: AccountType): nat
  {
    |Filter(qs, OfType(t))|
  }

  /** The summed balance of the accounts of type `t` in `qs`. */
  function TypeTotal(qs: seq<Account>, txs: seq<Transaction>, t: AccountType): Cents
  {
    SumBalances(Filter(qs, OfType(t)), txs)
  }

  /** The body of the `chart_summary` response. */
  datatype ChartSummary = ChartSummary(totalAccounts: nat, byType: map<string, nat>, totalBalances: map<string, Cents>)

  /**
   * `chart_summary`: over the active accounts, their number, the number of
   * each type, and the summed balance of each type (0 where there are none).
   */
  method GetChartSummary(accounts: seq<Account>, txs: seq<Transaction>) returns (summary: ChartSummary)
    ensures summary.totalAccounts == |Filter(accounts, IsActive)|
    ensures forall k :: k in summary.byType <==> ParseAccountType(k).Some?
    ensures forall k :: k in summary.totalBalances <==> ParseAccountType(k).Some?
    ensures forall t: AccountType :: AccountTypeValue(t) in summary.byType
              && summary.byType[AccountTypeValue(t)] == |Filter(accounts, ActiveOfType(t))|
    ensures forall t: AccountType :: AccountTypeValue(t) in summary.totalBalances
              && summary.totalBalances[AccountTypeValue(t)] == SumBalances(Filter(accounts, ActiveOfType(t)), txs)
  {
    var qs := Queryset(accounts);
    ghost var count := (t: AccountType) => TypeCount(qs, t);
    ghost var total := (t: AccountType) => TypeTotal(qs, txs, t);
    var byType: map<string, nat> := map[];
    var totals: map<string, Cents> := map[];
    for i := 0 to |AccountTypes|
      invariant byType == Tabulate(AccountTypes[..i], AccountTypeValue, count)
      invariant totals == Tabulate(AccountTypes[..i], AccountTypeValue, total)
    {
      var t := AccountTypes[i];
      byType := byType[AccountTypeValue(t) := TypeCount(qs, t)];
      totals := totals[AccountTypeValue(t) := TypeTotal(qs, txs, t)];
      assert AccountTypes[..i + 1][..i] == AccountTypes[..i];
    }
    assert AccountTypes[..|AccountTypes|] == AccountTypes;
    TypeNameKeys(byType, count);
    TypeNameKeys(totals, total);
    summary := ChartSummary(|qs|, byType, totals);
    assert |qs| == |multiset(qs)| == |multiset(Filter(accounts, IsActive))| == |Filter(accounts, IsActive)|;
    forall t: AccountType
      ensures TypeCount(qs, t) == |Filter(accounts, ActiveOfType(t))|
      ensures TypeTotal(qs, txs, t) == SumBalances(Filter(accounts, ActiveOfType(t)), txs)
    {
      QuerysetOfType(accounts, txs, t);
    }
  }

  /** The per-type counts of `chart_summary` add up to its `total_accounts`. */
  lemma ChartCountsAddUp(accounts: seq<Account>)
    ensures |Filter(accounts, ActiveOfType(Asset))| + |Filter(accounts, ActiveOfType(Liability))|
            + |Filter(accounts, ActiveOfType(Equity))| + |Filter(accounts, ActiveOfType(Revenue))|
            + |Filter(accounts, ActiveOfType(Expense))| == |Filter(accounts, IsActive)|
  {
    var qs := Queryset(accounts);
    TypeCountsPartition(qs);
    assert |qs| == |multiset(qs)| == |multiset(Filter(accounts, IsActive))| == |Filter(accounts, IsActive)|;
    QuerysetOfType(accounts, [], Asset);
    QuerysetOfType(accounts, [], Liability);
    QuerysetOfType(accounts, [], Equity);
    QuerysetOfType(accounts, [], Revenue);
    QuerysetOfType(accounts, [], Expense);
  }
}
