/**
 * The chart of accounts: account types, the account record, its constraints
 * and defaults, and `Account.balance`, which reads the posted entries of the
 * ledger and signs them by the account type's normal side.
 */
module AccountModels {
  import opened Basics
  import opened Ordering
  import opened TransactionModels

  datatype AccountType = Asset | Liability | Equity | Revenue | Expense

  /** The five types, in the order the views iterate over them. */
  const AccountTypes: seq<AccountType> := [Asset, Liability, Equity, Revenue, Expense]

  /** The value stored in the `account_type` column. */
  function AccountTypeValue(t: AccountType): string
  {
    match t
    case Asset => "asset"
    case Liability => "liability"
    case Equity => "equity"
    case Revenue => "revenue"
    case Expense => "expense"
  }

  /** Validating a submitted `account_type` value against the field's choices: only the five are accepted. */
  function ParseAccountType(v: string): (r: Option<AccountType>)
    ensures r.Some? <==> v in {"asset", "liability", "equity", "revenue", "expense"}
    ensures r.Some? ==> AccountTypeValue(r.value) == v
    ensures forall t: AccountType :: v == AccountTypeValue(t) ==> r == Some(t)
  {
    if v == "asset" then Some(Asset)
    else if v == "liability" then Some(Liability)
    else if v == "equity" then Some(Equity)
    else if v == "revenue" then Some(Revenue)
    else if v == "expense" then Some(Expense)
    else None
  }

  /** Distinct types are stored as distinct values. */
  lemma AccountTypeValueInjective()
    ensures forall a: AccountType, b: AccountType :: AccountTypeValue(a) == AccountTypeValue(b) ==> a == b
  {
    forall a: AccountType, b: AccountType | AccountTypeValue(a) == AccountTypeValue(b)
      ensures a == b
    {
      assert ParseAccountType(AccountTypeValue(a)) == Some(a);
    }
  }

  /** Where a type sits in `AccountTypes`. */
  function TypeIndex(t: AccountType): (j: nat)
    ensures j < |AccountTypes| && AccountTypes[j] == t
  {
    match t
    case Asset => 0
    case Liability => 1
    case Equity => 2
    case Revenue => 3
    case Expense => 4
  }

  // ---------------------------------------------------------------------------
  // Dictionaries that the views fill one account type at a time

  /** The dictionary written by visiting the types `ts` in order, storing `f(t)` under `key(t)`. */
  function Tabulate<V>(ts: seq<AccountType>, key: AccountType -> string, f: AccountType -> V): map<string, V>
  {
    if ts == [] then map[]
    else Tabulate(ts[..|ts| - 1], key, f)[key(ts[|ts| - 1]) := f(ts[|ts| - 1])]
  }

  /** The keys written are the keys of the visited types. */
  lemma {:induction false} TabulateKeys<V>(ts: seq<AccountType>, key: AccountType -> string, f: AccountType -> V)
    ensures forall k :: k in Tabulate(ts, key, f) <==> exists j :: 0 <= j < |ts| && key(ts[j]) == k
  {
    if ts != [] {
      var front := ts[..|ts| - 1];
      TabulateKeys(front, key, f);
      forall k | exists j :: 0 <= j < |ts| && key(ts[j]) == k
        ensures k in Tabulate(ts, key, f)
      {
        var j :| 0 <= j < |ts| && key(ts[j]) == k;
        if j < |ts| - 1 {
          assert key(front[j]) == k;
        }
      }
      forall k | k in Tabulate(front, key, f)
        ensures exists j :: 0 <= j < |ts| && key(ts[j]) == k
      {
        var j :| 0 <= j < |front| && key(front[j]) == k;
        assert key(ts[j]) == k;
      }
    }
  }

  /** With distinct keys, each visited type's key holds that type's value. */
  lemma {:induction false} TabulateLookup<V>(ts: seq<AccountType>, key: AccountType -> string, f: AccountType -> V, t: AccountType)
    requires t in ts
    requires forall a: AccountType, b: AccountType :: key(a) == key(b) ==> a == b
    ensures key(t) in Tabulate(ts, key, f) && Tabulate(ts, key, f)[key(t)] == f(t)
  {
    var last := ts[|ts| - 1];
    if last != t {
      assert ts == ts[..|ts| - 1] + [last];
      TabulateLookup(ts[..|ts| - 1], key, f, t);
    }
  }

  /**
   * Visiting all five types with distinct keys writes exactly the five keys,
   * each holding its own type's value.
   */
  lemma TabulateAll<V>(m: map<string, V>, key: AccountType -> string, f: AccountType -> V)
    requires m == Tabulate(AccountTypes, key, f)
    requires forall a: AccountType, b: AccountType :: key(a) == key(b) ==> a == b
    ensures forall t: AccountType :: key(t) in m && m[key(t)] == f(t)
    ensures forall k :: k in m ==> exists t: AccountType :: key(t) == k
  {
    forall t: AccountType
      ensures key(t) in m && m[key(t)] == f(t)
    {
      assert AccountTypes[TypeIndex(t)] == t;
      TabulateLookup(AccountTypes, key, f, t);
    }
    TabulateKeys(AccountTypes, key, f);
  }

  datatype Account = Account(
    id: AccountId,
    code: string,
    name: string,
    accountType: AccountType,
    parent: Option<AccountId>,
    isActive: bool,
    description: string,
    createdBy: UserId)

  /** A new account: `is_active` takes its default, true. */
  function NewAccount(id: AccountId, code: string, name: string, accountType: AccountType,
                      parent: Option<AccountId>, description: string, createdBy: UserId): (a: Account)
    ensures a.isActive
    ensures a.id == id && a.code == code && a.name == name && a.accountType == accountType
    ensures a.parent == parent && a.description == description && a.createdBy == createdBy
  {
    Account(id, code, name, accountType, parent, true, description, createdBy)
  }

  /** `code` is a required `CharField(max_length=20)`, `name` a required `CharField(max_length=255)`. */
  predicate AccountFieldsValid(a: Account)
  {
    1 <= |a.code| <= 20 && 1 <= |a.name| <= 255
  }

  /** `code` is unique across the account table. */
  predicate CodesUnique(accounts: seq<Account>)
  {
    forall i, j :: 0 <= i < j < |accounts| ==> accounts[i].code != accounts[j].code
  }

  /**
   * Adding an account to the table: the row is refused when a field fails
   * its validator or when its code is already taken (the unique index on
   * `code`); otherwise it is appended.
   */
  function AddAccount(accounts: seq<Account>, a: Account): (r: Option<seq<Account>>)
    ensures r.Some? <==> AccountFieldsValid(a) && forall i :: 0 <= i < |accounts| ==> accounts[i].code != a.code
    ensures r.Some? ==> r.value == accounts + [a]
  {
    if AccountFieldsValid(a) && forall i :: 0 <= i < |accounts| ==> accounts[i].code != a.code then
      Some(accounts + [a])
    else None
  }

  /** Every row passes the field validators. */
  predicate AllFieldsValid(accounts: seq<Account>)
  {
    forall i :: 0 <= i < |accounts| ==> AccountFieldsValid(accounts[i])
  }

  /** Adding accounts keeps codes unique and every row valid. */
  lemma AddAccountKeepsTableValid(accounts: seq<Account>, a: Account)
    requires CodesUnique(accounts) && AllFieldsValid(accounts)
    ensures var r := AddAccount(accounts, a);
      r.Some? ==> CodesUnique(r.value) && AllFieldsValid(r.value)
  {
  }

  /** With unique codes no account occurs twice. */
  lemma {:induction false} CodesUniqueNoRepeats(accounts: seq<Account>)
    requires CodesUnique(accounts)
    ensures forall a :: multiset(accounts)[a] <= 1
  {
    if accounts != [] {
      var rest := accounts[1..];
      assert CodesUnique(rest) by {
        forall i, j | 0 <= i < j < |rest| ensures rest[i].code != rest[j].code {
          assert rest[i] == accounts[i + 1] && rest[j] == accounts[j + 1];
        }
      }
      CodesUniqueNoRepeats(rest);
      assert accounts[0] !in multiset(rest) by {
        forall i | 0 <= i < |rest| ensures rest[i] != accounts[0] {
          assert rest[i] == accounts[i + 1];
        }
      }
      assert accounts == [accounts[0]] + rest;
    }
  }

  /** An element found at two positions occurs at least twice. */
  lemma TwoPositionsCount<T>(s: seq<T>, i: nat, j: nat)
    requires i < j < |s|
    ensures s[i] == s[j] ==> multiset(s)[s[i]] >= 2
  {
    assert s == s[..j] + s[j..];
    assert s[i] in multiset(s[..j]) && s[j] in multiset(s[j..]);
  }

  /**
   * With unique codes (`unique=True`) the code order has no ties: the
   * ordered accounts have pairwise distinct codes, so each comes strictly
   * before the next.
   */
  lemma OrderedByCodeStrict(accounts: seq<Account>)
    requires CodesUnique(accounts)
    ensures var r := OrderedByCode(accounts);
      forall i, j :: 0 <= i < j < |r| ==> r[i].code != r[j].code && StrLe(r[i].code, r[j].code)
  {
    var r := OrderedByCode(accounts);
    CodesUniqueNoRepeats(accounts);
    forall i, j | 0 <= i < j < |r| ensures r[i].code != r[j].code {
      TwoPositionsCount(r, i, j);
      assert r[i] in multiset(accounts) && r[j] in multiset(accounts);
      assert r[i] in accounts && r[j] in accounts;
    }
  }

  /** Primary keys are unique across the account table. */
  predicate IdsUnique(accounts: seq<Account>)
  {
    forall i, j :: 0 <= i < j < |accounts| ==> accounts[i].id != accounts[j].id
  }

  function Ids(accounts: seq<Account>): set<AccountId>
  {
    set a | a in accounts :: a.id
  }

  /** Asset and expense accounts grow with debits; the other three with credits. */
  predicate DebitNormal(t: AccountType)
  {
    t == Asset || t == Expense
  }

  // ---------------------------------------------------------------------------
  // Queries over the account table

  function IsActive(a: Account): bool
  {
    a.isActive
  }

  function OfType(t: AccountType): Account -> bool
  {
    (a: Account) => a.accountType == t
  }

  function ActiveOfType(t: AccountType): Account -> bool
  {
    (a: Account) => a.accountType == t && a.isActive
  }

  function IsDebitNormal(a: Account): bool
  {
    DebitNormal(a.accountType)
  }

  function IsCreditNormal(a: Account): bool
  {
    !DebitNormal(a.accountType)
  }

  function CodeKey(a: Account): Key
  {
    [a.code]
  }

  /** The accounts in `Meta.ordering` order: by code. */
  function OrderedByCode(accounts: seq<Account>): (r: seq<Account>)
    ensures multiset(r) == multiset(accounts)
    ensures forall i, j :: 0 <= i < j < |r| ==> StrLe(r[i].code, r[j].code)
  {
    var r := OrderBy(accounts, CodeKey);
    forall i, j | 0 <= i < j < |r| ensures StrLe(r[i].code, r[j].code) {
      assert KeyLe(CodeKey(r[i]), CodeKey(r[j]));
      if r[i].code == r[j].code {
        StrLeReflexive(r[i].code);
      }
    }
    r
  }

  /** Each account has exactly one type, so the five per-type counts add up to the whole. */
  lemma {:induction false} TypeCountsPartition(s: seq<Account>)
    ensures |Filter(s, OfType(Asset))| + |Filter(s, OfType(Liability))| + |Filter(s, OfType(Equity))|
            + |Filter(s, OfType(Revenue))| + |Filter(s, OfType(Expense))| == |s|
  {
    if s != [] {
      TypeCountsPartition(s[1..]);
    }
  }

  // ---------------------------------------------------------------------------
  // Account.balance

  predicate IsPostedTx(t: Transaction)
  {
    t.status == Posted
  }

  /** The entry rows whose transaction is posted (`transaction__status='posted'`). */
  function PostedEntries(txs: seq<Transaction>): seq<Entry>
  {
    if txs == [] then []
    else (if txs[0].status == Posted then txs[0].entries else []) + PostedEntries(txs[1..])
  }

  function ForAccount(id: AccountId): Entry -> bool
  {
    (e: Entry) => e.account == id
  }

  /** The posted entries of one account. */
  function AccountEntries(txs: seq<Transaction>, id: AccountId): seq<Entry>
  {
    Filter(PostedEntries(txs), ForAccount(id))
  }

  /** `Account.balance`: debit total minus credit total, negated for credit-normal types. */
  function Balance(a: Account, txs: seq<Transaction>): Cents
  {
    var debits := DebitTotal(AccountEntries(txs, a.id));
    var credits := CreditTotal(AccountEntries(txs, a.id));
    if a.accountType in {Asset, Expense} then debits - credits else credits - debits
  }

  function BalanceIn(txs: seq<Transaction>): Account -> Cents
  {
    (a: Account) => Balance(a, txs)
  }

  /** The sum of the balances of `accounts`; 0 for none. */
  function SumBalances(accounts: seq<Account>, txs: seq<Transaction>): Cents
  {
    Sum(accounts, BalanceIn(txs))
  }

  /**
   * The balance is the net of the account's posted signed entries (debits
   * positive), taken as is for debit-normal types and negated otherwise.
   */
  lemma BalanceByNormalSide(a: Account, txs: seq<Transaction>)
    ensures DebitNormal(a.accountType) ==> Balance(a, txs) == Sum(AccountEntries(txs, a.id), Signed)
    ensures !DebitNormal(a.accountType) ==> Balance(a, txs) == -Sum(AccountEntries(txs, a.id), Signed)
  {
    SideTotalsSplit(AccountEntries(txs, a.id));
  }

  lemma {:induction false} PostedEntriesAppend(t1: seq<Transaction>, t2: seq<Transaction>)
    ensures PostedEntries(t1 + t2) == PostedEntries(t1) + PostedEntries(t2)
  {
    if t1 == [] {
      assert t1 + t2 == t2;
    } else {
      assert (t1 + t2)[0] == t1[0];
      assert (t1 + t2)[1..] == t1[1..] + t2;
      PostedEntriesAppend(t1[1..], t2);
    }
  }

  /** Only posted transactions matter: dropping every other transaction leaves the entries read by `balance` alone. */
  lemma {:induction false} PostedEntriesOnlyPosted(txs: seq<Transaction>)
    ensures PostedEntries(Filter(txs, IsPostedTx)) == PostedEntries(txs)
  {
    if txs != [] {
      PostedEntriesOnlyPosted(txs[1..]);
      var head := if txs[0].status == Posted then [txs[0]] else [];
      assert Filter(txs, IsPostedTx) == head + Filter(txs[1..], IsPostedTx);
      PostedEntriesAppend(head, Filter(txs[1..], IsPostedTx));
      if txs[0].status == Posted {
        assert PostedEntries(head) == txs[0].entries + PostedEntries(head[1..]);
        assert head[1..] == [];
      }
    }
  }

  /** Draft, pending and cancelled transactions do not change any balance. */
  lemma BalanceIgnoresUnposted(a: Account, txs: seq<Transaction>)
    ensures Balance(a, Filter(txs, IsPostedTx)) == Balance(a, txs)
  {
    PostedEntriesOnlyPosted(txs);
  }

  /** Balances add up over a split of the ledger. */
  lemma BalanceAdditive(a: Account, t1: seq<Transaction>, t2: seq<Transaction>)
    ensures Balance(a, t1 + t2) == Balance(a, t1) + Balance(a, t2)
  {
    PostedEntriesAppend(t1, t2);
    FilterAppend(PostedEntries(t1), PostedEntries(t2), ForAccount(a.id));
    var e1 := AccountEntries(t1, a.id);
    var e2 := AccountEntries(t2, a.id);
    FilterAppend(e1, e2, IsSide(Debit));
    FilterAppend(e1, e2, IsSide(Credit));
    SumAppend(Filter(e1, IsSide(Debit)), Filter(e2, IsSide(Debit)), Amount);
    SumAppend(Filter(e1, IsSide(Credit)), Filter(e2, IsSide(Credit)), Amount);
  }

  /** An account without posted entries has balance 0. */
  lemma NoPostedEntriesZeroBalance(a: Account, txs: seq<Transaction>)
    requires forall i :: 0 <= i < |PostedEntries(txs)| ==> PostedEntries(txs)[i].account != a.id
    ensures Balance(a, txs) == 0
  {
    FilterNoneKept(PostedEntries(txs), ForAccount(a.id));
  }

  // ---------------------------------------------------------------------------
  // The accounting equation

  function NetOf(es: seq<Entry>): Account -> int
  {
    (a: Account) => Sum(Filter(es, ForAccount(a.id)), Signed)
  }

  function InIds(ids: set<AccountId>): Entry -> bool
  {
    (e: Entry) => e.account in ids
  }

  /** Debit-normal balances minus credit-normal balances is the sum of the accounts' signed nets. */
  lemma {:induction false} NormalSidesDifference(accounts: seq<Account>, txs: seq<Transaction>)
    ensures SumBalances(Filter(accounts, IsDebitNormal), txs) - SumBalances(Filter(accounts, IsCreditNormal), txs)
            == Sum(accounts, NetOf(PostedEntries(txs)))
  {
    if accounts != [] {
      var a := accounts[0];
      NormalSidesDifference(accounts[1..], txs);
      BalanceByNormalSide(a, txs);
      var dn := if IsDebitNormal(a) then [a] else [];
      var cn := if IsCreditNormal(a) then [a] else [];
      assert Filter(accounts, IsDebitNormal) == dn + Filter(accounts[1..], IsDebitNormal);
      assert Filter(accounts, IsCreditNormal) == cn + Filter(accounts[1..], IsCreditNormal);
      SumAppend(dn, Filter(accounts[1..], IsDebitNormal), BalanceIn(txs));
      SumAppend(cn, Filter(accounts[1..], IsCreditNormal), BalanceIn(txs));
    }
  }

  /** Summing one id out of a set of ids that does not contain it. */
  lemma {:induction false} SplitOffAccount(es: seq<Entry>, id: AccountId, ids: set<AccountId>)
    requires id !in ids
    ensures Sum(Filter(es, InIds({id} + ids)), Signed)
            == Sum(Filter(es, ForAccount(id)), Signed) + Sum(Filter(es, InIds(ids)), Signed)
  {
    if es != [] {
      SplitOffAccount(es[1..], id, ids);
      var e := es[0];
      var all := if e.account in {id} + ids then [e] else [];
      var one := if e.account == id then [e] else [];
      var rest := if e.account in ids then [e] else [];
      assert Filter(es, InIds({id} + ids)) == all + Filter(es[1..], InIds({id} + ids));
      assert Filter(es, ForAccount(id)) == one + Filter(es[1..], ForAccount(id));
      assert Filter(es, InIds(ids)) == rest + Filter(es[1..], InIds(ids));
      SumAppend(all, Filter(es[1..], InIds({id} + ids)), Signed);
      SumAppend(one, Filter(es[1..], ForAccount(id)), Signed);
      SumAppend(rest, Filter(es[1..], InIds(ids)), Signed);
    }
  }

  /** With unique ids, the accounts' nets add up to the net of the entries that hit any of them. */
  lemma {:induction false} NetOverAccounts(accounts: seq<Account>, es: seq<Entry>)
    requires IdsUnique(accounts)
    ensures Sum(accounts, NetOf(es)) == Sum(Filter(es, InIds(Ids(accounts))), Signed)
  {
    if accounts == [] {
      FilterNoneKept(es, InIds({}));
    } else {
      var a := accounts[0];
      var rest := accounts[1..];
      assert IdsUnique(rest);
      NetOverAccounts(rest, es);
      assert Ids(accounts) == {a.id} + Ids(rest) by {
        assert accounts == [a] + rest;
      }
      SplitOffAccount(es, a.id, Ids(rest));
    }
  }

  /** If every posted transaction balances, the posted signed entries cancel out. */
  lemma {:induction false} PostedNetZero(txs: seq<Transaction>)
    requires forall i :: 0 <= i < |txs| && txs[i].status == Posted ==> Balanced(txs[i].entries)
    ensures Sum(PostedEntries(txs), Signed) == 0
  {
    if txs != [] {
      PostedNetZero(txs[1..]);
      var head := if txs[0].status == Posted then txs[0].entries else [];
      BalancedIffNetZero(head);
      SumAppend(head, PostedEntries(txs[1..]), Signed);
    }
  }

  /**
   * The accounting equation. When every posted transaction's debits equal its
   * credits and every posted entry points at one of `accounts` (ids unique),
   * asset plus expense balances equal liability plus equity plus revenue balances.
   */
  lemma TrialBalance(accounts: seq<Account>, txs: seq<Transaction>)
    requires IdsUnique(accounts)
    requires forall i :: 0 <= i < |PostedEntries(txs)| ==> PostedEntries(txs)[i].account in Ids(accounts)
    requires forall i :: 0 <= i < |txs| && txs[i].status == Posted ==> Balanced(txs[i].entries)
    ensures SumBalances(Filter(accounts, IsDebitNormal), txs) == SumBalances(Filter(accounts, IsCreditNormal), txs)
  {
    var es := PostedEntries(txs);
    NormalSidesDifference(accounts, txs);
    NetOverAccounts(accounts, es);
    assert forall e :: e in es ==> InIds(Ids(accounts))(e);
    FilterAll(es, InIds(Ids(accounts)));
    PostedNetZero(txs);
  }
}
