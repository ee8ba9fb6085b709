/**
 * The single-page client (`App`): the dashboard figures it derives from its
 * in-memory account list, the account search box, the recent-transactions
 * panel, and the new-transaction form, which appends a pending transaction
 * to the in-memory list. Amounts are held as whole cents.
 */
module App {
  import opened Basics
  import AccountModels
  import TransactionModels

  type AccountType = AccountModels.AccountType
  type Cents = TransactionModels.Cents

  /** The client's own account record. */
  datatype Account = Account(id: string, code: string, name: string, accountType: AccountType, balance: Cents)

  datatype Status = Pending | Posted | Cancelled

  /** The client's own single-line transaction record. */
  datatype Transaction = Transaction(
    id: string,
    date: string,
    reference: string,
    description: string,
    debitAccount: string,
    creditAccount: string,
    amount: Cents,
    status: Status)

  datatype DashboardMetrics = DashboardMetrics(
    totalAssets: Cents,
    totalLiabilities: Cents,
    totalEquity: Cents,
    monthlyRevenue: Cents,
    monthlyExpenses: Cents,
    netIncome: Cents)

  // ---------------------------------------------------------------------------
  // dashboard figures

  function OfType(t: AccountType): Account -> bool
  {
    (a: Account) => a.accountType == t
  }

  function BalanceOf(a: Account): int
  {
    a.balance
  }

  /** `accounts.filter(a => a.type === t).reduce((sum, a) => sum + a.balance, 0)`. */
  function TypeTotal(accounts: seq<Account>, t: AccountType): Cents
  {
    Reduce(Filter(accounts, OfType(t)), BalanceOf, 0)
  }

  /** An account's contribution to the total of type `t`: its balance if it has that type, else 0. */
  function BalanceIfType(t: AccountType): Account -> int
  {
    (a: Account) => if a.accountType == t then a.balance else 0
  }

  /** The filtered sum and the sum of balances masked by type are the same figure. */
  lemma {:induction false} FilteredSumIsMaskedSum(accounts: seq<Account>, t: AccountType)
    ensures Sum(Filter(accounts, OfType(t)), BalanceOf) == Sum(accounts, BalanceIfType(t))
  {
    if accounts != [] {
      FilteredSumIsMaskedSum(accounts[1..], t);
      if accounts[0].accountType == t {
        assert Filter(accounts, OfType(t)) == [accounts[0]] + Filter(accounts[1..], OfType(t));
        SumAppend([accounts[0]], Filter(accounts[1..], OfType(t)), BalanceOf);
      } else {
        assert Filter(accounts, OfType(t)) == Filter(accounts[1..], OfType(t));
      }
    }
  }

  /**
   * The total of a type is the sum of the balances of exactly the accounts
   * of that type, whatever their order in the list.
   */
  lemma TypeTotalMeaning(accounts: seq<Account>, t: AccountType)
    ensures TypeTotal(accounts, t) == Sum(accounts, BalanceIfType(t))
  {
    ReduceIsSum(Filter(accounts, OfType(t)), BalanceOf, 0);
    FilteredSumIsMaskedSum(accounts, t);
  }

  /** Every account has one of the five types, so the five totals share out the whole balance sum. */
  lemma {:induction false} TypeTotalsPartition(accounts: seq<Account>)
    ensures TypeTotal(accounts, AccountModels.Asset) + TypeTotal(accounts, AccountModels.Liability)
            + TypeTotal(accounts, AccountModels.Equity) + TypeTotal(accounts, AccountModels.Revenue)
            + TypeTotal(accounts, AccountModels.Expense) == Sum(accounts, BalanceOf)
  {
    TypeTotalMeaning(accounts, AccountModels.Asset);
    TypeTotalMeaning(accounts, AccountModels.Liability);
    TypeTotalMeaning(accounts, AccountModels.Equity);
    TypeTotalMeaning(accounts, AccountModels.Revenue);
    TypeTotalMeaning(accounts, AccountModels.Expense);
    MaskedSumsPartition(accounts);
  }

  lemma {:induction false} MaskedSumsPartition(accounts: seq<Account>)
    ensures Sum(accounts, BalanceIfType(AccountModels.Asset)) + Sum(accounts, BalanceIfType(AccountModels.Liability))
            + Sum(accounts, BalanceIfType(AccountModels.Equity)) + Sum(accounts, BalanceIfType(AccountModels.Revenue))
            + Sum(accounts, BalanceIfType(AccountModels.Expense)) == Sum(accounts, BalanceOf)
  {
    if accounts != [] {
      MaskedSumsPartition(accounts[1..]);
    }
  }

  /** The `dashboardMetrics` object; net income repeats the revenue and expense reductions. */
  function ComputeMetrics(accounts: seq<Account>): DashboardMetrics
  {
    DashboardMetrics(
      TypeTotal(accounts, AccountModels.Asset),
      TypeTotal(accounts, AccountModels.Liability),
      TypeTotal(accounts, AccountModels.Equity),
      TypeTotal(accounts, AccountModels.Revenue),
      TypeTotal(accounts, AccountModels.Expense),
      TypeTotal(accounts, AccountModels.Revenue) - TypeTotal(accounts, AccountModels.Expense))
  }

  /**
   * Each dashboard figure is the summed balance of the accounts of its type,
   * and net income is revenue less expenses; with no accounts every figure is 0.
   */
  lemma MetricsMeaning(accounts: seq<Account>)
    ensures var m := ComputeMetrics(accounts);
      && m.totalAssets == Sum(accounts, BalanceIfType(AccountModels.Asset))
      && m.totalLiabilities == Sum(accounts, BalanceIfType(AccountModels.Liability))
      && m.totalEquity == Sum(accounts, BalanceIfType(AccountModels.Equity))
      && m.monthlyRevenue == Sum(accounts, BalanceIfType(AccountModels.Revenue))
      && m.monthlyExpenses == Sum(accounts, BalanceIfType(AccountModels.Expense))
      && m.netIncome == m.monthlyRevenue - m.monthlyExpenses
      && (accounts == [] ==> m == DashboardMetrics(0, 0, 0, 0, 0, 0))
  {
    TypeTotalMeaning(accounts, AccountModels.Asset);
    TypeTotalMeaning(accounts, AccountModels.Liability);
    TypeTotalMeaning(accounts, AccountModels.Equity);
    TypeTotalMeaning(accounts, AccountModels.Revenue);
    TypeTotalMeaning(accounts, AccountModels.Expense);
  }

  /** Two asset accounts of 25000 and 15000 and a liability of 8000 give assets 40000 and liabilities 8000. */
  lemma MetricsExample()
    ensures var m := ComputeMetrics([
        Account("1", "1000", "Cash", AccountModels.Asset, 25000),
        Account("2", "1200", "Accounts Receivable", AccountModels.Asset, 15000),
        Account("4", "2000", "Accounts Payable", AccountModels.Liability, 8000)]);
      m.totalAssets == 40000 && m.totalLiabilities == 8000 && m.netIncome == 0
  {
    var accounts := [
        Account("1", "1000", "Cash", AccountModels.Asset, 25000),
        Account("2", "1200", "Accounts Receivable", AccountModels.Asset, 15000),
        Account("4", "2000", "Accounts Payable", AccountModels.Liability, 8000)];
    MetricsMeaning(accounts);
    assert accounts[1..][1..][1..] == [];
  }

  /** The "Account Balances by Type" panel: one total per type, in the order of its type list. */
  function PanelTotals(accounts: seq<Account>): (r: seq<Cents>)
    ensures |r| == |AccountModels.AccountTypes|
  {
    seq(|AccountModels.AccountTypes|, i requires 0 <= i < |AccountModels.AccountTypes| =>
      TypeTotal(accounts, AccountModels.AccountTypes[i]))
  }

  /** The panel shows the same five figures as the metric cards above it. */
  lemma PanelAgreesWithMetrics(accounts: seq<Account>)
    ensures var m, p := ComputeMetrics(accounts), PanelTotals(accounts);
      p == [m.totalAssets, m.totalLiabilities, m.totalEquity, m.monthlyRevenue, m.monthlyExpenses]
  {
  }

  // ---------------------------------------------------------------------------
  // account search

  /** `toLowerCase` on one character, for the ASCII letters. */
  function LowerChar(c: char): char
  {
    if 'A' <= c <= 'Z' then (c as int + 32) as char else c
  }

  function ToLower(s: string): (r: string)
    ensures |r| == |s|
    ensures forall i :: 0 <= i < |s| ==> r[i] == LowerChar(s[i])
  {
    seq(|s|, i requires 0 <= i < |s| => LowerChar(s[i]))
  }

  /** Lower-casing leaves no upper-case ASCII letter, so doing it twice changes nothing more. */
  lemma ToLowerIdempotent(s: string)
    ensures forall i :: 0 <= i < |s| ==> !('A' <= ToLower(s)[i] <= 'Z')
    ensures ToLower(ToLower(s)) == ToLower(s)
  {
  }

  /** Lower-casing commutes with taking a slice. */
  lemma ToLowerSlice(s: string, i: nat, j: nat)
    requires i <= j <= |s|
    ensures ToLower(s)[i..j] == ToLower(s[i..j])
  {
  }

  /** `term` occurs in `s` starting at position `i`. */
  predicate OccursAt(s: string, term: string, i: nat)
  {
    i + |term| <= |s| && s[i..i + |term|] == term
  }

  /** `String.prototype.includes`: tries each start position from the left. */
  function Includes(s: string, term: string): bool
    decreases |s|
  {
    if |term| > |s| then false
    else s[..|term|] == term || (s != [] && Includes(s[1..], term))
  }

  /** `Includes` holds exactly when the term occurs at some position. */
  lemma {:induction false} IncludesIff(s: string, term: string)
    ensures Includes(s, term) <==> exists i: nat :: OccursAt(s, term, i)
    decreases |s|
  {
    if |term| > |s| {
      assert forall i: nat :: !OccursAt(s, term, i);
    } else if s[..|term|] == term {
      assert OccursAt(s, term, 0);
    } else {
      IncludesIff(s[1..], term);
      if Includes(s[1..], term) {
        var j: nat :| OccursAt(s[1..], term, j);
        assert s[j + 1..j + 1 + |term|] == s[1..][j..j + |term|];
        assert OccursAt(s, term, j + 1);
      } else {
        assert s[0..0 + |term|] == s[..|term|];
        assert !OccursAt(s, term, 0);
        forall i: nat | OccursAt(s, term, i) ensures false {
          assert i != 0;
          assert s[1..][i - 1..i - 1 + |term|] == s[i..i + |term|];
          assert OccursAt(s[1..], term, i - 1);
        }
      }
    }
  }

  /** The empty term is included in every string. */
  lemma IncludesEmpty(s: string)
    ensures Includes(s, "")
  {
  }

  /** A term found in a name is found again once both are lower-cased. */
  lemma IncludesLower(s: string, term: string)
    requires Includes(s, term)
    ensures Includes(ToLower(s), ToLower(term))
  {
    IncludesIff(s, term);
    var i: nat :| OccursAt(s, term, i);
    ToLowerSlice(s, i, i + |term|);
    assert OccursAt(ToLower(s), ToLower(term), i);
    IncludesIff(ToLower(s), ToLower(term));
  }

  /** The search test: the name contains the term ignoring case, or the code contains it as typed. */
  function Matches(term: string): Account -> bool
  {
    (a: Account) => Includes(ToLower(a.name), ToLower(term)) || Includes(a.code, term)
  }

  /** The accounts table body: the accounts that match the search box, in list order. */
  function SearchFilter(accounts: seq<Account>, term: string): seq<Account>
  {
    Filter(accounts, Matches(term))
  }

  /**
   * The table lists exactly the matching accounts, in their list order: each
   * shown account matches (its lower-cased name contains the lower-cased
   * term at some position, or its code contains the term as typed), every
   * matching account is shown, and as often as it occurs in the list.
   */
  lemma SearchResults(accounts: seq<Account>, term: string)
    ensures var r := SearchFilter(accounts, term);
      && IsSubsequence(r, accounts)
      && (forall i :: 0 <= i < |r| ==>
            && r[i] in accounts
            && ((exists k: nat :: OccursAt(ToLower(r[i].name), ToLower(term), k))
                || (exists k: nat :: OccursAt(r[i].code, term, k))))
      && (forall i :: 0 <= i < |accounts| && Matches(term)(accounts[i]) ==> accounts[i] in r)
      && (forall a :: multiset(r)[a] == if Matches(term)(a) then multiset(accounts)[a] else 0)
  {
    var r := SearchFilter(accounts, term);
    FilterIsSubsequence(accounts, Matches(term));
    FilterCount(accounts, Matches(term));
    FilterKeeps(accounts, Matches(term));
    forall i | 0 <= i < |r|
      ensures (exists k: nat :: OccursAt(ToLower(r[i].name), ToLower(term), k))
              || (exists k: nat :: OccursAt(r[i].code, term, k))
    {
      IncludesIff(ToLower(r[i].name), ToLower(term));
      IncludesIff(r[i].code, term);
    }
  }

  /** An empty search box shows every account. */
  lemma SearchEmptyTerm(accounts: seq<Account>)
    ensures SearchFilter(accounts, "") == accounts
  {
    forall a | a in accounts ensures Matches("")(a) {
      IncludesEmpty(ToLower(a.name));
    }
    FilterAll(accounts, Matches(""));
  }

  /** An account whose name contains the term as typed, in any case, is always shown. */
  lemma SearchFindsName(accounts: seq<Account>, term: string, i: nat)
    requires i < |accounts| && Includes(accounts[i].name, term)
    ensures accounts[i] in SearchFilter(accounts, term)
  {
    IncludesLower(accounts[i].name, term);
    FilterKeeps(accounts, Matches(term));
  }

  // ---------------------------------------------------------------------------
  // recent transactions

  /** `transactions.slice(0, 5)`. */
  function RecentTransactions(txs: seq<Transaction>): (r: seq<Transaction>)
    ensures |r| == if |txs| < 5 then |txs| else 5
    ensures |txs| <= 5 ==> r == txs
    ensures forall i :: 0 <= i < |r| ==> r[i] == txs[i]
  {
    txs[..if |txs| < 5 then |txs| else 5]
  }

  /**
   * The panel shows the first five transactions of the list, and a submitted
   * transaction is appended at the end: once five exist, a new one is never
   * among them.
   */
  lemma RecentIgnoresAppended(txs: seq<Transaction>, t: Transaction)
    requires |txs| >= 5
    ensures RecentTransactions(txs + [t]) == RecentTransactions(txs)
  {
    assert (txs + [t])[..5] == txs[..5];
  }

  // ---------------------------------------------------------------------------
  // transaction ids

  function DigitChar(d: nat): char
    requires d < 10
  {
    ('0' as int + d) as char
  }

  predicate IsDigit(c: char)
  {
    '0' <= c <= '9'
  }

  /** `n.toString()` for a natural number: its decimal digits, no leading zero. */
  function NatToString(n: nat): (s: string)
    ensures |s| >= 1
    ensures forall i :: 0 <= i < |s| ==> IsDigit(s[i])
  {
    if n < 10 then [DigitChar(n)] else NatToString(n / 10) + [DigitChar(n % 10)]
  }

  function DigitValue(c: char): nat
    requires IsDigit(c)
  {
    c as int - '0' as int
  }

  /** The number a string of decimal digits denotes. */
  function ParseNat(s: string): nat
    requires forall i :: 0 <= i < |s| ==> IsDigit(s[i])
  {
    if s == [] then 0 else ParseNat(s[..|s| - 1]) * 10 + DigitValue(s[|s| - 1])
  }

  /** Reading back a printed number gives the number. */
  lemma {:induction false} ParseNatToString(n: nat)
    ensures ParseNat(NatToString(n)) == n
  {
    var s := NatToString(n);
    if n < 10 {
      assert s[..0] == [];
    } else {
      ParseNatToString(n / 10);
      assert s[..|s| - 1] == NatToString(n / 10);
    }
  }

  /** Different numbers print differently. */
  lemma NatToStringInjective(m: nat, n: nat)
    requires m != n
    ensures NatToString(m) != NatToString(n)
  {
    ParseNatToString(m);
    ParseNatToString(n);
  }

  /** The transaction at position `i` has id `i + 1`. */
  predicate IdsSequential(txs: seq<Transaction>)
  {
    forall i :: 0 <= i < |txs| ==> txs[i].id == NatToString(i + 1)
  }

  /** With sequential ids, no two transactions share an id. */
  lemma SequentialIdsDistinct(txs: seq<Transaction>)
    requires IdsSequential(txs)
    ensures forall i, j :: 0 <= i < j < |txs| ==> txs[i].id != txs[j].id
  {
    forall i, j | 0 <= i < j < |txs| ensures txs[i].id != txs[j].id {
      NatToStringInjective(i + 1, j + 1);
    }
  }

  // ---------------------------------------------------------------------------
  // the new-transaction form

  /** The form's text fields. */
  datatype FormData = FormData(
    date: string,
    reference: string,
    description: string,
    debitAccount: string,
    creditAccount: string,
    amount: string)

  /** The form as it opens and as a submit resets it: today's date, every other field empty. */
  function FreshForm(today: string): (f: FormData)
    ensures f.date == today && !Complete(f)
    ensures f.reference == "" && f.description == "" && f.debitAccount == "" && f.creditAccount == "" && f.amount == ""
  {
    FormData(today, "", "", "", "", "")
  }

  /** No field of the form is the empty string. */
  predicate Complete(f: FormData)
  {
    f.date != "" && f.reference != "" && f.description != "" && f.debitAccount != ""
    && f.creditAccount != "" && f.amount != ""
  }

  /** The transaction a submit builds when `count` transactions already exist. */
  function NewTransaction(f: FormData, count: nat, amount: Cents): (t: Transaction)
    ensures t.id == NatToString(count + 1) && t.status == Pending && t.amount == amount
    ensures t.date == f.date && t.reference == f.reference && t.description == f.description
    ensures t.debitAccount == f.debitAccount && t.creditAccount == f.creditAccount
  {
    Transaction(NatToString(count + 1), f.date, f.reference, f.description, f.debitAccount, f.creditAccount, amount, Pending)
  }

  /** The part of the client's state that a submit reads and writes. */
  datatype Screen = Screen(transactions: seq<Transaction>, showNewTransactionModal: bool, formData: FormData)

  /**
   * The state after `handleSubmit`: nothing changes while a field is empty;
   * otherwise the new transaction is appended, the modal closes and the form
   * is reset. `amount` is what `parseFloat` makes of the amount field.
   */
  function Submitted(s: Screen, today: string, amount: Cents): Screen
  {
    if !Complete(s.formData) then s
    else Screen(s.transactions + [NewTransaction(s.formData, |s.transactions|, amount)], false, FreshForm(today))
  }

  /**
   * A submit with an empty field changes nothing; a complete one keeps every
   * earlier transaction, appends exactly one pending transaction whose id is
   * the new count and whose fields are the form's, closes the modal and
   * resets the form to today's date and empty fields.
   */
  lemma SubmittedContents(s: Screen, today: string, amount: Cents)
    ensures var s' := Submitted(s, today, amount);
      && (!Complete(s.formData) ==> s' == s)
      && (Complete(s.formData) ==>
            var t := s'.transactions[|s.transactions|];
            && |s'.transactions| == |s.transactions| + 1
            && s'.transactions[..|s.transactions|] == s.transactions
            && t.id == NatToString(|s.transactions| + 1) && t.status == Pending && t.amount == amount
            && t.date == s.formData.date && t.reference == s.formData.reference
            && t.description == s.formData.description
            && t.debitAccount == s.formData.debitAccount && t.creditAccount == s.formData.creditAccount
            && !s'.showNewTransactionModal
            && s'.formData == FormData(today, "", "", "", "", ""))
  {
    if Complete(s.formData) {
      var s' := Submitted(s, today, amount);
      assert s'.transactions[..|s.transactions|] == s.transactions;
    }
  }

  /** Submitting keeps ids sequential, and so (SequentialIdsDistinct) unique. */
  lemma SubmitKeepsIdsSequential(s: Screen, today: string, amount: Cents)
    requires IdsSequential(s.transactions)
    ensures IdsSequential(Submitted(s, today, amount).transactions)
  {
  }

  /**
   * A freshly opened modal cannot be submitted as it stands: its form has
   * empty fields, so submitting it changes nothing.
   */
  lemma SubmitFreshFormChangesNothing(s: Screen, today: string, amount: Cents)
    requires s.formData == FreshForm(today)
    ensures Submitted(s, today, amount) == s
  {
  }

  /** The client's state: the transaction list, whether the modal is open, and the form. */
  class AppState {
    var transactions: seq<Transaction>
    var showNewTransactionModal: bool
    var formData: FormData

    function Snapshot(): Screen
      reads this
    {
      Screen(transactions, showNewTransactionModal, formData)
    }

    /** The initial state: the given transactions, the modal closed, a fresh form. */
    constructor (initial: seq<Transaction>, today: string)
      ensures Snapshot() == Screen(initial, false, FreshForm(today))
    {
      transactions := initial;
      showNewTransactionModal := false;
      formData := FreshForm(today);
    }

    /**
     * The "New Transaction" button. Setting the flag re-renders `App`, which
     * declares `NewTransactionModal` anew on every render; the modal is
     * therefore mounted afresh and its form state starts again from today's
     * date and empty fields.
     */
    method OpenNewTransactionModal(today: string)
      modifies this
      ensures Snapshot() == old(Snapshot()).(showNewTransactionModal := true, formData := FreshForm(today))
    {
      showNewTransactionModal := true;
      formData := FreshForm(today);
    }

    /** `handleSubmit`, with today's date and the parsed amount supplied by the caller. */
    method HandleSubmit(today: string, parsedAmount: Cents)
      modifies this
      ensures Snapshot() == Submitted(old(Snapshot()), today, parsedAmount)
    {
      if formData.date == "" || formData.reference == "" || formData.description == ""
         || formData.debitAccount == "" || formData.creditAccount == "" || formData.amount == "" {
        return;
      }
      var newTransaction := NewTransaction(formData, |transactions|, parsedAmount);
      transactions := transactions + [newTransaction];
      showNewTransactionModal := false;
      formData := FreshForm(today);
    }
  }
}
