/**
 * The transaction endpoints: the two status actions `post_transaction` and
 * `cancel_transaction`, which change the loaded transaction in place, and
 * `dashboard_metrics`, which fills a dictionary of per-type balance totals,
 * net income and the number of posted transactions of the current month.
 *
 * The request's user and the clock are parameters: `now` is what
 * `timezone.now()` returned and `today` its date.
 */
module TransactionViews {
  import opened Basics
  import opened TransactionModels
  import opened AccountModels

  /** The body of a response: `{'status': ...}` with 200, or `{'error': ...}` with 400. */
  datatype Response = Success(status: string) | BadRequest(error: string)

  const NotPendingMessage: string := "Only pending transactions can be posted"
  const PostedMessage: string := "Transaction posted successfully"
  const PostedNotCancellable: string := "Posted transactions cannot be cancelled"
  const CancelledMessage: string := "Transaction cancelled successfully"

  // ---------------------------------------------------------------------------
  // The status actions as functions of the row

  /**
   * `post_transaction`: the response and the row afterwards. Only a pending
   * transaction whose debit and credit totals are equal is posted.
   */
  function Post(t: Transaction, user: UserId, now: Timestamp): (r: (Response, Transaction))
    ensures r.0.Success? <==> t.status == Pending && Balanced(t.entries)
    ensures t.status != Pending ==> r.0 == BadRequest(NotPendingMessage)
    ensures t.status == Pending && !Balanced(t.entries) ==> r.0 == BadRequest(UnbalancedMessage)
    ensures r.0.BadRequest? ==> r.1 == t
    ensures r.0.Success? ==>
              && r.0.status == PostedMessage && r.1.status == Posted
              && r.1.postedAt == Some(now) && r.1.postedBy == Some(user)
              && r.1 == t.(status := Posted, postedAt := Some(now), postedBy := Some(user))
  {
    if t.status != Pending then (BadRequest(NotPendingMessage), t)
    else if DebitTotal(t.entries) != CreditTotal(t.entries) then (BadRequest(UnbalancedMessage), t)
    else (Success(PostedMessage), t.(status := Posted, postedAt := Some(now), postedBy := Some(user)))
  }

  /** `cancel_transaction`: the response and the row afterwards. Anything but a posted transaction is cancelled. */
  function Cancel(t: Transaction): (r: (Response, Transaction))
    ensures r.0.BadRequest? <==> t.status == Posted
    ensures r.0.BadRequest? ==> r.0.error == PostedNotCancellable && r.1 == t
    ensures r.0.Success? ==> r.0.status == CancelledMessage && r.1 == t.(status := Cancelled)
  {
    if t.status == Posted then (BadRequest(PostedNotCancellable), t)
    else (Success(CancelledMessage), t.(status := Cancelled))
  }

  /** A request to one of the two actions. */
  datatype Action = PostAction(user: UserId, now: Timestamp) | CancelAction

  /** The row after an action. */
  function Apply(t: Transaction, a: Action): Transaction
  {
    match a
    case PostAction(user, now) => Post(t, user, now).1
    case CancelAction => Cancel(t).1
  }

  /** The row after a series of actions, applied in order. */
  function Run(t: Transaction, actions: seq<Action>): Transaction
    decreases |actions|
  {
    if actions == [] then t else Run(Apply(t, actions[0]), actions[1..])
  }

  /** Cancelling twice is cancelling once, on every row. */
  lemma CancelIdempotent(t: Transaction)
    ensures Cancel(Cancel(t).1).1 == Cancel(t).1
    ensures t.status != Posted ==> Cancel(t).1.status == Cancelled && Cancel(Cancel(t).1).0.Success?
  {
  }

  /**
   * The only moves are pending to posted and anything but posted to
   * cancelled; every other field but the posting stamps stays as it was.
   */
  lemma {:induction false} ActionMoves(t: Transaction, a: Action)
    ensures var u := Apply(t, a);
      && (u.status == t.status
          || (t.status == Pending && u.status == Posted)
          || (t.status != Posted && u.status == Cancelled))
      && u.(status := t.status, postedAt := t.postedAt, postedBy := t.postedBy) == t
  {
  }

  /** Posted is absorbing: no series of actions changes a posted transaction at all. */
  lemma {:induction false} PostedIsAbsorbing(t: Transaction, actions: seq<Action>)
    requires t.status == Posted
    ensures Run(t, actions) == t
  {
    if actions != [] {
      assert Apply(t, actions[0]) == t;
      PostedIsAbsorbing(t, actions[1..]);
    }
  }

  /** Once a series of actions posts a transaction, it stays posted whatever follows. */
  lemma {:induction false} RunThroughPosted(t: Transaction, before: seq<Action>, after: seq<Action>)
    requires Run(t, before).status == Posted
    ensures Run(t, before + after) == Run(t, before)
    decreases |before|
  {
    if before == [] {
      assert before + after == after;
      PostedIsAbsorbing(t, after);
    } else {
      assert (before + after)[1..] == before[1..] + after;
      RunThroughPosted(Apply(t, before[0]), before[1..], after);
    }
  }

  /** For a saved pending transaction, posting succeeds exactly when `clean` would accept it. */
  lemma PostAgreesWithClean(t: Transaction, user: UserId, now: Timestamp)
    requires HasPk(t) && t.status == Pending
    ensures Post(t, user, now).0.Success? <==> Clean(t) == Ok(())
    ensures Post(t, user, now).0.BadRequest? ==> Clean(t) == Err(Post(t, user, now).0.error)
  {
  }

  /** The actions never touch `reference`, so they keep references unique across the table. */
  lemma ActionKeepsReferencesUnique(txs: seq<Transaction>, i: nat, a: Action)
    requires i < |txs| && ReferencesUnique(txs)
    ensures ReferencesUnique(txs[i := Apply(txs[i], a)])
  {
    ActionMoves(txs[i], a);
    var u := txs[i := Apply(txs[i], a)];
    forall j, k | 0 <= j < k < |u| ensures u[j].reference != u[k].reference {
      assert u[j].reference == txs[j].reference && u[k].reference == txs[k].reference;
    }
  }

  /** Every posted transaction of the table has equal debit and credit totals. */
  predicate PostedBalanced(txs: seq<Transaction>)
  {
    forall i :: 0 <= i < |txs| && txs[i].status == Posted ==> Balanced(txs[i].entries)
  }

  /**
   * The actions keep the ledger balanced: posting checks the totals first and
   * cancelling never touches a posted row. So the accounting equation
   * (AccountModels.TrialBalance) keeps holding whatever actions arrive.
   */
  lemma ActionKeepsLedgerBalanced(txs: seq<Transaction>, i: nat, a: Action)
    requires i < |txs| && PostedBalanced(txs)
    ensures PostedBalanced(txs[i := Apply(txs[i], a)])
  {
    ActionMoves(txs[i], a);
  }

  /** The actions touch only the status and the posting stamps, so a row keeps passing its field constraints. */
  lemma ActionKeepsFieldsValid(t: Transaction, a: Action)
    requires TransactionFieldsValid(t)
    ensures TransactionFieldsValid(Apply(t, a))
  {
    ActionMoves(t, a);
  }

  // ---------------------------------------------------------------------------
  // The actions on the loaded instance

  /** `post_transaction` on the instance `get_object` loaded; `save` is the new row. */
  method PostTransaction(obj: TransactionObject, user: UserId, now: Timestamp) returns (resp: Response)
    modifies obj
    ensures (resp, obj.Snapshot()) == Post(old(obj.Snapshot()), user, now)
  {
    if obj.status != Pending {
      return BadRequest(NotPendingMessage);
    }
    var debitTotal := DebitTotal(obj.entries);
    var creditTotal := CreditTotal(obj.entries);
    if debitTotal != creditTotal {
      return BadRequest(UnbalancedMessage);
    }
    obj.status := Posted;
    obj.postedAt := Some(now);
    obj.postedBy := Some(user);
    return Success(PostedMessage);
  }

  /** `cancel_transaction` on the loaded instance. */
  method CancelTransaction(obj: TransactionObject) returns (resp: Response)
    modifies obj
    ensures (resp, obj.Snapshot()) == Cancel(old(obj.Snapshot()))
  {
    if obj.status == Posted {
      return BadRequest(PostedNotCancellable);
    }
    obj.status := Cancelled;
    return Success(CancelledMessage);
  }

  // ---------------------------------------------------------------------------
  // dashboard_metrics

  /** The key a type's total is stored under. */
  function MetricKey(t: AccountType): (k: string)
  {
    match t
    case Asset => "total_assets"
    case Liability => "total_liabilitys"
    case Equity => "total_equitys"
    case Revenue => "total_revenues"
    case Expense => "total_expenses"
  }

  /**
   * The key is formed as "total_" + type + "s", so the liability and equity
   * totals are stored under "total_liabilitys" and "total_equitys".
   */
  lemma MetricKeyFormat(t: AccountType)
    ensures MetricKey(t) == "total_" + AccountTypeValue(t) + "s"
  {
  }

  /** Distinct types get distinct metric keys, and none clashes with the two other metrics. */
  lemma MetricKeysDistinct()
    ensures forall a: AccountType, b: AccountType :: MetricKey(a) == MetricKey(b) ==> a == b
    ensures forall t: AccountType :: MetricKey(t) != "net_income" && MetricKey(t) != "recent_transactions"
  {
    AccountTypeValueInjective();
    forall a: AccountType, b: AccountType | MetricKey(a) == MetricKey(b)
      ensures a == b
    {
      MetricKeyFormat(a);
      MetricKeyFormat(b);
      var ka, kb := MetricKey(a), MetricKey(b);
      assert AccountTypeValue(a) == ka[6..|ka| - 1];
      assert AccountTypeValue(b) == kb[6..|kb| - 1];
    }
    forall t: AccountType
      ensures MetricKey(t) != "net_income" && MetricKey(t) != "recent_transactions"
    {
      assert MetricKey(t)[0] == 't';
    }
  }

  /** The summed balance of the active accounts of type `t`. */
  function TypeBalance(accounts: seq<Account>, txs: seq<Transaction>, t: AccountType): Cents
  {
    SumBalances(Filter(accounts, ActiveOfType(t)), txs)
  }

  /** A posted transaction dated on or after the first day of the month of `today`. */
  function PostedThisMonth(today: Date): Transaction -> bool
  {
    (t: Transaction) => t.status == Posted && DateLe(FirstOfMonth(today), t.date)
  }

  /** How many transactions were posted with a date in the month of `today`, up to any later date. */
  function RecentCount(txs: seq<Transaction>, today: Date): nat
  {
    |Filter(txs, PostedThisMonth(today))|
  }

  /** `metrics.get(key, 0)`. */
  function GetOrZero(m: map<string, Cents>, key: string): Cents
  {
    if key in m then m[key] else 0
  }

  /** The per-type totals as a function of the type. */
  function TypeBalances(accounts: seq<Account>, txs: seq<Transaction>): AccountType -> Cents
  {
    (t: AccountType) => TypeBalance(accounts, txs, t)
  }

  /** The per-type totals, each under its metric key. */
  function TotalsByKey(accounts: seq<Account>, txs: seq<Transaction>): map<string, Cents>
  {
    Tabulate(AccountTypes, MetricKey, TypeBalances(accounts, txs))
  }

  /**
   * The per-type totals followed by the two further assignments of
   * `dashboard_metrics` hold each type's total under its key, revenues minus
   * expenses as net income, the given count, and no other key.
   */
  lemma MetricsContents(accounts: seq<Account>, txs: seq<Transaction>, totals: map<string, Cents>, recent: nat)
    requires totals == TotalsByKey(accounts, txs)
    ensures var m := totals["net_income" := GetOrZero(totals, "total_revenues") - GetOrZero(totals, "total_expenses")]
                           ["recent_transactions" := recent];
      && (forall t: AccountType :: MetricKey(t) in m && m[MetricKey(t)] == TypeBalance(accounts, txs, t))
      && "net_income" in m
      && m["net_income"] == TypeBalance(accounts, txs, Revenue) - TypeBalance(accounts, txs, Expense)
      && "recent_transactions" in m && m["recent_transactions"] == recent
      && (forall k :: k in m ==> k == "net_income" || k == "recent_transactions" || exists t: AccountType :: MetricKey(t) == k)
  {
    MetricKeysDistinct();
    TabulateAll(totals, MetricKey, TypeBalances(accounts, txs));
  }

  /** The `for` loop of `dashboard_metrics`: one total per type, written in type order. */
  method TypeTotals(accounts: seq<Account>, txs: seq<Transaction>) returns (metrics: map<string, Cents>)
    ensures metrics == TotalsByKey(accounts, txs)
  {
    metrics := map[];
    for i := 0 to |AccountTypes|
      invariant metrics == Tabulate(AccountTypes[..i], MetricKey, TypeBalances(accounts, txs))
    {
      var t := AccountTypes[i];
      metrics := metrics[MetricKey(t) := TypeBalance(accounts, txs, t)];
      assert AccountTypes[..i + 1][..i] == AccountTypes[..i];
    }
    assert AccountTypes[..|AccountTypes|] == AccountTypes;
  }

  /**
   * `dashboard_metrics`: one total per type under its metric key, the
   * difference of the revenue and expense totals, and the count of this
   * month's posted transactions; no other key.
   */
  method DashboardMetrics(accounts: seq<Account>, txs: seq<Transaction>, today: Date) returns (metrics: map<string, Cents>)
    ensures forall t: AccountType :: MetricKey(t) in metrics && metrics[MetricKey(t)] == TypeBalance(accounts, txs, t)
    ensures "net_income" in metrics
            && metrics["net_income"] == TypeBalance(accounts, txs, Revenue) - TypeBalance(accounts, txs, Expense)
    ensures "recent_transactions" in metrics && metrics["recent_transactions"] == RecentCount(txs, today)
    ensures forall k :: k in metrics ==>
              k == "net_income" || k == "recent_transactions" || exists t: AccountType :: MetricKey(t) == k
  {
    metrics := TypeTotals(accounts, txs);
    ghost var totals := metrics;
    metrics := metrics["net_income" := GetOrZero(metrics, "total_revenues") - GetOrZero(metrics, "total_expenses")];
    metrics := metrics["recent_transactions" := RecentCount(txs, today)];
    MetricsContents(accounts, txs, totals, RecentCount(txs, today));
  }
}
