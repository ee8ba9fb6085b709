# AccountsPro ledger core, modelled in Dafny

AccountsPro is a small double-entry bookkeeping application. It has two parts:

- a Django REST backend that keeps accounts and transactions, each transaction holding debit and credit entries;
- a React single-page client that shows a dashboard and lists and edits accounts and transactions, reaching the backend through an axios client.

This project models the core of both and proves properties of the model.

Backend:

- `TransactionModels` (transactions models): the status and entry-type choices, the transaction record and its defaults and validators, `clean` (debits must equal credits), and the ordering of entries.
- `AccountModels` (accounts models): the five account types, the account record, and `balance`. The balance is computed from posted entries on the account's normal side.
- `AccountViews` (accounts views): the active-accounts queryset, `by_type` and `chart_summary`.
- `TransactionViews` (transactions views): the `post_transaction` / `cancel_transaction` status machine and `dashboard_metrics`.
- `TransactionSerializers` (transactions serializers): how `create` inserts entries and how `update` assigns fields and replaces entries.

Client:

- `App` (`App.tsx`): the dashboard figures, the per-type panel, the account search, the recent-transactions panel, and the new-transaction form.
- `Api` (`services/api.ts`): the request interceptor that attaches the bearer token, and the response interceptor that handles a 401 by refreshing once and replaying the request.

Two modules hold shared vocabulary:

- `Basics`: Option, Result, filter, sum and left fold.
- `Ordering`: code-point string order, and the multi-key `order_by` as an insertion sort.

How the model represents the system:

- Money is held as integer cents. The backend's `DecimalField(decimal_places=2)` is exact, and the client's amounts are taken to be whole cents.
- Database tables are sequences.
- A Django instance that the views and serializers change in place is the class `TransactionObject`. Its `Snapshot()` is the row as a value, and the ledger functions work on that value.
- Per-type dictionaries are built one type at a time in loops. Each such loop is proved against `AccountModels.Tabulate`.
- The client's state and `localStorage` are class fields.
- The clock and the requesting user are parameters. So are what the server answers: the refresh outcome and the replay's answer.

## Model

| member | source | states |
|---|---|---|
| Ordering.OrderBy | backend/accounts/models.py:31 | the ordered rows are a permutation of the input, sorted by the key (ties in any order) |
| TransactionModels.FirstOfMonth | backend/transactions/views.py:86 | same year and month, day 1, and never after the given date |
| TransactionModels.ParseStatus | backend/transactions/models.py:7-11 | exactly the four stored values parse, each to the status whose value it is |
| TransactionModels.ParseEntryType | backend/transactions/models.py:13-15 | exactly `debit` and `credit` parse, each to its entry type |
| TransactionModels.NewTransaction | backend/transactions/models.py:17-41 | a new row takes the given fields, defaults to draft, and has no key, no posting stamps and no entries |
| TransactionModels.SideTotalsSplit | backend/transactions/models.py:60-66 | the signed sum of the entries is debits minus credits, and the sum of amounts is debits plus credits |
| TransactionModels.BalancedIffNetZero | backend/transactions/models.py:68 | debit total equals credit total exactly when the signed entries sum to zero |
| TransactionModels.Clean | backend/transactions/models.py:55-69 | the only error `clean` raises is "Debit and credit totals must be equal" |
| TransactionModels.CleanRaisesIff | backend/transactions/models.py:59-69 | `clean` raises exactly when the row has a key (a non-zero one) and its entries do not balance; an unsaved row always passes |
| TransactionModels.EmptyIsClean | backend/transactions/models.py:60-66 | with no entries both totals are 0, so `clean` passes |
| TransactionModels.OrderedEntries | backend/transactions/models.py:87 | a transaction's entries are listed as a permutation sorted by entry type, then account code |
| TransactionModels.CreditsBeforeDebits | backend/transactions/models.py:87 | in that order no debit entry comes before a credit entry |
| TransactionModels.TransactionObject.Load | backend/transactions/models.py:17-41 | a loaded instance holds exactly the row's fields |
| AccountModels.ParseAccountType | backend/accounts/models.py:6-11 | exactly the five stored values parse, each to the type whose value it is |
| AccountModels.AccountTypeValueInjective | backend/accounts/models.py:6-11 | distinct types have distinct stored values |
| AccountModels.NewAccount | backend/accounts/models.py:13-28 | a new account takes the given fields and is active by default |
| AccountModels.AddAccount | backend/accounts/models.py:14-15 | a row is added exactly when its code and name pass their length validators and no row already has its code (`unique=True`); it is then appended |
| AccountModels.AddAccountKeepsTableValid | backend/accounts/models.py:14-15 | adding an account to a table with unique codes and valid rows keeps codes unique and every row valid |
| AccountModels.OrderedByCode | backend/accounts/models.py:31 | accounts ordered by code are a permutation of the input in code order |
| AccountModels.OrderedByCodeStrict | backend/accounts/models.py:14-31 | with unique codes the code order has no ties: the ordered accounts have pairwise distinct, increasing codes |
| AccountModels.TypeCountsPartition | backend/accounts/models.py:16 | every account has exactly one of the five types, so the five per-type counts add up to the total |
| AccountModels.BalanceByNormalSide | backend/accounts/models.py:41-63 | the balance of an asset or expense account is posted debits minus posted credits; for any other account it is the reverse |
| AccountModels.BalanceIgnoresUnposted | backend/accounts/models.py:46-56 | entries of unposted transactions never affect a balance |
| AccountModels.BalanceAdditive | backend/accounts/models.py:46-56 | the balance over two transaction lists is the sum of the balances over each |
| AccountModels.NoPostedEntriesZeroBalance | backend/accounts/models.py:50-56 | an account with no posted entries has balance 0 |
| AccountModels.Balance | backend/accounts/models.py:41-63 | the balance definition: posted entries of the account, signed by its normal side (properties in BalanceByNormalSide and the rows after it) |
| AccountModels.NormalSidesDifference | backend/accounts/models.py:58-63 | debit-normal balances minus credit-normal balances equals the accounts' summed signed posted nets |
| AccountModels.PostedNetZero | backend/transactions/views.py:30-42 | when every posted transaction balances, the posted signed entries sum to zero |
| AccountModels.TrialBalance | backend/accounts/models.py:58-63 | the accounting equation: when posted transactions balance and hit only known accounts, asset + expense balances equal liability + equity + revenue balances |
| AccountViews.Queryset | backend/accounts/views.py:10-16 | the listing holds exactly the active accounts, as often as in the table, in code order |
| AccountViews.TypeNameKeys | backend/accounts/views.py:22-27 | a dictionary filled for the five types has exactly the five type names as keys, each holding its type's value |
| AccountViews.QuerysetOfType | backend/accounts/views.py:41-45 | filtering the queryset by a type gives the same count and balance sum as the active accounts of that type |
| AccountViews.GroupMembers | backend/accounts/views.py:23-26 | a group holds exactly the active accounts of its type, each as often as in the table, in code order |
| AccountViews.ByType | backend/accounts/views.py:18-28 | `by_type` has exactly the five type names as keys, each holding that type's group |
| AccountViews.GetChartSummary | backend/accounts/views.py:30-47 | `total_accounts` is the number of active accounts; each type name maps to the count and the balance sum of its active accounts; no other keys |
| AccountViews.ChartCountsAddUp | backend/accounts/views.py:35-42 | the per-type counts of `chart_summary` add up to `total_accounts` |
| TransactionViews.Post | backend/transactions/views.py:19-49 | posting succeeds exactly for a pending, balanced transaction and sets status, `posted_at` and `posted_by`; a non-pending one gets "Only pending transactions can be posted", an unbalanced pending one gets the totals message; on error nothing changes |
| TransactionViews.Cancel | backend/transactions/views.py:51-65 | cancelling fails exactly for a posted transaction, which is left unchanged; anything else becomes cancelled |
| TransactionViews.Apply | backend/transactions/views.py:19-65 | the row after one status action (properties in ActionMoves) |
| TransactionViews.Run | backend/transactions/views.py:19-65 | the row after a series of status actions (properties in PostedIsAbsorbing and RunThroughPosted) |
| TransactionViews.CancelIdempotent | backend/transactions/views.py:62-63 | cancelling twice is cancelling once, and a second cancel of a cancelled transaction succeeds |
| TransactionViews.ActionMoves | backend/transactions/views.py:24-63 | the only status moves are pending to posted and non-posted to cancelled; no field other than status and the posting stamps changes |
| TransactionViews.PostedIsAbsorbing | backend/transactions/views.py:24-28 | no series of post and cancel actions changes a posted transaction at all |
| TransactionViews.RunThroughPosted | backend/transactions/views.py:56-60 | once a series of actions reaches posted, any further actions leave it as it is |
| TransactionViews.PostAgreesWithClean | backend/transactions/views.py:30-42 | for a saved pending transaction, posting succeeds exactly when `clean` passes, and fails with the message `clean` raises |
| TransactionViews.ActionKeepsReferencesUnique | backend/transactions/models.py:18 | post and cancel never change a reference, so references stay unique in the table |
| TransactionViews.ActionKeepsLedgerBalanced | backend/transactions/views.py:30-47 | if every posted transaction balances, it still does after any post or cancel |
| TransactionViews.ActionKeepsFieldsValid | backend/transactions/views.py:19-65 | post and cancel keep a row within its field constraints (reference length, description, total of at least 0.01, entry amounts of at least 0.01) |
| TransactionViews.PostTransaction | backend/transactions/views.py:20-49 | the view's response and the saved instance are those of `Post` |
| TransactionViews.CancelTransaction | backend/transactions/views.py:52-65 | the view's response and the saved instance are those of `Cancel` |
| TransactionViews.MetricKeyFormat | backend/transactions/views.py:78 | each metric key is `total_` + type value + `s` (so `total_liabilitys`, `total_equitys`) |
| TransactionViews.MetricKeysDistinct | backend/transactions/views.py:75-84 | the five type keys are distinct and differ from `net_income` and `recent_transactions` |
| TransactionViews.MetricsContents | backend/transactions/views.py:74-87 | after the type loop and the two further assignments, each type key holds its active accounts' balance sum, `net_income` is revenues minus expenses, `recent_transactions` is the count, and there are no other keys |
| TransactionViews.TypeTotals | backend/transactions/views.py:74-78 | the type loop fills exactly the five keys with the per-type totals |
| TransactionViews.DashboardMetrics | backend/transactions/views.py:68-89 | as MetricsContents; `recent_transactions` counts posted transactions dated on or after the first of the current month |
| TransactionSerializers.ToEntry | backend/transactions/serializers.py:41-44 | an inserted entry row carries the item's account, side, amount and description |
| TransactionSerializers.ToEntries | backend/transactions/serializers.py:40-44 | one entry row per item, in item order |
| TransactionSerializers.CreatedRow | backend/transactions/serializers.py:35-38 | the inserted row is stamped with the requesting user, has the assigned key, takes the given status or draft, and has no posting stamps |
| TransactionSerializers.CreatedContents | backend/transactions/serializers.py:31-46 | `create` takes every writable field from the data, stamps the user and inserts exactly one entry per item, in order |
| TransactionSerializers.Created | backend/transactions/serializers.py:31-46 | the transaction `create` leaves (properties in CreatedContents) |
| TransactionSerializers.CreatedFieldsValid | backend/transactions/models.py:17-84 | the created row meets the model's field constraints (amounts of at least 0.01 within 15 digits, reference and entry description lengths, a non-empty description) exactly when the data passed the field validators |
| TransactionSerializers.CreateDoesNotCheckBalance | backend/transactions/serializers.py:31-46 | `create` accepts entries that `clean` would reject |
| TransactionSerializers.Create | backend/transactions/serializers.py:31-46 | the new instance is the created row with its entries appended one by one |
| TransactionSerializers.AssignAllFields | backend/transactions/serializers.py:52-53 | the `setattr` loop overwrites every field present, keeps every absent one, and never touches the key, the entries or the read-only fields |
| TransactionSerializers.UpdatedContents | backend/transactions/serializers.py:48-65 | `update` keeps the entries when none are given and makes them exactly the given items otherwise, with the field behaviour of AssignAllFields |
| TransactionSerializers.Updated | backend/transactions/serializers.py:48-65 | the transaction `update` leaves (properties in UpdatedContents) |
| TransactionSerializers.UpdatedKeepsFieldsValid | backend/transactions/serializers.py:48-65 | `update` with validated values and items keeps a valid row within the model's field constraints |
| TransactionSerializers.UpdateWithNoEntries | backend/transactions/serializers.py:56-58 | an empty entries list deletes every entry |
| TransactionSerializers.UpdateIgnoresStatus | backend/transactions/serializers.py:48-65 | `update` checks no status: a posted transaction can be moved back to draft with unbalanced entries |
| TransactionSerializers.Update | backend/transactions/serializers.py:48-65 | the instance after the field loop and the entry replacement is the one `Updated` describes |
| App.TypeTotalMeaning | frontend/src/App.tsx:107-111 | the filter-then-reduce total of a type is the sum of the balances of exactly the accounts of that type |
| App.FilteredSumIsMaskedSum | frontend/src/App.tsx:107 | summing the filtered accounts equals summing every account's balance masked by its type |
| App.TypeTotalsPartition | frontend/src/App.tsx:107-111 | the five type totals add up to the sum of all balances |
| App.MetricsMeaning | frontend/src/App.tsx:106-114 | each dashboard figure is its type's balance sum, net income is revenue minus expenses, and with no accounts every figure is 0 |
| App.ComputeMetrics | frontend/src/App.tsx:106-114 | the `dashboardMetrics` object (properties in MetricsMeaning) |
| App.MetricsExample | frontend/src/App.tsx:107-108 | two assets of 25000 and 15000 and a liability of 8000 give assets 40000 and liabilities 8000 |
| App.PanelTotals | frontend/src/App.tsx:234-235 | the panel has one total per type |
| App.PanelAgreesWithMetrics | frontend/src/App.tsx:234-235 | the panel shows the same five figures as the metric cards, in type order |
| App.ToLower | frontend/src/App.tsx:318 | lower-casing keeps the length and lower-cases each ASCII letter in place |
| App.ToLowerIdempotent | frontend/src/App.tsx:318 | a lower-cased string has no upper-case ASCII letter, and lower-casing it again changes nothing |
| App.ToLowerSlice | frontend/src/App.tsx:318 | lower-casing commutes with taking a slice |
| App.IncludesIff | frontend/src/App.tsx:318-319 | `includes` holds exactly when the term occurs at some position |
| App.IncludesEmpty | frontend/src/App.tsx:318-319 | every string includes the empty term |
| App.IncludesLower | frontend/src/App.tsx:318 | a term found in a string is still found after both are lower-cased |
| App.SearchResults | frontend/src/App.tsx:316-320 | the table lists exactly the matching accounts in list order, each as often as it occurs in the list: name contains the term ignoring case, or code contains it as typed |
| App.SearchFilter | frontend/src/App.tsx:316-320 | the filtered account list (properties in SearchResults) |
| App.SearchEmptyTerm | frontend/src/App.tsx:316-320 | an empty search box shows every account |
| App.SearchFindsName | frontend/src/App.tsx:318 | an account whose name contains the term as typed is always shown |
| App.RecentTransactions | frontend/src/App.tsx:210 | the panel shows exactly the first five transactions in order (all of them if there are at most five) |
| App.RecentIgnoresAppended | frontend/src/App.tsx:210 | once five transactions exist, an appended one never appears in the panel |
| App.NatToString | frontend/src/App.tsx:541 | the decimal form of a number is a non-empty string of digits |
| App.ParseNatToString | frontend/src/App.tsx:541 | reading the decimal form back gives the number |
| App.NatToStringInjective | frontend/src/App.tsx:541 | different numbers give different ids |
| App.SequentialIdsDistinct | frontend/src/App.tsx:541 | when the transaction at position i has id i + 1, no two transactions share an id |
| App.NewTransaction | frontend/src/App.tsx:540-545 | the new transaction has id count + 1, takes the form's fields and the parsed amount, and is pending |
| App.SubmittedContents | frontend/src/App.tsx:536-556 | a submit with an empty field changes nothing; otherwise it keeps every earlier transaction, appends one pending transaction whose id is the new count and whose date, reference, description, accounts and amount are the form's, closes the modal and resets the form to today's date and empty fields |
| App.Submitted | frontend/src/App.tsx:536-556 | the state after `handleSubmit` (properties in SubmittedContents) |
| App.SubmitKeepsIdsSequential | frontend/src/App.tsx:541-546 | submitting keeps ids sequential, and so unique |
| App.FreshForm | frontend/src/App.tsx:527-534 | the modal's initial form: today's date and every other field empty, so not complete |
| App.AppState.constructor | frontend/src/App.tsx:101-103 | the state starts with the given transactions, the modal closed and the form of `FreshForm` |
| App.AppState.OpenNewTransactionModal | frontend/src/App.tsx:371 | the button opens the modal and keeps the transactions; the re-render mounts the modal (declared inside `App`) afresh, so the form is reset to `FreshForm` |
| App.SubmitFreshFormChangesNothing | frontend/src/App.tsx:527-539 | submitting a freshly reset form changes nothing, since its fields are empty |
| App.AppState.HandleSubmit | frontend/src/App.tsx:536-556 | the state after the handler is the one `Submitted` describes |
| Api.AttachAuthorizationSpec | frontend/src/services/api.ts:14-20 | with a non-empty access token stored, the header is `Bearer <token>` and everything else is kept; otherwise the config is unchanged |
| Api.AttachAuthorization | frontend/src/services/api.ts:14-20 | the request interceptor as a function of the config and the store (properties in AttachAuthorizationSpec) |
| Api.OnFulfilled | frontend/src/services/api.ts:24 | a successful response passes through unchanged |
| Api.OnRejected | frontend/src/services/api.ts:25-51 | the error handler as a function of the store, the error and the server's answers (properties in the lemmas below) |
| Api.NotRetriedRejectsUnchanged | frontend/src/services/api.ts:28-50 | a non-401 error, or one on an already-retried request, is rejected as it is, with no refresh, no replay and no change to storage or location |
| Api.MarkedBeforeRefresh | frontend/src/services/api.ts:28-29 | on a 401 to a request not yet retried, the request is marked `_retry` and every replay carries the mark |
| Api.RefreshAtMostOnce | frontend/src/services/api.ts:28-41 | whatever the server answers, at most one refresh call and at most one replay happen |
| Api.RefreshSucceeds | frontend/src/services/api.ts:31-41 | after a successful refresh only the access token changes, the refresh token is posted once, the request is replayed once with the new token, and the caller gets the replay's answer |
| Api.RefreshFails | frontend/src/services/api.ts:42-50 | a failed refresh removes both tokens, sets the location to `/login`, replays nothing and rejects the original error |
| Api.NoRefreshToken | frontend/src/services/api.ts:31-50 | without a refresh token there is no refresh, storage and location are untouched, and the original error is rejected |
| Api.StoredTokensComeFromRefresh | frontend/src/services/api.ts:39-44 | after the handler each stored token is the old one, the refreshed one, or removed |
| Api.ApiClient.InterceptRequest | frontend/src/services/api.ts:14-20 | the config object after the interceptor is `AttachAuthorization` of the one before |
| Api.ApiClient.InterceptError | frontend/src/services/api.ts:25-51 | storage, location, the config object, the refresh calls, the replays and the outcome are those of `OnRejected` |

## Behaviour worth noting

The model follows the code in each case below.

- Only a non-empty access token is attached. The request interceptor tests `if (token)` (`services/api.ts:16`), and by JavaScript truthiness an empty string is false.
- Without a non-empty token the config is left exactly as it was. A config that already carries an Authorization header keeps it.
- An empty refresh token counts as no refresh token, by the same JavaScript truthiness in `if (refreshToken)` (`services/api.ts:32`).
- The rejected error is not the untouched original. On a 401 to a request not yet retried, the handler sets `_retry` on the request before it decides anything else (`services/api.ts:29`). The rejected error then carries the marked config.
- After a successful refresh, a failure of the replay itself is not caught, although the `try`/`catch` around the refresh suggests that every failure leads to the login page. The replay is returned from inside the `try` without `await` (`services/api.ts:41`), so the `catch` never sees it. In that case the new access token stays stored and the replay's error reaches the caller.
- `clean` checks the totals only when `self.pk` is truthy. Its comment says "Only validate if transaction exists" (`transactions/models.py:59`), but by Python truthiness a saved row with key 0 is not checked either.
- The dashboard metric keys are built as `total_<type>s` (`transactions/views.py:78`). So the backend emits `total_liabilitys` and `total_equitys`, while the client type `DashboardMetrics` (`types/index.ts:42-43`) names `total_liabilities` and `total_equity`. The model follows the backend keys.
- The new-transaction modal is declared inside `App` (`App.tsx:526`), so every re-render of `App` mounts it afresh and resets its form. Opening the modal therefore always starts from today's date and empty fields.

## Left out

- `get_object` (the 404 lookup), authentication and permissions: the views take the instance and the requesting user as given.
- `created_at` / `updated_at` stamps and the transaction listing order (`-date`, `-created_at`): the clock is an input and these orders do not affect any modelled result.
- `db_transaction.atomic` and concurrent requests: a view or serializer runs as one step.
- Overlapping 401 refreshes from concurrent requests: the code does not coordinate them, and the model handles one request at a time.
- Response serialization (`.data`, `AccountSerializer`, `TransactionEntrySerializer`): the model returns values, not JSON.
- The viewsets' filter, search and ordering query parameters (`filterset_fields`, `search_fields`, `ordering_fields`): these are framework-driven.
- `parseFloat` and `toLocaleString`: the form's parsed amount is an input (`HandleSubmit`'s `parsedAmount`), and amounts are integer cents.
- App.ToLower: lower-cases ASCII letters only. Unicode case mapping is not modelled.
- The unique validator on a transaction's `reference` at create and update: the serializer's data is taken as validated. Uniqueness of references is stated as `TransactionModels.ReferencesUnique` and kept by the status actions (`TransactionViews.ActionKeepsReferencesUnique`).
- Database collation: codes are ordered by code point (`Ordering.StrLe`).
- `authAPI`, `accountsAPI` and `transactionsAPI`: one-line calls through the configured client.
- The refresh request itself: it is sent with bare axios and is therefore not intercepted. It appears only as its outcome (`Api.RefreshResult`).
- The axios instance's base URL and default headers.
- The JSX rendering, navigation, view switching and styling of the client.
- The admin configuration and the sample-data command.
- The client's other form handlers (field edits, the cancel button).
