/**
 * The transaction side of the ledger: statuses, debit/credit entries, the
 * transaction record, its field constraints and defaults, the
 * debits-equal-credits validator and the ordering of a transaction's entries.
 *
 * Money (a Django `DecimalField` with two decimal places) is integer cents.
 */
module TransactionModels {
  import opened Basics
  import opened Ordering

  type Cents = int
  type UserId = nat
  type AccountId = nat
  /** The instant `timezone.now()` returned; the clock itself is an input. */
  type Timestamp = nat

  /** A calendar date (`DateField`), compared year, then month, then day. */
  datatype Date = Date(year: int, month: nat, day: nat)

  predicate DateLe(a: Date, b: Date)
  {
    a.year < b.year
    || (a.year == b.year && (a.month < b.month || (a.month == b.month && a.day <= b.day)))
  }

  /** The same date with the day replaced by 1 (`date.replace(day=1)`). */
  function FirstOfMonth(d: Date): (r: Date)
    ensures r.year == d.year && r.month == d.month && r.day == 1
    ensures 1 <= d.day ==> DateLe(r, d)
  {
    d.(day := 1)
  }

  // ---------------------------------------------------------------------------
  // Choices

  datatype Status = Draft | Pending | Posted | Cancelled

  /** The value stored in the `status` column. */
  function StatusValue(s: Status): string
  {
    match s
    case Draft => "draft"
    case Pending => "pending"
    case Posted => "posted"
    case Cancelled => "cancelled"
  }

  /** Validating a submitted `status` value against the field's choices: only the four are accepted. */
  function ParseStatus(v: string): (r: Option<Status>)
    ensures r.Some? <==> v in {"draft", "pending", "posted", "cancelled"}
    ensures r.Some? ==> StatusValue(r.value) == v
    ensures forall s: Status :: v == StatusValue(s) ==> r == Some(s)
  {
    if v == "draft" then Some(Draft)
    else if v == "pending" then Some(Pending)
    else if v == "posted" then Some(Posted)
    else if v == "cancelled" then Some(Cancelled)
    else None
  }

  datatype EntryType = Debit | Credit

  /** The value stored in the `entry_type` column. */
  function EntryTypeValue(t: EntryType): string
  {
    match t
    case Debit => "debit"
    case Credit => "credit"
  }

  /** Validating a submitted `entry_type` value against the field's choices: exactly "debit" or "credit". */
  function ParseEntryType(v: string): (r: Option<EntryType>)
    ensures r.Some? <==> v in {"debit", "credit"}
    ensures r.Some? ==> EntryTypeValue(r.value) == v
    ensures forall t: EntryType :: v == EntryTypeValue(t) ==> r == Some(t)
  {
    if v == "debit" then Some(Debit)
    else if v == "credit" then Some(Credit)
    else None
  }

  // ---------------------------------------------------------------------------
  // Records

  /** One row of the entry table that belongs to a transaction. */
  datatype Entry = Entry(account: AccountId, entryType: EntryType, amount: Cents, description: string)

  /**
   * A transaction row together with the entry rows that point at it
   * (`transaction.entries`). `pk` is None until the row is saved.
   */
  datatype Transaction = Transaction(
    pk: Option<nat>,
    reference: string,
    date: Date,
    description: string,
    status: Status,
    totalAmount: Cents,
    createdBy: UserId,
    postedAt: Option<Timestamp>,
    postedBy: Option<UserId>,
    entries: seq<Entry>)

  /** The default of the `status` field. */
  const DefaultStatus: Status := Draft

  /** A new, unsaved transaction: every field left out takes its default. */
  function NewTransaction(reference: string, date: Date, description: string, totalAmount: Cents, createdBy: UserId): (t: Transaction)
    ensures t.status == Draft
    ensures t.pk == None && t.postedAt == None && t.postedBy == None && t.entries == []
    ensures t.reference == reference && t.date == date && t.description == description
    ensures t.totalAmount == totalAmount && t.createdBy == createdBy
  {
    Transaction(None, reference, date, description, DefaultStatus, totalAmount, createdBy, None, None, [])
  }

  // ---------------------------------------------------------------------------
  // Field constraints

  /** `MinValueValidator(Decimal('0.01'))`: one cent. */
  const MinAmount: Cents := 1
  /** `max_digits=15, decimal_places=2`: at most 13 digits before the point, so below 10^15 cents. */
  const AmountBound: Cents := 1_000_000_000_000_000

  predicate AmountValid(c: Cents)
  {
    MinAmount <= c < AmountBound
  }

  /** An entry's fields pass their validators (`entry_type` is one of the choices by its type). */
  predicate EntryFieldsValid(e: Entry)
  {
    AmountValid(e.amount) && |e.description| <= 255
  }

  /**
   * The transaction's own fields pass their validators: `reference` is a
   * required `CharField(max_length=50)`, `description` a required `TextField`,
   * `total_amount` at least one cent; its entries pass theirs.
   */
  predicate TransactionFieldsValid(t: Transaction)
  {
    && 1 <= |t.reference| <= 50
    && 1 <= |t.description|
    && AmountValid(t.totalAmount)
    && forall i :: 0 <= i < |t.entries| ==> EntryFieldsValid(t.entries[i])
  }

  /** `reference` is unique across the transaction table. */
  predicate ReferencesUnique(txs: seq<Transaction>)
  {
    forall i, j :: 0 <= i < j < |txs| ==> txs[i].reference != txs[j].reference
  }

  // ---------------------------------------------------------------------------
  // Debit and credit totals

  function IsSide(side: EntryType): Entry -> bool
  {
    (e: Entry) => e.entryType == side
  }

  function Amount(e: Entry): Cents
  {
    e.amount
  }

  /** Sum of the amounts of the entries on one side; the empty sum is 0. */
  function SideTotal(es: seq<Entry>, side: EntryType): Cents
  {
    Sum(Filter(es, IsSide(side)), Amount)
  }

  function DebitTotal(es: seq<Entry>): Cents
  {
    SideTotal(es, Debit)
  }

  function CreditTotal(es: seq<Entry>): Cents
  {
    SideTotal(es, Credit)
  }

  /** Debits count positively and credits negatively. */
  function Signed(e: Entry): int
  {
    if e.entryType == Debit then e.amount else -e.amount
  }

  /**
   * The two side totals, taken together, split the entries: the net of the
   * signed amounts is debits minus credits, and the two add up to all amounts.
   */
  lemma {:induction false} SideTotalsSplit(es: seq<Entry>)
    ensures Sum(es, Signed) == DebitTotal(es) - CreditTotal(es)
    ensures Sum(es, Amount) == DebitTotal(es) + CreditTotal(es)
  {
    if es != [] {
      SideTotalsSplit(es[1..]);
      var e := es[0];
      assert Filter(es, IsSide(Debit)) == (if e.entryType == Debit then [e] else []) + Filter(es[1..], IsSide(Debit));
      assert Filter(es, IsSide(Credit)) == (if e.entryType == Credit then [e] else []) + Filter(es[1..], IsSide(Credit));
      SumAppend(if e.entryType == Debit then [e] else [], Filter(es[1..], IsSide(Debit)), Amount);
      SumAppend(if e.entryType == Credit then [e] else [], Filter(es[1..], IsSide(Credit)), Amount);
    }
  }

  predicate Balanced(es: seq<Entry>)
  {
    DebitTotal(es) == CreditTotal(es)
  }

  /** Balanced means the signed amounts cancel out. */
  lemma BalancedIffNetZero(es: seq<Entry>)
    ensures Balanced(es) <==> Sum(es, Signed) == 0
  {
    SideTotalsSplit(es);
  }

  // ---------------------------------------------------------------------------
  // Transaction.clean

  const UnbalancedMessage: string := "Debit and credit totals must be equal"

  /** Python truthiness of the primary key: an unsaved row (or a pk of 0) is skipped. */
  predicate HasPk(t: Transaction)
  {
    t.pk.Some? && t.pk.value != 0
  }

  /** `Transaction.clean`: raises a ValidationError when a saved transaction's debits and credits differ. */
  function Clean(t: Transaction): (r: Result<(), string>)
    ensures r.Err? ==> r.error == UnbalancedMessage
  {
    if HasPk(t) && DebitTotal(t.entries) != CreditTotal(t.entries) then Err(UnbalancedMessage)
    else Ok(())
  }

  /** `clean` raises exactly for a saved transaction whose signed entry amounts do not cancel. */
  lemma CleanRaisesIff(t: Transaction)
    ensures Clean(t).Err? <==> HasPk(t) && Sum(t.entries, Signed) != 0
    ensures !HasPk(t) ==> Clean(t) == Ok(())
  {
    BalancedIffNetZero(t.entries);
  }

  /** A transaction without entries is balanced: both empty sides count as 0. */
  lemma EmptyIsClean(t: Transaction)
    requires t.entries == []
    ensures Clean(t) == Ok(())
  {
  }

  // ---------------------------------------------------------------------------
  // Ordering of entries: `entry_type`, then the account's code.

  function CodeOf(codes: map<AccountId, string>, a: AccountId): string
  {
    if a in codes then codes[a] else ""
  }

  function EntryKey(codes: map<AccountId, string>): Entry -> Key
  {
    (e: Entry) => [EntryTypeValue(e.entryType), CodeOf(codes, e.account)]
  }

  /** The entries in the order the database returns them. */
  function OrderedEntries(es: seq<Entry>, codes: map<AccountId, string>): (r: seq<Entry>)
    ensures multiset(r) == multiset(es)
    ensures SortedBy(r, EntryKey(codes))
  {
    OrderBy(es, EntryKey(codes))
  }

  /** Since "credit" sorts before "debit", every credit entry precedes every debit entry. */
  lemma CreditsBeforeDebits(es: seq<Entry>, codes: map<AccountId, string>)
    requires SortedBy(es, EntryKey(codes))
    ensures forall i, j :: 0 <= i < j < |es| ==> !(es[i].entryType == Debit && es[j].entryType == Credit)
  {
    forall i, j | 0 <= i < j < |es| && es[i].entryType == Debit
      ensures es[j].entryType != Credit
    {
      assert KeyLe(EntryKey(codes)(es[i]), EntryKey(codes)(es[j]));
    }
  }

  // ---------------------------------------------------------------------------
  // The model instance that views and serializers change in place.

  class TransactionObject {
    var pk: Option<nat>
    var reference: string
    var date: Date
    var description: string
    var status: Status
    var totalAmount: Cents
    var createdBy: UserId
    var postedAt: Option<Timestamp>
    var postedBy: Option<UserId>
    var entries: seq<Entry>

    /** The row this instance currently holds. */
    function Snapshot(): Transaction
      reads this
    {
      Transaction(pk, reference, date, description, status, totalAmount, createdBy, postedAt, postedBy, entries)
    }

    /** An instance loaded from a row. */
    constructor Load(t: Transaction)
      ensures Snapshot() == t
    {
      pk, reference, date, description := t.pk, t.reference, t.date, t.description;
      status, totalAmount, createdBy := t.status, t.totalAmount, t.createdBy;
      postedAt, postedBy, entries := t.postedAt, t.postedBy, t.entries;
    }
  }
}
