/**
 * `TransactionSerializer.create` and `.update`: how a transaction and its
 * entry rows are written from validated request data. Create inserts the
 * transaction, stamped with the requesting user, and then one entry per
 * item; update assigns every field present, saves, and replaces the whole
 * entry set only when an entries list was supplied.
 *
 * The entry rows of a transaction are held in its `entries` field, so the
 * link of each created entry to its transaction is the containment itself.
 */
module TransactionSerializers {
  import opened Basics
  import opened TransactionModels

  /** One validated item of the nested `entries` list. */
  datatype EntryData = EntryData(account: AccountId, entryType: EntryType, amount: Cents, description: string)

  /** The row `TransactionEntry.objects.create(**entry_data)` inserts. */
  function ToEntry(d: EntryData): (e: Entry)
    ensures e.account == d.account && e.entryType == d.entryType
    ensures e.amount == d.amount && e.description == d.description
  {
    Entry(d.account, d.entryType, d.amount, d.description)
  }

  /** The rows inserted for a list of items, in list order. */
  function ToEntries(ds: seq<EntryData>): (es: seq<Entry>)
    ensures |es| == |ds|
    ensures forall i :: 0 <= i < |ds| ==> es[i] == ToEntry(ds[i])
  {
    seq(|ds|, i requires 0 <= i < |ds| => ToEntry(ds[i]))
  }

  // ---------------------------------------------------------------------------
  // create

  /**
   * The validated data of a create request. `status` may be left out (it
   * has a default); `created_by`, `posted_by` and `posted_at` are read-only
   * and never part of it.
   */
  datatype CreateData = CreateData(
    reference: string,
    date: Date,
    description: string,
    status: Option<Status>,
    totalAmount: Cents,
    entries: seq<EntryData>)

  /** The transaction row `Transaction.objects.create(...)` inserts under primary key `pk`, before any entry. */
  function CreatedRow(data: CreateData, user: UserId, pk: nat): (t: Transaction)
    ensures t.createdBy == user && t.pk == Some(pk) && t.entries == []
    ensures t.postedAt == None && t.postedBy == None
    ensures t.status == (if data.status.Some? then data.status.value else Draft)
  {
    var t := NewTransaction(data.reference, data.date, data.description, data.totalAmount, user);
    t.(pk := Some(pk), status := if data.status.Some? then data.status.value else t.status)
  }

  /** The transaction as `create` leaves it: the inserted row holding one entry per item. */
  function Created(data: CreateData, user: UserId, pk: nat): Transaction
  {
    CreatedRow(data, user, pk).(entries := ToEntries(data.entries))
  }

  /**
   * `create` stamps the requesting user, takes every writable field from the
   * data, leaves the posting stamps empty, and inserts exactly one entry per
   * item, in order.
   */
  lemma CreatedContents(data: CreateData, user: UserId, pk: nat)
    ensures var t := Created(data, user, pk);
      && t.createdBy == user && t.pk == Some(pk)
      && t.reference == data.reference && t.date == data.date && t.description == data.description
      && t.totalAmount == data.totalAmount
      && t.status == (if data.status.Some? then data.status.value else DefaultStatus)
      && t.postedAt == None && t.postedBy == None
      && |t.entries| == |data.entries|
      && forall i :: 0 <= i < |data.entries| ==> t.entries[i] == ToEntry(data.entries[i])
  {
  }

  /** An item passed the entry serializer's field validators: the amount's minimum and digits, the description's length. */
  predicate EntryDataValid(d: EntryData)
  {
    AmountValid(d.amount) && |d.description| <= 255
  }

  /** The create data passed the field validators the serializer takes from the model. */
  predicate CreateDataValid(data: CreateData)
  {
    && 1 <= |data.reference| <= 50
    && 1 <= |data.description|
    && AmountValid(data.totalAmount)
    && forall i :: 0 <= i < |data.entries| ==> EntryDataValid(data.entries[i])
  }

  /**
   * The row `create` writes satisfies the model's field constraints exactly
   * when the data passed the serializer's validators: a total and entry
   * amounts of at least one cent, within the digits, and texts within their lengths.
   */
  lemma CreatedFieldsValid(data: CreateData, user: UserId, pk: nat)
    ensures TransactionFieldsValid(Created(data, user, pk)) <==> CreateDataValid(data)
  {
    var t := Created(data, user, pk);
    if TransactionFieldsValid(t) {
      forall i | 0 <= i < |data.entries| ensures EntryDataValid(data.entries[i]) {
        assert EntryFieldsValid(t.entries[i]);
      }
    }
  }

  /** `create` does not check the totals: a created transaction can fail `clean`. */
  lemma CreateDoesNotCheckBalance(user: UserId)
    ensures var data := CreateData("R1", Date(2024, 1, 1), "d", None, 100, [EntryData(1, Debit, 100, "")]);
      Clean(Created(data, user, 1)) == Err(UnbalancedMessage)
  {
    var data := CreateData("R1", Date(2024, 1, 1), "d", None, 100, [EntryData(1, Debit, 100, "")]);
    var es := Created(data, user, 1).entries;
    assert es == [Entry(1, Debit, 100, "")];
    assert Filter(es, IsSide(Debit)) == es;
    assert Filter(es, IsSide(Credit)) == [];
  }

  /** `TransactionSerializer.create`; `pk` is the primary key the database assigns. */
  method Create(data: CreateData, user: UserId, pk: nat) returns (obj: TransactionObject)
    ensures fresh(obj)
    ensures obj.Snapshot() == Created(data, user, pk)
  {
    obj := new TransactionObject.Load(CreatedRow(data, user, pk));
    for i := 0 to |data.entries|
      invariant obj.Snapshot() == CreatedRow(data, user, pk).(entries := ToEntries(data.entries[..i]))
    {
      obj.entries := obj.entries + [ToEntry(data.entries[i])];
    }
    assert data.entries[..|data.entries|] == data.entries;
  }

  // ---------------------------------------------------------------------------
  // update

  /** The writable fields of the serializer (`entries` is handled apart). */
  datatype Field = Reference | DateField | Description | StatusField | TotalAmount

  /** One item of `validated_data.items()`: a writable field and its new value. */
  datatype Assignment =
    | SetReference(reference: string)
    | SetDate(date: Date)
    | SetDescription(description: string)
    | SetStatus(status: Status)
    | SetTotalAmount(totalAmount: Cents)

  function FieldOf(a: Assignment): Field
  {
    match a
    case SetReference(_) => Reference
    case SetDate(_) => DateField
    case SetDescription(_) => Description
    case SetStatus(_) => StatusField
    case SetTotalAmount(_) => TotalAmount
  }

  /** A dictionary has each key once. */
  predicate FieldsDistinct(items: seq<Assignment>)
  {
    forall i, j :: 0 <= i < j < |items| ==> FieldOf(items[i]) != FieldOf(items[j])
  }

  /** `setattr(instance, attr, value)`. */
  function Assign(t: Transaction, a: Assignment): Transaction
  {
    match a
    case SetReference(v) => t.(reference := v)
    case SetDate(v) => t.(date := v)
    case SetDescription(v) => t.(description := v)
    case SetStatus(v) => t.(status := v)
    case SetTotalAmount(v) => t.(totalAmount := v)
  }

  /** The `setattr` loop: the items assigned in order. */
  function AssignAll(t: Transaction, items: seq<Assignment>): Transaction
  {
    if items == [] then t else Assign(AssignAll(t, items[..|items| - 1]), items[|items| - 1])
  }

  /** The row `update` leaves: the fields assigned, then the entries replaced when a list was given. */
  function Updated(t: Transaction, items: seq<Assignment>, entries: Option<seq<EntryData>>): Transaction
  {
    var u := AssignAll(t, items);
    if entries.Some? then u.(entries := ToEntries(entries.value)) else u
  }

  /** The value a field holds in a row, as an assignment that would put it there. */
  function ValueOf(t: Transaction, f: Field): Assignment
  {
    match f
    case Reference => SetReference(t.reference)
    case DateField => SetDate(t.date)
    case Description => SetDescription(t.description)
    case StatusField => SetStatus(t.status)
    case TotalAmount => SetTotalAmount(t.totalAmount)
  }

  /**
   * The `setattr` loop overwrites every field present in the data with its
   * value, leaves every absent field as it was, and never touches the
   * primary key, the entries, or the read-only `created_by`, `posted_by` and
   * `posted_at`.
   */
  lemma {:induction false} AssignAllFields(t: Transaction, items: seq<Assignment>)
    requires FieldsDistinct(items)
    ensures var u := AssignAll(t, items);
      && (forall i :: 0 <= i < |items| ==> ValueOf(u, FieldOf(items[i])) == items[i])
      && (forall f: Field :: (forall i :: 0 <= i < |items| ==> FieldOf(items[i]) != f) ==> ValueOf(u, f) == ValueOf(t, f))
      && u.pk == t.pk && u.entries == t.entries
      && u.createdBy == t.createdBy && u.postedBy == t.postedBy && u.postedAt == t.postedAt
  {
    if items != [] {
      var front := items[..|items| - 1];
      var last := items[|items| - 1];
      assert FieldsDistinct(front);
      AssignAllFields(t, front);
      var v := AssignAll(t, front);
      forall i | 0 <= i < |items| ensures ValueOf(AssignAll(t, items), FieldOf(items[i])) == items[i] {
        if i < |items| - 1 {
          assert items[i] == front[i];
          assert FieldOf(items[i]) != FieldOf(last);
        }
      }
    }
  }

  /**
   * What `update` promises: present fields overwritten, absent ones kept,
   * the read-only fields kept; without an entries list the entries are kept,
   * with one they are exactly the supplied items.
   */
  lemma UpdatedContents(t: Transaction, items: seq<Assignment>, entries: Option<seq<EntryData>>)
    requires FieldsDistinct(items)
    ensures var u := Updated(t, items, entries);
      && (forall i :: 0 <= i < |items| ==> ValueOf(u, FieldOf(items[i])) == items[i])
      && (forall f: Field :: (forall i :: 0 <= i < |items| ==> FieldOf(items[i]) != f) ==> ValueOf(u, f) == ValueOf(t, f))
      && u.pk == t.pk && u.createdBy == t.createdBy && u.postedBy == t.postedBy && u.postedAt == t.postedAt
      && (entries.None? ==> u.entries == t.entries)
      && (entries.Some? ==> u.entries == ToEntries(entries.value))
  {
    AssignAllFields(t, items);
  }

  /** An assigned value passed its field's validators. */
  predicate AssignmentValid(a: Assignment)
  {
    match a
    case SetReference(v) => 1 <= |v| <= 50
    case SetDate(_) => true
    case SetDescription(v) => 1 <= |v|
    case SetStatus(_) => true
    case SetTotalAmount(v) => AmountValid(v)
  }

  lemma {:induction false} AssignAllKeepsFieldsValid(t: Transaction, items: seq<Assignment>)
    requires TransactionFieldsValid(t)
    requires forall i :: 0 <= i < |items| ==> AssignmentValid(items[i])
    ensures TransactionFieldsValid(AssignAll(t, items))
  {
    if items != [] {
      AssignAllKeepsFieldsValid(t, items[..|items| - 1]);
      assert AssignmentValid(items[|items| - 1]);
    }
  }

  /**
   * `update` with validated data keeps a row within the model's field
   * constraints: every assigned value and every new entry passed its validators.
   */
  lemma UpdatedKeepsFieldsValid(t: Transaction, items: seq<Assignment>, entries: Option<seq<EntryData>>)
    requires TransactionFieldsValid(t)
    requires forall i :: 0 <= i < |items| ==> AssignmentValid(items[i])
    requires entries.Some? ==> forall i :: 0 <= i < |entries.value| ==> EntryDataValid(entries.value[i])
    ensures TransactionFieldsValid(Updated(t, items, entries))
  {
    AssignAllKeepsFieldsValid(t, items);
  }

  /** An empty entries list leaves the transaction with no entries at all. */
  lemma UpdateWithNoEntries(t: Transaction, items: seq<Assignment>)
    ensures Updated(t, items, Some([])).entries == []
  {
  }

  /**
   * `update` checks no status: a posted transaction can be given unbalanced
   * entries and moved back to draft, which neither status action allows.
   */
  lemma UpdateIgnoresStatus(t: Transaction)
    requires t.status == Posted
    ensures var u := Updated(t, [SetStatus(Draft)], Some([EntryData(1, Debit, 1, "")]));
      u.status == Draft && !Balanced(u.entries)
  {
    var u := Updated(t, [SetStatus(Draft)], Some([EntryData(1, Debit, 1, "")]));
    assert [SetStatus(Draft)][..0] == [];
    assert u.entries == [Entry(1, Debit, 1, "")];
    assert Filter(u.entries, IsSide(Debit)) == u.entries;
    assert Filter(u.entries, IsSide(Credit)) == [];
  }

  /** `TransactionSerializer.update` on the loaded instance. */
  method Update(obj: TransactionObject, items: seq<Assignment>, entries: Option<seq<EntryData>>)
    modifies obj
    ensures obj.Snapshot() == Updated(old(obj.Snapshot()), items, entries)
  {
    ghost var t := obj.Snapshot();
    for i := 0 to |items|
      invariant obj.Snapshot() == AssignAll(t, items[..i])
    {
      assert items[..i + 1][..i] == items[..i];
      match items[i]
      case SetReference(v) => obj.reference := v;
      case SetDate(v) => obj.date := v;
      case SetDescription(v) => obj.description := v;
      case SetStatus(v) => obj.status := v;
      case SetTotalAmount(v) => obj.totalAmount := v;
    }
    assert items[..|items|] == items;
    if entries.Some? {
      var ds := entries.value;
      obj.entries := [];
      for i := 0 to |ds|
        invariant obj.Snapshot() == AssignAll(t, items).(entries := ToEntries(ds[..i]))
      {
        obj.entries := obj.entries + [ToEntry(ds[i])];
      }
      assert ds[..|ds|] == ds;
    }
  }
}
