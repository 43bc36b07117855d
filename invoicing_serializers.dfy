/** `InvoiceSerializer` of the serializers package: the exposed fields and
    the partial update of an invoice instance. */
module InvoicingSerializers {
  import opened Models

  /** `Meta.fields` of `InvoiceSerializer`. */
  const InvoiceFields: seq<string> := ["url", "customer", "amount", "date", "status"]

  /** `Meta.fields` of `CustomerSerializer`. */
  const CustomerFields: seq<string> := ["url", "user", "name", "email", "image"]

  /** The fields `update` assigns. "url" is the read-only hyperlink to the instance. */
  const UpdatedFields: set<string> := {"customer", "amount", "date", "status"}

  /** A validated value, typed by the field it belongs to. */
  datatype FieldValue =
    | CustomerValue(customer: Customer)
    | AmountValue(amount: int)
    | DateValue(date: DateTime)
    | StatusValue(status: string)

  /** `validated_data`: only the keys the client supplied. */
  type ValidatedData = map<string, FieldValue>

  /** Validation gives each invoice field a value of that field's type. */
  predicate WellTyped(data: ValidatedData)
  {
    && ("customer" in data ==> data["customer"].CustomerValue?)
    && ("amount" in data ==> data["amount"].AmountValue?)
    && ("date" in data ==> data["date"].DateValue?)
    && ("status" in data ==> data["status"].StatusValue?)
  }

  /** Every supplied invoice field satisfies the model's field constraints. */
  predicate ValidData(data: ValidatedData)
    requires WellTyped(data)
  {
    && ("customer" in data ==> ValidCustomer(data["customer"].customer))
    && ("amount" in data ==> AmountFits(data["amount"].amount))
    && ("date" in data ==> ValidDateTime(data["date"].date))
    && ("status" in data ==> ValidStatus(data["status"].status))
  }

  // `validated_data.get(key, default)` for each of the four fields.

  function CustomerOr(data: ValidatedData, default: Customer): Customer
    requires WellTyped(data)
  {
    if "customer" in data then data["customer"].customer else default
  }

  function AmountOr(data: ValidatedData, default: int): int
    requires WellTyped(data)
  {
    if "amount" in data then data["amount"].amount else default
  }

  function DateOr(data: ValidatedData, default: DateTime): DateTime
    requires WellTyped(data)
  {
    if "date" in data then data["date"].date else default
  }

  function StatusOr(data: ValidatedData, default: string): string
    requires WellTyped(data)
  {
    if "status" in data then data["status"].status else default
  }

  /** The invoice after the partial update: each field takes the supplied
      value when its key is present and keeps its old value otherwise. */
  function ApplyUpdate(inv: Invoice, data: ValidatedData): Invoice
    requires WellTyped(data)
  {
    Invoice(CustomerOr(data, inv.customer), AmountOr(data, inv.amount),
            DateOr(data, inv.date), StatusOr(data, inv.status))
  }

  /** Only the data restricted to the given keys. */
  function Restrict(data: ValidatedData, keys: set<string>): (r: ValidatedData)
    ensures forall k :: k in r <==> k in data && k in keys
    ensures forall k :: k in r ==> r[k] == data[k]
  {
    map k | k in data && k in keys :: data[k]
  }

  // ---------------------------------------------------------------------
  // Properties of the partial update
  // ---------------------------------------------------------------------

  /** A field changes only when its key is supplied, and a supplied key
      always sets the field to the supplied value. */
  lemma UpdateFieldwise(inv: Invoice, data: ValidatedData)
    requires WellTyped(data)
    ensures "customer" in data ==> ApplyUpdate(inv, data).customer == data["customer"].customer
    ensures "amount" in data ==> ApplyUpdate(inv, data).amount == data["amount"].amount
    ensures "date" in data ==> ApplyUpdate(inv, data).date == data["date"].date
    ensures "status" in data ==> ApplyUpdate(inv, data).status == data["status"].status
    ensures ApplyUpdate(inv, data).customer != inv.customer ==> "customer" in data
    ensures ApplyUpdate(inv, data).amount != inv.amount ==> "amount" in data
    ensures ApplyUpdate(inv, data).date != inv.date ==> "date" in data
    ensures ApplyUpdate(inv, data).status != inv.status ==> "status" in data
  {
  }

  /** No supplied field: the instance is unchanged. */
  lemma EmptyUpdateIsIdentity(inv: Invoice, data: ValidatedData)
    requires WellTyped(data)
    requires forall k :: k in data ==> k !in UpdatedFields
    ensures ApplyUpdate(inv, data) == inv
  {
    assert "customer" !in data && "amount" !in data && "date" !in data && "status" !in data;
  }

  /** Applying the same update twice is the same as applying it once. */
  lemma UpdateIdempotent(inv: Invoice, data: ValidatedData)
    requires WellTyped(data)
    ensures ApplyUpdate(ApplyUpdate(inv, data), data) == ApplyUpdate(inv, data)
  {
  }

  /** A key of a merged map takes the later map's value when it has one. */
  lemma MergeLookup(first: ValidatedData, second: ValidatedData, key: string)
    ensures key in first + second <==> key in first || key in second
    ensures key in second ==> (first + second)[key] == second[key]
    ensures key !in second && key in first ==> (first + second)[key] == first[key]
  {
  }

  /** Two updates in a row are one update with the later values winning. */
  lemma UpdateCompose(inv: Invoice, first: ValidatedData, second: ValidatedData)
    requires WellTyped(first) && WellTyped(second)
    ensures WellTyped(first + second)
    ensures ApplyUpdate(ApplyUpdate(inv, first), second) == ApplyUpdate(inv, first + second)
  {
    MergeLookup(first, second, "customer");
    MergeLookup(first, second, "amount");
    MergeLookup(first, second, "date");
    MergeLookup(first, second, "status");
  }

  /** Keys other than the four invoice fields have no effect. */
  lemma ExtraKeysIgnored(inv: Invoice, data: ValidatedData)
    requires WellTyped(data)
    ensures WellTyped(Restrict(data, UpdatedFields))
    ensures ApplyUpdate(inv, Restrict(data, UpdatedFields)) == ApplyUpdate(inv, data)
  {
  }

  /** A valid invoice updated with valid values stays valid. */
  lemma UpdateKeepsValid(inv: Invoice, data: ValidatedData)
    requires WellTyped(data) && ValidData(data) && ValidInvoice(inv)
    ensures ValidInvoice(ApplyUpdate(inv, data))
  {
  }

  /** Presence, not truthiness, decides: a zero amount or an empty status
      that is supplied overwrites the old value. */
  lemma FalsyValuesOverwrite(inv: Invoice)
    ensures WellTyped(map["amount" := AmountValue(0), "status" := StatusValue("")])
    ensures ApplyUpdate(inv, map["amount" := AmountValue(0), "status" := StatusValue("")])
      == Invoice(inv.customer, 0, inv.date, "")
  {
  }

  /** The assigned fields are the exposed fields except the hyperlink. */
  lemma UpdatedFieldsAreExposed()
    ensures UpdatedFields == (set f | f in InvoiceFields) - {"url"}
  {
    var exposed := set f | f in InvoiceFields;
    assert InvoiceFields[1] in InvoiceFields && InvoiceFields[2] in InvoiceFields;
    assert InvoiceFields[3] in InvoiceFields && InvoiceFields[4] in InvoiceFields;
    assert exposed == {"url", "customer", "amount", "date", "status"};
  }

  // ---------------------------------------------------------------------
  // The model instance and `update`
  // ---------------------------------------------------------------------

  /** An `Invoice` model instance: its primary key, its four fields, and the
      row last written to the database. */
  class InvoiceInstance {
    var id: nat
    var customer: Customer
    var amount: int
    var date: DateTime
    var status: string
    var stored: Invoice

    /** The instance's field values. */
    function Fields(): Invoice
      reads this
    {
      Invoice(customer, amount, date, status)
    }

    /** An instance loaded from the row `row` with primary key `id`. */
    constructor (id: nat, row: Invoice)
      ensures this.id == id && Fields() == row && stored == row
    {
      this.id := id;
      customer := row.customer;
      amount := row.amount;
      date := row.date;
      status := row.status;
      stored := row;
    }

    /** `save()`: writes the fields to the stored row. */
    method Save()
      modifies this
      ensures stored == Fields()
      ensures Fields() == old(Fields()) && id == old(id)
    {
      stored := Invoice(customer, amount, date, status);
    }
  }

  /** `InvoiceSerializer.update`: assigns the four fields from the validated
      data in turn, saves, and returns the same instance. */
  method Update(instance: InvoiceInstance, data: ValidatedData) returns (r: InvoiceInstance)
    requires WellTyped(data)
    modifies instance
    ensures r == instance
    ensures instance.Fields() == ApplyUpdate(old(instance.Fields()), data)
    ensures instance.stored == instance.Fields()
    ensures instance.id == old(instance.id)
  {
    instance.customer := CustomerOr(data, instance.customer);
    instance.amount := AmountOr(data, instance.amount);
    instance.date := DateOr(data, instance.date);
    instance.status := StatusOr(data, instance.status);
    instance.Save();
    r := instance;
  }
}
