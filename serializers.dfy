/** The serializers module next to the models: the same `InvoiceSerializer`
    fields and partial update, over the same instance model. */
module Serializers {
  import opened Models
  import InvoicingSerializers

  /** `Meta.fields` of `InvoiceSerializer`. */
  const InvoiceFields: seq<string> := ["url", "customer", "amount", "date", "status"]

  /** `Meta.fields` of `CustomerSerializer`. */
  const CustomerFields: seq<string> := ["url", "user", "name", "email", "image"]

  /** Both serializer modules expose the same invoice and customer fields. */
  lemma SameInvoiceFields()
    ensures InvoiceFields == InvoicingSerializers.InvoiceFields
    ensures CustomerFields == InvoicingSerializers.CustomerFields
    ensures InvoicingSerializers.UpdatedFields == (set f | f in InvoiceFields) - {"url"}
  {
    InvoicingSerializers.UpdatedFieldsAreExposed();
  }

  /** `InvoiceSerializer.update`: the same field-by-field assignment and save. */
  method Update(instance: InvoicingSerializers.InvoiceInstance, data: InvoicingSerializers.ValidatedData)
    returns (r: InvoicingSerializers.InvoiceInstance)
    requires InvoicingSerializers.WellTyped(data)
    modifies instance
    ensures r == instance
    ensures instance.Fields() == InvoicingSerializers.ApplyUpdate(old(instance.Fields()), data)
    ensures instance.stored == instance.Fields()
    ensures instance.id == old(instance.id)
  {
    instance.customer := InvoicingSerializers.CustomerOr(data, instance.customer);
    instance.amount := InvoicingSerializers.AmountOr(data, instance.amount);
    instance.date := InvoicingSerializers.DateOr(data, instance.date);
    instance.status := InvoicingSerializers.StatusOr(data, instance.status);
    instance.Save();
    r := instance;
  }
}
