/** The category registry: `SCHEMAS`, a fixed table from document type to the
    schema the extraction service is driven with. */
module Registry {
  import opened Values

  /** The three extraction schemas, as opaque tags (their fields are not modelled). */
  datatype Schema = Order | Invoice | Catalog

  const Schemas: map<string, Schema> := map["orders" := Order, "invoices" := Invoice, "catalogs" := Catalog]

  /** `SCHEMAS[doc_type]`: raises KeyError for any other document type. */
  function SchemaFor(docType: string): (r: Result<Schema, Error>)
    ensures r.Ok? <==> docType == "orders" || docType == "invoices" || docType == "catalogs"
    ensures r.Err? ==> r.error == KeyError(docType)
    ensures docType == "orders" ==> r == Ok(Order)
    ensures docType == "invoices" ==> r == Ok(Invoice)
    ensures docType == "catalogs" ==> r == Ok(Catalog)
  {
    if docType in Schemas then Ok(Schemas[docType]) else Err(KeyError(docType))
  }
}
