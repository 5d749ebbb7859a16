/** `prepare_kb_data`: one knowledge-base object key per extracted record,
    named after the record's business identifier or, failing that, its index. */
module KnowledgeBase {
  import opened Values
  import opened Strings

  /** The field whose value names a record of this document type. */
  function IdField(docType: string): string {
    if docType == "orders" then "order_id"
    else if docType == "invoices" then "invoice_id"
    else "catalog_period"
  }

  /** The identifier used when the record has no identifying field. */
  function FallbackId(docType: string, i: nat): string {
    (if docType == "orders" then "order_"
     else if docType == "invoices" then "invoice_"
     else "catalog_") + NatToString(i)
  }

  /** `doc_id` for the record at index `i`: `.get` raises on a record that is
      not a dict, and `.replace` on a catalog period that is not a str.
      Spaces are replaced only in the catalog branch, which every type other
      than orders and invoices takes. */
  function DocId(docType: string, doc: Value, i: nat): (r: Result<string, Error>)
    ensures r.Err? <==>
      || !doc.Dict?
      || (docType != "orders" && docType != "invoices"
          && "catalog_period" in doc.fields && !doc.fields["catalog_period"].Str?)
    ensures docType != "orders" && docType != "invoices" && r.Ok? ==> ' ' !in r.value
  {
    if !doc.Dict? then Err(AttributeError("get"))
    else if docType == "orders" then Ok(Text(Get(doc.fields, "order_id", Str("order_" + NatToString(i)))))
    else if docType == "invoices" then Ok(Text(Get(doc.fields, "invoice_id", Str("invoice_" + NatToString(i)))))
    else
      match Get(doc.fields, "catalog_period", Str("catalog_" + NatToString(i)))
      case Str(period) => Ok(ReplaceSpaces(period))
      case _ => Err(AttributeError("replace"))
  }

  /** The object key a record is uploaded under. */
  function KbKey(docType: string, docId: string): string {
    "knowledge-base-data/" + docType + "/" + docId + ".json"
  }

  function KeyFor(docType: string, doc: Value, i: nat): Result<string, Error> {
    match DocId(docType, doc, i)
    case Ok(docId) => Ok(KbKey(docType, docId))
    case Err(e) => Err(e)
  }

  /** The uploaded keys, and the exception that stopped the loop, if any. */
  datatype KbOutcome = KbOutcome(uploaded: seq<string>, error: Option<Error>)

  /** What the loop of `prepare_kb_data` does on `records`: one key per record
      in order, stopping at the first record whose identifier raises. */
  function Prepared(docType: string, records: seq<Value>): (o: KbOutcome)
    ensures |o.uploaded| <= |records|
    ensures forall j :: 0 <= j < |o.uploaded| ==> KeyFor(docType, records[j], j) == Ok(o.uploaded[j])
    ensures o.error.None? ==> |o.uploaded| == |records|
    ensures o.error.Some? ==>
      |o.uploaded| < |records| && KeyFor(docType, records[|o.uploaded|], |o.uploaded|) == Err(o.error.value)
  {
    if records == [] then KbOutcome([], None)
    else
      var prev := Prepared(docType, records[..|records| - 1]);
      if prev.error.Some? then prev
      else
        match KeyFor(docType, records[|records| - 1], |records| - 1)
        case Err(e) => KbOutcome(prev.uploaded, Some(e))
        case Ok(key) => KbOutcome(prev.uploaded + [key], None)
  }

  /** Once a record has raised, later records change nothing. */
  lemma {:induction false} PreparedStopsAtFailure(docType: string, records: seq<Value>, n: nat)
    requires n <= |records|
    requires Prepared(docType, records[..n]).error.Some?
    ensures Prepared(docType, records) == Prepared(docType, records[..n])
    decreases |records| - n
  {
    if n < |records| {
      var front := records[..|records| - 1];
      assert front[..n] == records[..n];
      PreparedStopsAtFailure(docType, front, n);
    } else {
      assert records[..n] == records;
    }
  }

  /** `prepare_kb_data(extracted_data, doc_type)`: the keys uploaded, returned
      when every record has an identifier; otherwise the exception propagates
      after the keys before the failing record were uploaded. */
  method PrepareKbData(extractedData: seq<Value>, docType: string)
    returns (r: Result<seq<string>, Error>, uploaded: seq<string>)
    ensures Prepared(docType, extractedData) == KbOutcome(uploaded, if r.Err? then Some(r.error) else None)
    ensures r.Ok? ==> r.value == uploaded
  {
    uploaded := [];
    var i := 0;
    while i < |extractedData|
      invariant 0 <= i <= |extractedData|
      invariant Prepared(docType, extractedData[..i]) == KbOutcome(uploaded, None)
    {
      var doc := extractedData[i];
      assert extractedData[..i + 1][..i] == extractedData[..i];
      var docId := DocId(docType, doc, i);
      if docId.Err? {
        PreparedStopsAtFailure(docType, extractedData, i + 1);
        return Err(docId.error), uploaded;
      }
      var s3Key := KbKey(docType, docId.value);
      uploaded := uploaded + [s3Key];
      i := i + 1;
    }
    assert extractedData[..i] == extractedData;
    r := Ok(uploaded);
  }

  // ---------------------------------------------------------------------------
  // Properties of identifier and key derivation

  /** An absent identifying field gives `{type}_{i}`, for catalogs too. */
  lemma FallbackWhenAbsent(docType: string, fields: map<string, Value>, text: string, i: nat)
    requires IdField(docType) !in fields
    ensures DocId(docType, Dict(fields, text), i) == Ok(FallbackId(docType, i))
  {
    if docType != "orders" && docType != "invoices" {
      ReplaceSpacesKeepsSpaceFree("catalog_" + NatToString(i));
    }
  }

  /** A present identifying field is used as it is for orders and invoices,
      whatever its value (an empty string or one with spaces included). */
  lemma OrderAndInvoiceIdsVerbatim(docType: string, fields: map<string, Value>, text: string, i: nat)
    requires docType == "orders" || docType == "invoices"
    requires IdField(docType) in fields
    ensures DocId(docType, Dict(fields, text), i) == Ok(Text(fields[IdField(docType)]))
  {
  }

  /** A present catalog period that is a str has its spaces replaced by '_'. */
  lemma CatalogPeriodNormalised(docType: string, fields: map<string, Value>, text: string, i: nat, period: string)
    requires docType != "orders" && docType != "invoices"
    requires "catalog_period" in fields && fields["catalog_period"] == Str(period)
    ensures DocId(docType, Dict(fields, text), i) == Ok(ReplaceSpaces(period))
  {
  }

  /** Fallback identifiers of different indexes differ. */
  lemma FallbackIdsDistinct(docType: string, i: nat, j: nat)
    requires FallbackId(docType, i) == FallbackId(docType, j)
    ensures i == j
  {
    var stem := FallbackId(docType, 0)[..|FallbackId(docType, 0)| - 1];
    assert FallbackId(docType, i) == stem + NatToString(i);
    assert FallbackId(docType, j) == stem + NatToString(j);
    assert NatToString(i) == FallbackId(docType, i)[|stem|..];
    NatToStringInjective(i, j);
  }

  /** Within one document type, the key determines the identifier: two
      records share a key (and the later upload overwrites the earlier)
      exactly when their identifiers are equal. */
  lemma KbKeyInjective(docType: string, id1: string, id2: string)
    requires KbKey(docType, id1) == KbKey(docType, id2)
    ensures id1 == id2
  {
    var head := "knowledge-base-data/" + docType + "/";
    assert KbKey(docType, id1) == head + id1 + ".json";
    assert KbKey(docType, id2) == head + id2 + ".json";
    assert id1 == KbKey(docType, id1)[|head|..|head| + |id1|];
  }

  /** For orders and invoices, every dict record gets a key: the loop never stops early. */
  lemma OrdersAndInvoicesNeverRaiseOnDicts(docType: string, records: seq<Value>)
    requires docType == "orders" || docType == "invoices"
    requires forall j :: 0 <= j < |records| ==> records[j].Dict?
    ensures Prepared(docType, records).error.None?
    ensures |Prepared(docType, records).uploaded| == |records|
  {
  }

  /** A catalog whose period is "Q1 2024" is uploaded as
      `knowledge-base-data/catalogs/Q1_2024.json`. */
  lemma CatalogScenario(products: Value, text: string)
    ensures KeyFor("catalogs", Dict(map["catalog_period" := Str("Q1 2024"), "products" := products], text), 0)
         == Ok("knowledge-base-data/catalogs/Q1_2024.json")
  {
    var fields := map["catalog_period" := Str("Q1 2024"), "products" := products];
    assert "catalog_period" in fields && fields["catalog_period"] == Str("Q1 2024");
    var doc := Dict(fields, text);
    CatalogPeriodNormalised("catalogs", fields, text, 0, "Q1 2024");
    PeriodWithSpace();
    assert DocId("catalogs", doc, 0) == Ok("Q1_2024");
    assert KeyFor("catalogs", doc, 0) == Ok(KbKey("catalogs", "Q1_2024"));
    assert KbKey("catalogs", "Q1_2024") == "knowledge-base-data/catalogs/Q1_2024.json";
  }

  lemma PeriodWithSpace()
    ensures ReplaceSpaces("Q1 2024") == "Q1_2024"
  {
    var period := "Q1 2024";
    var r := ReplaceSpaces(period);
    assert forall k :: 0 <= k < |period| ==> r[k] == "Q1_2024"[k];
  }

  /** Identifiers are not unique within a batch: a present `order_id` can equal
      the fallback of a later record, and both map to one key. */
  lemma KeysCanCollide(total: Value, t0: string, t1: string)
    ensures KeyFor("orders", Dict(map["order_id" := Str("order_1")], t0), 0)
         == KeyFor("orders", Dict(map["total" := total], t1), 1)
  {
    assert NatToString(1) == "1";
    assert FallbackId("orders", 1) == "order_1";
    FallbackWhenAbsent("orders", map["total" := total], t1, 1);
    OrderAndInvoiceIdsVerbatim("orders", map["order_id" := Str("order_1")], t0, 0);
  }
}
