/** `process_documents`: list one category's documents, keep the PDFs, run one
    extraction per document and collect the truthy results, absorbing every
    per-document failure. */
module Orchestrator {
  import opened Values
  import opened Strings
  import opened Registry
  import opened Extraction

  const S3Bucket: string := "team-databucketforknowledge-c3qkrlx6wk6l"
  const S3Prefix: string := "pet-store-data-extraction/"

  /** The external services, as functions of their inputs. */
  datatype Services = Services(
    listObjects: string -> seq<string>,     // the object keys listed under a prefix, in listing order
    download: string -> bool,               // false when downloading the key raises
    extract: (string, Schema) -> Outcome)   // the extraction service run on the downloaded document

  /** The calls the core makes to the external services, in order. */
  datatype Call =
    | ListObjects(bucket: string, prefix: string)
    | Download(bucket: string, key: string, localPath: string)
    | Extract(localPath: string, schema: Schema)

  function ListPrefix(prefix: string): string {
    S3Prefix + prefix + "/"
  }

  predicate IsPdf(key: string) {
    EndsWith(key, ".pdf")
  }

  /** The listed keys ending in ".pdf", in listing order. */
  function PdfKeys(keys: seq<string>): (r: seq<string>)
    ensures |r| <= |keys|
    ensures forall k :: k in r <==> k in keys && IsPdf(k)
  {
    if keys == [] then []
    else
      var last := keys[|keys| - 1];
      PdfKeys(keys[..|keys| - 1]) + (if IsPdf(last) then [last] else [])
  }

  /** Where a document is downloaded to: `/tmp/` and the key's last segment. */
  function LocalPath(key: string): string {
    "/tmp/" + LastSegment(key)
  }

  /** What one document contributes: its extracted data, unless the download
      raised or the data is falsy. */
  function DocResult(s: Services, schema: Schema, key: string): (r: Option<Value>)
    ensures r.Some? <==> s.download(key) && s.extract(key, schema).Returned?
                         && Truthy(Unwrap(s.extract(key, schema).response))
    ensures r.Some? ==> r.value == Unwrap(s.extract(key, schema).response)
  {
    if !s.download(key) then None
    else
      var data := ExtractDocument(s.extract(key, schema));
      if Truthy(data) then Some(data) else None
  }

  function Kept(o: Option<Value>): seq<Value> {
    match o
    case None => []
    case Some(v) => [v]
  }

  /** `extracted_data` after the loop has processed `keys`. */
  function Extracted(s: Services, schema: Schema, keys: seq<string>): (r: seq<Value>)
    ensures |r| <= |keys|
    ensures forall v :: v in r ==> Truthy(v)
  {
    if keys == [] then []
    else Extracted(s, schema, keys[..|keys| - 1]) + Kept(DocResult(s, schema, keys[|keys| - 1]))
  }

  /** The service calls made for one document. */
  function DocCalls(s: Services, schema: Schema, key: string): seq<Call> {
    [Download(S3Bucket, key, LocalPath(key))]
    + (if s.download(key) then [Extract(LocalPath(key), schema)] else [])
  }

  /** The service calls the loop makes for `keys`. */
  function Calls(s: Services, schema: Schema, keys: seq<string>): seq<Call> {
    if keys == [] then []
    else Calls(s, schema, keys[..|keys| - 1]) + DocCalls(s, schema, keys[|keys| - 1])
  }

  /** `process_documents(doc_type, prefix)`: the extracted records and the
      service calls made. The schema lookup comes first, so an unknown
      document type raises before anything is listed. */
  method ProcessDocuments(docType: string, prefix: string, s: Services)
    returns (r: Result<seq<Value>, Error>, calls: seq<Call>)
    ensures SchemaFor(docType).Err? ==> r == Err(KeyError(docType)) && calls == []
    ensures SchemaFor(docType).Ok? ==>
      var docs := PdfKeys(s.listObjects(ListPrefix(prefix)));
      && r == Ok(Extracted(s, SchemaFor(docType).value, docs))
      && calls == [ListObjects(S3Bucket, ListPrefix(prefix))] + Calls(s, SchemaFor(docType).value, docs)
  {
    var lookup := SchemaFor(docType);
    if lookup.Err? {
      return Err(lookup.error), [];
    }
    var schema := lookup.value;
    var listPrefix := ListPrefix(prefix);
    calls := [ListObjects(S3Bucket, listPrefix)];
    var documents := PdfKeys(s.listObjects(listPrefix));
    var extractedData: seq<Value> := [];
    var i := 0;
    while i < |documents|
      invariant 0 <= i <= |documents|
      invariant extractedData == Extracted(s, schema, documents[..i])
      invariant calls == [ListObjects(S3Bucket, listPrefix)] + Calls(s, schema, documents[..i])
    {
      var docKey := documents[i];
      var localPath := LocalPath(docKey);
      assert documents[..i + 1][..i] == documents[..i];
      calls := calls + [Download(S3Bucket, docKey, localPath)];
      if s.download(docKey) {
        calls := calls + [Extract(localPath, schema)];
        var data := ExtractDocument(s.extract(docKey, schema));
        if Truthy(data) {
          extractedData := extractedData + [data];
        }
      }
      i := i + 1;
    }
    assert documents[..i] == documents;
    r := Ok(extractedData);
  }

  // ---------------------------------------------------------------------------
  // Properties of the batch loop

  /** Filtering keeps listing order: the PDFs of a concatenation are the
      concatenation of the PDFs. */
  lemma {:induction false} PdfKeysAppend(a: seq<string>, b: seq<string>)
    ensures PdfKeys(a + b) == PdfKeys(a) + PdfKeys(b)
  {
    if b == [] {
      assert a + b == a;
    } else {
      assert (a + b)[..|a + b| - 1] == a + b[..|b| - 1];
      PdfKeysAppend(a, b[..|b| - 1]);
    }
  }

  /** Each document's contribution depends on that document alone. */
  lemma {:induction false} ExtractedAppend(s: Services, schema: Schema, a: seq<string>, b: seq<string>)
    ensures Extracted(s, schema, a + b) == Extracted(s, schema, a) + Extracted(s, schema, b)
  {
    if b == [] {
      assert a + b == a;
    } else {
      assert (a + b)[..|a + b| - 1] == a + b[..|b| - 1];
      ExtractedAppend(s, schema, a, b[..|b| - 1]);
    }
  }

  lemma {:induction false} CallsAppend(s: Services, schema: Schema, a: seq<string>, b: seq<string>)
    ensures Calls(s, schema, a + b) == Calls(s, schema, a) + Calls(s, schema, b)
  {
    if b == [] {
      assert a + b == a;
    } else {
      assert (a + b)[..|a + b| - 1] == a + b[..|b| - 1];
      CallsAppend(s, schema, a, b[..|b| - 1]);
    }
  }

  /** A document that fails (download exception, extraction exception, falsy
      data) drops only itself: the records of the documents around it are
      unchanged. */
  lemma FailureIsolation(s: Services, schema: Schema, before: seq<string>, key: string, after: seq<string>)
    requires DocResult(s, schema, key).None?
    ensures Extracted(s, schema, before + [key] + after) == Extracted(s, schema, before) + Extracted(s, schema, after)
  {
    var none := Extracted(s, schema, [key]);
    assert [key][..0] == [];
    assert none == [];
    var a := Extracted(s, schema, before);
    var b := Extracted(s, schema, after);
    ExtractedAppend(s, schema, before + [key], after);
    ExtractedAppend(s, schema, before, [key]);
  }

  /** The calls for a document never depend on what happened to the documents
      before it: every later document is still attempted. */
  lemma LaterDocumentsAttempted(s: Services, schema: Schema, before: seq<string>, key: string, after: seq<string>)
    ensures Calls(s, schema, before + [key] + after)
         == Calls(s, schema, before) + DocCalls(s, schema, key) + Calls(s, schema, after)
  {
    assert [key][..0] == [];
    assert Calls(s, schema, [key]) == DocCalls(s, schema, key);
    CallsAppend(s, schema, before + [key], after);
    CallsAppend(s, schema, before, [key]);
  }

  /** The keys of the downloads in a call log. */
  function DownloadedKeys(calls: seq<Call>): seq<string> {
    if calls == [] then []
    else (if calls[0].Download? then [calls[0].key] else []) + DownloadedKeys(calls[1..])
  }

  lemma {:induction false} DownloadedKeysAppend(a: seq<Call>, b: seq<Call>)
    ensures DownloadedKeys(a + b) == DownloadedKeys(a) + DownloadedKeys(b)
  {
    if a == [] {
      assert a + b == b;
    } else {
      assert (a + b)[0] == a[0];
      assert (a + b)[1..] == a[1..] + b;
      DownloadedKeysAppend(a[1..], b);
    }
  }

  /** Every PDF key is downloaded exactly once, in listing order, whatever
      happened to the documents before it. */
  lemma {:induction false} EveryDocumentAttempted(s: Services, schema: Schema, keys: seq<string>)
    ensures DownloadedKeys(Calls(s, schema, keys)) == keys
  {
    if keys != [] {
      var front, last := keys[..|keys| - 1], keys[|keys| - 1];
      EveryDocumentAttempted(s, schema, front);
      DownloadedKeysAppend(Calls(s, schema, front), DocCalls(s, schema, last));
      var d := DocCalls(s, schema, last);
      assert d[1..] == (if s.download(last) then [Extract(LocalPath(last), schema)] else []);
      assert DownloadedKeys(d[1..]) == [];
      assert DownloadedKeys(d) == [last];
      assert keys == front + [last];
    }
  }

  /** A reference definition: keep the present per-document results, in order. */
  function KeptResults(results: seq<Option<Value>>): seq<Value> {
    if results == [] then [] else Kept(results[0]) + KeptResults(results[1..])
  }

  function Results(s: Services, schema: Schema, keys: seq<string>): (r: seq<Option<Value>>)
    ensures |r| == |keys|
  {
    seq(|keys|, i requires 0 <= i < |keys| => DocResult(s, schema, keys[i]))
  }

  lemma {:induction false} KeptResultsSnoc(results: seq<Option<Value>>, o: Option<Value>)
    ensures KeptResults(results + [o]) == KeptResults(results) + Kept(o)
  {
    if results == [] {
      assert [] + [o] == [o];
      assert [o][1..] == [];
    } else {
      assert (results + [o])[1..] == results[1..] + [o];
      KeptResultsSnoc(results[1..], o);
    }
  }

  /** The returned list is exactly the in-order subsequence of the present
      per-document results. */
  lemma {:induction false} ExtractedIsKeptResults(s: Services, schema: Schema, keys: seq<string>)
    ensures Extracted(s, schema, keys) == KeptResults(Results(s, schema, keys))
  {
    if keys != [] {
      var front := keys[..|keys| - 1];
      ExtractedIsKeptResults(s, schema, front);
      assert Results(s, schema, keys) == Results(s, schema, front) + [DocResult(s, schema, keys[|keys| - 1])];
      KeptResultsSnoc(Results(s, schema, front), DocResult(s, schema, keys[|keys| - 1]));
    }
  }

  /** When every document succeeds, there is one record per document, in order. */
  lemma {:induction false} AllSucceed(s: Services, schema: Schema, keys: seq<string>)
    requires forall i :: 0 <= i < |keys| ==> DocResult(s, schema, keys[i]).Some?
    ensures |Extracted(s, schema, keys)| == |keys|
    ensures forall i :: 0 <= i < |keys| ==> Extracted(s, schema, keys)[i] == DocResult(s, schema, keys[i]).value
  {
    if keys != [] {
      AllSucceed(s, schema, keys[..|keys| - 1]);
    }
  }

  /** Three documents of which the second fails: the first and the third are
      still extracted, and the third is still downloaded. */
  lemma SecondOfThreeFails(s: Services, schema: Schema, k1: string, k2: string, k3: string)
    requires DocResult(s, schema, k1).Some? && DocResult(s, schema, k3).Some?
    requires DocResult(s, schema, k2).None?
    ensures Extracted(s, schema, [k1, k2, k3])
         == [DocResult(s, schema, k1).value, DocResult(s, schema, k3).value]
    ensures DownloadedKeys(Calls(s, schema, [k1, k2, k3])) == [k1, k2, k3]
  {
    FailureIsolation(s, schema, [k1], k2, [k3]);
    assert [k1] + [k2] + [k3] == [k1, k2, k3];
    assert [k1][..0] == [] && [k3][..0] == [];
    EveryDocumentAttempted(s, schema, [k1, k2, k3]);
  }
}
