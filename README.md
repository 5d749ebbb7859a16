# Document extraction pipeline: a verified model of its decision logic

The script `src/document-extraction/process_documents.py` reads business
documents (orders, invoices, catalogs) as PDFs from an S3 bucket. It sends
each one to the LlamaCloud extraction service with a per-category schema. Each
extracted record is then uploaded as its own JSON object, named after the
record's business identifier, for a knowledge base to ingest.

This project models the decision logic inside that transport code:

- **Category registry** (`Registry`): the `SCHEMAS` table maps `orders`,
  `invoices` and `catalogs` to a schema. Any other document type raises
  `KeyError`.
- **Result unwrapping** (`Extraction`): `extract_document` takes the response's
  `data` attribute if it has one. Otherwise it takes a dict's `"data"` entry,
  falling back to the dict itself. Any other response is used whole. Every
  exception becomes `None`.
- **Batch loop** (`Orchestrator`): `process_documents` looks up the schema
  before it lists anything. It keeps the listed keys that end in `.pdf`, in
  listing order, and downloads each one to `/tmp/` plus the key's last `/`
  segment. It then extracts each document and keeps only truthy results.
  A failure of one document drops that document and nothing else.
- **Identifier and key derivation** (`KnowledgeBase`): `prepare_kb_data`
  gives each record an id. The id is the record's `order_id`, `invoice_id` or
  `catalog_period` when that key is present. When it is absent, the id is
  `order_i`, `invoice_i` or `catalog_i`, where `i` is the record's index.
  Spaces become `_` only in ids of the catalog branch, which is taken by every
  type other than orders and invoices. The record is uploaded under
  `knowledge-base-data/{doc_type}/{doc_id}.json`.

Supporting modules: `Values` models the Python values the code inspects
(truthiness, `hasattr(..., 'data')`, `isinstance(..., dict)`, `dict.get`,
`str()`). `Strings` holds `str(i)`, `.replace(' ', '_')`,
`.split('/')[-1]` and `.endswith`.

The external services are parameters (`Orchestrator.Services`):
- the S3 listing is a function from prefix to keys;
- the S3 download is a function telling whether downloading a key completes;
- the LlamaCloud upload and extraction is a function from document and schema
  to either an exception (`Raised`) or a response.

`ProcessDocuments` also returns the sequence of service calls it makes
(`ListObjects`, `Download`, `Extract`). This makes the call order observable:
the lookup comes before the listing, and every document is attempted.

The two loops are methods with loop invariants. `ProcessDocuments` is proved
against the specification function `Extracted` and the call log `Calls`.
`PrepareKbData` is proved against `Prepared`. The lemmas state what the source
promises about those functions.

The code does not do the following, and the model follows it:
- it records no failure entries or error kinds, and keeps no counts;
- it does not trim ids or collapse whitespace in them;
- it does not use the fallback id for a present but empty value: the fallback
  applies only when the key is absent (`OrderAndInvoiceIdsVerbatim`);
- it does not make ids unique within a batch. A present `order_id` can equal a
  later record's fallback id, and then both records get the same key, so the
  second upload overwrites the first (`KeysCanCollide`). Only fallback ids are
  pairwise distinct (`FallbackIdsDistinct`).

## Model

| member | source | states |
|---|---|---|
| Registry.SchemaFor | src/document-extraction/process_documents.py:82-86 | the lookup succeeds exactly for `orders`, `invoices` and `catalogs`, giving the Order, Invoice and Catalog schema; any other type gives `KeyError(doc_type)` |
| Extraction.ExtractDocument | src/document-extraction/process_documents.py:98-128 | an exception raised by the upload or the extraction call yields `None`, which is falsy; the function itself never raises |
| Extraction.UnwrapResponseShapes | src/document-extraction/process_documents.py:117-124 | about `Unwrap`: an object's `data` attribute and a dict's `"data"` entry are both returned as the payload; a dict without `"data"`, an object without `data`, and any other value (None, str, number, bool, list) is returned whole |
| Extraction.UnwrapIsSingleLevel | src/document-extraction/process_documents.py:117-124 | `Unwrap` removes one level only: a nested `"data"` entry stays in the payload |
| Extraction.UnwrapMayYieldFalsy | src/document-extraction/process_documents.py:117-124 | a truthy response whose `"data"` entry is None extracts to a value that is not `Values.Truthy`, so `if data:` drops the document |
| Orchestrator.PdfKeys | src/document-extraction/process_documents.py:145 | a key is kept exactly when it was listed and ends in `.pdf`; no more keys than listed |
| Orchestrator.PdfKeysAppend | src/document-extraction/process_documents.py:145 | filtering preserves listing order: the PDFs of `a + b` are the PDFs of `a` followed by those of `b` |
| Strings.LastSegmentSpec | src/document-extraction/process_documents.py:149 | `LastSegment`, which `Orchestrator.LocalPath` appends to `/tmp/`, is the longest suffix of the key that holds no `/`; it is the whole key when the key has no `/` |
| Orchestrator.DocResult | src/document-extraction/process_documents.py:151-162 | a document yields a record exactly when its download completes, the extraction call returns, and the payload `Unwrap` gives is `Values.Truthy`; the record is that payload |
| Orchestrator.Extracted | src/document-extraction/process_documents.py:148-167 | the collected list has no more entries than there are PDF documents, and every entry is truthy |
| Orchestrator.ProcessDocuments | src/document-extraction/process_documents.py:130-167 | an unknown doc type raises `KeyError` with no service call made; otherwise exactly one listing under `ListPrefix(prefix)`, that is `pet-store-data-extraction/{prefix}/`, comes first, and the result and the later calls are `Extracted` and `Calls` of the PDF keys |
| Orchestrator.ExtractedAppend | src/document-extraction/process_documents.py:148-167 | each document's contribution depends on that document alone: the records for `a + b` are those for `a` followed by those for `b` |
| Orchestrator.CallsAppend | src/document-extraction/process_documents.py:148-165 | each document's service calls depend on that document alone, in order |
| Orchestrator.FailureIsolation | src/document-extraction/process_documents.py:151-165 | a failing document (download exception, extraction exception or falsy data) drops only itself; the records of the documents before and after it are unchanged |
| Orchestrator.LaterDocumentsAttempted | src/document-extraction/process_documents.py:148-165 | the calls made for the documents after any document, failed or not, are the same as if they were processed alone |
| Orchestrator.EveryDocumentAttempted | src/document-extraction/process_documents.py:148-165 | the downloads in the call log are exactly the PDF keys, each once, in listing order, whatever happened to earlier documents |
| Orchestrator.ExtractedIsKeptResults | src/document-extraction/process_documents.py:148-167 | the returned list is the in-order subsequence of the present per-document results |
| Orchestrator.AllSucceed | src/document-extraction/process_documents.py:148-167 | when every document succeeds there is one record per document, the i-th being document i's payload |
| Orchestrator.SecondOfThreeFails | src/document-extraction/process_documents.py:148-167 | with three documents of which the second fails, the records are those of the first and the third, and all three are downloaded |
| Strings.NatToString | src/document-extraction/process_documents.py:185 | `str(i)` is a non-empty string of decimal digits with no leading zero |
| Strings.ParseNatToString | src/document-extraction/process_documents.py:185 | reading `str(i)` back as a decimal number gives `i` |
| Strings.NatToStringInjective | src/document-extraction/process_documents.py:185 | different indexes print differently |
| Strings.ReplaceSpaces | src/document-extraction/process_documents.py:189 | `.replace(' ', '_')` keeps the length, turns each space into `_`, leaves every other character and contains no space |
| Strings.ReplaceSpacesKeepsSpaceFree | src/document-extraction/process_documents.py:189 | a string without spaces is unchanged by the replacement |
| KnowledgeBase.DocId | src/document-extraction/process_documents.py:183-189 | deriving an id raises exactly when the record is not a dict, or, for a non-order non-invoice type, when `catalog_period` is present and not a str; ids of that branch (every type other than orders and invoices) never contain a space |
| KnowledgeBase.FallbackWhenAbsent | src/document-extraction/process_documents.py:184-189 | when the identifying field is absent the id is `order_i`, `invoice_i` or `catalog_i` |
| KnowledgeBase.OrderAndInvoiceIdsVerbatim | src/document-extraction/process_documents.py:184-187 | a present `order_id` or `invoice_id` is used unchanged, as `str()` prints it, even when empty or containing spaces |
| KnowledgeBase.CatalogPeriodNormalised | src/document-extraction/process_documents.py:188-189 | a present str `catalog_period` has its spaces replaced by `_` |
| KnowledgeBase.FallbackIdsDistinct | src/document-extraction/process_documents.py:185-189 | fallback ids of different indexes differ |
| KnowledgeBase.KbKeyInjective | src/document-extraction/process_documents.py:191 | within one doc type the key `KbKey` builds, `knowledge-base-data/{doc_type}/{doc_id}.json`, determines the id |
| KnowledgeBase.Prepared | src/document-extraction/process_documents.py:175-196 | the j-th uploaded key is record j's key (`KeyFor`: `KbKey` of its `DocId`); with no exception there is one key per record, otherwise the keys stop just before the first record whose id raises, and that exception is the one reported |
| KnowledgeBase.PreparedStopsAtFailure | src/document-extraction/process_documents.py:177-193 | once a record has raised, later records change neither the uploads nor the exception |
| KnowledgeBase.PrepareKbData | src/document-extraction/process_documents.py:169-196 | the loop uploads exactly `Prepared`'s keys, returns them when no record raised, and otherwise propagates the first exception |
| KnowledgeBase.OrdersAndInvoicesNeverRaiseOnDicts | src/document-extraction/process_documents.py:184-187 | for orders and invoices, a batch of dict records always yields one key per record |
| KnowledgeBase.CatalogScenario | src/document-extraction/process_documents.py:188-191 | a catalog whose period is `Q1 2024` is uploaded as `knowledge-base-data/catalogs/Q1_2024.json` |
| KnowledgeBase.KeysCanCollide | src/document-extraction/process_documents.py:184-191 | an order with `order_id` `order_1` at index 0 and an order without `order_id` at index 1 get the same key |

## Left out

- Secrets Manager retrieval and the printing of credentials (lines 19-30): credential I/O, not logic.
- All `print` logging, including the banners in `process_documents` and `main`.
- The S3 calls themselves (`list_objects_v2`, `download_file`, `upload_file`) are parameters or recorded calls. The listing is a function from prefix to keys. The model does not capture that one `list_objects_v2` call returns at most 1000 keys, since the code does not paginate. It does not model an exception raised by the listing or by an upload: both would propagate to the caller.
- The LlamaCloud file upload and extraction (lines 104-114) are one function from (document key, schema) to `Raised` or a response. Every exception inside that `try` (including the file open) is a `Raised`.
- The extraction service is keyed by the S3 key, not by the `/tmp` path it reads. Two keys with the same last segment are downloaded to the same path, one after the other, and each extraction reads the file just downloaded. Keying by the S3 key keeps them apart.
- The Pydantic schema classes and `model_json_schema()` (lines 37-80, 112): each schema is an opaque tag, and no record is checked against its schema.
- `Values.Text`: Python's `str()` of a dict, an object, a number or a list is the `text` carried by the value. The model does not compute Python's repr.
- `Values.Truthy`: plain objects are always truthy, as objects without `__bool__` or `__len__` are. The model does not cover objects that define them, objects whose `data` is a property that raises, or dict subclasses.
- KnowledgeBase.PrepareKbData: the local write of each record to `/tmp/{doc_type}_{i}.json` (lines 179-181) is not modelled, and that write can raise. It raises when the doc type is not a plain file name (for example one containing `/`, because `open` does not create directories) or when the file system fails. The exception would then propagate before that record's upload. The model does not show this and uploads the key anyway. `main` passes only `orders`, `invoices` and `catalogs`, and for those names the write has no such path problem.
- The `main` driver (lines 198-226): three fixed `process_documents` calls, then `prepare_kb_data` only for non-empty lists. Skipping an empty list has the same uploads as calling `PrepareKbData` on it: none.
