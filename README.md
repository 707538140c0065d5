# RAGgle backend core, modelled in Dafny

RAGgle's backend ingests product pages into a Nuclia knowledge base, asks
that knowledge base for structured product data, and keeps a Supabase
`products` table it can compare products from. Most of it is glue around
those services. This project models the deterministic rules inside that glue
and proves what they promise:

- `py_value.dfy` (module `PyValue`): the Python values the backend handles.
  These are JSON-shaped values, insertion-ordered dictionaries with `d.get`
  and `d[k] = v`, truthiness, `str`/`repr`, `str.join`, `strip`, `lower`
  and `title`.
- `http.dfy` (module `Http`): the requests sent to the knowledge base, the
  outcome of each one (a decoded JSON body or a `requests` error) and the
  JSON replies of the endpoints.
- `metadata.dfy` (module `Metadata`): `_format_metadata_for_nuclia` and
  `_flatten_nuclia_usermetadata`, the flat and nested shapes of user
  metadata, and their round trip.
- `nuclia_requests.dfy` (module `NucliaRequests`): the headers and payloads
  of `NucliaIndexer`'s uploads, patch and rephrase calls, and the result
  dictionaries they return.
- `answer_stream.dfy` (module `AnswerStream`): `ask_with_json_schema`. It
  decodes the answer text document by document with a cursor, then merges
  the documents into `{products, summary}`.
- `extraction.dfy` (module `Extraction`): the Barnes & Noble extractor and
  the generic extractor. Each field takes the first candidate that passes
  the field's test, and these tests and rewrites are modelled.
- `app.dfy` (module `App`): the `/index-url` and `/ask-product-details`
  endpoints, the choice of extractor and the product row that is stored.
- `compare.dfy` (module `CompareEndpoint`): the `/compare-products`
  endpoint. It validates the request, turns the id lists into a selection
  predicate and builds the comparison matrix in a nested loop.

The outside world is passed in as parameters:

- what the knowledge base answers to each request (`HttpOutcome`);
- the fetched page, with what the HTML parser and the regular expressions
  find in it (`Page`, `BnPage`, `Scan`);
- the JSON decoder (`decode`). When it succeeds it consumes at least one
  character and at most all of them. The newline-delimited lemmas also ask
  that it reads back each of the documents they encode, whatever follows
  after whitespace;
- `html.unescape`, the `float` test and `urljoin` (`Library`);
- the clock reading (`now`);
- how the product-table upsert ends (`stored`);
- the `products` table, or the error the query raised (`table`).

Requests sent and rows stored are outputs of the model. Operations that work
step by step are methods, each proved equal to a specification function.
The index, ask and compare handlers are such methods, and so are the
metadata loops, the answer-stream cursor loop, the merge loop and the
extractors' candidate loops. The properties are proved as lemmas about the
specification functions.

## Model

| member | source | states |
|---|---|---|
| PyValue.GetNoneIffAbsent | backend/indexing.py:348 | `d.get(k)` finds nothing exactly when `k` is not among the dictionary's keys. |
| PyValue.GetDistinct | backend/indexing.py:352-354 | In a dictionary without repeated keys, `d.get` finds each entry's value under that entry's key. |
| PyValue.Put | backend/app.py:146-149 | After `d[k] = v`, `d.get(k)` is `v`, and a new key is appended after the existing entries. |
| PyValue.PutFrame | backend/indexing.py:90-95 | `d[k] = v` leaves `d.get` of every other key unchanged, and a key already present keeps its place: the keys, in order, are unchanged. |
| PyValue.LStrip | backend/indexing.py:254 | `s.lstrip()` is no longer than `s` and does not start with whitespace. |
| PyValue.LStripSuffix | backend/indexing.py:254 | `s.lstrip()` is the suffix of `s` that follows a run of whitespace only. |
| PyValue.Strip | backend/indexing.py:432-433 | `s.strip()` is no longer than `s` and neither starts nor ends with whitespace. |
| PyValue.StripKeepsInner | backend/indexing.py:432-433 | `s.strip()` is a slice `s[i:j]` with only whitespace before `i` and from `j` on. With `Strip`'s own contract, exactly the whitespace runs at both ends are removed. |
| PyValue.Lower | backend/app.py:139 | `s.lower()` keeps the length and lowers every ASCII letter. |
| PyValue.Title | backend/indexing.py:676 | `s.title()` keeps the length, upper-cases a letter that does not follow a letter and lowers one that does. |
| PyValue.Join | backend/indexing.py:289 | `sep.join(parts)` succeeds exactly when every part is a string. |
| Http.Failure | backend/indexing.py:69 | The failure dictionary has `success` False and carries the error text. |
| Metadata.FormatMetadata | backend/indexing.py:41-58 | The loop computes `Format`. The result is absent exactly for a missing dictionary or one whose every value is `None` or `""`. Otherwise it is `{"fields": ...}` over the kept entries. |
| Metadata.FormattedEmptyIffNoneKept | backend/indexing.py:49-58 | No formatted field exists exactly when every value is `None` or `""`. |
| Metadata.FormattedFieldsExact | backend/indexing.py:49-53 | A formatted field exists exactly for an input entry whose value is kept. It maps that entry's key to `{"value": str(v)}`. |
| Metadata.FormattedKeysAreKeptKeys | backend/indexing.py:50-53 | The formatted keys are the kept input keys, in input order. |
| Metadata.FormatKeepsDistinctKeys | backend/indexing.py:49-53 | Formatting a dictionary without repeated keys gives fields without repeated keys. |
| Metadata.FlattenMetadata | backend/indexing.py:339-359 | The loop computes `Flatten`. The result is `{}` unless the input is a non-empty dict whose `fields` is a dict. Otherwise it has one entry per field, in order. |
| Metadata.UnwrappedFields | backend/indexing.py:352-357 | Flattening keeps one entry per field. |
| Metadata.UnwrappedAt | backend/indexing.py:352-357 | Each flat entry keeps its field's key. Its value is the field's `"value"`, or `str` of the field when the field has no `"value"`. |
| Metadata.FlattenFormattedFields | backend/indexing.py:339-359 | Flattening the fields `_format_metadata_for_nuclia` builds gives `{k: str(v)}` over the kept entries. |
| Metadata.UnwrapWrap | backend/indexing.py:352-354 | Wrapping a value and unwrapping it gives `str(v)`. |
| Metadata.WrapUnwrap | backend/indexing.py:352-354 | A `{"value": s}` wrapper with non-empty `s` is rebuilt by unwrapping and wrapping again. |
| Metadata.RoundTrip | backend/indexing.py:339-359 | Flattening what formatting returns gives exactly `{k: str(v)}` over the entries that are neither `None` nor `""`. The missing and all-empty cases are included. |
| Metadata.FormatFlattenedNested | backend/indexing.py:41-58 | Formatting what `_flatten_nuclia_usermetadata` returns for a document in the nested shape gives that document back. |
| Metadata.FormatUnwrapped | backend/indexing.py:49-53 | Formatting unwrapped text wrappers gives the same fields back. |
| NucliaRequests.HeadersCarryTheirKey | backend/indexing.py:29-39 | Writes carry the writer key and reads the reader key, both with JSON content type. The two header sets are equal exactly when the keys are. |
| NucliaRequests.TextFormatChoice | backend/indexing.py:86 | The format is `PLAIN` exactly for the document type `text`, and `HTML` otherwise. |
| NucliaRequests.UploadResult | backend/indexing.py:101-109 | A non-dict answer raises. Otherwise `success` is true exactly when the request was answered, and the document id is the answer's `uuid`. |
| NucliaRequests.WithUserMetadataSent | backend/indexing.py:96-99 | The payload's `usermetadata` is the formatted metadata, and absent when formatting gives nothing. |
| NucliaRequests.WithUserMetadataKeeps | backend/indexing.py:96-99 | Adding the metadata leaves every other payload entry unchanged. |
| NucliaRequests.DocumentPayloadFields | backend/indexing.py:80-95 | The document payload has the title and texts, an `origin` exactly when the source URL is truthy, and no metadata yet. |
| NucliaRequests.UploadDocumentPayload | backend/indexing.py:71-109 | `upload_document` POSTs to `/resources` with the writer key. It sends the title, the body in its text format, an origin exactly when the source URL is truthy, and metadata that flattens back to the kept entries. |
| NucliaRequests.UploadFromUrlPayload | backend/indexing.py:140-167 | Of `UploadFromUrl` and `UrlTitle`: the upload is a POST to `/resources`. The title sent is the caller's when non-empty, otherwise `Content from <url>`, so it is never empty. The metadata sent flattens back to the kept entries. |
| NucliaRequests.PatchResource | backend/indexing.py:169-186 | The patch always returns a dictionary with a `success` entry. |
| NucliaRequests.PatchRefusedIffNothingKept | backend/indexing.py:174-179 | Nothing is sent, and the fixed refusal comes back, exactly when no value is kept. Otherwise a PATCH goes to the resource with the formatted metadata. |
| NucliaRequests.PatchSuccessFlag | backend/indexing.py:176-186 | `success` is true exactly when the PATCH was sent and answered. |
| NucliaRequests.RephraseAlwaysAnswers | backend/indexing.py:315-328 | Of `RephraseQuery`: for any dictionary answer or failure, the result has a `rephrased_query`. It is the original query when the call failed or the answer has none. |
| NucliaRequests.RephrasePayload | backend/indexing.py:315-321 | The rephrase request POSTs the query to `/predict/rephrase` with the reader key, with the context exactly when it is truthy. |
| AnswerStream.Stream | backend/indexing.py:257-269 | The documents decoded from a text are at most as many as its characters. |
| AnswerStream.ParseAnswer | backend/indexing.py:254-269 | The answer is left-stripped. The documents are those decoded in order, and the cursor stops at the end of the text or where the decoder fails. |
| AnswerStream.DecodeAll | backend/indexing.py:257-269 | The loop's documents are exactly the stream of the stripped text, and it stops at the end of the text or at a position where the decoder fails. |
| AnswerStream.StreamStep | backend/indexing.py:259-265 | A decode moves the cursor forward by at least one character and at most to the end. The rest of the stream starts after the whitespace that follows the document. |
| AnswerStream.StreamAdvance | backend/indexing.py:259-265 | One iteration keeps the loop invariant: the documents parsed so far, followed by the stream from the new cursor, are the whole stream. |
| AnswerStream.StreamDone | backend/indexing.py:257-269 | When the loop ends, at the end of the text or at a failing decode, the documents parsed are the whole stream. |
| AnswerStream.SkipSpace | backend/indexing.py:264-265 | The inner loop stops after exactly the whitespace run, never past the end. |
| AnswerStream.SkipFromStrips | backend/indexing.py:264-265 | Skipping whitespace by index leaves the same suffix as left-stripping it. |
| AnswerStream.LStripSkips | backend/indexing.py:254 | Left-stripping removes exactly the leading whitespace run. |
| AnswerStream.CombineDocuments | backend/indexing.py:272-289 | Products are the in-order concatenation of each document's contribution. The summary is the `" \| "` join of the non-empty summaries, and the merge raises exactly when one of them is not a string. |
| AnswerStream.Merged | backend/indexing.py:272-298 | `structured_data` is `None` exactly when no product was collected. |
| AnswerStream.ProductsInOrder | backend/indexing.py:276-283 | Products are collected document after document. |
| AnswerStream.SummariesInOrder | backend/indexing.py:284-286 | Summaries are collected document after document. |
| AnswerStream.BareProductsCollected | backend/indexing.py:282-283 | Documents that are each a bare `{name, price}` product are collected as they are. |
| AnswerStream.StreamOfLines | backend/indexing.py:257-269 | Newline-delimited documents followed by text that does not decode are decoded to exactly those documents. |
| AnswerStream.LinesOfProducts | backend/indexing.py:254-289 | Newline-delimited bare products followed by trailing text give exactly those products, in order. |
| AnswerStream.AskReply | backend/indexing.py:243-300 | A reply that parses yields a dictionary with `success` True. |
| AnswerStream.AskResult | backend/indexing.py:240-303 | A failed request yields the failure dictionary. Any returned result is a dictionary whose `success` is truthy exactly when the service answered. |
| AnswerStream.AskWithJsonSchema | backend/indexing.py:188-303 | It sends one POST to `/ask` with the search headers and the query and schema as payload, and returns the parsed and merged answer. |
| Extraction.FirstAccepted | backend/indexing.py:431-435 | The candidate loop stops at and returns the first accepted candidate. |
| Extraction.FirstIsEarliest | backend/indexing.py:431-435 | The chosen value comes from an accepted candidate, and no earlier candidate is accepted. |
| Extraction.FirstNoneIffAllRejected | backend/indexing.py:431-435 | The field keeps its default exactly when every candidate is rejected. |
| Extraction.FirstWitness | backend/indexing.py:431-435 | The chosen value is one of the candidates, as the field's test rewrote it. |
| Extraction.Truncated | backend/indexing.py:465 | A text longer than `n` becomes its first `n` characters plus `...`. Any other text is kept. |
| Extraction.StrippedText | backend/indexing.py:432-433 | An element is used exactly when its stripped text is not blank. The text used is non-empty, no longer than the element's text, and neither starts nor ends with whitespace. |
| Extraction.StrippedMatch | backend/indexing.py:521 | A regular-expression match is always used, stripped: no longer than the group, and with no whitespace at either end. |
| Extraction.BnDetails.AsDict | backend/indexing.py:380-389 | The B&N dictionary has distinct keys and carries every field under its key. |
| Extraction.BnPrice | backend/indexing.py:446-449 | A price candidate is used exactly when its stripped text contains `$`. The price used holds `$` and has no whitespace at either end. |
| Extraction.BnDescription | backend/indexing.py:462-465 | A description is used exactly when its stripped text is longer than 20 characters, truncated to 500 plus `...`. |
| Extraction.BnImageUrl | backend/indexing.py:480-486 | Empty and `data:` URLs are rejected. A `//` URL becomes `https:` followed by the URL, any other `/` URL the B&N host followed by the URL, and every other URL is kept as it is. |
| Extraction.BnImageUrlUsable | backend/indexing.py:481-486 | A `/`-prefixed URL becomes an `https:` URL ending with it. No accepted URL starts with `/` or `data:`. |
| Extraction.ExtractBnProductDetails | backend/indexing.py:373-530 | The extractor, field after field, returns the B&N product specification. |
| Extraction.BnDescriptionBounds | backend/indexing.py:454-467 | A B&N description is the default or has 21 to 503 characters. One over 500 characters ends in `...`. |
| Extraction.BnAuthorSources | backend/indexing.py:404-523 | A non-empty hidden-input author other than the default wins. Otherwise the author comes from the link or, while still the default, from the first regular-expression match. |
| Extraction.BnImageAlwaysUsable | backend/indexing.py:469-490 | The B&N image is the placeholder or a usable URL: never empty, `data:` or site-relative. |
| Extraction.BnProduct | backend/indexing.py:380-399 | Without a product container, or without the HTML parser, the B&N details are the defaults. The supplier is always `Barnes & Noble` and the product URL the source URL. |
| Extraction.BnTextFields | backend/indexing.py:424-503 | The B&N name, price and availability are each the default or the stripped text of one of their candidates: a name or availability that is not blank, and a price holding `$`. |
| Extraction.Details.AsDict | backend/indexing.py:544-553 | The generic dictionary has distinct keys and carries every field under its key. |
| Extraction.NoAuthorColumn | backend/indexing.py:544-553 | The generic dictionary has no `author` entry. |
| Extraction.ProductDoc | backend/indexing.py:565-566 | A JSON-LD block is used exactly when it decodes to a dict whose `@type` is `"Product"`. |
| Extraction.Slice | backend/indexing.py:581 | `v[:n]` of a string or list is its prefix of length `min(n, len(v))`. A dictionary raises `KeyError` where slices are hashable (Python 3.12 and later) and `TypeError` otherwise. Any other value raises `TypeError`. |
| Extraction.FromJsonLdFields | backend/indexing.py:567-589 | A product block fails exactly when its description is not a string or list, and not a dictionary where slices are hashable. It is skipped exactly for such a dictionary, keeping name, price and image. Otherwise the name and a string image come from the block, the description is the block's cut to 300, and a string brand becomes the supplier. URL and availability are kept. |
| Extraction.FromJsonLd | backend/indexing.py:567-588 | Reading a product block never changes the product URL or the availability. |
| Extraction.JsonLdSearch | backend/indexing.py:561-590 | The JSON-LD search passes over non-product blocks and `KeyError` blocks. It never changes the product URL, nor the availability when it falls back to the patterns. |
| Extraction.SearchRaises | backend/indexing.py:561-590 | The search raises only when some product block has a description that raises `TypeError` when sliced. |
| Extraction.SearchEndsAtFirstProduct | backend/indexing.py:561-590 | Where slices are not hashable, the search ends at the first product block with that block's result. It falls back, with the details unchanged, exactly when there is no product block. |
| Extraction.RemoveCommas | backend/indexing.py:632 | The price text keeps no comma. |
| Extraction.RemoveCommasAppend | backend/indexing.py:632 | Removing commas distributes over concatenation. |
| Extraction.RemoveCommasChar | backend/indexing.py:632 | Removing commas drops a comma and keeps any other character, so with `RemoveCommasAppend` it keeps every other character in order. |
| Extraction.AbsoluteImageUrl | backend/indexing.py:645-655 | `http` URLs are kept. With a source URL, any other URL is joined to it. Without one, `//` gains `https:`. |
| Extraction.AvailabilityLabels | backend/indexing.py:670-676 | Of `AvailabilityLabel`: the label is `In Stock` exactly when the lower-cased match mentions "in stock", and `Out of Stock` exactly when it mentions only "out of stock". Any other label equals the lower-cased match up to case. |
| Extraction.LowerOfTitle | backend/indexing.py:670-676 | Lower-casing the title case of a lower-cased text gives the text back. |
| Extraction.TitleIsNoLabel | backend/indexing.py:671-676 | Title case of a text that mentions neither phrase is neither fixed label. |
| Extraction.FromPatternsFields | backend/indexing.py:592-677 | The pattern fallbacks keep URL and description. Every field they fill comes from one of its matches and passed its test: the unescaped, stripped name when longer than 3, `$` plus the match without commas when that parses as a number, an image URL made absolute, a stripped supplier, or the availability label of the lower-cased match. |
| Extraction.FromPatterns | backend/indexing.py:592-677 | The pattern fallbacks never change the product URL or the description. |
| Extraction.GenericProduct | backend/indexing.py:533-679 | The generic details always carry the source URL as product URL. |
| Extraction.ExtractProductDetails | backend/indexing.py:533-679 | The extractor tries the JSON-LD blocks in order and stops at the first product block that does not raise `KeyError`. Otherwise it applies the pattern fallbacks to the details left. It returns the generic product specification. |
| App.LowerKeepsContains | backend/app.py:139 | Lower case keeps an occurrence of a substring. |
| App.DomainInAnyCase | backend/app.py:139 | A URL naming `barnesandnoble.com` in any case is sent to the B&N extractor. |
| App.Extracted | backend/app.py:139-140 | B&N URLs get the B&N extractor's dictionary. Every other URL gets the generic extractor's dictionary, or the error it raised. |
| App.ExtractDetails | backend/app.py:139-140 | The extractor step returns what the chosen extractor returns. |
| App.ProductRecord.AsDict | backend/app.py:153-166 | The stored row has distinct column names. |
| App.BnProductRow | backend/app.py:153-166 | Of `ProductRow` for B&N details: the row carries the document id, name, author, image and URL. It is a `product` row exactly for a product page and has metadata exactly for a product page with an image. |
| App.GenericProductRow | backend/app.py:153-166 | Of `ProductRow` for generic details: the row has the default author and carries the document id, name, price and URL. It is a `product` row exactly for a product page and has metadata exactly for a product page with a truthy image. |
| App.IndexUrl | backend/app.py:103-184 | The handler's reply, requests sent and row stored are those of the index specification `IndexOutcome`, with each early return in place. |
| App.IndexUploaded | backend/app.py:126-180 | After the upload, fetch, extract, patch and store go as specified. |
| App.FetchAndExtract | backend/app.py:127-140 | A failed fetch or a URL that is not a string raises. Otherwise the chosen extractor's dictionary comes back. |
| App.AttachDetails | backend/app.py:143-180 | The patch flag is recorded, the row is stored only with a database, and an upsert error becomes the 500 reply. |
| App.UploadedStage | backend/app.py:109-124 | Once the upload succeeds with a document id, the reply is determined by the steps after it. |
| App.ExtractedStage | backend/app.py:126-143 | Once the page is fetched and extracted, the reply is determined by the patch and the store. |
| App.AttachedSteps | backend/app.py:143-180 | The patch request, when one is sent, follows the earlier requests. The row is kept exactly with a database. The reply is 200 unless the upsert raised, which gives the internal error, and the 200 body is the result with the patch flag and, with a database, the upsert text. |
| App.AttachStages | backend/app.py:109-180 | A fully successful path reduces to the attach step over the upload's result. |
| App.IndexValidation | backend/app.py:109-113 | A body that is not an object fails outside the handler's error handling, and a body without a URL gets 400 "URL is required". In both cases nothing is sent. |
| App.IndexUploadFirst | backend/app.py:117-143 | With a URL, the upload is the first request and at most the patch follows. |
| App.IndexUploadFailures | backend/app.py:117-124 | A failed upload returns its failure with 500, a non-dict answer gives an internal error, and a missing document id gives the 500 reply. Nothing else is sent or stored. |
| App.IndexPageFailures | backend/app.py:126-140 | A failed fetch, a URL that is not a string and an extractor error each give an internal error after the upload. Nothing is patched or stored. |
| App.IndexPatchAndRow | backend/app.py:143-166 | The patch request is sent exactly when extracted metadata survives. The stored row exists exactly with a database and is built from the extracted details. |
| App.IndexSuccess | backend/app.py:143-180 | The reply is 200 exactly when every step succeeds. Its body is the upload result plus `metadata_patch_success` (true exactly when the PATCH was sent and answered), plus `supabase_result` with a database. |
| App.AskProductDetails | backend/app.py:74-101 | A body that is not an object fails outside the handler, and a missing query gives 400 with nothing sent. Otherwise one `/ask` request is sent and the reply follows the ask result. |
| App.AskFailures | backend/app.py:84-101 | A failed request gives 500 with its error. A non-dict answer or an unparseable answer gives an internal error. |
| App.AskSuccess | backend/app.py:86-97 | The reply is 200 exactly when the answer parses. It then carries the query, answer, structured data and citations. |
| CompareEndpoint.Elements | backend/ecommerce-backend.py:40-47 | Only strings, lists and dicts can be iterated, and a list yields its items. |
| CompareEndpoint.Texts | backend/ecommerce-backend.py:42 | `map(str, ids)` gives one text per id, in order. |
| CompareEndpoint.Filtered | backend/ecommerce-backend.py:49 | The selected rows are exactly the table rows the filter selects. |
| CompareEndpoint.QueryFilter | backend/ecommerce-backend.py:37-47 | With both lists non-empty, a row is selected when its id or its document id is listed. Otherwise only the non-empty list is used. Building the query fails exactly on an id value that cannot be iterated, or on a document id that is not a string in the joined filter. |
| CompareEndpoint.MatrixShape | backend/ecommerce-backend.py:61-71 | The matrix has exactly the seven attributes as keys. Each column has one cell per product: the product's value, or `"N/A"`. |
| CompareEndpoint.ColumnSnoc | backend/ecommerce-backend.py:69-71 | Appending a product appends its cell to a column. |
| CompareEndpoint.BuildComparison | backend/ecommerce-backend.py:66-71 | The nested loop builds the comparison matrix. |
| CompareEndpoint.RowValues | backend/ecommerce-backend.py:73-77 | The products are returned unchanged, one object per row. |
| CompareEndpoint.RequestRejections | backend/ecommerce-backend.py:14-35 | Every request gets a JSON reply. Without a database every reply is 500 "Supabase not configured". With one, the reply is 400 exactly for an empty body, a body naming neither list, or both lists empty. |
| CompareEndpoint.NonObjectBodies | backend/ecommerce-backend.py:22-28 | A number or boolean body fails on `in`. A list or string naming a key fails on `.get`, and one naming neither is refused with 400. |
| CompareEndpoint.ComparisonFound | backend/ecommerce-backend.py:37-78 | Query and database errors become internal errors. The reply is 404 with no products exactly when nothing is selected, and otherwise 200 with the selected rows, their matrix and their count. Every product returned is a selected table row. |
| CompareEndpoint.CompareProducts | backend/ecommerce-backend.py:14-85 | The handler, with its early returns and the `query` it narrows, gives the reply of the comparison specification. |

## Left out

- HTTP traffic is not modelled as a service. Each call's outcome is a parameter, already reduced to a decoded JSON body or the error text. `_handle_request_exception`'s rendering of response bodies (backend/indexing.py:60-69) is part of that text.
- The page fetch in `index_url` (backend/app.py:127-136) is a parameter, either the page or the error it raised.
- BeautifulSoup's DOM searches and all regular expressions are not modelled. What they find is an input, and only the tests and rewrites applied to it are modelled.
- `json.JSONDecoder.raw_decode` and `json.loads` are not modelled. They are an abstract decoder, and JSON-LD blocks arrive already decoded.
- `html.unescape`, `float(...)` and `urljoin` are abstract functions (`Library`).
- The interpreter version is the flag `hashableSlices` (`Library`). It is true for Python 3.12 and later, where slicing a dictionary raises `KeyError`, so the generic extractor skips that JSON-LD block. Before 3.12 it raises `TypeError`, which leaves the extractor.
- The catch-all `except Exception` of the B&N extractor (backend/indexing.py:509-510) is left out. The model assumes the parser raises nothing once the container is found. Such an error would keep the fields set so far and still run the author fallback.
- `upload_text` (backend/indexing.py:111-138) is left out. No endpoint calls it, and its payload has the shape of `upload_document`'s without an origin.
- Floating-point numbers are not modelled: `Value` has no float case.
- The price-history block (backend/app.py:167-174) computes a value that is never used. It is left out.
- Supabase is not modelled. Client creation is the `configured` flag in `/compare-products` and the `stored` outcome in `/index-url`. The upsert's result text is an input.
- The PostgREST query is modelled as the selection it means. Rows match by the text of their `id` / `nuclia_document_id` column, in table order. The filter string's own syntax is not modelled, so an id containing `,` or `)` is taken as one id. The database's own type errors on ids (a non-numeric id against the integer `id` column, say) are not derived from the filter: such an id simply matches no row, and the error reply is reachable only through `table` being an error.
- The comparison query's `in_` filter iterates its values like `map`. This library code is not part of this model.
- The JSON schema literal sent to `/ask` (backend/indexing.py:197-231) is a parameter.
- `datetime.now()` is the parameter `now`.
- Logging is left out.
- `jsonify`'s key sorting and text rendering are left out. Replies are the values before serialisation.
- `get_document_entities`, `get_resource_by_id` and `list_resources` (backend/indexing.py:305-313, 330-337, 361-370) are plain reads with no rule of their own. They are not modelled.
- The endpoints `health_check`, `list_products` and `get_nuclia_config` (backend/app.py:65-72, 186-201) and the start-up configuration checks (backend/app.py:41-58) are not modelled.
- `request.get_json()` failing on a body that is not JSON is left out. The body is the decoded value.
- Flask's own error page for an exception outside `try` is the single `UnhandledError` reply.
- `PyValue.Lower` and `PyValue.Title`: ASCII letters only. Python's Unicode case mappings are not modelled.
- `PyValue.Repr`: only the escapes `\\`, `\n`, `\r`, `\t` and the quote are modelled. Other non-printable characters are not escaped.
- `App.IndexUrl`: the row is built before the database check and only reported when a database exists. Building it has no effect, so this is the same behaviour.
