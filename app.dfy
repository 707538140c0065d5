/**
 * The two POST endpoints of backend/app.py that do work: `/index-url`, which
 * ingests a page into the knowledge base, extracts its product details,
 * attaches them to the new resource and stores a product row, and
 * `/ask-product-details`, which asks the knowledge base for structured
 * product data.
 *
 * The services are inputs: what the knowledge base answers to each call,
 * the fetched page together with what the parsers find in it, and how the
 * product-table upsert ends. The requests the endpoints send to the
 * knowledge base and the row they upsert are outputs.
 */
module App {
  import opened PyValue
  import opened Http
  import opened Extraction
  import NucliaRequests
  import AnswerStream
  import Metadata

  // -----------------------------------------------------------------------
  // Choosing the extractor

  const BnDomain: string := "barnesandnoble.com"

  /** A Barnes & Noble page: the lower-cased URL mentions the store's domain. */
  predicate IsBarnesAndNoble(url: string)
  {
    Contains(Lower(url), BnDomain)
  }

  /** Lower case keeps an occurrence: `sub in s` implies `sub.lower() in s.lower()`. */
  lemma {:induction false} LowerKeepsContains(s: string, sub: string)
    requires Contains(s, sub)
    ensures Contains(Lower(s), Lower(sub))
  {
    if StartsWith(s, sub) {
      assert Lower(s)[..|sub|] == Lower(sub);
    } else {
      LowerKeepsContains(s[1..], sub);
      assert Lower(s)[1..] == Lower(s[1..]);
    }
  }

  /**
   * The choice ignores case: a URL that mentions the domain in any mix of
   * upper and lower case is a Barnes & Noble page.
   */
  lemma DomainInAnyCase(url: string, host: string)
    requires Lower(host) == BnDomain && Contains(url, host)
    ensures IsBarnesAndNoble(url)
  {
    LowerKeepsContains(url, host);
  }

  // -----------------------------------------------------------------------
  // The extracted details and the product row

  /**
   * A fetched page: its text, and what the parsers find in it for the two
   * extractors (the Barnes & Noble product container, if any, with the
   * author matches over the whole text; the generic searches).
   */
  datatype Page = Page(content: string, bn: Option<BnPage>, authorMatches: seq<Option<string>>, scan: Scan)

  /**
   * The details dictionary the chosen extractor returns for a page; only
   * the generic extractor can raise.
   */
  function Extracted(url: string, page: Page, lib: Library): (r: Outcome<seq<Entry>>)
    ensures r.Raised? ==> !IsBarnesAndNoble(url)
    ensures IsBarnesAndNoble(url) ==> r == Returned(BnProduct(url, page.bn, page.authorMatches).AsDict())
    ensures !IsBarnesAndNoble(url) ==>
      match GenericProduct(page.content, url, page.scan, lib)
      case Raised(m) => r == Raised(m)
      case Returned(d) => r == Returned(d.AsDict())
  {
    if IsBarnesAndNoble(url) then Returned(BnProduct(url, page.bn, page.authorMatches).AsDict())
    else
      match GenericProduct(page.content, url, page.scan, lib)
      case Raised(m) => Raised(m)
      case Returned(d) => Returned(d.AsDict())
  }

  /** Step 3 of `index_url`: pick the extractor by the URL and run it on the page. */
  method ExtractDetails(url: string, page: Page, lib: Library) returns (r: Outcome<seq<Entry>>)
    ensures r == Extracted(url, page, lib)
  {
    if IsBarnesAndNoble(url) {
      var d := ExtractBnProductDetails(url, page.bn, page.authorMatches);
      r := Returned(d.AsDict());
    } else {
      var d := ExtractProductDetails(page.content, url, page.scan, lib);
      if d.Raised? {
        return Raised(d.message);
      }
      r := Returned(d.value.AsDict());
    }
  }

  /** A row of the `products` table. */
  datatype ProductRecord = ProductRecord(nucliaDocumentId: Value, name: Value, author: Value, priceText: Value,
                                         imageUrl: Value, description: Value, supplier: Value, availability: Value,
                                         productUrl: Value, lastUpdated: string, productType: string, hasMetadata: Value)
  {
    /** The row as the dictionary sent to the table, columns in their insertion order. */
    function AsDict(): (d: seq<Entry>)
      ensures DistinctKeys(d)
    {
      [Entry("nuclia_document_id", nucliaDocumentId), Entry("name", name), Entry("author", author),
       Entry("price_text", priceText), Entry("image_url", imageUrl), Entry("description", description),
       Entry("supplier", supplier), Entry("availability", availability), Entry("product_url", productUrl),
       Entry("last_updated", Str(lastUpdated)), Entry("product_type", Str(productType)), Entry("has_metadata", hasMetadata)]
    }
  }

  /** The row stored for a resource, every column read from the details with its default. */
  function ProductRow(documentId: Value, details: seq<Entry>, url: Value, isProductPage: Value, now: string): ProductRecord
  {
    ProductRecord(documentId,
                  GetOr(details, "name", Str("Unknown Product")),
                  GetOr(details, "author", Str("Unknown Author")),
                  GetOr(details, "price", Str("Price not available")),
                  GetOr(details, "imageUrl", Str("")),
                  GetOr(details, "description", Str("")),
                  GetOr(details, "supplier", Str("Unknown Supplier")),
                  GetOr(details, "availability", Str("Unknown")),
                  GetOr(details, "productUrl", url),
                  now,
                  if Truthy(isProductPage) then "product" else "generic",
                  if Truthy(isProductPage) then Bool(Truthy(GetOr(details, "imageUrl", Null))) else isProductPage)
  }

  /**
   * What a stored Barnes & Noble row says: it carries the extracted name,
   * author, image and URL, is a `product` row exactly for a product page,
   * and has metadata exactly for a product page with an image.
   */
  lemma BnProductRow(documentId: Value, url: Value, isProductPage: Value, now: string, bn: BnDetails)
    ensures var row := ProductRow(documentId, bn.AsDict(), url, isProductPage, now);
      && row.nucliaDocumentId == documentId
      && row.name == Str(bn.name)
      && row.author == Str(bn.author)
      && row.imageUrl == Str(bn.imageUrl)
      && row.productUrl == Str(bn.productUrl)
      && (row.productType == "product" <==> Truthy(isProductPage))
      && (Truthy(row.hasMetadata) <==> Truthy(isProductPage) && bn.imageUrl != [])
  {
  }

  /**
   * What a stored generic row says: the author is the default, since the
   * generic extractor finds none; document id, name, price and URL are
   * carried over; it is a `product` row exactly for a product page and has
   * metadata exactly for a product page with a truthy image.
   */
  lemma GenericProductRow(documentId: Value, url: Value, isProductPage: Value, now: string, generic: Details)
    ensures var row := ProductRow(documentId, generic.AsDict(), url, isProductPage, now);
      && row.nucliaDocumentId == documentId
      && row.author == Str("Unknown Author")
      && row.name == generic.name
      && row.priceText == Str(generic.price)
      && row.productUrl == Str(generic.productUrl)
      && (row.productType == "product" <==> Truthy(isProductPage))
      && (Truthy(row.hasMetadata) <==> Truthy(isProductPage) && Truthy(generic.imageUrl))
  {
    NoAuthorColumn(generic);
  }

  // -----------------------------------------------------------------------
  // POST /index-url

  /** The request's `url`. */
  function UrlOf(body: Value): Value
    requires body.Dict?
  {
    GetOr(body.entries, "url", Null)
  }

  /** The resource id the upload yields: the service's `uuid`, `""` when it has none. */
  function DocumentId(uploaded: HttpOutcome): Value
    requires uploaded.Answered? && uploaded.json.Dict?
  {
    GetOr(uploaded.json.entries, "uuid", Str(""))
  }

  /** The request names a URL and the service answered the upload with a resource id. */
  predicate Uploaded(body: Value, uploaded: HttpOutcome)
  {
    && body.Dict? && Truthy(UrlOf(body))
    && uploaded.Answered? && uploaded.json.Dict? && Truthy(DocumentId(uploaded))
  }

  /** Uploaded, fetched, and the chosen extractor returned details. */
  predicate Extractable(body: Value, uploaded: HttpOutcome, fetched: Outcome<Page>, lib: Library)
  {
    && Uploaded(body, uploaded) && fetched.Returned? && UrlOf(body).Str?
    && Extracted(UrlOf(body).s, fetched.value, lib).Returned?
  }

  /** The upload call `index_url` makes, titled after the URL. */
  function UploadCall(ix: NucliaRequests.Indexer, url: Value, uploaded: HttpOutcome): NucliaRequests.Exchange
  {
    NucliaRequests.UploadFromUrl(ix, url, Str("Product from " + PyStr(url)), None, uploaded)
  }

  /** What `index_url` produces: the reply, the requests sent in order, the row upserted if any. */
  datatype Indexing = Indexing(response: Response, sent: seq<Request>, row: Option<ProductRecord>)

  /**
   * The handler's behaviour, step by step: validation, upload, fetch,
   * extraction, metadata patch and product-table upsert, each failure
   * ending the request with its reply. The arguments are those of
   * `IndexUrl`.
   */
  function IndexOutcome(ix: NucliaRequests.Indexer, body: Value, uploaded: HttpOutcome, fetched: Outcome<Page>,
                        lib: Library, patched: HttpOutcome, stored: Option<Outcome<string>>, now: string): Indexing
  {
    if !body.Dict? then Indexing(UnhandledError, [], None)
    else if !Truthy(UrlOf(body)) then Indexing(Json(400, Failure("URL is required")), [], None)
    else
      var upload := UploadCall(ix, UrlOf(body), uploaded);
      var sent := [upload.sent.value];
      match upload.result
      case Raised(m) => Indexing(InternalError(m), sent, None)
      case Returned(result) =>
        if !Truthy(GetOr(result.entries, "success", Null)) then Indexing(Json(500, result), sent, None)
        else
          var documentId := GetOr(result.entries, "document_id", Null);
          if !Truthy(documentId) then Indexing(Json(500, Failure("Failed to get document_id from Nuclia")), sent, None)
          else
            AfterUpload(ix, result.entries, documentId, UrlOf(body), GetOr(body.entries, "is_product_page", Bool(false)),
                        fetched, lib, patched, stored, now, sent)
  }

  /**
   * Steps 2 and 3 after a successful upload: the page fetch (its error when
   * it fails), the URL's `lower()` (an `AttributeError` for a URL that is not
   * a string), and the chosen extractor.
   */
  function PageDetails(url: Value, fetched: Outcome<Page>, lib: Library): Outcome<seq<Entry>>
  {
    match fetched
    case Raised(m) => Raised(m)
    case Returned(page) => if !url.Str? then Raised(NoAttribute(url, "lower")) else Extracted(url.s, page, lib)
  }

  /** The steps after a successful upload; `sent` holds the requests sent so far. */
  function AfterUpload(ix: NucliaRequests.Indexer, result: seq<Entry>, documentId: Value, url: Value, isProductPage: Value,
                       fetched: Outcome<Page>, lib: Library, patched: HttpOutcome, stored: Option<Outcome<string>>,
                       now: string, sent: seq<Request>): Indexing
  {
    match PageDetails(url, fetched, lib)
    case Raised(m) => Indexing(InternalError(m), sent, None)
    case Returned(details) =>
      Attached(result, NucliaRequests.PatchResource(ix, documentId, details, patched),
               ProductRow(documentId, details, url, isProductPage, now), stored, sent)
  }

  /**
   * Steps 4 and 5: the metadata patch (sent only when something of the
   * details survives formatting), its success flag on the result, and the
   * product-table upsert when a table is configured. `sent` holds the
   * requests sent so far.
   */
  function Attached(result: seq<Entry>, patch: NucliaRequests.Exchange, row: ProductRecord,
                    stored: Option<Outcome<string>>, sent: seq<Request>): Indexing
    requires patch.result.Returned? && patch.result.value.Dict?
  {
    var sent' := if patch.sent.Some? then sent + [patch.sent.value] else sent;
    var flagged := Put(result, "metadata_patch_success", Bool(Truthy(GetOr(patch.result.value.entries, "success", Null))));
    match stored
    case None => Indexing(Json(200, Dict(flagged)), sent', None)
    case Some(Raised(m)) => Indexing(InternalError(m), sent', Some(row))
    case Some(Returned(text)) => Indexing(Json(200, Dict(Put(flagged, "supabase_result", Str(text)))), sent', Some(row))
  }

  /**
   * `index_url`. `uploaded` is the service's answer to the upload,
   * `fetched` the page fetch (its error text when the request or its status
   * fails), `patched` the answer to the metadata patch, and `stored` the
   * product-table upsert: `None` when no table is configured, else the
   * text of its result or the error it raised. `now` is the clock reading.
   * Returns the reply, the requests sent to the knowledge base in order,
   * and the row upserted, if any.
   */
  method IndexUrl(ix: NucliaRequests.Indexer, body: Value, uploaded: HttpOutcome, fetched: Outcome<Page>,
                  lib: Library, patched: HttpOutcome, stored: Option<Outcome<string>>, now: string)
    returns (response: Response, sent: seq<Request>, row: Option<ProductRecord>)
    ensures Indexing(response, sent, row) == IndexOutcome(ix, body, uploaded, fetched, lib, patched, stored, now)
  {
    sent := [];
    row := None;
    if !body.Dict? {
      return UnhandledError, sent, row;
    }
    var url := GetOr(body.entries, "url", Null);
    var isProductPage := GetOr(body.entries, "is_product_page", Bool(false));
    if !Truthy(url) {
      return Json(400, Failure("URL is required")), sent, row;
    }
    var upload := UploadCall(ix, url, uploaded);
    sent := [upload.sent.value];
    if upload.result.Raised? {
      return InternalError(upload.result.message), sent, row;
    }
    var result := upload.result.value.entries;
    if !Truthy(GetOr(result, "success", Null)) {
      return Json(500, Dict(result)), sent, row;
    }
    var documentId := GetOr(result, "document_id", Null);
    if !Truthy(documentId) {
      return Json(500, Failure("Failed to get document_id from Nuclia")), sent, row;
    }
    response, sent, row := IndexUploaded(ix, result, documentId, url, isProductPage, fetched, lib, patched, stored, now, sent);
  }

  /** The steps of `index_url` after a successful upload. */
  method IndexUploaded(ix: NucliaRequests.Indexer, result: seq<Entry>, documentId: Value, url: Value, isProductPage: Value,
                       fetched: Outcome<Page>, lib: Library, patched: HttpOutcome, stored: Option<Outcome<string>>,
                       now: string, sent: seq<Request>)
    returns (response: Response, sent': seq<Request>, row: Option<ProductRecord>)
    ensures Indexing(response, sent', row) == AfterUpload(ix, result, documentId, url, isProductPage, fetched, lib, patched, stored, now, sent)
  {
    var details := FetchAndExtract(url, fetched, lib);
    if details.Raised? {
      return InternalError(details.message), sent, None;
    }
    var patch := NucliaRequests.PatchResource(ix, documentId, details.value, patched);
    var record := ProductRow(documentId, details.value, url, isProductPage, now);
    response, sent', row := AttachDetails(result, patch, record, stored, sent);
  }

  /** Steps 2 and 3 of `index_url`: fetch the page, then run the extractor the URL selects. */
  method FetchAndExtract(url: Value, fetched: Outcome<Page>, lib: Library) returns (r: Outcome<seq<Entry>>)
    ensures r == PageDetails(url, fetched, lib)
  {
    if fetched.Raised? {
      return Raised(fetched.message);
    }
    if !url.Str? {
      return Raised(NoAttribute(url, "lower"));
    }
    r := ExtractDetails(url.s, fetched.value, lib);
  }

  /** Steps 4 and 5 of `index_url`: patch the resource, flag the result, upsert the row. */
  method AttachDetails(result: seq<Entry>, patch: NucliaRequests.Exchange, record: ProductRecord,
                       stored: Option<Outcome<string>>, sent: seq<Request>)
    returns (response: Response, sent': seq<Request>, row: Option<ProductRecord>)
    requires patch.result.Returned? && patch.result.value.Dict?
    ensures Indexing(response, sent', row) == Attached(result, patch, record, stored, sent)
  {
    sent' := sent;
    row := None;
    if patch.sent.Some? {
      sent' := sent' + [patch.sent.value];
    }
    var patchSucceeded := Truthy(GetOr(patch.result.value.entries, "success", Null));
    var flagged := Put(result, "metadata_patch_success", Bool(patchSucceeded));
    response := Json(200, Dict(flagged));
    if stored.Some? {
      row := Some(record);
      if stored.value.Raised? {
        return InternalError(stored.value.message), sent', row;
      }
      response := Json(200, Dict(Put(flagged, "supabase_result", Str(stored.value.value))));
    }
  }

  /** After a successful upload, the handler goes on with the upload's result, resource id and request. */
  lemma UploadedStage(ix: NucliaRequests.Indexer, body: Value, uploaded: HttpOutcome, fetched: Outcome<Page>,
                      lib: Library, patched: HttpOutcome, stored: Option<Outcome<string>>, now: string)
    requires Uploaded(body, uploaded)
    ensures IndexOutcome(ix, body, uploaded, fetched, lib, patched, stored, now)
         == AfterUpload(ix, NucliaRequests.UploadResult(uploaded).value.entries, DocumentId(uploaded), UrlOf(body),
                        GetOr(body.entries, "is_product_page", Bool(false)), fetched, lib, patched, stored, now,
                        [UploadCall(ix, UrlOf(body), uploaded).sent.value])
  {
  }

  /** Once details are extracted, the handler goes on with the patch and the row built from them. */
  lemma ExtractedStage(ix: NucliaRequests.Indexer, result: seq<Entry>, documentId: Value, url: Value, isProductPage: Value,
                       fetched: Outcome<Page>, lib: Library, patched: HttpOutcome, stored: Option<Outcome<string>>,
                       now: string, sent: seq<Request>)
    requires fetched.Returned? && url.Str? && Extracted(url.s, fetched.value, lib).Returned?
    ensures var details := Extracted(url.s, fetched.value, lib).value;
      AfterUpload(ix, result, documentId, url, isProductPage, fetched, lib, patched, stored, now, sent)
      == Attached(result, NucliaRequests.PatchResource(ix, documentId, details, patched),
                  ProductRow(documentId, details, url, isProductPage, now), stored, sent)
  {
  }

  /** What the patch and upsert steps produce. */
  lemma AttachedSteps(result: seq<Entry>, patch: NucliaRequests.Exchange, row: ProductRecord,
                      stored: Option<Outcome<string>>, sent: seq<Request>)
    requires patch.result.Returned? && patch.result.value.Dict?
    ensures var o := Attached(result, patch, row, stored, sent);
      && o.sent == sent + (if patch.sent.Some? then [patch.sent.value] else [])
      && (o.row.Some? <==> stored.Some?) && (o.row.Some? ==> o.row.value == row)
      && (o.response.Json? && o.response.status == 200 <==> stored.None? || stored.value.Returned?)
      && (stored.Some? && stored.value.Raised? ==> o.response == InternalError(stored.value.message))
      && (o.response.Json? && o.response.status == 200 ==>
            var flagged := Put(result, "metadata_patch_success", Bool(Truthy(GetOr(patch.result.value.entries, "success", Null))));
            o.response.body == Dict(if stored.Some? then Put(flagged, "supabase_result", Str(stored.value.value)) else flagged))
  {
  }

  /** The two stage lemmas above, for a request whose page yields details. */
  lemma AttachStages(ix: NucliaRequests.Indexer, body: Value, uploaded: HttpOutcome, fetched: Outcome<Page>,
                     lib: Library, patched: HttpOutcome, stored: Option<Outcome<string>>, now: string)
    requires Extractable(body, uploaded, fetched, lib)
    ensures var details := Extracted(UrlOf(body).s, fetched.value, lib).value;
      var patch := NucliaRequests.PatchResource(ix, DocumentId(uploaded), details, patched);
      var row := ProductRow(DocumentId(uploaded), details, UrlOf(body), GetOr(body.entries, "is_product_page", Bool(false)), now);
      IndexOutcome(ix, body, uploaded, fetched, lib, patched, stored, now)
      == Attached(NucliaRequests.UploadResult(uploaded).value.entries, patch, row, stored,
                  [UploadCall(ix, UrlOf(body), uploaded).sent.value])
  {
    UploadedStage(ix, body, uploaded, fetched, lib, patched, stored, now);
    ExtractedStage(ix, NucliaRequests.UploadResult(uploaded).value.entries, DocumentId(uploaded), UrlOf(body),
                   GetOr(body.entries, "is_product_page", Bool(false)), fetched, lib, patched, stored, now,
                   [UploadCall(ix, UrlOf(body), uploaded).sent.value]);
  }

  /** A body that is not a JSON object fails before the handler's own error handling; a body without a URL is refused. */
  lemma IndexValidation(ix: NucliaRequests.Indexer, body: Value, uploaded: HttpOutcome, fetched: Outcome<Page>,
                        lib: Library, patched: HttpOutcome, stored: Option<Outcome<string>>, now: string)
    ensures var o := IndexOutcome(ix, body, uploaded, fetched, lib, patched, stored, now);
      && (!body.Dict? ==> o == Indexing(UnhandledError, [], None))
      && (body.Dict? && !Truthy(UrlOf(body)) ==> o == Indexing(Json(400, Failure("URL is required")), [], None))
  {
  }

  /** Any named URL is uploaded first, and at most the patch follows. */
  lemma IndexUploadFirst(ix: NucliaRequests.Indexer, body: Value, uploaded: HttpOutcome, fetched: Outcome<Page>,
                         lib: Library, patched: HttpOutcome, stored: Option<Outcome<string>>, now: string)
    requires body.Dict? && Truthy(UrlOf(body))
    ensures var o := IndexOutcome(ix, body, uploaded, fetched, lib, patched, stored, now);
      1 <= |o.sent| <= 2 && o.sent[0] == UploadCall(ix, UrlOf(body), uploaded).sent.value
  {
    if !Uploaded(body, uploaded) {
      IndexUploadFailures(ix, body, uploaded, fetched, lib, patched, stored, now);
    } else if !Extractable(body, uploaded, fetched, lib) {
      IndexPageFailures(ix, body, uploaded, fetched, lib, patched, stored, now);
    } else {
      IndexPatchAndRow(ix, body, uploaded, fetched, lib, patched, stored, now);
    }
  }

  /** The upload's failures, in the order they are checked; none of them stores a row. */
  lemma IndexUploadFailures(ix: NucliaRequests.Indexer, body: Value, uploaded: HttpOutcome, fetched: Outcome<Page>,
                            lib: Library, patched: HttpOutcome, stored: Option<Outcome<string>>, now: string)
    requires body.Dict? && Truthy(UrlOf(body)) && !Uploaded(body, uploaded)
    ensures var o := IndexOutcome(ix, body, uploaded, fetched, lib, patched, stored, now);
      && o.sent == [UploadCall(ix, UrlOf(body), uploaded).sent.value] && o.row.None?
      && (uploaded.RequestFailed? ==> o.response == Json(500, Failure(uploaded.error)))
      && (uploaded.Answered? && !uploaded.json.Dict? ==> o.response == InternalError(NoAttribute(uploaded.json, "get")))
      && (uploaded.Answered? && uploaded.json.Dict? ==> o.response == Json(500, Failure("Failed to get document_id from Nuclia")))
  {
  }

  /** The fetch's and the extraction's failures: the upload stays the only request, and no row is stored. */
  lemma IndexPageFailures(ix: NucliaRequests.Indexer, body: Value, uploaded: HttpOutcome, fetched: Outcome<Page>,
                          lib: Library, patched: HttpOutcome, stored: Option<Outcome<string>>, now: string)
    requires Uploaded(body, uploaded) && !Extractable(body, uploaded, fetched, lib)
    ensures var o := IndexOutcome(ix, body, uploaded, fetched, lib, patched, stored, now);
      && o.sent == [UploadCall(ix, UrlOf(body), uploaded).sent.value] && o.row.None?
      && (fetched.Raised? ==> o.response == InternalError(fetched.message))
      && (fetched.Returned? && !UrlOf(body).Str? ==> o.response == InternalError(NoAttribute(UrlOf(body), "lower")))
      && (fetched.Returned? && UrlOf(body).Str? ==>
            o.response == InternalError(Extracted(UrlOf(body).s, fetched.value, lib).message))
  {
    UploadedStage(ix, body, uploaded, fetched, lib, patched, stored, now);
  }

  /**
   * Once details are extracted, the patch carrying them is sent exactly when
   * something of them survives formatting, and the row is stored exactly
   * when a table is configured, with every column read from the details.
   */
  lemma IndexPatchAndRow(ix: NucliaRequests.Indexer, body: Value, uploaded: HttpOutcome, fetched: Outcome<Page>,
                         lib: Library, patched: HttpOutcome, stored: Option<Outcome<string>>, now: string)
    requires Extractable(body, uploaded, fetched, lib)
    ensures var o := IndexOutcome(ix, body, uploaded, fetched, lib, patched, stored, now);
      var details := Extracted(UrlOf(body).s, fetched.value, lib).value;
      var patch := NucliaRequests.PatchResource(ix, DocumentId(uploaded), details, patched);
      && o.sent == [UploadCall(ix, UrlOf(body), uploaded).sent.value] + (if patch.sent.Some? then [patch.sent.value] else [])
      && (o.row.Some? <==> stored.Some?)
      && (o.row.Some? ==>
            o.row.value == ProductRow(DocumentId(uploaded), details, UrlOf(body), GetOr(body.entries, "is_product_page", Bool(false)), now))
  {
    UploadedStage(ix, body, uploaded, fetched, lib, patched, stored, now);
    AttachStages(ix, body, uploaded, fetched, lib, patched, stored, now);
  }

  /**
   * The reply succeeds exactly when details were extracted and the upsert,
   * if any, did not raise. It is the upload's result with the patch's
   * success flag set, and the upsert's result when there was one.
   */
  lemma IndexSuccess(ix: NucliaRequests.Indexer, body: Value, uploaded: HttpOutcome, fetched: Outcome<Page>,
                     lib: Library, patched: HttpOutcome, stored: Option<Outcome<string>>, now: string)
    ensures var o := IndexOutcome(ix, body, uploaded, fetched, lib, patched, stored, now);
      && (o.response.Json? && o.response.status == 200 <==>
            Extractable(body, uploaded, fetched, lib) && (stored.None? || stored.value.Returned?))
      && (o.response.Json? && o.response.status == 200 ==>
            var flagged := Put(NucliaRequests.UploadResult(uploaded).value.entries,
                               "metadata_patch_success", Bool(|o.sent| == 2 && patched.Answered?));
            o.response.body == Dict(if stored.Some? then Put(flagged, "supabase_result", Str(stored.value.value)) else flagged))
    ensures stored.Some? && stored.value.Raised? && Extractable(body, uploaded, fetched, lib) ==>
      IndexOutcome(ix, body, uploaded, fetched, lib, patched, stored, now).response == InternalError(stored.value.message)
  {
    if !(body.Dict? && Truthy(UrlOf(body))) {
      IndexValidation(ix, body, uploaded, fetched, lib, patched, stored, now);
    } else if !Uploaded(body, uploaded) {
      IndexUploadFailures(ix, body, uploaded, fetched, lib, patched, stored, now);
    } else if !Extractable(body, uploaded, fetched, lib) {
      IndexPageFailures(ix, body, uploaded, fetched, lib, patched, stored, now);
    } else {
      UploadedStage(ix, body, uploaded, fetched, lib, patched, stored, now);
      AttachStages(ix, body, uploaded, fetched, lib, patched, stored, now);
      var details := Extracted(UrlOf(body).s, fetched.value, lib).value;
      NucliaRequests.PatchSuccessFlag(ix, DocumentId(uploaded), details, patched);
    }
  }

  // -----------------------------------------------------------------------
  // POST /ask-product-details

  /** The request's `query`. */
  function QueryOf(body: Value): Value
    requires body.Dict?
  {
    GetOr(body.entries, "query", Null)
  }

  /**
   * The reply `ask_product_details` builds from what the ask call returned:
   * an exception becomes the internal-error reply, an unsuccessful result
   * passes its `error` on, and a successful one is reported beside the query.
   */
  function AskResponse(query: Value, result: Outcome<Value>): Response
    requires result.Returned? ==> result.value.Dict?
  {
    match result
    case Raised(m) => InternalError(m)
    case Returned(reply) =>
      if !Truthy(GetOr(reply.entries, "success", Null)) then
        Json(500, Dict([Entry("success", Bool(false)), Entry("error", GetOr(reply.entries, "error", Str("Ask failed")))]))
      else
        Json(200, Dict([Entry("success", Bool(true)), Entry("query", query),
                        Entry("answer", GetOr(reply.entries, "answer", Null)),
                        Entry("structured_data", GetOr(reply.entries, "structured_data", Null)),
                        Entry("citations", GetOr(reply.entries, "citations", List([])))]))
  }

  /**
   * `ask_product_details`. `schema` is the product schema the ask call
   * sends, `decode` the JSON decoder the answer is parsed with, `answered`
   * the service's reply. Returns the reply and the requests sent.
   */
  method AskProductDetails(ix: NucliaRequests.Indexer, body: Value, schema: Value,
                           decode: string -> AnswerStream.DecodeResult, answered: HttpOutcome)
    returns (response: Response, sent: seq<Request>)
    requires AnswerStream.Consumes(decode)
    ensures !body.Dict? ==> response == UnhandledError && sent == []
    ensures body.Dict? && !Truthy(QueryOf(body)) ==> response == Json(400, Failure("Query is required")) && sent == []
    ensures body.Dict? && Truthy(QueryOf(body)) ==>
      && sent == [Request("POST", ix.KbBaseUrl() + "/ask", ix.SearchHeaders(),
                          Dict([Entry("query", QueryOf(body)), Entry("answer_json_schema", schema)]))]
      && response == AskResponse(QueryOf(body), AnswerStream.AskResult(decode, answered))
  {
    sent := [];
    if !body.Dict? {
      return UnhandledError, sent;
    }
    var query := GetOr(body.entries, "query", Null);
    if !Truthy(query) {
      return Json(400, Failure("Query is required")), sent;
    }
    var request, result := AnswerStream.AskWithJsonSchema(ix, query, schema, decode, answered);
    sent := [request];
    response := AskResponse(query, result);
  }

  /**
   * How the ask call's outcome becomes the reply: a failed request passes
   * its error on in the failure reply, a reply that is not a dictionary or
   * an answer that cannot be merged is an internal error.
   */
  lemma AskFailures(query: Value, decode: string -> AnswerStream.DecodeResult, answered: HttpOutcome)
    requires AnswerStream.Consumes(decode)
    ensures var response := AskResponse(query, AnswerStream.AskResult(decode, answered));
      && (answered.RequestFailed? ==> response == Json(500, Failure(answered.error)))
      && (answered.Answered? && !answered.json.Dict? ==> response == InternalError(NoAttribute(answered.json, "get")))
      && (answered.Answered? && answered.json.Dict? && AnswerStream.AskReply(decode, answered.json.entries).Raised? ==>
            response == InternalError(AnswerStream.AskReply(decode, answered.json.entries).message))
  {
  }

  /**
   * The reply succeeds exactly when the service answered with a dictionary
   * whose answer parses and merges; it passes the answer, the merged data
   * and the citations on beside the query.
   */
  lemma AskSuccess(query: Value, decode: string -> AnswerStream.DecodeResult, answered: HttpOutcome)
    requires AnswerStream.Consumes(decode)
    ensures var response := AskResponse(query, AnswerStream.AskResult(decode, answered));
      && (response.Json? && response.status == 200 <==>
            answered.Answered? && answered.json.Dict? && AnswerStream.AskReply(decode, answered.json.entries).Returned?)
      && (response.Json? && response.status == 200 ==>
            var reply := AnswerStream.AskReply(decode, answered.json.entries).value.entries;
            response.body == Dict([Entry("success", Bool(true)), Entry("query", query),
                                   Entry("answer", GetOr(reply, "answer", Null)),
                                   Entry("structured_data", GetOr(reply, "structured_data", Null)),
                                   Entry("citations", GetOr(reply, "citations", List([])))]))
  {
  }
}
