/**
 * The request shapes of `NucliaIndexer` in backend/indexing.py: which
 * request each operation sends to the knowledge-base service, with which
 * payload, and how the service's answer (or a `requests` exception) becomes
 * the result dictionary the rest of the backend reads.
 */
module NucliaRequests {
  import opened PyValue
  import opened Http
  import Metadata

  const BaseUrl: string := "https://aws-eu-central-1-1.rag.progress.cloud/api"
  const ServiceAccountHeader: string := "X-NUCLIA-SERVICEACCOUNT"
  const PatchRefusal: string := "No valid metadata provided to patch."

  /** The indexer's configuration; it is fixed when the indexer is created. */
  datatype Indexer = Indexer(editApiKey: string, searchApiKey: string, knowledgeBaseId: string)
  {
    function KbBaseUrl(): string
    {
      BaseUrl + "/v1/kb/" + knowledgeBaseId
    }

    function EditHeaders(): seq<Entry>
    {
      Headers(editApiKey)
    }

    function SearchHeaders(): seq<Entry>
    {
      Headers(searchApiKey)
    }
  }

  function Headers(apiKey: string): seq<Entry>
  {
    [Entry(ServiceAccountHeader, Str("Bearer " + apiKey)), Entry("Content-Type", Str("application/json"))]
  }

  /** What an operation sent (nothing, when it refused locally) and what it returned. */
  datatype Exchange = Exchange(sent: Option<Request>, result: Outcome<Value>)

  /** The key a service account authenticates with, read back from a header list. */
  function BearerKey(headers: seq<Entry>): Option<string>
  {
    match Get(headers, ServiceAccountHeader)
    case Some(Str(s)) => if StartsWith(s, "Bearer ") then Some(s[7..]) else None
    case _ => None
  }

  /**
   * Writes authenticate with the writer key and reads with the reader key,
   * both as JSON; the two header sets coincide exactly when the keys do.
   */
  lemma HeadersCarryTheirKey(ix: Indexer)
    ensures BearerKey(ix.EditHeaders()) == Some(ix.editApiKey)
    ensures BearerKey(ix.SearchHeaders()) == Some(ix.searchApiKey)
    ensures Get(ix.EditHeaders(), "Content-Type") == Some(Str("application/json"))
    ensures Get(ix.SearchHeaders(), "Content-Type") == Some(Str("application/json"))
    ensures ix.EditHeaders() == ix.SearchHeaders() <==> ix.editApiKey == ix.searchApiKey
  {
    var e := "Bearer " + ix.editApiKey;
    var s := "Bearer " + ix.searchApiKey;
    assert e[7..] == ix.editApiKey && s[7..] == ix.searchApiKey;
    if ix.EditHeaders() == ix.SearchHeaders() {
      assert ix.EditHeaders()[0] == ix.SearchHeaders()[0];
    }
  }

  /** `payload["usermetadata"] = ...` when the metadata is non-empty and formats to something. */
  function WithUserMetadata(payload: seq<Entry>, metadata: Option<seq<Entry>>): seq<Entry>
  {
    if metadata.Some? && metadata.value != [] && Metadata.Format(metadata).Some? then
      Put(payload, "usermetadata", Metadata.Format(metadata).value)
    else payload
  }

  /** The text format named in an upload: `"PLAIN"` for the document type `"text"`, `"HTML"` for any other. */
  function TextFormat(documentType: string): string
  {
    if documentType == "text" then "PLAIN" else "HTML"
  }

  lemma TextFormatChoice(documentType: string)
    ensures TextFormat(documentType) in {"PLAIN", "HTML"}
    ensures TextFormat(documentType) == "PLAIN" <==> documentType == "text"
  {
  }

  /** The result of a `POST /resources`: the new resource's `uuid` (default `""`) as `document_id`. */
  function UploadResult(outcome: HttpOutcome): (r: Outcome<Value>)
    ensures r.Raised? <==> outcome.Answered? && !outcome.json.Dict?
    ensures r.Returned? ==> r.value.Dict? && (Get(r.value.entries, "success") == Some(Bool(true)) <==> outcome.Answered?)
    ensures r.Returned? ==> Get(r.value.entries, "success").Some?
    ensures r.Returned? && outcome.Answered? ==>
      Get(r.value.entries, "document_id") == Some(GetOr(outcome.json.entries, "uuid", Str("")))
  {
    match outcome
    case RequestFailed(e) => Returned(Failure(e))
    case Answered(json) =>
      if !json.Dict? then Raised(NoAttribute(json, "get"))
      else Returned(Dict([Entry("success", Bool(true)),
                          Entry("document_id", GetOr(json.entries, "uuid", Str(""))),
                          Entry("response", json)]))
  }

  /** The texts part of an upload: the body in its text format. */
  function Texts(content: string, documentType: string): Value
  {
    Dict([Entry("text", Dict([Entry("body", Str(content)), Entry("format", Str(TextFormat(documentType)))]))])
  }

  /** The origin of an upload: the source URL as both source id and URL, with the clock reading. */
  function Origin(sourceUrl: Value, now: string): Value
  {
    Dict([Entry("source_id", sourceUrl), Entry("url", sourceUrl), Entry("created", Str(now))])
  }

  /** The payload of `upload_document` before its metadata; `now` stands for the clock reading. */
  function DocumentPayload(content: string, title: string, sourceUrl: Value, documentType: string, now: string): seq<Entry>
  {
    var payload := [Entry("title", Str(title)), Entry("texts", Texts(content, documentType))];
    if Truthy(sourceUrl) then Put(payload, "origin", Origin(sourceUrl, now)) else payload
  }

  /** `upload_document`. */
  function UploadDocument(ix: Indexer, content: string, title: string, sourceUrl: Value,
                          documentType: string, metadata: Option<seq<Entry>>, now: string,
                          outcome: HttpOutcome): Exchange
  {
    Exchange(Some(Request("POST", ix.KbBaseUrl() + "/resources", ix.EditHeaders(),
                          Dict(WithUserMetadata(DocumentPayload(content, title, sourceUrl, documentType, now), metadata)))),
             UploadResult(outcome))
  }

  /** The title `upload_from_url` sends: the given one, or `"Content from <url>"` when it is missing or empty. */
  function UrlTitle(url: Value, title: Value): Value
  {
    if Truthy(title) then title else Str("Content from " + PyStr(url))
  }

  /** `upload_from_url`: a link resource the service fetches itself. */
  function UploadFromUrl(ix: Indexer, url: Value, title: Value, metadata: Option<seq<Entry>>,
                         outcome: HttpOutcome): Exchange
  {
    var payload := [Entry("title", UrlTitle(url, title)),
                    Entry("links", Dict([Entry("link", Dict([Entry("uri", url)]))]))];
    Exchange(Some(Request("POST", ix.KbBaseUrl() + "/resources", ix.EditHeaders(),
                          Dict(WithUserMetadata(payload, metadata)))),
             UploadResult(outcome))
  }

  /** `patch_resource`: refuses without sending when nothing of the metadata survives formatting. */
  function PatchResource(ix: Indexer, documentId: Value, metadata: seq<Entry>, outcome: HttpOutcome): (x: Exchange)
    ensures x.result.Returned? && x.result.value.Dict? && Get(x.result.value.entries, "success").Some?
  {
    match Metadata.Format(Some(metadata))
    case None => Exchange(None, Returned(Failure(PatchRefusal)))
    case Some(formatted) =>
      Exchange(Some(Request("PATCH", ix.KbBaseUrl() + "/resource/" + PyStr(documentId), ix.EditHeaders(),
                            Dict([Entry("usermetadata", formatted)]))),
               match outcome
               case RequestFailed(e) => Returned(Failure(e))
               case Answered(json) =>
                 Returned(Dict([Entry("success", Bool(true)), Entry("document_id", documentId), Entry("response", json)])))
  }

  /** `rephrase_query`: a failed call still hands back the original query. */
  function RephraseQuery(ix: Indexer, query: Value, context: Value, outcome: HttpOutcome): Exchange
  {
    var payload := [Entry("query", query)];
    var withContext := if Truthy(context) then Put(payload, "context", context) else payload;
    Exchange(Some(Request("POST", ix.KbBaseUrl() + "/predict/rephrase", ix.SearchHeaders(), Dict(withContext))),
             match outcome
             case RequestFailed(e) => Returned(Dict(Put(Failure(e).entries, "rephrased_query", query)))
             case Answered(json) =>
               if !json.Dict? then Raised(NoAttribute(json, "get"))
               else Returned(Dict([Entry("success", Bool(true)),
                                   Entry("rephrased_query", GetOr(json.entries, "rephrased_query", query))])))
  }

  // -----------------------------------------------------------------------
  // Properties of the request shapes

  /** The `usermetadata` a payload carries, read back as a Python value (`None` when absent). */
  function UserMetadataOf(r: Request): Value
  {
    if r.payload.Dict? then OrNone(Get(r.payload.entries, "usermetadata")) else Null
  }

  lemma WithUserMetadataSent(payload: seq<Entry>, metadata: Option<seq<Entry>>)
    requires Get(payload, "usermetadata").None?
    ensures OrNone(Get(WithUserMetadata(payload, metadata), "usermetadata")) == OrNone(Metadata.Format(metadata))
  {
    if metadata.Some? && metadata.value == [] {
      assert Metadata.FormattedFields(metadata.value) == [];
    }
  }

  /** Adding the metadata leaves every other entry of a payload as it was. */
  lemma WithUserMetadataKeeps(payload: seq<Entry>, metadata: Option<seq<Entry>>, k: string)
    requires k != "usermetadata"
    ensures Get(WithUserMetadata(payload, metadata), k) == Get(payload, k)
  {
    if metadata.Some? && metadata.value != [] && Metadata.Format(metadata).Some? {
      PutFrame(payload, "usermetadata", Metadata.Format(metadata).value);
    }
  }

  /**
   * The document payload names the title and the texts, has an `origin`
   * exactly when the source URL is truthy, and no metadata yet.
   */
  lemma DocumentPayloadFields(content: string, title: string, sourceUrl: Value, documentType: string, now: string)
    ensures var p := DocumentPayload(content, title, sourceUrl, documentType, now);
      && Get(p, "title") == Some(Str(title))
      && Get(p, "texts") == Some(Texts(content, documentType))
      && Get(p, "origin") == (if Truthy(sourceUrl) then Some(Origin(sourceUrl, now)) else None)
      && Get(p, "usermetadata").None?
  {
    var payload := [Entry("title", Str(title)), Entry("texts", Texts(content, documentType))];
    assert Keys(payload) == ["title", "texts"];
    assert |"origin"| != |"title"| && |"origin"| != |"texts"|;
    GetNoneIffAbsent(payload, "origin");
    var p := DocumentPayload(content, title, sourceUrl, documentType, now);
    if Truthy(sourceUrl) {
      assert p == payload + [Entry("origin", Origin(sourceUrl, now))];
      assert Keys(p) == ["title", "texts", "origin"];
    } else {
      assert Keys(p) == ["title", "texts"];
    }
    assert |"usermetadata"| != |"title"| && |"usermetadata"| != |"texts"| && |"usermetadata"| != |"origin"|;
    GetNoneIffAbsent(p, "usermetadata");
  }

  /**
   * `upload_document` POSTs to `/resources` with the writer key. The payload
   * names the title and the body in the chosen text format; it has an
   * `origin` exactly when the source URL is truthy, naming that URL as both
   * source id and URL with the clock reading; its metadata flattens back to
   * `{k: str(v)}` over the kept entries.
   */
  lemma UploadDocumentPayload(ix: Indexer, content: string, title: string, sourceUrl: Value,
                              documentType: string, metadata: Option<seq<Entry>>, now: string, outcome: HttpOutcome)
    ensures var x := UploadDocument(ix, content, title, sourceUrl, documentType, metadata, now, outcome);
      && x.sent.Some? && x.result == UploadResult(outcome)
      && x.sent.value.verb == "POST" && x.sent.value.url == ix.KbBaseUrl() + "/resources"
      && x.sent.value.headers == ix.EditHeaders()
      && x.sent.value.payload.Dict?
      && Get(x.sent.value.payload.entries, "title") == Some(Str(title))
      && Get(x.sent.value.payload.entries, "texts")
           == Some(Dict([Entry("text", Dict([Entry("body", Str(content)), Entry("format", Str(TextFormat(documentType)))]))]))
      && Get(x.sent.value.payload.entries, "origin")
           == (if Truthy(sourceUrl)
               then Some(Dict([Entry("source_id", sourceUrl), Entry("url", sourceUrl), Entry("created", Str(now))]))
               else None)
      && Metadata.Flatten(UserMetadataOf(x.sent.value)) == (if metadata.None? then [] else Metadata.StringifiedKept(metadata.value))
  {
    var p := DocumentPayload(content, title, sourceUrl, documentType, now);
    DocumentPayloadFields(content, title, sourceUrl, documentType, now);
    WithUserMetadataKeeps(p, metadata, "title");
    WithUserMetadataKeeps(p, metadata, "texts");
    WithUserMetadataKeeps(p, metadata, "origin");
    WithUserMetadataSent(p, metadata);
    Metadata.RoundTrip(metadata);
  }

  /**
   * The title `upload_from_url` sends is the caller's when it is non-empty and
   * otherwise names the URL; the metadata it sends flattens back to `{k: str(v)}`
   * over the kept entries, and is absent when none is kept.
   */
  lemma UploadFromUrlPayload(ix: Indexer, url: Value, title: Value, metadata: Option<seq<Entry>>, outcome: HttpOutcome)
    ensures var r := UploadFromUrl(ix, url, title, metadata, outcome).sent.value;
      && r.verb == "POST" && r.url == ix.KbBaseUrl() + "/resources"
      && Get(r.payload.entries, "title") == Some(if Truthy(title) then title else Str("Content from " + PyStr(url)))
      && Truthy(OrNone(Get(r.payload.entries, "title")))
      && Metadata.Flatten(UserMetadataOf(r)) == (if metadata.None? then [] else Metadata.StringifiedKept(metadata.value))
  {
    var payload := [Entry("title", UrlTitle(url, title)),
                    Entry("links", Dict([Entry("link", Dict([Entry("uri", url)]))]))];
    assert Get(payload, "usermetadata").None? by {
      assert Keys(payload) == ["title", "links"];
      assert |"usermetadata"| != |"title"| && |"usermetadata"| != |"links"|;
      GetNoneIffAbsent(payload, "usermetadata");
    }
    WithUserMetadataSent(payload, metadata);
    Metadata.RoundTrip(metadata);
    if !Truthy(title) {
      assert ("Content from " + PyStr(url))[0] == 'C';
    }
  }

  /**
   * `patch_resource` sends nothing, and answers with its fixed refusal, exactly
   * when every value is `None` or `""`; otherwise it sends a PATCH whose
   * metadata flattens back to `{k: str(v)}` over the kept entries.
   */
  lemma PatchRefusedIffNothingKept(ix: Indexer, documentId: Value, metadata: seq<Entry>, outcome: HttpOutcome)
    ensures var x := PatchResource(ix, documentId, metadata, outcome);
      && (x.sent.None? <==> forall i :: 0 <= i < |metadata| ==> !Metadata.Kept(metadata[i].val))
      && (x.sent.None? ==> x.result == Returned(Failure(PatchRefusal)))
      && (x.sent.Some? ==>
            && x.sent.value.verb == "PATCH"
            && Metadata.Flatten(UserMetadataOf(x.sent.value)) == Metadata.StringifiedKept(metadata)
            && x.result.Returned?
            && (Get(x.result.value.entries, "success") == Some(Bool(true)) <==> outcome.Answered?))
  {
    Metadata.FormattedEmptyIffNoneKept(metadata);
    var x := PatchResource(ix, documentId, metadata, outcome);
    match Metadata.Format(Some(metadata)) {
      case None =>
      case Some(formatted) =>
        Metadata.RoundTrip(Some(metadata));
        assert UserMetadataOf(x.sent.value) == formatted;
    }
  }

  /** The `success` flag of a patch is true exactly when the PATCH was sent and answered. */
  lemma PatchSuccessFlag(ix: Indexer, documentId: Value, metadata: seq<Entry>, outcome: HttpOutcome)
    ensures var x := PatchResource(ix, documentId, metadata, outcome);
      Truthy(GetOr(x.result.value.entries, "success", Null)) <==> x.sent.Some? && outcome.Answered?
  {
    PatchRefusedIffNothingKept(ix, documentId, metadata, outcome);
  }

  /**
   * `rephrase_query` POSTs the query to `/predict/rephrase` with the reader
   * key, and adds the context exactly when it is truthy.
   */
  lemma RephrasePayload(ix: Indexer, query: Value, context: Value, outcome: HttpOutcome)
    ensures var r := RephraseQuery(ix, query, context, outcome).sent.value;
      && r.verb == "POST" && r.url == ix.KbBaseUrl() + "/predict/rephrase" && r.headers == ix.SearchHeaders()
      && r.payload.Dict?
      && Get(r.payload.entries, "query") == Some(query)
      && Get(r.payload.entries, "context") == (if Truthy(context) then Some(context) else None)
  {
    var payload := [Entry("query", query)];
    assert Keys(payload) == ["query"];
    assert |"context"| != |"query"|;
    GetNoneIffAbsent(payload, "context");
  }

  /**
   * Unless the service's answer is not a dictionary, `rephrase_query` always
   * returns a `rephrased_query`: the original query when the call failed or the
   * answer has none.
   */
  lemma RephraseAlwaysAnswers(ix: Indexer, query: Value, context: Value, outcome: HttpOutcome)
    ensures var x := RephraseQuery(ix, query, context, outcome);
      && (outcome.RequestFailed? || outcome.json.Dict? <==> x.result.Returned?)
      && (x.result.Returned? ==> x.result.value.Dict? && Get(x.result.value.entries, "rephrased_query").Some?)
      && (outcome.RequestFailed? ==>
            Get(x.result.value.entries, "rephrased_query") == Some(query)
            && Get(x.result.value.entries, "success") == Some(Bool(false)))
      && (outcome.Answered? && outcome.json.Dict? && Get(outcome.json.entries, "rephrased_query").None? ==>
            Get(x.result.value.entries, "rephrased_query") == Some(query))
  {
    if outcome.RequestFailed? {
      var f := Failure(outcome.error).entries;
      assert Keys(f) == ["success", "error"];
    }
  }
}
