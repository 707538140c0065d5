/**
 * `ask_with_json_schema` in backend/indexing.py: the service's answer text
 * may hold several JSON documents one after the other. They are decoded
 * from left to right with a cursor until the first remainder that does not
 * decode, and the decoded documents are merged into one
 * `{"products": [...], "summary": "..."}` record.
 *
 * The JSON decoder (`json.JSONDecoder.raw_decode`) is a parameter: given the
 * rest of the text, it yields a value and how many characters it used, or
 * a decode error.
 */
module AnswerStream {
  import opened PyValue
  import opened Http
  import NucliaRequests

  datatype DecodeResult = Decoded(doc: Value, end: nat) | DecodeError

  /** What `raw_decode` guarantees: a decoded value used at least one and at most all characters. */
  ghost predicate Consumes(decode: string -> DecodeResult)
  {
    forall s {:trigger decode(s)} :: decode(s).Decoded? ==> 0 < decode(s).end <= |s|
  }

  /**
   * The documents decoded from `s`: one at the start of `s`, then the rest
   * after the whitespace that follows it; nothing from the first remainder
   * that does not decode on.
   */
  function Stream(decode: string -> DecodeResult, s: string): (vs: seq<Value>)
    requires Consumes(decode)
    ensures |vs| <= |s|
    decreases |s|
  {
    if s == [] then []
    else
      match decode(s)
      case DecodeError => []
      case Decoded(v, end) => [v] + Stream(decode, LStrip(s[end..]))
  }

  /**
   * The parse loop: the answer is left-stripped, then decoded document by
   * document. `stop` is where decoding stopped (the remainder the source
   * logs): the end of the text, or a position where the decoder fails.
   */
  method ParseAnswer(decode: string -> DecodeResult, answer: string)
    returns (documents: seq<Value>, stripped: string, stop: nat)
    requires Consumes(decode)
    ensures stripped == LStrip(answer)
    ensures documents == Stream(decode, stripped)
    ensures stop <= |stripped|
    ensures stop < |stripped| ==> decode(stripped[stop..]).DecodeError?
  {
    stripped := LStrip(answer);
    documents, stop := DecodeAll(decode, stripped);
  }

  /** The decoding loop over the stripped text, from its start to the first failure or the end. */
  method DecodeAll(decode: string -> DecodeResult, s: string) returns (documents: seq<Value>, stop: nat)
    requires Consumes(decode)
    ensures documents == Stream(decode, s)
    ensures stop <= |s|
    ensures stop < |s| ==> decode(s[stop..]).DecodeError?
  {
    documents := [];
    var pos := 0;
    assert s[pos..] == s;
    while pos < |s|
      invariant 0 <= pos <= |s|
      invariant documents + Stream(decode, s[pos..]) == Stream(decode, s)
      decreases |s| - pos
    {
      var d := decode(s[pos..]);
      if d.DecodeError? {
        break;
      }
      var next := SkipSpace(s, pos + d.end);
      StreamAdvance(decode, s, documents, pos, d, next);
      documents := documents + [d.doc];
      pos := next;
    }
    StreamDone(decode, s, documents, pos);
    stop := pos;
  }

  /** One step of the stream: the document decoded at `pos`, then those after the whitespace that follows it. */
  lemma StreamStep(decode: string -> DecodeResult, s: string, pos: nat)
    requires Consumes(decode)
    requires pos < |s| && decode(s[pos..]).Decoded?
    ensures 0 < decode(s[pos..]).end <= |s| - pos
    ensures Stream(decode, s[pos..])
      == [decode(s[pos..]).doc] + Stream(decode, LStrip(s[pos + decode(s[pos..]).end..]))
  {
    assert s[pos..][decode(s[pos..]).end..] == s[pos + decode(s[pos..]).end..];
  }

  /** The loop's step: the decoded document joins those already parsed. */
  lemma StreamAdvance(decode: string -> DecodeResult, s: string, documents: seq<Value>, pos: nat, d: DecodeResult, next: nat)
    requires Consumes(decode) && pos < |s|
    requires d == decode(s[pos..]) && d.Decoded?
    requires next <= |s| && s[next..] == LStrip(s[pos + d.end..])
    requires documents + Stream(decode, s[pos..]) == Stream(decode, s)
    ensures (documents + [d.doc]) + Stream(decode, s[next..]) == Stream(decode, s)
  {
    StreamStep(decode, s, pos);
    AppendAssoc(documents, [d.doc], Stream(decode, s[next..]));
  }

  /** The loop's exit: at the end of the text or at a failing decode, everything parsed is the stream. */
  lemma StreamDone(decode: string -> DecodeResult, s: string, documents: seq<Value>, pos: nat)
    requires Consumes(decode) && pos <= |s|
    requires documents + Stream(decode, s[pos..]) == Stream(decode, s)
    requires pos < |s| ==> decode(s[pos..]).DecodeError?
    ensures documents == Stream(decode, s)
  {
    assert Stream(decode, s[pos..]) == [];
    AppendNil(documents);
  }

  /** The index the whitespace run starting at `i` ends at. */
  function SkipFrom(s: string, i: nat): (j: nat)
    requires i <= |s|
    ensures i <= j <= |s|
    decreases |s| - i
  {
    if i < |s| && IsSpace(s[i]) then SkipFrom(s, i + 1) else i
  }

  /** Skipping by index is left-stripping the suffix. */
  lemma {:induction false} SkipFromStrips(s: string, i: nat)
    requires i <= |s|
    ensures s[SkipFrom(s, i)..] == LStrip(s[i..])
    decreases |s| - i
  {
    if i < |s| && IsSpace(s[i]) {
      SkipFromStrips(s, i + 1);
      assert s[i..][1..] == s[i + 1..];
    } else {
      LStripSkips(s[i..], 0);
    }
  }

  /** The inner loop: moves the cursor past the whitespace that starts at `from`. */
  method SkipSpace(s: string, from: nat) returns (pos: nat)
    requires from <= |s|
    ensures from <= pos <= |s|
    ensures s[pos..] == LStrip(s[from..])
  {
    pos := from;
    while pos < |s| && IsSpace(s[pos])
      invariant from <= pos <= |s|
      invariant SkipFrom(s, pos) == SkipFrom(s, from)
    {
      pos := pos + 1;
    }
    SkipFromStrips(s, from);
  }

  /** Stripping leading whitespace is skipping exactly the whitespace run. */
  lemma {:induction false} LStripSkips(t: string, n: nat)
    requires n <= |t|
    requires forall k :: 0 <= k < n ==> IsSpace(t[k])
    requires n == |t| || !IsSpace(t[n])
    ensures LStrip(t) == t[n..]
  {
    if n > 0 {
      LStripSkips(t[1..], n - 1);
      assert t[1..][n - 1..] == t[n..];
    }
  }

  // -----------------------------------------------------------------------
  // Merging the decoded documents

  /**
   * The products one decoded document contributes: its `products` list when
   * it has one, otherwise the document itself when it has both a `name` and
   * a `price`; nothing from anything that is not a dictionary.
   */
  function ProductsOf(item: Value): seq<Value>
  {
    if !item.Dict? then []
    else
      match Get(item.entries, "products")
      case Some(List(products)) => products
      case _ => if HasKey(item, "name") && HasKey(item, "price") then [item] else []
  }

  /** The summary one document contributes: its `summary` when present and not empty. */
  function SummaryOf(item: Value): seq<Value>
  {
    if !item.Dict? then []
    else
      match Get(item.entries, "summary")
      case Some(summary) => if Truthy(summary) then [summary] else []
      case None => []
  }

  function AllProducts(items: seq<Value>): seq<Value>
  {
    if items == [] then [] else AllProducts(items[..|items| - 1]) + ProductsOf(items[|items| - 1])
  }

  function AllSummaries(items: seq<Value>): seq<Value>
  {
    if items == [] then [] else AllSummaries(items[..|items| - 1]) + SummaryOf(items[|items| - 1])
  }

  /** The merged record before the empty-products check. */
  datatype Combined = Combined(products: seq<Value>, summary: string)

  /**
   * The merge: products spliced in document order, summaries joined with
   * `" | "`; raises when a summary is not a string.
   */
  method CombineDocuments(documents: seq<Value>) returns (r: Outcome<Combined>)
    ensures r.Returned? <==> forall i :: 0 <= i < |AllSummaries(documents)| ==> AllSummaries(documents)[i].Str?
    ensures r.Returned? ==> r.value.products == AllProducts(documents)
    ensures r.Returned? ==> Join(" | ", AllSummaries(documents)) == Returned(r.value.summary)
    ensures r.Raised? ==> Join(" | ", AllSummaries(documents)) == Raised(r.message)
  {
    if documents == [] {
      return Returned(Combined([], ""));
    }
    var allProducts: seq<Value> := [];
    var summaries: seq<Value> := [];
    for i := 0 to |documents|
      invariant allProducts == AllProducts(documents[..i])
      invariant summaries == AllSummaries(documents[..i])
    {
      assert documents[..i + 1][..i] == documents[..i];
      var item := documents[i];
      if item.Dict? {
        var products := Get(item.entries, "products");
        if products.Some? && products.value.List? {
          allProducts := allProducts + products.value.items;
        } else if HasKey(item, "name") && HasKey(item, "price") {
          allProducts := allProducts + [item];
        }
        var summary := Get(item.entries, "summary");
        if summary.Some? && Truthy(summary.value) {
          summaries := summaries + [summary.value];
        }
      }
    }
    assert documents[..|documents|] == documents;
    match Join(" | ", summaries) {
      case Raised(m) => r := Raised(m);
      case Returned(s) => r := Returned(Combined(allProducts, s));
    }
  }

  /** `structured_data`: the merged record, or `None` when it holds no product. */
  function StructuredData(c: Combined): Value
  {
    if c.products == [] then Null
    else Dict([Entry("products", List(c.products)), Entry("summary", Str(c.summary))])
  }

  /** The merge as a value: `structured_data`, or the `TypeError` of the summary join. */
  function Merged(documents: seq<Value>): (r: Outcome<Value>)
    ensures r.Returned? <==> Join(" | ", AllSummaries(documents)).Returned?
    ensures r.Returned? ==> (r.value == Null <==> AllProducts(documents) == [])
  {
    match Join(" | ", AllSummaries(documents))
    case Raised(m) => Raised(m)
    case Returned(summary) => Returned(StructuredData(Combined(AllProducts(documents), summary)))
  }

  /**
   * What `ask_with_json_schema` returns for a service reply that decoded to
   * a dictionary: the stripped answer, the merge of the documents decoded
   * from it and the citations; an `answer` that is not a string raises.
   */
  function AskReply(decode: string -> DecodeResult, reply: seq<Entry>): (r: Outcome<Value>)
    requires Consumes(decode)
    ensures r.Returned? ==> r.value.Dict? && Get(r.value.entries, "success") == Some(Bool(true))
  {
    var answer := GetOr(reply, "answer", Str(""));
    if !answer.Str? then Raised(NoAttribute(answer, "lstrip"))
    else
      match Merged(Stream(decode, LStrip(answer.s)))
      case Raised(m) => Raised(m)
      case Returned(data) =>
        Returned(Dict([Entry("success", Bool(true)),
                       Entry("answer", Str(LStrip(answer.s))),
                       Entry("structured_data", data),
                       Entry("citations", GetOr(reply, "citations", List([])))]))
  }

  /**
   * What `ask_with_json_schema` returns for the service's reply: the failure
   * dictionary for a failed request, the `AttributeError` for a reply that
   * is not a dictionary, and otherwise the parsed and merged answer. Only a
   * failed request yields an unsuccessful dictionary.
   */
  function AskResult(decode: string -> DecodeResult, outcome: HttpOutcome): (r: Outcome<Value>)
    requires Consumes(decode)
    ensures r.Returned? ==> r.value.Dict?
    ensures r.Returned? ==> (Truthy(GetOr(r.value.entries, "success", Null)) <==> outcome.Answered?)
    ensures outcome.RequestFailed? ==> r == Returned(Failure(outcome.error))
  {
    match outcome
    case RequestFailed(error) => Returned(Failure(error))
    case Answered(json) =>
      if !json.Dict? then Raised(NoAttribute(json, "get")) else AskReply(decode, json.entries)
  }

  /**
   * `ask_with_json_schema`: sends the query with the product schema, then
   * parses and merges the answer.
   */
  method AskWithJsonSchema(ix: NucliaRequests.Indexer, query: Value, schema: Value,
                           decode: string -> DecodeResult, outcome: HttpOutcome)
    returns (sent: Request, r: Outcome<Value>)
    requires Consumes(decode)
    ensures sent == Request("POST", ix.KbBaseUrl() + "/ask", ix.SearchHeaders(),
                            Dict([Entry("query", query), Entry("answer_json_schema", schema)]))
    ensures r == AskResult(decode, outcome)
  {
    sent := Request("POST", ix.KbBaseUrl() + "/ask", ix.SearchHeaders(),
                    Dict([Entry("query", query), Entry("answer_json_schema", schema)]));
    if outcome.RequestFailed? {
      return sent, Returned(Failure(outcome.error));
    }
    var result := outcome.json;
    if !result.Dict? {
      return sent, Raised(NoAttribute(result, "get"));
    }
    var answer := GetOr(result.entries, "answer", Str(""));
    var citations := GetOr(result.entries, "citations", List([]));
    if !answer.Str? {
      return sent, Raised(NoAttribute(answer, "lstrip"));
    }
    var documents, stripped, stop := ParseAnswer(decode, answer.s);
    var combined := CombineDocuments(documents);
    if combined.Raised? {
      assert Merged(documents) == Raised(combined.message);
      return sent, Raised(combined.message);
    }
    assert Merged(documents) == Returned(StructuredData(combined.value));
    r := Returned(Dict([Entry("success", Bool(true)),
                        Entry("answer", Str(stripped)),
                        Entry("structured_data", StructuredData(combined.value)),
                        Entry("citations", citations)]));
  }

  // -----------------------------------------------------------------------
  // Properties of the parse and the merge

  /** Products are collected in document order. */
  lemma {:induction false} ProductsInOrder(a: seq<Value>, b: seq<Value>)
    ensures AllProducts(a + b) == AllProducts(a) + AllProducts(b)
  {
    if b == [] {
      assert a + b == a;
    } else {
      var init, last := b[..|b| - 1], b[|b| - 1];
      ProductsInOrder(a, init);
      DropLast(a, b);
      AppendAssoc(AllProducts(a), AllProducts(init), ProductsOf(last));
    }
  }

  /** Summaries are collected in document order. */
  lemma {:induction false} SummariesInOrder(a: seq<Value>, b: seq<Value>)
    ensures AllSummaries(a + b) == AllSummaries(a) + AllSummaries(b)
  {
    if b == [] {
      assert a + b == a;
    } else {
      var init, last := b[..|b| - 1], b[|b| - 1];
      SummariesInOrder(a, init);
      DropLast(a, b);
      AppendAssoc(AllSummaries(a), AllSummaries(init), SummaryOf(last));
    }
  }

  /** A document in the shape the schema asks for: a dictionary without a `products` list, with a `name` and a `price`. */
  predicate BareProduct(v: Value)
  {
    v.Dict? && HasKey(v, "name") && HasKey(v, "price")
    && !(Get(v.entries, "products").Some? && Get(v.entries, "products").value.List?)
  }

  lemma {:induction false} BareProductsCollected(items: seq<Value>)
    requires forall i :: 0 <= i < |items| ==> BareProduct(items[i])
    ensures AllProducts(items) == items
  {
    if items != [] {
      BareProductsCollected(items[..|items| - 1]);
      assert items[..|items| - 1] + [items[|items| - 1]] == items;
    }
  }

  /**
   * The decoder reads back each of the documents `vs` from its encoding,
   * whatever follows it as long as that starts with whitespace or is empty.
   */
  ghost predicate DecodesEach(decode: string -> DecodeResult, encode: Value -> string, vs: seq<Value>)
  {
    forall i, rest :: 0 <= i < |vs| ==> ReadsBack(decode, encode, vs[i], rest)
  }

  /** The encoding of `v` is a non-empty text that starts with no whitespace, and `v` is decoded back from it when `rest` follows. */
  ghost predicate ReadsBack(decode: string -> DecodeResult, encode: Value -> string, v: Value, rest: string)
  {
    && encode(v) != [] && !IsSpace(encode(v)[0])
    && (rest == [] || IsSpace(rest[0]) ==> decode(encode(v) + rest) == Decoded(v, |encode(v)|))
  }

  /** Newline-delimited documents: each encoding followed by a line break. */
  function Lines(encode: Value -> string, vs: seq<Value>): string
  {
    if vs == [] then [] else encode(vs[0]) + "\n" + Lines(encode, vs[1..])
  }

  /**
   * Decoding newline-delimited documents followed by text that does not
   * decode (or by nothing) gives exactly those documents.
   */
  lemma {:induction false} StreamOfLines(decode: string -> DecodeResult, encode: Value -> string, vs: seq<Value>, tail: string)
    requires Consumes(decode) && DecodesEach(decode, encode, vs)
    requires tail == [] || (!IsSpace(tail[0]) && decode(tail).DecodeError?)
    ensures Stream(decode, Lines(encode, vs) + tail) == vs
  {
    if vs == [] {
      assert Lines(encode, vs) + tail == tail;
    } else {
      var rest := Lines(encode, vs[1..]) + tail;
      assert DecodesEach(decode, encode, vs[1..]) by {
        forall i, r | 0 <= i < |vs[1..]|
          ensures ReadsBack(decode, encode, vs[1..][i], r)
        {
          assert vs[1..][i] == vs[i + 1];
        }
      }
      LinesStartClean(decode, encode, vs[1..], tail);
      AppendAssoc(encode(vs[0]) + "\n", Lines(encode, vs[1..]), tail);
      assert ReadsBack(decode, encode, vs[0], "\n" + rest);
      LineStep(decode, encode, vs[0], rest);
      StreamOfLines(decode, encode, vs[1..], tail);
      assert [vs[0]] + vs[1..] == vs;
    }
  }

  /** Lines of encoded documents start with no whitespace, unless they are empty and the tail does. */
  lemma LinesStartClean(decode: string -> DecodeResult, encode: Value -> string, vs: seq<Value>, tail: string)
    requires DecodesEach(decode, encode, vs)
    requires tail == [] || !IsSpace(tail[0])
    ensures Lines(encode, vs) + tail == [] || !IsSpace((Lines(encode, vs) + tail)[0])
  {
    if vs != [] {
      assert ReadsBack(decode, encode, vs[0], []);
      assert (Lines(encode, vs) + tail)[0] == encode(vs[0])[0];
    }
  }

  /** Dropping the last element of `a + b`, for a non-empty `b`. */
  lemma DropLast<T>(a: seq<T>, b: seq<T>)
    requires b != []
    ensures (a + b)[..|a + b| - 1] == a + b[..|b| - 1] && (a + b)[|a + b| - 1] == b[|b| - 1]
  {
  }

  lemma AppendNil<T>(a: seq<T>)
    ensures a + [] == a
  {
  }

  lemma AppendAssoc<T>(a: seq<T>, b: seq<T>, c: seq<T>)
    ensures (a + b) + c == a + (b + c)
  {
  }

  /** One line: the document, then what follows its line break. */
  lemma LineStep(decode: string -> DecodeResult, encode: Value -> string, v: Value, rest: string)
    requires Consumes(decode) && ReadsBack(decode, encode, v, "\n" + rest)
    requires rest == [] || !IsSpace(rest[0])
    ensures Stream(decode, encode(v) + "\n" + rest) == [v] + Stream(decode, rest)
  {
    var e := encode(v);
    var s := e + "\n" + rest;
    assert s == e + ("\n" + rest);
    assert s[|e|..] == "\n" + rest;
    LStripSkips("\n" + rest, 1);
    assert ("\n" + rest)[1..] == rest;
  }

  /**
   * End to end: an answer made of newline-delimited bare products, followed
   * by trailing text that does not decode, yields exactly those products, in
   * order.
   */
  lemma LinesOfProducts(decode: string -> DecodeResult, encode: Value -> string, vs: seq<Value>, trailer: string)
    requires Consumes(decode) && DecodesEach(decode, encode, vs)
    requires forall i :: 0 <= i < |vs| ==> BareProduct(vs[i])
    requires trailer == [] || (!IsSpace(trailer[0]) && decode(trailer).DecodeError?)
    ensures Stream(decode, LStrip(Lines(encode, vs) + trailer)) == vs
    ensures AllProducts(Stream(decode, LStrip(Lines(encode, vs) + trailer))) == vs
  {
    var s := Lines(encode, vs) + trailer;
    LinesStartClean(decode, encode, vs, trailer);
    LStripSkips(s, 0);
    StreamOfLines(decode, encode, vs, trailer);
    BareProductsCollected(vs);
  }
}
