/**
 * The two product extractors of backend/indexing.py:
 * `extract_bn_product_details_from_content` for Barnes & Noble pages and
 * `extract_product_details_from_content` for any other page.
 *
 * Both start from a record of defaults and overwrite one field at a time
 * with the first candidate that passes that field's test. The candidates
 * themselves come from an HTML parser and from regular expressions; here
 * they are inputs (`BnPage`, `Scan`), and only the tests and rewrites the
 * extractors apply to them are modelled.
 */
module Extraction {
  import opened PyValue

  // -----------------------------------------------------------------------
  // First accepted candidate

  /** The first candidate that `pick` accepts, rewritten by `pick`. */
  function First<T, R>(cands: seq<T>, pick: T -> Option<R>): Option<R>
  {
    if cands == [] then None
    else if pick(cands[0]).Some? then pick(cands[0])
    else First(cands[1..], pick)
  }

  /**
   * The loop every field uses: try the candidates in order and stop
   * (`break`) at the first one accepted.
   */
  method FirstAccepted<T, R>(cands: seq<T>, pick: T -> Option<R>) returns (r: Option<R>)
    ensures r == First(cands, pick)
  {
    r := None;
    for i := 0 to |cands|
      invariant First(cands, pick) == First(cands[i..], pick)
    {
      var p := pick(cands[i]);
      if p.Some? {
        r := p;
        break;
      }
      assert cands[i..][1..] == cands[i + 1..];
    }
  }

  /**
   * `First` picks the earliest accepted candidate: it yields `x` exactly when
   * some candidate is accepted as `x` and none before it is accepted at all.
   */
  lemma {:induction false} FirstIsEarliest<T, R>(cands: seq<T>, pick: T -> Option<R>, x: R)
    ensures First(cands, pick) == Some(x) <==>
      exists i :: 0 <= i < |cands| && pick(cands[i]) == Some(x) && forall k :: 0 <= k < i ==> pick(cands[k]).None?
  {
    if cands != [] {
      FirstIsEarliest(cands[1..], pick, x);
      if First(cands, pick) == Some(x) && pick(cands[0]).None? {
        var i :| 0 <= i < |cands[1..]| && pick(cands[1..][i]) == Some(x) && forall k :: 0 <= k < i ==> pick(cands[1..][k]).None?;
        assert pick(cands[i + 1]) == Some(x);
        forall k | 0 <= k < i + 1
          ensures pick(cands[k]).None?
        {
          if k > 0 {
            assert cands[k] == cands[1..][k - 1];
          }
        }
      }
      if exists i :: 0 <= i < |cands| && pick(cands[i]) == Some(x) && forall k :: 0 <= k < i ==> pick(cands[k]).None? {
        var i :| 0 <= i < |cands| && pick(cands[i]) == Some(x) && forall k :: 0 <= k < i ==> pick(cands[k]).None?;
        if i > 0 {
          assert pick(cands[1..][i - 1]) == Some(x);
          forall k | 0 <= k < i - 1
            ensures pick(cands[1..][k]).None?
          {
            assert cands[1..][k] == cands[k + 1];
          }
        }
      }
    }
  }

  /** No candidate at all is accepted exactly when `First` yields nothing. */
  lemma {:induction false} FirstNoneIffAllRejected<T, R>(cands: seq<T>, pick: T -> Option<R>)
    ensures First(cands, pick).None? <==> forall i :: 0 <= i < |cands| ==> pick(cands[i]).None?
  {
    if cands != [] {
      FirstNoneIffAllRejected(cands[1..], pick);
      assert forall i :: 1 <= i < |cands| ==> cands[i] == cands[1..][i - 1];
    }
  }

  /** The chosen value, or the field's default when no candidate is accepted. */
  function OrElse<R>(o: Option<R>, default: R): R
  {
    if o.Some? then o.value else default
  }

  // -----------------------------------------------------------------------
  // Text rewrites shared by both extractors

  /** `s[:n] + "..." if len(s) > n else s`. */
  function Truncated(s: string, n: nat): (r: string)
    ensures |s| <= n ==> r == s
    ensures |r| <= n + 3
    ensures |s| > n ==> |r| == n + 3 && r[..n] == s[..n] && r[n..] == "..."
  {
    if |s| > n then s[..n] + "..." else s
  }

  /** Element text, stripped, when the element exists and the text is not blank. */
  function StrippedText(elem: Option<string>): (r: Option<string>)
    ensures r.Some? <==> elem.Some? && Strip(elem.value) != []
    ensures r.Some? ==> r.value != [] && |r.value| <= |elem.value|
    ensures r.Some? ==> !IsSpace(r.value[0]) && !IsSpace(r.value[|r.value| - 1])
  {
    if elem.Some? && Strip(elem.value) != "" then Some(Strip(elem.value)) else None
  }

  /** A regular-expression match's group, stripped (blank included). */
  function StrippedMatch(m: Option<string>): (r: Option<string>)
    ensures r.Some? <==> m.Some?
    ensures r.Some? ==> |r.value| <= |m.value|
    ensures r.Some? && r.value != [] ==> !IsSpace(r.value[0]) && !IsSpace(r.value[|r.value| - 1])
  {
    if m.Some? then Some(Strip(m.value)) else None
  }

  // -----------------------------------------------------------------------
  // Barnes & Noble

  const BnHost: string := "https://www.barnesandnoble.com"
  /** The stand-in image URL; written as scheme and rest so that its first characters are visible to proofs. */
  const PlaceholderImage: string := "https://" + "via.placeholder.com/300x300?text=No+Image"
  const UnknownAuthor: string := "Unknown Author"

  /** The author block of a page: the hidden input's `value`, and the link's text. */
  datatype AuthorSection = AuthorSection(inputValue: Option<string>, linkText: Option<string>)

  /** The `src`, `data-src` and `data-lazy-src` attributes of an image element. */
  datatype ImgAttrs = ImgAttrs(src: Option<string>, dataSrc: Option<string>, dataLazySrc: Option<string>)

  /**
   * What the parser finds inside the product container of a Barnes & Noble
   * page: the author block, and for every other field the texts (or image
   * attributes) of its candidate elements in priority order, `None` for a
   * candidate not found.
   */
  datatype BnPage = BnPage(authors: Option<AuthorSection>,
                           titles: seq<Option<string>>,
                           prices: seq<Option<string>>,
                           descriptions: seq<Option<string>>,
                           images: seq<Option<ImgAttrs>>,
                           availabilities: seq<Option<string>>)

  datatype BnDetails = BnDetails(name: string, price: string, imageUrl: string, description: string,
                                 supplier: string, author: string, availability: string, productUrl: string)
  {
    /** The dictionary the extractor returns, keys in their insertion order. */
    function AsDict(): (d: seq<Entry>)
      ensures DistinctKeys(d)
      ensures Get(d, "name") == Some(Str(name)) && Get(d, "price") == Some(Str(price))
      ensures Get(d, "imageUrl") == Some(Str(imageUrl)) && Get(d, "description") == Some(Str(description))
      ensures Get(d, "supplier") == Some(Str(supplier)) && Get(d, "author") == Some(Str(author))
      ensures Get(d, "availability") == Some(Str(availability)) && Get(d, "productUrl") == Some(Str(productUrl))
    {
      var d := [Entry("name", Str(name)), Entry("price", Str(price)), Entry("imageUrl", Str(imageUrl)),
                Entry("description", Str(description)), Entry("supplier", Str(supplier)), Entry("author", Str(author)),
                Entry("availability", Str(availability)), Entry("productUrl", Str(productUrl))];
      GetDistinct(d, 0); GetDistinct(d, 1); GetDistinct(d, 2); GetDistinct(d, 3);
      GetDistinct(d, 4); GetDistinct(d, 5); GetDistinct(d, 6); GetDistinct(d, 7);
      d
    }
  }

  function BnDefaults(sourceUrl: string): BnDetails
  {
    BnDetails("Unknown Product", "Price not available", PlaceholderImage, "No description available.",
              "Barnes & Noble", UnknownAuthor, "Unknown", sourceUrl)
  }

  /** A price candidate: its stripped text, when that holds a `$`. */
  function BnPrice(elem: Option<string>): (r: Option<string>)
    ensures r.Some? <==> elem.Some? && Contains(Strip(elem.value), "$")
    ensures r.Some? ==> Contains(r.value, "$") && r.value != []
    ensures r.Some? ==> !IsSpace(r.value[0]) && !IsSpace(r.value[|r.value| - 1])
  {
    if elem.Some? && Contains(Strip(elem.value), "$") then Some(Strip(elem.value)) else None
  }

  /**
   * A description candidate: used only when its stripped text is longer
   * than 20 characters; beyond 500 characters it is cut to 500 and `...`
   * is added.
   */
  function BnDescription(elem: Option<string>): (r: Option<string>)
    ensures r.Some? <==> elem.Some? && |Strip(elem.value)| > 20
    ensures r.Some? ==> r.value == Truncated(Strip(elem.value), 500)
  {
    if elem.Some? && Strip(elem.value) != "" then
      var text := Strip(elem.value);
      if |text| > 20 then Some(Truncated(text, 500)) else None
    else None
  }

  /** Python's `a or b` over attribute values: `a` unless it is missing or empty. */
  function OrAttr(a: Option<string>, b: Option<string>): Option<string>
  {
    if a.Some? && a.value != "" then a else b
  }

  /**
   * An image URL made usable: missing, empty and `data:` URLs are rejected;
   * a scheme-relative `//` URL gets `https:`, a site-relative `/` URL gets
   * the Barnes & Noble host; anything else is kept.
   */
  function BnImageUrl(url: string): (r: Option<string>)
    ensures r.None? <==> url == [] || StartsWith(url, "data:")
    ensures StartsWith(url, "//") ==> r == Some("https:" + url)
    ensures StartsWith(url, "/") && !StartsWith(url, "//") ==> r == Some(BnHost + url)
    ensures r.Some? && !StartsWith(url, "/") ==> r.value == url
  {
    if url == "" || StartsWith(url, "data:") then
      assert !StartsWith(url, "/") by {
        if url != [] {
          assert url[..5][0] == url[0] == 'd';
        }
      }
      None
    else if StartsWith(url, "//") then Some("https:" + url)
    else if StartsWith(url, "/") then Some(BnHost + url)
    else Some(url)
  }

  /**
   * Every accepted image URL is absolute or page-relative: a URL starting
   * with `/` comes out as an `https:` URL that ends with it, and no
   * accepted URL starts with `/` or `data:`.
   */
  lemma BnImageUrlUsable(url: string)
    requires BnImageUrl(url).Some?
    ensures StartsWith(url, "/") ==> StartsWith(BnImageUrl(url).value, "https:")
    ensures StartsWith(url, "/") ==> EndsWith(BnImageUrl(url).value, url)
    ensures !StartsWith(BnImageUrl(url).value, "/") && !StartsWith(BnImageUrl(url).value, "data:")
  {
    var r := BnImageUrl(url).value;
    if StartsWith(url, "/") {
      var prefix := if StartsWith(url, "//") then "https:" else BnHost;
      assert r == prefix + url;
      assert r[..6] == "https:";
      assert r[|r| - |url|..] == url;
    }
    if StartsWith(url, "/") {
      assert r[0] == 'h';
      assert r[..5][0] == 'h';
    } else {
      assert r == url;
    }
  }

  /** An image candidate: its first non-empty source attribute, made usable. */
  function BnImage(elem: Option<ImgAttrs>): Option<string>
  {
    if elem.None? then None
    else
      var url := OrAttr(OrAttr(elem.value.src, elem.value.dataSrc), elem.value.dataLazySrc);
      if url.Some? && url.value != "" then BnImageUrl(url.value) else None
  }

  /**
   * The author found in the author block: the hidden input's non-empty
   * value, else the link's non-blank text, stripped; otherwise still the
   * default.
   */
  function SectionAuthor(section: Option<AuthorSection>): string
  {
    if section.None? then UnknownAuthor
    else if section.value.inputValue.Some? && section.value.inputValue.value != "" then section.value.inputValue.value
    else OrElse(StrippedText(section.value.linkText), UnknownAuthor)
  }

  /**
   * The final author: while it is still the default after the author block,
   * the first regular-expression match over the whole page, stripped.
   */
  function BnAuthor(section: Option<AuthorSection>, authorMatches: seq<Option<string>>): string
  {
    var author := SectionAuthor(section);
    if author == UnknownAuthor then OrElse(First(authorMatches, StrippedMatch), author) else author
  }

  /**
   * The details a Barnes & Noble page yields. Without a product container
   * (`page` is `None`) the defaults come back untouched, with no
   * regular-expression fallback for the author. An HTML parser that cannot
   * be imported ends the extractor the same way, before anything is set,
   * so it is also `page == None`. Otherwise each field is the first
   * accepted candidate or its default.
   */
  function BnProduct(sourceUrl: string, page: Option<BnPage>, authorMatches: seq<Option<string>>): (r: BnDetails)
    ensures page.None? ==> r == BnDefaults(sourceUrl)
    ensures r.productUrl == sourceUrl && r.supplier == "Barnes & Noble"
  {
    var d := BnDefaults(sourceUrl);
    if page.None? then d
    else
      var p := page.value;
      d.(name := OrElse(First(p.titles, StrippedText), d.name),
         price := OrElse(First(p.prices, BnPrice), d.price),
         description := OrElse(First(p.descriptions, BnDescription), d.description),
         imageUrl := OrElse(First(p.images, BnImage), d.imageUrl),
         availability := OrElse(First(p.availabilities, StrippedText), d.availability),
         author := BnAuthor(p.authors, authorMatches))
  }

  /** `extract_bn_product_details_from_content`, field after field. */
  method ExtractBnProductDetails(sourceUrl: string, page: Option<BnPage>, authorMatches: seq<Option<string>>)
    returns (d: BnDetails)
    ensures d == BnProduct(sourceUrl, page, authorMatches)
  {
    d := BnDefaults(sourceUrl);
    if page.None? {
      return;
    }
    var p := page.value;
    if p.authors.Some? {
      var section := p.authors.value;
      if section.inputValue.Some? && section.inputValue.value != "" {
        d := d.(author := section.inputValue.value);
      } else if d.author == "" || d.author == UnknownAuthor {
        if section.linkText.Some? && Strip(section.linkText.value) != "" {
          d := d.(author := Strip(section.linkText.value));
        }
      }
    }
    var name := FirstAccepted(p.titles, StrippedText);
    d := d.(name := OrElse(name, d.name));
    var price := FirstAccepted(p.prices, BnPrice);
    d := d.(price := OrElse(price, d.price));
    var description := FirstAccepted(p.descriptions, BnDescription);
    d := d.(description := OrElse(description, d.description));
    var image := FirstAccepted(p.images, BnImage);
    d := d.(imageUrl := OrElse(image, d.imageUrl));
    var availability := FirstAccepted(p.availabilities, StrippedText);
    d := d.(availability := OrElse(availability, d.availability));
    if d.author == UnknownAuthor {
      var author := FirstAccepted(authorMatches, StrippedMatch);
      if author.Some? {
        d := d.(author := author.value);
      }
    }
  }

  // -----------------------------------------------------------------------
  // Any other page

  /**
   * The library the generic extractor relies on: `html.unescape`, the
   * `float` parse test, `urljoin`, and whether the interpreter's slice
   * objects are hashable (Python 3.12 and later), which decides how
   * slicing a dictionary fails.
   */
  datatype Library = Library(unescape: string -> string, isFloat: string -> bool, urljoin: (string, string) -> string,
                             hashableSlices: bool)

  /**
   * What the generic extractor's searches find in a page: the decoded
   * JSON-LD blocks in order (`None` for one that does not decode), and the
   * first group of every name, price, image, supplier and availability
   * pattern (`None` for a pattern that does not match).
   */
  datatype Scan = Scan(jsonLd: seq<Option<Value>>,
                       names: seq<Option<string>>,
                       prices: seq<Option<string>>,
                       images: seq<Option<string>>,
                       suppliers: seq<Option<string>>,
                       availabilities: seq<Option<string>>)

  datatype Details = Details(name: Value, price: string, imageUrl: Value, description: Value,
                             supplier: Value, productUrl: string, availability: string)
  {
    /** The dictionary the extractor returns, keys in their insertion order. */
    function AsDict(): (d: seq<Entry>)
      ensures DistinctKeys(d)
      ensures Get(d, "name") == Some(name) && Get(d, "price") == Some(Str(price))
      ensures Get(d, "imageUrl") == Some(imageUrl) && Get(d, "description") == Some(description)
      ensures Get(d, "supplier") == Some(supplier) && Get(d, "productUrl") == Some(Str(productUrl))
      ensures Get(d, "availability") == Some(Str(availability))
    {
      var d := [Entry("name", name), Entry("price", Str(price)), Entry("currency", Str("USD")),
                Entry("imageUrl", imageUrl), Entry("description", description), Entry("supplier", supplier),
                Entry("productUrl", Str(productUrl)), Entry("availability", Str(availability))];
      GetDistinct(d, 0); GetDistinct(d, 1); GetDistinct(d, 3); GetDistinct(d, 4);
      GetDistinct(d, 5); GetDistinct(d, 6); GetDistinct(d, 7);
      d
    }
  }

  /** The generic extractor's dictionary has no `author` entry. */
  lemma NoAuthorColumn(d: Details)
    ensures Get(d.AsDict(), "author") == None
  {
    var keys := Keys(d.AsDict());
    assert keys == ["name", "price", "currency", "imageUrl", "description", "supplier", "productUrl", "availability"];
    assert forall i :: 0 <= i < |keys| ==> |keys[i]| != |"author"|;
    GetNoneIffAbsent(d.AsDict(), "author");
  }

  /** The defaults; the description is the page itself, cut at 200 characters. */
  function GenericDefaults(content: string, sourceUrl: string): Details
  {
    Details(Str("Unknown Product"), "Price not available", Str(PlaceholderImage), Str(Truncated(content, 200)),
            Str("Unknown Supplier"), sourceUrl, "Unknown")
  }

  /** A decoded JSON-LD block that describes a product: a dictionary whose `@type` is `"Product"`. */
  function ProductDoc(block: Option<Value>): (r: Option<seq<Entry>>)
    ensures r.Some? <==> block.Some? && block.value.Dict? && Get(block.value.entries, "@type") == Some(Str("Product"))
    ensures r.Some? ==> Dict(r.value) == block.value
  {
    if block.Some? && block.value.Dict? && Get(block.value.entries, "@type") == Some(Str("Product")) then
      Some(block.value.entries)
    else None
  }

  /**
   * How `v[:n]` ends on a decoded JSON value: with a prefix of a string or a
   * list; with a `KeyError` for a dictionary where slices are hashable (a
   * slice is then looked up as a key, and JSON has no such key); otherwise
   * with a `TypeError` and its message.
   */
  datatype SliceResult = Sliced(value: Value) | KeyError | TypeError(message: string)

  /** `v[:n]`. */
  function Slice(v: Value, n: nat, hashableSlices: bool): (r: SliceResult)
    ensures r.Sliced? <==> v.Str? || v.List?
    ensures r.KeyError? <==> v.Dict? && hashableSlices
    ensures v.Str? ==> r.value.Str? && r.value.s <= v.s && |r.value.s| == (if |v.s| <= n then |v.s| else n)
    ensures v.List? ==> r.value.List? && r.value.items <= v.items && |r.value.items| == (if |v.items| <= n then |v.items| else n)
  {
    match v
    case Str(s) => Sliced(Str(if |s| <= n then s else s[..n]))
    case List(items) => Sliced(List(if |items| <= n then items else items[..n]))
    case Dict(_) => if hashableSlices then KeyError else TypeError("unhashable type: 'slice'")
    case _ => TypeError("'" + TypeName(v) + "' object is not subscriptable")
  }

  /** The JSON-LD `image`: the first of a non-empty list, a string as it is; otherwise unchanged. */
  function JsonLdImage(img: Value, current: Value): Value
  {
    if img.List? && img.items != [] then img.items[0]
    else if img.Str? then img
    else current
  }

  /** The JSON-LD `brand`: a dictionary's `name`, a string as it is; otherwise unchanged. */
  function JsonLdBrand(brand: Value, current: Value): Value
  {
    if brand.Dict? && Get(brand.entries, "name").Some? then Get(brand.entries, "name").value
    else if brand.Str? then brand
    else current
  }

  /** The JSON-LD `offers.price`, as `"$" + str(price)`, when present and truthy. */
  function JsonLdPrice(doc: seq<Entry>, current: string): string
  {
    match Get(doc, "offers")
    case Some(Dict(offers)) =>
      var price := GetOr(offers, "price", Null);
      if Truthy(price) then "$" + PyStr(price) else current
    case _ => current
  }

  /**
   * How reading one JSON-LD product block ends: the extractor returns the
   * details (`Done`); a `KeyError` sends it on to the next block with the
   * fields set so far (`Skipped`); any other error leaves the extractor
   * (`Failed`).
   */
  datatype JsonLdStep = Done(details: Details) | Skipped(details: Details) | Failed(message: string)

  /**
   * The details read from a JSON-LD product: name, price and image taken
   * from the block where it has them, then the description cut to 300,
   * then the supplier. The product URL and the availability are never
   * touched.
   */
  function FromJsonLd(base: Details, doc: seq<Entry>, hashableSlices: bool): (r: JsonLdStep)
    ensures !r.Failed? ==> r.details.productUrl == base.productUrl && r.details.availability == base.availability
  {
    var d := base.(name := OrElse(Get(doc, "name"), base.name),
                   price := JsonLdPrice(doc, base.price),
                   imageUrl := if Get(doc, "image").Some? then JsonLdImage(Get(doc, "image").value, base.imageUrl) else base.imageUrl);
    if Get(doc, "description").None? then Done(WithBrand(d, doc))
    else
      match Slice(Get(doc, "description").value, 300, hashableSlices)
      case Sliced(text) => Done(WithBrand(d.(description := text), doc))
      case KeyError => Skipped(d)
      case TypeError(m) => Failed(m)
  }

  /** The JSON-LD `brand`, when the block has one, as the supplier. */
  function WithBrand(d: Details, doc: seq<Entry>): Details
  {
    if Get(doc, "brand").Some? then d.(supplier := JsonLdBrand(Get(doc, "brand").value, d.supplier)) else d
  }

  /** Where the JSON-LD search ends: with the extractor's result, or with the details the pattern fallbacks start from. */
  datatype JsonLdResult = Finished(result: Outcome<Details>) | Fallback(details: Details)

  /**
   * The JSON-LD search over the decoded blocks in order: a block that is not
   * a product is passed over, a product block that raises a `KeyError` is
   * passed over with the fields it set kept, and any other product block
   * ends the search.
   */
  function JsonLdSearch(details: Details, blocks: seq<Option<Value>>, hashableSlices: bool): (r: JsonLdResult)
    ensures r.Fallback? ==> r.details.productUrl == details.productUrl && r.details.availability == details.availability
    ensures r.Finished? && r.result.Returned? ==> r.result.value.productUrl == details.productUrl
    decreases |blocks|
  {
    if blocks == [] then Fallback(details)
    else
      match ProductDoc(blocks[0])
      case None => JsonLdSearch(details, blocks[1..], hashableSlices)
      case Some(doc) =>
        match FromJsonLd(details, doc, hashableSlices)
        case Done(d) => Finished(Returned(d))
        case Failed(m) => Finished(Raised(m))
        case Skipped(d) => JsonLdSearch(d, blocks[1..], hashableSlices)
  }

  /** A name match: the group stripped and unescaped, when longer than 3 characters. */
  function NamePick(unescape: string -> string, m: Option<string>): Option<string>
  {
    if m.None? then None
    else
      var n := unescape(Strip(m.value));
      if |n| > 3 then Some(n) else None
  }

  function NamePicker(unescape: string -> string): Option<string> -> Option<string>
  {
    m => NamePick(unescape, m)
  }

  /** `s.replace(",", "")`. */
  function RemoveCommas(s: string): (r: string)
    ensures ',' !in r
    ensures |r| <= |s|
  {
    if s == [] then []
    else (if s[0] == ',' then [] else [s[0]]) + RemoveCommas(s[1..])
  }

  /**
   * `replace(",", "")` works character by character: it distributes over
   * concatenation, and (`RemoveCommasChar`) removes a comma and keeps any
   * other character.
   */
  lemma {:induction false} RemoveCommasAppend(a: string, b: string)
    ensures RemoveCommas(a + b) == RemoveCommas(a) + RemoveCommas(b)
  {
    if a == [] {
      assert a + b == b;
    } else {
      var head := if a[0] == ',' then [] else [a[0]];
      assert (a + b)[0] == a[0] && (a + b)[1..] == a[1..] + b;
      RemoveCommasAppend(a[1..], b);
      assert RemoveCommas(a + b) == head + RemoveCommas(a[1..] + b);
      assert RemoveCommas(a) == head + RemoveCommas(a[1..]);
    }
  }

  lemma RemoveCommasChar(c: char)
    ensures RemoveCommas([c]) == (if c == ',' then [] else [c])
  {
    assert [c][1..] == [];
  }

  /** A price match: the group without commas, when it parses as a number, after a `$`. */
  function PricePick(isFloat: string -> bool, m: Option<string>): Option<string>
  {
    if m.Some? && isFloat(RemoveCommas(m.value)) then Some("$" + RemoveCommas(m.value)) else None
  }

  function PricePicker(isFloat: string -> bool): Option<string> -> Option<string>
  {
    m => PricePick(isFloat, m)
  }

  /**
   * A relative image URL made absolute: anything starting with `http` is
   * kept; with a source URL, everything else is joined to it; without one,
   * a scheme-relative `//` URL gets `https:` and anything else is kept.
   */
  function AbsoluteImageUrl(urljoin: (string, string) -> string, sourceUrl: string, url: string): (r: string)
    ensures StartsWith(url, "http") ==> r == url
    ensures !StartsWith(url, "http") && sourceUrl != [] ==> r == urljoin(sourceUrl, url)
    ensures !StartsWith(url, "http") && sourceUrl == [] ==> r == (if StartsWith(url, "//") then "https:" + url else url)
  {
    if StartsWith(url, "http") then url
    else if sourceUrl != "" && (StartsWith(url, "/") || StartsWith(url, "./")) then urljoin(sourceUrl, url)
    else if sourceUrl != "" && !StartsWith(url, "//") then urljoin(sourceUrl, url)
    else if StartsWith(url, "//") then "https:" + url
    else url
  }

  function ImagePick(urljoin: (string, string) -> string, sourceUrl: string, m: Option<string>): Option<string>
  {
    if m.Some? && m.value != "" then Some(AbsoluteImageUrl(urljoin, sourceUrl, m.value)) else None
  }

  function ImagePicker(urljoin: (string, string) -> string, sourceUrl: string): Option<string> -> Option<string>
  {
    m => ImagePick(urljoin, sourceUrl, m)
  }

  /**
   * The availability label for a lower-cased match: `In Stock` when it
   * mentions "in stock", else `Out of Stock` when it mentions "out of stock",
   * else the text in title case.
   */
  function AvailabilityLabel(text: string): string
  {
    if Contains(text, "in stock") then "In Stock"
    else if Contains(text, "out of stock") then "Out of Stock"
    else Title(text)
  }

  /** Title case undone by lower case, on a text with no upper-case letter. */
  lemma LowerOfTitle(t: string)
    requires forall i :: 0 <= i < |t| ==> !IsUpper(t[i])
    ensures Lower(Title(t)) == t
  {
    var ti := Title(t);
    var r := Lower(ti);
    forall i | 0 <= i < |t|
      ensures r[i] == t[i]
    {
      CaseRoundTrip(t[i]);
      assert ti[i] == (if i > 0 && IsLetter(t[i - 1]) then ToLower(t[i]) else ToUpper(t[i]));
    }
  }

  lemma CaseRoundTrip(c: char)
    requires !IsUpper(c)
    ensures ToLower(ToUpper(c)) == c && ToLower(c) == c
  {
  }

  /**
   * The three kinds of availability label for a match `g`: `In Stock`
   * exactly when the lower-cased match mentions "in stock", `Out of Stock`
   * exactly when it mentions "out of stock" and not "in stock"; any other
   * label is the lower-cased match itself up to case.
   */
  lemma AvailabilityLabels(g: string)
    ensures AvailabilityLabel(Lower(g)) == "In Stock" <==> Contains(Lower(g), "in stock")
    ensures AvailabilityLabel(Lower(g)) == "Out of Stock" <==>
      !Contains(Lower(g), "in stock") && Contains(Lower(g), "out of stock")
    ensures !Contains(Lower(g), "in stock") && !Contains(Lower(g), "out of stock") ==>
      Lower(AvailabilityLabel(Lower(g))) == Lower(g)
  {
    var t := Lower(g);
    if !Contains(t, "in stock") && !Contains(t, "out of stock") {
      LowerOfTitle(t);
      TitleIsNoLabel(t);
    }
  }

  /** A text with no upper-case letter that mentions neither phrase does not title-case into a label. */
  lemma TitleIsNoLabel(t: string)
    requires forall i :: 0 <= i < |t| ==> !IsUpper(t[i])
    requires !Contains(t, "in stock") && !Contains(t, "out of stock")
    ensures Title(t) != "In Stock" && Title(t) != "Out of Stock"
  {
    LowerOfTitle(t);
    if Title(t) == "In Stock" {
      LowerOfLabels();
      ContainsItself(t);
    } else if Title(t) == "Out of Stock" {
      LowerOfLabels();
      ContainsItself(t);
    }
  }

  lemma LowerOfLabels()
    ensures Lower("In Stock") == "in stock"
    ensures Lower("Out of Stock") == "out of stock"
  {
    LowerOfLabel("In Stock", "in stock");
    LowerOfLabel("Out of Stock", "out of stock");
  }

  lemma LowerOfLabel(text: string, lowered: string)
    requires |text| == |lowered|
    requires forall i :: 0 <= i < |text| ==> ToLower(text[i]) == lowered[i]
    ensures Lower(text) == lowered
  {
  }

  lemma ContainsItself(s: string)
    ensures Contains(s, s)
  {
    assert s[..|s|] == s;
  }

  function AvailabilityPick(m: Option<string>): Option<string>
  {
    if m.Some? then Some(AvailabilityLabel(Lower(m.value))) else None
  }

  /** The details from the regular-expression fallbacks, each field the first accepted match or its default. */
  function FromPatterns(base: Details, scan: Scan, lib: Library): (r: Details)
    ensures r.productUrl == base.productUrl && r.description == base.description
  {
    var name := First(scan.names, NamePicker(lib.unescape));
    var price := First(scan.prices, PricePicker(lib.isFloat));
    var image := First(scan.images, ImagePicker(lib.urljoin, base.productUrl));
    var supplier := First(scan.suppliers, StrippedMatch);
    var availability := First(scan.availabilities, AvailabilityPick);
    base.(name := if name.Some? then Str(name.value) else base.name,
          price := OrElse(price, base.price),
          imageUrl := if image.Some? then Str(image.value) else base.imageUrl,
          supplier := if supplier.Some? then Str(supplier.value) else base.supplier,
          availability := OrElse(availability, base.availability))
  }

  /**
   * The details any other page yields: the JSON-LD search decides them when
   * it finishes; otherwise the pattern fallbacks fill in the details it
   * leaves, defaults or fields of product blocks that raised a `KeyError`.
   */
  function GenericProduct(content: string, sourceUrl: string, scan: Scan, lib: Library): (r: Outcome<Details>)
    ensures r.Returned? ==> r.value.productUrl == sourceUrl
  {
    match JsonLdSearch(GenericDefaults(content, sourceUrl), scan.jsonLd, lib.hashableSlices)
    case Finished(result) => result
    case Fallback(d) => Returned(FromPatterns(d, scan, lib))
  }

  /** `extract_product_details_from_content`, one search after the other, stopping at a JSON-LD product. */
  method ExtractProductDetails(content: string, sourceUrl: string, scan: Scan, lib: Library)
    returns (r: Outcome<Details>)
    ensures r == GenericProduct(content, sourceUrl, scan, lib)
  {
    var details := GenericDefaults(content, sourceUrl);
    for i := 0 to |scan.jsonLd|
      invariant JsonLdSearch(GenericDefaults(content, sourceUrl), scan.jsonLd, lib.hashableSlices)
        == JsonLdSearch(details, scan.jsonLd[i..], lib.hashableSlices)
      invariant details.productUrl == sourceUrl
    {
      var doc := ProductDoc(scan.jsonLd[i]);
      if doc.Some? {
        match FromJsonLd(details, doc.value, lib.hashableSlices)
        case Done(d) => return Returned(d);
        case Failed(m) => return Raised(m);
        case Skipped(d) => details := d;
      }
      assert scan.jsonLd[i..][1..] == scan.jsonLd[i + 1..];
    }
    var name := FirstAccepted(scan.names, NamePicker(lib.unescape));
    details := details.(name := if name.Some? then Str(name.value) else details.name);
    var price := FirstAccepted(scan.prices, PricePicker(lib.isFloat));
    details := details.(price := OrElse(price, details.price));
    var image := FirstAccepted(scan.images, ImagePicker(lib.urljoin, sourceUrl));
    details := details.(imageUrl := if image.Some? then Str(image.value) else details.imageUrl);
    var supplier := FirstAccepted(scan.suppliers, StrippedMatch);
    details := details.(supplier := if supplier.Some? then Str(supplier.value) else details.supplier);
    var availability := FirstAccepted(scan.availabilities, AvailabilityPick);
    details := details.(availability := OrElse(availability, details.availability));
    return Returned(details);
  }

  // -----------------------------------------------------------------------
  // What the extracted fields can be

  /** The candidate `First` yields is one of the candidates, as `pick` rewrites it. */
  lemma {:induction false} FirstWitness<T, R>(cands: seq<T>, pick: T -> Option<R>) returns (i: nat)
    requires First(cands, pick).Some?
    ensures i < |cands| && pick(cands[i]) == First(cands, pick)
  {
    if pick(cands[0]).Some? {
      i := 0;
    } else {
      var j := FirstWitness(cands[1..], pick);
      i := j + 1;
    }
  }

  /**
   * A Barnes & Noble description is the default or a text of more than 20
   * and at most 503 characters; one of more than 500 ends in `...`.
   */
  lemma BnDescriptionBounds(descriptions: seq<Option<string>>)
    ensures var d := OrElse(First(descriptions, BnDescription), "No description available.");
      d == "No description available." || (20 < |d| <= 503 && (|d| > 500 ==> d[500..] == "..."))
  {
    if First(descriptions, BnDescription).Some? {
      var i := FirstWitness(descriptions, BnDescription);
      var text := Strip(descriptions[i].value);
      assert First(descriptions, BnDescription).value == Truncated(text, 500);
    }
  }

  /**
   * Where the Barnes & Noble author comes from: a non-empty hidden input
   * other than the default wins outright; any other author is the one from
   * the author block, or, when that is still the default, a stripped
   * regular-expression match.
   */
  lemma BnAuthorSources(section: Option<AuthorSection>, authorMatches: seq<Option<string>>)
    ensures section.Some? && section.value.inputValue.Some? && section.value.inputValue.value !in {"", UnknownAuthor} ==>
      BnAuthor(section, authorMatches) == section.value.inputValue.value
    ensures BnAuthor(section, authorMatches) == SectionAuthor(section)
      || (SectionAuthor(section) == UnknownAuthor
          && exists i :: 0 <= i < |authorMatches| && authorMatches[i].Some? && BnAuthor(section, authorMatches) == Strip(authorMatches[i].value))
  {
    if SectionAuthor(section) == UnknownAuthor && First(authorMatches, StrippedMatch).Some? {
      var i := FirstWitness(authorMatches, StrippedMatch);
      assert authorMatches[i].Some? && BnAuthor(section, authorMatches) == Strip(authorMatches[i].value);
    }
  }

  /**
   * A Barnes & Noble image URL is the placeholder or a usable URL: never
   * empty, never inline `data:`, never site-relative.
   */
  lemma BnImageAlwaysUsable(images: seq<Option<ImgAttrs>>)
    ensures var u := OrElse(First(images, BnImage), PlaceholderImage);
      u != [] && !StartsWith(u, "data:") && !StartsWith(u, "/")
  {
    if First(images, BnImage).Some? {
      var i := FirstWitness(images, BnImage);
      var attrs := images[i].value;
      var url := OrAttr(OrAttr(attrs.src, attrs.dataSrc), attrs.dataLazySrc).value;
      BnImageUrlUsable(url);
    } else {
      assert PlaceholderImage[0] == 'h';
    }
  }

  /**
   * The fields a JSON-LD product sets. The block raises exactly when its
   * `description` is neither a string nor a list, nor a dictionary where
   * slices are hashable; such a dictionary skips the block with name, price
   * and image already set. Otherwise the description is the block's own,
   * cut to its first 300 elements. The name and a string image come from
   * the block, a string brand becomes the supplier, and the product URL and
   * the availability stay as they were.
   */
  lemma FromJsonLdFields(base: Details, doc: seq<Entry>, hashableSlices: bool)
    ensures var desc := Get(doc, "description");
      && (FromJsonLd(base, doc, hashableSlices).Failed? <==>
            desc.Some? && !desc.value.Str? && !desc.value.List? && !(desc.value.Dict? && hashableSlices))
      && (FromJsonLd(base, doc, hashableSlices).Skipped? <==> desc.Some? && desc.value.Dict? && hashableSlices)
    ensures var r := FromJsonLd(base, doc, hashableSlices);
      !r.Failed? ==>
        && r.details.productUrl == base.productUrl
        && r.details.availability == base.availability
        && r.details.name == (if Get(doc, "name").Some? then Get(doc, "name").value else base.name)
        && (Get(doc, "image").Some? && Get(doc, "image").value.Str? ==> r.details.imageUrl == Get(doc, "image").value)
        && (r.Skipped? || Get(doc, "description").None? ==> r.details.description == base.description)
        && (r.Done? && Get(doc, "description").Some? ==>
              r.details.description == Slice(Get(doc, "description").value, 300, hashableSlices).value)
        && (r.Skipped? ==> r.details.supplier == base.supplier)
        && (r.Done? && Get(doc, "brand").Some? && Get(doc, "brand").value.Str? ==> r.details.supplier == Get(doc, "brand").value)
  {
  }

  /** A decoded block that is a product whose `description` raises a `TypeError` when sliced. */
  predicate Unsliceable(block: Option<Value>, hashableSlices: bool)
  {
    && ProductDoc(block).Some?
    && Get(ProductDoc(block).value, "description").Some?
    && Slice(Get(ProductDoc(block).value, "description").value, 300, hashableSlices).TypeError?
  }

  /** The JSON-LD search raises only at a product block whose description cannot be sliced. */
  lemma {:induction false} SearchRaises(details: Details, blocks: seq<Option<Value>>, hashableSlices: bool)
    requires JsonLdSearch(details, blocks, hashableSlices).Finished? && JsonLdSearch(details, blocks, hashableSlices).result.Raised?
    ensures exists i :: 0 <= i < |blocks| && Unsliceable(blocks[i], hashableSlices)
    decreases |blocks|
  {
    var doc := ProductDoc(blocks[0]);
    if doc.Some? && FromJsonLd(details, doc.value, hashableSlices).Failed? {
      assert Unsliceable(blocks[0], hashableSlices);
    } else {
      var next := if doc.Some? then FromJsonLd(details, doc.value, hashableSlices).details else details;
      SearchRaises(next, blocks[1..], hashableSlices);
      var i :| 0 <= i < |blocks[1..]| && Unsliceable(blocks[1..][i], hashableSlices);
      assert blocks[1..][i] == blocks[i + 1];
    }
  }

  /**
   * Where slices are not hashable (before Python 3.12) no product block is
   * skipped: the search ends at the first product block, and falls back to
   * the patterns, with the details unchanged, only when there is none.
   */
  lemma {:induction false} SearchEndsAtFirstProduct(details: Details, blocks: seq<Option<Value>>)
    ensures First(blocks, ProductDoc).None? ==> JsonLdSearch(details, blocks, false) == Fallback(details)
    ensures First(blocks, ProductDoc).Some? ==>
      match FromJsonLd(details, First(blocks, ProductDoc).value, false)
      case Done(d) => JsonLdSearch(details, blocks, false) == Finished(Returned(d))
      case Failed(m) => JsonLdSearch(details, blocks, false) == Finished(Raised(m))
      case Skipped(_) => false
  {
    if blocks != [] {
      SearchEndsAtFirstProduct(details, blocks[1..]);
      if ProductDoc(blocks[0]).Some? {
        FromJsonLdFields(details, ProductDoc(blocks[0]).value, false);
      }
    }
  }

  /**
   * The pattern fallbacks keep the product URL and the description, and
   * every field they fill comes from one of its matches and has passed its
   * test: a stripped and unescaped name of more than three characters, a
   * price `$` plus the comma-free number, an image URL made absolute, a
   * stripped supplier, and the availability label of a lower-cased match.
   */
  lemma FromPatternsFields(base: Details, scan: Scan, lib: Library)
    ensures var d := FromPatterns(base, scan, lib);
      && d.productUrl == base.productUrl
      && d.description == base.description
      && (d.name == base.name || (d.name.Str? && |d.name.s| > 3))
      && (d.price == base.price
          || (|d.price| > 0 && d.price[0] == '$' && ',' !in d.price[1..] && lib.isFloat(d.price[1..])))
      && (d.name == base.name
          || exists i :: 0 <= i < |scan.names| && scan.names[i].Some?
               && |lib.unescape(Strip(scan.names[i].value))| > 3 && d.name == Str(lib.unescape(Strip(scan.names[i].value))))
      && (d.price == base.price
          || exists i :: 0 <= i < |scan.prices| && scan.prices[i].Some?
               && lib.isFloat(RemoveCommas(scan.prices[i].value)) && d.price == "$" + RemoveCommas(scan.prices[i].value))
      && (d.imageUrl == base.imageUrl
          || exists i :: 0 <= i < |scan.images| && scan.images[i].Some? && scan.images[i].value != []
               && d.imageUrl == Str(AbsoluteImageUrl(lib.urljoin, base.productUrl, scan.images[i].value)))
      && (d.supplier == base.supplier
          || exists i :: 0 <= i < |scan.suppliers| && scan.suppliers[i].Some? && d.supplier == Str(Strip(scan.suppliers[i].value)))
      && (d.availability == base.availability
          || exists i :: 0 <= i < |scan.availabilities| && scan.availabilities[i].Some?
               && d.availability == AvailabilityLabel(Lower(scan.availabilities[i].value)))
  {
    var name := First(scan.names, NamePicker(lib.unescape));
    if name.Some? {
      var i := FirstWitness(scan.names, NamePicker(lib.unescape));
      assert NamePicker(lib.unescape)(scan.names[i]) == NamePick(lib.unescape, scan.names[i]);
    }
    var price := First(scan.prices, PricePicker(lib.isFloat));
    if price.Some? {
      var i := FirstWitness(scan.prices, PricePicker(lib.isFloat));
      assert PricePicker(lib.isFloat)(scan.prices[i]) == PricePick(lib.isFloat, scan.prices[i]);
      var digits := RemoveCommas(scan.prices[i].value);
      assert price.value == "$" + digits;
      assert price.value[1..] == digits;
    }
    var image := First(scan.images, ImagePicker(lib.urljoin, base.productUrl));
    if image.Some? {
      var i := FirstWitness(scan.images, ImagePicker(lib.urljoin, base.productUrl));
      assert ImagePicker(lib.urljoin, base.productUrl)(scan.images[i]) == ImagePick(lib.urljoin, base.productUrl, scan.images[i]);
    }
    if First(scan.suppliers, StrippedMatch).Some? {
      var i := FirstWitness(scan.suppliers, StrippedMatch);
    }
    if First(scan.availabilities, AvailabilityPick).Some? {
      var i := FirstWitness(scan.availabilities, AvailabilityPick);
    }
  }

  /**
   * The Barnes & Noble name, price and availability are each the default or
   * the stripped text of one of their candidates: a name or availability
   * that is not blank, a price that holds a `$`.
   */
  lemma BnTextFields(sourceUrl: string, page: BnPage, authorMatches: seq<Option<string>>)
    ensures var d := BnProduct(sourceUrl, Some(page), authorMatches);
      && (d.name == "Unknown Product"
          || exists i :: 0 <= i < |page.titles| && page.titles[i].Some? && d.name == Strip(page.titles[i].value) && d.name != [])
      && (d.price == "Price not available"
          || exists i :: 0 <= i < |page.prices| && page.prices[i].Some? && d.price == Strip(page.prices[i].value) && Contains(d.price, "$"))
      && (d.availability == "Unknown"
          || exists i :: 0 <= i < |page.availabilities| && page.availabilities[i].Some?
               && d.availability == Strip(page.availabilities[i].value) && d.availability != [])
  {
    if First(page.titles, StrippedText).Some? {
      var i := FirstWitness(page.titles, StrippedText);
    }
    if First(page.prices, BnPrice).Some? {
      var i := FirstWitness(page.prices, BnPrice);
    }
    if First(page.availabilities, StrippedText).Some? {
      var i := FirstWitness(page.availabilities, StrippedText);
    }
  }
}
