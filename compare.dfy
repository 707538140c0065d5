/**
 * The product comparison endpoint (`POST /compare-products`): it validates
 * the requested ids, selects the matching rows of the `products` table and
 * lines the selected products up attribute by attribute.
 *
 * The database is not modelled as a service: the `products` table is a
 * parameter (or the error executing the query raised), and the query the
 * handler builds is a `Filter` whose meaning is the selection predicate
 * `Selects`.
 */
module CompareEndpoint {
  import opened PyValue
  import opened Http

  /** The attributes the comparison matrix lines up, in this order. */
  const Attributes: seq<string> :=
    ["name", "price_text", "supplier", "availability", "description", "product_url", "image_url"]

  const MissingIds: string := "Missing 'product_ids' or 'nuclia_document_ids' in request body"
  const EmptyIds: string := "Both 'product_ids' and 'nuclia_document_ids' are empty"
  const NoMatches: string := "No matching products found"

  /** A row of the `products` table. */
  type Row = seq<Entry>

  // ---------------------------------------------------------------------
  // Python's `in` and iteration over a JSON value

  /** The values `key in data` can be asked of without a `TypeError`. */
  predicate Container(data: Value)
  {
    data.Dict? || data.List? || data.Str?
  }

  /** The `TypeError` of `key in data` for a value that is not a container. */
  function NotContainer(data: Value): string
  {
    "argument of type '" + TypeName(data) + "' is not iterable"
  }

  /** `key in data`: a key of a dict, an item of a list, a substring of a string. */
  predicate Member(data: Value, key: string)
    requires Container(data)
  {
    match data
    case Dict(entries) => Get(entries, key).Some?
    case List(items) => Str(key) in items
    case Str(s) => Contains(s, key)
  }

  /** What `iter(v)` yields: a list's items, a string's characters, a dict's keys; nothing for a scalar. */
  function Elements(v: Value): (r: Option<seq<Value>>)
    ensures r.Some? <==> Container(v)
    ensures v.List? ==> r == Some(v.items)
  {
    match v
    case List(items) => Some(items)
    case Str(s) => Some(seq(|s|, i requires 0 <= i < |s| => Str([s[i]])))
    case Dict(entries) => Some(seq(|entries|, i requires 0 <= i < |entries| => Str(entries[i].key)))
    case _ => None
  }

  /** The `TypeError` of iterating over a scalar. */
  function NotIterable(v: Value): string
  {
    "'" + TypeName(v) + "' object is not iterable"
  }

  /** `map(str, vs)`: the text each value is sent to the database as. */
  function Texts(vs: seq<Value>): (ts: seq<string>)
    ensures |ts| == |vs|
    ensures forall i :: 0 <= i < |vs| ==> ts[i] == PyStr(vs[i])
  {
    seq(|vs|, i requires 0 <= i < |vs| => PyStr(vs[i]))
  }

  // ---------------------------------------------------------------------
  // The query as a selection predicate

  /**
   * A query on the `products` table: every row, the rows whose `column`
   * holds one of `texts`, or the rows either filter selects.
   */
  datatype Filter = All | In(column: string, texts: seq<string>) | Or(left: Filter, right: Filter)

  /** The rows a filter selects; an absent or null column matches no list. */
  predicate Selects(f: Filter, row: Row)
  {
    match f
    case All => true
    case In(column, texts) => var v := GetOr(row, column, Null); !v.Null? && PyStr(v) in texts
    case Or(left, right) => Selects(left, row) || Selects(right, row)
  }

  /** The rows of `rows` that `f` selects, in table order. */
  function Filtered(rows: seq<Row>, f: Filter): (r: seq<Row>)
    ensures |r| <= |rows|
    ensures forall row :: row in r <==> row in rows && Selects(f, row)
  {
    if rows == [] then []
    else (if Selects(f, rows[0]) then [rows[0]] else []) + Filtered(rows[1..], f)
  }

  /** `row[column]` is one of the values of `ids`, compared as the database compares them, by text. */
  predicate Listed(row: Row, column: string, ids: Value)
  {
    Elements(ids).Some? && Selects(In(column, Texts(Elements(ids).value)), row)
  }

  /**
   * The query the handler builds from the two id lists: both lists joined
   * into one `or` filter when both are non-empty, otherwise an `in` filter
   * on the non-empty one. Building it fails like Python does on an id value
   * that cannot be iterated, and `','.join` fails on a document id that is
   * not a string.
   */
  function QueryFilter(productIds: Value, docIds: Value): (r: Outcome<Filter>)
    requires Truthy(productIds) || Truthy(docIds)
    ensures r.Returned? <==>
      && (Truthy(productIds) ==> Container(productIds))
      && (Truthy(docIds) ==> Container(docIds))
      && (Truthy(productIds) && Truthy(docIds) ==>
            forall i :: 0 <= i < |Elements(docIds).value| ==> Elements(docIds).value[i].Str?)
    ensures r.Returned? ==> forall row :: Selects(r.value, row) <==>
      (Truthy(productIds) && Listed(row, "id", productIds))
      || (Truthy(docIds) && Listed(row, "nuclia_document_id", docIds))
  {
    if Truthy(productIds) && Truthy(docIds) then
      match Elements(productIds)
      case None => Raised(NotIterable(productIds))
      case Some(ps) =>
        match Elements(docIds)
        case None => Raised("can only join an iterable")
        case Some(ds) =>
          match Join(",", ds)
          case Raised(m) => Raised(m)
          case Returned(_) => Returned(Or(In("id", Texts(ps)), In("nuclia_document_id", Texts(ds))))
    else if Truthy(productIds) then
      match Elements(productIds)
      case None => Raised(NotIterable(productIds))
      case Some(ps) => Returned(In("id", Texts(ps)))
    else
      match Elements(docIds)
      case None => Raised(NotIterable(docIds))
      case Some(ds) => Returned(In("nuclia_document_id", Texts(ds)))
  }

  // ---------------------------------------------------------------------
  // The comparison matrix

  /** The column of one attribute: each product's value, or `"N/A"` where it has none. */
  function Column(products: seq<Row>, attr: string): seq<Value>
  {
    seq(|products|, i requires 0 <= i < |products| => GetOr(products[i], attr, Str("N/A")))
  }

  /** `comparison_attributes`: one column per attribute, keyed by the attribute. */
  function ComparisonMatrix(products: seq<Row>): seq<Entry>
  {
    seq(|Attributes|, j requires 0 <= j < |Attributes| => Entry(Attributes[j], List(Column(products, Attributes[j]))))
  }

  /**
   * The matrix has exactly the seven attributes as keys, and the column of
   * each has one cell per product: the product's value for the attribute,
   * or `"N/A"` where the product has none.
   */
  lemma MatrixShape(products: seq<Row>, attr: string)
    requires attr in Attributes
    ensures Keys(ComparisonMatrix(products)) == Attributes
    ensures DistinctKeys(ComparisonMatrix(products))
    ensures Get(ComparisonMatrix(products), attr).Some?
    ensures var column := Get(ComparisonMatrix(products), attr).value;
      && column.List? && |column.items| == |products|
      && forall i :: 0 <= i < |products| ==>
           column.items[i] == if Get(products[i], attr).Some? then Get(products[i], attr).value else Str("N/A")
  {
    var matrix := ComparisonMatrix(products);
    assert DistinctKeys(matrix) by {
      forall i, j | 0 <= i < j < |matrix| ensures matrix[i].key != matrix[j].key {
        assert |matrix| == 7;
        assert i < 7 && j < 7;
      }
    }
    var j :| 0 <= j < |Attributes| && Attributes[j] == attr;
    GetDistinct(matrix, j);
  }

  /** Appending a product to the list appends its cell to every column. */
  lemma ColumnSnoc(products: seq<Row>, i: nat, attr: string)
    requires i < |products|
    ensures Column(products[..i + 1], attr) == Column(products[..i], attr) + [GetOr(products[i], attr, Str("N/A"))]
  {
    var left := Column(products[..i + 1], attr);
    var right := Column(products[..i], attr) + [GetOr(products[i], attr, Str("N/A"))];
    assert |left| == |right|;
    forall k | 0 <= k < |left| ensures left[k] == right[k] {
      assert products[..i + 1][k] == products[k];
    }
  }

  /**
   * The nested loop that fills `comparison_attributes`: for each product,
   * for each attribute, append the product's value (or `"N/A"`) to that
   * attribute's column.
   */
  method BuildComparison(products: seq<Row>) returns (matrix: seq<Entry>)
    ensures matrix == ComparisonMatrix(products)
  {
    var columns: seq<seq<Value>> := seq(|Attributes|, _ => []);
    var i := 0;
    while i < |products|
      invariant i <= |products|
      invariant |columns| == |Attributes|
      invariant forall j :: 0 <= j < |Attributes| ==> columns[j] == Column(products[..i], Attributes[j])
    {
      var product := products[i];
      var k := 0;
      while k < |Attributes|
        invariant k <= |Attributes| && |columns| == |Attributes|
        invariant forall j :: 0 <= j < k ==> columns[j] == Column(products[..i + 1], Attributes[j])
        invariant forall j :: k <= j < |Attributes| ==> columns[j] == Column(products[..i], Attributes[j])
      {
        ColumnSnoc(products, i, Attributes[k]);
        columns := columns[k := columns[k] + [GetOr(product, Attributes[k], Str("N/A"))]];
        k := k + 1;
      }
      i := i + 1;
    }
    assert products[..i] == products;
    matrix := seq(|Attributes|, j requires 0 <= j < |Attributes| => Entry(Attributes[j], List(columns[j])));
  }

  // ---------------------------------------------------------------------
  // The endpoint

  /** The rows as the JSON list of objects the database returned. */
  function RowValues(rows: seq<Row>): (v: Value)
    ensures v.List? && |v.items| == |rows|
    ensures forall i :: 0 <= i < |rows| ==> v.items[i] == Dict(rows[i])
  {
    List(seq(|rows|, i requires 0 <= i < |rows| => Dict(rows[i])))
  }

  /** The reply for the products the query returned. */
  function Compared(products: seq<Row>): Response
  {
    if products == [] then
      Json(404, Dict([Entry("success", Bool(false)), Entry("error", Str(NoMatches)), Entry("products", List([]))]))
    else
      Json(200, Dict([Entry("success", Bool(true)),
                      Entry("products", RowValues(products)),
                      Entry("comparison_attributes", Dict(ComparisonMatrix(products))),
                      Entry("total", Int(|products|))]))
  }

  /** The reply once the two id values have been read from the request body. */
  function Lookup(productIds: Value, docIds: Value, table: Outcome<seq<Row>>): Response
  {
    if !(Truthy(productIds) || Truthy(docIds)) then Json(400, Failure(EmptyIds))
    else
      match QueryFilter(productIds, docIds)
      case Raised(m) => InternalError(m)
      case Returned(f) =>
        match table
        case Raised(m) => InternalError(m)
        case Returned(rows) => Compared(Filtered(rows, f))
  }

  /**
   * The reply of `compare_products` to the request body `data`, with the
   * database configured or not and `table` the `products` table (or the
   * error executing the query raised).
   */
  function Comparison(configured: bool, data: Value, table: Outcome<seq<Row>>): Response
  {
    if !configured then Json(500, Failure("Supabase not configured"))
    else if !Truthy(data) then Json(400, Failure(MissingIds))
    else if !Container(data) then InternalError(NotContainer(data))
    else if !Member(data, "product_ids") && !Member(data, "nuclia_document_ids") then Json(400, Failure(MissingIds))
    else if !data.Dict? then InternalError(NoAttribute(data, "get"))
    else
      Lookup(GetOr(data.entries, "product_ids", List([])), GetOr(data.entries, "nuclia_document_ids", List([])), table)
  }

  /**
   * The handler answers every request with a JSON reply. Without a database
   * it refuses before looking at the body; with one, it answers 400 exactly
   * when the body is empty, names neither id list, or names only empty ones.
   */
  lemma RequestRejections(configured: bool, data: Value, table: Outcome<seq<Row>>)
    ensures Comparison(configured, data, table).Json?
    ensures !configured ==> Comparison(configured, data, table) == Json(500, Failure("Supabase not configured"))
    ensures configured ==>
      (Comparison(configured, data, table).status == 400 <==>
        || !Truthy(data)
        || (Container(data) && !Member(data, "product_ids") && !Member(data, "nuclia_document_ids"))
        || (data.Dict? && (Member(data, "product_ids") || Member(data, "nuclia_document_ids"))
            && !Truthy(GetOr(data.entries, "product_ids", List([])))
            && !Truthy(GetOr(data.entries, "nuclia_document_ids", List([])))))
    ensures configured && !Truthy(data) ==> Comparison(configured, data, table) == Json(400, Failure(MissingIds))
    ensures configured && data.Dict? && !Member(data, "product_ids") && !Member(data, "nuclia_document_ids") ==>
      Comparison(configured, data, table) == Json(400, Failure(MissingIds))
  {
    if configured && Truthy(data) && Container(data) && (Member(data, "product_ids") || Member(data, "nuclia_document_ids")) && data.Dict? {
      var productIds := GetOr(data.entries, "product_ids", List([]));
      var docIds := GetOr(data.entries, "nuclia_document_ids", List([]));
      if Truthy(productIds) || Truthy(docIds) {
        match QueryFilter(productIds, docIds)
        case Raised(_) =>
        case Returned(f) =>
          match table
          case Raised(_) =>
          case Returned(rows) =>
            assert Compared(Filtered(rows, f)).status != 400;
      }
    }
  }

  /**
   * A body that is not an object but does name an id list (a list holding
   * the name, a string containing it) fails on `data.get`, one that names
   * neither is refused; a number or a boolean fails on `in`.
   */
  lemma NonObjectBodies(data: Value, table: Outcome<seq<Row>>)
    requires Truthy(data) && !data.Dict?
    ensures !Container(data) ==> Comparison(true, data, table) == InternalError(NotContainer(data))
    ensures Container(data) && (Member(data, "product_ids") || Member(data, "nuclia_document_ids")) ==>
      Comparison(true, data, table) == InternalError(NoAttribute(data, "get"))
    ensures Container(data) && !Member(data, "product_ids") && !Member(data, "nuclia_document_ids") ==>
      Comparison(true, data, table) == Json(400, Failure(MissingIds))
  {
  }

  /**
   * Once the body names an id list with an entry, the handler answers 200
   * exactly when the query can be built and run and selects some product,
   * and 404 when it selects none. The 200 reply carries the selected rows
   * unchanged, their comparison matrix and their number; every product in
   * it is a row of the table that the id lists select.
   */
  lemma ComparisonFound(data: Value, table: Outcome<seq<Row>>)
    requires data.Dict? && (Member(data, "product_ids") || Member(data, "nuclia_document_ids"))
    requires Truthy(GetOr(data.entries, "product_ids", List([]))) || Truthy(GetOr(data.entries, "nuclia_document_ids", List([])))
    ensures var productIds := GetOr(data.entries, "product_ids", List([]));
      var docIds := GetOr(data.entries, "nuclia_document_ids", List([]));
      var r := Comparison(true, data, table);
      && (QueryFilter(productIds, docIds).Raised? ==> r == InternalError(QueryFilter(productIds, docIds).message))
      && (QueryFilter(productIds, docIds).Returned? && table.Raised? ==> r == InternalError(table.message))
      && (QueryFilter(productIds, docIds).Returned? && table.Returned? ==>
            var products := Filtered(table.value, QueryFilter(productIds, docIds).value);
            && (r.status == 404 <==> products == [])
            && (products == [] ==> r.body == Dict([Entry("success", Bool(false)), Entry("error", Str(NoMatches)), Entry("products", List([]))]))
            && (r.status == 200 <==> products != [])
            && (products != [] ==>
                  && Get(r.body.entries, "success") == Some(Bool(true))
                  && Get(r.body.entries, "products") == Some(RowValues(products))
                  && Get(r.body.entries, "comparison_attributes") == Some(Dict(ComparisonMatrix(products)))
                  && Get(r.body.entries, "total") == Some(Int(|products|))
                  && forall p :: p in products ==>
                       && p in table.value
                       && ((Truthy(productIds) && Listed(p, "id", productIds))
                           || (Truthy(docIds) && Listed(p, "nuclia_document_id", docIds)))))
  {
    var productIds := GetOr(data.entries, "product_ids", List([]));
    var docIds := GetOr(data.entries, "nuclia_document_ids", List([]));
    assert Comparison(true, data, table) == Lookup(productIds, docIds, table);
    match QueryFilter(productIds, docIds)
    case Raised(_) =>
    case Returned(f) =>
      match table
      case Raised(_) =>
      case Returned(rows) =>
        var products := Filtered(rows, f);
        assert Comparison(true, data, table) == Compared(products);
        if products != [] {
          var entries := Compared(products).body.entries;
          assert |"comparison_attributes"| == 21 && |"total"| == 5 && |"success"| == 7 && |"products"| == 8;
          GetFirst(entries, 2);
          GetFirst(entries, 3);
        }
        forall p | p in products
          ensures (Truthy(productIds) && Listed(p, "id", productIds))
                  || (Truthy(docIds) && Listed(p, "nuclia_document_id", docIds))
        {
          assert Selects(f, p);
        }
  }

  /** The handler, step by step: it returns early on each failed check and reassigns `query` as it narrows it. */
  method CompareProducts(configured: bool, data: Value, table: Outcome<seq<Row>>) returns (response: Response)
    ensures response == Comparison(configured, data, table)
  {
    if !configured {
      return Json(500, Failure("Supabase not configured"));
    }
    if !Truthy(data) {
      return Json(400, Failure(MissingIds));
    }
    if !Container(data) {
      return InternalError(NotContainer(data));
    }
    if !Member(data, "product_ids") && !Member(data, "nuclia_document_ids") {
      return Json(400, Failure(MissingIds));
    }
    if !data.Dict? {
      return InternalError(NoAttribute(data, "get"));
    }
    var productIds := GetOr(data.entries, "product_ids", List([]));
    var docIds := GetOr(data.entries, "nuclia_document_ids", List([]));
    if !(Truthy(productIds) || Truthy(docIds)) {
      return Json(400, Failure(EmptyIds));
    }
    var query := All;
    if Truthy(productIds) && Truthy(docIds) {
      var ps := Elements(productIds);
      if ps.None? {
        return InternalError(NotIterable(productIds));
      }
      var ds := Elements(docIds);
      if ds.None? {
        return InternalError("can only join an iterable");
      }
      var joined := Join(",", ds.value);
      if joined.Raised? {
        return InternalError(joined.message);
      }
      query := Or(In("id", Texts(ps.value)), In("nuclia_document_id", Texts(ds.value)));
    } else if Truthy(productIds) {
      var ps := Elements(productIds);
      if ps.None? {
        return InternalError(NotIterable(productIds));
      }
      query := In("id", Texts(ps.value));
    } else if Truthy(docIds) {
      var ds := Elements(docIds);
      if ds.None? {
        return InternalError(NotIterable(docIds));
      }
      query := In("nuclia_document_id", Texts(ds.value));
    }
    assert QueryFilter(productIds, docIds) == Returned(query);
    if table.Raised? {
      return InternalError(table.message);
    }
    var products := Filtered(table.value, query);
    if products == [] {
      return Json(404, Dict([Entry("success", Bool(false)), Entry("error", Str(NoMatches)), Entry("products", List([]))]));
    }
    var matrix := BuildComparison(products);
    response := Json(200, Dict([Entry("success", Bool(true)),
                                Entry("products", RowValues(products)),
                                Entry("comparison_attributes", Dict(matrix)),
                                Entry("total", Int(|products|))]));
  }
}
