/** The Catalog API: the four request handlers over the Products table.
    The ORM store is a map from `productId` to the row; an HTTP response
    is a status code and a JSON body. Each handler runs atomically. */
module ProductController {

  import opened Wrappers
  import opened Catalog

  type Table = map<string, Product>

  /** The primary-key invariant: every row is stored under its own id. */
  ghost predicate KeyedById(table: Table)
  {
    forall id :: id in table ==> table[id].productId == id
  }

  /** The JSON bodies the handlers send. */
  datatype Body =
    | Rows(rows: set<Product>)                                   // res.json(products)
    | Row(row: Product)                                          // res.json(product)
    | Message(message: string)                                   // { message }
    | Deleted(message: string, deletedProduct: Product)          // { message, deletedProduct }
    | StockUpdated(message: string, updatedProduct: Product)     // { message, updatedProduct }

  datatype Response = Response(status: int, body: Body)

  /** What a handler answers and the table it leaves behind. */
  datatype Outcome = Outcome(response: Response, table: Table)

  /** The fields `updateProduct` takes from the request body. */
  datatype ProductFields = ProductFields(name: string, price: int, stockQuantity: int, rating: int)

  const ErrorCreating := "Error creating product"
  const ErrorUpdating := "Error updating product"
  const MissingParams := "Product ID and quantity are required"
  const NotFound := "Product not found"
  const ProductDeleted := "Product deleted"
  const StockUpdatedMessage := "Stock updated"

  // ---------------------------------------------------------------------
  // The store's `contains` filter

  /** `term` occurs in `name` starting at index `i`. */
  ghost predicate OccursAt(name: string, term: string, i: int)
  {
    0 <= i <= |name| && term <= name[i..]
  }

  /** The reference meaning of a substring match: some index where `term` starts. */
  ghost predicate IsSubstring(name: string, term: string)
  {
    exists i :: OccursAt(name, term, i)
  }

  /** The case-sensitive `contains` match, computed by scanning `name`. */
  function Contains(name: string, term: string): (r: bool)
    ensures r ==> |term| <= |name|
    ensures |term| == |name| ==> (r <==> term == name)
    decreases |name|
  {
    term <= name || (|name| > 0 && Contains(name[1..], term))
  }

  lemma {:induction false} ContainsIsSubstring(name: string, term: string)
    ensures Contains(name, term) <==> IsSubstring(name, term)
    decreases |name|
  {
    if term <= name {
      assert OccursAt(name, term, 0);
    }
    if |name| > 0 {
      ContainsIsSubstring(name[1..], term);
      if IsSubstring(name[1..], term) {
        var j :| OccursAt(name[1..], term, j);
        assert name[1..][j..] == name[j + 1..];
        assert OccursAt(name, term, j + 1);
      }
      if IsSubstring(name, term) && !(term <= name) {
        var i :| OccursAt(name, term, i);
        assert i != 0;
        assert name[1..][i - 1..] == name[i..];
        assert OccursAt(name[1..], term, i - 1);
      }
    } else {
      if IsSubstring(name, term) {
        var i :| OccursAt(name, term, i);
        assert i == 0;
      }
    }
  }

  /** The empty search term matches every name. */
  lemma EmptyTermMatchesAll(name: string)
    ensures Contains(name, "")
  {
  }

  /** A row passes the `where: { name: { contains: search } }` filter;
      an absent search term sets no filter at all. */
  function Matches(p: Product, search: Option<string>): (r: bool)
    ensures r <==> search.None? || IsSubstring(p.name, search.value)
  {
    match search
    case None => true
    case Some(term) =>
      ContainsIsSubstring(p.name, term);
      Contains(p.name, term)
  }

  // ---------------------------------------------------------------------
  // The four operations as functions of the table

  /** `findMany` with the name filter: the rows whose name contains the term. */
  function ListRows(table: Table, search: Option<string>): (rows: set<Product>)
    ensures forall p :: p in rows <==>
      p in table.Values && (search.None? || IsSubstring(p.name, search.value))
  {
    set p | p in table.Values && Matches(p, search)
  }

  /** `createProduct`: insert the row as supplied; the primary-key
      constraint makes an existing id a store error, answered with 500. */
  function Create(table: Table, p: Product): (o: Outcome)
    ensures o.response.status == 201 <==> p.productId !in table
    ensures p.productId !in table ==>
      && o.response.body == Row(p)
      && o.table.Keys == table.Keys + {p.productId}
      && o.table[p.productId] == p
      && forall id :: id in table ==> o.table[id] == table[id]
    ensures p.productId in table ==>
      o.response == Response(500, Message(ErrorCreating)) && o.table == table
  {
    if p.productId in table then
      Outcome(Response(500, Message(ErrorCreating)), table)
    else
      Outcome(Response(201, Row(p)), table[p.productId := p])
  }

  /** `updateProduct`: overwrite the four fields of an existing row; the
      store throws on a missing row, answered with 500. */
  function Update(table: Table, productId: string, f: ProductFields): (o: Outcome)
    ensures o.response.status == 200 <==> productId in table
    ensures productId in table ==>
      && o.table.Keys == table.Keys
      && o.table[productId] ==
         Product(table[productId].productId, f.name, f.price, f.stockQuantity, f.rating)
      && o.response.body == Row(o.table[productId])
      && forall id :: id in table && id != productId ==> o.table[id] == table[id]
    ensures productId !in table ==>
      o.response == Response(500, Message(ErrorUpdating)) && o.table == table
  {
    if productId !in table then
      Outcome(Response(500, Message(ErrorUpdating)), table)
    else
      var row := table[productId].(name := f.name, price := f.price,
                                   stockQuantity := f.stockQuantity, rating := f.rating);
      Outcome(Response(200, Row(row)), table[productId := row])
  }

  /** JavaScript's `!x` on the request's id and quantity: an empty or absent
      id, and an absent or zero quantity, are falsy. */
  function MissingId(productId: string): bool
  {
    productId == ""
  }

  function MissingQuantity(quantity: Option<int>): bool
  {
    quantity.None? || quantity.value == 0
  }

  /** `deleteProduct`: validate, look up, then remove the row when the
      requested quantity reaches its stock, or else write back the reduced stock. */
  function DeleteOrDecrement(table: Table, productId: string, quantity: Option<int>): (o: Outcome)
    // validation: nothing is looked up and nothing changes
    ensures o.response.status == 400 <==> productId == "" || quantity == None || quantity == Some(0)
    ensures o.response.status == 400 ==>
      o.response.body == Message(MissingParams) && o.table == table
    // lookup
    ensures o.response.status == 404 <==>
      !MissingId(productId) && !MissingQuantity(quantity) && productId !in table
    ensures o.response.status == 404 ==>
      o.response.body == Message(NotFound) && o.table == table
    // removal, including the boundary quantity == stock
    ensures o.response.body.Deleted? <==>
      && !MissingId(productId) && !MissingQuantity(quantity) && productId in table
      && table[productId].stockQuantity <= quantity.value
    ensures o.response.body.Deleted? ==>
      && o.response == Response(200, Deleted(ProductDeleted, table[productId]))
      && o.table == table - {productId}
    // decrement: the row stays with strictly positive stock, nothing else changes
    ensures o.response.body.StockUpdated? <==>
      && !MissingId(productId) && !MissingQuantity(quantity) && productId in table
      && table[productId].stockQuantity > quantity.value
    ensures o.response.body.StockUpdated? ==>
      && o.table.Keys == table.Keys
      && o.table[productId] ==
         table[productId].(stockQuantity := table[productId].stockQuantity - quantity.value)
      && o.table[productId].stockQuantity > 0
      && o.response == Response(200, StockUpdated(StockUpdatedMessage, o.table[productId]))
      && forall id :: id in table && id != productId ==> o.table[id] == table[id]
    // these are the only four answers
    ensures o.response.status in {200, 400, 404}
    ensures o.response.status == 200 <==> o.response.body.Deleted? || o.response.body.StockUpdated?
  {
    if MissingId(productId) || MissingQuantity(quantity) then
      Outcome(Response(400, Message(MissingParams)), table)
    else if productId !in table then
      Outcome(Response(404, Message(NotFound)), table)
    else
      var product := table[productId];
      if product.stockQuantity <= quantity.value then
        Outcome(Response(200, Deleted(ProductDeleted, product)), table - {productId})
      else
        var updated := product.(stockQuantity := product.stockQuantity - quantity.value);
        Outcome(Response(200, StockUpdated(StockUpdatedMessage, updated)), table[productId := updated])
  }

  // ---------------------------------------------------------------------
  // Properties relating several calls

  /** Every operation keeps each row under its own id. */
  lemma OperationsKeepKeys(table: Table, p: Product, id: string, f: ProductFields, q: Option<int>)
    requires KeyedById(table)
    ensures KeyedById(Create(table, p).table)
    ensures KeyedById(Update(table, id, f).table)
    ensures KeyedById(DeleteOrDecrement(table, id, q).table)
  {
  }

  /** Read after write: a created row is listed with the fields supplied. */
  lemma CreateThenList(table: Table, p: Product, search: Option<string>)
    requires p.productId !in table
    requires search.None? || IsSubstring(p.name, search.value)
    ensures p in ListRows(Create(table, p).table, search)
  {
    assert p == Create(table, p).table[p.productId];
  }

  /** After a removal no listing shows a row with that id. */
  lemma DeleteThenList(table: Table, id: string, q: Option<int>, search: Option<string>)
    requires KeyedById(table)
    requires DeleteOrDecrement(table, id, q).response.body.Deleted?
    ensures forall p :: p in ListRows(DeleteOrDecrement(table, id, q).table, search) ==> p.productId != id
  {
  }

  /** Without a search term or with the empty term, every row is listed. */
  lemma ListAllRows(table: Table, search: Option<string>)
    requires search.None? || search == Some("")
    ensures ListRows(table, search) == table.Values
  {
    if search.Some? {
      forall p | p in table.Values ensures p in ListRows(table, search) {
        EmptyTermMatchesAll(p.name);
        ContainsIsSubstring(p.name, "");
      }
    }
  }

  /** A negative quantity is truthy, passes validation and, on a row with
      non-negative stock, always takes the decrement branch: the stock grows. */
  lemma NegativeQuantityIncreasesStock(table: Table, id: string, q: int)
    requires id != "" && id in table && table[id].stockQuantity >= 0 && q < 0
    ensures DeleteOrDecrement(table, id, Some(q)).response.body.StockUpdated?
    ensures DeleteOrDecrement(table, id, Some(q)).table[id].stockQuantity > table[id].stockQuantity
  {
  }

  /** With positive quantities the handler never creates a row with
      non-positive stock: stock at rest stays non-negative. */
  lemma PositiveDeleteKeepsStockNonNegative(table: Table, id: string, q: Option<int>)
    requires forall k :: k in table ==> table[k].stockQuantity >= 0
    requires q.Some? ==> q.value > 0
    ensures forall k :: k in DeleteOrDecrement(table, id, q).table ==>
      DeleteOrDecrement(table, id, q).table[k].stockQuantity >= 0
  {
  }

  /** The worked example: ten in stock, deleting ten removes the row and
      deleting four leaves six. */
  lemma DeleteExamples(p: Product)
    requires p.productId == "p1" && p.stockQuantity == 10
    ensures DeleteOrDecrement(map["p1" := p], "p1", Some(10)) ==
      Outcome(Response(200, Deleted(ProductDeleted, p)), map[])
    ensures DeleteOrDecrement(map["p1" := p], "p1", Some(4)).table["p1"].stockQuantity == 6
  {
    assert map["p1" := p] - {"p1"} == map[];
  }

  // ---------------------------------------------------------------------
  // The store the handlers share

  class ProductStore {
    var products: Table

    ghost predicate Valid()
      reads this
    {
      KeyedById(products)
    }

    constructor(initial: Table)
      requires KeyedById(initial)
      ensures Valid() && products == initial
    {
      products := initial;
    }

    /** `getProducts`: answer 200 with the filtered rows; reads only. */
    function GetProducts(search: Option<string>): (r: Response)
      reads this
      ensures r.status == 200 && r.body.Rows?
      ensures forall p :: p in r.body.rows <==>
        p in products.Values && (search.None? || IsSubstring(p.name, search.value))
    {
      Response(200, Rows(ListRows(products, search)))
    }

    /** `createProduct` */
    method CreateProduct(p: Product) returns (resp: Response)
      requires Valid()
      modifies this
      ensures Valid()
      ensures Outcome(resp, products) == Create(old(products), p)
    {
      if p.productId in products {
        resp := Response(500, Message(ErrorCreating));
        return;
      }
      products := products[p.productId := p];
      resp := Response(201, Row(p));
    }

    /** `updateProduct` */
    method UpdateProduct(productId: string, f: ProductFields) returns (resp: Response)
      requires Valid()
      modifies this
      ensures Valid()
      ensures Outcome(resp, products) == Update(old(products), productId, f)
    {
      if productId !in products {
        resp := Response(500, Message(ErrorUpdating));
        return;
      }
      var updated := products[productId].(name := f.name, price := f.price,
                                          stockQuantity := f.stockQuantity, rating := f.rating);
      products := products[productId := updated];
      resp := Response(200, Row(updated));
    }

    /** `deleteProduct`: guard, lookup, then delete or decrement. */
    method DeleteProduct(productId: string, quantity: Option<int>) returns (resp: Response)
      requires Valid()
      modifies this
      ensures Valid()
      ensures Outcome(resp, products) == DeleteOrDecrement(old(products), productId, quantity)
    {
      if MissingId(productId) || MissingQuantity(quantity) {
        resp := Response(400, Message(MissingParams));
        return;
      }
      if productId !in products {
        resp := Response(404, Message(NotFound));
        return;
      }
      var product := products[productId];
      if product.stockQuantity <= quantity.value {
        products := products - {productId};
        resp := Response(200, Deleted(ProductDeleted, product));
      } else {
        var updated := product.(stockQuantity := product.stockQuantity - quantity.value);
        products := products[productId := updated];
        resp := Response(200, StockUpdated(StockUpdatedMessage, updated));
      }
    }
  }
}
