/** The get-by-id handler: a missing id is refused, the product is read by
    its key, and only when it exists is its stock row read and its count
    attached (0 without a stock row). */
module ProductById {
  import opened Records
  import opened Http
  import opened Requests

  const MissingProductId: string := "Missing productId"
  const ProductNotFound: string := "Product not found"

  /** `event.pathParameters && event.pathParameters.productId` is falsy. */
  predicate MissingId(productId: Option<string>) {
    productId == None || productId == Some("")
  }

  /** The handler over the two tables: `products` maps an id to its item,
      `stock` maps a product id to its stock count. */
  function GetById(products: map<string, Product>, stock: map<string, int>, productId: Option<string>)
    : (h: Handled)
    // a missing id is refused before any read, without headers
    ensures MissingId(productId) <==> h.response.status == 400
    ensures MissingId(productId) ==> h == Handled(Response(400, NoHeaders, Message(MissingProductId)), [])
    // an unknown id is refused after the product read alone
    ensures !MissingId(productId) && productId.value !in products <==> h.response.status == 404
    ensures !MissingId(productId) && productId.value !in products ==>
      h == Handled(Response(404, NoHeaders, Message(ProductNotFound)), [GetProduct(productId.value)])
    // a known id is answered with the product and its stock count, or 0
    ensures !MissingId(productId) && productId.value in products <==> h.response.status == 200
    ensures !MissingId(productId) && productId.value in products ==>
      var id := productId.value;
      && h.ops == [GetProduct(id), GetStock(id)]
      && h.response.headers == JsonHeaders
      && h.response.body == Item(WithCount(products[id], CountFor(stock, id)))
  {
    if MissingId(productId) then
      Handled(Response(400, NoHeaders, Message(MissingProductId)), [])
    else
      var id := productId.value;
      if id !in products then
        Handled(Response(404, NoHeaders, Message(ProductNotFound)), [GetProduct(id)])
      else
        var count := if id in stock then stock[id] else 0;
        Handled(Response(200, JsonHeaders, Item(WithCount(products[id], count))), [GetProduct(id), GetStock(id)])
  }

  /** Whether a product is found depends on the products table alone: the
      stock table never turns a 404 into a 200 or back. */
  lemma NotFoundIgnoresStock(products: map<string, Product>, stock1: map<string, int>,
                             stock2: map<string, int>, id: string)
    requires id != "" && id !in products
    ensures GetById(products, stock1, Some(id)) == GetById(products, stock2, Some(id))
  {
  }

  /** The count attached to a found product is its stock row's count when
      there is one and 0 otherwise; every other attribute is the stored one. */
  lemma FoundCount(products: map<string, Product>, stock: map<string, int>, id: string)
    requires id != "" && id in products
    ensures var r := GetById(products, stock, Some(id)).response.body.item;
      && r.attrs[CountAttr] == (if id in stock then Num(stock[id]) else Num(0))
      && forall k :: k in products[id].attrs && k != CountAttr ==> r.attrs[k] == products[id].attrs[k]
  {
  }
}
