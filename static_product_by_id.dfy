/** The get-by-id handler over a static catalogue: the product list is
    loaded once when the module loads (empty if the file cannot be read or
    parsed), and each request looks up the first product whose id is exactly
    the requested one. */
module StaticProductById {
  import opened Records
  import opened Http

  const MissingProductIdInPath: string := "Missing productId in path"
  const ProductNotFound: string := "Product not found"

  /** `products.find(p => p.id === productId)`. */
  function Find(products: seq<CatalogueProduct>, id: string): (found: Option<CatalogueProduct>)
    ensures found.None? <==> forall i :: 0 <= i < |products| ==> products[i].id != id
    ensures found.Some? ==>
      exists i :: 0 <= i < |products| && products[i] == found.value && found.value.id == id &&
        forall j :: 0 <= j < i ==> products[j].id != id
  {
    if products == [] then None
    else if products[0].id == id then Some(products[0])
    else
      var rest := Find(products[1..], id);
      assert rest.Some? ==>
        (exists i :: 1 <= i < |products| && products[i] == rest.value &&
           forall j :: 0 <= j < i ==> products[j].id != id)
      by {
        if rest.Some? {
          var i :| 0 <= i < |products[1..]| && products[1..][i] == rest.value && rest.value.id == id &&
            forall j :: 0 <= j < i ==> products[1..][j].id != id;
          assert forall j :: 1 <= j < i + 1 ==> products[j] == products[1..][j - 1];
        }
      }
      rest
  }

  /** The handler's answer for `productId` over the loaded `products`. All
      three outcomes carry the JSON headers. */
  function Lookup(products: seq<CatalogueProduct>, productId: Option<string>): (r: Response)
    ensures r.headers == JsonHeaders
    ensures r.status == 400 <==> productId == None || productId == Some("")
    ensures r.status == 400 ==> r.body == Message(MissingProductIdInPath)
    ensures r.status == 404 <==>
      productId.Some? && productId.value != "" && Find(products, productId.value).None?
    ensures r.status == 404 ==> r.body == Message(ProductNotFound)
    ensures r.status == 200 <==>
      productId.Some? && productId.value != "" && Find(products, productId.value).Some?
    ensures r.status == 200 ==> r.body == Listed(Find(products, productId.value).value)
  {
    if productId == None || productId == Some("") then
      Response(400, JsonHeaders, Message(MissingProductIdInPath))
    else
      match Find(products, productId.value)
      case None => Response(404, JsonHeaders, Message(ProductNotFound))
      case Some(p) => Response(200, JsonHeaders, Listed(p))
  }

  /** A 200 answer returns a catalogue product unchanged whose id is the
      requested one. */
  lemma FoundIsListed(products: seq<CatalogueProduct>, id: string)
    requires id != ""
    requires Lookup(products, Some(id)).status == 200
    ensures Lookup(products, Some(id)).body.entry in products
    ensures Lookup(products, Some(id)).body.entry.id == id
  {
  }

  /** The product list loaded once per process. */
  class Catalogue {
    var products: seq<CatalogueProduct>

    /** The module-level load: the parsed file, or `[]` if reading or
        parsing it failed (`loaded` is None). */
    constructor Load(loaded: Option<seq<CatalogueProduct>>)
      ensures products == loaded.GetOr([])
    {
      products := [];
      if loaded.Some? {
        products := loaded.value;
      }
    }

    /** The handler; it has no `modifies` clause, so it cannot change the
        loaded list. */
    method Handle(productId: Option<string>) returns (r: Response)
      ensures r == Lookup(products, productId)
    {
      r := Lookup(products, productId);
    }
  }

  /** With a catalogue that failed to load, every request with an id is
      answered 404. */
  lemma FailedLoadFindsNothing(id: string)
    requires id != ""
    ensures Lookup([], Some(id)).status == 404
  {
  }
}
