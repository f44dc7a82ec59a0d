/** Responses the handlers return to the API gateway. */
module Http {
  import opened Records

  /** The response body before JSON serialisation. */
  datatype Body =
    | Blank                                             // the empty string
    | Message(message: string)                          // { message }
    | Item(item: Product)                               // one joined product
    | Items(items: seq<Product>)                        // the joined list
    | Created(id: string, product: Product, stock: int) // { id, product, stock }
    | Listed(entry: CatalogueProduct)                   // a catalogue product
    | Url(url: string)                                  // { url }

  datatype Response = Response(status: int, headers: map<string, string>, body: Body)

  /** Headers of the product-service JSON responses. */
  const JsonHeaders: map<string, string> :=
    map["Content-Type" := "application/json", "Access-Control-Allow-Origin" := "*"]

  /** A response without any header. */
  const NoHeaders: map<string, string> := map[]

}
