/** The two tables of the key-value store that createProduct writes:
    products keyed by `id` and stock rows keyed by `product_id`. A put
    overwrites unconditionally; one that fails (the store is unreachable)
    changes nothing. */
module Store {
  import opened Records

  class Tables {
    var products: map<string, Product>
    var stock: map<string, int>

    constructor (products: map<string, Product>, stock: map<string, int>)
      ensures this.products == products && this.stock == stock
    {
      this.products := products;
      this.stock := stock;
    }

    /** `PutCommand` on the products table with `item`. */
    method PutProduct(item: Product, fails: bool) returns (ok: bool)
      modifies this
      ensures ok == !fails
      ensures products == if ok then old(products)[item.id := item] else old(products)
      ensures stock == old(stock)
    {
      ok := !fails;
      if ok {
        products := products[item.id := item];
      }
    }

    /** `PutCommand` on the stock table with `{ product_id, count }`. */
    method PutStock(productId: string, count: int, fails: bool) returns (ok: bool)
      modifies this
      ensures ok == !fails
      ensures stock == if ok then old(stock)[productId := count] else old(stock)
      ensures products == old(products)
    {
      ok := !fails;
      if ok {
        stock := stock[productId := count];
      }
    }
  }
}
