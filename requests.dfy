/** The requests the handlers send to the key-value store, recorded in the
    order they are sent, so that what a handler reads and writes, and in which
    order, can be stated alongside its response. */
module Requests {
  import opened Records
  import opened Http

  /** A request sent to the key-value store. */
  datatype Op =
    | ScanProducts
    | BatchGetStock(keys: seq<string>)
    | GetProduct(id: string)
    | GetStock(productId: string)
    | PutProduct(item: Product)
    | PutStock(productId: string, count: int)

  /** What a handler returns, and the store requests it sent, in order. */
  datatype Handled = Handled(response: Response, ops: seq<Op>)
}
