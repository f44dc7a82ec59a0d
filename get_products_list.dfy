/** The list handler: scan the products table, fetch the stock rows of
    every scanned id in one batch (skipped when there is none), fold the rows
    into a map in which the last row for an id wins, and attach `count` to
    each product, defaulting to 0. */
module ProductsList {
  import opened Records
  import opened Http
  import opened Requests

  /** The keys of the batch-get, `products.map(p => ({ product_id: p.id }))`. */
  function BatchKeys(products: seq<Product>): (keys: seq<string>)
    ensures |keys| == |products|
    ensures forall i :: 0 <= i < |products| ==> keys[i] == products[i].id
  {
    if products == [] then [] else [products[0].id] + BatchKeys(products[1..])
  }

  /** The stock map the `reduce` builds: rows are applied left to right,
      each one overwriting the entry of its product id. */
  function StockMapOf(rows: seq<StockRow>): map<string, int>
  {
    if rows == [] then map[]
    else
      var last := rows[|rows| - 1];
      StockMapOf(rows[..|rows| - 1])[last.productId := last.count]
  }

  /** The ids the stock map has an entry for are exactly the ids of the rows. */
  lemma {:induction false} StockMapKeys(rows: seq<StockRow>, k: string)
    ensures k in StockMapOf(rows) <==> exists i :: 0 <= i < |rows| && rows[i].productId == k
  {
    if rows != [] {
      var init := rows[..|rows| - 1];
      StockMapKeys(init, k);
      if k in StockMapOf(init) {
        var i :| 0 <= i < |init| && init[i].productId == k;
        assert rows[i] == init[i];
      }
      if exists i :: 0 <= i < |rows| && rows[i].productId == k {
        var i :| 0 <= i < |rows| && rows[i].productId == k;
        if i < |init| { assert init[i] == rows[i]; }
      }
    }
  }

  /** Last writer wins: a row with no later row for the same id decides
      that id's count. */
  lemma {:induction false} LastRowWins(rows: seq<StockRow>, i: int)
    requires 0 <= i < |rows|
    requires forall j :: i < j < |rows| ==> rows[j].productId != rows[i].productId
    ensures rows[i].productId in StockMapOf(rows)
    ensures StockMapOf(rows)[rows[i].productId] == rows[i].count
  {
    if i < |rows| - 1 {
      var init := rows[..|rows| - 1];
      assert init[i] == rows[i];
      forall j | i < j < |init| ensures init[j].productId != init[i].productId {
        assert init[j] == rows[j];
      }
      LastRowWins(init, i);
    }
  }

  /** The `reduce` of the stock rows into `stockMap`, as the loop it is. */
  method FoldStock(rows: seq<StockRow>) returns (stockMap: map<string, int>)
    ensures stockMap == StockMapOf(rows)
  {
    stockMap := map[];
    var i := 0;
    while i < |rows|
      invariant 0 <= i <= |rows|
      invariant stockMap == StockMapOf(rows[..i])
    {
      assert rows[..i + 1][..i] == rows[..i];
      stockMap := stockMap[rows[i].productId := rows[i].count];
      i := i + 1;
    }
    assert rows[..|rows|] == rows;
  }

  /** The join, `products.map(p => ({ ...p, count: stockMap[p.id] ?? 0 }))`. */
  function Join(products: seq<Product>, stockMap: map<string, int>): (joined: seq<Product>)
    ensures |joined| == |products|
    ensures forall i :: 0 <= i < |products| ==>
      joined[i] == WithCount(products[i], CountFor(stockMap, products[i].id))
  {
    if products == [] then []
    else [WithCount(products[0], CountFor(stockMap, products[0].id))] + Join(products[1..], stockMap)
  }

  /** The handler. `scanned` is the scan's `Items` (None when the response
      has none); `batchGet` answers a batch-get for the given keys with its
      stock rows (None when the response has no `Responses`). */
  method ListProducts(scanned: Option<seq<Product>>, batchGet: seq<string> -> Option<seq<StockRow>>)
    returns (h: Handled)
    ensures var products := scanned.GetOr([]);
      var keys := BatchKeys(products);
      var stockMap := if keys == [] then map[] else StockMapOf(batchGet(keys).GetOr([]));
      && h.ops == (if keys == [] then [ScanProducts] else [ScanProducts, BatchGetStock(keys)])
      && h.response.status == 200
      && h.response.headers == JsonHeaders
      && h.response.body.Items?
      && |h.response.body.items| == |products|
      && forall i :: 0 <= i < |products| ==>
           h.response.body.items[i] == WithCount(products[i], CountFor(stockMap, products[i].id))
    ensures scanned.GetOr([]) == [] ==> h.ops == [ScanProducts] && h.response.body == Items([])
  {
    var products := scanned.GetOr([]);
    var ops := [ScanProducts];
    var keys := BatchKeys(products);
    var stockMap: map<string, int> := map[];
    if |keys| > 0 {
      ops := ops + [BatchGetStock(keys)];
      var rows := batchGet(keys).GetOr([]);
      stockMap := FoldStock(rows);
    }
    var joined := Join(products, stockMap);
    h := Handled(Response(200, JsonHeaders, Items(joined)), ops);
  }
}
