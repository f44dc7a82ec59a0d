/** How the handlers agree with one another over the same two tables: the
    list handler's join gives every product the same view as the get-by-id
    handler, and a product just created reads back with the count that was
    stored for it. */
module Consistency {
  import opened Records
  import opened Http
  import opened ProductsList
  import opened ProductById
  import opened CreateProduct

  /** `scanned` is a scan of `products`: every item is the stored one. */
  predicate ScanOf(products: map<string, Product>, scanned: seq<Product>) {
    forall i :: 0 <= i < |scanned| ==> scanned[i].id in products && products[scanned[i].id] == scanned[i]
  }

  /** `rows` is a batch-get of `keys` from `stock`: every row is a stored
      row, and every key that has a stored row is answered. */
  predicate BatchGetOf(stock: map<string, int>, keys: seq<string>, rows: seq<StockRow>) {
    && (forall j :: 0 <= j < |rows| ==> rows[j].productId in stock && stock[rows[j].productId] == rows[j].count)
    && (forall i :: 0 <= i < |keys| && keys[i] in stock ==>
          exists j :: 0 <= j < |rows| && rows[j].productId == keys[i])
  }

  /** Folding rows that all agree with the stock table gives entries that
      agree with it too. */
  lemma {:induction false} StockMapAgrees(stock: map<string, int>, rows: seq<StockRow>, k: string)
    requires forall j :: 0 <= j < |rows| ==> rows[j].productId in stock && stock[rows[j].productId] == rows[j].count
    requires k in StockMapOf(rows)
    ensures k in stock && StockMapOf(rows)[k] == stock[k]
  {
    var last := rows[|rows| - 1];
    if last.productId != k {
      var init := rows[..|rows| - 1];
      forall j | 0 <= j < |init|
        ensures init[j].productId in stock && stock[init[j].productId] == init[j].count
      {
        assert init[j] == rows[j];
      }
      StockMapAgrees(stock, init, k);
    }
  }

  /** Over a faithful scan and batch-get, each entry of the joined list is
      exactly what get-by-id answers for that entry's id. */
  lemma ListAgreesWithGetById(products: map<string, Product>, stock: map<string, int>,
                              scanned: seq<Product>, rows: seq<StockRow>, i: int)
    requires ScanOf(products, scanned)
    requires BatchGetOf(stock, BatchKeys(scanned), rows)
    requires 0 <= i < |scanned| && scanned[i].id != ""
    ensures GetById(products, stock, Some(scanned[i].id)).response ==
            Response(200, JsonHeaders, Item(Join(scanned, StockMapOf(rows))[i]))
  {
    var id := scanned[i].id;
    StockMapKeys(rows, id);
    if id in stock {
      // the key was asked for, so some row answers it
      assert BatchKeys(scanned)[i] == id;
    }
    if id in StockMapOf(rows) {
      StockMapAgrees(stock, rows, id);
    }
  }

  /** After a create whose writes both succeed, get-by-id on the new id
      answers 200 with the stored record and the count just put, or the
      count the stock table already had when no stock row was put. */
  lemma CreatedProductReadsBack(products: map<string, Product>, stock: map<string, int>,
                                event: Event, newId: string, stockTableSet: bool)
    requires newId != ""
    requires Decide(event, newId).Write?
    ensures var plan := Decide(event, newId);
      var putsStock := WritesStock(plan.initialCount, stockTableSet);
      var stock' := if putsStock then stock[newId := plan.initialCount] else stock;
      var count := if putsStock then plan.initialCount else CountFor(stock, newId);
      GetById(products[newId := plan.product], stock', Some(newId)).response ==
        Response(200, JsonHeaders, Item(WithCount(plan.product, count)))
  {
  }

  /** A product created without a count reads back with count 0, whether or
      not a stock table is configured, as long as its id was new. */
  lemma CreatedWithoutCountReadsZero(products: map<string, Product>, stock: map<string, int>,
                                     event: Event, newId: string, stockTableSet: bool)
    requires newId != "" && newId !in stock
    requires Decide(event, newId).Write?
    requires Field(Payload(event).value, CountAttr).None?
    ensures var plan := Decide(event, newId);
      var stock' := if WritesStock(plan.initialCount, stockTableSet) then stock[newId := 0] else stock;
      GetById(products[newId := plan.product], stock', Some(newId)).response.body.item.attrs[CountAttr] == Num(0)
  {
  }
}
