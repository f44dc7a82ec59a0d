/** The values the handlers exchange with the key-value store and with
    their callers: JSON values with JavaScript truthiness, product items,
    stock rows and the products of the static catalogue. */
module Records {

  datatype Option<+T> = None | Some(value: T) {
    function GetOr(default: T): T {
      match this
      case Some(v) => v
      case None => default
    }
  }

  /** A JSON value as the handlers see it after parsing. Numbers are
      integers here; an array behaves like an object without named fields
      for every test the handlers make, so `Obj` stands for both. */
  datatype Value =
    | Null
    | Bool(b: bool)
    | Num(n: int)
    | Str(s: string)
    | Obj(fields: map<string, Value>)

  /** JavaScript truthiness: `null`, `false`, `0` and `""` are falsy,
      every object is truthy. */
  predicate Truthy(v: Value) {
    match v
    case Null => false
    case Bool(b) => b
    case Num(n) => n != 0
    case Str(s) => s != ""
    case Obj(_) => true
  }

  /** Property access `v.name`: `None` is `undefined`, which is what every
      non-object and every object without that property gives. */
  function Field(v: Value, name: string): (r: Option<Value>)
    ensures r.Some? <==> v.Obj? && name in v.fields
    ensures r.Some? ==> r.value == v.fields[name]
  {
    if v.Obj? && name in v.fields then Some(v.fields[name]) else None
  }

  /** Truthiness of a possibly undefined property (`undefined` is falsy). */
  predicate TruthyField(v: Value, name: string) {
    match Field(v, name)
    case None => false
    case Some(x) => Truthy(x)
  }

  /** An item of the products table: its key `id` and its other attributes. */
  datatype Product = Product(id: string, attrs: map<string, Value>)

  const CountAttr: string := "count"

  /** `{ ...p, count }`: every attribute of `p` is kept and `count` is set,
      replacing an attribute of that name if `p` already had one. */
  function WithCount(p: Product, count: int): (r: Product)
    ensures r.id == p.id
    ensures r.attrs.Keys == p.attrs.Keys + {CountAttr}
    ensures CountAttr in r.attrs && r.attrs[CountAttr] == Num(count)
    ensures forall k :: k in p.attrs && k != CountAttr ==> r.attrs[k] == p.attrs[k]
  {
    Product(p.id, p.attrs[CountAttr := Num(count)])
  }

  /** A row of the stock table as a batch-get returns it. */
  datatype StockRow = StockRow(productId: string, count: int)

  /** `stockMap[id] ?? 0`: the stock count for `id`, or 0 when there is none. */
  function CountFor(stock: map<string, int>, id: string): (c: int)
    ensures id in stock ==> c == stock[id]
    ensures id !in stock ==> c == 0
  {
    if id in stock then stock[id] else 0
  }

  /** A product of the static catalogue file. */
  datatype CatalogueProduct = CatalogueProduct(
    id: string,
    title: string,
    price: int,
    currency: string,
    image: string,
    category: string)
}
