/** The create handler: choose the payload, validate it before any write,
    build the product record, put it, put the stock row when the initial
    count allows it, and answer 201, or 400 for an invalid payload, or 500
    for anything thrown on the way. */
module CreateProduct {
  import opened Records
  import opened Http
  import opened Requests
  import opened Store

  const InvalidPayload: string := "Invalid payload. Required: title (string), price (number)."
  const InternalError: string := "Internal server error"

  const TitleAttr: string := "title"
  const DescriptionAttr: string := "description"
  const PriceAttr: string := "price"

  /** `event.body`: absent or empty, text that `JSON.parse` rejects, or the
      value it parses to. */
  datatype RequestBody = NoBody | Malformed | Parsed(value: Value)

  /** The request event: its body and its other properties. */
  datatype Event = Event(body: RequestBody, fields: map<string, Value>)

  /** `event.body ? JSON.parse(event.body) : event`; None when the parse
      throws. */
  function Payload(event: Event): (payload: Option<Value>)
    ensures payload.None? <==> event.body.Malformed?
    ensures event.body.Parsed? ==> payload == Some(event.body.value)
    ensures event.body.NoBody? ==> payload == Some(Obj(event.fields))
  {
    match event.body
    case NoBody => Some(Obj(event.fields))
    case Malformed => None
    case Parsed(v) => Some(v)
  }

  /** The negation of `!body || !body.title || typeof body.price !== 'number'`. */
  predicate ValidPayload(body: Value) {
    && Truthy(body)
    && TruthyField(body, TitleAttr)
    && Field(body, PriceAttr).Some? && Field(body, PriceAttr).value.Num?
  }

  /** `typeof body.count === 'number' ? body.count : 0`. */
  function InitialCount(body: Value): (count: int)
    ensures Field(body, CountAttr).Some? && Field(body, CountAttr).value.Num? ==>
      count == Field(body, CountAttr).value.n
    ensures !(Field(body, CountAttr).Some? && Field(body, CountAttr).value.Num?) ==> count == 0
  {
    match Field(body, CountAttr)
    case Some(Num(n)) => n
    case _ => 0
  }

  /** The stored record `{ id, title, description: description || '', price }`. */
  function NewProduct(body: Value, id: string): (p: Product)
    requires ValidPayload(body)
    ensures p.id == id
    ensures p.attrs.Keys == {TitleAttr, DescriptionAttr, PriceAttr}
    ensures p.attrs[TitleAttr] == Field(body, TitleAttr).value && Truthy(p.attrs[TitleAttr])
    ensures p.attrs[PriceAttr] == Field(body, PriceAttr).value && p.attrs[PriceAttr].Num?
    ensures TruthyField(body, DescriptionAttr) ==> p.attrs[DescriptionAttr] == Field(body, DescriptionAttr).value
    ensures !TruthyField(body, DescriptionAttr) ==> p.attrs[DescriptionAttr] == Str("")
  {
    var description := if TruthyField(body, DescriptionAttr) then Field(body, DescriptionAttr).value else Str("");
    Product(id, map[TitleAttr := Field(body, TitleAttr).value,
                    DescriptionAttr := description,
                    PriceAttr := Field(body, PriceAttr).value])
  }

  /** `initialCount >= 0 && STOCK_TABLE`: whether the stock row is put. */
  predicate WritesStock(initialCount: int, stockTableSet: bool) {
    initialCount >= 0 && stockTableSet
  }

  /** What the handler decides before its first write. */
  datatype Plan = Throws | Invalid | Write(product: Product, initialCount: int)

  /** The decision the handler takes for `event`, `id` being the fresh id
      `uuidv4()` would give. */
  function Decide(event: Event, id: string): (plan: Plan)
    ensures plan.Throws? <==> event.body.Malformed?
    ensures plan.Invalid? <==> Payload(event).Some? && !ValidPayload(Payload(event).value)
    ensures plan.Write? ==>
      var body := Payload(event).value;
      && ValidPayload(body)
      && plan.product == NewProduct(body, id)
      && plan.initialCount == InitialCount(body)
  {
    match Payload(event)
    case None => Throws
    case Some(body) =>
      if !ValidPayload(body) then Invalid
      else Write(NewProduct(body, id), InitialCount(body))
  }

  /** A count that is omitted still gives a stock row, with count 0. */
  lemma OmittedCountStocksZero(event: Event, id: string, stockTableSet: bool)
    requires Decide(event, id).Write?
    requires Field(Payload(event).value, CountAttr).None?
    ensures Decide(event, id).initialCount == 0
    ensures WritesStock(Decide(event, id).initialCount, stockTableSet) == stockTableSet
  {
  }

  /** A negative count gives no stock row, and is still the one reported. */
  lemma NegativeCountNotStocked(event: Event, id: string, n: int, stockTableSet: bool)
    requires Decide(event, id).Write?
    requires Field(Payload(event).value, CountAttr) == Some(Num(n)) && n < 0
    ensures Decide(event, id).initialCount == n
    ensures !WritesStock(Decide(event, id).initialCount, stockTableSet)
  {
  }

  /** The handler. `newId` is the fresh id, `stockTableSet` whether
      `STOCK_TABLE_NAME` is set, and the two flags say which put, if any,
      the store fails. */
  method Handle(tables: Tables, event: Event, newId: string, stockTableSet: bool,
                productPutFails: bool, stockPutFails: bool)
    returns (h: Handled)
    modifies tables
    ensures Decide(event, newId).Throws? ==>
      && h == Handled(Response(500, JsonHeaders, Message(InternalError)), [])
      && tables.products == old(tables.products) && tables.stock == old(tables.stock)
    ensures Decide(event, newId).Invalid? ==>
      && h == Handled(Response(400, JsonHeaders, Message(InvalidPayload)), [])
      && tables.products == old(tables.products) && tables.stock == old(tables.stock)
    ensures Decide(event, newId).Write? ==>
      var p := Decide(event, newId).product;
      var count := Decide(event, newId).initialCount;
      var putsStock := !productPutFails && WritesStock(count, stockTableSet);
      // the product is put first, then the stock row
      && h.ops == [PutProduct(p)] + (if putsStock then [PutStock(newId, count)] else [])
      && tables.products == (if productPutFails then old(tables.products) else old(tables.products)[newId := p])
      && tables.stock == (if putsStock && !stockPutFails then old(tables.stock)[newId := count] else old(tables.stock))
      && h.response == if productPutFails || (putsStock && stockPutFails)
                       then Response(500, JsonHeaders, Message(InternalError))
                       else Response(201, JsonHeaders, Created(newId, p, count))
  {
    var payload := Payload(event);
    if payload.None? {
      return Handled(Response(500, JsonHeaders, Message(InternalError)), []);
    }
    var body := payload.value;
    if !ValidPayload(body) {
      return Handled(Response(400, JsonHeaders, Message(InvalidPayload)), []);
    }
    var product := NewProduct(body, newId);
    var ops := [PutProduct(product)];
    var ok := tables.PutProduct(product, productPutFails);
    if !ok {
      return Handled(Response(500, JsonHeaders, Message(InternalError)), ops);
    }
    var initialCount := InitialCount(body);
    if WritesStock(initialCount, stockTableSet) {
      ops := ops + [PutStock(newId, initialCount)];
      ok := tables.PutStock(newId, initialCount, stockPutFails);
      if !ok {
        return Handled(Response(500, JsonHeaders, Message(InternalError)), ops);
      }
    }
    h := Handled(Response(201, JsonHeaders, Created(newId, product, initialCount)), ops);
  }
}
