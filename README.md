# Product service handlers, modelled in Dafny

A serverless product catalogue keeps products in one key-value table
(`id` → item) and stock counts in another (`product_id` → count). Five
request handlers carry the repository's own logic:

- **getProductsList** scans the products, batch-fetches the stock rows of the
  scanned ids (only when there is at least one id), folds the rows into a map
  in which the last row for an id wins, and attaches `count` to every product,
  defaulting to 0.
- **getProductsById** refuses a missing id (400), reads the product (404 when
  absent, without reading stock), then reads its stock row and attaches
  `count`, defaulting to 0.
- **createProduct** takes the parsed body (or the event itself when there is
  no body), validates it before any write (400), builds
  `{ id, title, description, price }` with `description` defaulting to `''`,
  puts the product, then puts the stock row when the initial count is
  non-negative and a stock table is configured, and answers 201 with
  `{ id, product, stock }`; anything thrown answers 500.
- **the static get-by-id** loads a product list once per process (empty when
  the file cannot be loaded) and answers with the first product whose id is
  exactly the requested one (400/404/200).
- **importProductsFile** answers a CORS preflight with 200, refuses a missing
  `name` (400), and otherwise signs a 60-second upload URL for the key
  `uploaded/<name>`, the prefix on which the bucket notifies the file parser.

The tables are `map`s. Store calls, the fresh id, the signer and the file
load are inputs of the model. Every store handler returns the requests it
sent, in order, so "no read", "no write" and "product before stock" can be
stated. `Records` and `Http` hold the shared values (JSON values with
JavaScript truthiness, items, responses), and `Requests` the store requests a
handler sends. `Store.Tables` is the mutable pair of tables that createProduct
writes. `Consistency` relates the handlers to one another.

Four behaviours of the code worth knowing:

- createProduct with no `count` still writes a stock row, with count 0. It is
  not skipped.
- A negative `count` writes no stock row, but the response still reports the
  negative value. It does not report 0.
- Only createProduct turns a thrown error into a 500. The list and get-by-id
  handlers have no error handling.
- The static get-by-id compares `id` with `===`: the match is exact and on
  `id` alone.

## Model

| member | source | states |
|---|---|---|
| `Records.WithCount` | lambda/getProductsList/index.ts:38 | `{ ...p, count }` keeps the id and every attribute of `p` and sets `count`, overriding an attribute of that name; the keys are those of `p` plus `count` |
| `Records.CountFor` | lambda/getProductsList/index.ts:38 | `stockMap[id] ?? 0`: the stock count when the id has an entry, 0 when it has none |
| `ProductsList.BatchKeys` | lambda/getProductsList/index.ts:26 | one batch-get key per scanned product, in scan order, key i being product i's id |
| `ProductsList.StockMapKeys` | lambda/getProductsList/index.ts:35 | an id has an entry in the folded stock map exactly when some stock row carries that id |
| `ProductsList.LastRowWins` | lambda/getProductsList/index.ts:35 | when several rows share a product id, the last of them decides the count |
| `ProductsList.FoldStock` | lambda/getProductsList/index.ts:27-36 | the `reduce` loop builds exactly the left-to-right fold of the rows, each overwriting its id's entry |
| `ProductsList.Join` | lambda/getProductsList/index.ts:38 | one entry per product, in order; entry i is product i with `count` set to its stock-map count, or 0 |
| `ProductsList.ListProducts` | lambda/getProductsList/index.ts:21-44 | a missing `Items` is an empty scan and a missing `Responses` no stock; the batch-get is sent only for a non-empty scan, with exactly the product ids; the answer is 200 with JSON headers and one joined entry per scanned product; an empty scan sends only the scan and answers an empty list |
| `ProductById.GetById` | lambda/getProductsById/index.ts:12-23 | missing or empty id: 400 without headers and no read; unknown id: 404 without headers after the product read alone; otherwise the product and then its stock row (same id) are read and 200 with JSON headers returns the product with `count` from the stock row or 0 |
| `ProductById.NotFoundIgnoresStock` | lambda/getProductsById/index.ts:16-17 | whether an id is found does not depend on the stock table |
| `ProductById.FoundCount` | lambda/getProductsById/index.ts:19-22 | a found product's `count` is its stock row's count or 0, and its other attributes are the stored ones |
| `CreateProduct.Payload` | lambda/createProduct/index.ts:15 | the payload is the parsed body when there is one, the event itself otherwise; malformed JSON gives none |
| `CreateProduct.InitialCount` | lambda/createProduct/index.ts:34 | the initial count is `count` when it is a number, 0 otherwise |
| `CreateProduct.NewProduct` | lambda/createProduct/index.ts:24-30 | the stored record has exactly the fresh id, `title`, `description` and `price`; `description` is the given one when truthy and `''` otherwise |
| `CreateProduct.Decide` | lambda/createProduct/index.ts:14-34 | malformed JSON throws; a falsy payload, a falsy `title` or a non-number `price` is invalid; otherwise the record and the initial count are the ones built from the payload |
| `CreateProduct.OmittedCountStocksZero` | lambda/createProduct/index.ts:34-35 | an omitted `count` gives initial count 0, and a stock row whenever a stock table is configured |
| `CreateProduct.NegativeCountNotStocked` | lambda/createProduct/index.ts:34-40 | a negative `count` gives no stock row, and is still the initial count reported |
| `CreateProduct.Handle` | lambda/createProduct/index.ts:13-54 | malformed JSON gives 500 and an invalid payload gives 400, neither writing; otherwise the product is put first and the stock row after it; the tables change by exactly the puts that succeed; a failed put gives 500, and success gives 201 with `{ id, product, stock: initialCount }` |
| `Store.Tables.PutProduct` | lambda/createProduct/index.ts:32 | a successful put stores the item under its id, overwriting; a failed one changes nothing; the stock table is untouched |
| `Store.Tables.PutStock` | lambda/createProduct/index.ts:35-38 | a successful put stores the count under the product id, overwriting; a failed one changes nothing; the products table is untouched |
| `StaticProductById.Find` | cdk.out/asset.75d88ebd163b8fa4436124c85c1de09adf28c4af610aac15cf8df135538707a5/index.ts:47 | none exactly when no product has the id; otherwise a listed product with that exact id and no earlier product with it |
| `StaticProductById.Lookup` | cdk.out/asset.75d88ebd163b8fa4436124c85c1de09adf28c4af610aac15cf8df135538707a5/index.ts:33-68 | 400 exactly for a missing or empty id, 404 exactly when no product has it, 200 with the found product otherwise; all three with the same JSON headers |
| `StaticProductById.FoundIsListed` | cdk.out/asset.75d88ebd163b8fa4436124c85c1de09adf28c4af610aac15cf8df135538707a5/index.ts:47-67 | a 200 answer returns, unchanged, a product of the list whose id is the requested one |
| `StaticProductById.Catalogue.Load` | cdk.out/asset.75d88ebd163b8fa4436124c85c1de09adf28c4af610aac15cf8df135538707a5/index.ts:15-24 | the list is the loaded one, or empty when loading failed |
| `StaticProductById.Catalogue.Handle` | cdk.out/asset.75d88ebd163b8fa4436124c85c1de09adf28c4af610aac15cf8df135538707a5/index.ts:33-68 | the handler answers as `Lookup` over the loaded list and, having no `modifies` clause, leaves the list unchanged |
| `StaticProductById.FailedLoadFindsNothing` | cdk.out/asset.75d88ebd163b8fa4436124c85c1de09adf28c4af610aac15cf8df135538707a5/index.ts:17-24 | over the empty list a failed load leaves, every non-empty id is answered 404 |
| `ImportProductsFile.ObjectKey` | lambda/importProductsFile/index.ts:28 | the key starts with `uploaded/` and is the name's length plus nine characters long |
| `ImportProductsFile.FileNameOf` | lambda/importProductsFile/index.ts:28 | a key yields a file name exactly when it starts with `uploaded/` |
| `ImportProductsFile.FileNameRoundTrip` | lambda/importProductsFile/index.ts:28 | stripping `uploaded/` from the key gives back the name |
| `ImportProductsFile.ObjectKeyInjective` | lambda/importProductsFile/index.ts:28 | distinct names give distinct keys |
| `ImportProductsFile.Handle` | lambda/importProductsFile/index.ts:8-37 | `OPTIONS` answers 200 with an empty body and signs nothing, whatever the query; a missing or empty name answers 400; otherwise the URL is signed for `uploaded/<name>` in the configured bucket with `expiresIn` 60 and returned with 200; every response carries the same CORS headers |
| `ImportProductsFile.SignedKeyReachesParser` | lib/import-service-stack.ts:69-74 | every key a URL is signed for lies under the bucket notification's `uploaded/` prefix and names the requested file |
| `Consistency.StockMapAgrees` | lambda/getProductsList/index.ts:35 | stock rows that agree with the stock table fold into a map that agrees with it |
| `Consistency.ListAgreesWithGetById` | lambda/getProductsList/index.ts:26-38 | over a faithful scan and batch-get, each joined entry is exactly get-by-id's 200 answer for its id |
| `Consistency.CreatedProductReadsBack` | lambda/createProduct/index.ts:24-38 | after both puts of a create, get-by-id on the new id returns the stored record with the count just put, or the old stock count when no row was put |
| `Consistency.CreatedWithoutCountReadsZero` | lambda/createProduct/index.ts:34-38 | a product created without `count` reads back with count 0, with or without a stock table |

## Left out

- Storage clients, `getSignedUrl`, `uuidv4` and the file read are not modelled. Their answers are inputs: the scan items, a batch-get function, a fresh id, fault flags for the two puts, a signer function, and the loaded list.
- The uniqueness of generated ids is not modelled, because the code never checks it.
- JSON parsing and serialisation are not modelled. A body is already parsed, or it is malformed.
- JavaScript numbers are modelled as integers. Fractional counts and prices, NaN and infinities are not represented.
- An array payload is treated like an object without the named fields, since every test the handlers make gives the same result for both.
- Stock counts are integers, so a stock item without a `count` attribute is not represented.
- `ProductsList.ListProducts`: a thrown scan or batch-get is not modelled. The handler does not catch it, so it gives no response of its own.
- `ProductsList.ListProducts`: a `Responses` map without an entry for the stock table is not modelled. The handler would throw on it.
- `ProductsList.ListProducts`: `UnprocessedKeys` and the store's limit on keys per batch-get are not modelled. The handler ignores the first and sends a single batch.
- `ProductById.GetById`: a thrown store read is not modelled. The handler does not catch it.
- `ImportProductsFile.Handle`: a rejected `getSignedUrl` is not modelled. The handler does not catch it, so with `BUCKET_NAME` unset the model still answers 200 where the source may give no response of its own.
- `StaticProductById.Lookup`: catalogue entries are limited to the six declared fields (`id`, `title`, `price`, `currency`, `image`, `category`). The source casts the parsed file without checking it and returns each object with whatever fields it has.
- `Records.CountFor`: ids that name properties of JavaScript's `Object.prototype`, such as `constructor`, are not modelled. A plain-object lookup would find those properties in the source.
- The file-parser handler (lambda/importFileParser/index.ts) is not part of this model. It streams the object through an external CSV parser and only logs the rows.
- The handler that returns the static product file verbatim is not part of this model. It is pure I/O.
- The infrastructure stacks are not part of this model. They only declare resources; the one fact used from them is the `uploaded/` notification prefix.
- Logging is not part of this model.
