# Inventory store: a Dafny model of the order and catalogue handlers

This project models the in-memory behaviour of an inventory and order REST API. The API has four
tables keyed by id: suppliers, stocks, products and orders. The model covers the handlers that read
and change those tables.

- **Store** (`store.dfy`): class `Database`. It holds the four tables as `map<Id, _>` fields and an
  id allocator `nextId`. Its invariant `Valid()` says that every id in use lies below `nextId`.
- **Stock schema** (`stock_model.dfy`): the Stock document and its save-time validators. The
  validators require `productName`, `category`, `quantity` and `supplierId`, and need
  `quantity >= 0`. A required string field also rejects the empty string. `Save` either stores the record or names the paths that failed.
- **Handlers**: one module per controller file. Each handler that changes the store is a method
  over a `Database` with `modifies db`. Its `ensures` gives the answer and the whole new state in
  terms of the old state. Reads are functions over the tables.
- **Order placement** (`order_rules.dfy`, `order_controller.dfy`): `CreateOrder` keeps the source's
  two loops, each in a method of its own. The first loop (`CheckOrderItems`) checks each item in
  request order: product, then stock, then quantity. It also builds the snapshot lines and the
  total. Only if every item passed does the second loop (`DecrementStocks`) decrement each linked
  stock. Then one order is inserted. The methods are proved against pure functions of the
  pre-request tables:
  - `Admit`, `CheckItems`, `CheckItem`: the validation
  - `ItemsTotal`: the total
  - `ApplyDecrements`, `Demand`: the stock changes

  Lemmas about these functions state what a request does: which error comes back, that nothing
  changes on error, the exact total, and the exact change to each stock.
- **Listings** (`listing.dfy`): `Ordered` lists every entry of a table exactly once. It orders
  them by a rank, which is `createdAt` for the `sort({ createdAt: -1 })` reads. `InsertionOrder`
  lists entries in ascending id order, for the unsorted `find()` reads. The database promises no
  order for those reads, so ascending id is the model's own choice.
- `scenario.dfy` is a client. It builds a store and asserts, from the handlers' contracts alone,
  the walk-through of a supplier, a stock of 10, a product at price 5, an order of 3 (total 15,
  stock 7), then a refused order of 8 (stock stays 7).

Modelling choices:

- Ids are natural numbers taken from `nextId`. This stands in for fresh ObjectIds.
- Clock readings (`createdAt`) and the caller's user id are parameters.
- Prices and quantities are mathematical integers.
- Every `await` is one sequential step.
- The stored Stock record has plain fields. The request body (`StockDoc`) has optional fields,
  because only a body can lack one.
- Sort ties are broken by ascending id, because the database leaves their order open.

## Model

| member | source | states |
|---|---|---|
| `StockModel.Violations` | src/models/Stock.js:5-22 | A stock document has no violations exactly when productName and category are present and non-empty, quantity and supplierId are present, and quantity is at least 0. |
| `StockModel.Save` | src/models/Stock.js:3-25 | save() accepts exactly the documents with no violations (an empty productName or category is a violation) and stores their field values unchanged. Otherwise it rejects with exactly the non-empty set of failing paths. |
| `StockModel.StoredValidity` | src/models/Stock.js:5-17 | A stored record passes the schema exactly when its productName and category are non-empty and its quantity is not negative. Such a record saves back to itself. |
| `Listing.Ordered` | src/controllers/supplierController.js:19 | A sorted read lists each entry of the table exactly once, with nothing extra, ordered by rank non-increasing. |
| `Listing.InsertionOrder` | src/controllers/stockController.js:23 | An unsorted find() lists each entry exactly once. The model fixes the order as ascending id, because the database leaves it open. |
| `SupplierController.CreateSupplier` | src/controllers/supplierController.js:6-8 | Exactly one supplier is inserted, under an unused id. It is built from the body fields and the creation time, and it is returned. No other table changes. |
| `SupplierController.GetSuppliers` | src/controllers/supplierController.js:19-20 | Returns every supplier exactly once, ordered by createdAt non-increasing. |
| `SupplierController.UpdateSupplier` | src/controllers/supplierController.js:29-34 | An absent id gives NotFound "Supplier not found" and no change. Otherwise the body is merged into that one record, and the post-update record is returned and stored. |
| `SupplierController.MergeSupplierIdempotent` | src/controllers/supplierController.js:29-31 | Merging the same body twice gives the same record as merging it once. |
| `SupplierController.MergeSupplierComposes` | src/controllers/supplierController.js:29-31 | Two merges in a row equal one merge of the second body laid over the first. |
| `SupplierController.FullBodyReplaces` | src/controllers/supplierController.js:29-31 | A body that carries every field replaces the stored fields completely. |
| `SupplierController.DeleteSupplier` | src/controllers/supplierController.js:43-46 | An absent id gives NotFound. Otherwise only that supplier is removed, and stocks that reference it are unchanged. |
| `StockController.CreateStock` | src/controllers/stockController.js:7-14 | A missing or unknown supplierId gives NotFound "Supplier not found" and no insert. A document the schema rejects, such as one with an empty productName or category or a negative quantity, gives an Internal failure and no insert. Otherwise exactly one stock carrying the body's fields is inserted under an unused id. A created stock satisfies the schema, and the stock listing joins it with an existing supplier. |
| `StockController.DeleteSupplierLeavesDangling` | src/controllers/supplierController.js:43-46 | Deleting a supplier does not cascade. Afterwards the stock listing keeps every row, with the same ids and records, and shows no supplier for exactly the stocks that referenced the deleted one. Every other row keeps its supplier. |
| `StockController.GetAllStock` | src/controllers/stockController.js:23-27 | Returns every stock exactly once, in id order, each with its stored record and its joined supplier. |
| `StockController.MergeStockEmptyBody` | src/controllers/stockController.js:36-42 | An update body that carries no field leaves the record unchanged. |
| `StockController.MergeStockIdempotent` | src/controllers/stockController.js:36-42 | Applying the same update body twice gives the same record as applying it once. |
| `StockController.MergeStockFullBody` | src/controllers/stockController.js:36-42 | A body that carries every field of a record `t` replaces the stored record by `t`, whatever it was. |
| `StockController.MergeStockComposes` | src/controllers/stockController.js:36-42 | Two updates in a row equal one update whose body is the second body laid over the first. |
| `StockController.MergeCanBreakSchema` | src/controllers/stockController.js:36-42 | The update runs no validator, so a body with quantity -1 stores a record that save() would refuse. |
| `StockController.UpdateStock` | src/controllers/stockController.js:36-47 | An absent id gives NotFound "Stock not found" and no change. Otherwise the body is merged into that one record with no check that a new supplierId exists, and the merged record is returned. |
| `StockController.DeleteStock` | src/controllers/stockController.js:56-58 | An absent id gives NotFound. Otherwise only that stock is removed, and products that reference it are unchanged, so they dangle. |
| `ProductController.CreateProduct` | src/controllers/productController.js:7-24 | A stockId not in the stocks table gives NotFound "Stock not found" and no change to products. Otherwise exactly one product with the body's name, description, price and stockId is inserted under an unused id. Fetching it by id returns it. |
| `ProductController.GetProducts` | src/controllers/productController.js:35-40 | Returns every product exactly once, ordered by createdAt non-increasing. |
| `ProductController.GetProductById` | src/controllers/productController.js:53-62 | Returns the stored product when the id is present. Otherwise it gives NotFound "Product not found". |
| `ProductController.UpdateProduct` | src/controllers/productController.js:73-92 | The product is checked before the stock. An absent product gives "Product not found" and an absent stock gives "Stock not found", both with no change. Otherwise description, price and stockId are overwritten, the stored name stays the old one, and fetching returns the update. |
| `ProductController.UpdateDropsRename` | src/controllers/productController.js:85-90 | The update as written keeps the old name. It equals the intended update exactly when the body does not rename the product. |
| `ProductController.RenameIsLost` | src/controllers/productController.js:85 | A concrete rename from "Pen" to "Marker" leaves the stored name "Pen". |
| `ProductController.IntendedUpdatedProduct` | src/controllers/productController.js:85-88 | The corrected update stores exactly the body's name, description, price and stockId, and keeps the creation time. |
| `ProductController.DeleteProduct` | src/controllers/productController.js:103-107 | An absent id gives NotFound. Otherwise only that product is removed and stocks are unchanged. Afterwards, fetching the id gives NotFound. |
| `OrderRules.CheckItemsPass` | src/controllers/orderController.js:16-47 | Validation passes exactly when every item passes its checks. It then yields one snapshot line per item, in request order. |
| `OrderRules.CheckItemsFirstFailure` | src/controllers/orderController.js:16-34 | If item i is the first item in request order that fails, the request fails with item i's status and message. |
| `OrderRules.FailureSticks` | src/controllers/orderController.js:21-34 | Once a prefix of the items fails, the whole request fails the same way. Later items are never consulted. |
| `OrderRules.TotalMatchesLines` | src/controllers/orderController.js:36-46 | For a request that passes, the sum over items of price times quantity equals the sum over the snapshot lines of line price times line quantity. |
| `OrderRules.DecrementsSubtractDemand` | src/controllers/orderController.js:50-57 | The second loop keeps the set of stock ids. Each stock's quantity drops by the sum of the requested quantities of the items linked to it, and its other fields are unchanged. |
| `OrderRules.UntouchedStockUnchanged` | src/controllers/orderController.js:50-57 | A stock that no item links to comes out of the second loop unchanged. |
| `OrderRules.OversellPassesCheck` | src/controllers/orderController.js:30-57 | Two items of 3 against a stock of 5 both pass the per-item check. Together they leave quantity -1, which the Stock schema forbids. |
| `OrderRules.CumulativeCheckKeepsStockValid` | src/controllers/orderController.js:30 | With each item checked against what the earlier items left, a passing order leaves every stock that satisfied the Stock schema still satisfying it. |
| `OrderRules.CumulativeCheckRefusesOversell` | src/controllers/orderController.js:30-34 | The corrected check refuses the overselling request with "Not enough stock for Pen". |
| `OrderController.CheckOrderItems` | src/controllers/orderController.js:16-47 | The first loop answers exactly what CheckItems answers: the first failing item's status and message, or on success the snapshot lines with the total ItemsTotal, which equals the sum over the lines. |
| `OrderController.DecrementStocks` | src/controllers/orderController.js:50-57 | The second loop changes only the stocks table, and leaves it exactly ApplyDecrements of the old stocks. |
| `OrderController.CreateOrder` | src/controllers/orderController.js:6-68 | A missing or empty item list gives BadRequest "Items are required". A failing check gives the first failing item's error. In both cases stocks, orders and ids are unchanged. On success, one order is inserted under an unused id, with the caller's id, the snapshot lines, status "pending" and total ItemsTotal. The total equals the sum over the lines. Stocks become exactly ApplyDecrements of the old stocks. Suppliers and products never change. |
| `OrderController.GetAllOrders` | src/controllers/orderController.js:76-83 | Returns every order exactly once, in id order. |
| `OrderController.GetMyOrders` | src/controllers/orderController.js:90-96 | Returns exactly the orders whose userId is the caller's, each once, in id order. |
| `OrderController.UpdateOrderStatus` | src/controllers/orderController.js:103-116 | An absent id gives NotFound "Order not found" and no change. Otherwise a non-empty status replaces the order's status, and a missing or empty one keeps it. No other order field and no other table changes. |

## Findings

| source | as written | input that shows it | evidently intended | confidence | as-written member | corrected member |
|---|---|---|---|---|---|---|
| src/controllers/orderController.js:30 | Each item's quantity is compared with the stock's stored quantity. Earlier items of the same request are not counted. The decrement at lines 53-55 then subtracts all of them. | One stock of quantity 5 and one product on it. The request has two items for that product, 3 each. Both pass, and the stock ends at -1, below the `min: 0` of src/models/Stock.js:16. | Check each item against the quantity left after the earlier items of the request, so that a placed order never drives a stock below zero. | not executed | `OrderRules.OversellPassesCheck` | `OrderRules.CumulativeCheckKeepsStockValid` |
| src/controllers/productController.js:85 | The new name is assigned to `productName`, a path the Product document does not have, so the stored `name` is never updated. | A product named "Pen", updated with the body name "Marker", keeps the name "Pen". | Assign the body's name to `name`, as createProduct does at line 16. | not executed | `ProductController.UpdateDropsRename` | `ProductController.IntendedUpdatedProduct` |

The handlers model the code as written. The corrected definitions stand beside them:
`CheckItemsCumulative` for the first finding, `IntendedUpdatedProduct` for the second.

## Left out

- Authentication and roles: `protect` and `authorizeRoles` live in a middleware that is not part
  of this model. src/controllers/authController.js depends on password hashing and token
  generation, which are not shown. The caller's id is a parameter of `CreateOrder` and
  `GetMyOrders`.
- Framework wiring: src/app.js and the route files are not modelled. They wire a `deleteOrder` that
  the order controller does not define.
- Concurrency: requests run one at a time. The oversell race between simultaneous orders, and the
  missing atomicity of the two loops, are outside the model.
- Floating point: prices and quantities are integers. The float rounding of `price * quantity` and
  JavaScript's loose comparisons of non-numbers are not modelled.
- Mongoose plumbing: ids are well formed, so a malformed id's CastError, value casting and the
  generic 500 catch-all paths are not modelled. The one exception is stock validation, which is
  an `Internal` failure.
- Populate joins are modelled only for the stock listing, which joins each stock with its
  supplier. The projections and joins of the product and order reads return stored records only.
- Timestamps: `updatedAt` is not modelled. `createdAt` is a parameter of the supplier and product
  create handlers, whose reads sort by it.
- Stock timestamps: src/models/Stock.js:24 turns on `timestamps`, but a stock record carries neither
  `createdAt` nor `updatedAt` in this model, because no stock read sorts by them.
- The Supplier, Product and Order schemas are not part of this model, so their save-time validators
  are not modelled. A new order's status "pending" is the Order schema's default, which the model
  assumes. A product body carries all four of its fields.
- CreateStock: when the schema rejects a document, the model answers with the fixed message
  "Stock validation failed". The message Mongoose builds from the failing paths is not modelled.
- CreateOrder: the request's items are typed as an optional sequence of items. The check at
  src/controllers/orderController.js:9 that rejects a non-array `items` has no counterpart,
  because such a value cannot be represented.
- Order status: any non-empty string is accepted, as the code does. A closed set of statuses with
  legal transitions is not in the code, so it is not modelled.
