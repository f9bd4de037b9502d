# Order service model

A Dafny model of the order service of a food-delivery back end. Customers place orders and list
them. Riders see the pending orders, accept one, list the orders they accepted and complete them.
Anyone may set an order's status. The model has two layers.

- **The order store** (`src/model/orderModel.js`) holds the `orders` and `order_items` tables.
  - `OrderModel.OrderStore` is a class whose fields are the two tables, in insertion order, and
    the next AUTO_INCREMENT id.
  - Each exported function is a method. The INSERT and UPDATE methods update those fields in
    place; the three list reads leave them as they were.
  - Order creation is one transaction: insert the order, insert its items, commit. On any failure
    it rolls back to a snapshot.
  - The three list reads select the matching rows and sort them newest first where the SQL says
    `ORDER BY created_at DESC`. A loop then fetches and attaches each order's items.
  - The three UPDATEs rewrite the row with the given id and report `affectedRows`.
  - The SQL statements are given a meaning as functions over rows in `OrderTable`; laws about
    those functions are in `TableLaws`.
- **The request handlers** (`src/controller/orderController.js`) are methods over the store.
  - They read a request body or query as JavaScript values (`JsValues.Json`) with JavaScript's
    truthiness, `||` and `?.`.
  - They validate and map the request, call the store, and answer with a status code and a
    payload (`OrderController.Response`).

Two invariants are kept by every handler that writes. The store methods keep them too, except
that `AssignRiderToOrder` keeps the second only when both rider values are truthy, which
`AcceptOrder` checks before calling it.

- `OrderTable.WellFormed`:
  - ids are positive and below the next id to hand out;
  - ids strictly increase along the table, so they are unique;
  - every item row belongs to an existing order.
- `OrderTable.AcceptanceConsistent`: an accepted order names its rider with a truthy id and name,
  and an order that was never accepted has both rider columns NULL.

`scenario.dfy` is a client of the handlers, written against their contracts only. It walks one
order through its life: refused without a cart, created, listed with its items, accepted,
absent from the pending list, listed for its rider, completed, not found under another id, and
finally canceled. Its request fills every NOT NULL column, and its customer and rider ids are strings, as
`?customerId=7` carries them.

External influences become parameters:

- the engine's clock (`now`, the value `created_at` takes);
- where the creation transaction fails (`OrderModel.TxFault`);
- whether a single-statement store call fails (`storeFails`);
- whether the driver counts matched or changed rows in `affectedRows` (`OrderStore.foundRows`).

## Model

| member | source | states |
|---|---|---|
| JsValues.Field | src/controller/orderController.js:13 | reading a missing property of the request gives undefined, and a defined result is the property's value |
| JsValues.Prop | src/controller/orderController.js:23-31 | a property read on an object is its field; `length` of an array or string is its length; any other property of a non-object is undefined |
| JsValues.Truthy | src/controller/orderController.js:15 | JavaScript truthiness: a truthy value is never null or undefined |
| JsValues.OptionalLength | src/controller/orderController.js:15 | `cartItems?.length` is undefined for a nullish cart; on an array it is truthy exactly when the array is non-empty, and on a string exactly when the string is non-empty |
| JsValues.Or | src/controller/orderController.js:24 | `a \|\| b` is one of its operands; it is truthy iff either is, and it is `a` whenever `a` is truthy |
| JsValues.OrNull | src/controller/orderController.js:29-30 | `v \|\| null` is truthy or null; it is null exactly when `v` is falsy, and it is `v` whenever `v` is truthy |
| JsValues.OrNullIdempotent | src/model/orderModel.js:37 | applying `\|\| null` a second time (the store does so after the handler) changes nothing |
| OrderTable.SqlValue | src/model/orderModel.js:13-26 | a bound `undefined` is stored as NULL; every other value is stored as given, with its truthiness and nullishness kept |
| OrderTable.Matches | src/model/orderModel.js:59 | the WHERE clauses of the list reads (also lines 87 and 116): a row matches the customer filter exactly when the parameter is non-NULL and equals its customer; the pending filter exactly when it is 'pending' with a NULL rider; the rider filter exactly when it is accepted and the non-NULL parameter equals its rider |
| OrderTable.NewOrder | src/model/orderModel.js:9-27 | the inserted row has the fresh id and the clock's timestamp, status 'pending' (the column default), is not accepted, has both rider columns NULL, and takes all nine bound columns (customer id, name, phone, address, latitude, longitude, restaurant id and name, total) from the order data, each in its own position |
| OrderTable.RowOf | src/model/orderModel.js:31-38 | one item tuple carries the order's id, binds no undefined, and has the image NULL exactly when the line's image is falsy, the image itself otherwise |
| OrderTable.ItemRows | src/model/orderModel.js:31-38 | the bulk insert has one tuple per cart line, and every tuple carries the new order's id |
| OrderTable.ItemsOf | src/model/orderModel.js:64-69 | the per-order item fetch returns no more rows than the table holds; the projection of every item row with that order id is in the result, and everything in the result is the projection of such a row |
| OrderTable.CopiesOf | src/model/orderModel.js:64-69 | counts the rows of one order projecting to a given item; zero exactly when no such row exists |
| OrderTable.Select | src/model/orderModel.js:58-61 | a WHERE selection holds exactly the rows that satisfy the clause, and each row at most as often as the table does |
| OrderTable.InsertByNewest | src/model/orderModel.js:59 | inserting into a newest-first list keeps it newest first, adds exactly that order, and the head is either the new order or the old head |
| OrderTable.SortNewestFirst | src/model/orderModel.js:59 | `ORDER BY created_at DESC` yields a newest-first permutation of the selected rows |
| OrderTable.OrdersOf | src/model/orderModel.js:63-74 | the order rows of a list reply are as many as its entries |
| OrderTable.SetStatus | src/model/orderModel.js:79 | the status UPDATE keeps the number of rows, every id and every acceptance column; on a missing id it leaves the table as it was |
| OrderTable.AssignRider | src/model/orderModel.js:106-108 | the rider UPDATE keeps the number of rows, every id and every status; on a missing id it leaves the table as it was |
| OrderTable.Matched | src/model/orderModel.js:77-83 | the rows `WHERE id = ?` matches are at most the table's rows, and none exactly when no order has the id |
| OrderTable.Changed | src/model/orderModel.js:77-83 | the rows an UPDATE changed are at most the table's rows, and none exactly when the table is unchanged |
| OrderTable.AffectedRows | src/model/orderModel.js:77-83 | `affectedRows` is zero exactly when no order has the id (counting matched rows) or the table is unchanged (counting changed rows) |
| TableLaws.ItemsOfConcat | src/model/orderModel.js:64-69 | fetching an order's items from two concatenated tables is the concatenation of the two fetches |
| TableLaws.ItemsOfCopies | src/model/orderModel.js:64-69 | the item fetch returns each item exactly as many times as the order has rows projecting to it |
| TableLaws.ItemsOfAbsent | src/model/orderModel.js:64-69 | an order with no item rows fetches no items |
| TableLaws.ItemsOfInsertedRows | src/model/orderModel.js:31-45 | the new order's item rows read back as exactly its cart lines, one per line in cart order, with the image NULL when the line's image is falsy |
| TableLaws.CreateKeepsWellFormed | src/model/orderModel.js:9-45 | the fresh id is not yet in the table, and inserting the order and its items keeps the tables well formed |
| TableLaws.CreatedItemsReadBack | src/model/orderModel.js:29-45 | after creation the new id fetches only its own items, and every other order's items are unchanged |
| TableLaws.SelectAppend | src/model/orderModel.js:58-61 | a row inserted at the end appears at the end of a selection exactly when it satisfies the clause |
| TableLaws.SelectNone | src/model/orderModel.js:86-88 | a selection no row satisfies is empty |
| TableLaws.SelectKeepsDistinctIds | src/model/orderModel.js:58-61 | a WHERE selection of rows with unique ids keeps them unique |
| TableLaws.DistinctIdsOnce | src/model/orderModel.js:58-61 | with unique ids no row occurs twice |
| TableLaws.PermutationKeepsDistinctIds | src/model/orderModel.js:59 | reordering rows, as `ORDER BY created_at DESC` does, keeps their ids unique |
| TableLaws.CreatedOrderListing | src/model/orderModel.js:9-27 | a new order joins the pending list, never a rider's list, and its customer's list exactly when its customer id equals the one asked for |
| TableLaws.NewOrderKeepsAcceptance | src/model/orderModel.js:23-25 | a new order, not accepted and with both rider columns NULL, keeps acceptance consistent |
| TableLaws.SameIdsKeepWellFormed | src/model/orderModel.js:77-83 | an UPDATE that keeps every row's id keeps the tables well formed |
| TableLaws.SetStatusTouchesOnlyTarget | src/model/orderModel.js:77-83 | the status UPDATE changes only the status of the row with that id; every other row and column is unchanged |
| TableLaws.AssignRiderTouchesOnlyTarget | src/model/orderModel.js:104-112 | the rider UPDATE marks the row with that id accepted and overwrites both rider columns, whatever they held; the status and all other rows are unchanged |
| TableLaws.LastStatusWins | src/model/orderModel.js:77-83 | two status UPDATEs of the same order leave the second status, with no check of the state the order was in |
| TableLaws.CompleteIdempotent | src/model/orderModel.js:133-139 | completing an order twice gives the same table as completing it once |
| TableLaws.LastAssignmentWins | src/model/orderModel.js:104-112 | a second rider assignment overwrites the first; an accepted order can be taken over |
| TableLaws.SetStatusKeepsAcceptance | src/model/orderModel.js:77-83 | a status UPDATE keeps acceptance consistent |
| TableLaws.AssignRiderKeepsAcceptance | src/model/orderModel.js:104-112 | assigning a rider whose id and name are both truthy keeps acceptance consistent |
| TableLaws.AssignedOrderLeavesPending | src/model/orderModel.js:85-88 | once a non-null rider is assigned, the order is no longer among the pending unassigned orders, even though its status is still 'pending' |
| TableLaws.AssignedOrderListedForRider | src/model/orderModel.js:114-118 | an existing order assigned to a non-null rider is among that rider's accepted orders |
| TableLaws.MatchedOneIffFound | src/model/orderModel.js:134-137 | since ids are unique, `WHERE id = ?` matches one row when the order exists and none otherwise |
| TableLaws.NothingChangedIffAlreadySet | src/model/orderModel.js:77-83 | a status UPDATE changes no row exactly when every row with that id already has that status |
| TableLaws.CompletionAffectsNothingIff | src/model/orderModel.js:133-139 | completion affects zero rows exactly when the order is missing (counting matched rows) or already completed (counting changed rows) |
| OrderModel.OrderStore.constructor | src/utils/orderUtils.js:4-34 | both tables start empty with the next id 1, well formed and acceptance-consistent |
| OrderModel.OrderStore.CreateOrder | src/model/orderModel.js:4-55 | with no fault and a non-empty item list: returns the old next id, which was fresh; appends the new order and one item row per line; advances the id. Any fault or an empty item list: throws and leaves both tables and the counter as they were. Keeps both invariants |
| OrderModel.OrderStore.AttachItems | src/model/orderModel.js:63-72 | the loop keeps the selected rows in order and attaches to each exactly the items fetched for its id |
| OrderModel.OrderStore.GetOrdersByCustomer | src/model/orderModel.js:57-75 | on a well-formed store, returns each of the customer's orders exactly once (no two entries share an id) and nothing else, newest first, each with exactly its own items |
| OrderModel.OrderStore.GetAllPendingOrders | src/model/orderModel.js:85-101 | on a well-formed store, returns exactly the pending orders without a rider, each once (no two entries share an id) and with exactly its own items |
| OrderModel.OrderStore.GetAcceptedOrdersByRider | src/model/orderModel.js:114-131 | on a well-formed store, returns exactly the orders this rider accepted, each once (no two entries share an id), newest first, each with exactly its own items |
| OrderModel.OrderStore.NoMatchListsNothing | src/model/orderModel.js:85-101 | a list read for a clause no order satisfies returns the empty list, not an error |
| OrderModel.OrderStore.ListsEachOnce | src/model/orderModel.js:57-75 | the primary key makes every order a list read returns distinct from the others: no two entries share an id |
| OrderModel.OrderStore.ListsOnly | src/model/orderModel.js:57-75 | a list read for a clause exactly one order satisfies returns that order alone, with exactly its items |
| OrderModel.OrderStore.ListedFromRows | src/model/orderModel.js:57-75 | a reply whose orders are a permutation of the selection, each with its fetched items, lists exactly the matching orders |
| OrderModel.OrderStore.UpdateOrderStatusInDB | src/model/orderModel.js:77-83 | sets the status of the row with that id to the given value, unchecked, and changes nothing else; reports `affectedRows`, which is zero with the table unchanged when the id is missing; keeps both invariants |
| OrderModel.OrderStore.AssignRiderToOrder | src/model/orderModel.js:104-112 | marks the row with that id accepted by the given rider, overwriting any earlier rider, and changes nothing else; reports `affectedRows`, which is zero with the table unchanged when the id is missing; keeps acceptance consistent when both rider values are truthy |
| OrderModel.OrderStore.MarkOrderAsCompleted | src/model/orderModel.js:133-139 | sets the status of the row with that id to 'completed' and changes nothing else; `affectedRows` is zero exactly when the order is missing (counting matched rows) or already completed (counting changed rows) |
| OrderController.MissingCreateFields | src/controller/orderController.js:15-20 | creation is refused whenever user, location or restaurant is falsy, or the cart is missing, null or an empty array; an array cart passes exactly when it is non-empty |
| OrderController.BuildOrderData | src/controller/orderController.js:22-32 | the order data takes the customer id and phone from the user, the address and coordinates from the location and the total as given; the name falls back from `fullName` to `name`; the restaurant id and name are the restaurant's own when truthy and null otherwise |
| OrderController.NormalizeItem | src/controller/orderController.js:34-40 | a cart line keeps the item's id, name, quantity and price; its image is null exactly when the item's image is falsy, and otherwise is that image |
| OrderController.NormalizeAll | src/controller/orderController.js:34-40 | mapping the cart's elements succeeds exactly when none is null or undefined; it then yields one line per element, in order |
| OrderController.NormalizeCart | src/controller/orderController.js:34-40 | normalisation succeeds exactly when the cart is an array with no nullish entry, and yields one normalised line per entry, in order |
| OrderController.NormalizeDropsOtherFields | src/controller/orderController.js:34-40 | two items that agree on the five mapped fields give the same line, so unknown fields are dropped |
| OrderController.StoredRowKeepsNormalizedImage | src/model/orderModel.js:37 | the image the store writes for a normalised line is the normalised image |
| OrderController.CompletionStatus | src/controller/orderController.js:130-134 | 404 exactly when no row was affected, 200 otherwise |
| OrderController.CreateOrder | src/controller/orderController.js:12-49 | missing fields: 400 with the store untouched. A cart that is not an array, or that holds a null entry: the handler rejects with the store untouched. Otherwise: 201 with the new order's id, exactly the order and item rows built from the request and the next id advanced, or 500 with nothing written when the transaction fails |
| OrderController.GetOrders | src/controller/orderController.js:51-65 | 400 when the customer id is falsy; 500 when the store fails; otherwise 200 with exactly that customer's orders, each once, newest first, with their items |
| OrderController.UpdateOrderStatus | src/controller/orderController.js:67-78 | forwards any status unchecked (undefined becomes NULL) and answers 200 whether or not an order matched; 500 with nothing changed when the store fails |
| OrderController.GetPendingOrders | src/controller/orderController.js:80-88 | 500 when the store fails; otherwise 200 with exactly the pending unassigned orders, each once, and their items |
| OrderController.AcceptOrder | src/controller/orderController.js:91-106 | 400 with nothing changed unless both rider id and name are truthy; then either 500 with nothing changed, or 200 with the order assigned to that rider |
| OrderController.GetAcceptedOrders | src/controller/orderController.js:108-122 | 400 when the rider id is falsy; 500 when the store fails; otherwise 200 with exactly that rider's accepted orders, each once, newest first, with their items |
| OrderController.CompleteOrder | src/controller/orderController.js:124-139 | 500 with nothing changed when the store fails. Otherwise it marks the order completed and answers 404 exactly when no row was affected, 200 otherwise: 404 means the order is missing (counting matched rows) or already completed (counting changed rows) |

## Left out

- Express wiring, the routes and the server start-up (`server.js`, `src/routes/orderRoutes.js`) are not part of this model. Route parameters reach the handlers as the integer the engine compares against `id`. A non-numeric route id is not modelled.
- The table DDL and its logging are not modelled (`src/utils/orderUtils.js`). Only its defaults (`status` 'pending') and its keys are used: the AUTO_INCREMENT id and the foreign key of `order_items`.
- Which values the engine rejects is not modelled: NOT NULL columns, ENUM values outside the three statuses, a non-numeric `customer_id`. A rejected statement is a store failure (`TxFault`, `storeFails`), and the model does not say which inputs cause one.
- OrderModel.OrderStore.UpdateOrderStatusInDB: stores any status as given: the handler forwards `status` unchecked (src/controller/orderController.js:69-72), and the model takes the engine to store it. MySQL's `status ENUM(...)` column differs for a value outside the three statuses: strict mode rejects the UPDATE, and non-strict mode stores ''.
- MySQL type coercion and collation in comparisons are not modelled. For example, `customer_id = '7'` also matches 7 in MySQL, and string comparison there ignores case. Customer and rider ids are compared by identity, with SQL NULL semantics. `?customerId=7` carries the string "7", so in the model it lists only orders stored with the string id "7", not those stored with the number 7.
- Column types are not modelled: DECIMAL(10,2) rounding, DOUBLE precision, INT and VARCHAR limits. Cells keep the JavaScript value they were bound from, and numbers are reals (NaN and the infinities are not represented).
- OrderModel.OrderStore.CreateOrder: does not restore the AUTO_INCREMENT counter exactly as MySQL does. MySQL does not give back an id consumed by a rolled-back insert; the model rolls the counter back with the tables. Ids stay unique either way.
- OrderTable.SortNewestFirst: the order of rows with equal `created_at` is not promised by the SQL. The model fixes one order, and the contracts state only newest-first and permutation.
- OrderTable.ItemsOf: returns an order's items in table (insertion) order. SQL promises no order without ORDER BY, so the model fixes an order the source does not promise, and `TableLaws.ItemsOfInsertedRows` states that order.
- Connections, the pool, `release`, `async`/`await` and concurrent requests are not modelled. Each operation runs alone and to completion.
- Response message texts and `console.error` logging are not modelled. A response is its status code and a payload kind.
- The request body is taken to be a parsed JSON object (`map<string, Json>`). Index properties of strings and arrays, and `length` read directly on other values, are not modelled.
