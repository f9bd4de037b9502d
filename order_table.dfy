/** The two tables `orders` and `order_items`, their rows and column defaults, and the meaning
    of the SQL statements the store issues against them, as functions over the rows. */
module OrderTable {
  import opened JsValues

  /** `status ENUM('pending', 'canceled', 'completed') DEFAULT 'pending'`. */
  const Pending: Json := Str("pending")
  const Canceled: Json := Str("canceled")
  const Completed: Json := Str("completed")

  /** The order fields the store is handed at creation. */
  datatype OrderData = OrderData(
    id: Json, fullName: Json, phoneNumber: Json, address: Json,
    latitude: Json, longitude: Json,
    restaurantId: Json, restaurantName: Json, totalAmount: Json)

  /** One cart line as the store is handed it. */
  datatype CartLine = CartLine(id: Json, productName: Json, quantity: Json, price: Json, image: Json)

  /** A row of `orders`. The engine assigns `id` and `created_at`. */
  datatype Order = Order(
    id: nat,
    customerId: Json, customerName: Json, phoneNumber: Json, deliveryAddress: Json,
    latitude: Json, longitude: Json,
    restaurantId: Json, restaurantName: Json, totalAmount: Json,
    status: Json, isAccepted: bool, riderId: Json, riderName: Json,
    createdAt: nat)

  /** A row of `order_items` (its own AUTO_INCREMENT id is never read and is left out). */
  datatype ItemRow = ItemRow(orderId: nat, productId: Json, productName: Json, quantity: Json, price: Json, image: Json)

  /** The columns the per-order item fetch selects. */
  datatype Item = Item(productId: Json, productName: Json, quantity: Json, price: Json, image: Json)

  /** An order row with its items attached, as the list reads return it. */
  datatype OrderView = OrderView(order: Order, items: seq<Item>)

  /** The WHERE clauses of the three list reads. */
  datatype Where = ByCustomer(customerId: Json) | PendingUnassigned | AcceptedBy(riderId: Json)

  // ---------------------------------------------------------------------------------------
  // Cell values and comparisons

  /** A bound parameter as a cell value: the driver sends `undefined` as SQL NULL. */
  function SqlValue(v: Json): (r: Json)
    ensures r != Undefined
    ensures IsNullish(r) <==> IsNullish(v)
    ensures Truthy(r) <==> Truthy(v)
    ensures !v.Undefined? ==> r == v
  {
    if v.Undefined? then Null else v
  }

  /** `column = ?`: never true when either side is NULL. */
  predicate SqlEquals(cell: Json, param: Json) {
    !IsNullish(cell) && !IsNullish(param) && cell == param
  }

  /** The WHERE clause of each list read. A NULL parameter matches no row. */
  predicate Matches(o: Order, w: Where): (b: bool)
    ensures w.ByCustomer? && IsNullish(w.customerId) ==> !b
    ensures w.AcceptedBy? && IsNullish(w.riderId) ==> !b
    ensures w.PendingUnassigned? ==> (b <==> o.status == Pending && IsNullish(o.riderId))
    ensures w.AcceptedBy? ==> (b <==> o.isAccepted && !IsNullish(w.riderId) && o.riderId == w.riderId)
    ensures w.ByCustomer? ==> (b <==> !IsNullish(w.customerId) && o.customerId == w.customerId)
  {
    match w
    case ByCustomer(c) => SqlEquals(o.customerId, c)
    case PendingUnassigned => SqlEquals(o.status, Pending) && IsNullish(o.riderId)
    case AcceptedBy(r) => o.isAccepted && SqlEquals(o.riderId, r)
  }

  // ---------------------------------------------------------------------------------------
  // Table invariants

  predicate HasId(rows: seq<Order>, id: int) {
    exists i :: 0 <= i < |rows| && rows[i].id == id
  }

  /** `id INT AUTO_INCREMENT PRIMARY KEY`: ids grow with insertion and stay below the next one to hand out. */
  predicate IdsBelow(rows: seq<Order>, next: nat) {
    forall i :: 0 <= i < |rows| ==> 1 <= rows[i].id < next
  }

  predicate IdsIncreasing(rows: seq<Order>) {
    forall i, j :: 0 <= i < j < |rows| ==> rows[i].id < rows[j].id
  }

  /** No two rows share an id. */
  predicate DistinctIds(rows: seq<Order>) {
    forall i, j :: 0 <= i < j < |rows| ==> rows[i].id != rows[j].id
  }

  /** `FOREIGN KEY (order_id) REFERENCES orders(id)`: no item without its order. */
  predicate ItemsOwned(items: seq<ItemRow>, rows: seq<Order>) {
    forall k :: 0 <= k < |items| ==> HasId(rows, items[k].orderId)
  }

  predicate WellFormed(rows: seq<Order>, items: seq<ItemRow>, next: nat) {
    1 <= next && IdsBelow(rows, next) && IdsIncreasing(rows) && ItemsOwned(items, rows)
  }

  /** Every accepted order names a rider (both fields truthy); an order not accepted has both rider fields NULL. */
  predicate AcceptanceConsistent(rows: seq<Order>) {
    forall i :: 0 <= i < |rows| ==>
      if rows[i].isAccepted then Truthy(rows[i].riderId) && Truthy(rows[i].riderName)
      else rows[i].riderId == Null && rows[i].riderName == Null
  }

  // ---------------------------------------------------------------------------------------
  // INSERTs of createOrder

  /** The row the order INSERT writes: the nine given columns, `is_accepted` false, both rider
      columns NULL, and `status` left to its DEFAULT. */
  function NewOrder(id: nat, d: OrderData, now: nat): (o: Order)
    ensures o.id == id && o.createdAt == now
    ensures o.status == Pending && !o.isAccepted && o.riderId == Null && o.riderName == Null
    ensures o.customerId == SqlValue(d.id) && o.customerName == SqlValue(d.fullName)
    ensures o.phoneNumber == SqlValue(d.phoneNumber) && o.deliveryAddress == SqlValue(d.address)
    ensures o.latitude == SqlValue(d.latitude) && o.longitude == SqlValue(d.longitude)
    ensures o.restaurantId == SqlValue(d.restaurantId) && o.restaurantName == SqlValue(d.restaurantName)
    ensures o.totalAmount == SqlValue(d.totalAmount)
  {
    Order(id,
          SqlValue(d.id), SqlValue(d.fullName), SqlValue(d.phoneNumber), SqlValue(d.address),
          SqlValue(d.latitude), SqlValue(d.longitude),
          SqlValue(d.restaurantId), SqlValue(d.restaurantName), SqlValue(d.totalAmount),
          Pending, false, Null, Null, now)
  }

  /** One tuple of the bulk item INSERT; the image goes through `|| null`. */
  function RowOf(orderId: nat, l: CartLine): (r: ItemRow)
    ensures r.orderId == orderId
    ensures r.productId != Undefined && r.productName != Undefined && r.quantity != Undefined && r.price != Undefined
    ensures r.image == Null <==> !Truthy(l.image)
    ensures Truthy(l.image) ==> r.image == l.image
  {
    ItemRow(orderId, SqlValue(l.id), SqlValue(l.productName), SqlValue(l.quantity), SqlValue(l.price), OrNull(l.image))
  }

  /** The tuples of the bulk item INSERT, one per cart line, in cart order. */
  function ItemRows(orderId: nat, lines: seq<CartLine>): (r: seq<ItemRow>)
    ensures |r| == |lines|
    ensures forall k :: 0 <= k < |r| ==> r[k].orderId == orderId
  {
    if lines == [] then [] else [RowOf(orderId, lines[0])] + ItemRows(orderId, lines[1..])
  }

  // ---------------------------------------------------------------------------------------
  // SELECTs

  function ItemOf(r: ItemRow): Item {
    Item(r.productId, r.productName, r.quantity, r.price, r.image)
  }

  /** `SELECT product_id, product_name, quantity, price, image FROM order_items WHERE order_id = ?`. */
  function ItemsOf(items: seq<ItemRow>, orderId: int): (r: seq<Item>)
    ensures |r| <= |items|
    ensures forall k :: 0 <= k < |items| && items[k].orderId == orderId ==> ItemOf(items[k]) in r
    ensures forall it :: it in r ==> exists k :: 0 <= k < |items| && items[k].orderId == orderId && ItemOf(items[k]) == it
  {
    if items == [] then []
    else
      var rest := ItemsOf(items[1..], orderId);
      assert forall k :: 1 <= k < |items| ==> items[k] == items[1..][k - 1];
      (if items[0].orderId == orderId then [ItemOf(items[0])] else []) + rest
  }

  /** How many rows of `items` belong to `orderId` and project to `it`. */
  function CopiesOf(items: seq<ItemRow>, orderId: int, it: Item): (n: nat)
    ensures n <= |items|
    ensures n == 0 <==> forall k :: 0 <= k < |items| ==> !(items[k].orderId == orderId && ItemOf(items[k]) == it)
  {
    if items == [] then 0
    else
      assert forall k :: 1 <= k < |items| ==> items[k] == items[1..][k - 1];
      (if items[0].orderId == orderId && ItemOf(items[0]) == it then 1 else 0) + CopiesOf(items[1..], orderId, it)
  }

  /** `SELECT * FROM orders WHERE ...`, in table order. */
  function Select(rows: seq<Order>, w: Where): (r: seq<Order>)
    ensures forall o :: o in r <==> o in rows && Matches(o, w)
    ensures multiset(r) <= multiset(rows)
  {
    if rows == [] then []
    else
      assert rows == [rows[0]] + rows[1..];
      (if Matches(rows[0], w) then [rows[0]] else []) + Select(rows[1..], w)
  }

  /** `ORDER BY created_at DESC`. */
  predicate NewestFirst(rows: seq<Order>) {
    forall i, j :: 0 <= i < j < |rows| ==> rows[i].createdAt >= rows[j].createdAt
  }

  function InsertByNewest(o: Order, rows: seq<Order>): (r: seq<Order>)
    requires NewestFirst(rows)
    ensures |r| == |rows| + 1
    ensures r[0] == o || (rows != [] && r[0] == rows[0])
    ensures NewestFirst(r)
    ensures multiset(r) == multiset(rows) + multiset{o}
  {
    if rows == [] || o.createdAt >= rows[0].createdAt then [o] + rows
    else
      assert rows == [rows[0]] + rows[1..];
      [rows[0]] + InsertByNewest(o, rows[1..])
  }

  /** The engine's sort for `ORDER BY created_at DESC`; the order among equal timestamps is not promised. */
  function SortNewestFirst(rows: seq<Order>): (r: seq<Order>)
    ensures NewestFirst(r)
    ensures multiset(r) == multiset(rows)
  {
    if rows == [] then []
    else
      assert rows == [rows[0]] + rows[1..];
      InsertByNewest(rows[0], SortNewestFirst(rows[1..]))
  }

  function OrdersOf(views: seq<OrderView>): (r: seq<Order>)
    ensures |r| == |views|
  {
    seq(|views|, j requires 0 <= j < |views| => views[j].order)
  }

  // ---------------------------------------------------------------------------------------
  // UPDATEs

  /** `UPDATE orders SET status = ? WHERE id = ?`. */
  function SetStatus(rows: seq<Order>, id: int, status: Json): (r: seq<Order>)
    ensures |r| == |rows|
    ensures forall i :: 0 <= i < |r| ==>
      r[i].id == rows[i].id && r[i].isAccepted == rows[i].isAccepted
      && r[i].riderId == rows[i].riderId && r[i].riderName == rows[i].riderName
    ensures !HasId(rows, id) ==> r == rows
  {
    seq(|rows|, i requires 0 <= i < |rows| => if rows[i].id == id then rows[i].(status := status) else rows[i])
  }

  /** `UPDATE orders SET is_accepted = TRUE, rider_id = ?, rider_name = ? WHERE id = ?`. */
  function AssignRider(rows: seq<Order>, id: int, riderId: Json, riderName: Json): (r: seq<Order>)
    ensures |r| == |rows|
    ensures forall i :: 0 <= i < |r| ==> r[i].id == rows[i].id && r[i].status == rows[i].status
    ensures !HasId(rows, id) ==> r == rows
  {
    seq(|rows|, i requires 0 <= i < |rows| =>
      if rows[i].id == id then rows[i].(isAccepted := true, riderId := riderId, riderName := riderName) else rows[i])
  }

  /** The number of rows a `WHERE id = ?` clause matches. */
  function Matched(rows: seq<Order>, id: int): (r: nat)
    ensures r <= |rows|
    ensures r == 0 <==> !HasId(rows, id)
  {
    if rows == [] then 0
    else
      assert HasId(rows, id) <==> rows[0].id == id || HasId(rows[1..], id) by {
        if HasId(rows[1..], id) {
          var j :| 0 <= j < |rows[1..]| && rows[1..][j].id == id;
          assert rows[j + 1].id == id;
        }
        if HasId(rows, id) && rows[0].id != id {
          var j :| 0 <= j < |rows| && rows[j].id == id;
          assert rows[1..][j - 1].id == id;
        }
      }
      (if rows[0].id == id then 1 else 0) + Matched(rows[1..], id)
  }

  /** The number of rows an UPDATE actually changed. */
  function Changed(before: seq<Order>, after: seq<Order>): (r: nat)
    requires |before| == |after|
    ensures r <= |before|
    ensures r == 0 <==> before == after
  {
    if before == [] then 0
    else
      assert before == after <==> before[0] == after[0] && before[1..] == after[1..] by {
        if before[0] == after[0] && before[1..] == after[1..] {
          assert before == [before[0]] + before[1..] && after == [after[0]] + after[1..];
        }
      }
      (if before[0] != after[0] then 1 else 0) + Changed(before[1..], after[1..])
  }

  /** `affectedRows` of an UPDATE: matched rows when the connection sets the found-rows flag, changed rows otherwise. */
  function AffectedRows(foundRows: bool, before: seq<Order>, after: seq<Order>, id: int): (r: nat)
    requires |before| == |after|
    ensures r <= |before|
    ensures foundRows ==> (r == 0 <==> !HasId(before, id))
    ensures !foundRows ==> (r == 0 <==> before == after)
  {
    if foundRows then Matched(before, id) else Changed(before, after)
  }

  /** Every row with this id already has this status (vacuously true when there is none). */
  predicate AlreadyHasStatus(rows: seq<Order>, id: int, status: Json) {
    forall i :: 0 <= i < |rows| && rows[i].id == id ==> rows[i].status == status
  }
}
