/** The order store: the `orders` and `order_items` tables held in place, with one method per
    exported function of the order model. Each list read selects its rows and then attaches to
    every row the items fetched for it, one fetch per order. */
module OrderModel {
  import opened JsValues
  import opened OrderTable
  import opened TableLaws

  /** Where the creation transaction fails, if it does: at the order INSERT, at the item INSERT,
      or at COMMIT. */
  datatype TxFault = NoFault | OrderInsertFails | ItemsInsertFails | CommitFails

  class OrderStore {
    /** The `orders` table, in insertion order. */
    var orders: seq<Order>
    /** The `order_items` table, in insertion order. */
    var items: seq<ItemRow>
    /** The next AUTO_INCREMENT id of `orders`. */
    var nextId: nat
    /** Whether `affectedRows` counts the rows an UPDATE matched (the client's found-rows flag)
        rather than the rows it changed. */
    const foundRows: bool

    ghost predicate Valid()
      reads this
    {
      WellFormed(orders, items, nextId)
    }

    /** Both tables empty, as after the bootstrap DDL. */
    constructor (foundRows: bool)
      ensures Valid()
      ensures orders == [] && items == [] && nextId == 1 && this.foundRows == foundRows
      ensures AcceptanceConsistent(orders)
    {
      orders, items, nextId := [], [], 1;
      this.foundRows := foundRows;
    }

    /** createOrder: inside one transaction, INSERT the order, then the item rows that point at its
        fresh id; on any failure roll both back and re-throw. `now` is the engine's clock for `created_at`.
        A bulk INSERT of no tuples is malformed SQL, so an empty item list fails like a failing item INSERT. */
    method CreateOrder(data: OrderData, lines: seq<CartLine>, now: nat, fault: TxFault) returns (r: Result<nat>)
      requires Valid()
      modifies this
      ensures Valid()
      ensures fault == NoFault && |lines| > 0 ==>
        && r == Ok(old(nextId))
        && !HasId(old(orders), old(nextId))
        && orders == old(orders) + [NewOrder(old(nextId), data, now)]
        && items == old(items) + ItemRows(old(nextId), lines)
        && nextId == old(nextId) + 1
      ensures fault != NoFault || |lines| == 0 ==>
        r == Thrown && orders == old(orders) && items == old(items) && nextId == old(nextId)
      ensures old(AcceptanceConsistent(orders)) ==> AcceptanceConsistent(orders)
    {
      // BEGIN: what a rollback restores
      var savedOrders, savedItems, savedNext := orders, items, nextId;
      if fault == OrderInsertFails {
        r := Thrown;
        return;
      }
      CreateKeepsWellFormed(orders, items, nextId, data, now, lines);
      if AcceptanceConsistent(orders) {
        NewOrderKeepsAcceptance(orders, nextId, data, now);
      }
      var orderId := nextId;
      orders := orders + [NewOrder(orderId, data, now)];
      nextId := nextId + 1;
      if fault == ItemsInsertFails || |lines| == 0 {
        orders, items, nextId := savedOrders, savedItems, savedNext;  // ROLLBACK
        r := Thrown;
        return;
      }
      items := items + ItemRows(orderId, lines);
      if fault == CommitFails {
        orders, items, nextId := savedOrders, savedItems, savedNext;  // ROLLBACK
        r := Thrown;
        return;
      }
      r := Ok(orderId);
    }

    /** The items of each selected order, fetched one order at a time and attached in place. */
    method AttachItems(rows: seq<Order>) returns (views: seq<OrderView>)
      ensures OrdersOf(views) == rows
      ensures forall j :: 0 <= j < |views| ==> views[j].items == ItemsOf(items, views[j].order.id)
    {
      views := [];
      for i := 0 to |rows|
        invariant |views| == i
        invariant forall j :: 0 <= j < i ==> views[j].order == rows[j]
        invariant forall j :: 0 <= j < i ==> views[j].items == ItemsOf(items, rows[j].id)
      {
        var view := OrderView(rows[i], ItemsOf(items, rows[i].id));
        views := views + [view];
      }
    }

    /** The result of a list read: each order satisfying `w` exactly once, and nothing else,
        each with exactly its own items. */
    ghost predicate ListsExactly(views: seq<OrderView>, w: Where)
      reads this
    {
      && multiset(OrdersOf(views)) == multiset(Select(orders, w))
      && (forall o :: o in OrdersOf(views) <==> o in orders && Matches(o, w))
      && (forall j :: 0 <= j < |views| ==> views[j].items == ItemsOf(items, views[j].order.id))
    }

    /** getOrdersByCustomer: the customer's orders, newest first, with their items. */
    method GetOrdersByCustomer(customerId: Json) returns (result: seq<OrderView>)
      requires Valid()
      ensures ListsExactly(result, ByCustomer(customerId))
      ensures DistinctIds(OrdersOf(result))
      ensures NewestFirst(OrdersOf(result))
    {
      var rows := SortNewestFirst(Select(orders, ByCustomer(customerId)));
      result := AttachItems(rows);
      ListedFromRows(result, rows, ByCustomer(customerId));
      ListsEachOnce(result, ByCustomer(customerId));
    }

    /** getAllPendingOrders: the orders still pending with no rider, in no promised order, with their items. */
    method GetAllPendingOrders() returns (result: seq<OrderView>)
      requires Valid()
      ensures ListsExactly(result, PendingUnassigned)
      ensures DistinctIds(OrdersOf(result))
    {
      var rows := Select(orders, PendingUnassigned);
      result := AttachItems(rows);
      ListedFromRows(result, rows, PendingUnassigned);
      ListsEachOnce(result, PendingUnassigned);
    }

    /** getAcceptedOrdersByRider: the orders this rider accepted, newest first, with their items. */
    method GetAcceptedOrdersByRider(riderId: Json) returns (result: seq<OrderView>)
      requires Valid()
      ensures ListsExactly(result, AcceptedBy(riderId))
      ensures DistinctIds(OrdersOf(result))
      ensures NewestFirst(OrdersOf(result))
    {
      var rows := SortNewestFirst(Select(orders, AcceptedBy(riderId)));
      result := AttachItems(rows);
      ListedFromRows(result, rows, AcceptedBy(riderId));
      ListsEachOnce(result, AcceptedBy(riderId));
    }

    /** A list read for a predicate no order satisfies returns the empty list. */
    lemma NoMatchListsNothing(views: seq<OrderView>, w: Where)
      requires ListsExactly(views, w)
      requires forall i :: 0 <= i < |orders| ==> !Matches(orders[i], w)
      ensures views == []
    {
      SelectNone(orders, w);
      assert |multiset(OrdersOf(views))| == |views|;
    }

    /** A list read for a predicate exactly one order satisfies returns that order alone, with its items. */
    lemma ListsOnly(views: seq<OrderView>, w: Where, o: Order)
      requires ListsExactly(views, w)
      requires Select(orders, w) == [o]
      ensures views == [OrderView(o, ItemsOf(items, o.id))]
    {
      assert |OrdersOf(views)| == |multiset([o])| == 1;
      assert OrdersOf(views)[0] in multiset(OrdersOf(views));
    }

    /** The primary key makes every listed order distinct from every other. */
    lemma ListsEachOnce(views: seq<OrderView>, w: Where)
      requires Valid() && ListsExactly(views, w)
      ensures DistinctIds(OrdersOf(views))
    {
      SelectKeepsDistinctIds(orders, w);
      PermutationKeepsDistinctIds(OrdersOf(views), Select(orders, w));
    }

    lemma ListedFromRows(views: seq<OrderView>, rows: seq<Order>, w: Where)
      requires multiset(rows) == multiset(Select(orders, w))
      requires OrdersOf(views) == rows
      requires forall j :: 0 <= j < |views| ==> views[j].items == ItemsOf(items, views[j].order.id)
      ensures ListsExactly(views, w)
    {
      forall o ensures o in rows <==> o in orders && Matches(o, w) {
        assert o in rows <==> o in multiset(rows);
        assert o in Select(orders, w) <==> o in multiset(Select(orders, w));
      }
    }

    /** updateOrderStatusInDB: set the status of the order with this id to whatever is given. */
    method UpdateOrderStatusInDB(orderId: int, status: Json) returns (affected: nat)
      requires Valid()
      modifies this
      ensures Valid()
      ensures orders == SetStatus(old(orders), orderId, SqlValue(status))
      ensures items == old(items) && nextId == old(nextId)
      ensures affected == AffectedRows(foundRows, old(orders), orders, orderId)
      ensures !HasId(old(orders), orderId) ==> orders == old(orders) && affected == 0
      ensures old(AcceptanceConsistent(orders)) ==> AcceptanceConsistent(orders)
    {
      var before := orders;
      SameIdsKeepWellFormed(orders, SetStatus(orders, orderId, SqlValue(status)), items, nextId);
      if AcceptanceConsistent(orders) {
        SetStatusKeepsAcceptance(orders, orderId, SqlValue(status));
      }
      orders := SetStatus(orders, orderId, SqlValue(status));
      affected := AffectedRows(foundRows, before, orders, orderId);
    }

    /** assignRiderToOrder: mark the order with this id accepted by this rider, whatever its
        previous acceptance state. */
    method AssignRiderToOrder(orderId: int, riderId: Json, riderName: Json) returns (affected: nat)
      requires Valid()
      modifies this
      ensures Valid()
      ensures orders == AssignRider(old(orders), orderId, SqlValue(riderId), SqlValue(riderName))
      ensures items == old(items) && nextId == old(nextId)
      ensures affected == AffectedRows(foundRows, old(orders), orders, orderId)
      ensures !HasId(old(orders), orderId) ==> orders == old(orders) && affected == 0
      ensures old(AcceptanceConsistent(orders)) && Truthy(riderId) && Truthy(riderName) ==> AcceptanceConsistent(orders)
    {
      var before := orders;
      var after := AssignRider(orders, orderId, SqlValue(riderId), SqlValue(riderName));
      AssignRiderTouchesOnlyTarget(orders, orderId, SqlValue(riderId), SqlValue(riderName));
      SameIdsKeepWellFormed(orders, after, items, nextId);
      if AcceptanceConsistent(orders) && Truthy(riderId) && Truthy(riderName) {
        AssignRiderKeepsAcceptance(orders, orderId, SqlValue(riderId), SqlValue(riderName));
      }
      orders := after;
      affected := AffectedRows(foundRows, before, orders, orderId);
    }

    /** markOrderAsCompleted: set the status of the order with this id to 'completed'. */
    method MarkOrderAsCompleted(orderId: int) returns (affected: nat)
      requires Valid()
      modifies this
      ensures Valid()
      ensures orders == SetStatus(old(orders), orderId, Completed)
      ensures items == old(items) && nextId == old(nextId)
      ensures affected == AffectedRows(foundRows, old(orders), orders, orderId)
      ensures affected == 0 <==>
        if foundRows then !HasId(old(orders), orderId) else AlreadyHasStatus(old(orders), orderId, Completed)
      ensures old(AcceptanceConsistent(orders)) ==> AcceptanceConsistent(orders)
    {
      var before := orders;
      SameIdsKeepWellFormed(orders, SetStatus(orders, orderId, Completed), items, nextId);
      if AcceptanceConsistent(orders) {
        SetStatusKeepsAcceptance(orders, orderId, Completed);
      }
      CompletionAffectsNothingIff(foundRows, orders, orderId);
      orders := SetStatus(orders, orderId, Completed);
      affected := AffectedRows(foundRows, before, orders, orderId);
    }
  }
}
