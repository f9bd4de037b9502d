/** The request handlers of the order service: each checks the fields it needs, maps the request
    onto the store's shape, calls the store and answers with a status code and a payload.
    `storeFails` stands for the awaited store call rejecting (a lost connection, a constraint
    the engine enforces); a single statement that fails changes nothing. */
module OrderController {
  import opened JsValues
  import opened OrderTable
  import opened OrderModel

  /** The JSON body of a response, up to its message text. */
  datatype Payload = Message | OrderCreated(orderId: nat) | OrderList(orders: seq<OrderView>)

  /** A written response, or a handler whose promise rejected before writing one (an error thrown
      outside its try block). */
  datatype Response = Respond(status: nat, payload: Payload) | Rejected

  // ---------------------------------------------------------------------------------------
  // createOrder: validation and mapping

  /** `!user || !location || !cartItems?.length || !restaurant`: the create request is refused
      whenever user, location or restaurant is falsy, or the cart is missing, null, or an empty
      array; an array cart passes exactly when it is non-empty. */
  predicate MissingCreateFields(user: Json, cartItems: Json, location: Json, restaurant: Json): (missing: bool)
    ensures !Truthy(user) || !Truthy(location) || !Truthy(restaurant) ==> missing
    ensures IsNullish(cartItems) || cartItems == Arr([]) ==> missing
    ensures cartItems.Arr? ==>
      (missing <==> !Truthy(user) || !Truthy(location) || !Truthy(restaurant) || |cartItems.elems| == 0)
  {
    !Truthy(user) || !Truthy(location) || !Truthy(OptionalLength(cartItems)) || !Truthy(restaurant)
  }

  /** `orderData`: the customer's name falls back from `fullName` to `name`; the restaurant's id
      and name fall back to null when falsy. */
  function BuildOrderData(user: Json, location: Json, restaurant: Json, totalAmount: Json): (d: OrderData)
    requires Truthy(user) && Truthy(location) && Truthy(restaurant)
    ensures d.id == Prop(user, "id") && d.phoneNumber == Prop(user, "phone")
    ensures d.fullName == (if Truthy(Prop(user, "fullName")) then Prop(user, "fullName") else Prop(user, "name"))
    ensures Truthy(d.fullName) <==> Truthy(Prop(user, "fullName")) || Truthy(Prop(user, "name"))
    ensures d.address == Prop(location, "address")
    ensures d.latitude == Prop(location, "lat") && d.longitude == Prop(location, "lng")
    ensures Truthy(d.restaurantId) || d.restaurantId == Null
    ensures Truthy(d.restaurantName) || d.restaurantName == Null
    ensures Truthy(Prop(restaurant, "id")) ==> d.restaurantId == Prop(restaurant, "id")
    ensures !Truthy(Prop(restaurant, "id")) ==> d.restaurantId == Null
    ensures Truthy(Prop(restaurant, "businessName")) ==> d.restaurantName == Prop(restaurant, "businessName")
    ensures !Truthy(Prop(restaurant, "businessName")) ==> d.restaurantName == Null
    ensures d.totalAmount == totalAmount
  {
    OrderData(
      Prop(user, "id"),
      Or(Prop(user, "fullName"), Prop(user, "name")),
      Prop(user, "phone"),
      Prop(location, "address"),
      Prop(location, "lat"),
      Prop(location, "lng"),
      OrNull(Prop(restaurant, "id")),
      OrNull(Prop(restaurant, "businessName")),
      totalAmount)
  }

  /** One entry of `safeCartItems`: the five fields the store reads, the image null when falsy. */
  function NormalizeItem(item: Json): (l: CartLine)
    requires !IsNullish(item)
    ensures l.id == Prop(item, "id") && l.productName == Prop(item, "productName")
    ensures l.quantity == Prop(item, "quantity") && l.price == Prop(item, "price")
    ensures l.image == Null <==> !Truthy(Prop(item, "image"))
    ensures Truthy(Prop(item, "image")) ==> l.image == Prop(item, "image")
  {
    CartLine(Prop(item, "id"), Prop(item, "productName"), Prop(item, "quantity"), Prop(item, "price"),
             OrNull(Prop(item, "image")))
  }

  /** `cartItems.map(...)` over the elements of an array: throws at a null or undefined entry. */
  function NormalizeAll(elems: seq<Json>): (r: Result<seq<CartLine>>)
    ensures r.Ok? <==> forall k :: 0 <= k < |elems| ==> !IsNullish(elems[k])
    ensures r.Ok? ==> |r.value| == |elems|
    ensures r.Ok? ==> forall k :: 0 <= k < |elems| ==> r.value[k] == NormalizeItem(elems[k])
  {
    if elems == [] then Ok([])
    else if IsNullish(elems[0]) then Thrown
    else
      match NormalizeAll(elems[1..])
      case Thrown => Thrown
      case Ok(rest) => Ok([NormalizeItem(elems[0])] + rest)
  }

  /** `safeCartItems`: only an array has `map`; anything else throws. */
  function NormalizeCart(cartItems: Json): (r: Result<seq<CartLine>>)
    ensures r.Ok? <==> cartItems.Arr? && forall k :: 0 <= k < |cartItems.elems| ==> !IsNullish(cartItems.elems[k])
    ensures r.Ok? ==> |r.value| == |cartItems.elems|
    ensures r.Ok? ==> forall k :: 0 <= k < |r.value| ==> r.value[k] == NormalizeItem(cartItems.elems[k])
  {
    if cartItems.Arr? then NormalizeAll(cartItems.elems) else Thrown
  }

  /** Fields of a cart item other than the five the mapping reads make no difference. */
  lemma NormalizeDropsOtherFields(a: map<string, Json>, b: map<string, Json>)
    requires forall key :: key in ["id", "productName", "quantity", "price", "image"] ==> Field(a, key) == Field(b, key)
    ensures NormalizeItem(Obj(a)) == NormalizeItem(Obj(b))
  {
    assert "id" in ["id", "productName", "quantity", "price", "image"];
    assert "productName" in ["id", "productName", "quantity", "price", "image"];
    assert "quantity" in ["id", "productName", "quantity", "price", "image"];
    assert "price" in ["id", "productName", "quantity", "price", "image"];
    assert "image" in ["id", "productName", "quantity", "price", "image"];
  }

  /** The store applies `|| null` to the image again; on a normalised line that changes nothing,
      so the stored item is exactly the normalised one. */
  lemma StoredRowKeepsNormalizedImage(orderId: nat, item: Json)
    requires !IsNullish(item)
    ensures RowOf(orderId, NormalizeItem(item)).image == NormalizeItem(item).image
  {
    OrNullIdempotent(Prop(item, "image"));
  }

  // ---------------------------------------------------------------------------------------
  // completeOrder: the not-found decision

  /** `affectedRows === 0` answers 404, anything else 200. */
  function CompletionStatus(affected: nat): (status: nat)
    ensures status == 404 <==> affected == 0
    ensures status == 200 <==> affected != 0
  {
    if affected == 0 then 404 else 200
  }

  // ---------------------------------------------------------------------------------------
  // Handlers

  /** POST /create. */
  method CreateOrder(store: OrderStore, body: map<string, Json>, now: nat, fault: TxFault) returns (resp: Response)
    requires store.Valid()
    modifies store
    ensures store.Valid()
    ensures old(AcceptanceConsistent(store.orders)) ==> AcceptanceConsistent(store.orders)
    ensures MissingCreateFields(Field(body, "user"), Field(body, "cartItems"), Field(body, "location"), Field(body, "restaurant")) ==>
      resp == Respond(400, Message) && unchanged(store)
    ensures !MissingCreateFields(Field(body, "user"), Field(body, "cartItems"), Field(body, "location"), Field(body, "restaurant")) ==>
      var d := BuildOrderData(Field(body, "user"), Field(body, "location"), Field(body, "restaurant"), Field(body, "totalAmount"));
      match NormalizeCart(Field(body, "cartItems"))
      case Thrown => resp == Rejected && unchanged(store)
      case Ok(lines) =>
        if fault == NoFault then
          && resp == Respond(201, OrderCreated(old(store.nextId)))
          && !HasId(old(store.orders), old(store.nextId))
          && store.orders == old(store.orders) + [NewOrder(old(store.nextId), d, now)]
          && store.items == old(store.items) + ItemRows(old(store.nextId), lines)
          && store.nextId == old(store.nextId) + 1
        else
          resp == Respond(500, Message)
          && store.orders == old(store.orders) && store.items == old(store.items) && store.nextId == old(store.nextId)
  {
    var user, cartItems, location := Field(body, "user"), Field(body, "cartItems"), Field(body, "location");
    var totalAmount, restaurant := Field(body, "totalAmount"), Field(body, "restaurant");
    if MissingCreateFields(user, cartItems, location, restaurant) {
      return Respond(400, Message);
    }
    var orderData := BuildOrderData(user, location, restaurant, totalAmount);
    var safeCartItems := NormalizeCart(cartItems);
    if safeCartItems.Thrown? {
      return Rejected;
    }
    var r := store.CreateOrder(orderData, safeCartItems.value, now, fault);
    if r.Thrown? {
      return Respond(500, Message);
    }
    resp := Respond(201, OrderCreated(r.value));
  }

  /** GET /all?customerId=. */
  method GetOrders(store: OrderStore, query: map<string, Json>, storeFails: bool) returns (resp: Response)
    requires store.Valid()
    ensures !Truthy(Field(query, "customerId")) ==> resp == Respond(400, Message)
    ensures Truthy(Field(query, "customerId")) && storeFails ==> resp == Respond(500, Message)
    ensures Truthy(Field(query, "customerId")) && !storeFails ==>
      && resp.Respond? && resp.status == 200 && resp.payload.OrderList?
      && store.ListsExactly(resp.payload.orders, ByCustomer(Field(query, "customerId")))
      && DistinctIds(OrdersOf(resp.payload.orders))
      && NewestFirst(OrdersOf(resp.payload.orders))
  {
    var customerId := Field(query, "customerId");
    if !Truthy(customerId) {
      return Respond(400, Message);
    }
    if storeFails {
      return Respond(500, Message);
    }
    var orders := store.GetOrdersByCustomer(customerId);
    resp := Respond(200, OrderList(orders));
  }

  /** PATCH /:id/status: the status is forwarded unchecked, and the answer is the same whether
      or not an order matched. */
  method UpdateOrderStatus(store: OrderStore, id: int, body: map<string, Json>, storeFails: bool) returns (resp: Response)
    requires store.Valid()
    modifies store
    ensures store.Valid()
    ensures old(AcceptanceConsistent(store.orders)) ==> AcceptanceConsistent(store.orders)
    ensures storeFails ==> resp == Respond(500, Message) && unchanged(store)
    ensures !storeFails ==>
      && resp == Respond(200, Message)
      && store.orders == SetStatus(old(store.orders), id, SqlValue(Field(body, "status")))
      && store.items == old(store.items) && store.nextId == old(store.nextId)
  {
    var status := Field(body, "status");
    if storeFails {
      return Respond(500, Message);
    }
    var _ := store.UpdateOrderStatusInDB(id, status);
    resp := Respond(200, Message);
  }

  /** GET /pending. */
  method GetPendingOrders(store: OrderStore, storeFails: bool) returns (resp: Response)
    requires store.Valid()
    ensures storeFails ==> resp == Respond(500, Message)
    ensures !storeFails ==>
      && resp.Respond? && resp.status == 200 && resp.payload.OrderList?
      && store.ListsExactly(resp.payload.orders, PendingUnassigned)
      && DistinctIds(OrdersOf(resp.payload.orders))
  {
    if storeFails {
      return Respond(500, Message);
    }
    var orders := store.GetAllPendingOrders();
    resp := Respond(200, OrderList(orders));
  }

  /** PATCH /:id/assign: both rider fields must be truthy. */
  method AcceptOrder(store: OrderStore, id: int, body: map<string, Json>, storeFails: bool) returns (resp: Response)
    requires store.Valid()
    modifies store
    ensures store.Valid()
    ensures old(AcceptanceConsistent(store.orders)) ==> AcceptanceConsistent(store.orders)
    ensures !Truthy(Field(body, "riderId")) || !Truthy(Field(body, "riderName")) ==>
      resp == Respond(400, Message) && unchanged(store)
    ensures Truthy(Field(body, "riderId")) && Truthy(Field(body, "riderName")) && storeFails ==>
      resp == Respond(500, Message) && unchanged(store)
    ensures Truthy(Field(body, "riderId")) && Truthy(Field(body, "riderName")) && !storeFails ==>
      && resp == Respond(200, Message)
      && store.orders == AssignRider(old(store.orders), id, Field(body, "riderId"), Field(body, "riderName"))
      && store.items == old(store.items) && store.nextId == old(store.nextId)
  {
    var riderId, riderName := Field(body, "riderId"), Field(body, "riderName");
    if !Truthy(riderId) || !Truthy(riderName) {
      return Respond(400, Message);
    }
    if storeFails {
      return Respond(500, Message);
    }
    var _ := store.AssignRiderToOrder(id, riderId, riderName);
    resp := Respond(200, Message);
  }

  /** GET /accepted?riderId=. */
  method GetAcceptedOrders(store: OrderStore, query: map<string, Json>, storeFails: bool) returns (resp: Response)
    requires store.Valid()
    ensures !Truthy(Field(query, "riderId")) ==> resp == Respond(400, Message)
    ensures Truthy(Field(query, "riderId")) && storeFails ==> resp == Respond(500, Message)
    ensures Truthy(Field(query, "riderId")) && !storeFails ==>
      && resp.Respond? && resp.status == 200 && resp.payload.OrderList?
      && store.ListsExactly(resp.payload.orders, AcceptedBy(Field(query, "riderId")))
      && DistinctIds(OrdersOf(resp.payload.orders))
      && NewestFirst(OrdersOf(resp.payload.orders))
  {
    var riderId := Field(query, "riderId");
    if !Truthy(riderId) {
      return Respond(400, Message);
    }
    if storeFails {
      return Respond(500, Message);
    }
    var orders := store.GetAcceptedOrdersByRider(riderId);
    resp := Respond(200, OrderList(orders));
  }

  /** PATCH /:orderId/complete: 404 exactly when the store reports no affected row. */
  method CompleteOrder(store: OrderStore, orderId: int, storeFails: bool) returns (resp: Response)
    requires store.Valid()
    modifies store
    ensures store.Valid()
    ensures old(AcceptanceConsistent(store.orders)) ==> AcceptanceConsistent(store.orders)
    ensures storeFails ==> resp == Respond(500, Message) && unchanged(store)
    ensures !storeFails ==>
      && store.orders == SetStatus(old(store.orders), orderId, Completed)
      && store.items == old(store.items) && store.nextId == old(store.nextId)
      && resp.Respond? && resp.payload == Message && (resp.status == 404 || resp.status == 200)
      && (resp.status == 404 <==> AffectedRows(store.foundRows, old(store.orders), store.orders, orderId) == 0)
      && (resp.status == 404 <==>
            if store.foundRows then !HasId(old(store.orders), orderId)
            else AlreadyHasStatus(old(store.orders), orderId, Completed))
  {
    if storeFails {
      return Respond(500, Message);
    }
    var affected := store.MarkOrderAsCompleted(orderId);
    resp := Respond(CompletionStatus(affected), Message);
  }
}
