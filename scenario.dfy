/** A client of the handlers that walks one order through its life, using nothing but the
    handlers' and the store's contracts: created with two lines (2 x 10.00 and 1 x 5.50) for
    25.50, listed for its customer, accepted by rider 5, completed, and finally canceled. Every
    NOT NULL column of the order gets a value. The customer and rider ids are strings, as
    `?customerId=7` carries them. */
module Scenario {
  import opened JsValues
  import opened OrderTable
  import opened TableLaws
  import opened OrderModel
  import opened OrderController

  const Customer: Json := Obj(map["id" := Str("7"), "fullName" := Str("Ann")])
  const Location: Json := Obj(map["address" := Str("1 Marina Road"), "lat" := Num(6.5), "lng" := Num(3.25)])
  const Restaurant: Json := Obj(map["id" := Num(3.0), "businessName" := Str("Bukka")])
  const Soup: Json := Obj(map["quantity" := Num(2.0), "price" := Num(10.0)])
  const Tea: Json := Obj(map["quantity" := Num(1.0), "price" := Num(5.5), "image" := Str("")])
  const Body: map<string, Json> :=
    map["user" := Customer, "cartItems" := Arr([Soup, Tea]), "location" := Location,
        "totalAmount" := Num(25.5), "restaurant" := Restaurant]

  /** The order row the example request creates: customer 7 (Ann), no phone, delivered to
      1 Marina Road, from restaurant 3 (Bukka), 25.50, pending, created at time 100. */
  function ExampleOrder(): Order {
    Order(1, Str("7"), Str("Ann"), Null, Str("1 Marina Road"), Num(6.5), Num(3.25), Num(3.0), Str("Bukka"),
          Num(25.5), Pending, false, Null, Null, 100)
  }

  /** The example request's order data gives exactly that row. */
  lemma ExampleOrderCreated()
    ensures NewOrder(1, BuildOrderData(Customer, Location, Restaurant, Num(25.5)), 100) == ExampleOrder()
  {
    assert "phone" !in Customer.fields && "id" in Customer.fields && "fullName" in Customer.fields;
    assert "address" in Location.fields && "lat" in Location.fields && "lng" in Location.fields;
    assert "id" in Restaurant.fields && "businessName" in Restaurant.fields;
  }

  /** The cart lines the example request normalises to. */
  function ExampleLines(): seq<CartLine> {
    [CartLine(Undefined, Undefined, Num(2.0), Num(10.0), Null), CartLine(Undefined, Undefined, Num(1.0), Num(5.5), Null)]
  }

  /** The example order once rider 5 (Alex) has accepted it. */
  function AcceptedExample(): Order {
    ExampleOrder().(isAccepted := true, riderId := Str("5"), riderName := Str("Alex"))
  }

  method OrderLifecycle() {
    var store := new OrderStore(true);
    RefuseStep(store);
    CreateStep(store);
    ListStep(store);
    AcceptStep(store);
    PendingStep(store);
    RiderListStep(store);
    CompleteStep(store);
    MissingStep(store);
    OverwriteStep(store);
  }

  /** The fields of the example body. */
  lemma ExampleFields()
    ensures Field(Body, "user") == Customer && Field(Body, "cartItems") == Arr([Soup, Tea])
    ensures Field(Body, "location") == Location && Field(Body, "restaurant") == Restaurant
    ensures Field(Body, "totalAmount") == Num(25.5)
  {
  }

  /** The example cart normalises to the example lines. */
  lemma ExampleCartNormalises()
    ensures NormalizeCart(Arr([Soup, Tea])) == Ok(ExampleLines())
  {
    assert "id" !in Soup.fields && "productName" !in Soup.fields && "image" !in Soup.fields;
    assert "id" !in Tea.fields && "productName" !in Tea.fields;
    var r := NormalizeCart(Arr([Soup, Tea]));
    assert !IsNullish(Arr([Soup, Tea]).elems[0]) && !IsNullish(Arr([Soup, Tea]).elems[1]);
    assert r.Ok? && |r.value| == 2;
    assert r.value[0] == NormalizeItem(Soup) == ExampleLines()[0];
    assert r.value[1] == NormalizeItem(Tea) == ExampleLines()[1];
    assert |ExampleLines()| == 2;
    assert r.value == ExampleLines();
  }

  /** The example request, read as the create handler reads it: it passes validation, its
      cart normalises to the example lines, and its order data gives the example row. */
  lemma ExampleRequest()
    ensures !MissingCreateFields(Field(Body, "user"), Field(Body, "cartItems"), Field(Body, "location"), Field(Body, "restaurant"))
    ensures NormalizeCart(Field(Body, "cartItems")) == Ok(ExampleLines())
    ensures NewOrder(1, BuildOrderData(Field(Body, "user"), Field(Body, "location"), Field(Body, "restaurant"),
                                       Field(Body, "totalAmount")), 100) == ExampleOrder()
  {
    ExampleFields();
    ExampleCartNormalises();
    ExampleOrderCreated();
  }

  /** A request without a cart is refused and writes nothing. */
  method RefuseStep(store: OrderStore)
    requires store.Valid()
    modifies store
    ensures store.Valid() && unchanged(store)
  {
    var refused := CreateOrder(store, Body - {"cartItems"}, 100, NoFault);
    assert refused == Respond(400, Message);
  }

  /** The example request creates order 1 with its two item rows. */
  method CreateStep(store: OrderStore)
    requires store.Valid() && store.orders == [] && store.items == [] && store.nextId == 1
    modifies store
    ensures store.Valid() && store.orders == [ExampleOrder()] && store.items == ItemRows(1, ExampleLines())
  {
    ExampleRequest();
    var created := CreateOrder(store, Body, 100, NoFault);
    assert created == Respond(201, OrderCreated(1));
    assert store.orders == [] + [ExampleOrder()];
  }

  /** The items order 1 reads back. */
  lemma ExampleItems()
    ensures var its := ItemsOf(ItemRows(1, ExampleLines()), 1);
      && |its| == 2
      && its[0].quantity == Num(2.0) && its[0].price == Num(10.0)
      && its[1].quantity == Num(1.0) && its[1].price == Num(5.5) && its[1].image == Null
  {
    ItemsOfInsertedRows(1, ExampleLines());
  }

  /** Customer 7 sees order 1, for 25.50, with its two items. */
  method ListStep(store: OrderStore)
    requires store.Valid() && store.orders == [ExampleOrder()] && store.items == ItemRows(1, ExampleLines())
  {
    SelectAppend([], ExampleOrder(), ByCustomer(Str("7")));
    assert store.orders == [] + [ExampleOrder()];
    var listed := GetOrders(store, map["customerId" := Str("7")], false);
    store.ListsOnly(listed.payload.orders, ByCustomer(Str("7")), ExampleOrder());
    ExampleItems();
    assert listed.payload.orders == [OrderView(ExampleOrder(), ItemsOf(ItemRows(1, ExampleLines()), 1))];
  }

  /** Rider 5 accepts order 1; its status is still pending. */
  method AcceptStep(store: OrderStore)
    requires store.Valid() && store.orders == [ExampleOrder()]
    modifies store
    ensures store.Valid() && store.orders == [AcceptedExample()]
  {
    var accepted := AcceptOrder(store, 1, map["riderId" := Str("5"), "riderName" := Str("Alex")], false);
    assert accepted == Respond(200, Message);
    assert store.orders[0] == AcceptedExample();
  }

  /** An accepted order is no longer pending. */
  method PendingStep(store: OrderStore)
    requires store.Valid() && store.orders == [AcceptedExample()]
  {
    var pending := GetPendingOrders(store, false);
    store.NoMatchListsNothing(pending.payload.orders, PendingUnassigned);
    assert pending.payload.orders == [];
  }

  /** The accepted order is listed for rider 5. */
  method RiderListStep(store: OrderStore)
    requires store.Valid() && store.orders == [AcceptedExample()]
  {
    SelectAppend([], AcceptedExample(), AcceptedBy(Str("5")));
    assert store.orders == [] + [AcceptedExample()];
    var forRider := GetAcceptedOrders(store, map["riderId" := Str("5")], false);
    store.ListsOnly(forRider.payload.orders, AcceptedBy(Str("5")), AcceptedExample());
    assert forRider.payload.orders[0].order.id == 1;
  }

  /** Completing order 1 succeeds. */
  method CompleteStep(store: OrderStore)
    requires store.Valid() && store.orders == [AcceptedExample()] && store.foundRows
    modifies store
    ensures store.Valid() && |store.orders| == 1 && store.orders[0].id == 1 && store.foundRows
  {
    var done := CompleteOrder(store, 1, false);
    assert done == Respond(200, Message);
  }

  /** There is no order 2 to complete. */
  method MissingStep(store: OrderStore)
    requires store.Valid() && |store.orders| == 1 && store.orders[0].id == 1 && store.foundRows
    modifies store
    ensures store.Valid() && |store.orders| == 1 && store.orders[0].id == 1
  {
    var missing := CompleteOrder(store, 2, false);
    assert missing == Respond(404, Message);
  }

  /** No transition is checked: a completed order can still be canceled. */
  method OverwriteStep(store: OrderStore)
    requires store.Valid() && |store.orders| == 1 && store.orders[0].id == 1
    modifies store
  {
    var canceled := UpdateOrderStatus(store, 1, map["status" := Canceled], false);
    assert canceled == Respond(200, Message);
    assert store.orders[0].status == Canceled;
  }
}
