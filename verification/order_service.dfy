/**
 * The order application service: each use case loads the aggregates it
 * needs from the store, runs the domain calls in order, and saves. The
 * class is transactional, so a call that throws leaves the store as it
 * was; a successful call returns the whole new store.
 */
module OrderService {
  import opened Shared
  import opened ValueObjects
  import Products
  import Customers
  import opened Orders
  import DomainService
  import opened Commands
  import opened Repositories

  /** `createOrder`. The customer id must be non-blank (the command and
      `CustomerId.of` both refuse a blank one); the customer must exist and
      be active. A new pending, empty order for that customer is stored
      under the fresh id; nothing else changes. */
  function CreateOrder(s: Store, customerId: string, newId: OrderId): (r: Result<Store>)
    requires newId !in s.orders
    ensures Blank(customerId) ==> r == Err(Validation)
    ensures r.Err? && !Blank(customerId) ==> r.kind == BusinessRule
    ensures r.Ok? <==> !Blank(customerId) && customerId in s.customers && s.customers[customerId].active
    ensures r.Ok? ==>
      && r.value.customers == s.customers && r.value.products == s.products
      && r.value.orders.Keys == s.orders.Keys + {newId}
      && (forall id :: id in s.orders ==> r.value.orders[id] == s.orders[id])
    ensures r.Ok? ==>
      var o := r.value.orders[newId];
      o.id == newId && o.customerId == customerId && o.status == Pending && o.items == [] && IsZero(o.total)
  {
    if Blank(customerId) then Err(Validation)
    else if customerId !in s.customers then Err(BusinessRule)
    else if !s.customers[customerId].active then Err(BusinessRule)
    else Ok(s.(orders := s.orders[newId := Orders.Create(newId, customerId)]))
  }

  /** Filing an order under its own id, with one line per product, keeps
      the store consistent. */
  lemma StoringOrderKeepsConsistent(s: Store, o: Order)
    requires Consistent(s) && UniqueProducts(o.items)
    ensures Consistent(s.(orders := s.orders[o.id := o]))
  {
  }

  /** Creating and paying an order keep the store consistent. */
  lemma CreateAndPayKeepConsistent(s: Store, customerId: string, newId: OrderId, orderId: string)
    requires Consistent(s) && newId !in s.orders
    ensures CreateOrder(s, customerId, newId).Ok? ==> Consistent(CreateOrder(s, customerId, newId).value)
    ensures PayOrder(s, orderId).Ok? ==> Consistent(PayOrder(s, orderId).value)
  {
    if CreateOrder(s, customerId, newId).Ok? {
      StoringOrderKeepsConsistent(s, Orders.Create(newId, customerId));
    }
    if PayOrder(s, orderId).Ok? {
      var paid := PayOrder(s, orderId).value.orders[orderId];
      assert paid.id == orderId && paid.items == s.orders[orderId].items;
      StoringOrderKeepsConsistent(s, paid);
    }
  }

  /** `addProductToOrder`. The order id must be non-blank and name a stored
      order; the product id must be non-blank; the domain service then adds
      the line and reserves the stock. On success exactly that order and
      that product change; on failure nothing does. */
  function AddProductToOrder(s: Store, cmd: AddProductToOrderCommand): (r: Result<Store>)
    ensures Blank(cmd.orderId) ==> r == Err(Validation)
    ensures !Blank(cmd.orderId) && cmd.orderId !in s.orders ==> r == Err(BusinessRule)
    ensures !Blank(cmd.orderId) && cmd.orderId in s.orders && Blank(cmd.productId) ==> r == Err(Validation)
    ensures r.Ok? <==>
      && !Blank(cmd.orderId) && cmd.orderId in s.orders
      && !Blank(cmd.productId)
      && DomainService.AddProductToOrder(s.orders[cmd.orderId], s.products, cmd.productId, cmd.quantity).Returned?
    ensures (&& !Blank(cmd.orderId) && cmd.orderId in s.orders && !Blank(cmd.productId)
             && (cmd.productId !in s.products || !Products.HasEnoughStock(s.products[cmd.productId], cmd.quantity)))
      ==> r == Err(BusinessRule)
    ensures r.Err? && !Blank(cmd.orderId) && cmd.orderId in s.orders && !Blank(cmd.productId) ==>
      r.kind == DomainService.AddProductToOrder(s.orders[cmd.orderId], s.products, cmd.productId, cmd.quantity).kind
  {
    if Blank(cmd.orderId) then Err(Validation)
    else if cmd.orderId !in s.orders then Err(BusinessRule)
    else if Blank(cmd.productId) then Err(Validation)
    else
      var order := s.orders[cmd.orderId];
      var t := DomainService.AddProductToOrder(order, s.products, cmd.productId, cmd.quantity);
      if t.Threw? then Err(t.kind)
      else Ok(s.(orders := s.orders[cmd.orderId := t.state.order], products := t.state.products))
  }

  /** On success exactly the command's order and product change: the
      customers and every other order stay, the saved order is what
      `Order.addItem` makes of the stored order with the product's current
      name and price, and the product loses the ordered quantity from its
      stock. */
  lemma AddProductTouchesOnlyTarget(s: Store, cmd: AddProductToOrderCommand)
    requires AddProductToOrder(s, cmd).Ok?
    ensures var after := AddProductToOrder(s, cmd).value;
      && cmd.quantity > 0
      && cmd.productId in s.products
      && after.customers == s.customers
      && var p := s.products[cmd.productId];
      && after.orders == s.orders[cmd.orderId := AddItem(s.orders[cmd.orderId], cmd.productId, p.name, p.price, cmd.quantity).state]
      && after.products == s.products[cmd.productId := s.products[cmd.productId].(stock := s.products[cmd.productId].stock - cmd.quantity)]
  {
  }

  /** A successful `addProductToOrder` keeps the store consistent: the
      order keeps one line per product and the product's stock stays
      non-negative. */
  lemma AddProductKeepsConsistent(s: Store, cmd: AddProductToOrderCommand)
    requires Consistent(s)
    requires AddProductToOrder(s, cmd).Ok?
    ensures Consistent(AddProductToOrder(s, cmd).value)
  {
    var order := s.orders[cmd.orderId];
    var p := s.products[cmd.productId];
    AddItemKeepsOneLinePerProduct(order, cmd.productId, p.name, p.price, cmd.quantity);
  }

  /** A successful `addProductToOrder` moves exactly the command's quantity
      from the product's stock into the order's line for it: their sum is
      conserved, and every other product's stock and ordered quantity stay
      as they were. */
  lemma AddProductMovesStock(s: Store, cmd: AddProductToOrderCommand, other: ProductId)
    requires Consistent(s)
    requires AddProductToOrder(s, cmd).Ok?
    ensures var after := AddProductToOrder(s, cmd).value;
      && after.products[cmd.productId].stock + OrderedQuantity(after.orders[cmd.orderId].items, cmd.productId)
         == s.products[cmd.productId].stock + OrderedQuantity(s.orders[cmd.orderId].items, cmd.productId)
      && after.products[cmd.productId].stock == s.products[cmd.productId].stock - cmd.quantity
    ensures var after := AddProductToOrder(s, cmd).value;
      other != cmd.productId && other in s.products ==>
        && after.products[other] == s.products[other]
        && OrderedQuantity(after.orders[cmd.orderId].items, other) == OrderedQuantity(s.orders[cmd.orderId].items, other)
  {
    DomainService.StockIsConserved(s.orders[cmd.orderId], s.products, cmd.productId, cmd.quantity);
    if other != cmd.productId {
      DomainService.OtherProductsUntouched(s.orders[cmd.orderId], s.products, cmd.productId, cmd.quantity, other);
    }
  }

  /** An accepted command carries a positive quantity, so the service
      succeeds exactly when the order exists and the domain rules admit the
      line: the product exists, is on the shelf, holds enough stock, and the
      pending order takes the line. */
  lemma AcceptedCommandReachesDomainRules(s: Store, orderId: string, productId: string, quantity: int)
    requires NewAddProductToOrderCommand(orderId, productId, quantity).Ok?
    ensures var cmd := NewAddProductToOrderCommand(orderId, productId, quantity).value;
      AddProductToOrder(s, cmd).Ok? <==>
        && orderId in s.orders
        && productId in s.products
        && Products.HasEnoughStock(s.products[productId], quantity)
        && AddItem(s.orders[orderId], productId, s.products[productId].name, s.products[productId].price, quantity).Returned?
  {
  }

  /** `payOrder`. The order must exist and pass the payment check, its
      customer must exist; the customer's discount is applied only when the
      rate is positive, and the order is then paid. Only that order
      changes: its status becomes PAID and its total drops by the rounded
      discount. A second payment always fails. */
  function PayOrder(s: Store, orderId: string): (r: Result<Store>)
    ensures Blank(orderId) ==> r == Err(Validation)
    ensures r.Err? && !Blank(orderId) ==> r.kind == BusinessRule
    ensures r.Ok? <==>
      && !Blank(orderId) && orderId in s.orders
      && DomainService.ValidateOrderForPayment(s.orders[orderId], s.products) == Pass
      && s.orders[orderId].customerId in s.customers
      && s.orders[orderId].status == Pending
    ensures r.Ok? ==>
      var o := s.orders[orderId];
      var rate := DomainService.CalculateCustomerDiscount(s.customers[o.customerId], o);
      && r.value.customers == s.customers && r.value.products == s.products
      && orderId in r.value.orders
      && r.value.orders == s.orders[orderId := r.value.orders[orderId]]
      && r.value.orders[orderId] == o.(status := Paid, total := r.value.orders[orderId].total)
      && r.value.orders[orderId].total.currency == o.total.currency
      && r.value.orders[orderId].total.cents == o.total.cents - HalfUp(o.total.cents * rate.unscaled, Pow10(rate.scale))
  {
    if Blank(orderId) then Err(Validation)
    else if orderId !in s.orders then Err(BusinessRule)
    else
      var o := s.orders[orderId];
      var verdict := DomainService.ValidateOrderForPayment(o, s.products);
      if verdict.Fail? then Err(verdict.kind)
      else if o.customerId !in s.customers then Err(BusinessRule)
      else
        var rate := DomainService.CalculateCustomerDiscount(s.customers[o.customerId], o);
        var discounted := if rate.unscaled > 0 then ApplyDiscount(o, rate) else Returned(o);
        if discounted.Threw? then Err(discounted.kind)
        else
          var paid := Pay(discounted.state);
          if paid.Threw? then Err(paid.kind)
          else
            HalfUpExact(0, 1);
            Ok(s.(orders := s.orders[orderId := paid.state]))
  }

  /** The discount goes through this path at most once: paying an order
      that was just paid fails. */
  lemma PayOrderOnlyOnce(s: Store, orderId: string)
    requires PayOrder(s, orderId).Ok?
    ensures PayOrder(PayOrder(s, orderId).value, orderId) == Err(BusinessRule)
  {
  }

  /** The shared shape of `shipOrder`, `deliverOrder` and `cancelOrder`:
      load the order, run one status method, save. */
  function TransitionOrder(s: Store, orderId: string, a: Action): (r: Result<Store>)
    ensures Blank(orderId) ==> r == Err(Validation)
    ensures r.Err? && !Blank(orderId) ==> r.kind == BusinessRule
    ensures r.Ok? <==> !Blank(orderId) && orderId in s.orders && Perform(s.orders[orderId], a).Returned?
    ensures r.Ok? ==> r.value == s.(orders := s.orders[orderId := Perform(s.orders[orderId], a).state])
  {
    if Blank(orderId) then Err(Validation)
    else if orderId !in s.orders then Err(BusinessRule)
    else
      LifecycleFollowsTable(s.orders[orderId], a);
      var done := Perform(s.orders[orderId], a);
      if done.Threw? then Err(done.kind)
      else Ok(s.(orders := s.orders[orderId := done.state]))
  }

  /** `shipOrder`: a paid order becomes shipped; nothing else changes. */
  function ShipOrder(s: Store, orderId: string): (r: Result<Store>)
    ensures Blank(orderId) ==> r == Err(Validation)
    ensures r.Err? && !Blank(orderId) ==> r.kind == BusinessRule
    ensures r.Ok? <==> !Blank(orderId) && orderId in s.orders && s.orders[orderId].status == Paid
    ensures r.Ok? ==> r.value == s.(orders := s.orders[orderId := s.orders[orderId].(status := Shipped)])
    ensures Consistent(s) && r.Ok? ==> Consistent(r.value)
  {
    TransitionOrder(s, orderId, ShipAction)
  }

  /** `deliverOrder`: a shipped order becomes delivered; nothing else
      changes. */
  function DeliverOrder(s: Store, orderId: string): (r: Result<Store>)
    ensures Blank(orderId) ==> r == Err(Validation)
    ensures r.Err? && !Blank(orderId) ==> r.kind == BusinessRule
    ensures r.Ok? <==> !Blank(orderId) && orderId in s.orders && s.orders[orderId].status == Shipped
    ensures r.Ok? ==> r.value == s.(orders := s.orders[orderId := s.orders[orderId].(status := Delivered)])
    ensures Consistent(s) && r.Ok? ==> Consistent(r.value)
  {
    TransitionOrder(s, orderId, DeliverAction)
  }

  /** `cancelOrder`: a pending or paid order becomes cancelled; nothing else
      changes. Stock reserved by its lines is not returned. */
  function CancelOrder(s: Store, orderId: string): (r: Result<Store>)
    ensures Blank(orderId) ==> r == Err(Validation)
    ensures r.Err? && !Blank(orderId) ==> r.kind == BusinessRule
    ensures r.Ok? <==> !Blank(orderId) && orderId in s.orders && CanBeCancelled(s.orders[orderId].status)
    ensures r.Ok? ==> r.value == s.(orders := s.orders[orderId := s.orders[orderId].(status := Cancelled)])
    ensures r.Ok? ==> r.value.products == s.products
    ensures Consistent(s) && r.Ok? ==> Consistent(r.value)
  {
    TransitionOrder(s, orderId, CancelAction)
  }

  /** Shipping, delivering and cancelling through the service follow the
      lifecycle table exactly. */
  lemma ServiceFollowsLifecycle(s: Store, orderId: string)
    requires !Blank(orderId) && orderId in s.orders
    ensures ShipOrder(s, orderId).Ok? <==> Transition(s.orders[orderId].status, ShipAction).Some?
    ensures DeliverOrder(s, orderId).Ok? <==> Transition(s.orders[orderId].status, DeliverAction).Some?
    ensures CancelOrder(s, orderId).Ok? <==> Transition(s.orders[orderId].status, CancelAction).Some?
  {
  }

  // ---------------------------------------------------------------------
  // The demo scenario
  // ---------------------------------------------------------------------

  const DemoCustomer := Customers.Customer("c1", "Demo", Email("demo@example.com"), Customers.Vip, true)
  const DemoProduct := Products.Product("p1", "Demo product", "", Money(29999, CNY), 50, true)
  const DemoLine := OrderItem("p1", "Demo product", Money(29999, CNY), 2)

  /** Before the order: a VIP customer and a product at 299.99 CNY with 50
      in stock. */
  const DemoStart := Store(map["c1" := DemoCustomer], map["p1" := DemoProduct], map[])

  /** Creating the order stores an empty pending order for the customer. */
  lemma DemoCreatesOrder()
    ensures CreateOrder(DemoStart, "c1", "o1") == Ok(DemoStart.(orders := map["o1" := Orders.Create("o1", "c1")]))
  {
    assert !IsSpace("c1"[0]);
  }

  const DemoOrderAfterAdd := Order("o1", "c1", [DemoLine], Pending, Money(59998, CNY))

  /** The empty order takes the line: 2 × 299.99 = 599.98. */
  lemma DemoOrderTakesLine()
    ensures AddItem(Orders.Create("o1", "c1"), "p1", "Demo product", Money(29999, CNY), 2) == Returned(DemoOrderAfterAdd)
  {
    assert !IsSpace("Demo product"[0]);
    var empty: seq<OrderItem> := [];
    assert ReplaceMatching(empty, "p1", "Demo product", Money(29999, CNY), 2) == Ok(empty);
    assert !ContainsProduct(empty, "p1");
    assert NewOrderItem("p1", "Demo product", Money(29999, CNY), 2) == Ok(DemoLine);
    assert empty + [DemoLine] == [DemoLine];
    assert MergeItems(empty, "p1", "Demo product", Money(29999, CNY), 2) == Ok([DemoLine]);
    ItemsCentsAppend([], DemoLine);
    assert SumSubtotals([DemoLine]) == Ok(Money(59998, CNY));
  }

  /** The domain service adds the line and takes 2 units from the stock. */
  lemma DemoReservesStock()
    ensures DomainService.AddProductToOrder(Orders.Create("o1", "c1"), map["p1" := DemoProduct], "p1", 2)
         == Returned(DomainService.Touched(DemoOrderAfterAdd, map["p1" := DemoProduct.(stock := 48)]))
  {
    DemoOrderTakesLine();
    var products := map["p1" := DemoProduct];
    assert products["p1" := DemoProduct.(stock := 48)] == map["p1" := DemoProduct.(stock := 48)];
  }

  /** Adding 2 units through the service gives one line, a total of 599.98
      and a stock of 48. */
  lemma DemoAddsTwoUnits()
    ensures
      var before := DemoStart.(orders := map["o1" := Orders.Create("o1", "c1")]);
      AddProductToOrder(before, AddProductToOrderCommand("o1", "p1", 2))
        == Ok(Store(map["c1" := DemoCustomer], map["p1" := DemoProduct.(stock := 48)], map["o1" := DemoOrderAfterAdd]))
  {
    assert !IsSpace("o1"[0]) && !IsSpace("p1"[0]);
    DemoReservesStock();
    var before := DemoStart.(orders := map["o1" := Orders.Create("o1", "c1")]);
    assert before.orders["o1"] == Orders.Create("o1", "c1");
    assert before.products == map["p1" := DemoProduct];
    assert before.orders["o1" := DemoOrderAfterAdd] == map["o1" := DemoOrderAfterAdd];
  }

  /** Paying applies the VIP rate of 5%: 599.98 × 0.05 = 29.999, rounded
      half-up to 30.00, leaves 569.98, and the order is PAID. */
  lemma DemoPaysWithVipDiscount()
    ensures
      var before := Store(map["c1" := DemoCustomer], map["p1" := DemoProduct.(stock := 48)], map["o1" := DemoOrderAfterAdd]);
      PayOrder(before, "o1")
        == Ok(before.(orders := map["o1" := Order("o1", "c1", [DemoLine], Paid, Money(56998, CNY))]))
  {
    assert !IsSpace("o1"[0]);
    var products := map["p1" := DemoProduct.(stock := 48)];
    assert DomainService.AllProductsAvailable([DemoLine], products);
    assert DomainService.ValidateOrderForPayment(DemoOrderAfterAdd, products) == Pass;
    assert DomainService.CalculateCustomerDiscount(DemoCustomer, DemoOrderAfterAdd) == DomainService.VipRate;
    DemoDiscount();
    var paid := Order("o1", "c1", [DemoLine], Paid, Money(56998, CNY));
    assert Pay(DemoOrderAfterAdd.(total := Money(56998, CNY))) == Returned(paid);
    assert map["o1" := DemoOrderAfterAdd]["o1" := paid] == map["o1" := paid];
  }

  /** 5% of 599.98 is 29.999, which rounds half-up to 30.00. */
  lemma DemoDiscount()
    ensures ApplyDiscount(DemoOrderAfterAdd, DomainService.VipRate) == Returned(DemoOrderAfterAdd.(total := Money(56998, CNY)))
  {
    assert Pow10(2) == 100;
    assert HalfUp(59998 * 5, 100) == 3000;
  }

  /** The demo end to end: create the order, add 2 units, pay. */
  lemma DemoScenario()
    ensures
      var s1 := CreateOrder(DemoStart, "c1", "o1");
      s1.Ok? &&
      var s2 := AddProductToOrder(s1.value, AddProductToOrderCommand("o1", "p1", 2));
      && s2.Ok?
      && s2.value.orders["o1"].total == Money(59998, CNY)
      && s2.value.products["p1"].stock == 48
      && var s3 := PayOrder(s2.value, "o1");
      && s3.Ok?
      && s3.value.orders["o1"].status == Paid
      && s3.value.orders["o1"].total == Money(56998, CNY)
  {
    DemoCreatesOrder();
    DemoAddsTwoUnits();
    DemoPaysWithVipDiscount();
  }
}
