/**
 * The order domain service: the rules that span the Order and Product
 * aggregates. The product repository is a map from product id to product.
 */
module DomainService {
  import opened Shared
  import opened ValueObjects
  import opened Products
  import opened Customers
  import opened Orders

  type ProductRepository = map<ProductId, Product>

  /** The two aggregates `addProductToOrder` touches: the order it was
      handed and the product repository it saves into. */
  datatype Touched = Touched(order: Order, products: ProductRepository)

  /** `addProductToOrder`. The product must exist, be on the shelf and hold
      enough stock; the order then receives the product's current name and
      price, and the product's stock is reduced and saved. The quantity is
      not checked here: a non-positive one passes the stock check, is merged
      into the order, and is only refused by `reduceStock`, after the order
      has changed. */
  function AddProductToOrder(order: Order, products: ProductRepository, productId: ProductId, quantity: int): (r: Outcome<Touched>)
    ensures productId !in products || !HasEnoughStock(products[productId], quantity) ==>
      r == Threw(BusinessRule, Touched(order, products))
    ensures r.Threw? ==> r.state.products == products
    ensures r.state.order == order ||
      (productId in products &&
       r.state.order == AddItem(order, productId, products[productId].name, products[productId].price, quantity).state)
    ensures r.Returned? <==>
      && productId in products
      && HasEnoughStock(products[productId], quantity)
      && quantity > 0
      && AddItem(order, productId, products[productId].name, products[productId].price, quantity).Returned?
    ensures r.Returned? ==>
      && productId in products
      && var p := products[productId];
         r.state == Touched(AddItem(order, productId, p.name, p.price, quantity).state, products[productId := p.(stock := p.stock - quantity)])
  {
    if productId !in products then Threw(BusinessRule, Touched(order, products))
    else
      var product := products[productId];
      if !product.available then Threw(BusinessRule, Touched(order, products))
      else if !HasEnoughStock(product, quantity) then Threw(BusinessRule, Touched(order, products))
      else
        var added := AddItem(order, productId, product.name, product.price, quantity);
        if added.Threw? then Threw(added.kind, Touched(added.state, products))
        else
          var reduced := ReduceStock(product, quantity);
          if reduced.Threw? then Threw(reduced.kind, Touched(added.state, products))
          else Returned(Touched(added.state, products[productId := reduced.state]))
  }

  /** Which order the call leaves behind, on every path. Once the product
      is found on the shelf with enough stock, the order is what `addItem`
      made of it: the merged lines after a success, after `reduceStock`
      refuses, and also after `addItem` itself throws when recomputing the
      total (a line priced in another currency), where the lines are merged
      but the total is stale. Before that point the order is untouched. */
  lemma OrderIsWhatAddItemLeft(order: Order, products: ProductRepository, productId: ProductId, quantity: int)
    ensures productId in products && HasEnoughStock(products[productId], quantity) ==>
      var p := products[productId];
      AddProductToOrder(order, products, productId, quantity).state.order
        == AddItem(order, productId, p.name, p.price, quantity).state
    ensures !(productId in products && HasEnoughStock(products[productId], quantity)) ==>
      AddProductToOrder(order, products, productId, quantity).state.order == order
  {
  }

  /** The partial path is reachable: a product priced in USD is found on
      the shelf with stock, `addItem` merges its line into an empty CNY
      order and then throws while summing the total, so the call throws a
      validation error with the line in the order, the total still zero
      and the stock untouched. */
  lemma ForeignCurrencyLineStaysInOrder()
    ensures var order := Orders.Create("o1", "c1");
      var products := map["p1" := Product("p1", "Gadget", "", Money(100, USD), 5, true)];
      var line := OrderItem("p1", "Gadget", Money(100, USD), 1);
      AddProductToOrder(order, products, "p1", 1)
        == Threw(Validation, Touched(order.(items := [line]), products))
  {
    var order := Orders.Create("o1", "c1");
    var line := OrderItem("p1", "Gadget", Money(100, USD), 1);
    var empty: seq<OrderItem> := [];
    assert !IsSpace("Gadget"[0]);
    assert ReplaceMatching(empty, "p1", "Gadget", Money(100, USD), 1) == Ok(empty);
    assert !ContainsProduct(empty, "p1");
    assert empty + [line] == [line];
    assert MergeItems(empty, "p1", "Gadget", Money(100, USD), 1) == Ok([line]);
    assert !AllInCurrency([line], CNY) by {
      assert USD[0] != CNY[0];
      assert [line][0].unitPrice.currency == USD;
    }
    assert AddItem(order, "p1", "Gadget", Money(100, USD), 1) == Threw(Validation, order.(items := [line]));
  }

  /** Stock is only moved, never created or lost: for a positive quantity a
      successful call lowers the product's stock by exactly what the order's
      line for it gains, and the order keeps one line per product. */
  lemma StockIsConserved(order: Order, products: ProductRepository, productId: ProductId, quantity: int)
    requires UniqueProducts(order.items)
    requires AddProductToOrder(order, products, productId, quantity).Returned?
    ensures var t := AddProductToOrder(order, products, productId, quantity).state;
      && t.products[productId].stock + OrderedQuantity(t.order.items, productId)
         == products[productId].stock + OrderedQuantity(order.items, productId)
      && UniqueProducts(t.order.items)
  {
    var p := products[productId];
    var t := AddProductToOrder(order, products, productId, quantity).state;
    var merged := MergeItems(order.items, productId, p.name, p.price, quantity);
    MergeAddsQuantity(order.items, productId, p.name, p.price, quantity);
    assert t.order.items == merged.value;
    AddItemKeepsOneLinePerProduct(order, productId, p.name, p.price, quantity);
  }

  /** Every other product is left alone: its stored record and its ordered
      quantity are what they were. */
  lemma OtherProductsUntouched(order: Order, products: ProductRepository, productId: ProductId, quantity: int, other: ProductId)
    requires AddProductToOrder(order, products, productId, quantity).Returned?
    requires other != productId
    ensures var t := AddProductToOrder(order, products, productId, quantity).state;
      && (other in t.products <==> other in products)
      && (other in products ==> t.products[other] == products[other])
      && OrderedQuantity(t.order.items, other) == OrderedQuantity(order.items, other)
  {
    var p := products[productId];
    var t := AddProductToOrder(order, products, productId, quantity).state;
    var merged := MergeItems(order.items, productId, p.name, p.price, quantity);
    assert t.order == AddItem(order, productId, p.name, p.price, quantity).state;
    assert t.order.items == merged.value || t.order.items == order.items;
    MergeKeepsOtherQuantities(order.items, productId, p.name, p.price, quantity, other);
  }

  /** Merging a line for one product leaves every other product's ordered
      quantity unchanged. */
  lemma MergeKeepsOtherQuantities(items: seq<OrderItem>, productId: ProductId, productName: string, unitPrice: Money, quantity: int, other: ProductId)
    requires other != productId
    requires MergeItems(items, productId, productName, unitPrice, quantity).Ok?
    ensures OrderedQuantity(MergeItems(items, productId, productName, unitPrice, quantity).value, other)
         == OrderedQuantity(items, other)
  {
    var merged := MergeItems(items, productId, productName, unitPrice, quantity).value;
    var replaced := ReplaceMatching(items, productId, productName, unitPrice, quantity).value;
    SameOtherQuantities(items, replaced, productId, other);
    if |merged| != |replaced| {
      assert merged == replaced + [merged[|replaced|]];
      OrderedQuantityAppend(replaced, merged[|replaced|], other);
    }
  }

  /** Two lists that agree line by line except on the quantity of lines for
      one product hold the same quantity of every other product. */
  lemma {:induction false} SameOtherQuantities(a: seq<OrderItem>, b: seq<OrderItem>, productId: ProductId, other: ProductId)
    requires other != productId
    requires |a| == |b|
    requires forall i :: 0 <= i < |a| ==> a[i].productId == b[i].productId
    requires forall i :: 0 <= i < |a| && a[i].productId != productId ==> a[i] == b[i]
    ensures OrderedQuantity(a, other) == OrderedQuantity(b, other)
    decreases |a|
  {
    if a != [] {
      SameOtherQuantities(a[1..], b[1..], productId, other);
    }
  }

  /** An order that is no longer pending refuses the line before the stock
      is touched: the call throws and both aggregates stay as they were. */
  lemma ClosedOrderLeavesStock(order: Order, products: ProductRepository, productId: ProductId, quantity: int)
    requires order.status != Pending
    ensures AddProductToOrder(order, products, productId, quantity) == Threw(BusinessRule, Touched(order, products))
  {
  }

  /** Without the command's guard, a non-positive quantity is never
      accepted and never touches the repository, but it can leave the order
      changed: a zero quantity on a product already in the order merges into
      its line and is only then refused by `reduceStock`. */
  lemma NonPositiveQuantityIsRefusedLate(order: Order, products: ProductRepository, productId: ProductId, quantity: int)
    requires quantity <= 0
    ensures AddProductToOrder(order, products, productId, quantity).Threw?
    ensures AddProductToOrder(order, products, productId, quantity).state.products == products
    ensures
      && order.status == Pending
      && productId in products
      && HasEnoughStock(products[productId], quantity)
      && AddItem(order, productId, products[productId].name, products[productId].price, quantity).Returned?
      ==> AddProductToOrder(order, products, productId, quantity)
          == Threw(Validation, Touched(AddItem(order, productId, products[productId].name, products[productId].price, quantity).state, products))
  {
  }

  // ---------------------------------------------------------------------
  // Discount rate
  // ---------------------------------------------------------------------

  /** The rate `new BigDecimal("0.05")`. */
  const VipRate: Decimal := Decimal(5, 2)
  /** The rate `new BigDecimal("0.10")`. */
  const EnterpriseRate: Decimal := Decimal(10, 2)
  /** `BigDecimal.ZERO`. */
  const NoDiscount: Decimal := Decimal(0, 0)

  /** `calculateCustomerDiscount`: nothing for a customer who cannot receive
      a discount, 5% for VIP, 10% for ENTERPRISE. The order is not read. */
  function CalculateCustomerDiscount(customer: Customer, order: Order): (rate: Decimal)
    ensures IsRate(rate)
    ensures rate.unscaled > 0 <==> CanReceiveDiscount(customer)
    ensures CanReceiveDiscount(customer) && customer.ctype == Vip ==> rate == VipRate
    ensures CanReceiveDiscount(customer) && customer.ctype == Enterprise ==> rate == EnterpriseRate
    ensures !CanReceiveDiscount(customer) ==> rate == NoDiscount
  {
    if !CanReceiveDiscount(customer) then NoDiscount
    else if customer.ctype == Vip then VipRate
    else if customer.ctype == Enterprise then EnterpriseRate
    else NoDiscount
  }

  /** The rate depends on the customer alone, and ENTERPRISE earns twice the
      VIP rate. */
  lemma DiscountIgnoresOrder(customer: Customer, a: Order, b: Order)
    ensures CalculateCustomerDiscount(customer, a) == CalculateCustomerDiscount(customer, b)
    ensures EnterpriseRate.scale == VipRate.scale && EnterpriseRate.unscaled == 2 * VipRate.unscaled
  {
  }

  // ---------------------------------------------------------------------
  // Payment check
  // ---------------------------------------------------------------------

  /** Every line's product is still in the repository and on the shelf. */
  predicate AllProductsAvailable(items: seq<OrderItem>, products: ProductRepository) {
    forall i :: 0 <= i < |items| ==> items[i].productId in products && products[items[i].productId].available
  }

  /** The loop over the lines: the first line whose product is missing or
      off the shelf fails the check. */
  function CheckLines(items: seq<OrderItem>, products: ProductRepository): (v: Verdict)
    ensures v == Pass <==> AllProductsAvailable(items, products)
    ensures v.Fail? ==> v.kind == BusinessRule
  {
    if items == [] then Pass
    else if items[0].productId !in products then Fail(BusinessRule)
    else if !products[items[0].productId].available then Fail(BusinessRule)
    else
      var rest := CheckLines(items[1..], products);
      assert forall i :: 1 <= i < |items| ==> items[i] == items[1..][i - 1];
      rest
  }

  /** `validateOrderForPayment`: an order can be paid only when it has a
      line, a non-zero total, and every line's product still exists and is
      on the shelf. Stock is not consulted. */
  function ValidateOrderForPayment(order: Order, products: ProductRepository): (v: Verdict)
    ensures v == Pass <==>
      && order.items != []
      && !IsZero(order.total)
      && AllProductsAvailable(order.items, products)
    ensures v.Fail? ==> v.kind == BusinessRule
  {
    if order.items == [] then Fail(BusinessRule)
    else if IsZero(order.total) then Fail(BusinessRule)
    else CheckLines(order.items, products)
  }

  /** The check ignores stock: emptying a product's stock does not change
      the verdict. */
  lemma PaymentCheckIgnoresStock(order: Order, products: ProductRepository, productId: ProductId, stock: int)
    requires productId in products
    ensures ValidateOrderForPayment(order, products[productId := products[productId].(stock := stock)])
         == ValidateOrderForPayment(order, products)
  {
    var changed := products[productId := products[productId].(stock := stock)];
    assert AllProductsAvailable(order.items, changed) <==> AllProductsAvailable(order.items, products);
  }
}
