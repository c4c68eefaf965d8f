/**
 * The Order aggregate: its status machine, its line items and its cached
 * total.
 */
module Orders {
  import opened Shared
  import opened ValueObjects

  // ---------------------------------------------------------------------
  // OrderStatus
  // ---------------------------------------------------------------------

  datatype OrderStatus = Pending | Paid | Shipped | Delivered | Cancelled | Refunded

  /** `getDescription`: the display label of each status. */
  function StatusDescription(s: OrderStatus): string {
    match s
    case Pending => "待支付"
    case Paid => "已支付"
    case Shipped => "已发货"
    case Delivered => "已送达"
    case Cancelled => "已取消"
    case Refunded => "已退款"
  }

  /** The six labels are pairwise distinct, so a label names exactly one
      status. */
  lemma StatusDescriptionsDistinct(a: OrderStatus, b: OrderStatus)
    ensures StatusDescription(a) == StatusDescription(b) <==> a == b
    ensures StatusDescription(a) != []
  {
  }

  /** `canBeCancelled`. */
  predicate CanBeCancelled(s: OrderStatus) {
    s == Pending || s == Paid
  }

  /** `canBeShipped`. */
  predicate CanBeShipped(s: OrderStatus) {
    s == Paid
  }

  /** `canBeRefunded`. */
  predicate CanBeRefunded(s: OrderStatus) {
    s == Paid || s == Shipped || s == Delivered
  }

  /** The three guards, status by status: cancellable exactly before
      shipping, shippable exactly when paid, refundable exactly once paid and
      not yet closed; the two closed statuses pass none of them. */
  lemma StatusGuards(s: OrderStatus)
    ensures CanBeCancelled(s) <==> s in {Pending, Paid}
    ensures CanBeShipped(s) <==> s in {Paid}
    ensures CanBeRefunded(s) <==> s in {Paid, Shipped, Delivered}
    ensures s in {Cancelled, Refunded} ==> !CanBeCancelled(s) && !CanBeShipped(s) && !CanBeRefunded(s)
    ensures CanBeShipped(s) ==> CanBeCancelled(s) && CanBeRefunded(s)
  {
  }

  // ---------------------------------------------------------------------
  // OrderItem
  // ---------------------------------------------------------------------

  /** The constructor's `quantity > 0`. */
  type Quantity = q: int | q > 0 witness 1

  datatype OrderItem = OrderItem(productId: ProductId, productName: string, unitPrice: Money, quantity: Quantity)

  /** The compact constructor: a blank product name or a non-positive
      quantity is rejected. */
  function NewOrderItem(productId: ProductId, productName: string, unitPrice: Money, quantity: int): (r: Result<OrderItem>)
    ensures r.Ok? <==> !Blank(productName) && quantity > 0
    ensures r.Err? ==> r.kind == Validation
    ensures r.Ok? ==> r.value.productId == productId && r.value.productName == productName
    ensures r.Ok? ==> r.value.unitPrice == unitPrice && r.value.quantity == quantity
  {
    if Blank(productName) then Err(Validation)
    else if quantity <= 0 then Err(Validation)
    else Ok(OrderItem(productId, productName, unitPrice, quantity))
  }

  /** `calculateSubtotal`: the unit price times the quantity, as Money's own
      multiplication computes it; never below the unit price. */
  function Subtotal(item: OrderItem): (r: Money)
    ensures Multiply(item.unitPrice, Decimal(item.quantity, 0)) == Ok(r)
    ensures r.currency == item.unitPrice.currency
    ensures r.cents >= item.unitPrice.cents
  {
    MultiplyByCount(item.unitPrice, item.quantity);
    MulLe(1, item.quantity, item.unitPrice.cents);
    Money(item.unitPrice.cents * item.quantity, item.unitPrice.currency)
  }

  /** `isSameProduct`: only the product id is compared. */
  predicate IsSameProduct(item: OrderItem, productId: ProductId) {
    item.productId == productId
  }

  /** Renaming, repricing or requantifying a line does not change which
      product it is. */
  lemma IsSameProductIgnoresSnapshot(item: OrderItem, name: string, price: Money, quantity: Quantity, productId: ProductId)
    ensures IsSameProduct(item.(productName := name, unitPrice := price, quantity := quantity), productId)
        <==> IsSameProduct(item, productId)
  {
  }

  /** With one line per product, `isSameProduct` picks out at most one
      line of a list, which is why `removeIf` on it drops a single line. */
  lemma SameProductLineIsUnique(items: seq<OrderItem>, productId: ProductId, i: nat, j: nat)
    requires UniqueProducts(items)
    requires i < |items| && j < |items|
    requires IsSameProduct(items[i], productId) && IsSameProduct(items[j], productId)
    ensures i == j
  {
  }

  // ---------------------------------------------------------------------
  // Item lists
  // ---------------------------------------------------------------------

  /** `containsProduct`. */
  predicate ContainsProduct(items: seq<OrderItem>, productId: ProductId) {
    exists i :: 0 <= i < |items| && IsSameProduct(items[i], productId)
  }

  /** At most one line per product: what `addItem` maintains. */
  predicate UniqueProducts(items: seq<OrderItem>) {
    forall i, j :: 0 <= i < j < |items| ==> items[i].productId != items[j].productId
  }

  /** Quantity of one product over all lines. */
  function OrderedQuantity(items: seq<OrderItem>, productId: ProductId): nat {
    if items == [] then 0
    else (if IsSameProduct(items[0], productId) then items[0].quantity else 0) + OrderedQuantity(items[1..], productId)
  }

  /** The reference total: quantity times unit price, summed line by line. */
  function ItemsCents(items: seq<OrderItem>): nat {
    if items == [] then 0 else items[0].unitPrice.cents * items[0].quantity + ItemsCents(items[1..])
  }

  predicate AllInCurrency(items: seq<OrderItem>, c: Currency) {
    forall i :: 0 <= i < |items| ==> items[i].unitPrice.currency == c
  }

  lemma {:induction false} ItemsCentsAppend(items: seq<OrderItem>, item: OrderItem)
    ensures ItemsCents(items + [item]) == ItemsCents(items) + item.unitPrice.cents * item.quantity
    decreases |items|
  {
    if items == [] {
      assert items + [item] == [item];
    } else {
      assert (items + [item])[1..] == items[1..] + [item];
      ItemsCentsAppend(items[1..], item);
    }
  }

  /** Peeling the last line off a list: the reference total and the
      all-CNY check split accordingly. */
  lemma SplitLast(items: seq<OrderItem>)
    requires items != []
    ensures var init := items[..|items| - 1]; var last := items[|items| - 1];
      && ItemsCents(items) == ItemsCents(init) + Subtotal(last).cents
      && (AllInCurrency(items, CNY) <==> AllInCurrency(init, CNY) && last.unitPrice.currency == CNY)
  {
    var init := items[..|items| - 1];
    var last := items[|items| - 1];
    assert items == init + [last];
    ItemsCentsAppend(init, last);
    if AllInCurrency(init, CNY) && last.unitPrice.currency == CNY {
      forall i | 0 <= i < |items|
        ensures items[i].unitPrice.currency == CNY
      {
        if i < |init| {
          assert items[i] == init[i];
        }
      }
    }
  }

  /** `recalculateTotalAmount`: the subtotals folded left to right with
      `Money.add`, starting from 0 CNY. The fold fails on the first line
      priced in another currency; otherwise it is the reference total. */
  function SumSubtotals(items: seq<OrderItem>): (r: Result<Money>)
    ensures r.Ok? <==> AllInCurrency(items, CNY)
    ensures r.Err? ==> r.kind == Validation
    ensures r.Ok? ==> r.value == Money(ItemsCents(items), CNY)
    decreases |items|
  {
    if items == [] then Ok(Zero(CNY))
    else
      var init := items[..|items| - 1];
      var last := items[|items| - 1];
      SplitLast(items);
      match SumSubtotals(init)
      case Err(k) => Err(k)
      case Ok(acc) => Add(acc, Subtotal(last))
  }

  /** The loop of `addItem` over the existing lines: each line of the same
      product is rebuilt with the call's name and price and the summed
      quantity; the rebuilt line's validation can throw. */
  function ReplaceMatching(items: seq<OrderItem>, productId: ProductId, productName: string, unitPrice: Money, quantity: int): (r: Result<seq<OrderItem>>)
    ensures r.Ok? <==>
      forall i :: 0 <= i < |items| && IsSameProduct(items[i], productId) ==>
        !Blank(productName) && items[i].quantity + quantity > 0
    ensures r.Err? ==> r.kind == Validation
    ensures r.Ok? ==> |r.value| == |items|
    ensures r.Ok? ==> forall i :: 0 <= i < |items| && !IsSameProduct(items[i], productId) ==> r.value[i] == items[i]
    ensures r.Ok? ==> forall i :: 0 <= i < |items| && IsSameProduct(items[i], productId) ==>
      && r.value[i].productId == productId
      && r.value[i].productName == productName
      && r.value[i].unitPrice == unitPrice
      && r.value[i].quantity == items[i].quantity + quantity
    decreases |items|
  {
    if items == [] then Ok([])
    else
      var head :=
        if IsSameProduct(items[0], productId) then NewOrderItem(productId, productName, unitPrice, items[0].quantity + quantity)
        else Ok(items[0]);
      match head
      case Err(k) => Err(k)
      case Ok(h) =>
        match ReplaceMatching(items[1..], productId, productName, unitPrice, quantity)
        case Err(k) =>
          assert forall i :: 1 <= i < |items| ==> items[i] == items[1..][i - 1];
          Err(k)
        case Ok(rest) =>
          assert forall i :: 1 <= i < |items| ==> items[i] == items[1..][i - 1] && ([h] + rest)[i] == rest[i - 1];
          Ok([h] + rest)
  }

  /** The new item list `addItem` builds: matching lines merged in place, or
      one new line appended when none matched. */
  function MergeItems(items: seq<OrderItem>, productId: ProductId, productName: string, unitPrice: Money, quantity: int): (r: Result<seq<OrderItem>>)
    ensures r.Ok? <==>
      && ReplaceMatching(items, productId, productName, unitPrice, quantity).Ok?
      && (ContainsProduct(items, productId) || (!Blank(productName) && quantity > 0))
    ensures r.Err? ==> r.kind == Validation
    ensures r.Ok? && ContainsProduct(items, productId) ==>
      r.value == ReplaceMatching(items, productId, productName, unitPrice, quantity).value
    ensures r.Ok? && !ContainsProduct(items, productId) ==>
      r.value == items + [OrderItem(productId, productName, unitPrice, quantity)]
  {
    match ReplaceMatching(items, productId, productName, unitPrice, quantity)
    case Err(k) => Err(k)
    case Ok(replaced) =>
      if ContainsProduct(items, productId) then Ok(replaced)
      else
        assert replaced == items;
        match NewOrderItem(productId, productName, unitPrice, quantity)
        case Err(k) => Err(k)
        case Ok(item) => Ok(replaced + [item])
  }

  /** `removeItem`'s `removeIf`: every line of the product is dropped, the
      others keep their order. */
  function RemoveProduct(items: seq<OrderItem>, productId: ProductId): (r: seq<OrderItem>)
    ensures forall i :: 0 <= i < |r| ==> !IsSameProduct(r[i], productId)
    ensures |r| <= |items|
    ensures |r| == |items| <==> !ContainsProduct(items, productId)
    decreases |items|
  {
    if items == [] then []
    else
      var rest := RemoveProduct(items[1..], productId);
      if IsSameProduct(items[0], productId) then
        ContainsProductIndex(items, productId, 0);
        rest
      else
        assert ContainsProduct(items[1..], productId) <==> ContainsProduct(items, productId) by {
          ContainsProductTail(items, productId);
        }
        assert forall i :: 1 <= i < |rest| + 1 ==> ([items[0]] + rest)[i] == rest[i - 1];
        [items[0]] + rest
  }

  /** For a list whose first line is another product, the product occurs in
      the list exactly when it occurs in the tail. */
  lemma ContainsProductTail(items: seq<OrderItem>, productId: ProductId)
    requires items != [] && !IsSameProduct(items[0], productId)
    ensures ContainsProduct(items[1..], productId) <==> ContainsProduct(items, productId)
  {
    if ContainsProduct(items[1..], productId) {
      var i :| 0 <= i < |items[1..]| && IsSameProduct(items[1..][i], productId);
      assert items[i + 1] == items[1..][i];
    }
    if ContainsProduct(items, productId) {
      var i :| 0 <= i < |items| && IsSameProduct(items[i], productId);
      assert items[1..][i - 1] == items[i];
    }
  }

  /** The lines kept are exactly the lines of other products. */
  lemma {:induction false} RemoveProductMembers(items: seq<OrderItem>, productId: ProductId, x: OrderItem)
    ensures x in RemoveProduct(items, productId) <==> x in items && !IsSameProduct(x, productId)
    decreases |items|
  {
    if items != [] {
      RemoveProductMembers(items[1..], productId, x);
      assert x in items <==> x == items[0] || x in items[1..];
    }
  }

  // ---------------------------------------------------------------------
  // Order
  // ---------------------------------------------------------------------

  datatype Order = Order(
    id: OrderId,
    customerId: CustomerId,
    items: seq<OrderItem>,
    status: OrderStatus,
    total: Money)

  /** The total is the recomputed sum of the lines. True after creation and
      after every successful `addItem`/`removeItem`; a discount breaks it. */
  predicate TotalMatchesItems(o: Order) {
    SumSubtotals(o.items) == Ok(o.total)
  }

  /** `Order.create`: pending, no lines, zero CNY total. */
  function Create(id: OrderId, customerId: CustomerId): (o: Order)
    ensures o.id == id && o.customerId == customerId
    ensures o.status == Pending && o.items == []
    ensures IsZero(o.total) && o.total.currency == CNY
    ensures TotalMatchesItems(o) && UniqueProducts(o.items)
  {
    Order(id, customerId, [], Pending, Zero(CNY))
  }

  /** `addItem`. Refused unless pending. The merged list is built first (its
      line validation can throw, leaving the order as it was); it then
      replaces the lines and the total is recomputed, which throws, with the
      new lines already in place, when a line is not priced in CNY. */
  function AddItem(o: Order, productId: ProductId, productName: string, unitPrice: Money, quantity: int): (r: Outcome<Order>)
    ensures o.status != Pending ==> r == Threw(BusinessRule, o)
    ensures r.Returned? ==> TotalMatchesItems(r.state)
    ensures r.Returned? <==>
      && o.status == Pending
      && MergeItems(o.items, productId, productName, unitPrice, quantity).Ok?
      && AllInCurrency(MergeItems(o.items, productId, productName, unitPrice, quantity).value, CNY)
    ensures r.state.items != o.items ==>
      && MergeItems(o.items, productId, productName, unitPrice, quantity).Ok?
      && r.state.items == MergeItems(o.items, productId, productName, unitPrice, quantity).value
    ensures r.state == o.(items := r.state.items, total := r.state.total)
    ensures r.Threw? ==> r.state.total == o.total
    ensures r.Threw? && r.state != o ==> r.kind == Validation && !AllInCurrency(r.state.items, CNY)
    ensures o.status == Pending && MergeItems(o.items, productId, productName, unitPrice, quantity).Ok? ==>
      r.state.items == MergeItems(o.items, productId, productName, unitPrice, quantity).value
    ensures o.status == Pending && MergeItems(o.items, productId, productName, unitPrice, quantity).Err? ==>
      r == Threw(Validation, o)
  {
    if o.status != Pending then Threw(BusinessRule, o)
    else match MergeItems(o.items, productId, productName, unitPrice, quantity)
      case Err(k) => Threw(k, o)
      case Ok(merged) =>
        var replaced := o.(items := merged);
        match SumSubtotals(merged)
        case Err(k) => Threw(k, replaced)
        case Ok(total) => Returned(replaced.(total := total))
  }

  /** `removeItem`. Refused unless pending, and refused when no line holds
      the product. The filtered lines replace the old ones before the total
      is recomputed, as in `addItem`. */
  function RemoveItem(o: Order, productId: ProductId): (r: Outcome<Order>)
    ensures o.status != Pending ==> r == Threw(BusinessRule, o)
    ensures o.status == Pending && !ContainsProduct(o.items, productId) ==> r == Threw(BusinessRule, o)
    ensures r.Returned? <==>
      o.status == Pending && ContainsProduct(o.items, productId) && AllInCurrency(RemoveProduct(o.items, productId), CNY)
    ensures r.Returned? ==> TotalMatchesItems(r.state) && r.state.items == RemoveProduct(o.items, productId)
    ensures r.Returned? ==> !ContainsProduct(r.state.items, productId)
    ensures r.state == o.(items := r.state.items, total := r.state.total)
    ensures r.Threw? ==> r.state.total == o.total
    ensures r.Threw? && r.state != o ==> r.kind == Validation && !AllInCurrency(r.state.items, CNY)
    ensures o.status == Pending && ContainsProduct(o.items, productId) ==>
      r.state.items == RemoveProduct(o.items, productId)
  {
    if o.status != Pending then Threw(BusinessRule, o)
    else
      var remaining := RemoveProduct(o.items, productId);
      if |remaining| == |o.items| then Threw(BusinessRule, o)
      else
        var replaced := o.(items := remaining);
        assert !ContainsProduct(remaining, productId);
        match SumSubtotals(remaining)
        case Err(k) => Threw(k, replaced)
        case Ok(total) => Returned(replaced.(total := total))
  }

  /** `pay`: pending to paid, only with at least one line. The total is not
      checked here. */
  function Pay(o: Order): (r: Outcome<Order>)
    ensures r.Returned? <==> o.status == Pending && o.items != []
    ensures r.Returned? ==> r.state == o.(status := Paid)
    ensures r.Threw? ==> r == Threw(BusinessRule, o)
  {
    if o.status != Pending then Threw(BusinessRule, o)
    else if o.items == [] then Threw(BusinessRule, o)
    else Returned(o.(status := Paid))
  }

  /** `ship`: paid to shipped. */
  function Ship(o: Order): (r: Outcome<Order>)
    ensures r.Returned? <==> o.status == Paid
    ensures r.Returned? ==> r.state == o.(status := Shipped)
    ensures r.Threw? ==> r == Threw(BusinessRule, o)
  {
    if !CanBeShipped(o.status) then Threw(BusinessRule, o)
    else Returned(o.(status := Shipped))
  }

  /** `deliver`: shipped to delivered. */
  function Deliver(o: Order): (r: Outcome<Order>)
    ensures r.Returned? <==> o.status == Shipped
    ensures r.Returned? ==> r.state == o.(status := Delivered)
    ensures r.Threw? ==> r == Threw(BusinessRule, o)
  {
    if o.status != Shipped then Threw(BusinessRule, o)
    else Returned(o.(status := Delivered))
  }

  /** `cancel`: pending or paid to cancelled. */
  function Cancel(o: Order): (r: Outcome<Order>)
    ensures r.Returned? <==> o.status == Pending || o.status == Paid
    ensures r.Returned? ==> r.state == o.(status := Cancelled)
    ensures r.Threw? ==> r == Threw(BusinessRule, o)
  {
    if !CanBeCancelled(o.status) then Threw(BusinessRule, o)
    else Returned(o.(status := Cancelled))
  }

  /** `refund`: paid, shipped or delivered to refunded. */
  function Refund(o: Order): (r: Outcome<Order>)
    ensures r.Returned? <==> o.status == Paid || o.status == Shipped || o.status == Delivered
    ensures r.Returned? ==> r.state == o.(status := Refunded)
    ensures r.Threw? ==> r == Threw(BusinessRule, o)
  {
    if !CanBeRefunded(o.status) then Threw(BusinessRule, o)
    else Returned(o.(status := Refunded))
  }

  /** A discount rate lies in [0, 1]. */
  predicate IsRate(rate: Decimal) {
    0 <= rate.unscaled <= Pow10(rate.scale)
  }

  /** `applyDiscount`: refused unless pending (business rule) and for a rate
      outside [0, 1] (validation). The total becomes the total minus the
      half-up rounded `total × rate`; the lines are not consulted, so a
      second call discounts the already discounted total. */
  function ApplyDiscount(o: Order, rate: Decimal): (r: Outcome<Order>)
    ensures o.status != Pending ==> r == Threw(BusinessRule, o)
    ensures o.status == Pending && !IsRate(rate) ==> r == Threw(Validation, o)
    ensures r.Returned? <==> o.status == Pending && IsRate(rate)
    ensures r.Threw? ==> r.state == o
    ensures r.Returned? ==>
      && r.state == o.(total := r.state.total)
      && r.state.total.currency == o.total.currency
      && r.state.total.cents <= o.total.cents
      && r.state.total.cents == o.total.cents - HalfUp(o.total.cents * rate.unscaled, Pow10(rate.scale))
  {
    if o.status != Pending then Threw(BusinessRule, o)
    else if rate.unscaled < 0 || rate.unscaled > Pow10(rate.scale) then Threw(Validation, o)
    else
      MultiplyByFractionAtMost(o.total, rate);
      match Multiply(o.total, rate)
      case Err(k) => Threw(k, o)
      case Ok(discount) =>
        match Subtract(o.total, discount)
        case Err(k) => Threw(k, o)
        case Ok(t) => Returned(o.(total := t))
  }

  /** Rate 0 changes nothing; rate 1 brings the total to zero. */
  lemma DiscountBounds(o: Order)
    requires o.status == Pending
    ensures ApplyDiscount(o, Decimal(0, 0)) == Returned(o)
    ensures ApplyDiscount(o, Decimal(1, 0)).Returned? && IsZero(ApplyDiscount(o, Decimal(1, 0)).state.total)
  {
    HalfUpExact(0, 1);
    HalfUpExact(o.total.cents, 1);
  }

  /** Discounts compound: 10% off 100.00 gives 90.00, and 10% again gives
      81.00, not 90.00. */
  lemma DiscountCompounds(o: Order)
    requires o.status == Pending && o.total == Money(10000, CNY)
    ensures ApplyDiscount(o, Decimal(10, 2)).state.total == Money(9000, CNY)
    ensures ApplyDiscount(ApplyDiscount(o, Decimal(10, 2)).state, Decimal(10, 2)).state.total == Money(8100, CNY)
  {
    assert Pow10(2) == 100;
    HalfUpExact(1000, 100);
    HalfUpExact(900, 100);
    assert 10000 * 10 == 1000 * 100;
    assert 9000 * 10 == 900 * 100;
  }

  /** `getItemCount`. */
  function ItemCount(o: Order): nat {
    |o.items|
  }

  // ---------------------------------------------------------------------
  // Properties of the item-list operations
  // ---------------------------------------------------------------------

  lemma {:induction false} ContainsProductIndex(items: seq<OrderItem>, productId: ProductId, k: int)
    requires 0 <= k < |items| && IsSameProduct(items[k], productId)
    ensures ContainsProduct(items, productId)
  {
  }

  /** Merging keeps at most one line per product. When the product already
      has a line, that line (and only it) is rebuilt in place with the
      summed quantity and the call's name and price; otherwise a new line is
      appended and every old line keeps its position. */
  lemma MergeItemsShape(items: seq<OrderItem>, productId: ProductId, productName: string, unitPrice: Money, quantity: int)
    requires UniqueProducts(items)
    requires MergeItems(items, productId, productName, unitPrice, quantity).Ok?
    ensures var merged := MergeItems(items, productId, productName, unitPrice, quantity).value;
      && UniqueProducts(merged)
      && ContainsProduct(merged, productId)
      && (ContainsProduct(items, productId) ==>
            |merged| == |items|
            && forall i :: 0 <= i < |items| ==>
                 if IsSameProduct(items[i], productId)
                 then merged[i] == items[i].(productName := productName, unitPrice := unitPrice, quantity := merged[i].quantity)
                      && merged[i].quantity == items[i].quantity + quantity
                 else merged[i] == items[i])
      && (!ContainsProduct(items, productId) ==>
            quantity > 0 && merged == items + [OrderItem(productId, productName, unitPrice, quantity)])
  {
    var merged := MergeItems(items, productId, productName, unitPrice, quantity).value;
    var replaced := ReplaceMatching(items, productId, productName, unitPrice, quantity).value;
    if ContainsProduct(items, productId) {
      var k :| 0 <= k < |items| && IsSameProduct(items[k], productId);
      assert IsSameProduct(merged[k], productId);
    } else {
      assert replaced == items;
      assert IsSameProduct(merged[|items|], productId);
    }
  }

  /** With one line per product, removing a contained product drops exactly
      its line: the list shrinks by one and keeps every other line in order. */
  lemma {:induction false} RemoveProductShape(items: seq<OrderItem>, productId: ProductId, k: int)
    requires UniqueProducts(items)
    requires 0 <= k < |items| && IsSameProduct(items[k], productId)
    ensures RemoveProduct(items, productId) == items[..k] + items[k + 1..]
    ensures |RemoveProduct(items, productId)| == |items| - 1
    decreases |items|
  {
    if k == 0 {
      RemoveFirstLine(items, productId);
    } else {
      var rest := items[1..];
      assert !IsSameProduct(items[0], productId);
      TailKeepsUnique(items);
      assert rest[k - 1] == items[k];
      RemoveProductShape(rest, productId, k - 1);
      assert RemoveProduct(items, productId) == [items[0]] + RemoveProduct(rest, productId);
      assert rest[..k - 1] == items[1..k];
      assert rest[k..] == items[k + 1..];
      assert [items[0]] + (items[1..k] + items[k + 1..]) == items[..k] + items[k + 1..];
    }
  }

  /** With one line per product, removing the first line's product drops
      just that line. */
  lemma RemoveFirstLine(items: seq<OrderItem>, productId: ProductId)
    requires UniqueProducts(items)
    requires 0 < |items| && IsSameProduct(items[0], productId)
    ensures RemoveProduct(items, productId) == items[1..]
  {
    var rest := items[1..];
    forall i | 0 <= i < |rest|
      ensures !IsSameProduct(rest[i], productId)
    {
      assert rest[i] == items[i + 1];
    }
    RemoveAbsent(rest, productId);
  }

  /** Dropping the first line keeps one line per product. */
  lemma TailKeepsUnique(items: seq<OrderItem>)
    requires UniqueProducts(items) && items != []
    ensures UniqueProducts(items[1..])
  {
    var rest := items[1..];
    forall i, j | 0 <= i < j < |rest|
      ensures rest[i].productId != rest[j].productId
    {
      assert rest[i] == items[i + 1] && rest[j] == items[j + 1];
    }
  }

  /** Removing a product that has no line changes nothing. */
  lemma {:induction false} RemoveAbsent(items: seq<OrderItem>, productId: ProductId)
    requires forall i :: 0 <= i < |items| ==> !IsSameProduct(items[i], productId)
    ensures RemoveProduct(items, productId) == items
    decreases |items|
  {
    if items != [] {
      RemoveAbsent(items[1..], productId);
    }
  }

  /** Removing lines keeps one line per product. */
  lemma RemoveKeepsUnique(items: seq<OrderItem>, productId: ProductId, k: int)
    requires UniqueProducts(items)
    requires 0 <= k < |items| && IsSameProduct(items[k], productId)
    ensures UniqueProducts(RemoveProduct(items, productId))
  {
    RemoveProductShape(items, productId, k);
    var r := items[..k] + items[k + 1..];
    forall i, j | 0 <= i < j < |r|
      ensures r[i].productId != r[j].productId
    {
      var i' := if i < k then i else i + 1;
      var j' := if j < k then j else j + 1;
      assert r[i] == items[i'] && r[j] == items[j'];
    }
  }

  /** OrderedQuantity over a list split at one index. */
  lemma {:induction false} OrderedQuantitySplit(items: seq<OrderItem>, productId: ProductId, k: int)
    requires 0 <= k < |items|
    ensures OrderedQuantity(items, productId)
      == OrderedQuantity(items[..k], productId)
       + (if IsSameProduct(items[k], productId) then items[k].quantity else 0)
       + OrderedQuantity(items[k + 1..], productId)
    decreases k
  {
    if k > 0 {
      OrderedQuantitySplit(items[1..], productId, k - 1);
      assert items[1..][..k - 1] == items[..k][1..];
      assert items[1..][k..] == items[k + 1..];
    } else {
      assert items[..0] == [];
    }
  }

  lemma {:induction false} OrderedQuantityAbsent(items: seq<OrderItem>, productId: ProductId)
    requires forall i :: 0 <= i < |items| ==> !IsSameProduct(items[i], productId)
    ensures OrderedQuantity(items, productId) == 0
    decreases |items|
  {
    if items != [] {
      OrderedQuantityAbsent(items[1..], productId);
    }
  }

  lemma {:induction false} OrderedQuantityAppend(items: seq<OrderItem>, item: OrderItem, productId: ProductId)
    ensures OrderedQuantity(items + [item], productId)
      == OrderedQuantity(items, productId) + (if IsSameProduct(item, productId) then item.quantity else 0)
    decreases |items|
  {
    if items == [] {
      assert items + [item] == [item];
    } else {
      assert (items + [item])[1..] == items[1..] + [item];
      OrderedQuantityAppend(items[1..], item, productId);
    }
  }

  /** Merging into an existing line raises the product's ordered quantity by
      exactly the merged quantity. */
  lemma MergeExistingAddsQuantity(items: seq<OrderItem>, productId: ProductId, productName: string, unitPrice: Money, quantity: int, k: int)
    requires UniqueProducts(items)
    requires 0 <= k < |items| && IsSameProduct(items[k], productId)
    requires ReplaceMatching(items, productId, productName, unitPrice, quantity).Ok?
    ensures OrderedQuantity(ReplaceMatching(items, productId, productName, unitPrice, quantity).value, productId)
         == OrderedQuantity(items, productId) + quantity
  {
    var merged := ReplaceMatching(items, productId, productName, unitPrice, quantity).value;
    assert forall i :: 0 <= i < |items| && i != k ==> !IsSameProduct(items[i], productId);
    OrderedQuantitySplit(items, productId, k);
    OrderedQuantitySplit(merged, productId, k);
    assert merged[..k] == items[..k];
    assert merged[k + 1..] == items[k + 1..];
    OrderedQuantityAbsent(items[..k], productId);
    OrderedQuantityAbsent(items[k + 1..], productId);
  }

  /** A successful merge raises the product's ordered quantity by exactly
      the call's quantity. */
  lemma MergeAddsQuantity(items: seq<OrderItem>, productId: ProductId, productName: string, unitPrice: Money, quantity: int)
    requires UniqueProducts(items)
    requires MergeItems(items, productId, productName, unitPrice, quantity).Ok?
    ensures OrderedQuantity(MergeItems(items, productId, productName, unitPrice, quantity).value, productId)
         == OrderedQuantity(items, productId) + quantity
  {
    if ContainsProduct(items, productId) {
      var k :| 0 <= k < |items| && IsSameProduct(items[k], productId);
      MergeExistingAddsQuantity(items, productId, productName, unitPrice, quantity, k);
    } else {
      var merged := MergeItems(items, productId, productName, unitPrice, quantity).value;
      var replaced := ReplaceMatching(items, productId, productName, unitPrice, quantity).value;
      assert replaced == items;
      OrderedQuantityAbsent(items, productId);
      OrderedQuantityAppend(items, merged[|items|], productId);
    }
  }

  /** `addItem` keeps one line per product, whether it returns or throws
      after replacing the lines. */
  lemma AddItemKeepsOneLinePerProduct(o: Order, productId: ProductId, productName: string, unitPrice: Money, quantity: int)
    requires UniqueProducts(o.items)
    ensures UniqueProducts(AddItem(o, productId, productName, unitPrice, quantity).state.items)
  {
    var r := AddItem(o, productId, productName, unitPrice, quantity);
    if r.state.items != o.items {
      MergeItemsShape(o.items, productId, productName, unitPrice, quantity);
    }
  }

  /** `removeItem` keeps one line per product and drops exactly one line. */
  lemma RemoveItemDropsOneLine(o: Order, productId: ProductId)
    requires UniqueProducts(o.items)
    requires RemoveItem(o, productId).Returned?
    ensures UniqueProducts(RemoveItem(o, productId).state.items)
    ensures |RemoveItem(o, productId).state.items| == |o.items| - 1
  {
    var k :| 0 <= k < |o.items| && IsSameProduct(o.items[k], productId);
    RemoveKeepsUnique(o.items, productId, k);
    RemoveProductShape(o.items, productId, k);
  }

  /** The units over all lines. Every line holds at least one unit, so the
      sum is at least the number of lines, and zero only for no lines. */
  function TotalQuantity(items: seq<OrderItem>): (n: nat)
    ensures n >= |items|
    ensures n == 0 <==> items == []
    decreases |items|
  {
    if items == [] then 0
    else items[0].quantity + TotalQuantity(items[1..])
  }

  /** `getTotalQuantity`. */
  function GetTotalQuantity(o: Order): (n: nat)
    ensures n >= ItemCount(o)
    ensures n == 0 <==> ItemCount(o) == 0
  {
    TotalQuantity(o.items)
  }

  lemma {:induction false} TotalQuantityConcat(a: seq<OrderItem>, b: seq<OrderItem>)
    ensures TotalQuantity(a + b) == TotalQuantity(a) + TotalQuantity(b)
    decreases |a|
  {
    if a == [] {
      assert a + b == b;
    } else {
      assert (a + b)[1..] == a[1..] + b;
      TotalQuantityConcat(a[1..], b);
    }
  }

  /** The total splits around any line. */
  lemma {:induction false} TotalQuantitySplit(items: seq<OrderItem>, k: int)
    requires 0 <= k < |items|
    ensures TotalQuantity(items) == TotalQuantity(items[..k]) + items[k].quantity + TotalQuantity(items[k + 1..])
    decreases k
  {
    if k > 0 {
      TotalQuantitySplit(items[1..], k - 1);
      assert items[1..][..k - 1] == items[..k][1..];
      assert items[1..][k..] == items[k + 1..];
    } else {
      assert items[..0] == [];
    }
  }

  /** With one line per product, the product's ordered quantity is the
      quantity of its one line. */
  lemma OrderedQuantityOfLine(items: seq<OrderItem>, productId: ProductId, k: int)
    requires UniqueProducts(items)
    requires 0 <= k < |items| && IsSameProduct(items[k], productId)
    ensures OrderedQuantity(items, productId) == items[k].quantity
  {
    assert forall i :: 0 <= i < |items| && i != k ==> !IsSameProduct(items[i], productId);
    OrderedQuantitySplit(items, productId, k);
    OrderedQuantityAbsent(items[..k], productId);
    OrderedQuantityAbsent(items[k + 1..], productId);
  }

  /** `containsProduct` holds exactly when some unit of the product is
      ordered. */
  lemma {:induction false} ContainsProductIffOrdered(items: seq<OrderItem>, productId: ProductId)
    ensures ContainsProduct(items, productId) <==> OrderedQuantity(items, productId) > 0
    decreases |items|
  {
    if items != [] {
      if IsSameProduct(items[0], productId) {
        ContainsProductIndex(items, productId, 0);
      } else {
        ContainsProductTail(items, productId);
        ContainsProductIffOrdered(items[1..], productId);
      }
    }
  }

  /** Rebuilding the one line of a product adds exactly the merged quantity
      to the total. */
  lemma ReplaceAddsTotalQuantity(items: seq<OrderItem>, productId: ProductId, productName: string, unitPrice: Money, quantity: int, k: int)
    requires UniqueProducts(items)
    requires 0 <= k < |items| && IsSameProduct(items[k], productId)
    requires ReplaceMatching(items, productId, productName, unitPrice, quantity).Ok?
    ensures TotalQuantity(ReplaceMatching(items, productId, productName, unitPrice, quantity).value)
         == TotalQuantity(items) + quantity
  {
    var replaced := ReplaceMatching(items, productId, productName, unitPrice, quantity).value;
    assert forall i :: 0 <= i < |items| && i != k ==> !IsSameProduct(items[i], productId);
    TotalQuantitySplit(items, k);
    TotalQuantitySplit(replaced, k);
    assert replaced[..k] == items[..k];
    assert replaced[k + 1..] == items[k + 1..];
  }

  /** A successful merge adds exactly the call's quantity to the total, and
      adds a line exactly when the product was not yet in the list. */
  lemma MergeAddsTotalQuantity(items: seq<OrderItem>, productId: ProductId, productName: string, unitPrice: Money, quantity: int)
    requires UniqueProducts(items)
    requires MergeItems(items, productId, productName, unitPrice, quantity).Ok?
    ensures var merged := MergeItems(items, productId, productName, unitPrice, quantity).value;
      && TotalQuantity(merged) == TotalQuantity(items) + quantity
      && |merged| == |items| + (if ContainsProduct(items, productId) then 0 else 1)
  {
    var merged := MergeItems(items, productId, productName, unitPrice, quantity).value;
    if ContainsProduct(items, productId) {
      var k :| 0 <= k < |items| && IsSameProduct(items[k], productId);
      ReplaceAddsTotalQuantity(items, productId, productName, unitPrice, quantity, k);
    } else {
      TotalQuantityConcat(items, [merged[|items|]]);
    }
  }

  /** A returned `addItem` raises `getTotalQuantity` by exactly the call's
      quantity, and `getItemCount` by one exactly when the product is new
      to the order. */
  lemma AddItemChangesTotals(o: Order, productId: ProductId, productName: string, unitPrice: Money, quantity: int)
    requires UniqueProducts(o.items)
    requires AddItem(o, productId, productName, unitPrice, quantity).Returned?
    ensures var after := AddItem(o, productId, productName, unitPrice, quantity).state;
      && GetTotalQuantity(after) == GetTotalQuantity(o) + quantity
      && ItemCount(after) == ItemCount(o) + (if ContainsProduct(o.items, productId) then 0 else 1)
  {
    MergeAddsTotalQuantity(o.items, productId, productName, unitPrice, quantity);
  }

  /** A returned `removeItem` lowers `getTotalQuantity` by the product's
      ordered quantity and `getItemCount` by one. */
  lemma RemoveItemChangesTotals(o: Order, productId: ProductId)
    requires UniqueProducts(o.items)
    requires RemoveItem(o, productId).Returned?
    ensures var after := RemoveItem(o, productId).state;
      && GetTotalQuantity(after) == GetTotalQuantity(o) - OrderedQuantity(o.items, productId)
      && ItemCount(after) == ItemCount(o) - 1
  {
    var k :| 0 <= k < |o.items| && IsSameProduct(o.items[k], productId);
    RemoveProductShape(o.items, productId, k);
    OrderedQuantityOfLine(o.items, productId, k);
    TotalQuantitySplit(o.items, k);
    TotalQuantityConcat(o.items[..k], o.items[k + 1..]);
  }

  // ---------------------------------------------------------------------
  // The lifecycle as a transition table
  // ---------------------------------------------------------------------

  datatype Action = PayAction | ShipAction | DeliverAction | CancelAction | RefundAction

  /** The order lifecycle as a table: the status each action leads to from
      each status, or None where the action is not allowed. */
  function Transition(from: OrderStatus, a: Action): Option<OrderStatus> {
    match (from, a)
    case (Pending, PayAction) => Some(Paid)
    case (Pending, CancelAction) => Some(Cancelled)
    case (Paid, CancelAction) => Some(Cancelled)
    case (Paid, ShipAction) => Some(Shipped)
    case (Shipped, DeliverAction) => Some(Delivered)
    case (Paid, RefundAction) => Some(Refunded)
    case (Shipped, RefundAction) => Some(Refunded)
    case (Delivered, RefundAction) => Some(Refunded)
    case _ => None
  }

  /** Dispatches an action to the aggregate's status method. */
  function Perform(o: Order, a: Action): Outcome<Order> {
    match a
    case PayAction => Pay(o)
    case ShipAction => Ship(o)
    case DeliverAction => Deliver(o)
    case CancelAction => Cancel(o)
    case RefundAction => Refund(o)
  }

  /** The status methods implement exactly the table (payment additionally
      needs a line); a refused action throws a business-rule error and
      changes nothing; an allowed one changes only the status. */
  lemma LifecycleFollowsTable(o: Order, a: Action)
    ensures Perform(o, a).Returned? <==> Transition(o.status, a).Some? && (a == PayAction ==> o.items != [])
    ensures Perform(o, a).Returned? ==> Perform(o, a).state == o.(status := Transition(o.status, a).value)
    ensures Perform(o, a).Threw? ==> Perform(o, a) == Threw(BusinessRule, o)
  {
  }

  /** Nothing leaves CANCELLED or REFUNDED: every operation of the aggregate
      throws a business-rule error and leaves the order as it was. */
  lemma ClosedOrdersAreFinal(o: Order, a: Action, productId: ProductId, productName: string, unitPrice: Money, quantity: int, rate: Decimal)
    requires o.status == Cancelled || o.status == Refunded
    ensures Perform(o, a) == Threw(BusinessRule, o)
    ensures AddItem(o, productId, productName, unitPrice, quantity) == Threw(BusinessRule, o)
    ensures RemoveItem(o, productId) == Threw(BusinessRule, o)
    ensures ApplyDiscount(o, rate) == Threw(BusinessRule, o)
  {
  }
}
