# Order-processing domain kernel, in Dafny

A model of the domain kernel of the `ddd` e-commerce example: the Money and
Email value objects, the Order, Product and Customer aggregates with their
status enums, the order domain service (stock reservation, discount rate,
payment check), the order and customer application services, and the
command records that guard the services' inputs.

Every Java method that either returns or throws becomes a pure function:

- value objects, factories and transactional services return
  `Result<T> = Ok(value) | Err(kind)`;
- aggregate mutators return `Outcome<T> = Returned(state) | Threw(kind, state)`,
  the aggregate's state once the call is over, so that a call which changes
  the aggregate and then throws (`addItem` replacing the lines before the
  total is recomputed) is modelled as it happens;
- checks that mutate nothing return `Verdict = Pass | Fail(kind)`.

The error kind is `Validation` for `IllegalArgumentException` and
`BusinessRule` for `BusinessRuleException`. Money is a natural number of
cents plus a currency code; a `BigDecimal` argument is
`Decimal(unscaled, scale)`, and half-up rounding is the integer that
`(2r - 1)·d <= 2n < (2r + 1)·d` characterises. The repositories are maps,
gathered in one `Store`. Each application-service call returns a new store
or an error, and an error leaves the store as it was, because both service
classes are `@Transactional`.

Modules, one per file: `Shared` (error kinds, result shapes, Java's
blank/trim/upper-case), `ValueObjects` (Money, Email), `Orders`,
`Products`, `Customers`, `DomainService`, `Commands`, `Repositories`,
`OrderService`, `CustomerService`.

Behaviour of the source worth noting:

- `Order.pay` only checks PENDING and a non-empty item list. It does not
  check that the total is positive. A zero total is refused earlier, by
  `validateOrderForPayment`.
- `addItem` rebuilds a merged line with the latest call's name and price.
- The name and description limits count `String.length()`, which is in
  UTF-16 code units: a character above U+FFFF counts twice
  (`Shared.Utf16Length`), so 51 such characters exceed the 100-unit product
  name limit.
- `OrderDomainService.addProductToOrder` does not check the quantity. The
  model keeps that path: a non-positive quantity passes the stock check, can
  merge into the order's line, and is only refused by `reduceStock`
  (`DomainService.NonPositiveQuantityIsRefusedLate`). The command's guard is
  what keeps it out of the service
  (`OrderService.AcceptedCommandReachesDomainRules`).

## Model

| member | source | states |
|---|---|---|
| ValueObjects.NewMoney | ddd/src/main/java/cn/zm/ddd/shared/valueobject/Money.java:18-34 | a missing or negative amount or a missing currency is a validation error; otherwise the stored cents are the amount ×100 rounded half-up, bracketed by `(2c-1)·10^scale <= 200·unscaled < (2c+1)·10^scale` |
| ValueObjects.NewMoneyExact | ddd/src/main/java/cn/zm/ddd/shared/valueobject/Money.java:18-34 | an amount with at most two decimals is stored exactly |
| ValueObjects.HalfUpRoundsTiesUp | ddd/src/main/java/cn/zm/ddd/shared/valueobject/Money.java:33 | half-up rounding sends an exact tie to the larger neighbour |
| ValueObjects.Cny | ddd/src/main/java/cn/zm/ddd/shared/valueobject/Money.java:39-41 | succeeds exactly for a non-negative amount, in CNY |
| ValueObjects.Usd | ddd/src/main/java/cn/zm/ddd/shared/valueobject/Money.java:46-48 | succeeds exactly for a non-negative amount, in USD |
| ValueObjects.Zero | ddd/src/main/java/cn/zm/ddd/shared/valueobject/Money.java:53-55 | the zero amount is what the constructor builds from 0, and it is zero |
| ValueObjects.Add | ddd/src/main/java/cn/zm/ddd/shared/valueobject/Money.java:60-65 | fails exactly when the currencies differ; otherwise the cents add up and the currency is kept |
| ValueObjects.AddCommutes | ddd/src/main/java/cn/zm/ddd/shared/valueobject/Money.java:60-65 | addition commutes, including its failure |
| ValueObjects.Subtract | ddd/src/main/java/cn/zm/ddd/shared/valueobject/Money.java:70-75 | fails when the currencies differ or the result would be negative; otherwise the difference is exact |
| ValueObjects.SubtractUndoesAdd | ddd/src/main/java/cn/zm/ddd/shared/valueobject/Money.java:60-75 | subtracting what was added gives the original back |
| ValueObjects.AddUndoesSubtract | ddd/src/main/java/cn/zm/ddd/shared/valueobject/Money.java:60-75 | adding back what was subtracted gives the original back |
| ValueObjects.Multiply | ddd/src/main/java/cn/zm/ddd/shared/valueobject/Money.java:80-82 | no currency check; fails exactly when the exact product is negative (a non-zero amount and a negative factor); otherwise the product rounded half-up to cents, in the same currency |
| ValueObjects.MultiplyByCount | ddd/src/main/java/cn/zm/ddd/shared/valueobject/Money.java:80-82 | multiplying by a whole count is exact |
| ValueObjects.MultiplyByFractionAtMost | ddd/src/main/java/cn/zm/ddd/shared/valueobject/Money.java:80-82 | multiplying by a rate in [0, 1] succeeds and never increases the amount |
| ValueObjects.HalfUpMonotone | ddd/src/main/java/cn/zm/ddd/shared/valueobject/Money.java:33 | rounding is monotone in the amount |
| ValueObjects.IsGreaterThan | ddd/src/main/java/cn/zm/ddd/shared/valueobject/Money.java:87-92 | fails exactly when the currencies differ; otherwise true iff the first has more cents |
| ValueObjects.IsGreaterThanIsStrictOrder | ddd/src/main/java/cn/zm/ddd/shared/valueobject/Money.java:87-92 | within one currency the comparison is irreflexive, asymmetric and transitive |
| ValueObjects.IsValidEmailMatchesPattern | ddd/src/main/java/cn/zm/ddd/shared/valueobject/Email.java:30-32 | the hand-coded matcher (first '@', last '.') accepts exactly the strings the regular expression matches, stated as the existence of a split |
| ValueObjects.NewEmail | ddd/src/main/java/cn/zm/ddd/shared/valueobject/Email.java:16-25 | accepts exactly the strings matching the pattern, which are never blank; otherwise a validation error |
| ValueObjects.EmailParts | ddd/src/main/java/cn/zm/ddd/shared/valueobject/Email.java:37-46 | local part + "@" + domain rebuilds the address; both parts are non-empty; there is exactly one '@'; the domain ends with a dot and at least two letters |
| ValueObjects.IndexOf | ddd/src/main/java/cn/zm/ddd/shared/valueobject/Email.java:37-46 | `indexOf`: the position of the first occurrence, or none when the character is absent |
| Shared.TrimProperties | ddd/src/main/java/cn/zm/ddd/domain/model/product/Product.java:152-162 | Java's `trim` keeps a slice of the input that starts and ends with a non-space, and is empty exactly for a blank input |
| Shared.TrimIdempotent | ddd/src/main/java/cn/zm/ddd/domain/model/product/Product.java:152-162 | trimming twice is trimming once |
| Shared.ToUpper | ddd/src/main/java/cn/zm/ddd/application/command/CreateCustomerCommand.java:45-47 | upper-casing keeps the length and maps each ASCII lower-case letter to its capital |
| Orders.StatusDescriptionsDistinct | ddd/src/main/java/cn/zm/ddd/domain/model/order/OrderStatus.java:9-24 | `getDescription` gives each of the six statuses a non-empty label, and no two statuses share one |
| Orders.StatusGuards | ddd/src/main/java/cn/zm/ddd/domain/model/order/OrderStatus.java:29-45 | cancellable iff PENDING or PAID, shippable iff PAID, refundable iff PAID, SHIPPED or DELIVERED; CANCELLED and REFUNDED pass none |
| Orders.NewOrderItem | ddd/src/main/java/cn/zm/ddd/domain/model/order/OrderItem.java:22-38 | a blank product name or a non-positive quantity is a validation error; otherwise the line holds exactly the given fields |
| Orders.Subtotal | ddd/src/main/java/cn/zm/ddd/domain/model/order/OrderItem.java:44-46 | the subtotal is what Money's multiplication gives for price × quantity, in the price's currency, and never below the unit price |
| Orders.IsSameProductIgnoresSnapshot | ddd/src/main/java/cn/zm/ddd/domain/model/order/OrderItem.java:51-53 | only the product id decides whether a line is for a product |
| Orders.SameProductLineIsUnique | ddd/src/main/java/cn/zm/ddd/domain/model/order/OrderItem.java:51-53 | in a list with one line per product, at most one line is the same product as a given id |
| Orders.SumSubtotals | ddd/src/main/java/cn/zm/ddd/domain/model/order/Order.java:211-215 | the fold over the subtotals from 0 CNY fails exactly when a line is not priced in CNY; otherwise it is the reference total Σ price × quantity |
| Orders.Create | ddd/src/main/java/cn/zm/ddd/domain/model/order/Order.java:36-51 | a new order is PENDING, empty, with a zero CNY total that matches its (no) lines |
| Orders.ReplaceMatching | ddd/src/main/java/cn/zm/ddd/domain/model/order/Order.java:81-90 | the loop rebuilds every line of the product with the call's name and price and the summed quantity, keeps every other line, and fails exactly when a rebuilt line is invalid |
| Orders.MergeItems | ddd/src/main/java/cn/zm/ddd/domain/model/order/Order.java:78-94 | succeeds exactly when the rebuild loop succeeds and, for a product not yet ordered, the new line is valid (non-blank name, positive quantity); failures are validation errors; the result is the loop's rebuilt list when the product was present, and otherwise the unchanged list plus one new line holding exactly the call's fields |
| Orders.MergeItemsShape | ddd/src/main/java/cn/zm/ddd/domain/model/order/Order.java:78-98 | merging keeps one line per product; an existing line is rebuilt in place and the others keep their positions; otherwise one new line is appended |
| Orders.AddItem | ddd/src/main/java/cn/zm/ddd/domain/model/order/Order.java:72-103 | refused unless PENDING and then unchanged; a failing merge throws a validation error and leaves the order unchanged; once the merge succeeds the order holds exactly the merged lines, whether the call returns or throws; it returns exactly when every merged line is in CNY, with the total matching the lines, and otherwise throws with the old total |
| Orders.AddItemKeepsOneLinePerProduct | ddd/src/main/java/cn/zm/ddd/domain/model/order/Order.java:78-98 | whether it returns or throws, `addItem` keeps one line per product |
| Orders.MergeAddsQuantity | ddd/src/main/java/cn/zm/ddd/domain/model/order/Order.java:81-94 | a successful merge raises the product's ordered quantity by exactly the call's quantity |
| Orders.RemoveProduct | ddd/src/main/java/cn/zm/ddd/domain/model/order/Order.java:113 | `removeIf` leaves no line of the product, never grows the list, and keeps its length exactly when the product was absent |
| Orders.RemoveProductMembers | ddd/src/main/java/cn/zm/ddd/domain/model/order/Order.java:113 | the lines kept are exactly the lines of other products |
| Orders.RemoveProductShape | ddd/src/main/java/cn/zm/ddd/domain/model/order/Order.java:113 | with one line per product, removal drops exactly the product's line and keeps the others in order |
| Orders.RemoveItem | ddd/src/main/java/cn/zm/ddd/domain/model/order/Order.java:108-121 | refused unless PENDING, refused for an absent product, unchanged in both cases; otherwise the order holds exactly the filtered lines, whether the call returns or throws; it returns exactly when the remaining lines are all in CNY, with the total matching them, and otherwise throws with the old total |
| Orders.RemoveItemDropsOneLine | ddd/src/main/java/cn/zm/ddd/domain/model/order/Order.java:108-121 | a successful removal drops exactly one line and keeps one line per product |
| Orders.Pay | ddd/src/main/java/cn/zm/ddd/domain/model/order/Order.java:127-138 | PENDING to PAID exactly when there is a line; otherwise a business-rule error and no change |
| Orders.Ship | ddd/src/main/java/cn/zm/ddd/domain/model/order/Order.java:143-150 | PAID to SHIPPED; otherwise a business-rule error and no change |
| Orders.Deliver | ddd/src/main/java/cn/zm/ddd/domain/model/order/Order.java:155-162 | SHIPPED to DELIVERED; otherwise a business-rule error and no change |
| Orders.Cancel | ddd/src/main/java/cn/zm/ddd/domain/model/order/Order.java:167-174 | PENDING or PAID to CANCELLED; otherwise a business-rule error and no change |
| Orders.Refund | ddd/src/main/java/cn/zm/ddd/domain/model/order/Order.java:179-186 | PAID, SHIPPED or DELIVERED to REFUNDED; otherwise a business-rule error and no change |
| Orders.LifecycleFollowsTable | ddd/src/main/java/cn/zm/ddd/domain/model/order/Order.java:127-186 | the five status methods implement exactly the lifecycle table, change only the status, and throw a business-rule error otherwise |
| Orders.ClosedOrdersAreFinal | ddd/src/main/java/cn/zm/ddd/domain/model/order/Order.java:72-205 | nothing leaves CANCELLED or REFUNDED: every mutator throws and changes nothing |
| Orders.ApplyDiscount | ddd/src/main/java/cn/zm/ddd/domain/model/order/Order.java:192-205 | refused unless PENDING (business rule) and for a rate outside [0, 1] (validation); otherwise only the total changes, to total − half-up(total × rate), never above the old total |
| Orders.DiscountBounds | ddd/src/main/java/cn/zm/ddd/domain/model/order/Order.java:192-205 | rate 0 changes nothing; rate 1 brings the total to zero |
| Orders.DiscountCompounds | ddd/src/main/java/cn/zm/ddd/domain/model/order/Order.java:192-205 | two 10% discounts on 100.00 give 81.00: a second call compounds |
| Orders.GetTotalQuantity | ddd/src/main/java/cn/zm/ddd/domain/model/order/Order.java:227-231 | the total quantity is at least `getItemCount` and zero exactly when the order has no line |
| Orders.AddItemChangesTotals | ddd/src/main/java/cn/zm/ddd/domain/model/order/Order.java:220-231 | with one line per product, a returned `addItem` raises `getTotalQuantity` by exactly the call's quantity, and raises `getItemCount` by one exactly when the product was not yet in the order |
| Orders.MergeAddsTotalQuantity | ddd/src/main/java/cn/zm/ddd/domain/model/order/Order.java:78-98 | a successful merge adds the call's quantity to the sum of all line quantities and adds a line exactly when the product was new |
| Orders.RemoveItemChangesTotals | ddd/src/main/java/cn/zm/ddd/domain/model/order/Order.java:220-231 | with one line per product, a returned `removeItem` lowers `getTotalQuantity` by the product's ordered quantity and `getItemCount` by one |
| Orders.ContainsProductIffOrdered | ddd/src/main/java/cn/zm/ddd/domain/model/order/Order.java:236-239 | `containsProduct` holds exactly when the ordered quantity of the product is positive |
| Shared.ValidateName | ddd/src/main/java/cn/zm/ddd/domain/model/product/Product.java:152-162 | accepts exactly a non-blank name whose `length()` in UTF-16 code units is at most the limit (100 for products, 50 for customers), measured before trimming; the stored name is the trimmed one, still non-blank and within the limit |
| Shared.Utf16LengthCountsCharacters | ddd/src/main/java/cn/zm/ddd/domain/model/product/Product.java:157 | `length()` equals the number of characters exactly when none lies above U+FFFF, and is twice it exactly when all do |
| Shared.TrimUtf16Length | ddd/src/main/java/cn/zm/ddd/domain/model/product/Product.java:152-162 | trimming never increases `length()`, so a name checked before trimming stays within the limit once stored |
| Shared.AstralNameCountsTwice | ddd/src/main/java/cn/zm/ddd/domain/model/product/Product.java:157 | a name of 51 characters above U+FFFF has `length()` 102 and is refused by the 100-unit product limit |
| Products.ValidateDescription | ddd/src/main/java/cn/zm/ddd/domain/model/product/Product.java:167-173 | at most 500 UTF-16 code units, as `length()` counts them; null becomes ""; stored trimmed, and the trimmed value is within the limit |
| Products.ValidateStockQuantity | ddd/src/main/java/cn/zm/ddd/domain/model/product/Product.java:178-184 | a negative stock is a validation error |
| Products.Create | ddd/src/main/java/cn/zm/ddd/domain/model/product/Product.java:27-43 | succeeds exactly when name, description and stock pass their validators; the product is valid, on the shelf and holds the trimmed name, the trimmed description ("" for none), the given price and the given stock |
| Products.Restore | ddd/src/main/java/cn/zm/ddd/domain/model/product/Product.java:48-56 | the same validation as `create`; differs from it only in the shelf flag |
| Products.UpdateInfo | ddd/src/main/java/cn/zm/ddd/domain/model/product/Product.java:61-70 | refused off the shelf; otherwise re-validates name and description; an invalid name throws with the product unchanged, while a valid name is stored before the description check, so a too-long description throws with the new name in place; never touches stock or shelf state; a thrown call keeps the old description and price |
| Products.ReduceStock | ddd/src/main/java/cn/zm/ddd/domain/model/product/Product.java:76-93 | succeeds exactly on the shelf with 0 < quantity <= stock, lowering the stock by the quantity; otherwise unchanged, a validation error for a non-positive quantity on the shelf, a business-rule error otherwise |
| Products.IncreaseStock | ddd/src/main/java/cn/zm/ddd/domain/model/product/Product.java:98-105 | succeeds exactly for a positive quantity, even off the shelf, raising the stock by it |
| Products.IncreaseUndoesReduce | ddd/src/main/java/cn/zm/ddd/domain/model/product/Product.java:76-105 | restocking what was taken restores the product |
| Products.TakeOffShelf | ddd/src/main/java/cn/zm/ddd/domain/model/product/Product.java:110-117 | succeeds exactly on the shelf and changes only the shelf flag |
| Products.PutOnShelf | ddd/src/main/java/cn/zm/ddd/domain/model/product/Product.java:122-133 | succeeds exactly off the shelf with stock left and changes only the shelf flag |
| Products.PutOnShelfUndoesTakeOff | ddd/src/main/java/cn/zm/ddd/domain/model/product/Product.java:110-133 | taking a stocked product off the shelf and back restores it |
| Products.OutOfStockIffNoUnitLeft | ddd/src/main/java/cn/zm/ddd/domain/model/product/Product.java:138-147 | on the shelf, `isOutOfStock` is exactly the failure of `hasEnoughStock(1)`; an out-of-stock product cannot be put back on the shelf |
| Products.HasEnoughStockIffReduceSucceeds | ddd/src/main/java/cn/zm/ddd/domain/model/product/Product.java:138-140 | for a positive quantity, `hasEnoughStock` holds exactly when `reduceStock` succeeds |
| Products.OffShelfIsFrozen | ddd/src/main/java/cn/zm/ddd/domain/model/product/Product.java:61-117 | off the shelf, reducing, updating and taking off all throw and change nothing |
| Customers.CustomerTypeFacts | ddd/src/main/java/cn/zm/ddd/domain/model/customer/CustomerType.java:9-28 | REGULAR is the only tier without a discount; names and descriptions are pairwise distinct |
| Customers.ValueOf | ddd/src/main/java/cn/zm/ddd/domain/model/customer/CustomerType.java:8-11 | `valueOf` accepts exactly the three constant names and returns the constant of that name |
| Customers.ValueOfInvertsName | ddd/src/main/java/cn/zm/ddd/domain/model/customer/CustomerType.java:8-11 | `valueOf` inverts the constant names |
| Customers.Create | ddd/src/main/java/cn/zm/ddd/domain/model/customer/Customer.java:30-46 | succeeds exactly for a valid name; the new customer is active and holds the trimmed name, the email and the tier |
| Customers.Restore | ddd/src/main/java/cn/zm/ddd/domain/model/customer/Customer.java:51-59 | the same validation as `create`; differs only in the activation flag |
| Customers.UpdateInfo | ddd/src/main/java/cn/zm/ddd/domain/model/customer/Customer.java:65-73 | refused while inactive; otherwise replaces the validated name and the email, nothing else |
| Customers.UpgradeToVip | ddd/src/main/java/cn/zm/ddd/domain/model/customer/Customer.java:79-90 | succeeds exactly for an active non-VIP customer, ENTERPRISE included, and sets the tier to VIP |
| Customers.Deactivate | ddd/src/main/java/cn/zm/ddd/domain/model/customer/Customer.java:96-103 | succeeds exactly when active, and clears only the flag |
| Customers.Activate | ddd/src/main/java/cn/zm/ddd/domain/model/customer/Customer.java:109-116 | succeeds exactly when inactive, and sets only the flag |
| Customers.ActivationRoundTrip | ddd/src/main/java/cn/zm/ddd/domain/model/customer/Customer.java:96-116 | deactivating then activating (or the reverse) restores the customer; the wrong one of the two throws |
| Customers.DiscountFollowsLifecycle | ddd/src/main/java/cn/zm/ddd/domain/model/customer/Customer.java:65-124 | updating a customer's details keeps its discount eligibility, deactivation always revokes it, and activation grants it exactly to VIP and ENTERPRISE customers |
| Customers.UpgradeGrantsDiscount | ddd/src/main/java/cn/zm/ddd/domain/model/customer/Customer.java:79-124 | an upgraded customer can receive a discount and cannot be upgraded again |
| Customers.InactiveIsFrozen | ddd/src/main/java/cn/zm/ddd/domain/model/customer/Customer.java:65-124 | an inactive customer receives no discount and cannot be updated, upgraded or deactivated |
| DomainService.AddProductToOrder | ddd/src/main/java/cn/zm/ddd/domain/service/OrderDomainService.java:38-63 | a missing product or too little stock throws and changes nothing; it succeeds exactly when the product holds enough stock, the quantity is positive and the order takes the line; then the order is `addItem`'s result and the stored product loses the quantity |
| DomainService.OrderIsWhatAddItemLeft | ddd/src/main/java/cn/zm/ddd/domain/service/OrderDomainService.java:38-63 | once the product is found on the shelf with enough stock, the order is left as `addItem` made it on every path, including when `addItem` throws partway or `reduceStock` refuses afterwards; before that the order is untouched |
| DomainService.ForeignCurrencyLineStaysInOrder | ddd/src/main/java/cn/zm/ddd/domain/model/order/Order.java:97-101 | a product priced in USD reaches the partial path: `addItem` merges the line into the CNY order, then throws a validation error while summing the total, so the call throws with the line kept, the total unchanged and the stock untouched |
| DomainService.StockIsConserved | ddd/src/main/java/cn/zm/ddd/domain/service/OrderDomainService.java:49-62 | on success, stock plus ordered quantity of the product is unchanged, and the order keeps one line per product |
| DomainService.OtherProductsUntouched | ddd/src/main/java/cn/zm/ddd/domain/service/OrderDomainService.java:56-62 | on success, every other product's record and ordered quantity stay as they were |
| DomainService.ClosedOrderLeavesStock | ddd/src/main/java/cn/zm/ddd/domain/service/OrderDomainService.java:56-59 | an order that is not PENDING fails in `addItem`, before the stock is touched |
| DomainService.NonPositiveQuantityIsRefusedLate | ddd/src/main/java/cn/zm/ddd/domain/service/OrderDomainService.java:49-59 | a non-positive quantity always throws and never touches the products, yet can leave the order merged before `reduceStock` refuses it |
| DomainService.CalculateCustomerDiscount | ddd/src/main/java/cn/zm/ddd/domain/service/OrderDomainService.java:70-86 | 0 unless the customer can receive a discount, 0.05 for VIP, 0.10 for ENTERPRISE; always in [0, 1], positive exactly when the customer can receive a discount |
| DomainService.DiscountIgnoresOrder | ddd/src/main/java/cn/zm/ddd/domain/service/OrderDomainService.java:70-86 | the rate does not depend on the order argument, and ENTERPRISE's rate is twice VIP's |
| DomainService.CheckLines | ddd/src/main/java/cn/zm/ddd/domain/service/OrderDomainService.java:102-108 | the loop passes exactly when every line's product exists and is on the shelf |
| DomainService.ValidateOrderForPayment | ddd/src/main/java/cn/zm/ddd/domain/service/OrderDomainService.java:91-109 | passes exactly for a non-empty order with a non-zero total whose products all exist and are on the shelf; failures are business-rule errors |
| DomainService.PaymentCheckIgnoresStock | ddd/src/main/java/cn/zm/ddd/domain/service/OrderDomainService.java:91-109 | changing a product's stock never changes the verdict |
| Commands.NewCreateProductCommand | ddd/src/main/java/cn/zm/ddd/application/command/CreateProductCommand.java:16-32 | refuses a blank name, a missing or negative price, a blank currency and a negative stock, and accepts everything else, a zero price included |
| Commands.ProductCommandDefersNameLength | ddd/src/main/java/cn/zm/ddd/application/command/CreateProductCommand.java:16-32 | an accepted command always yields a valid price and stock, and a name passes `Product.create`'s length check exactly when its UTF-16 length is within 100; a 101-character name passes the command and is refused by `Product.create` |
| Commands.NewAddProductToOrderCommand | ddd/src/main/java/cn/zm/ddd/application/command/AddProductToOrderCommand.java:12-24 | accepts exactly non-blank ids and a positive quantity, so every command has a quantity of at least 1 |
| Commands.NewCreateCustomerCommand | ddd/src/main/java/cn/zm/ddd/application/command/CreateCustomerCommand.java:21-33 | accepts exactly non-blank name, email and type |
| Commands.GetEmailValueObject | ddd/src/main/java/cn/zm/ddd/application/command/CreateCustomerCommand.java:38-40 | yields an Email exactly when the field is a valid address |
| Commands.EmailCheckedLate | ddd/src/main/java/cn/zm/ddd/application/command/CreateCustomerCommand.java:21-40 | the command accepts "ann" as an email; the Email constructor then refuses it |
| Commands.GetCustomerTypeEnum | ddd/src/main/java/cn/zm/ddd/application/command/CreateCustomerCommand.java:45-47 | succeeds exactly when the upper-cased field is a constant's name, and yields that constant |
| Commands.CustomerTypeIgnoresCase | ddd/src/main/java/cn/zm/ddd/application/command/CreateCustomerCommand.java:45-47 | any spelling whose upper case is a constant's name gives that constant ("vip", "Enterprise") |
| OrderService.CreateOrder | ddd/src/main/java/cn/zm/ddd/application/service/OrderApplicationService.java:51-68 | a blank id is a validation error; a missing or inactive customer a business-rule error; otherwise exactly one new PENDING, empty, zero-total order for that customer is stored and nothing else changes |
| OrderService.CreateAndPayKeepConsistent | ddd/src/main/java/cn/zm/ddd/application/service/OrderApplicationService.java:51-120 | creating and paying keep every stored aggregate filed under its own id and valid |
| OrderService.AddProductToOrder | ddd/src/main/java/cn/zm/ddd/application/service/OrderApplicationService.java:75-91 | a blank order id is a validation error, an unknown order a business-rule error, then a blank product id a validation error; the call succeeds exactly when the domain service returns; a missing product or short stock is a business-rule error, and any later failure carries the domain service's error kind |
| OrderService.AddProductTouchesOnlyTarget | ddd/src/main/java/cn/zm/ddd/application/service/OrderApplicationService.java:33-91 | on success the saved order is exactly what `Order.addItem` makes of the stored order with the product's current name and price, the product loses exactly the quantity, and no other customer, order or product changes |
| OrderService.AddProductKeepsConsistent | ddd/src/main/java/cn/zm/ddd/application/service/OrderApplicationService.java:75-91 | a successful call keeps the store consistent |
| OrderService.AddProductMovesStock | ddd/src/main/java/cn/zm/ddd/application/service/OrderApplicationService.java:75-91 | stock plus ordered quantity is conserved for the product, and every other product is untouched |
| OrderService.AcceptedCommandReachesDomainRules | ddd/src/main/java/cn/zm/ddd/application/command/AddProductToOrderCommand.java:12-24 | for a command that passed its guard, the service succeeds exactly when the order exists, the product has enough stock and the order takes the line |
| OrderService.PayOrder | ddd/src/main/java/cn/zm/ddd/application/service/OrderApplicationService.java:96-120 | succeeds exactly for a stored PENDING order that passes the payment check and whose customer exists; only that order changes, to PAID, with its total lowered by the rounded customer discount |
| OrderService.PayOrderOnlyOnce | ddd/src/main/java/cn/zm/ddd/application/service/OrderApplicationService.java:108-114 | paying an order again fails, so the discount is applied at most once on this path |
| OrderService.TransitionOrder | ddd/src/main/java/cn/zm/ddd/application/service/OrderApplicationService.java:149-183 | the shared shape of the three calls: a blank id is a validation error, others business-rule errors; on success only that order changes, by exactly the aggregate's transition |
| OrderService.ShipOrder | ddd/src/main/java/cn/zm/ddd/application/service/OrderApplicationService.java:149-157 | succeeds exactly for a stored PAID order, which becomes SHIPPED; consistency is kept |
| OrderService.DeliverOrder | ddd/src/main/java/cn/zm/ddd/application/service/OrderApplicationService.java:162-170 | succeeds exactly for a stored SHIPPED order, which becomes DELIVERED; consistency is kept |
| OrderService.CancelOrder | ddd/src/main/java/cn/zm/ddd/application/service/OrderApplicationService.java:175-183 | succeeds exactly for a stored PENDING or PAID order, which becomes CANCELLED; stock is not restored; consistency is kept |
| OrderService.ServiceFollowsLifecycle | ddd/src/main/java/cn/zm/ddd/application/service/OrderApplicationService.java:149-183 | for a stored order, each call succeeds exactly when the lifecycle table allows its action |
| OrderService.DemoAddsTwoUnits | ddd/src/main/java/cn/zm/ddd/DemoRunner.java:45-75 | adding 2 units at 299.99 gives one line, a total of 599.98 and a stock of 48 |
| OrderService.DemoPaysWithVipDiscount | ddd/src/main/java/cn/zm/ddd/DemoRunner.java:45-75 | paying as a VIP gives PAID and 599.98 − 30.00 = 569.98 |
| OrderService.DemoScenario | ddd/src/main/java/cn/zm/ddd/DemoRunner.java:45-75 | the demo end to end: create the order, add 2 units, pay |
| CustomerService.ValidateCreateCustomerCommand | ddd/src/main/java/cn/zm/ddd/application/service/CustomerApplicationService.java:166-182 | passes exactly for a non-blank name, email and type |
| CustomerService.ValidateUpdateParameters | ddd/src/main/java/cn/zm/ddd/application/service/CustomerApplicationService.java:187-199 | passes exactly for a non-blank id, name and email |
| CustomerService.FindCustomerById | ddd/src/main/java/cn/zm/ddd/application/service/CustomerApplicationService.java:204-211 | a blank id is a validation error, an unknown one a business-rule error; otherwise the stored customer |
| CustomerService.CreateCustomer | ddd/src/main/java/cn/zm/ddd/application/service/CustomerApplicationService.java:39-64 | blank fields are refused first; succeeds exactly when the email is valid and held by nobody, the type names a tier and the name fits; the only business-rule failure is a taken email; exactly one new active customer is added |
| CustomerService.CreateCustomerKeepsInvariants | ddd/src/main/java/cn/zm/ddd/application/service/CustomerApplicationService.java:46-48 | registration keeps the store consistent and the stored emails pairwise distinct |
| CustomerService.SecondRegistrationRefused | ddd/src/main/java/cn/zm/ddd/application/service/CustomerApplicationService.java:46-48 | registering a second customer with the same address is a business-rule error |
| CustomerService.UpdateCustomer | ddd/src/main/java/cn/zm/ddd/application/service/CustomerApplicationService.java:112-135 | blank fields are refused first, an unknown customer next; succeeds exactly when the new email is valid and either the customer's own or held by nobody, and the Customer rules allow it; once the id is found, the failure is a business-rule error exactly when the email is well formed and either held by another customer or the customer is inactive, and a validation error otherwise (a malformed email or an invalid name); only that customer changes |
| CustomerService.UpdateCustomerKeepsInvariants | ddd/src/main/java/cn/zm/ddd/application/service/CustomerApplicationService.java:122-126 | an update keeps the store consistent and the stored emails pairwise distinct |
| CustomerService.UpgradeToVip | ddd/src/main/java/cn/zm/ddd/application/service/CustomerApplicationService.java:89-107 | succeeds exactly for a stored active non-VIP customer, who becomes VIP and can then receive a discount; nothing else changes |
| CustomerService.DeactivateCustomer | ddd/src/main/java/cn/zm/ddd/application/service/CustomerApplicationService.java:140-148 | succeeds exactly for a stored active customer, who becomes inactive; nothing else changes |
| CustomerService.ActivateCustomer | ddd/src/main/java/cn/zm/ddd/application/service/CustomerApplicationService.java:153-161 | succeeds exactly for a stored inactive customer, who becomes active; nothing else changes |
| CustomerService.DeactivateThenActivate | ddd/src/main/java/cn/zm/ddd/application/service/CustomerApplicationService.java:140-161 | deactivating then reactivating through the service gives the original store back |
| CustomerService.StatusChangesKeepEmailsDistinct | ddd/src/main/java/cn/zm/ddd/application/service/CustomerApplicationService.java:89-161 | tier and activation changes keep the stored emails pairwise distinct |

## Left out

- Timestamps (`createdAt`, `lastModifiedAt`): they come from the clock and carry no rule.
- Identifier generation and format: fresh ids are parameters, required to be unused. Only the blank check of `CustomerId.of`, `OrderId.of` and `ProductId.of` is modelled; the UUID format check of `EntityId` is not part of this model.
- `Currency.getInstance`: currency codes are plain strings compared by equality.
- Persistence, mappers, repository implementations, REST controllers, DTOs and queries (`findOrder`, `findCustomerOrders`, `findCustomer`): storage and marshalling; the repositories are maps.
- `ProductApplicationService`: it only delegates to Product, whose operations are modelled.
- `Order.restore`: it rebuilds an order from stored fields without any check.
- The message-queue, OAuth2 and Swagger modules: broker, network and framework code.
- Exception messages: only the two exception kinds are kept.
- Java `int` overflow in merged quantities and in `increaseStock`: integers are unbounded.
- Blank checks and Unicode: every blank check is modelled as `trim().isEmpty()`, true exactly when every character is at or below U+0020. The id value objects and `Email` use `String.isBlank`, and the customer service uses Hutool's `StrUtil.isBlank`. Both count whitespace by Unicode class, so they differ on control characters: a customer id of U+0001 passes `StrUtil.isBlank` and reaches the lookup, while the model refuses it as a validation error. `toUpperCase` only maps ASCII letters.
- Null arguments: modelled only where the source treats null differently from a value (Money's amount and currency, a product description, the command's price); elsewhere a null string counts as blank.
- `Email.toString` and record equality: a datatype's equality is already value equality.
- Concurrency and locking: each service call is one atomic step on the store.
- Customers.Create: a customer is only `Valid` when the Email value passed to it was built by the Email constructor, which the model states as a premise of the ensures instead of making the Email type carry it.
