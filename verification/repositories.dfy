/**
 * The repositories as maps from id to aggregate, gathered in one store
 * that each application-service call either replaces as a whole or leaves
 * untouched (the services are transactional).
 */
module Repositories {
  import opened Shared
  import opened ValueObjects
  import Products
  import Customers
  import Orders

  datatype Store = Store(
    customers: map<CustomerId, Customers.Customer>,
    products: map<ProductId, Products.Product>,
    orders: map<OrderId, Orders.Order>)

  /** What every stored aggregate satisfies: it is filed under its own id,
      products and customers keep their invariants, and an order holds at
      most one line per product. */
  predicate Consistent(s: Store) {
    && (forall id :: id in s.customers ==> s.customers[id].id == id && Customers.Valid(s.customers[id]))
    && (forall id :: id in s.products ==> s.products[id].id == id && Products.Valid(s.products[id]))
    && (forall id :: id in s.orders ==> s.orders[id].id == id && Orders.UniqueProducts(s.orders[id].items))
  }

  /** `CustomerRepository.existsByEmail`. */
  predicate ExistsByEmail(customers: map<CustomerId, Customers.Customer>, email: Email) {
    exists id :: id in customers && customers[id].email == email
  }

  /** No two stored customers share an email. */
  predicate EmailsDistinct(customers: map<CustomerId, Customers.Customer>) {
    forall a, b :: a in customers && b in customers && a != b ==> customers[a].email != customers[b].email
  }
}
