/**
 * The customer application service: registration with a unique email,
 * profile updates, and the tier and activation changes, each over the
 * customer repository and all-or-nothing.
 */
module CustomerService {
  import opened Shared
  import opened ValueObjects
  import Customers
  import opened Commands
  import opened Repositories

  /** `validateCreateCustomerCommand`: name, email and type must be
      non-blank, checked in that order. */
  function ValidateCreateCustomerCommand(cmd: CreateCustomerCommand): (v: Verdict)
    ensures v == Pass <==> !Blank(cmd.name) && !Blank(cmd.email) && !Blank(cmd.customerType)
    ensures v.Fail? ==> v.kind == Validation
  {
    if Blank(cmd.name) then Fail(Validation)
    else if Blank(cmd.email) then Fail(Validation)
    else if Blank(cmd.customerType) then Fail(Validation)
    else Pass
  }

  /** `validateUpdateParameters`: id, name and email must be non-blank. */
  function ValidateUpdateParameters(customerId: string, newName: string, newEmail: string): (v: Verdict)
    ensures v == Pass <==> !Blank(customerId) && !Blank(newName) && !Blank(newEmail)
    ensures v.Fail? ==> v.kind == Validation
  {
    if Blank(customerId) then Fail(Validation)
    else if Blank(newName) then Fail(Validation)
    else if Blank(newEmail) then Fail(Validation)
    else Pass
  }

  /** `findCustomerById`: a blank id is a validation error, an unknown one
      a business-rule error. */
  function FindCustomerById(s: Store, customerId: string): (r: Result<Customers.Customer>)
    ensures Blank(customerId) ==> r == Err(Validation)
    ensures r.Ok? <==> !Blank(customerId) && customerId in s.customers
    ensures r.Ok? ==> r.value == s.customers[customerId]
    ensures r.Err? && !Blank(customerId) ==> r.kind == BusinessRule
  {
    if Blank(customerId) then Err(Validation)
    else if customerId !in s.customers then Err(BusinessRule)
    else Ok(s.customers[customerId])
  }

  /** `createCustomer`. After the blank checks the email must be well
      formed and not held by any stored customer; then the type must name a
      tier and the name fit the Customer rules. One new active customer is
      stored under the fresh id; nothing else changes. */
  function CreateCustomer(s: Store, cmd: CreateCustomerCommand, newId: CustomerId): (r: Result<Store>)
    requires newId !in s.customers
    ensures Blank(cmd.name) || Blank(cmd.email) || Blank(cmd.customerType) ==> r == Err(Validation)
    ensures r.Ok? <==>
      && ValidateCreateCustomerCommand(cmd) == Pass
      && IsValidEmail(cmd.email)
      && !ExistsByEmail(s.customers, Email(cmd.email))
      && GetCustomerTypeEnum(cmd).Ok?
      && Utf16Length(cmd.name) <= Customers.MaxNameLength
    ensures r.Err? ==>
      (r.kind == BusinessRule <==>
        ValidateCreateCustomerCommand(cmd) == Pass && IsValidEmail(cmd.email) && ExistsByEmail(s.customers, Email(cmd.email)))
    ensures r.Ok? ==>
      && r.value.products == s.products && r.value.orders == s.orders
      && newId in r.value.customers
      && r.value.customers == s.customers[newId := r.value.customers[newId]]
    ensures r.Ok? ==>
      var c := r.value.customers[newId];
      && c.id == newId && c.active
      && c.name == Trim(cmd.name)
      && c.email == Email(cmd.email)
      && Customers.TypeName(c.ctype) == ToUpper(cmd.customerType)
  {
    var checked := ValidateCreateCustomerCommand(cmd);
    if checked.Fail? then Err(checked.kind)
    else match GetEmailValueObject(cmd)
      case Err(k) => Err(k)
      case Ok(email) =>
        if ExistsByEmail(s.customers, email) then Err(BusinessRule)
        else match GetCustomerTypeEnum(cmd)
          case Err(k) => Err(k)
          case Ok(t) =>
            match Customers.Create(newId, cmd.name, email, t)
            case Err(k) => Err(k)
            case Ok(c) => Ok(s.(customers := s.customers[newId := c]))
  }

  /** Registration keeps the store consistent and the stored emails
      pairwise distinct: the new customer is valid, filed under its id, and
      its address was held by nobody. */
  lemma CreateCustomerKeepsInvariants(s: Store, cmd: CreateCustomerCommand, newId: CustomerId)
    requires newId !in s.customers
    requires CreateCustomer(s, cmd, newId).Ok?
    ensures Consistent(s) ==> Consistent(CreateCustomer(s, cmd, newId).value)
    ensures EmailsDistinct(s.customers) ==> EmailsDistinct(CreateCustomer(s, cmd, newId).value.customers)
  {
    var after := CreateCustomer(s, cmd, newId).value;
    var c := after.customers[newId];
    assert after.customers == s.customers[newId := c];
    assert after.products == s.products && after.orders == s.orders;
    assert c.id == newId && Customers.Valid(c) by {
      IsValidEmailMatchesPattern(cmd.email);
    }
    NewAddressIsFree(s.customers, c.email);
    if Consistent(s) {
      StoringValidCustomerKeepsConsistent(s, c);
    }
    if EmailsDistinct(s.customers) {
      StoringFreeAddressKeepsEmailsDistinct(s.customers, newId, c);
    }
  }

  /** An address nobody holds differs from every stored address. */
  lemma NewAddressIsFree(customers: map<CustomerId, Customers.Customer>, email: Email)
    requires !ExistsByEmail(customers, email)
    ensures forall id :: id in customers ==> customers[id].email != email
  {
  }

  /** Filing a valid customer under its own id keeps the store consistent. */
  lemma StoringValidCustomerKeepsConsistent(s: Store, c: Customers.Customer)
    requires Consistent(s) && Customers.Valid(c)
    ensures Consistent(s.(customers := s.customers[c.id := c]))
  {
  }

  /** Filing a customer whose address no other stored customer holds keeps
      the addresses pairwise distinct. */
  lemma StoringFreeAddressKeepsEmailsDistinct(customers: map<CustomerId, Customers.Customer>, key: CustomerId, c: Customers.Customer)
    requires EmailsDistinct(customers)
    requires forall id :: id in customers && id != key ==> customers[id].email != c.email
    ensures EmailsDistinct(customers[key := c])
  {
    var after := customers[key := c];
    forall a, b | a in after && b in after && a != b
      ensures after[a].email != after[b].email
    {
      if a != key && b != key {
        assert after[a] == customers[a] && after[b] == customers[b];
      }
    }
  }

  /** `updateCustomer`. After the blank checks the customer must exist and
      the new email be well formed; a new email already held by a stored
      customer is refused, while keeping one's own email is allowed; the
      Customer rules decide the rest. Only that customer changes. */
  function UpdateCustomer(s: Store, customerId: string, newName: string, newEmail: string): (r: Result<Store>)
    ensures Blank(customerId) || Blank(newName) || Blank(newEmail) ==> r == Err(Validation)
    ensures !Blank(customerId) && !Blank(newName) && !Blank(newEmail) && customerId !in s.customers ==> r == Err(BusinessRule)
    ensures r.Ok? <==>
      && ValidateUpdateParameters(customerId, newName, newEmail) == Pass
      && customerId in s.customers
      && IsValidEmail(newEmail)
      && (s.customers[customerId].email == Email(newEmail) || !ExistsByEmail(s.customers, Email(newEmail)))
      && Customers.UpdateInfo(s.customers[customerId], newName, Email(newEmail)).Returned?
    ensures r.Err? && ValidateUpdateParameters(customerId, newName, newEmail) == Pass && customerId in s.customers ==>
      (r.kind == BusinessRule <==>
        && IsValidEmail(newEmail)
        && ((s.customers[customerId].email != Email(newEmail) && ExistsByEmail(s.customers, Email(newEmail)))
            || !s.customers[customerId].active))
    ensures r.Ok? ==>
      && r.value.products == s.products && r.value.orders == s.orders
      && r.value.customers == s.customers[customerId := s.customers[customerId].(name := Trim(newName), email := Email(newEmail))]
  {
    var checked := ValidateUpdateParameters(customerId, newName, newEmail);
    if checked.Fail? then Err(checked.kind)
    else if customerId !in s.customers then Err(BusinessRule)
    else
      var c := s.customers[customerId];
      IsValidEmailMatchesPattern(newEmail);
      match NewEmail(newEmail)
      case Err(k) => Err(k)
      case Ok(email) =>
        if c.email != email && ExistsByEmail(s.customers, email) then Err(BusinessRule)
        else match Customers.UpdateInfo(c, newName, email)
          case Threw(k, _) => Err(k)
          case Returned(updated) => Ok(s.(customers := s.customers[customerId := updated]))
  }

  /** An update keeps the store consistent and the stored emails pairwise
      distinct: the address either stays the customer's own or was held by
      nobody. */
  lemma UpdateCustomerKeepsInvariants(s: Store, customerId: string, newName: string, newEmail: string)
    requires UpdateCustomer(s, customerId, newName, newEmail).Ok?
    ensures Consistent(s) ==> Consistent(UpdateCustomer(s, customerId, newName, newEmail).value)
    ensures EmailsDistinct(s.customers) ==> EmailsDistinct(UpdateCustomer(s, customerId, newName, newEmail).value.customers)
  {
    var after := UpdateCustomer(s, customerId, newName, newEmail).value;
    var before := s.customers[customerId];
    var c := before.(name := Trim(newName), email := Email(newEmail));
    assert after == s.(customers := s.customers[customerId := c]);
    if Consistent(s) {
      IsValidEmailMatchesPattern(newEmail);
      assert Customers.UpdateInfo(before, newName, Email(newEmail)).state == c;
      StoringValidCustomerKeepsConsistent(s, c);
    }
    if EmailsDistinct(s.customers) {
      if before.email != c.email {
        NewAddressIsFree(s.customers, c.email);
      }
      assert forall id :: id in s.customers && id != customerId ==> s.customers[id].email != c.email;
      StoringFreeAddressKeepsEmailsDistinct(s.customers, customerId, c);
    }
  }

  /** `upgradeToVip`: a stored, active, non-VIP customer becomes VIP; only
      that customer changes. */
  function UpgradeToVip(s: Store, customerId: string): (r: Result<Store>)
    ensures Blank(customerId) ==> r == Err(Validation)
    ensures r.Err? && !Blank(customerId) ==> r.kind == BusinessRule
    ensures r.Ok? <==>
      !Blank(customerId) && customerId in s.customers && s.customers[customerId].active && s.customers[customerId].ctype != Customers.Vip
    ensures r.Ok? ==> r.value == s.(customers := s.customers[customerId := s.customers[customerId].(ctype := Customers.Vip)])
    ensures r.Ok? ==> Customers.CanReceiveDiscount(r.value.customers[customerId])
  {
    if Blank(customerId) then Err(Validation)
    else if customerId !in s.customers then Err(BusinessRule)
    else match Customers.UpgradeToVip(s.customers[customerId])
      case Threw(k, _) => Err(k)
      case Returned(c) => Ok(s.(customers := s.customers[customerId := c]))
  }

  /** `deactivateCustomer`: a stored active customer becomes inactive; only
      that customer changes. */
  function DeactivateCustomer(s: Store, customerId: string): (r: Result<Store>)
    ensures Blank(customerId) ==> r == Err(Validation)
    ensures r.Err? && !Blank(customerId) ==> r.kind == BusinessRule
    ensures r.Ok? <==> !Blank(customerId) && customerId in s.customers && s.customers[customerId].active
    ensures r.Ok? ==> r.value == s.(customers := s.customers[customerId := s.customers[customerId].(active := false)])
  {
    match FindCustomerById(s, customerId)
    case Err(k) => Err(k)
    case Ok(c) =>
      match Customers.Deactivate(c)
      case Threw(k, _) => Err(k)
      case Returned(d) => Ok(s.(customers := s.customers[customerId := d]))
  }

  /** `activateCustomer`: a stored inactive customer becomes active; only
      that customer changes. */
  function ActivateCustomer(s: Store, customerId: string): (r: Result<Store>)
    ensures Blank(customerId) ==> r == Err(Validation)
    ensures r.Err? && !Blank(customerId) ==> r.kind == BusinessRule
    ensures r.Ok? <==> !Blank(customerId) && customerId in s.customers && !s.customers[customerId].active
    ensures r.Ok? ==> r.value == s.(customers := s.customers[customerId := s.customers[customerId].(active := true)])
  {
    match FindCustomerById(s, customerId)
    case Err(k) => Err(k)
    case Ok(c) =>
      match Customers.Activate(c)
      case Threw(k, _) => Err(k)
      case Returned(a) => Ok(s.(customers := s.customers[customerId := a]))
  }

  /** Deactivating and reactivating a customer through the service gives
      back the same store, and a deactivated customer can no longer order. */
  lemma DeactivateThenActivate(s: Store, customerId: string)
    requires DeactivateCustomer(s, customerId).Ok?
    ensures ActivateCustomer(DeactivateCustomer(s, customerId).value, customerId) == Ok(s)
    ensures !DeactivateCustomer(s, customerId).value.customers[customerId].active
  {
    var d := DeactivateCustomer(s, customerId).value;
    assert d.customers[customerId := s.customers[customerId]] == s.customers;
  }

  /** The tier and activation changes never touch an email, so they keep
      the stored emails pairwise distinct as well. */
  lemma StatusChangesKeepEmailsDistinct(s: Store, customerId: string)
    requires EmailsDistinct(s.customers)
    ensures UpgradeToVip(s, customerId).Ok? ==> EmailsDistinct(UpgradeToVip(s, customerId).value.customers)
    ensures DeactivateCustomer(s, customerId).Ok? ==> EmailsDistinct(DeactivateCustomer(s, customerId).value.customers)
    ensures ActivateCustomer(s, customerId).Ok? ==> EmailsDistinct(ActivateCustomer(s, customerId).value.customers)
  {
  }

  /** Two registrations with the same address: the second is refused
      whatever else it says. */
  lemma SecondRegistrationRefused(s: Store, first: CreateCustomerCommand, second: CreateCustomerCommand, id1: CustomerId, id2: CustomerId)
    requires id1 !in s.customers
    requires CreateCustomer(s, first, id1).Ok?
    requires id2 !in CreateCustomer(s, first, id1).value.customers
    requires second.email == first.email && !Blank(second.name) && !Blank(second.customerType)
    ensures CreateCustomer(CreateCustomer(s, first, id1).value, second, id2) == Err(BusinessRule)
  {
    var after := CreateCustomer(s, first, id1).value;
    assert after.customers[id1].email == Email(second.email);
  }
}
