/**
 * The Customer aggregate and its tier enumeration.
 */
module Customers {
  import opened Shared
  import opened ValueObjects

  // ---------------------------------------------------------------------
  // CustomerType
  // ---------------------------------------------------------------------

  datatype CustomerType = Regular | Vip | Enterprise

  /** The enum's constant names, as `valueOf` accepts them. */
  function TypeName(t: CustomerType): string {
    match t
    case Regular => "REGULAR"
    case Vip => "VIP"
    case Enterprise => "ENTERPRISE"
  }

  /** The description each constant carries. */
  function TypeDescription(t: CustomerType): string {
    match t
    case Regular => "普通客户"
    case Vip => "VIP客户"
    case Enterprise => "企业客户"
  }

  /** `isEligibleForDiscount`. */
  predicate IsEligibleForDiscount(t: CustomerType) {
    t == Vip || t == Enterprise
  }

  /** `CustomerType.valueOf`: the constant with exactly this name; any
      other string throws IllegalArgumentException. */
  function ValueOf(name: string): (r: Result<CustomerType>)
    ensures r.Ok? <==> name == "REGULAR" || name == "VIP" || name == "ENTERPRISE"
    ensures r.Ok? ==> TypeName(r.value) == name
    ensures r.Err? ==> r.kind == Validation
  {
    if name == "REGULAR" then Ok(Regular)
    else if name == "VIP" then Ok(Vip)
    else if name == "ENTERPRISE" then Ok(Enterprise)
    else Err(Validation)
  }

  /** `valueOf` inverts the constant names. */
  lemma ValueOfInvertsName(t: CustomerType)
    ensures ValueOf(TypeName(t)) == Ok(t)
  {
  }

  /** REGULAR is the one tier without a discount; the three constants have
      pairwise distinct names and descriptions. */
  lemma CustomerTypeFacts(t: CustomerType, u: CustomerType)
    ensures !IsEligibleForDiscount(t) <==> t == Regular
    ensures t != u ==> TypeDescription(t) != TypeDescription(u)
    ensures t != u ==> TypeName(t) != TypeName(u)
  {
  }

  // ---------------------------------------------------------------------
  // Customer
  // ---------------------------------------------------------------------

  const MaxNameLength: nat := 50

  datatype Customer = Customer(
    id: CustomerId,
    name: string,
    email: Email,
    ctype: CustomerType,
    active: bool)

  /** What the constructor establishes and every operation keeps. */
  predicate Valid(c: Customer) {
    && !Blank(c.name)
    && Utf16Length(c.name) <= MaxNameLength
    && IsValidEmail(c.email.value)
  }

  /** `Customer.create`: a new active customer with the trimmed name. */
  function Create(id: CustomerId, name: string, email: Email, ctype: CustomerType): (r: Result<Customer>)
    ensures r.Ok? <==> !Blank(name) && Utf16Length(name) <= MaxNameLength
    ensures r.Err? ==> r.kind == Validation
    ensures r.Ok? ==> r.value.active && r.value.name == Trim(name) && !Blank(r.value.name)
    ensures r.Ok? ==> r.value.id == id && r.value.email == email && r.value.ctype == ctype
    ensures r.Ok? && IsValidEmail(email.value) ==> Valid(r.value)
  {
    match ValidateName(name, MaxNameLength)
    case Err(k) => Err(k)
    case Ok(n) => Ok(Customer(id, n, email, ctype, true))
  }

  /** `Customer.restore`: the same validation; the activation flag is taken
      from the caller. */
  function Restore(id: CustomerId, name: string, email: Email, ctype: CustomerType, active: bool): (r: Result<Customer>)
    ensures r.Ok? <==> Create(id, name, email, ctype).Ok?
    ensures r.Ok? ==> r.value == Create(id, name, email, ctype).value.(active := active)
  {
    match Create(id, name, email, ctype)
    case Err(k) => Err(k)
    case Ok(c) => Ok(c.(active := active))
  }

  /** `updateInfo`: refused while inactive; otherwise the validated name and
      the email are replaced and tier and activation are kept. */
  function UpdateInfo(c: Customer, newName: string, newEmail: Email): (r: Outcome<Customer>)
    ensures !c.active ==> r == Threw(BusinessRule, c)
    ensures r.Returned? <==> c.active && !Blank(newName) && Utf16Length(newName) <= MaxNameLength
    ensures r.Returned? ==> r.state == c.(name := Trim(newName), email := newEmail)
    ensures r.Threw? ==> r.state == c
    ensures r.Threw? && c.active ==> r.kind == Validation
    ensures Valid(c) && IsValidEmail(newEmail.value) ==> Valid(r.state)
  {
    if !c.active then Threw(BusinessRule, c)
    else match ValidateName(newName, MaxNameLength)
      case Err(k) => Threw(k, c)
      case Ok(n) => Returned(c.(name := n, email := newEmail))
  }

  /** `upgradeToVip`: refused while inactive or already VIP; an ENTERPRISE
      customer is moved to VIP as well. */
  function UpgradeToVip(c: Customer): (r: Outcome<Customer>)
    ensures r.Returned? <==> c.active && c.ctype != Vip
    ensures r.Returned? ==> r.state == c.(ctype := Vip)
    ensures r.Threw? ==> r == Threw(BusinessRule, c)
    ensures r.state.ctype == Vip || r.state == c
  {
    if !c.active then Threw(BusinessRule, c)
    else if c.ctype == Vip then Threw(BusinessRule, c)
    else Returned(c.(ctype := Vip))
  }

  /** `deactivate`: refused when already inactive. */
  function Deactivate(c: Customer): (r: Outcome<Customer>)
    ensures r.Returned? <==> c.active
    ensures r.Returned? ==> r.state == c.(active := false)
    ensures r.Threw? ==> r == Threw(BusinessRule, c)
  {
    if !c.active then Threw(BusinessRule, c)
    else Returned(c.(active := false))
  }

  /** `activate`: refused when already active. */
  function Activate(c: Customer): (r: Outcome<Customer>)
    ensures r.Returned? <==> !c.active
    ensures r.Returned? ==> r.state == c.(active := true)
    ensures r.Threw? ==> r == Threw(BusinessRule, c)
  {
    if c.active then Threw(BusinessRule, c)
    else Returned(c.(active := true))
  }

  /** `canReceiveDiscount`. */
  predicate CanReceiveDiscount(c: Customer) {
    c.active && IsEligibleForDiscount(c.ctype)
  }

  /** How the mutators move a customer in and out of the discount:
      updating the details keeps eligibility as it was, deactivation always
      revokes it, and activation grants it exactly to VIP and ENTERPRISE
      customers. */
  lemma DiscountFollowsLifecycle(c: Customer, newName: string, newEmail: Email)
    ensures UpdateInfo(c, newName, newEmail).Returned? ==>
      (CanReceiveDiscount(UpdateInfo(c, newName, newEmail).state) <==> CanReceiveDiscount(c))
    ensures Deactivate(c).Returned? ==> !CanReceiveDiscount(Deactivate(c).state)
    ensures Activate(c).Returned? ==>
      (CanReceiveDiscount(Activate(c).state) <==> c.ctype == Vip || c.ctype == Enterprise)
  {
  }

  /** Deactivating and then activating restores the customer exactly, and
      so does the reverse order; a repeated toggle is refused. */
  lemma ActivationRoundTrip(c: Customer)
    ensures c.active ==> Deactivate(c).Returned? && Activate(Deactivate(c).state) == Returned(c)
    ensures !c.active ==> Activate(c).Returned? && Deactivate(Activate(c).state) == Returned(c)
    ensures c.active ==> Activate(c).Threw?
    ensures !c.active ==> Deactivate(c).Threw?
  {
  }

  /** A successful upgrade makes an active customer discount-eligible, and
      a second upgrade is refused. */
  lemma UpgradeGrantsDiscount(c: Customer)
    requires UpgradeToVip(c).Returned?
    ensures CanReceiveDiscount(UpgradeToVip(c).state)
    ensures UpgradeToVip(UpgradeToVip(c).state).Threw?
  {
  }

  /** An inactive customer can neither receive a discount nor be changed,
      except by activation. */
  lemma InactiveIsFrozen(c: Customer, newName: string, newEmail: Email)
    requires !c.active
    ensures !CanReceiveDiscount(c)
    ensures UpdateInfo(c, newName, newEmail) == Threw(BusinessRule, c)
    ensures UpgradeToVip(c) == Threw(BusinessRule, c)
    ensures Deactivate(c) == Threw(BusinessRule, c)
  {
  }
}
