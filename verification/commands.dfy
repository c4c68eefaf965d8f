/**
 * The command records that carry the application layer's inputs. Each
 * compact constructor guards its fields; a command that exists has passed
 * those guards.
 */
module Commands {
  import opened Shared
  import opened ValueObjects
  import Products
  import opened Customers

  // ---------------------------------------------------------------------
  // CreateProductCommand
  // ---------------------------------------------------------------------

  datatype CreateProductCommand = CreateProductCommand(
    name: string,
    description: Option<string>,
    price: Decimal,
    currency: string,
    stockQuantity: int)

  /** The compact constructor: a blank name, a missing or negative price, a
      blank currency and a negative stock are rejected, in that order. The
      name length is not checked here. */
  function NewCreateProductCommand(name: string, description: Option<string>, price: Option<Decimal>, currency: string, stockQuantity: int): (r: Result<CreateProductCommand>)
    ensures r.Ok? <==>
      && !Blank(name)
      && price.Some? && price.value.unscaled >= 0
      && !Blank(currency)
      && stockQuantity >= 0
    ensures r.Err? ==> r.kind == Validation
    ensures r.Ok? ==>
      && r.value.name == name && r.value.description == description
      && r.value.price == price.value && r.value.currency == currency
      && r.value.stockQuantity == stockQuantity
  {
    if Blank(name) then Err(Validation)
    else if price.None? || price.value.unscaled < 0 then Err(Validation)
    else if Blank(currency) then Err(Validation)
    else if stockQuantity < 0 then Err(Validation)
    else Ok(CreateProductCommand(name, description, price.value, currency, stockQuantity))
  }

  /** Every accepted command has a price Money accepts, in the command's
      currency, and a stock Product accepts; the name, however, is bounded
      only by Product: a zero-priced product with a 101-character name
      passes the command and is refused by `Product.create`. */
  lemma ProductCommandDefersNameLength(name: string, description: Option<string>, price: Option<Decimal>, currency: string, stockQuantity: int)
    requires NewCreateProductCommand(name, description, price, currency, stockQuantity).Ok?
    ensures NewMoney(price, Some(currency)).Ok? && NewMoney(price, Some(currency)).value.currency == currency
    ensures Products.ValidateStockQuantity(stockQuantity).Ok?
    ensures ValidateName(name, Products.MaxNameLength).Ok? <==> Utf16Length(name) <= Products.MaxNameLength
    ensures var long := seq(101, i => 'a');
      && NewCreateProductCommand(long, None, Some(Decimal(0, 0)), CNY, 0).Ok?
      && Products.Create("p", long, None, Money(0, CNY), 0).Err?
  {
    var long := seq(101, i => 'a');
    assert !IsSpace(long[0]) && !IsSpace(CNY[0]);
  }

  // ---------------------------------------------------------------------
  // AddProductToOrderCommand
  // ---------------------------------------------------------------------

  datatype AddProductToOrderCommand = AddProductToOrderCommand(
    orderId: string,
    productId: string,
    quantity: int)

  /** The compact constructor: both ids non-blank and a positive quantity. */
  function NewAddProductToOrderCommand(orderId: string, productId: string, quantity: int): (r: Result<AddProductToOrderCommand>)
    ensures r.Ok? <==> !Blank(orderId) && !Blank(productId) && quantity > 0
    ensures r.Err? ==> r.kind == Validation
    ensures r.Ok? ==> r.value.orderId == orderId && r.value.productId == productId && r.value.quantity == quantity
    ensures r.Ok? ==> r.value.quantity >= 1
  {
    if Blank(orderId) then Err(Validation)
    else if Blank(productId) then Err(Validation)
    else if quantity <= 0 then Err(Validation)
    else Ok(AddProductToOrderCommand(orderId, productId, quantity))
  }

  // ---------------------------------------------------------------------
  // CreateCustomerCommand
  // ---------------------------------------------------------------------

  datatype CreateCustomerCommand = CreateCustomerCommand(
    name: string,
    email: string,
    customerType: string)

  /** The compact constructor: name, email and type must be non-blank. The
      email's format and the type's spelling are not checked here. */
  function NewCreateCustomerCommand(name: string, email: string, customerType: string): (r: Result<CreateCustomerCommand>)
    ensures r.Ok? <==> !Blank(name) && !Blank(email) && !Blank(customerType)
    ensures r.Err? ==> r.kind == Validation
    ensures r.Ok? ==> r.value.name == name && r.value.email == email && r.value.customerType == customerType
  {
    if Blank(name) then Err(Validation)
    else if Blank(email) then Err(Validation)
    else if Blank(customerType) then Err(Validation)
    else Ok(CreateCustomerCommand(name, email, customerType))
  }

  /** `getEmailValueObject`: the Email constructor applied to the field; a
      malformed address is refused here, not when the command is built. */
  function GetEmailValueObject(cmd: CreateCustomerCommand): (r: Result<Email>)
    ensures r.Ok? <==> IsValidEmail(cmd.email)
    ensures r.Ok? ==> r.value.value == cmd.email
    ensures r.Err? ==> r.kind == Validation
  {
    IsValidEmailMatchesPattern(cmd.email);
    NewEmail(cmd.email)
  }

  /** `getCustomerTypeEnum`: `valueOf` of the upper-cased field, so any
      spelling of the three names is accepted and anything else refused. */
  function GetCustomerTypeEnum(cmd: CreateCustomerCommand): (r: Result<CustomerType>)
    ensures r.Ok? <==> exists t: CustomerType :: TypeName(t) == ToUpper(cmd.customerType)
    ensures r.Ok? ==> TypeName(r.value) == ToUpper(cmd.customerType)
    ensures r.Err? ==> r.kind == Validation
  {
    var r := ValueOf(ToUpper(cmd.customerType));
    assert r.Err? ==> forall t: CustomerType :: TypeName(t) != ToUpper(cmd.customerType) by {
      if r.Err? {
        forall t: CustomerType ensures TypeName(t) != ToUpper(cmd.customerType) {
          ValueOfInvertsName(t);
        }
      }
    }
    r
  }

  /** A command built from a syntactically free address passes its own
      guard yet yields no Email. */
  lemma EmailCheckedLate()
    ensures NewCreateCustomerCommand("Ann", "ann", "VIP").Ok?
    ensures GetEmailValueObject(NewCreateCustomerCommand("Ann", "ann", "VIP").value).Err?
  {
    assert !IsSpace("Ann"[0]) && !IsSpace("ann"[0]) && !IsSpace("VIP"[0]);
    assert IndexOf("ann", '@').None? by {
      assert "ann"[1..] == "nn";
      assert "nn"[1..] == "n";
      assert "n"[1..] == "";
    }
  }

  /** The type is matched case-insensitively: any spelling whose upper case
      is a constant's name gives that constant, for example "vip" and
      "Enterprise". */
  lemma CustomerTypeIgnoresCase(cmd: CreateCustomerCommand, t: CustomerType)
    requires ToUpper(cmd.customerType) == TypeName(t)
    ensures GetCustomerTypeEnum(cmd) == Ok(t)
    ensures GetCustomerTypeEnum(cmd.(customerType := "vip")) == Ok(Vip)
    ensures GetCustomerTypeEnum(cmd.(customerType := "Enterprise")) == Ok(Enterprise)
  {
    ValueOfInvertsName(t);
    assert ToUpper("vip") == "VIP";
    assert ToUpper("Enterprise") == "ENTERPRISE";
  }
}
