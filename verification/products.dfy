/**
 * The Product aggregate: a catalogue entry with a price, a stock count and
 * an on-shelf flag.
 */
module Products {
  import opened Shared
  import opened ValueObjects

  const MaxNameLength: nat := 100
  const MaxDescriptionLength: nat := 500

  datatype Product = Product(
    id: ProductId,
    name: string,
    description: string,
    price: Money,
    stock: int,
    available: bool)

  /** What the validators establish and every operation keeps: a non-blank
      trimmed name within bounds, a bounded description, stock never below
      zero. */
  predicate Valid(p: Product) {
    && !Blank(p.name)
    && Utf16Length(p.name) <= MaxNameLength
    && Utf16Length(p.description) <= MaxDescriptionLength
    && p.stock >= 0
  }

  /** `validateDescription`: at most 500 UTF-16 code units; stored
      trimmed; null becomes the empty string. */
  function ValidateDescription(description: Option<string>): (r: Result<string>)
    ensures r.Ok? <==> description.None? || Utf16Length(description.value) <= MaxDescriptionLength
    ensures r.Err? ==> r.kind == Validation
    ensures r.Ok? ==> Utf16Length(r.value) <= MaxDescriptionLength
    ensures r.Ok? && description.None? ==> r.value == ""
    ensures r.Ok? && description.Some? ==> r.value == Trim(description.value)
  {
    match description
    case None => Ok("")
    case Some(d) =>
      if Utf16Length(d) > MaxDescriptionLength then Err(Validation)
      else
        TrimUtf16Length(d);
        Ok(Trim(d))
  }

  /** `validateStockQuantity`. */
  function ValidateStockQuantity(stock: int): (r: Result<nat>)
    ensures r.Ok? <==> stock >= 0
    ensures r.Err? ==> r.kind == Validation
    ensures r.Ok? ==> r.value == stock
  {
    if stock < 0 then Err(Validation) else Ok(stock)
  }

  /** The private constructor: validates name, description and stock in
      that order and puts the product on the shelf. */
  function Construct(id: ProductId, name: string, description: Option<string>, price: Money, stock: int): Result<Product> {
    match ValidateName(name, MaxNameLength)
    case Err(k) => Err(k)
    case Ok(n) =>
      match ValidateDescription(description)
      case Err(k) => Err(k)
      case Ok(d) =>
        match ValidateStockQuantity(stock)
        case Err(k) => Err(k)
        case Ok(q) => Ok(Product(id, n, d, price, q, true))
  }

  /** `Product.create`: a new valid product, on the shelf, holding exactly
      the validated input. */
  function Create(id: ProductId, name: string, description: Option<string>, price: Money, stock: int): (r: Result<Product>)
    ensures r.Ok? <==>
      && !Blank(name) && Utf16Length(name) <= MaxNameLength
      && (description.None? || Utf16Length(description.value) <= MaxDescriptionLength)
      && stock >= 0
    ensures r.Err? ==> r.kind == Validation
    ensures r.Ok? ==> Valid(r.value) && r.value.available
    ensures r.Ok? ==> r.value.id == id && r.value.name == Trim(name) && r.value.price == price && r.value.stock == stock
    ensures r.Ok? ==> r.value.description == (if description.None? then "" else Trim(description.value))
  {
    Construct(id, name, description, price, stock)
  }

  /** `Product.restore`: the same validation as `create`; only the shelf
      flag is taken from the caller. */
  function Restore(id: ProductId, name: string, description: Option<string>, price: Money, stock: int, available: bool): (r: Result<Product>)
    ensures r.Ok? <==> Create(id, name, description, price, stock).Ok?
    ensures r.Err? ==> r == Create(id, name, description, price, stock)
    ensures r.Ok? ==> r.value == Create(id, name, description, price, stock).value.(available := available)
    ensures r.Ok? ==> Valid(r.value)
  {
    match Construct(id, name, description, price, stock)
    case Err(k) => Err(k)
    case Ok(p) => Ok(p.(available := available))
  }

  /** `updateInfo`: refused off the shelf; otherwise name, description and
      price are replaced after the same validation as at creation. The name
      is stored before the description is checked, so a too-long description
      throws with the new name already in place. */
  function UpdateInfo(p: Product, newName: string, newDescription: Option<string>, newPrice: Money): (r: Outcome<Product>)
    ensures !p.available ==> r == Threw(BusinessRule, p)
    ensures r.Returned? <==>
      && p.available
      && ValidateName(newName, MaxNameLength).Ok?
      && ValidateDescription(newDescription).Ok?
    ensures r.Returned? ==> r.state == p.(name := Trim(newName),
                                          description := ValidateDescription(newDescription).value,
                                          price := newPrice)
    ensures r.Threw? && p.available ==> r.kind == Validation
    ensures p.available && ValidateName(newName, MaxNameLength).Ok? ==> r.state.name == Trim(newName)
    ensures p.available && ValidateName(newName, MaxNameLength).Err? ==> r == Threw(Validation, p)
    ensures r.Threw? ==> r.state.description == p.description && r.state.price == p.price
    ensures r.state.id == p.id && r.state.stock == p.stock && r.state.available == p.available
    ensures Valid(p) ==> Valid(r.state)
  {
    if !p.available then Threw(BusinessRule, p)
    else match ValidateName(newName, MaxNameLength)
      case Err(k) => Threw(k, p)
      case Ok(n) =>
        var named := p.(name := n);
        match ValidateDescription(newDescription)
        case Err(k) => Threw(k, named)
        case Ok(d) => Returned(named.(description := d, price := newPrice))
  }

  /** `reduceStock`: refused off the shelf, for a non-positive quantity, or
      beyond the stock; otherwise stock drops by exactly the quantity. */
  function ReduceStock(p: Product, quantity: int): (r: Outcome<Product>)
    ensures r.Returned? <==> p.available && 0 < quantity <= p.stock
    ensures r.Returned? ==> r.state == p.(stock := p.stock - quantity)
    ensures r.Threw? ==> r.state == p
    ensures r.Threw? ==> r.kind == (if p.available && quantity <= 0 then Validation else BusinessRule)
    ensures Valid(p) ==> Valid(r.state)
  {
    if !p.available then Threw(BusinessRule, p)
    else if quantity <= 0 then Threw(Validation, p)
    else if p.stock < quantity then Threw(BusinessRule, p)
    else Returned(p.(stock := p.stock - quantity))
  }

  /** `increaseStock`: refused for a non-positive quantity; otherwise stock
      grows by exactly the quantity, on or off the shelf. */
  function IncreaseStock(p: Product, quantity: int): (r: Outcome<Product>)
    ensures r.Returned? <==> quantity > 0
    ensures r.Returned? ==> r.state == p.(stock := p.stock + quantity)
    ensures r.Threw? ==> r == Threw(Validation, p)
    ensures Valid(p) ==> Valid(r.state)
  {
    if quantity <= 0 then Threw(Validation, p)
    else Returned(p.(stock := p.stock + quantity))
  }

  /** `takeOffShelf`: refused when already off the shelf. */
  function TakeOffShelf(p: Product): (r: Outcome<Product>)
    ensures r.Returned? <==> p.available
    ensures r.Returned? ==> r.state == p.(available := false)
    ensures r.Threw? ==> r == Threw(BusinessRule, p)
    ensures Valid(p) ==> Valid(r.state)
  {
    if !p.available then Threw(BusinessRule, p)
    else Returned(p.(available := false))
  }

  /** `putOnShelf`: refused when already on the shelf or out of stock. */
  function PutOnShelf(p: Product): (r: Outcome<Product>)
    ensures r.Returned? <==> !p.available && !IsOutOfStock(p)
    ensures r.Returned? ==> r.state == p.(available := true)
    ensures r.Threw? ==> r == Threw(BusinessRule, p)
    ensures Valid(p) ==> Valid(r.state)
  {
    if p.available then Threw(BusinessRule, p)
    else if p.stock <= 0 then Threw(BusinessRule, p)
    else Returned(p.(available := true))
  }

  /** `hasEnoughStock`. */
  predicate HasEnoughStock(p: Product, quantity: int) {
    p.available && p.stock >= quantity
  }

  /** `isOutOfStock`. */
  predicate IsOutOfStock(p: Product) {
    p.stock <= 0
  }

  /** `isOutOfStock` is the negation of `hasEnoughStock` for a single unit
      on the shelf, and an out-of-stock product cannot go back on it. */
  lemma OutOfStockIffNoUnitLeft(p: Product)
    ensures p.available ==> (IsOutOfStock(p) <==> !HasEnoughStock(p, 1))
    ensures IsOutOfStock(p) ==> PutOnShelf(p).Threw?
  {
  }

  /** For a positive quantity, `hasEnoughStock` is exactly the condition
      under which `reduceStock` succeeds. */
  lemma HasEnoughStockIffReduceSucceeds(p: Product, quantity: int)
    requires quantity > 0
    ensures HasEnoughStock(p, quantity) <==> ReduceStock(p, quantity).Returned?
  {
  }

  /** Restocking what was taken restores the product. */
  lemma IncreaseUndoesReduce(p: Product, quantity: int)
    requires ReduceStock(p, quantity).Returned?
    ensures IncreaseStock(ReduceStock(p, quantity).state, quantity) == Returned(p)
  {
  }

  /** Taking a stocked product off the shelf and back on restores it. */
  lemma PutOnShelfUndoesTakeOff(p: Product)
    requires p.available && !IsOutOfStock(p)
    ensures TakeOffShelf(p).Returned?
    ensures PutOnShelf(TakeOffShelf(p).state) == Returned(p)
  {
  }

  /** Off the shelf, the only operation that changes anything is restocking
      (and putting it back when stocked). */
  lemma OffShelfIsFrozen(p: Product, quantity: int, newName: string, newDescription: Option<string>, newPrice: Money)
    requires !p.available
    ensures ReduceStock(p, quantity) == Threw(BusinessRule, p)
    ensures UpdateInfo(p, newName, newDescription, newPrice) == Threw(BusinessRule, p)
    ensures TakeOffShelf(p) == Threw(BusinessRule, p)
    ensures !HasEnoughStock(p, quantity)
  {
  }
}
