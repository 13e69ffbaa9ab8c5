/**
  The cart request bodies with their validation, and the computed
  `total_price` of the cart read model. A request field that is absent
  from the body is `None`.
*/
module CartSchema {
  import opened Wrappers
  import opened Models

  /** Body of an add request: the quantity defaults to 1 and has no bound. */
  datatype CartItemBase = CartItemBase(productId: ProductId, quantity: int := DefaultQuantity)

  /** Body of an update request, as declared by the second, effective definition. */
  datatype CartItemUpdate = CartItemUpdate(productId: ProductId, quantity: int)

  datatype ValidationError = MissingField(name: string) | QuantityNotPositive

  /** Validation of an add request: only `product_id` is required. */
  function ParseAdd(productId: Option<ProductId>, quantity: Option<int>): (r: Result<CartItemBase, ValidationError>)
    ensures r.Success? <==> productId.Some?
    ensures r.Success? ==> r.value.productId == productId.value
    ensures r.Success? && quantity.None? ==> r.value.quantity == 1
    ensures r.Success? && quantity.Some? ==> r.value.quantity == quantity.value
  {
    match productId
    case None => Failure(MissingField("product_id"))
    case Some(p) =>
      match quantity
      case None => Success(CartItemBase(p))
      case Some(q) => Success(CartItemBase(p, q))
  }

  /** Validation of an update request: both fields are required and the quantity must be above 0. */
  function ParseUpdate(productId: Option<ProductId>, quantity: Option<int>): (r: Result<CartItemUpdate, ValidationError>)
    ensures r.Success? <==> productId.Some? && quantity.Some? && quantity.value > 0
    ensures r.Success? ==> r.value == CartItemUpdate(productId.value, quantity.value)
    ensures quantity.Some? && quantity.value <= 0 ==> r.Failure?
  {
    if productId.None? then Failure(MissingField("product_id"))
    else if quantity.None? then Failure(MissingField("quantity"))
    else if quantity.value <= 0 then Failure(QuantityNotPositive)
    else Success(CartItemUpdate(productId.value, quantity.value))
  }

  /** `CartRead.total_price`: the sum over the items of the product's current price times quantity. */
  function CartTotal(items: seq<CartItem>, catalog: map<ProductId, Price>): Price
    requires InCatalog(items, catalog)
  {
    if items == [] then 0.0
    else catalog[items[0].productId] * items[0].quantity as real + CartTotal(items[1..], catalog)
  }

  /** The total of a concatenation is the sum of the totals. */
  lemma {:induction false} CartTotalConcat(a: seq<CartItem>, b: seq<CartItem>, catalog: map<ProductId, Price>)
    requires InCatalog(a, catalog) && InCatalog(b, catalog)
    ensures InCatalog(a + b, catalog)
    ensures CartTotal(a + b, catalog) == CartTotal(a, catalog) + CartTotal(b, catalog)
  {
    if a == [] {
      assert a + b == b;
    } else {
      assert (a + b)[1..] == a[1..] + b;
      CartTotalConcat(a[1..], b, catalog);
    }
  }

  /** With positive prices and quantities, a non-empty cart has a positive total and an empty one totals 0. */
  lemma {:induction false} CartTotalPositive(items: seq<CartItem>, catalog: map<ProductId, Price>)
    requires InCatalog(items, catalog)
    requires forall p :: p in catalog ==> catalog[p] > 0.0
    requires PositiveQuantities(items)
    ensures items == [] ==> CartTotal(items, catalog) == 0.0
    ensures items != [] ==> CartTotal(items, catalog) > 0.0
  {
    if items != [] {
      CartTotalPositive(items[1..], catalog);
      var price := catalog[items[0].productId];
      var q := items[0].quantity as real;
      assert price * q > 0.0;
    }
  }
}
