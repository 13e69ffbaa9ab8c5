/**
  Checkout: converts the user's cart into a `pending` order whose lines
  freeze each product's current price, deletes the cart's items, and
  commits both effects together.
*/
module OrderService {
  import opened Wrappers
  import opened Models
  import opened Store
  import opened CartSchema
  import opened CartService

  /** Raised as `ValueError("Cart is empty")`. */
  datatype CheckoutError = CartIsEmpty

  function LineFor(item: CartItem, catalog: map<ProductId, Price>): OrderItem
    requires item.productId in catalog
  {
    OrderItem(item.productId, item.quantity, catalog[item.productId])
  }

  /** The order lines checkout builds from the cart items, one per item in cart order. */
  function OrderLines(items: seq<CartItem>, catalog: map<ProductId, Price>): seq<OrderItem>
    requires InCatalog(items, catalog)
  {
    if items == [] then [] else [LineFor(items[0], catalog)] + OrderLines(items[1..], catalog)
  }

  /** Line `i` of the order carries item `i`'s product and quantity and that product's price at checkout. */
  lemma {:induction false} OrderLinesPointwise(items: seq<CartItem>, catalog: map<ProductId, Price>)
    requires InCatalog(items, catalog)
    ensures |OrderLines(items, catalog)| == |items|
    ensures forall i :: 0 <= i < |items| ==>
      && OrderLines(items, catalog)[i].productId == items[i].productId
      && OrderLines(items, catalog)[i].quantity == items[i].quantity
      && OrderLines(items, catalog)[i].priceAtPurchase == catalog[items[i].productId]
  {
    if items != [] {
      OrderLinesPointwise(items[1..], catalog);
      var lines := OrderLines(items, catalog);
      forall i | 1 <= i < |items|
        ensures lines[i] == OrderLines(items[1..], catalog)[i - 1]
      {
      }
    }
  }

  lemma {:induction false} OrderLinesAppend(items: seq<CartItem>, item: CartItem, catalog: map<ProductId, Price>)
    requires InCatalog(items, catalog) && item.productId in catalog
    ensures InCatalog(items + [item], catalog)
    ensures OrderLines(items + [item], catalog) == OrderLines(items, catalog) + [LineFor(item, catalog)]
  {
    if items == [] {
      assert items + [item] == [item];
    } else {
      assert (items + [item])[1..] == items[1..] + [item];
      OrderLinesAppend(items[1..], item, catalog);
    }
  }

  /** The order total equals the cart total the user was shown at the moment of checkout. */
  lemma {:induction false} OrderTotalIsCartTotal(items: seq<CartItem>, catalog: map<ProductId, Price>)
    requires InCatalog(items, catalog)
    ensures LinesTotal(OrderLines(items, catalog)) == CartTotal(items, catalog)
  {
    if items != [] {
      OrderTotalIsCartTotal(items[1..], catalog);
    }
  }

  /** A cart with one item per product yields an order with one line per product. */
  lemma OrderLinesUnique(items: seq<CartItem>, catalog: map<ProductId, Price>)
    requires InCatalog(items, catalog) && UniqueProducts(items)
    ensures UniqueLineProducts(OrderLines(items, catalog))
  {
    OrderLinesPointwise(items, catalog);
  }

  /** The persisted order with a given id, as the re-read after commit finds it. */
  function FindOrder(orders: seq<Order>, id: nat): (r: Option<Order>)
    ensures r.Some? ==> r.value in orders && r.value.id == id
    ensures r.None? ==> forall i :: 0 <= i < |orders| ==> orders[i].id != id
  {
    if orders == [] then None
    else if orders[|orders| - 1].id == id then Some(orders[|orders| - 1])
    else FindOrder(orders[..|orders| - 1], id)
  }

  /**
    The pricing loop of checkout: one line per cart item with the product's
    current price, and the running total of price times quantity.
  */
  method PriceLines(items: seq<CartItem>, catalog: map<ProductId, Price>)
    returns (orderItems: seq<OrderItem>, totalPrice: Price)
    requires InCatalog(items, catalog)
    ensures orderItems == OrderLines(items, catalog)
    ensures totalPrice == LinesTotal(orderItems)
  {
    totalPrice := 0.0;
    orderItems := [];
    var i := 0;
    while i < |items|
      invariant 0 <= i <= |items|
      invariant orderItems == OrderLines(items[..i], catalog)
      invariant totalPrice == LinesTotal(orderItems)
    {
      var item := items[i];
      var price := catalog[item.productId];
      LinesTotalAppend(orderItems, OrderItem(item.productId, item.quantity, price));
      OrderLinesAppend(items[..i], item, catalog);
      assert items[..i + 1] == items[..i] + [item];
      totalPrice := totalPrice + price * item.quantity as real;
      orderItems := orderItems + [OrderItem(item.productId, item.quantity, price)];
      i := i + 1;
    }
    assert items[..i] == items;
  }

  class OrderService {
    const db: Db
    const cartService: CartService

    constructor (db: Db)
      ensures this.db == db && cartService.db == db
    {
      this.db := db;
      cartService := new CartService(db);
    }

    /**
      Checkout. An empty cart fails with CartIsEmpty and creates no order
      (the cart may have been created on the way). Otherwise one `pending`
      order is appended whose lines snapshot the current prices and whose
      total is their sum, the cart is emptied, and the re-read order is
      returned. `now` is the database clock at insertion.
    */
    method CreateOrder(userId: UserId, now: int) returns (r: Result<Order, CheckoutError>)
      requires cartService.db == db
      requires db.Valid()
      modifies db`carts, db`nextCartId, db`orders, db`nextOrderId
      ensures db.Valid()
      ensures db.nextCartId == CartIdAfter(old(db.carts), old(db.nextCartId), userId)
      ensures var before := ExistingOrNew(old(db.carts), old(db.nextCartId), userId);
        if before.items == [] then
          && r == Failure(CartIsEmpty)
          && db.carts == old(db.carts)[userId := before]
          && db.orders == old(db.orders) && db.nextOrderId == old(db.nextOrderId)
        else
          && r.Success?
          && r.value == Order(old(db.nextOrderId), userId, now,
                              LinesTotal(OrderLines(before.items, db.catalog)),
                              OrderLines(before.items, db.catalog))
          && db.orders == old(db.orders) + [r.value]
          && db.nextOrderId == old(db.nextOrderId) + 1
          && db.carts == old(db.carts)[userId := before.(items := [])]
    {
      var cart := cartService.GetOrCreateCart(userId);
      if cart.items == [] {
        return Failure(CartIsEmpty);
      }

      var orderItems, totalPrice := PriceLines(cart.items, db.catalog);
      OrderLinesUnique(cart.items, db.catalog);
      var order := Order(db.nextOrderId, userId, now, totalPrice, orderItems);
      db.AppendOrder(order);

      db.DeleteCartItems(userId);

      var persisted := FindOrder(db.orders, order.id);
      assert persisted == Some(order);
      r := Success(persisted.value);
    }
  }
}
