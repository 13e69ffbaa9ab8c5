/**
  The database the services share, as one sequential in-memory store:
  the product catalog (`products.price`), the carts keyed by their unique
  `user_id`, the append-only list of orders, and the next primary keys.
*/
module Store {
  import opened Models

  /** Product prices are validated to be positive when a product is written. */
  ghost predicate CatalogValid(catalog: map<ProductId, Price>) {
    forall p :: p in catalog ==> catalog[p] > 0.0
  }

  /**
    One cart per user, distinct cart ids, foreign keys to products, one item
    per product, and every quantity within its column's range.
  */
  ghost predicate CartsValid(carts: map<UserId, Cart>, catalog: map<ProductId, Price>, nextCartId: nat) {
    && (forall u :: u in carts ==> carts[u].userId == u && carts[u].id < nextCartId)
    && (forall u :: u in carts ==> UniqueProducts(carts[u].items) && InCatalog(carts[u].items, catalog))
    && (forall u :: u in carts ==> QuantitiesFit(carts[u].items))
    && (forall u, v :: u in carts && v in carts && u != v ==> carts[u].id != carts[v].id)
  }

  /**
    Order ids increase along the list; every order is pending, has one line
    per product, and its total is the sum of its own frozen lines.
  */
  ghost predicate OrdersValid(orders: seq<Order>, nextOrderId: nat) {
    && (forall i :: 0 <= i < |orders| ==> orders[i].id < nextOrderId && OrderConsistent(orders[i]))
    && (forall i :: 0 <= i < |orders| ==> orders[i].status == PendingStatus && UniqueLineProducts(orders[i].items))
    && (forall i, j :: 0 <= i < j < |orders| ==> orders[i].id < orders[j].id)
  }

  /** Replacing a user's cart by one with the same id and a valid item list keeps the carts valid. */
  lemma CartsValidReplace(carts: map<UserId, Cart>, catalog: map<ProductId, Price>, nextCartId: nat, c: Cart)
    requires CartsValid(carts, catalog, nextCartId)
    requires c.userId in carts && carts[c.userId].id == c.id
    requires UniqueProducts(c.items) && InCatalog(c.items, catalog) && QuantitiesFit(c.items)
    ensures CartsValid(carts[c.userId := c], catalog, nextCartId)
  {
  }

  /** Appending an order with the next id whose total matches its lines keeps the orders valid. */
  lemma OrdersValidAppend(orders: seq<Order>, nextOrderId: nat, o: Order)
    requires OrdersValid(orders, nextOrderId)
    requires o.id == nextOrderId && OrderConsistent(o)
    requires o.status == PendingStatus && UniqueLineProducts(o.items)
    ensures OrdersValid(orders + [o], nextOrderId + 1)
  {
  }

  class Db {
    var catalog: map<ProductId, Price>
    var carts: map<UserId, Cart>
    var orders: seq<Order>
    var nextCartId: nat
    var nextOrderId: nat

    ghost predicate Valid()
      reads this
    {
      CatalogValid(catalog) && CartsValid(carts, catalog, nextCartId) && OrdersValid(orders, nextOrderId)
    }

    constructor (catalog: map<ProductId, Price>)
      requires CatalogValid(catalog)
      ensures Valid()
      ensures this.catalog == catalog && carts == map[] && orders == []
    {
      this.catalog := catalog;
      carts := map[];
      orders := [];
      nextCartId := 0;
      nextOrderId := 0;
    }

    /** Deletes the loaded items of a user's cart one at a time; the cart row stays. */
    method DeleteCartItems(userId: UserId)
      requires Valid() && userId in carts
      modifies this`carts
      ensures Valid()
      ensures carts == old(carts)[userId := old(carts[userId]).(items := [])]
    {
      var cart := carts[userId];
      var i := 0;
      while i < |cart.items|
        invariant 0 <= i <= |cart.items|
        invariant Valid()
        invariant carts == old(carts)[userId := cart.(items := cart.items[i..])]
      {
        CartsValidReplace(carts, catalog, nextCartId, cart.(items := cart.items[i + 1..]));
        carts := carts[userId := cart.(items := cart.items[i + 1..])];
        i := i + 1;
      }
      assert cart.items[i..] == [];
    }

    /** Writes a new item list into a user's existing cart row. */
    method PutCartItems(userId: UserId, items: seq<CartItem>)
      requires Valid() && userId in carts
      requires UniqueProducts(items) && InCatalog(items, catalog) && QuantitiesFit(items)
      modifies this`carts
      ensures Valid()
      ensures carts == old(carts)[userId := old(carts[userId]).(items := items)]
    {
      CartsValidReplace(carts, catalog, nextCartId, carts[userId].(items := items));
      carts := carts[userId := carts[userId].(items := items)];
    }

    /** Inserts an order with the next id, which must be pending, consistent and one line per product. */
    method AppendOrder(o: Order)
      requires Valid()
      requires o.id == nextOrderId && OrderConsistent(o)
      requires o.status == PendingStatus && UniqueLineProducts(o.items)
      modifies this`orders, this`nextOrderId
      ensures Valid()
      ensures orders == old(orders) + [o] && nextOrderId == old(nextOrderId) + 1
    {
      OrdersValidAppend(orders, nextOrderId, o);
      orders := orders + [o];
      nextOrderId := nextOrderId + 1;
    }

    /**
      A change of a product's catalog price. Orders are not in the frame:
      their lines and totals keep the prices they were created with.
    */
    method PutProductPrice(productId: ProductId, price: Price)
      requires Valid()
      requires price > 0.0
      modifies this`catalog
      ensures Valid()
      ensures catalog == old(catalog)[productId := price]
      ensures orders == old(orders) && carts == old(carts)
    {
      catalog := catalog[productId := price];
    }
  }
}
