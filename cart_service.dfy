/**
  The cart store. The pure functions below state what each operation does
  to a cart's item list; the `CartService` class performs the operations on
  the shared database and is proved to follow them.
*/
module CartService {
  import opened Wrappers
  import opened Models
  import opened Store
  import opened CartSchema

  /** Index of the first item for product `p`: the `next(...)` search over `cart.items`. */
  function FindItem(items: seq<CartItem>, p: ProductId): (r: Option<nat>)
    ensures r.Some? ==> r.value < |items| && items[r.value].productId == p
    ensures r.Some? ==> forall j :: 0 <= j < r.value ==> items[j].productId != p
    ensures r.None? <==> !HasProduct(items, p)
  {
    if items == [] then None
    else if items[0].productId == p then Some(0)
    else match FindItem(items[1..], p)
      case None => None
      case Some(i) => Some(i + 1)
  }

  /** The cart a user sees on first access: the stored one, or a fresh empty cart. */
  function ExistingOrNew(carts: map<UserId, Cart>, nextCartId: nat, userId: UserId): Cart {
    if userId in carts then carts[userId] else Cart(nextCartId, userId)
  }

  function CartIdAfter(carts: map<UserId, Cart>, nextCartId: nat, userId: UserId): nat {
    if userId in carts then nextCartId else nextCartId + 1
  }

  /** add_item on the item list: increment the first matching item, or append a new one. */
  function AddedItems(items: seq<CartItem>, p: ProductId, q: int): seq<CartItem> {
    match FindItem(items, p)
    case Some(i) => items[i := items[i].(quantity := items[i].quantity + q)]
    case None => items + [CartItem(p, q)]
  }

  /** The quantity add_item writes: the existing item's quantity plus `q`, or `q` for a new item. */
  function MergedQuantity(items: seq<CartItem>, p: ProductId, q: int): int {
    match FindItem(items, p)
    case Some(i) => items[i].quantity + q
    case None => q
  }

  /** update_item_quantity on the item list: overwrite the first matching item's quantity. */
  function QuantitySet(items: seq<CartItem>, p: ProductId, q: int): seq<CartItem> {
    match FindItem(items, p)
    case Some(i) => items[i := items[i].(quantity := q)]
    case None => items
  }

  /** remove_item on the item list: delete the first matching item. */
  function RemovedItems(items: seq<CartItem>, p: ProductId): seq<CartItem> {
    match FindItem(items, p)
    case Some(i) => items[..i] + items[i + 1..]
    case None => items
  }

  /** Reference definition: the items of every product other than `p`, in order. */
  function Without(items: seq<CartItem>, p: ProductId): seq<CartItem> {
    if items == [] then []
    else if items[0].productId == p then Without(items[1..], p)
    else [items[0]] + Without(items[1..], p)
  }

  function Contribution(item: CartItem, p: ProductId): int {
    if item.productId == p then item.quantity else 0
  }

  /** The total quantity of product `p` over all items of a cart. */
  function QuantityOf(items: seq<CartItem>, p: ProductId): int {
    if items == [] then 0 else Contribution(items[0], p) + QuantityOf(items[1..], p)
  }

  // ---------------------------------------------------------------- lemmas

  /** Under the uniqueness invariant the search finds the one item of its product. */
  lemma FindUnique(items: seq<CartItem>, j: nat)
    requires UniqueProducts(items) && j < |items|
    ensures FindItem(items, items[j].productId) == Some(j)
  {
  }

  lemma {:induction false} QuantityOfUpdate(items: seq<CartItem>, i: nat, x: CartItem, p: ProductId)
    requires i < |items|
    ensures QuantityOf(items[i := x], p) == QuantityOf(items, p) - Contribution(items[i], p) + Contribution(x, p)
  {
    if i == 0 {
      assert items[i := x][1..] == items[1..];
    } else {
      assert items[i := x][1..] == items[1..][i - 1 := x];
      QuantityOfUpdate(items[1..], i - 1, x, p);
    }
  }

  lemma {:induction false} QuantityOfAppend(items: seq<CartItem>, x: CartItem, p: ProductId)
    ensures QuantityOf(items + [x], p) == QuantityOf(items, p) + Contribution(x, p)
  {
    if items == [] {
      assert items + [x] == [x];
    } else {
      assert (items + [x])[1..] == items[1..] + [x];
      QuantityOfAppend(items[1..], x, p);
    }
  }

  /**
    Adding `q` of product `p` raises the total quantity of `p` by exactly `q`
    and leaves every other product's quantity alone, duplicates or not.
  */
  lemma AddedQuantity(items: seq<CartItem>, p: ProductId, q: int, x: ProductId)
    ensures QuantityOf(AddedItems(items, p, q), x) == QuantityOf(items, x) + (if x == p then q else 0)
  {
    match FindItem(items, p)
    case Some(i) =>
      QuantityOfUpdate(items, i, items[i].(quantity := items[i].quantity + q), x);
    case None =>
      QuantityOfAppend(items, CartItem(p, q), x);
  }

  /** If `p` is in the cart its item grows by `q`, no item is added and nothing else changes. */
  lemma AddExistingIncrements(items: seq<CartItem>, p: ProductId, q: int)
    requires UniqueProducts(items) && HasProduct(items, p)
    ensures |AddedItems(items, p, q)| == |items|
    ensures forall j :: 0 <= j < |items| ==>
      && AddedItems(items, p, q)[j].productId == items[j].productId
      && AddedItems(items, p, q)[j].quantity == items[j].quantity + (if items[j].productId == p then q else 0)
  {
  }

  /** If `p` is not in the cart exactly one item `(p, q)` is appended after the others. */
  lemma AddAbsentAppends(items: seq<CartItem>, p: ProductId, q: int)
    requires !HasProduct(items, p)
    ensures AddedItems(items, p, q) == items + [CartItem(p, q)]
  {
  }

  lemma AddPreservesUnique(items: seq<CartItem>, p: ProductId, q: int)
    requires UniqueProducts(items)
    ensures UniqueProducts(AddedItems(items, p, q))
    ensures HasProduct(AddedItems(items, p, q), p)
  {
    var r := AddedItems(items, p, q);
    match FindItem(items, p)
    case Some(i) =>
      assert r[i].productId == p;
    case None =>
      assert r[|items|].productId == p;
  }

  /**
    The quantity add_item writes is the one `p`'s item ends up with, and when
    it fits the column every quantity of the new list does.
  */
  lemma AddKeepsFit(items: seq<CartItem>, p: ProductId, q: int)
    requires QuantitiesFit(items) && UniqueProducts(items)
    ensures QuantityOf(AddedItems(items, p, q), p) == MergedQuantity(items, p, q)
    ensures QuantitiesFit(AddedItems(items, p, q)) <==> FitsInt4(MergedQuantity(items, p, q))
  {
    AddedQuantity(items, p, q, p);
    QuantityOfUnique(items, p);
    var r := AddedItems(items, p, q);
    match FindItem(items, p)
    case Some(i) =>
      assert r[i].quantity == MergedQuantity(items, p, q);
    case None =>
      assert r[|items|].quantity == q;
  }

  /** With one item per product, a product's total quantity is that of its item, or 0. */
  lemma {:induction false} QuantityOfUnique(items: seq<CartItem>, p: ProductId)
    requires UniqueProducts(items)
    ensures QuantityOf(items, p) == match FindItem(items, p) case Some(i) => items[i].quantity case None => 0
  {
    if items != [] {
      QuantityOfUnique(items[1..], p);
      if items[0].productId == p {
        assert !HasProduct(items[1..], p) by {
          forall j | 0 <= j < |items[1..]| ensures items[1..][j].productId != p {
            assert items[1..][j] == items[j + 1];
          }
        }
      }
    }
  }

  /** Two adds of the same product merge: adding `a` then `b` is adding `a + b` once. */
  lemma AddTwice(items: seq<CartItem>, p: ProductId, a: int, b: int)
    requires UniqueProducts(items)
    ensures AddedItems(AddedItems(items, p, a), p, b) == AddedItems(items, p, a + b)
  {
    AddPreservesUnique(items, p, a);
    if HasProduct(items, p) {
      AddTwicePresent(items, p, a, b);
    } else {
      FindUnique(AddedItems(items, p, a), |items|);
    }
  }

  lemma AddTwicePresent(items: seq<CartItem>, p: ProductId, a: int, b: int)
    requires UniqueProducts(items) && HasProduct(items, p)
    ensures AddedItems(AddedItems(items, p, a), p, b) == AddedItems(items, p, a + b)
  {
    var i := FindItem(items, p).value;
    var once := items[i := items[i].(quantity := items[i].quantity + a)];
    assert AddedItems(items, p, a) == once;
    AddPreservesUnique(items, p, a);
    FindUnique(once, i);
  }

  /** Adding to the cart raises `CartRead.total_price` by the product's price times `q`. */
  lemma AddedTotal(items: seq<CartItem>, p: ProductId, q: int, catalog: map<ProductId, Price>)
    requires InCatalog(items, catalog) && p in catalog
    ensures InCatalog(AddedItems(items, p, q), catalog)
    ensures CartTotal(AddedItems(items, p, q), catalog) == CartTotal(items, catalog) + catalog[p] * q as real
  {
    match FindItem(items, p)
    case Some(i) =>
      var x := items[i].(quantity := items[i].quantity + q);
      assert AddedItems(items, p, q) == items[i := x];
      CartTotalUpdate(items, i, x, catalog);
    case None =>
      assert AddedItems(items, p, q) == items + [CartItem(p, q)];
      CartTotalConcat(items, [CartItem(p, q)], catalog);
  }

  lemma {:induction false} CartTotalUpdate(items: seq<CartItem>, i: nat, x: CartItem, catalog: map<ProductId, Price>)
    requires InCatalog(items, catalog) && i < |items| && x.productId == items[i].productId
    ensures InCatalog(items[i := x], catalog)
    ensures CartTotal(items[i := x], catalog)
         == CartTotal(items, catalog) + catalog[x.productId] * (x.quantity - items[i].quantity) as real
  {
    if i == 0 {
      assert items[i := x][1..] == items[1..];
    } else {
      assert items[i := x][1..] == items[1..][i - 1 := x];
      CartTotalUpdate(items[1..], i - 1, x, catalog);
    }
  }

  /** update_item_quantity sets `p`'s quantity to `q`; if `p` is absent the cart is unchanged. */
  lemma QuantitySetOverwrites(items: seq<CartItem>, p: ProductId, q: int)
    requires UniqueProducts(items)
    ensures !HasProduct(items, p) ==> QuantitySet(items, p, q) == items
    ensures |QuantitySet(items, p, q)| == |items|
    ensures forall j :: 0 <= j < |items| ==>
      && QuantitySet(items, p, q)[j].productId == items[j].productId
      && QuantitySet(items, p, q)[j].quantity == (if items[j].productId == p then q else items[j].quantity)
  {
  }

  lemma QuantitySetPreservesUnique(items: seq<CartItem>, p: ProductId, q: int)
    requires UniqueProducts(items)
    ensures UniqueProducts(QuantitySet(items, p, q))
  {
  }

  /** An update keeps every quantity within the column's range exactly when the new one fits or `p` is absent. */
  lemma QuantitySetKeepsFit(items: seq<CartItem>, p: ProductId, q: int)
    requires QuantitiesFit(items)
    ensures QuantitiesFit(QuantitySet(items, p, q)) <==> FitsInt4(q) || !HasProduct(items, p)
  {
    match FindItem(items, p)
    case None =>
    case Some(i) =>
      assert QuantitySet(items, p, q)[i].quantity == q;
  }

  lemma {:induction false} WithoutAbsent(items: seq<CartItem>, p: ProductId)
    requires !HasProduct(items, p)
    ensures Without(items, p) == items
  {
    if items != [] {
      assert !HasProduct(items[1..], p) by {
        forall j | 0 <= j < |items[1..]| ensures items[1..][j].productId != p {
          assert items[1..][j] == items[j + 1];
        }
      }
      WithoutAbsent(items[1..], p);
    }
  }

  /** Under the uniqueness invariant remove_item deletes exactly `p`'s item and keeps the rest in order. */
  lemma {:induction false} RemovedIsWithout(items: seq<CartItem>, p: ProductId)
    requires UniqueProducts(items)
    ensures RemovedItems(items, p) == Without(items, p)
  {
    if items == [] {
    } else if items[0].productId == p {
      assert !HasProduct(items[1..], p) by {
        forall j | 0 <= j < |items[1..]| ensures items[1..][j].productId != p {
          assert items[1..][j] == items[j + 1];
        }
      }
      WithoutAbsent(items[1..], p);
      assert items[..0] + items[1..] == items[1..];
    } else {
      RemovedIsWithout(items[1..], p);
      match FindItem(items[1..], p)
      case None =>
      case Some(k) =>
        assert FindItem(items, p) == Some(k + 1);
        assert items[..k + 1] + items[k + 2..] == [items[0]] + (items[1..][..k] + items[1..][k + 1..]);
    }
  }

  lemma {:induction false} WithoutProperties(items: seq<CartItem>, p: ProductId)
    ensures !HasProduct(Without(items, p), p)
    ensures forall x :: x in Without(items, p) <==> x in items && x.productId != p
    ensures UniqueProducts(items) ==> UniqueProducts(Without(items, p))
  {
    if items != [] {
      WithoutProperties(items[1..], p);
      var rest := Without(items[1..], p);
      if items[0].productId != p && UniqueProducts(items) {
        assert forall j :: 0 <= j < |rest| ==> rest[j] in items[1..];
        assert UniqueProducts(items[1..]);
        var r := [items[0]] + rest;
        forall i, j | 0 <= i < j < |r| ensures r[i].productId != r[j].productId {
          if i == 0 {
            assert r[j] in items[1..];
          } else {
            assert r[i] == rest[i - 1] && r[j] == rest[j - 1];
          }
        }
      }
    }
  }

  /** remove_item deletes `p` and is idempotent: a second removal changes nothing. */
  lemma RemoveIdempotent(items: seq<CartItem>, p: ProductId)
    requires UniqueProducts(items)
    ensures !HasProduct(RemovedItems(items, p), p)
    ensures UniqueProducts(RemovedItems(items, p))
    ensures RemovedItems(RemovedItems(items, p), p) == RemovedItems(items, p)
  {
    RemovedIsWithout(items, p);
    WithoutProperties(items, p);
  }

  /** After a removal, `p` has quantity 0 and every other product keeps its quantity. */
  lemma {:induction false} RemovedQuantity(items: seq<CartItem>, p: ProductId, x: ProductId)
    ensures QuantityOf(Without(items, p), x) == if x == p then 0 else QuantityOf(items, x)
  {
    if items != [] {
      RemovedQuantity(items[1..], p, x);
      if items[0].productId != p {
        assert ([items[0]] + Without(items[1..], p))[1..] == Without(items[1..], p);
      }
    }
  }

  /** Positive quantities survive add (of a positive amount), update (to a positive value) and removal. */
  lemma PositivePreserved(items: seq<CartItem>, p: ProductId, q: int)
    requires PositiveQuantities(items) && q > 0
    ensures PositiveQuantities(AddedItems(items, p, q))
    ensures PositiveQuantities(QuantitySet(items, p, q))
    ensures PositiveQuantities(RemovedItems(items, p))
  {
    match FindItem(items, p)
    case None =>
    case Some(i) =>
      var r := RemovedItems(items, p);
      forall j | 0 <= j < |r| ensures r[j].quantity > 0 {
        if j < i { assert r[j] == items[j]; } else { assert r[j] == items[j + 1]; }
      }
  }

  /** Removal keeps the foreign keys and the quantity ranges of the remaining items. */
  lemma RemovedRowsValid(items: seq<CartItem>, p: ProductId, catalog: map<ProductId, Price>)
    requires InCatalog(items, catalog) && QuantitiesFit(items)
    ensures InCatalog(RemovedItems(items, p), catalog) && QuantitiesFit(RemovedItems(items, p))
  {
    match FindItem(items, p)
    case None =>
    case Some(i) =>
      var r := RemovedItems(items, p);
      forall j | 0 <= j < |r| ensures r[j] == items[if j < i then j else j + 1] {
      }
  }

  /**
    The item list add_item responds with as written. The session keeps loaded
    objects after commit and the re-read does not reload an already loaded
    `items` collection, so the response shows an in-place increment but not an
    item inserted by `cart_id`.
  */
  function AddResponseAsWritten(items: seq<CartItem>, p: ProductId, q: int): seq<CartItem> {
    if HasProduct(items, p) then AddedItems(items, p, q) else items
  }

  /**
    The as-written add response equals the stored cart exactly when `p` was
    already in the cart; a newly added product is missing from it.
  */
  lemma StaleAddResponse(items: seq<CartItem>, p: ProductId, q: int)
    ensures AddResponseAsWritten(items, p, q) == AddedItems(items, p, q) <==> HasProduct(items, p)
    ensures !HasProduct(items, p) ==> !HasProduct(AddResponseAsWritten(items, p, q), p) && HasProduct(AddedItems(items, p, q), p)
  {
    if !HasProduct(items, p) {
      assert |AddedItems(items, p, q)| == |items| + 1;
      assert AddedItems(items, p, q)[|items|].productId == p;
    }
  }

  /**
    The item list remove_item responds with as written: the deleted object is
    not taken out of the loaded collection, so the list is the one before.
  */
  function RemoveResponseAsWritten(items: seq<CartItem>, p: ProductId): seq<CartItem> {
    items
  }

  /**
    The as-written remove response equals the stored cart exactly when `p` was
    not in the cart; a removed product is still listed.
  */
  lemma StaleRemoveResponse(items: seq<CartItem>, p: ProductId)
    requires UniqueProducts(items)
    ensures RemoveResponseAsWritten(items, p) == RemovedItems(items, p) <==> !HasProduct(items, p)
    ensures HasProduct(items, p) ==> HasProduct(RemoveResponseAsWritten(items, p), p) && !HasProduct(RemovedItems(items, p), p)
  {
    RemoveIdempotent(items, p);
  }

  datatype CartError =
    | UnknownProduct(productId: ProductId)
    | QuantityOutOfRange(quantity: int)

  // ---------------------------------------------------------------- service

  /**
    The in-memory part of add_item: find the product's item and increment
    it, or append a new item. The merged quantity must fit the column, and a
    new item's product must exist, or the commit that follows fails.
  */
  method MergeItem(items: seq<CartItem>, productId: ProductId, quantity: int, catalog: map<ProductId, Price>)
    returns (r: Result<seq<CartItem>, CartError>)
    requires InCatalog(items, catalog)
    ensures var merged := MergedQuantity(items, productId, quantity);
      if !FitsInt4(merged) then r == Failure(QuantityOutOfRange(merged))
      else if productId in catalog then r == Success(AddedItems(items, productId, quantity))
      else r == Failure(UnknownProduct(productId))
    ensures r.Success? ==> InCatalog(r.value, catalog)
    ensures r.Success? ==> CartTotal(r.value, catalog) == CartTotal(items, catalog) + catalog[productId] * quantity as real
    ensures r.Success? && UniqueProducts(items) && QuantitiesFit(items) ==> UniqueProducts(r.value) && QuantitiesFit(r.value)
  {
    var existing := FindItem(items, productId);
    if existing.Some? {
      var i := existing.value;
      var item := items[i];
      if !FitsInt4(item.quantity + quantity) {
        return Failure(QuantityOutOfRange(item.quantity + quantity));
      }
      r := Success(items[i := item.(quantity := item.quantity + quantity)]);
    } else if !FitsInt4(quantity) {
      r := Failure(QuantityOutOfRange(quantity));
    } else if productId !in catalog {
      r := Failure(UnknownProduct(productId));
    } else {
      r := Success(items + [CartItem(productId, quantity)]);
    }
    if r.Success? {
      AddedTotal(items, productId, quantity, catalog);
      if UniqueProducts(items) && QuantitiesFit(items) {
        AddPreservesUnique(items, productId, quantity);
        AddKeepsFit(items, productId, quantity);
      }
    }
  }

  class CartService {
    const db: Db

    constructor (db: Db)
      ensures this.db == db
    {
      this.db := db;
    }

    /** Returns the user's cart, inserting an empty one first if the user has none. */
    method GetOrCreateCart(userId: UserId) returns (cart: Cart)
      requires db.Valid()
      modifies db`carts, db`nextCartId
      ensures db.Valid()
      ensures cart == ExistingOrNew(old(db.carts), old(db.nextCartId), userId)
      ensures db.carts == old(db.carts)[userId := cart]
      ensures db.nextCartId == CartIdAfter(old(db.carts), old(db.nextCartId), userId)
    {
      if userId in db.carts {
        cart := db.carts[userId];
      } else {
        cart := Cart(db.nextCartId, userId);
        db.carts := db.carts[userId := cart];
        db.nextCartId := db.nextCartId + 1;
      }
    }

    /**
      Merges `quantity` of a product into the user's cart and returns the
      stored cart. A merged quantity outside the column's range fails the
      write, and so does an item for a product that does not exist (the
      foreign key); either way the lazily created cart was committed before
      and stays.
    */
    method AddItem(userId: UserId, productId: ProductId, quantity: int) returns (r: Result<Cart, CartError>)
      requires db.Valid()
      modifies db`carts, db`nextCartId
      ensures db.Valid()
      ensures db.nextCartId == CartIdAfter(old(db.carts), old(db.nextCartId), userId)
      ensures var before := ExistingOrNew(old(db.carts), old(db.nextCartId), userId);
        var merged := MergedQuantity(before.items, productId, quantity);
        if !FitsInt4(merged) then
          && r == Failure(QuantityOutOfRange(merged))
          && db.carts == old(db.carts)[userId := before]
        else if productId in db.catalog then
          && r == Success(before.(items := AddedItems(before.items, productId, quantity)))
          && db.carts == old(db.carts)[userId := r.value]
        else
          && r == Failure(UnknownProduct(productId))
          && db.carts == old(db.carts)[userId := before]
    {
      var cart := GetOrCreateCart(userId);
      var merged := MergeItem(cart.items, productId, quantity, db.catalog);
      if merged.Failure? {
        return Failure(merged.error);
      }
      db.PutCartItems(userId, merged.value);
      cart := GetOrCreateCart(userId);
      r := Success(cart);
    }

    /** Deletes every item of the user's cart one by one; the cart itself stays. */
    method ClearCart(userId: UserId)
      requires db.Valid()
      modifies db`carts, db`nextCartId
      ensures db.Valid()
      ensures db.nextCartId == CartIdAfter(old(db.carts), old(db.nextCartId), userId)
      ensures db.carts == old(db.carts)[userId := ExistingOrNew(old(db.carts), old(db.nextCartId), userId).(items := [])]
    {
      var cart := GetOrCreateCart(userId);
      db.DeleteCartItems(userId);
    }

    /**
      Overwrites the quantity of the user's item for a product, if there is
      one, and returns the stored cart. A quantity outside the column's range
      fails the write; with no such item nothing is written.
    */
    method UpdateItemQuantity(userId: UserId, productId: ProductId, quantity: int) returns (r: Result<Cart, CartError>)
      requires db.Valid()
      modifies db`carts, db`nextCartId
      ensures db.Valid()
      ensures db.nextCartId == CartIdAfter(old(db.carts), old(db.nextCartId), userId)
      ensures var before := ExistingOrNew(old(db.carts), old(db.nextCartId), userId);
        if HasProduct(before.items, productId) && !FitsInt4(quantity) then
          && r == Failure(QuantityOutOfRange(quantity))
          && db.carts == old(db.carts)[userId := before]
        else
          && r == Success(before.(items := QuantitySet(before.items, productId, quantity)))
          && db.carts == old(db.carts)[userId := r.value]
    {
      var cart := GetOrCreateCart(userId);
      var toUpdate := FindItem(cart.items, productId);
      if toUpdate.Some? {
        if !FitsInt4(quantity) {
          return Failure(QuantityOutOfRange(quantity));
        }
        var i := toUpdate.value;
        var items := cart.items[i := cart.items[i].(quantity := quantity)];
        QuantitySetPreservesUnique(cart.items, productId, quantity);
        QuantitySetKeepsFit(cart.items, productId, quantity);
        db.PutCartItems(userId, items);
      }
      cart := GetOrCreateCart(userId);
      r := Success(cart);
    }

    /** Deletes the user's item for a product, if there is one, and returns the stored cart. */
    method RemoveItem(userId: UserId, productId: ProductId) returns (cart: Cart)
      requires db.Valid()
      modifies db`carts, db`nextCartId
      ensures db.Valid()
      ensures db.nextCartId == CartIdAfter(old(db.carts), old(db.nextCartId), userId)
      ensures var before := ExistingOrNew(old(db.carts), old(db.nextCartId), userId);
        cart == before.(items := RemovedItems(before.items, productId))
      ensures db.carts == old(db.carts)[userId := cart]
    {
      cart := GetOrCreateCart(userId);
      var toRemove := FindItem(cart.items, productId);
      if toRemove.Some? {
        var i := toRemove.value;
        var items := cart.items[..i] + cart.items[i + 1..];
        RemoveIdempotent(cart.items, productId);
        RemovedRowsValid(cart.items, productId, db.catalog);
        db.PutCartItems(userId, items);
      }
      cart := GetOrCreateCart(userId);
    }
  }
}
