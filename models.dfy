/**
  The persisted entities of the shop (the `carts`, `cart_items`, `orders`
  and `order_items` tables) as immutable values. Column defaults are
  constructor defaults: a cart item's quantity defaults to 1, a cart starts
  with no items and an order starts out `pending`.
*/
module Models {
  type ProductId = int
  type UserId = int
  /** Prices are exact reals; the source stores floats. */
  type Price = real

  const DefaultQuantity: int := 1
  const PendingStatus: string := "pending"

  /** `Integer` columns are 32-bit signed in PostgreSQL; writing a value outside this range fails. */
  const MinInt4: int := -0x8000_0000
  const MaxInt4: int := 0x7FFF_FFFF

  predicate FitsInt4(x: int) {
    MinInt4 <= x <= MaxInt4
  }

  /** A row of `cart_items`: no uniqueness on (cart, product) is declared. */
  datatype CartItem = CartItem(productId: ProductId, quantity: int := DefaultQuantity)

  /** A row of `carts` with its `items` relationship in insertion order. */
  datatype Cart = Cart(id: nat, userId: UserId, items: seq<CartItem> := [])

  /** A row of `order_items`: the price is a copy taken at checkout time. */
  datatype OrderItem = OrderItem(productId: ProductId, quantity: int, priceAtPurchase: Price)

  /** A row of `orders`; `createdAt` is the database clock when it was inserted. */
  datatype Order = Order(id: nat, userId: UserId, createdAt: int, totalPrice: Price,
                         items: seq<OrderItem>, status: string := PendingStatus)

  /** Column defaults: item quantity 1, no items in a new cart, status `pending` for a new order. */
  lemma ColumnDefaults(p: ProductId, cartId: nat, u: UserId, orderId: nat, createdAt: int, lines: seq<OrderItem>)
    ensures CartItem(p).quantity == 1
    ensures Cart(cartId, u).items == []
    ensures Order(orderId, u, createdAt, LinesTotal(lines), lines).status == "pending"
  {
  }

  predicate HasProduct(items: seq<CartItem>, p: ProductId) {
    exists i :: 0 <= i < |items| && items[i].productId == p
  }

  /** The one-item-per-product invariant that only the merging in add_item maintains. */
  predicate UniqueProducts(items: seq<CartItem>) {
    forall i, j :: 0 <= i < j < |items| ==> items[i].productId != items[j].productId
  }

  predicate UniqueLineProducts(lines: seq<OrderItem>) {
    forall i, j :: 0 <= i < j < |lines| ==> lines[i].productId != lines[j].productId
  }

  predicate PositiveQuantities(items: seq<CartItem>) {
    forall i :: 0 <= i < |items| ==> items[i].quantity > 0
  }

  /** Every stored quantity fits its `Integer` column. */
  predicate QuantitiesFit(items: seq<CartItem>) {
    forall i :: 0 <= i < |items| ==> FitsInt4(items[i].quantity)
  }

  /** Every cart item refers to an existing product (the foreign key on `cart_items.product_id`). */
  predicate InCatalog(items: seq<CartItem>, catalog: map<ProductId, Price>) {
    forall i :: 0 <= i < |items| ==> items[i].productId in catalog
  }

  /** Sum over the lines of price_at_purchase times quantity. */
  function LinesTotal(lines: seq<OrderItem>): Price {
    if lines == [] then 0.0
    else lines[0].priceAtPurchase * lines[0].quantity as real + LinesTotal(lines[1..])
  }

  /** Adding a line at the end adds exactly that line's amount, which is how checkout accumulates. */
  lemma {:induction false} LinesTotalAppend(lines: seq<OrderItem>, line: OrderItem)
    ensures LinesTotal(lines + [line]) == LinesTotal(lines) + line.priceAtPurchase * line.quantity as real
  {
    if lines != [] {
      assert (lines + [line])[1..] == lines[1..] + [line];
      LinesTotalAppend(lines[1..], line);
    }
  }

  /** An order's financial data is consistent with its own frozen lines. */
  predicate OrderConsistent(o: Order) {
    o.totalPrice == LinesTotal(o.items)
  }
}
