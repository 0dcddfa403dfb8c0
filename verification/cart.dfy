/**
 * The cart controller: rows keyed by (user, product) holding a quantity.
 * Adding and updating clamp the stored quantity to the product's current
 * stock; removing is idempotent and always reports success. No cart
 * operation writes a product's stock.
 */
module Carts {
  import opened Wrappers
  import opened Text
  import opened Models
  import opened Db

  datatype AddOutcome =
    | AddNotFound                                   // 404 "Product not found"
    | AddOutOfStock                                 // 400 "Product is out of stock"
    | Added(quantity: int, stockLimit: bool, wasInCart: bool) // 200

  /** `Math.min(a, b)` */
  function Min(a: int, b: int): (m: int)
    ensures m <= a && m <= b && (m == a || m == b)
  {
    if a <= b then a else b
  }

  /**
   * The quantity `addItemToCart` stores: the existing quantity plus the
   * requested one, or the requested one for a new row, never above stock.
   */
  function AddedQuantity(existing: Option<int>, quantity: int, stock: int): (q: int)
    ensures q <= stock
    ensures existing.Some? ==> q == Min(existing.value + quantity, stock)
    ensures existing.None? ==> q == Min(quantity, stock)
    ensures existing.Some? && existing.value + quantity <= stock ==> q == existing.value + quantity
    ensures existing.None? && quantity <= stock ==> q == quantity
  {
    if existing.Some? then
      var n := existing.value + quantity;
      if n > stock then stock else n
    else Min(quantity, stock)
  }

  /** `addItemToCart` decided from the two tables it reads. */
  function AddResult(carts: map<CartKey, int>, products: map<int, Product>, userId: int, productId: int,
                     quantity: Option<int>): (r: AddOutcome)
    ensures r == AddNotFound <==> productId !in products
    ensures r == AddOutOfStock <==> productId in products && products[productId].stock <= 0
    ensures r.Added? ==>
      && r.quantity == AddedQuantity(if (userId, productId) in carts then Some(carts[(userId, productId)]) else None,
                                     quantity.GetOr(1), products[productId].stock)
      && (r.stockLimit <==> r.quantity == products[productId].stock)
      && (r.wasInCart <==> (userId, productId) in carts)
  {
    if productId !in products then AddNotFound
    else
      var stock := products[productId].stock;
      if stock <= 0 then AddOutOfStock
      else
        var key := (userId, productId);
        var existing := if key in carts then Some(carts[key]) else None;
        var q := AddedQuantity(existing, quantity.GetOr(1), stock);
        Added(q, q == stock, key in carts)
  }

  /**
   * `addItemToCart`: an unknown or sold-out product leaves the cart alone;
   * otherwise the row is created or raised to the clamped quantity.
   */
  method AddItemToCart(db: Store, userId: int, productId: int, quantity: Option<int>) returns (r: AddOutcome)
    requires db.Valid()
    modifies db`carts
    ensures db.Valid() && db.products == old(db.products)
    ensures r == AddResult(old(db.carts), db.products, userId, productId, quantity)
    ensures r.Added? ==> db.carts == old(db.carts)[(userId, productId) := r.quantity]
    ensures !r.Added? ==> db.carts == old(db.carts)
  {
    var q := quantity.GetOr(1);
    if productId !in db.products {
      return AddNotFound;
    }
    var product := db.products[productId];
    if product.stock <= 0 {
      return AddOutOfStock;
    }
    var key := (userId, productId);
    var newQuantity;
    if key in db.carts {
      newQuantity := db.carts[key] + q;
      if newQuantity > product.stock {
        newQuantity := product.stock;
      }
      db.carts := db.carts[key := newQuantity];
      r := Added(newQuantity, newQuantity == product.stock, true);
    } else {
      newQuantity := Min(q, product.stock);
      db.carts := db.carts[key := newQuantity];
      r := Added(newQuantity, newQuantity == product.stock, false);
    }
  }

  /**
   * Adding a positive quantity of an in-stock product keeps the row between
   * 1 and the stock, provided the row held a positive quantity before.
   */
  lemma AddStaysWithinStock(carts: map<CartKey, int>, products: map<int, Product>, userId: int, productId: int,
                            quantity: Option<int>)
    requires quantity.GetOr(1) >= 1
    requires (userId, productId) in carts ==> carts[(userId, productId)] >= 0
    ensures var r := AddResult(carts, products, userId, productId, quantity);
      r.Added? ==> 1 <= r.quantity <= products[productId].stock
  {
  }

  /**
   * `updateCartItem`'s floor-then-clamp: the requested quantity is raised
   * to at least 1 and then cut down to the stock, so stock wins.
   */
  function UpdatedQuantity(requested: int, stock: int): (q: int)
    ensures q <= stock
    ensures 1 <= requested <= stock ==> q == requested
    ensures requested < 1 && 1 <= stock ==> q == 1
    ensures requested > stock ==> q == stock
    ensures var floor := if requested < 1 then 1 else requested;
      q <= floor && (q == floor || q == stock)
  {
    var floor := if requested < 1 then 1 else requested;
    if floor > stock then stock else floor
  }

  datatype UpdateOutcome =
    | CartItemNotFound                            // 404 "Cart item not found"
    | UpdateProductNotFound                       // 404 "Product not found"
    | QuantityNotANumber                          // 500: a NaN quantity cannot be saved
    | Updated(quantity: int, stockLimit: bool)    // 200

  /** `updateCartItem` decided from the two tables it reads; `requested` is the raw body value. */
  function UpdateResult(carts: map<CartKey, int>, products: map<int, Product>, userId: int, productId: int,
                        requested: string): (r: UpdateOutcome)
    ensures r == CartItemNotFound <==> (userId, productId) !in carts
    ensures r == UpdateProductNotFound <==> (userId, productId) in carts && productId !in products
    ensures r == QuantityNotANumber <==>
      (userId, productId) in carts && productId in products && ParseInt(requested).None?
    ensures r.Updated? ==>
      && r.quantity == UpdatedQuantity(ParseInt(requested).value, products[productId].stock)
      && (r.stockLimit <==> r.quantity == products[productId].stock)
  {
    if (userId, productId) !in carts then CartItemNotFound
    else if productId !in products then UpdateProductNotFound
    else match ParseInt(requested)
      case None => QuantityNotANumber
      case Some(n) =>
        var q := UpdatedQuantity(n, products[productId].stock);
        Updated(q, q == products[productId].stock)
  }

  /**
   * `updateCartItem`: the row must exist (checked before the product), the
   * product must exist, and the stored quantity is floored at 1 and clamped
   * to stock.
   */
  method UpdateCartItem(db: Store, userId: int, productId: int, requested: string) returns (r: UpdateOutcome)
    requires db.Valid()
    modifies db`carts
    ensures db.Valid() && db.products == old(db.products)
    ensures r == UpdateResult(old(db.carts), db.products, userId, productId, requested)
    ensures r.Updated? ==> db.carts == old(db.carts)[(userId, productId) := r.quantity]
    ensures !r.Updated? ==> db.carts == old(db.carts)
  {
    var parsed := ParseInt(requested);
    var key := (userId, productId);
    if key !in db.carts {
      return CartItemNotFound;
    }
    if productId !in db.products {
      return UpdateProductNotFound;
    }
    if parsed.None? {
      return QuantityNotANumber;
    }
    var quantity := if parsed.value < 1 then 1 else parsed.value;
    var stock := db.products[productId].stock;
    if quantity > stock {
      quantity := stock;
    }
    db.carts := db.carts[key := quantity];
    r := Updated(quantity, quantity == stock);
  }

  /** A product with no stock left: updating its row to any number stores 0. */
  lemma UpdateOnSoldOutStoresZero(carts: map<CartKey, int>, products: map<int, Product>, userId: int,
                                  productId: int, requested: string)
    requires (userId, productId) in carts && productId in products && products[productId].stock == 0
    requires ParseInt(requested).Some?
    ensures UpdateResult(carts, products, userId, productId, requested) == Updated(0, true)
  {
  }

  datatype RemoveOutcome =
    | Removed   // "Item removed from cart"
    | NotInCart // "Item not in cart", still a success

  /** `cartItem.destroy()` on the (user, product) row, when there is one. */
  function WithoutRow(carts: map<CartKey, int>, key: CartKey): (r: map<CartKey, int>)
    ensures key !in r
    ensures forall k :: k in r <==> k in carts && k != key
    ensures forall k :: k in r ==> r[k] == carts[k]
  {
    carts - {key}
  }

  /** `removeCartItem`: always a success; a missing row is reported and nothing changes. */
  method RemoveCartItem(db: Store, userId: int, productId: int) returns (r: RemoveOutcome)
    requires db.Valid()
    modifies db`carts
    ensures db.Valid() && db.products == old(db.products)
    ensures r == NotInCart <==> (userId, productId) !in old(db.carts)
    ensures db.carts == WithoutRow(old(db.carts), (userId, productId))
  {
    var key := (userId, productId);
    if key !in db.carts {
      return NotInCart;
    }
    db.carts := WithoutRow(db.carts, key);
    r := Removed;
  }

  /** Removing twice leaves the same rows as removing once, and a missing row is a no-op. */
  lemma RemoveIdempotent(carts: map<CartKey, int>, key: CartKey)
    ensures WithoutRow(WithoutRow(carts, key), key) == WithoutRow(carts, key)
    ensures key !in carts ==> WithoutRow(carts, key) == carts
  {
  }
}
