/**
 * Checkout: the order controller's `placeOrder`. The request is validated in
 * a fixed sequence (non-empty item list, every product known, every line in
 * stock, all shortfalls reported together), the total is computed from the
 * store's prices, the order and its lines are written with prices frozen at
 * purchase, stock is decremented from the value read at the start, and the
 * ordering user's cart is emptied. The writes are sequential, as in the
 * source; no transaction is modelled.
 */
module OrderLedger {
  import opened Wrappers
  import opened Models
  import opened Db

  /** One requested line. The client's `price` is carried but never read. */
  datatype ItemRequest = ItemRequest(productId: int, quantity: int, price: Cents)

  /**
   * The checkout body. `items` is `None` when absent or not an array;
   * `totalAmount` is the client's figure, which the server ignores.
   */
  datatype OrderRequest = OrderRequest(
    items: Option<seq<ItemRequest>>,
    totalAmount: Option<Cents>,
    shippingAddress: Option<string>,
    paymentMethod: Option<string>,
    mobileNumber: Option<string>,
    pincode: Option<string>)

  /** One entry of `outOfStockProducts`. */
  datatype Shortfall = Shortfall(id: int, name: string, requested: int, available: int)

  datatype Outcome =
    | NoItems                              // 400 "No items in order"
    | ProductsNotFound(ids: seq<int>)      // 400 "Products not found: ..."
    | OutOfStock(products: seq<Shortfall>) // 400 "Some products are out of stock"
    | CreateFailed                         // 500: the order row could not be written
    | Placed(orderId: int, totalAmount: Cents) // 201

  function HttpStatus(o: Outcome): int {
    match o
    case Placed(_, _) => 201
    case CreateFailed => 500
    case _ => 400
  }

  predicate HasItems(req: OrderRequest) {
    req.items.Some? && req.items.value != []
  }

  /** The request's product ids that the catalogue does not hold, in request order. */
  function MissingIds(items: seq<ItemRequest>, products: map<int, Product>): (ids: seq<int>)
    ensures |ids| <= |items|
    ensures forall id :: id in ids <==>
      (id !in products && exists i :: 0 <= i < |items| && items[i].productId == id)
    ensures ids == [] <==> AllKnown(items, products)
  {
    if items == [] then []
    else
      var rest := MissingIds(items[1..], products);
      assert forall i :: 1 <= i < |items| ==> items[i] == items[1..][i - 1];
      (if items[0].productId in products then [] else [items[0].productId]) + rest
  }

  predicate AllKnown(items: seq<ItemRequest>, products: map<int, Product>) {
    forall i :: 0 <= i < |items| ==> items[i].productId in products
  }

  predicate Short(item: ItemRequest, snap: map<int, Product>)
    requires item.productId in snap
  {
    snap[item.productId].stock < item.quantity
  }

  function ShortfallOf(item: ItemRequest, snap: map<int, Product>): Shortfall
    requires item.productId in snap
  {
    var p := snap[item.productId];
    Shortfall(p.id, p.name, item.quantity, p.stock)
  }

  /** The batch stock check's report: one entry per short line, in request order. */
  function Shortfalls(items: seq<ItemRequest>, snap: map<int, Product>): seq<Shortfall>
    requires AllKnown(items, snap)
  {
    if items == [] then []
    else
      var last := items[|items| - 1];
      Shortfalls(items[..|items| - 1], snap) + (if Short(last, snap) then [ShortfallOf(last, snap)] else [])
  }

  /**
   * The report lists exactly the short lines: nothing is left out (the check
   * does not stop at the first shortfall) and nothing else is listed.
   */
  lemma ShortfallsExact(items: seq<ItemRequest>, snap: map<int, Product>)
    requires AllKnown(items, snap)
    ensures forall sf :: sf in Shortfalls(items, snap) <==>
      exists i :: 0 <= i < |items| && Short(items[i], snap) && sf == ShortfallOf(items[i], snap)
    ensures Shortfalls(items, snap) == [] <==>
      forall i :: 0 <= i < |items| ==> snap[items[i].productId].stock >= items[i].quantity
    ensures |Shortfalls(items, snap)| <= |items|
  {
    ShortfallsListed(items, snap);
    forall i | 0 <= i < |items| && Short(items[i], snap) {
      ShortLineListed(items, snap, i);
    }
    ShortfallsBound(items, snap);
  }

  /** Every listed entry is the shortfall of some short line. */
  lemma {:induction false} ShortfallsListed(items: seq<ItemRequest>, snap: map<int, Product>)
    requires AllKnown(items, snap)
    ensures forall sf :: sf in Shortfalls(items, snap) ==>
      exists i :: 0 <= i < |items| && Short(items[i], snap) && sf == ShortfallOf(items[i], snap)
  {
    if items != [] {
      var n := |items| - 1;
      var prefix := items[..n];
      ShortfallsListed(prefix, snap);
      forall sf | sf in Shortfalls(items, snap)
        ensures exists i :: 0 <= i < |items| && Short(items[i], snap) && sf == ShortfallOf(items[i], snap)
      {
        if sf in Shortfalls(prefix, snap) {
          var i :| 0 <= i < n && Short(prefix[i], snap) && sf == ShortfallOf(prefix[i], snap);
          assert prefix[i] == items[i];
        } else {
          assert Short(items[n], snap) && sf == ShortfallOf(items[n], snap);
        }
      }
    }
  }

  /** The shortfall of a short line is listed. */
  lemma {:induction false} ShortLineListed(items: seq<ItemRequest>, snap: map<int, Product>, i: nat)
    requires AllKnown(items, snap) && i < |items| && Short(items[i], snap)
    ensures ShortfallOf(items[i], snap) in Shortfalls(items, snap)
  {
    var n := |items| - 1;
    var prefix := items[..n];
    if i < n {
      assert prefix[i] == items[i];
      ShortLineListed(prefix, snap, i);
    }
  }

  /** The report has at most one entry per line. */
  lemma {:induction false} ShortfallsBound(items: seq<ItemRequest>, snap: map<int, Product>)
    requires AllKnown(items, snap)
    ensures |Shortfalls(items, snap)| <= |items|
  {
    if items != [] {
      ShortfallsBound(items[..|items| - 1], snap);
    }
  }

  /** The checkout total: database price times requested quantity, summed. */
  function Total(items: seq<ItemRequest>, snap: map<int, Product>): Cents
    requires AllKnown(items, snap)
  {
    if items == [] then 0
    else
      var last := items[|items| - 1];
      Total(items[..|items| - 1], snap) + snap[last.productId].price * last.quantity
  }

  /** The order lines written for a checkout, each with the price read at placement. */
  function LineItems(orderId: int, items: seq<ItemRequest>, snap: map<int, Product>): (lines: seq<OrderItem>)
    requires AllKnown(items, snap)
    ensures |lines| == |items|
    ensures forall i :: 0 <= i < |items| ==>
      && lines[i].orderId == orderId
      && lines[i].productId == items[i].productId
      && lines[i].quantity == items[i].quantity
      && lines[i].price == snap[items[i].productId].price
  {
    if items == [] then []
    else
      var last := items[|items| - 1];
      LineItems(orderId, items[..|items| - 1], snap)
        + [OrderItem(orderId, last.productId, last.quantity, snap[last.productId].price)]
  }

  /** The stored total equals the sum of the stored lines' price times quantity. */
  lemma {:induction false} TotalIsSumOfLines(orderId: int, items: seq<ItemRequest>, snap: map<int, Product>)
    requires AllKnown(items, snap)
    ensures SumLines(LineItems(orderId, items, snap)) == Total(items, snap)
  {
    if items != [] {
      var prefix := items[..|items| - 1];
      TotalIsSumOfLines(orderId, prefix, snap);
      var lines := LineItems(orderId, items, snap);
      assert lines[..|lines| - 1] == LineItems(orderId, prefix, snap);
    }
  }

  /** Two requests that differ only in the client's per-line prices get the same total and lines. */
  lemma {:induction false} ClientPricesIgnored(orderId: int, a: seq<ItemRequest>, b: seq<ItemRequest>, snap: map<int, Product>)
    requires AllKnown(a, snap)
    requires |a| == |b|
    requires forall i :: 0 <= i < |a| ==> a[i].productId == b[i].productId && a[i].quantity == b[i].quantity
    ensures AllKnown(b, snap)
    ensures Total(a, snap) == Total(b, snap)
    ensures LineItems(orderId, a, snap) == LineItems(orderId, b, snap)
  {
    if a != [] {
      ClientPricesIgnored(orderId, a[..|a| - 1], b[..|b| - 1], snap);
    }
  }

  /**
   * The status pair an order starts in: `online` starts pending/pending, and
   * `cod` as well as every other method starts processing/pending.
   */
  function InitialState(paymentMethod: string): (s: (OrderStatus, PaymentStatus))
    ensures s.1 == PayPending
    ensures s.0 == Pending <==> paymentMethod == "online"
    ensures s.0 == Processing <==> paymentMethod != "online"
  {
    if paymentMethod == "cod" then (Processing, PayPending)
    else if paymentMethod == "online" then (Pending, PayPending)
    else (Processing, PayPending)
  }

  /** The attributes `placeOrder` hands to `Order.create`. */
  function CheckoutDraft(orderId: int, userId: int, name: Option<string>, req: OrderRequest, total: Cents): OrderDraft {
    var pm := req.paymentMethod.GetOr("cod");
    var st := InitialState(pm);
    OrderDraft(orderId, userId, name, Some(total), Some(st.0), Some(st.1), Some(pm),
      req.shippingAddress, req.mobileNumber, req.pincode)
  }

  /** `Product.update({stock: v}, {where: {id}})`: no row, no change. */
  function SetStock(products: map<int, Product>, id: int, v: int): (r: map<int, Product>)
    ensures r.Keys == products.Keys
  {
    if id in products then products[id := products[id].(stock := v)] else products
  }

  /**
   * The stock writes, one per line in request order, each writing the value
   * read before the loop minus that line's quantity.
   */
  function StockAfter(products: map<int, Product>, items: seq<ItemRequest>, snap: map<int, Product>)
    : (r: map<int, Product>)
    requires AllKnown(items, snap)
    ensures r.Keys == products.Keys
  {
    if items == [] then products
    else
      var last := items[|items| - 1];
      SetStock(StockAfter(products, items[..|items| - 1], snap), last.productId,
        snap[last.productId].stock - last.quantity)
  }

  predicate Mentions(items: seq<ItemRequest>, id: int) {
    exists i :: 0 <= i < |items| && items[i].productId == id
  }

  /** The quantity of the last line that names product `id`. */
  function LastQuantity(items: seq<ItemRequest>, id: int): int
    requires Mentions(items, id)
  {
    var last := items[|items| - 1];
    if last.productId == id then last.quantity
    else
      assert Mentions(items[..|items| - 1], id) by {
        var i :| 0 <= i < |items| && items[i].productId == id;
        assert items[..|items| - 1][i] == items[i];
      }
      LastQuantity(items[..|items| - 1], id)
  }

  /**
   * What the stock loop leaves behind: products not ordered are untouched,
   * and an ordered product's stock is its earlier value minus the quantity of
   * the LAST line naming it (a repeated product id is not summed).
   */
  lemma {:induction false} StockAfterEffect(products: map<int, Product>, items: seq<ItemRequest>, snap: map<int, Product>)
    requires AllKnown(items, snap)
    ensures StockAfter(products, items, snap).Keys == products.Keys
    ensures forall id :: id in products && !Mentions(items, id) ==>
      StockAfter(products, items, snap)[id] == products[id]
    ensures forall id :: id in products && Mentions(items, id) ==>
      StockAfter(products, items, snap)[id] == products[id].(stock := snap[id].stock - LastQuantity(items, id))
  {
    if items != [] {
      var n := |items| - 1;
      var prefix := items[..n];
      StockAfterEffect(products, prefix, snap);
      forall id | id in products
        ensures !Mentions(items, id) ==> StockAfter(products, items, snap)[id] == products[id]
        ensures Mentions(items, id) ==>
          StockAfter(products, items, snap)[id] == products[id].(stock := snap[id].stock - LastQuantity(items, id))
      {
        if items[n].productId != id {
          if Mentions(items, id) {
            var i :| 0 <= i < |items| && items[i].productId == id;
            assert prefix[i] == items[i];
          }
          if Mentions(prefix, id) {
            var i :| 0 <= i < n && prefix[i].productId == id;
            assert items[i] == prefix[i];
          }
        }
      }
    }
  }

  /**
   * Stock never goes negative in a sequential checkout: once the batch check
   * found no shortfall, every ordered product's new stock is at least 0.
   */
  lemma StockStaysNonNegative(products: map<int, Product>, items: seq<ItemRequest>, snap: map<int, Product>)
    requires AllKnown(items, snap)
    requires Shortfalls(items, snap) == []
    ensures forall id :: id in products && Mentions(items, id) ==> StockAfter(products, items, snap)[id].stock >= 0
  {
    ShortfallsExact(items, snap);
    StockAfterEffect(products, items, snap);
    forall id | id in products && Mentions(items, id)
      ensures snap[id].stock - LastQuantity(items, id) >= 0
    {
      LastQuantityIsSomeLine(items, id);
    }
  }

  lemma {:induction false} LastQuantityIsSomeLine(items: seq<ItemRequest>, id: int)
    requires Mentions(items, id)
    ensures exists i :: 0 <= i < |items| && items[i].productId == id && items[i].quantity == LastQuantity(items, id)
  {
    var n := |items| - 1;
    if items[n].productId != id {
      var prefix := items[..n];
      assert Mentions(prefix, id) by {
        var i :| 0 <= i < |items| && items[i].productId == id;
        assert prefix[i] == items[i];
      }
      LastQuantityIsSomeLine(prefix, id);
      var i :| 0 <= i < n && prefix[i].productId == id && prefix[i].quantity == LastQuantity(prefix, id);
      assert items[i] == prefix[i];
    }
  }

  /**
   * Two lines for one product with stock 5 (2 units, then 3 units) both pass
   * the per-line check, five units are sold, and the stock is left at 2.
   */
  lemma RepeatedProductLastLineWins(p: Product)
    requires p.stock == 5
    ensures var snap := map[p.id := p];
      var items := [ItemRequest(p.id, 2, 0), ItemRequest(p.id, 3, 0)];
      && AllKnown(items, snap)
      && Shortfalls(items, snap) == []
      && StockAfter(snap, items, snap)[p.id].stock == 2
  {
    var snap := map[p.id := p];
    var items := [ItemRequest(p.id, 2, 0), ItemRequest(p.id, 3, 0)];
    assert items[..1] == [items[0]] && items[..1][..0] == [];
    assert Shortfalls(items[..1], snap) == [];
    assert StockAfter(snap, items[..1], snap)[p.id].stock == 3;
  }

  /** `Cart.destroy({where: {userId}})` */
  function ClearUserCart(carts: map<CartKey, int>, userId: int): (r: map<CartKey, int>)
    ensures forall k :: k in r <==> k in carts && k.0 != userId
    ensures forall k :: k in r ==> r[k] == carts[k]
  {
    map k | k in carts && k.0 != userId :: carts[k]
  }

  /** Clearing a cart twice leaves the same rows as clearing it once. */
  lemma ClearUserCartIdempotent(carts: map<CartKey, int>, userId: int)
    ensures ClearUserCart(ClearUserCart(carts, userId), userId) == ClearUserCart(carts, userId)
  {
  }

  /** The shortfall loop: every line checked against the value read at the start. */
  method CollectShortfalls(items: seq<ItemRequest>, snap: map<int, Product>) returns (out: seq<Shortfall>)
    requires AllKnown(items, snap)
    ensures out == Shortfalls(items, snap)
  {
    out := [];
    var i := 0;
    while i < |items|
      invariant 0 <= i <= |items|
      invariant out == Shortfalls(items[..i], snap)
    {
      var item := items[i];
      var product := snap[item.productId];
      assert items[..i + 1][..i] == items[..i];
      if product.stock < item.quantity {
        out := out + [Shortfall(product.id, product.name, item.quantity, product.stock)];
      }
      i := i + 1;
    }
    assert items[..i] == items;
  }

  /** The total loop: `calculatedTotal += price * quantity`, in cents. */
  method ComputeTotal(items: seq<ItemRequest>, snap: map<int, Product>) returns (total: Cents)
    requires AllKnown(items, snap)
    ensures total == Total(items, snap)
  {
    total := 0;
    var i := 0;
    while i < |items|
      invariant 0 <= i <= |items|
      invariant total == Total(items[..i], snap)
    {
      assert items[..i + 1][..i] == items[..i];
      total := total + snap[items[i].productId].price * items[i].quantity;
      i := i + 1;
    }
    assert items[..i] == items;
  }

  /**
   * `placeOrder` for the authenticated user `userId`. A rejected request
   * changes nothing; an accepted one appends the order and its lines, writes
   * the stock of every ordered product and empties the user's cart.
   */
  method PlaceOrder(db: Store, userId: int, req: OrderRequest) returns (r: Outcome)
    requires db.Valid()
    modifies db`orders, db`nextOrderId, db`orderItems, db`products, db`carts
    ensures db.Valid()
    ensures r.NoItems? <==> !HasItems(req)
    ensures r.ProductsNotFound? <==> HasItems(req) && MissingIds(req.items.value, old(db.products)) != []
    ensures r.ProductsNotFound? ==> r.ids == MissingIds(req.items.value, old(db.products))
    ensures r.OutOfStock? <==>
      && HasItems(req) && AllKnown(req.items.value, old(db.products))
      && Shortfalls(req.items.value, old(db.products)) != []
    ensures r.OutOfStock? ==> r.products == Shortfalls(req.items.value, old(db.products))
    ensures r.CreateFailed? <==>
      && HasItems(req) && AllKnown(req.items.value, old(db.products))
      && Shortfalls(req.items.value, old(db.products)) == []
      && (userId !in old(db.users)
          || NewOrder(CheckoutDraft(old(db.nextOrderId), userId, old(db.users)[userId].name, req,
                                    Total(req.items.value, old(db.products)))).None?)
    ensures !r.Placed? ==>
      && db.products == old(db.products) && db.orders == old(db.orders)
      && db.orderItems == old(db.orderItems) && db.carts == old(db.carts)
      && db.nextOrderId == old(db.nextOrderId)
    ensures r.Placed? ==>
      && HasItems(req) && AllKnown(req.items.value, old(db.products))
      && Shortfalls(req.items.value, old(db.products)) == []
      && r.orderId == old(db.nextOrderId) && db.nextOrderId == old(db.nextOrderId) + 1
      && r.totalAmount == Total(req.items.value, old(db.products))
      && userId in old(db.users)
      && db.orders == old(db.orders)[r.orderId := NewOrder(CheckoutDraft(r.orderId, userId,
           old(db.users)[userId].name, req, r.totalAmount)).value]
      && db.orderItems == old(db.orderItems) + LineItems(r.orderId, req.items.value, old(db.products))
      && db.products == StockAfter(old(db.products), req.items.value, old(db.products))
      && db.carts == ClearUserCart(old(db.carts), userId)
    ensures r.Placed? ==>
      var o := db.orders[r.orderId];
      && o.userId == userId && o.totalAmount == r.totalAmount
      && o.status == InitialState(req.paymentMethod.GetOr("cod")).0
      && o.paymentStatus == PayPending
      && ParsePaymentMethod(req.paymentMethod.GetOr("cod")) == Some(o.paymentMethod)
  {
    if req.items.None? || req.items.value == [] {
      return NoItems;
    }
    var items := req.items.value;
    var snap := db.products;

    var missing := MissingIds(items, snap);
    if missing != [] {
      return ProductsNotFound(missing);
    }

    var short := CollectShortfalls(items, snap);
    if short != [] {
      return OutOfStock(short);
    }

    var total := ComputeTotal(items, snap);

    if userId !in db.users {
      return CreateFailed;
    }
    var orderId := db.nextOrderId;
    var created := NewOrder(CheckoutDraft(orderId, userId, db.users[userId].name, req, total));
    if created.None? {
      return CreateFailed;
    }
    var order := created.value;
    var lines := LineItems(orderId, items, snap);
    TotalIsSumOfLines(orderId, items, snap);
    Commit(db, userId, order, lines, items, snap);
    StockAfterEffect(snap, items, snap);
    r := Placed(orderId, total);
  }

  /**
   * The writes of an accepted checkout, in the source's order: the order row,
   * its lines (one bulk insert), the stock of each line, the user's cart.
   */
  method Commit(db: Store, userId: int, order: Order, lines: seq<OrderItem>, items: seq<ItemRequest>,
                snap: map<int, Product>)
    requires db.Valid()
    requires order.id == db.nextOrderId && order.totalAmount == SumLines(lines)
    requires forall i :: 0 <= i < |lines| ==> lines[i].orderId == order.id
    requires AllKnown(items, snap)
    modifies db`orders, db`nextOrderId, db`orderItems, db`products, db`carts
    ensures db.Valid()
    ensures db.orders == old(db.orders)[order.id := order] && db.nextOrderId == old(db.nextOrderId) + 1
    ensures db.orderItems == old(db.orderItems) + lines
    ensures db.products == StockAfter(old(db.products), items, snap)
    ensures db.carts == ClearUserCart(old(db.carts), userId)
  {
    LedgerAfterAppend(db.orders, db.orderItems, order.id, order, lines);
    StockAfterEffect(db.products, items, snap);
    db.orders := db.orders[order.id := order];
    db.nextOrderId := order.id + 1;
    db.orderItems := db.orderItems + lines;
    DecrementStock(db, items, snap);
    db.carts := ClearUserCart(db.carts, userId);
  }

  /** The stock loop: each line writes the value read earlier minus its quantity. */
  method DecrementStock(db: Store, items: seq<ItemRequest>, snap: map<int, Product>)
    requires AllKnown(items, snap)
    modifies db`products
    ensures db.products == StockAfter(old(db.products), items, snap)
  {
    var i := 0;
    while i < |items|
      invariant 0 <= i <= |items|
      invariant db.products == StockAfter(old(db.products), items[..i], snap)
    {
      var item := items[i];
      assert items[..i + 1][..i] == items[..i];
      db.products := SetStock(db.products, item.productId, snap[item.productId].stock - item.quantity);
      i := i + 1;
    }
    assert items[..i] == items;
  }

  /** Appending a new order's lines keeps every order's total equal to its lines' sum. */
  lemma LedgerAfterAppend(orders: map<int, Order>, lines: seq<OrderItem>, orderId: int, order: Order, added: seq<OrderItem>)
    requires LedgerConsistent(orders, lines)
    requires forall i :: 0 <= i < |lines| ==> lines[i].orderId != orderId
    requires forall id :: id in orders ==> id != orderId
    requires forall i :: 0 <= i < |added| ==> added[i].orderId == orderId
    requires order.totalAmount == SumLines(added)
    ensures LedgerConsistent(orders[orderId := order], lines + added)
  {
    forall id | id in orders[orderId := order]
      ensures orders[orderId := order][id].totalAmount == SumLines(ItemsOf(lines + added, id))
    {
      ItemsOfAppend(lines, added, id);
      if id == orderId {
        ItemsOfNone(lines, id);
        ItemsOfAll(added, id);
        assert [] + added == added;
      } else {
        ItemsOfNone(added, id);
        assert ItemsOf(lines, id) + [] == ItemsOf(lines, id);
      }
    }
  }

  lemma {:induction false} ItemsOfAppend(a: seq<OrderItem>, b: seq<OrderItem>, id: int)
    ensures ItemsOf(a + b, id) == ItemsOf(a, id) + ItemsOf(b, id)
  {
    if b != [] {
      ItemsOfAppend(a, b[..|b| - 1], id);
      assert (a + b)[..|a + b| - 1] == a + b[..|b| - 1];
    } else {
      assert a + b == a;
    }
  }

  lemma {:induction false} ItemsOfNone(a: seq<OrderItem>, id: int)
    requires forall i :: 0 <= i < |a| ==> a[i].orderId != id
    ensures ItemsOf(a, id) == []
  {
    if a != [] {
      ItemsOfNone(a[..|a| - 1], id);
    }
  }

  lemma {:induction false} ItemsOfAll(a: seq<OrderItem>, id: int)
    requires forall i :: 0 <= i < |a| ==> a[i].orderId == id
    ensures ItemsOf(a, id) == a
  {
    if a != [] {
      ItemsOfAll(a[..|a| - 1], id);
    }
  }
}
