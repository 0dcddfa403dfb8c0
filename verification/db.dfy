/**
 * The relational store the controllers work on, as one object whose tables
 * are fields: products, cart rows, orders, order items, users and reviews.
 * Row identity is the map key; auto-increment counters give new ids.
 */
module Db {
  import opened Models

  /** The items of `lines` that belong to order `orderId`, in insertion order. */
  function ItemsOf(lines: seq<OrderItem>, orderId: int): (r: seq<OrderItem>)
    ensures |r| <= |lines|
    ensures forall x :: x in r <==> x in lines && x.orderId == orderId
  {
    if lines == [] then []
    else
      var last := lines[|lines| - 1];
      ItemsOf(lines[..|lines| - 1], orderId) + (if last.orderId == orderId then [last] else [])
  }

  /** The sum of price times quantity over some order lines. */
  function SumLines(lines: seq<OrderItem>): Cents {
    if lines == [] then 0
    else SumLines(lines[..|lines| - 1]) + lines[|lines| - 1].price * lines[|lines| - 1].quantity
  }

  /** Every order's total equals the sum of its own lines' frozen prices. */
  ghost predicate LedgerConsistent(orders: map<int, Order>, lines: seq<OrderItem>) {
    forall id :: id in orders ==> orders[id].totalAmount == SumLines(ItemsOf(lines, id))
  }

  /** At most one review per (product, user) pair. */
  ghost predicate OneReviewPerPair(reviews: seq<Review>) {
    forall i, j :: 0 <= i < j < |reviews| ==>
      (reviews[i].productId, reviews[i].userId) != (reviews[j].productId, reviews[j].userId)
  }

  /** No two users share an email address. */
  ghost predicate EmailsUnique(users: map<int, User>) {
    forall a, b :: a in users && b in users && users[a].email == users[b].email ==> a == b
  }

  class Store {
    var products: map<int, Product>
    var carts: map<CartKey, int>
    var orders: map<int, Order>
    var orderItems: seq<OrderItem>
    var nextOrderId: int
    var users: map<int, User>
    var nextUserId: int
    var reviews: seq<Review>

    /** Keys match row ids, counters run ahead of every id, the ledger adds up. */
    ghost predicate Valid()
      reads this
    {
      && (forall id :: id in products ==> products[id].id == id)
      && (forall id :: id in orders ==> orders[id].id == id && id < nextOrderId)
      && (forall i :: 0 <= i < |orderItems| ==> orderItems[i].orderId < nextOrderId)
      && LedgerConsistent(orders, orderItems)
      && (forall id :: id in users ==> users[id].id == id && id < nextUserId)
      && EmailsUnique(users)
      && OneReviewPerPair(reviews)
    }

    constructor ()
      ensures Valid()
      ensures products == map[] && carts == map[] && orders == map[] && orderItems == []
      ensures users == map[] && reviews == [] && nextOrderId == 1 && nextUserId == 1
    {
      products, carts, orders, orderItems := map[], map[], map[], [];
      users, reviews := map[], [];
      nextOrderId, nextUserId := 1, 1;
    }
  }
}
