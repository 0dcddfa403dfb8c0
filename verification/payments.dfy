/**
 * The payment controller as transitions of an order's (status, paymentStatus)
 * pair: online initiation, the gateway's success and failure notifications,
 * cash-on-delivery confirmation and refund. Every write is
 * `Order.update(..., {where: {id}})`, which changes nothing when no row has
 * that id.
 */
module Payments {
  import opened Wrappers
  import opened Text
  import opened Models
  import opened Db
  import opened OrderLedger

  /**
   * The row after `Order.update({status, paymentStatus, refundReason})`. An
   * attribute passed as `undefined` is dropped from the update, so an absent
   * reason keeps the stored one.
   */
  function Restate(o: Order, st: OrderStatus, ps: PaymentStatus, reason: Option<string>): (r: Order)
    ensures r.status == st && r.paymentStatus == ps
    ensures r.refundReason == (if reason.Some? then reason else o.refundReason)
    ensures SameRecord(o, r)
  {
    o.(status := st, paymentStatus := ps, refundReason := if reason.Some? then reason else o.refundReason)
  }

  /** Two rows that agree on everything a payment transition leaves alone. */
  predicate SameRecord(a: Order, b: Order) {
    && a.id == b.id && a.userId == b.userId && a.name == b.name
    && a.totalAmount == b.totalAmount && a.paymentMethod == b.paymentMethod
    && a.shippingAddress == b.shippingAddress && a.mobileNumber == b.mobileNumber
    && a.pincode == b.pincode
  }

  /** `Order.update(values, {where: {id}})` on the orders table. */
  function UpdateWhereId(orders: map<int, Order>, id: int, st: OrderStatus, ps: PaymentStatus, reason: Option<string>)
    : (r: map<int, Order>)
    ensures r.Keys == orders.Keys
    ensures forall k :: k in orders && k != id ==> r[k] == orders[k]
    ensures id in orders ==> r[id] == Restate(orders[id], st, ps, reason)
    ensures forall k :: k in orders ==> r[k].id == orders[k].id && r[k].totalAmount == orders[k].totalAmount
  {
    if id in orders then orders[id := Restate(orders[id], st, ps, reason)] else orders
  }

  /** `Order.findOne({where: {id, userId}})` finds a row. */
  predicate Owns(orders: map<int, Order>, id: int, userId: int) {
    id in orders && orders[id].userId == userId
  }

  /**
   * A status update keeps every row's id and total, so the store's
   * invariants survive it.
   */
  lemma UpdateKeepsLedger(orders: map<int, Order>, lines: seq<OrderItem>, id: int, st: OrderStatus,
                          ps: PaymentStatus, reason: Option<string>)
    requires LedgerConsistent(orders, lines)
    ensures LedgerConsistent(UpdateWhereId(orders, id, st, ps, reason), lines)
    ensures forall k :: k in orders ==> UpdateWhereId(orders, id, st, ps, reason)[k].id == orders[k].id
  {
    SameTotalsKeepLedger(orders, UpdateWhereId(orders, id, st, ps, reason), lines);
  }

  /** Rows with unchanged totals keep every order's total equal to the sum of its lines. */
  lemma SameTotalsKeepLedger(orders: map<int, Order>, r: map<int, Order>, lines: seq<OrderItem>)
    requires LedgerConsistent(orders, lines) && r.Keys == orders.Keys
    requires forall k :: k in orders ==> r[k].totalAmount == orders[k].totalAmount
    ensures LedgerConsistent(r, lines)
  {
    forall k | k in r
      ensures r[k].totalAmount == SumLines(ItemsOf(lines, k))
    {
      assert k in orders;
    }
  }

  // ---------------------------------------------------------------------
  // Online initiation

  /** The payment intent object returned to the client. */
  datatype PaymentIntent = PaymentIntent(
    id: string,
    amount: Option<Cents>,   // smallest currency unit; `None` is the NaN of an absent amount
    currency: string,
    status: string,
    clientSecret: string,
    orderId: int,
    userId: int)

  datatype IntentOutcome =
    | IntentCreated(intent: PaymentIntent) // 200
    | IntentFailed                         // 500, rolled back

  /**
   * The attributes of the fallback order created when the caller owns no
   * order with that id: no name, mobile number or pincode.
   */
  function FallbackDraft(orderId: int, userId: int, amount: Option<Cents>): OrderDraft {
    OrderDraft(orderId, userId, None, amount, Some(Pending), Some(PayPending), None,
      Some("Demo Address"), None, None)
  }

  /**
   * The fallback order breaks the Order table's non-null constraints on
   * name, mobileNumber and pincode, whatever the id, user and amount.
   */
  lemma FallbackOrderRejected(orderId: int, userId: int, amount: Option<Cents>)
    ensures NewOrder(FallbackDraft(orderId, userId, amount)).None?
    ensures !OrderDraftAcceptable(FallbackDraft(orderId, userId, amount))
  {
  }

  /**
   * The intent for `amount` at clock reading `now`: its id is `pi_<now>`, its
   * secret that id followed by `_secret`. Amounts are already in the
   * smallest unit.
   */
  function MakeIntent(orderId: int, userId: int, amount: Option<Cents>, now: nat): (p: PaymentIntent)
    ensures p.amount == amount && p.orderId == orderId && p.userId == userId
    ensures p.currency == "inr" && p.status == "requires_payment_method"
    ensures p.clientSecret == p.id + "_secret"
    ensures |p.id| > 3 && p.id[..3] == "pi_" && AllDigits(p.id[3..])
  {
    var id := "pi_" + NatToString(now);
    assert id[3..] == NatToString(now);
    PaymentIntent(id, amount, "inr", "requires_payment_method", id + "_secret", orderId, userId)
  }

  /** Two intents made at different clock readings have different ids. */
  lemma IntentIdsDistinct(orderId: int, userId: int, amount: Option<Cents>, t1: nat, t2: nat)
    requires t1 != t2
    ensures MakeIntent(orderId, userId, amount, t1).id != MakeIntent(orderId, userId, amount, t2).id
  {
    var a := MakeIntent(orderId, userId, amount, t1).id;
    var b := MakeIntent(orderId, userId, amount, t2).id;
    if a == b {
      assert a[3..] == NatToString(t1) && b[3..] == NatToString(t2);
      NatToStringInjective(t1, t2);
    }
  }

  /**
   * `createPaymentIntent`. An order the caller owns is put back to
   * processing/pending whatever its status was; otherwise the fallback order
   * cannot be written and the request fails with nothing changed.
   */
  method CreatePaymentIntent(db: Store, userId: int, orderId: int, amount: Option<Cents>, now: nat)
    returns (r: IntentOutcome)
    requires db.Valid()
    modifies db`orders
    ensures db.Valid()
    ensures r.IntentCreated? <==> Owns(old(db.orders), orderId, userId)
    ensures r.IntentCreated? ==>
      && db.orders == UpdateWhereId(old(db.orders), orderId, Processing, PayPending, None)
      && r.intent == MakeIntent(orderId, userId, amount, now)
    ensures r.IntentFailed? ==> db.orders == old(db.orders)
  {
    if !Owns(db.orders, orderId, userId) {
      var fallback := NewOrder(FallbackDraft(orderId, userId, amount));
      if fallback.None? {
        return IntentFailed;
      }
      assert false;
    }
    UpdateKeepsLedger(db.orders, db.orderItems, orderId, Processing, PayPending, None);
    db.orders := UpdateWhereId(db.orders, orderId, Processing, PayPending, None);
    r := IntentCreated(MakeIntent(orderId, userId, amount, now));
  }

  /** Initiation reopens even a paid order: it comes back as processing with payment pending. */
  lemma IntentReopensPaidOrder(orders: map<int, Order>, orderId: int)
    requires orderId in orders && orders[orderId].status == Paid
    ensures UpdateWhereId(orders, orderId, Processing, PayPending, None)[orderId].status == Processing
    ensures UpdateWhereId(orders, orderId, Processing, PayPending, None)[orderId].paymentStatus == PayPending
  {
  }

  // ---------------------------------------------------------------------
  // Gateway notifications

  /**
   * A webhook body. `hasObject` is false when `data` or `data.object` is
   * missing; `orderId`/`userId` are the metadata values, `None` when absent.
   */
  datatype WebhookEvent = WebhookEvent(kind: string, hasObject: bool, orderId: Option<int>, userId: Option<int>)

  datatype WebhookOutcome =
    | Received     // 200 {received: true}
    | WebhookError // 400, rolled back

  /** JavaScript truthiness of a metadata number: present and not 0. */
  predicate Truthy(v: Option<int>) {
    v.Some? && v.value != 0
  }

  const Succeeded := "payment_intent.succeeded"
  const PaymentFailed := "payment_intent.payment_failed"

  /** Reading the metadata of a succeeded or failed event without a `data.object` throws. */
  predicate WebhookThrows(ev: WebhookEvent) {
    (ev.kind == Succeeded || ev.kind == PaymentFailed) && !ev.hasObject
  }

  /** The orders table after a webhook event. */
  function OrdersAfterEvent(orders: map<int, Order>, ev: WebhookEvent): (r: map<int, Order>)
    ensures WebhookThrows(ev) || !Truthy(ev.orderId) ==> r == orders
    ensures ev.kind != Succeeded && ev.kind != PaymentFailed ==> r == orders
    ensures !WebhookThrows(ev) && Truthy(ev.orderId) && ev.kind == Succeeded ==>
      r == UpdateWhereId(orders, ev.orderId.value, Paid, PayCompleted, None)
    ensures !WebhookThrows(ev) && Truthy(ev.orderId) && ev.kind == PaymentFailed ==>
      r == UpdateWhereId(orders, ev.orderId.value, Pending, PayFailed, None)
  {
    if WebhookThrows(ev) || !Truthy(ev.orderId) then orders
    else if ev.kind == Succeeded then UpdateWhereId(orders, ev.orderId.value, Paid, PayCompleted, None)
    else if ev.kind == PaymentFailed then UpdateWhereId(orders, ev.orderId.value, Pending, PayFailed, None)
    else orders
  }

  /** The cart table after a webhook event: a success clears the metadata user's cart. */
  function CartsAfterEvent(carts: map<CartKey, int>, ev: WebhookEvent): (r: map<CartKey, int>)
    ensures r != carts ==> ev.kind == Succeeded && ev.hasObject && Truthy(ev.orderId) && Truthy(ev.userId)
    ensures ev.kind == Succeeded && ev.hasObject && Truthy(ev.orderId) && Truthy(ev.userId) ==>
      r == ClearUserCart(carts, ev.userId.value)
  {
    if ev.kind == Succeeded && ev.hasObject && Truthy(ev.orderId) && Truthy(ev.userId)
    then ClearUserCart(carts, ev.userId.value)
    else carts
  }

  /**
   * `handleStripeWebhook`. The answer is `{received: true}` unless reading
   * the metadata throws; only the two payment events with a truthy order id
   * change anything.
   */
  method HandleWebhook(db: Store, ev: WebhookEvent) returns (r: WebhookOutcome)
    requires db.Valid()
    modifies db`orders, db`carts
    ensures db.Valid()
    ensures r == WebhookError <==> WebhookThrows(ev)
    ensures db.orders == OrdersAfterEvent(old(db.orders), ev)
    ensures db.carts == CartsAfterEvent(old(db.carts), ev)
  {
    if ev.kind == Succeeded {
      if !ev.hasObject {
        return WebhookError;
      }
      if Truthy(ev.orderId) {
        UpdateKeepsLedger(db.orders, db.orderItems, ev.orderId.value, Paid, PayCompleted, None);
        db.orders := UpdateWhereId(db.orders, ev.orderId.value, Paid, PayCompleted, None);
        if Truthy(ev.userId) {
          db.carts := ClearUserCart(db.carts, ev.userId.value);
        }
      }
    } else if ev.kind == PaymentFailed {
      if !ev.hasObject {
        return WebhookError;
      }
      if Truthy(ev.orderId) {
        UpdateKeepsLedger(db.orders, db.orderItems, ev.orderId.value, Pending, PayFailed, None);
        db.orders := UpdateWhereId(db.orders, ev.orderId.value, Pending, PayFailed, None);
      }
    }
    r := Received;
  }

  /** Delivering the same event twice leaves the store as delivering it once. */
  lemma {:induction false} WebhookIdempotent(orders: map<int, Order>, carts: map<CartKey, int>, ev: WebhookEvent)
    ensures OrdersAfterEvent(OrdersAfterEvent(orders, ev), ev) == OrdersAfterEvent(orders, ev)
    ensures CartsAfterEvent(CartsAfterEvent(carts, ev), ev) == CartsAfterEvent(carts, ev)
  {
    if !WebhookThrows(ev) && Truthy(ev.orderId) && (ev.kind == Succeeded || ev.kind == PaymentFailed) {
      var id := ev.orderId.value;
      var once := OrdersAfterEvent(orders, ev);
      if id in orders {
        assert Restate(once[id], once[id].status, once[id].paymentStatus, None) == once[id];
      }
    }
    if ev.kind == Succeeded && ev.hasObject && Truthy(ev.orderId) && Truthy(ev.userId) {
      ClearUserCartIdempotent(carts, ev.userId.value);
    }
  }

  // ---------------------------------------------------------------------
  // Cash on delivery and refund

  datatype CodOutcome =
    | CodNotFound   // 404
    | NotCod        // 400 "This order is not a Cash on Delivery order"
    | CodConfirmed  // 200

  /**
   * `processCodPayment`: only the owner's order, and only a cash-on-delivery
   * one, is confirmed as processing/pending.
   */
  method ProcessCodPayment(db: Store, userId: int, orderId: int) returns (r: CodOutcome)
    requires db.Valid()
    modifies db`orders
    ensures db.Valid()
    ensures r == CodNotFound <==> !Owns(old(db.orders), orderId, userId)
    ensures r == NotCod <==> Owns(old(db.orders), orderId, userId) && old(db.orders)[orderId].paymentMethod != Cod
    ensures r == CodConfirmed ==> db.orders == UpdateWhereId(old(db.orders), orderId, Processing, PayPending, None)
    ensures r != CodConfirmed ==> db.orders == old(db.orders)
  {
    if !Owns(db.orders, orderId, userId) {
      return CodNotFound;
    }
    if db.orders[orderId].paymentMethod != Cod {
      return NotCod;
    }
    UpdateKeepsLedger(db.orders, db.orderItems, orderId, Processing, PayPending, None);
    db.orders := UpdateWhereId(db.orders, orderId, Processing, PayPending, None);
    r := CodConfirmed;
  }

  datatype RefundOutcome =
    | RefundNotFound // 404 "Order not found"
    | NotPaid        // 400 "Order is not paid"
    | RefundRefused  // 500 "Error processing refund": the reason is wider than `refundReason`
    | RefundDone     // 200

  /** The outcome `refundPayment` gives, from the order table and the reason. */
  function RefundDecision(orders: map<int, Order>, orderId: int, reason: Option<string>): (r: RefundOutcome)
    ensures r == RefundNotFound <==> orderId !in orders
    ensures r == NotPaid <==> orderId in orders && orders[orderId].status != Paid
    ensures r == RefundRefused <==> orderId in orders && orders[orderId].status == Paid && !FitsOptVarchar(reason)
    ensures r == RefundDone <==> orderId in orders && orders[orderId].status == Paid && FitsOptVarchar(reason)
  {
    if orderId !in orders then RefundNotFound
    else if orders[orderId].status != Paid then NotPaid
    else if !FitsOptVarchar(reason) then RefundRefused
    else RefundDone
  }

  /**
   * `refundPayment`: any authenticated caller may refund any paid order (the
   * lookup is by id alone); the order becomes refunded/refunded with the
   * reason recorded, unless the reason is too wide for its VARCHAR(255)
   * column and the update fails.
   */
  method RefundPayment(db: Store, orderId: int, reason: Option<string>) returns (r: RefundOutcome)
    requires db.Valid()
    modifies db`orders
    ensures db.Valid()
    ensures r == RefundDecision(old(db.orders), orderId, reason)
    ensures r == RefundDone ==> db.orders == UpdateWhereId(old(db.orders), orderId, Refunded, PayRefunded, reason)
    ensures r != RefundDone ==> db.orders == old(db.orders)
  {
    if orderId !in db.orders {
      return RefundNotFound;
    }
    if db.orders[orderId].status != Paid {
      return NotPaid;
    }
    if !FitsOptVarchar(reason) {
      return RefundRefused;
    }
    UpdateKeepsLedger(db.orders, db.orderItems, orderId, Refunded, PayRefunded, reason);
    db.orders := UpdateWhereId(db.orders, orderId, Refunded, PayRefunded, reason);
    r := RefundDone;
  }

  /** A refunded order cannot be refunded again: the second request is "not paid". */
  lemma RefundOnce(orders: map<int, Order>, orderId: int, reason: Option<string>, again: Option<string>)
    requires RefundDecision(orders, orderId, reason) == RefundDone
    ensures RefundDecision(UpdateWhereId(orders, orderId, Refunded, PayRefunded, reason), orderId, again) == NotPaid
  {
  }

  // ---------------------------------------------------------------------
  // The pairs the payment flow produces

  /**
   * The (status, paymentStatus) pairs that checkout and the payment
   * transitions produce: pending or processing awaiting payment, paid with
   * payment completed, pending after a failed payment, refunded twice over.
   */
  predicate PaymentPair(st: OrderStatus, ps: PaymentStatus) {
    || (st == Pending && ps == PayPending)
    || (st == Processing && ps == PayPending)
    || (st == Paid && ps == PayCompleted)
    || (st == Pending && ps == PayFailed)
    || (st == Refunded && ps == PayRefunded)
  }

  predicate PairsCoherent(orders: map<int, Order>) {
    forall id :: id in orders ==> PaymentPair(orders[id].status, orders[id].paymentStatus)
  }

  /** Every payment transition keeps all orders on the payment pairs. */
  lemma TransitionsKeepPairs(orders: map<int, Order>, userId: int, orderId: int, ev: WebhookEvent, reason: Option<string>)
    requires PairsCoherent(orders)
    ensures PairsCoherent(UpdateWhereId(orders, orderId, Processing, PayPending, None))
    ensures PairsCoherent(OrdersAfterEvent(orders, ev))
    ensures PairsCoherent(UpdateWhereId(orders, orderId, Refunded, PayRefunded, reason))
  {
  }

  /**
   * A completed payment is always on a paid order, and a refunded payment on
   * a refunded order, in any table the payment flow produced.
   */
  lemma CompletedMeansPaid(orders: map<int, Order>, id: int)
    requires PairsCoherent(orders) && id in orders
    ensures orders[id].paymentStatus == PayCompleted <==> orders[id].status == Paid
    ensures orders[id].paymentStatus == PayRefunded <==> orders[id].status == Refunded
  {
  }

  /** Checkout itself starts every order on a payment pair. */
  lemma CheckoutStartsOnPair(paymentMethod: string)
    ensures PaymentPair(InitialState(paymentMethod).0, InitialState(paymentMethod).1)
  {
  }
}
