/**
 * The client cart page's decisions: the checkout form's validation chain
 * and the order request it sends, the routing of a quantity change, what
 * the page does with the server's reply, and the out-of-stock message it
 * composes. Rendering, timers and local storage are outside the model.
 */
module CartPage {
  import opened Wrappers
  import opened Text
  import opened Models
  import OrderLedger
  import Carts

  /** A cart line as the cart endpoint returns it; `productPrice` is absent when the product row is missing. */
  datatype CartLine = CartLine(productId: int, quantity: int, productPrice: Option<Cents>)

  /** The two payment choices the page offers. */
  datatype Choice = ChooseCod | ChooseOnline

  function ChoiceName(c: Choice): (s: string)
    ensures ParsePaymentMethod(s) == Some(if c == ChooseCod then Cod else Online)
  {
    match c
    case ChooseCod => "cod"
    case ChooseOnline => "online"
  }

  /** The checks of the form, each with the message shown when it is the first to fail. */
  datatype Problem = EmptyCart | NoAddress | NoMobile | NoPincode | BadMobile | BadPincode

  function Message(p: Problem): (text: string)
    ensures |text| > 0
  {
    match p
    case EmptyCart => "Your cart is empty"
    case NoAddress => "Please enter a shipping address"
    case NoMobile => "Please enter a mobile number"
    case NoPincode => "Please enter a pincode"
    case BadMobile => "Enter a valid 10-digit mobile number"
    case BadPincode => "Enter a valid 6-digit pincode"
  }

  datatype FormCheck = Rejected(problem: Problem) | Accepted(request: OrderLedger.OrderRequest)

  /** One request line: the product id, the quantity and the displayed price, 0 without a product. */
  function RequestItem(line: CartLine): OrderLedger.ItemRequest {
    OrderLedger.ItemRequest(line.productId, line.quantity, line.productPrice.GetOr(0))
  }

  /**
   * `placeOrder`'s checks, in order, and the request it then sends. `total`
   * is the page's cart total in cents.
   */
  function CheckForm(cart: seq<CartLine>, address: string, mobile: string, pincode: string, choice: Choice,
                     total: Cents): (r: FormCheck)
    ensures r == Rejected(EmptyCart) <==> cart == []
    ensures r == Rejected(NoAddress) <==> cart != [] && Trim(address) == ""
    ensures r == Rejected(NoMobile) <==> cart != [] && Trim(address) != "" && Trim(mobile) == ""
    ensures r == Rejected(NoPincode) <==>
      cart != [] && Trim(address) != "" && Trim(mobile) != "" && Trim(pincode) == ""
    ensures r == Rejected(BadMobile) <==>
      cart != [] && Trim(address) != "" && Trim(mobile) != "" && Trim(pincode) != ""
      && !DigitsOfLength(Trim(mobile), 10)
    ensures r == Rejected(BadPincode) <==>
      cart != [] && Trim(address) != "" && DigitsOfLength(Trim(mobile), 10) && Trim(pincode) != ""
      && !DigitsOfLength(Trim(pincode), 6)
    ensures r.Accepted? <==>
      cart != [] && Trim(address) != "" && DigitsOfLength(Trim(mobile), 10) && DigitsOfLength(Trim(pincode), 6)
    ensures r.Accepted? ==>
      && r.request.items.Some? && |r.request.items.value| == |cart|
      && (forall i :: 0 <= i < |cart| ==> r.request.items.value[i] == RequestItem(cart[i]))
      && r.request.totalAmount == Some(total)
      && r.request.shippingAddress == Some(address)
      && r.request.mobileNumber == Some(Trim(mobile)) && r.request.pincode == Some(Trim(pincode))
      && r.request.paymentMethod == Some(ChoiceName(choice))
  {
    if cart == [] then Rejected(EmptyCart)
    else if Trim(address) == "" then Rejected(NoAddress)
    else if Trim(mobile) == "" then Rejected(NoMobile)
    else if Trim(pincode) == "" then Rejected(NoPincode)
    else if !DigitsOfLength(Trim(mobile), 10) then Rejected(BadMobile)
    else if !DigitsOfLength(Trim(pincode), 6) then Rejected(BadPincode)
    else
      var items := seq(|cart|, i requires 0 <= i < |cart| => RequestItem(cart[i]));
      Accepted(OrderLedger.OrderRequest(Some(items), Some(total), Some(address), Some(ChoiceName(choice)),
        Some(Trim(mobile)), Some(Trim(pincode))))
  }

  /**
   * A form the page accepts makes an order row the Order table accepts: the
   * mobile number and pincode fit their columns and the payment method is
   * one of the enumeration's values.
   */
  lemma AcceptedFormFitsOrderRow(cart: seq<CartLine>, address: string, mobile: string, pincode: string,
                                 choice: Choice, total: Cents, orderId: int, userId: int, name: string, serverTotal: Cents)
    requires CheckForm(cart, address, mobile, pincode, choice, total).Accepted?
    requires FitsDecimal10_2(serverTotal)
    ensures OrderDraftAcceptable(OrderLedger.CheckoutDraft(orderId, userId, Some(name),
              CheckForm(cart, address, mobile, pincode, choice, total).request, serverTotal))
  {
  }

  // ---------------------------------------------------------------------
  // Quantity changes

  datatype CartRequest = RemoveRequest(productId: int) | UpdateRequest(productId: int, quantity: int)

  /** `updateQuantity`: a quantity of zero or less becomes a removal. */
  function QuantityChange(productId: int, quantity: int): (r: CartRequest)
    ensures r.RemoveRequest? <==> quantity <= 0
    ensures r.productId == productId
    ensures r.UpdateRequest? ==> r.quantity == quantity >= 1
  {
    if quantity <= 0 then RemoveRequest(productId) else UpdateRequest(productId, quantity)
  }

  /**
   * An update the page sends is at least 1, so the server's floor never
   * applies: the row becomes the quantity, clamped to the stock.
   */
  lemma UpdateReachesServerUnfloored(carts: map<CartKey, int>, products: map<int, Product>, userId: int,
                                     productId: int, quantity: int)
    requires (userId, productId) in carts && productId in products
    requires QuantityChange(productId, quantity).UpdateRequest?
    ensures Carts.UpdateResult(carts, products, userId, productId, IntToString(quantity)).Updated?
    ensures Carts.UpdateResult(carts, products, userId, productId, IntToString(quantity)).quantity ==
      Carts.Min(quantity, products[productId].stock)
  {
    ParseIntOfIntToString(quantity);
  }

  // ---------------------------------------------------------------------
  // The server's reply

  /** The checkout reply: a body with `success`, or an error body. */
  datatype Reply =
    | Answered(success: bool, orderId: int, message: Option<string>)
    | Failed(outOfStock: Option<seq<OrderLedger.Shortfall>>, message: Option<string>)

  datatype NextStep = StartOnlinePayment(orderId: int) | ShowSuccess(text: string) | ShowError(text: string)

  /** `message || fallback` */
  function MessageOr(m: Option<string>, fallback: string): (text: string)
    ensures text == fallback <==> m.None? || m.value == "" || m.value == fallback
    ensures text != fallback ==> m == Some(text)
  {
    if m.Some? && m.value != "" then m.value else fallback
  }

  /** One line of the out-of-stock message, without its newline. */
  function ShortfallLine(s: OrderLedger.Shortfall): string {
    s.name + ": Requested " + IntToString(s.requested) + ", Available " + IntToString(s.available)
  }

  function ShortfallLines(list: seq<OrderLedger.Shortfall>): (lines: seq<string>)
    ensures |lines| == |list|
  {
    if list == [] then [] else [ShortfallLine(list[0])] + ShortfallLines(list[1..])
  }

  const OutOfStockHeading := "Out of stock:"

  /** The message built for an out-of-stock reply. */
  function OutOfStockText(list: seq<OrderLedger.Shortfall>): string {
    OutOfStockHeading + "\n" + Terminated(ShortfallLines(list))
  }

  /** The page's loop over the shortfalls, one line appended per product. */
  method BuildOutOfStockText(list: seq<OrderLedger.Shortfall>) returns (msg: string)
    ensures msg == OutOfStockText(list)
  {
    msg := WriteLines(OutOfStockHeading + "\n", ShortfallLines(list));
  }

  lemma {:induction false} ShortfallLinesAt(list: seq<OrderLedger.Shortfall>, i: nat)
    requires i < |list|
    ensures ShortfallLines(list)[i] == ShortfallLine(list[i])
  {
    if i > 0 {
      ShortfallLinesAt(list[1..], i - 1);
    }
  }

  lemma ShortfallLineOneLine(s: OrderLedger.Shortfall)
    requires Free(s.name, '\n')
    ensures Free(ShortfallLine(s), '\n')
  {
    var a, b := IntToString(s.requested), IntToString(s.available);
    IntPlain(s.requested, '\n');
    IntPlain(s.available, '\n');
    var line := ShortfallLine(s);
    var k1 := |s.name| + |": Requested "|;
    var k2 := k1 + |a| + |", Available "|;
    forall j | 0 <= j < |line|
      ensures line[j] != '\n'
    {
      if j < |s.name| {
        assert line[j] == s.name[j];
      } else if k1 <= j < k1 + |a| {
        assert line[j] == a[j - k1];
      } else if k2 <= j {
        assert line[j] == b[j - k2];
      }
    }
  }

  lemma ShortfallLinesOneLine(list: seq<OrderLedger.Shortfall>)
    requires forall i :: 0 <= i < |list| ==> Free(list[i].name, '\n')
    ensures forall i :: 0 <= i < |list| ==> Free(ShortfallLines(list)[i], '\n')
  {
    forall i | 0 <= i < |list|
      ensures Free(ShortfallLines(list)[i], '\n')
    {
      ShortfallLinesAt(list, i);
      ShortfallLineOneLine(list[i]);
    }
  }

  lemma HeadingOneLine()
    ensures Free(OutOfStockHeading, '\n')
  {
  }

  /**
   * Each short product gets its own line, in the server's order, after the
   * heading, as long as no product name holds a newline.
   */
  lemma OutOfStockLines(list: seq<OrderLedger.Shortfall>)
    requires forall i :: 0 <= i < |list| ==> Free(list[i].name, '\n')
    ensures Split(OutOfStockText(list), '\n') == [OutOfStockHeading] + ShortfallLines(list) + [""]
  {
    ShortfallLinesOneLine(list);
    HeadingOneLine();
    HeadedLines(OutOfStockHeading, ShortfallLines(list));
  }

  /**
   * What the page does after the checkout request: an online order goes on
   * to payment with its id, any other method shows the cash-on-delivery
   * confirmation, and failures show the server's message or a fallback.
   */
  function AfterPlaceOrder(choice: Choice, reply: Reply): (next: NextStep)
    ensures next.StartOnlinePayment? <==> reply.Answered? && reply.success && choice == ChooseOnline
    ensures next.StartOnlinePayment? ==> next.orderId == reply.orderId
    ensures next.ShowSuccess? <==> reply.Answered? && reply.success && choice == ChooseCod
    ensures next.ShowSuccess? ==>
      next.text == "Order #" + IntToString(reply.orderId) + " placed successfully with Cash on Delivery!"
    ensures reply.Failed? && reply.outOfStock.Some? ==> next == ShowError(OutOfStockText(reply.outOfStock.value))
    ensures reply.Answered? && !reply.success ==> next == ShowError(MessageOr(reply.message, "Order failed"))
    ensures reply.Failed? && reply.outOfStock.None? ==> next == ShowError(MessageOr(reply.message, "Order failed. Try again."))
  {
    match reply
    case Answered(success, orderId, message) =>
      if !success then ShowError(MessageOr(message, "Order failed"))
      else (match choice
        case ChooseOnline => StartOnlinePayment(orderId)
        case ChooseCod => ShowSuccess("Order #" + IntToString(orderId) + " placed successfully with Cash on Delivery!"))
    case Failed(outOfStock, message) =>
      if outOfStock.Some? then ShowError(OutOfStockText(outOfStock.value))
      else ShowError(MessageOr(message, "Order failed. Try again."))
  }

  /**
   * The shortfalls the server reports for a refused checkout are the ones
   * the page lists: its `OutOfStock` answer, relayed, becomes the message.
   */
  lemma ServerShortfallsShown(choice: Choice, products: seq<OrderLedger.Shortfall>, m: Option<string>)
    ensures AfterPlaceOrder(choice, Failed(Some(products), m)) == ShowError(OutOfStockText(products))
    ensures products == [] ==> AfterPlaceOrder(choice, Failed(Some(products), m)) == ShowError("Out of stock:\n")
  {
  }
}
