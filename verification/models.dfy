/**
 * The records of the shop's relational store: Product, Order and OrderItem as
 * declared by their model definitions, plus the User, Cart and Review rows the
 * controllers read and write. A `New...` function plays the part of the
 * model's `create`: it applies the declared defaults and rejects a row that
 * breaks a non-null, enumeration, DECIMAL(10,2) or, for products, a
 * VARCHAR(255) or INTEGER constraint. The width of an order's name is not
 * checked.
 */
module Models {
  import opened Wrappers

  /** A DECIMAL(10,2) amount, held as a whole number of cents. */
  type Cents = int

  /** DECIMAL(10,2) holds at most 8 digits before the point. */
  predicate FitsDecimal10_2(c: Cents) {
    -10_000_000_000 < c < 10_000_000_000
  }

  /** An unsized STRING column is VARCHAR(255). */
  predicate FitsVarchar(s: string) {
    |s| <= 255
  }

  /** A nullable VARCHAR(255) column: NULL, or at most 255 characters. */
  predicate FitsOptVarchar(s: Option<string>) {
    s.None? || FitsVarchar(s.value)
  }

  /** An INTEGER column holds a signed 32-bit number. */
  predicate FitsInteger(i: int) {
    -0x8000_0000 <= i < 0x8000_0000
  }

  datatype OrderStatus = Pending | Processing | Paid | Shipped | Delivered | Cancelled | Refunded

  datatype PaymentStatus = PayPending | PayCompleted | PayFailed | PayRefunded

  datatype PaymentMethod = Cod | Online | Wallet

  const DefaultStatus: OrderStatus := Pending
  const DefaultPaymentStatus: PaymentStatus := PayPending
  const DefaultPaymentMethod: PaymentMethod := Cod

  /** The ENUM('cod', 'online', 'wallet') column's accepted spellings. */
  function ParsePaymentMethod(s: string): (m: Option<PaymentMethod>)
    ensures m.Some? <==> s in {"cod", "online", "wallet"}
    ensures m == Some(Cod) <==> s == "cod"
    ensures m == Some(Online) <==> s == "online"
    ensures m == Some(Wallet) <==> s == "wallet"
  {
    if s == "cod" then Some(Cod)
    else if s == "online" then Some(Online)
    else if s == "wallet" then Some(Wallet)
    else None
  }

  function StatusName(s: OrderStatus): string {
    match s
    case Pending => "pending"
    case Processing => "processing"
    case Paid => "paid"
    case Shipped => "shipped"
    case Delivered => "delivered"
    case Cancelled => "cancelled"
    case Refunded => "refunded"
  }

  datatype Product = Product(
    id: int,
    name: string,
    description: Option<string>,
    price: Cents,
    category: string,
    stock: int,
    image: Option<string>,
    images: Option<string>,
    storage: Option<string>,
    ram: Option<string>,
    processor: Option<string>,
    brand: Option<string>,
    createdAt: int)

  /**
   * A product row within its declared column types: name, category, image,
   * storage, ram, processor and brand are VARCHAR(255), price DECIMAL(10,2),
   * stock INTEGER; description and images are unbounded TEXT.
   */
  predicate ProductFits(p: Product) {
    && FitsVarchar(p.name) && FitsVarchar(p.category) && FitsDecimal10_2(p.price) && FitsInteger(p.stock)
    && FitsOptVarchar(p.image) && FitsOptVarchar(p.storage) && FitsOptVarchar(p.ram)
    && FitsOptVarchar(p.processor) && FitsOptVarchar(p.brand)
  }

  /** The attributes handed to `Product.create`; `None` is an absent attribute. */
  datatype ProductDraft = ProductDraft(
    name: Option<string>,
    description: Option<string>,
    price: Option<Cents>,
    category: Option<string>,
    stock: Option<int>,
    image: Option<string>,
    images: Option<string>,
    storage: Option<string>,
    ram: Option<string>,
    processor: Option<string>,
    brand: Option<string>)

  /**
   * Product creation: name, price and category are required, stock defaults
   * to 0 and has no lower bound, every other attribute is optional, and a
   * value wider than its column is refused.
   */
  function NewProduct(id: int, d: ProductDraft, now: int): (r: Option<Product>)
    ensures r.Some? <==>
      && d.name.Some? && d.price.Some? && d.category.Some?
      && FitsVarchar(d.name.value) && FitsDecimal10_2(d.price.value) && FitsVarchar(d.category.value)
      && FitsInteger(d.stock.GetOr(0))
      && FitsOptVarchar(d.image) && FitsOptVarchar(d.storage) && FitsOptVarchar(d.ram)
      && FitsOptVarchar(d.processor) && FitsOptVarchar(d.brand)
    ensures r.Some? ==> ProductFits(r.value)
    ensures r.Some? ==>
      && r.value.id == id && r.value.name == d.name.value
      && r.value.price == d.price.value && r.value.category == d.category.value
      && r.value.stock == d.stock.GetOr(0) && r.value.createdAt == now
    ensures r.Some? ==>
      && r.value.image == d.image && r.value.images == d.images
      && r.value.storage == d.storage && r.value.ram == d.ram
      && r.value.processor == d.processor && r.value.brand == d.brand
  {
    if d.name.None? || d.price.None? || d.category.None? then None
    else
      var p := Product(id, d.name.value, d.description, d.price.value, d.category.value,
        d.stock.GetOr(0), d.image, d.images, d.storage, d.ram, d.processor, d.brand, now);
      if ProductFits(p) then Some(p) else None
  }

  datatype Order = Order(
    id: int,
    userId: int,
    name: string,
    totalAmount: Cents,
    status: OrderStatus,
    paymentStatus: PaymentStatus,
    paymentMethod: PaymentMethod,
    shippingAddress: string,
    mobileNumber: string,
    pincode: string,
    refundReason: Option<string>)

  /**
   * The attributes handed to `Order.create`. The payment method is the raw
   * string the caller supplied; the enumeration check happens on creation.
   */
  datatype OrderDraft = OrderDraft(
    id: int,
    userId: int,
    name: Option<string>,
    totalAmount: Option<Cents>,
    status: Option<OrderStatus>,
    paymentStatus: Option<PaymentStatus>,
    paymentMethod: Option<string>,
    shippingAddress: Option<string>,
    mobileNumber: Option<string>,
    pincode: Option<string>)

  /** Every constraint the Order table puts on a new row. */
  predicate OrderDraftAcceptable(d: OrderDraft) {
    && d.name.Some?
    && d.totalAmount.Some? && FitsDecimal10_2(d.totalAmount.value)
    && (d.paymentMethod.None? || ParsePaymentMethod(d.paymentMethod.value).Some?)
    && d.shippingAddress.Some?
    && d.mobileNumber.Some? && |d.mobileNumber.value| <= 15
    && d.pincode.Some? && |d.pincode.value| <= 10
  }

  /**
   * Order creation: status, paymentStatus and paymentMethod take their
   * declared defaults (pending, pending, cod), refundReason starts empty, and
   * a row missing a required column, with a method outside the enumeration or
   * with a value wider than its column is refused.
   */
  function NewOrder(d: OrderDraft): (r: Option<Order>)
    ensures r.Some? <==> OrderDraftAcceptable(d)
    ensures r.Some? ==>
      && r.value.id == d.id && r.value.userId == d.userId
      && r.value.name == d.name.value && r.value.totalAmount == d.totalAmount.value
      && r.value.status == d.status.GetOr(Pending)
      && r.value.paymentStatus == d.paymentStatus.GetOr(PayPending)
      && r.value.paymentMethod == (if d.paymentMethod.None? then Cod
                                   else ParsePaymentMethod(d.paymentMethod.value).value)
      && r.value.shippingAddress == d.shippingAddress.value
      && r.value.mobileNumber == d.mobileNumber.value
      && r.value.pincode == d.pincode.value
      && r.value.refundReason.None?
  {
    if !OrderDraftAcceptable(d) then None
    else
      var pm := if d.paymentMethod.None? then DefaultPaymentMethod
                else ParsePaymentMethod(d.paymentMethod.value).value;
      Some(Order(d.id, d.userId, d.name.value, d.totalAmount.value,
        d.status.GetOr(DefaultStatus), d.paymentStatus.GetOr(DefaultPaymentStatus), pm,
        d.shippingAddress.value, d.mobileNumber.value, d.pincode.value, None))
  }

  datatype OrderItem = OrderItem(orderId: int, productId: int, quantity: int, price: Cents)

  /**
   * OrderItem creation: orderId, productId and price are required, the
   * quantity defaults to 1, and the price is stored on the item itself.
   */
  function NewOrderItem(orderId: Option<int>, productId: Option<int>, quantity: Option<int>, price: Option<Cents>)
    : (r: Option<OrderItem>)
    ensures r.Some? <==> orderId.Some? && productId.Some? && price.Some? && FitsDecimal10_2(price.value)
    ensures r.Some? ==>
      && r.value.orderId == orderId.value && r.value.productId == productId.value
      && r.value.quantity == quantity.GetOr(1) && r.value.price == price.value
  {
    if orderId.None? || productId.None? || price.None? || !FitsDecimal10_2(price.value) then None
    else Some(OrderItem(orderId.value, productId.value, quantity.GetOr(1), price.value))
  }

  /** A user account; the password is kept only as its (opaque) hash. */
  datatype User = User(
    id: int,
    name: Option<string>,
    email: string,
    passwordHash: string,
    role: string,
    resetToken: Option<string>,
    resetExpires: Option<int>)

  /** A cart row is identified by its (userId, productId) pair. */
  type CartKey = (int, int)

  datatype Review = Review(productId: int, userId: int, rating: int, comment: string)
}
