/**
 * The product controller: the view a product row is shaped into (stock
 * status and absolute image URL), the search endpoint's where-clause, the
 * single-product view, admin update and delete, and the review upsert.
 */
module Catalogue {
  import opened Wrappers
  import opened Text
  import opened Models
  import opened Db

  /** "In Stock" exactly when the stock is positive. */
  function StockStatus(stock: int): (s: string)
    ensures s == "In Stock" <==> stock > 0
    ensures s == "Out of Stock" <==> stock <= 0
  {
    if stock > 0 then "In Stock" else "Out of Stock"
  }

  /** `protocol://host`, the origin the request arrived at. */
  function Origin(protocol: string, host: string): string {
    protocol + "://" + host
  }

  /**
   * The image field of a shaped product: empty for a missing or empty image,
   * unchanged for an absolute `http...` URL, and otherwise the request's
   * origin followed by the path, with a `/` inserted when the path lacks one.
   */
  function ShapeImage(image: Option<string>, protocol: string, host: string): (r: string)
    ensures image.None? || image.value == [] ==> r == []
    ensures image.Some? && "http" <= image.value ==> r == image.value
    ensures image.Some? && image.value != [] && !("http" <= image.value) ==>
      var o := Origin(protocol, host);
      && |r| > |o| && r[..|o|] == o && r[|o|] == '/'
      && (if image.value[0] == '/' then r[|o|..] == image.value else r[|o| + 1..] == image.value)
  {
    if image.None? || image.value == [] then []
    else
      var img := image.value;
      if "http" <= img then img
      else
        var path := if img[0] == '/' then img else "/" + img;
        assert (Origin(protocol, host) + path)[|Origin(protocol, host)|..] == path;
        Origin(protocol, host) + path
  }

  /**
   * On a request served over `http` or `https`, shaping an already shaped
   * image changes nothing.
   */
  lemma ShapeImageIdempotent(image: Option<string>, protocol: string, host: string)
    requires "http" <= protocol
    ensures var once := ShapeImage(image, protocol, host);
      ShapeImage(Some(once), protocol, host) == once
  {
    var once := ShapeImage(image, protocol, host);
    if once != [] && image.Some? && !("http" <= image.value) {
      var o := Origin(protocol, host);
      assert once[..4] == o[..4] == protocol[..4];
    }
  }

  /** A product as the listing and search endpoints return it. */
  datatype ProductView = ProductView(product: Product, stockStatus: string, image: string)

  function ShapeProduct(p: Product, protocol: string, host: string): (v: ProductView)
    ensures v.product == p
    ensures v.stockStatus == StockStatus(p.stock)
    ensures v.image == ShapeImage(p.image, protocol, host)
  {
    ProductView(p, StockStatus(p.stock), ShapeImage(p.image, protocol, host))
  }

  /** The `rows.map(...)` of the listing and search endpoints: one view per row, in row order. */
  function ShapeRows(rows: seq<Product>, protocol: string, host: string): (vs: seq<ProductView>)
    ensures |vs| == |rows|
    ensures forall i :: 0 <= i < |rows| ==> vs[i] == ShapeProduct(rows[i], protocol, host)
  {
    seq(|rows|, i requires 0 <= i < |rows| => ShapeProduct(rows[i], protocol, host))
  }

  // ---------------------------------------------------------------------
  // Search

  /** The search endpoint's query parameters; an absent parameter is "". */
  datatype SearchQuery = SearchQuery(
    search: string, category: string, minPrice: string, maxPrice: string,
    ram: string, processor: string, storage: string, brand: string)

  /**
   * One where-clause condition: a case-insensitive LIKE pattern, or a price
   * range whose bounds are the raw parameter strings (their `parseFloat` is
   * not modelled).
   */
  datatype Condition = ILike(pattern: string) | PriceRange(gte: Option<string>, lte: Option<string>)

  /** The columns a search can filter on. */
  datatype Column = Name | Category | Price | Ram | Processor | Storage | Brand

  /** `%x%`, the pattern matching any value that contains `x`. */
  function Contains(x: string): (p: string)
    ensures |p| == |x| + 2 && p[0] == '%' && p[|p| - 1] == '%' && p[1..|p| - 1] == x
  {
    "%" + x + "%"
  }

  /**
   * The condition a search puts on a column, if any: a substring pattern for
   * the name and the specification columns, the exact pattern for the
   * category, and the given bounds for the price.
   */
  function Wanted(q: SearchQuery, c: Column): Option<Condition> {
    match c
    case Name => if q.search != "" then Some(ILike(Contains(q.search))) else None
    case Category => if q.category != "" then Some(ILike(q.category)) else None
    case Price =>
      if q.minPrice != "" || q.maxPrice != "" then
        Some(PriceRange(if q.minPrice != "" then Some(q.minPrice) else None,
                        if q.maxPrice != "" then Some(q.maxPrice) else None))
      else None
    case Ram => if q.ram != "" then Some(ILike(Contains(q.ram))) else None
    case Processor => if q.processor != "" then Some(ILike(Contains(q.processor))) else None
    case Storage => if q.storage != "" then Some(ILike(Contains(q.storage))) else None
    case Brand => if q.brand != "" then Some(ILike(Contains(q.brand))) else None
  }

  /** The order in which the controller considers the columns. */
  function Position(c: Column): nat {
    match c
    case Name => 0
    case Category => 1
    case Price => 2
    case Ram => 3
    case Processor => 4
    case Storage => 5
    case Brand => 6
  }

  /** The clause after the first `k` columns have been considered. */
  predicate Considered(q: SearchQuery, w: map<Column, Condition>, k: nat) {
    forall c :: (c in w <==> Position(c) < k && Wanted(q, c).Some?) && (c in w ==> w[c] == Wanted(q, c).value)
  }

  /** One more column considered: its condition added when it has one. */
  method Consider(q: SearchQuery, w: map<Column, Condition>, c: Column) returns (w': map<Column, Condition>)
    requires Considered(q, w, Position(c))
    ensures Considered(q, w', Position(c) + 1)
  {
    w' := w;
    match Wanted(q, c)
    case Some(cond) =>
      w' := w'[c := cond];
    case None =>
  }

  /**
   * The where-clause of `searchProducts`, built field by field: each column
   * is present exactly when its parameter is non-empty (for the price, when
   * either bound is), holding that parameter's condition.
   */
  method BuildWhereClause(q: SearchQuery) returns (w: map<Column, Condition>)
    ensures forall c :: c in w <==> Wanted(q, c).Some?
    ensures forall c :: c in w ==> w[c] == Wanted(q, c).value
  {
    w := map[];
    w := Consider(q, w, Name);
    w := Consider(q, w, Category);
    w := Consider(q, w, Price);
    w := Consider(q, w, Ram);
    w := Consider(q, w, Processor);
    w := Consider(q, w, Storage);
    w := Consider(q, w, Brand);
  }

  /** A search by name alone filters on the name and nothing else. */
  lemma NameOnlySearch(q: SearchQuery)
    requires q.search != "" && q.category == q.minPrice == q.maxPrice == q.ram == q.processor == q.storage == q.brand == ""
    ensures forall c :: Wanted(q, c).Some? <==> c == Name
    ensures Wanted(q, Name) == Some(ILike("%" + q.search + "%"))
  {
  }

  /** The row limit of a search. */
  const SearchLimit := 100

  predicate NewestFirst(rows: seq<Product>) {
    forall i, j :: 0 <= i < j < |rows| ==> rows[i].createdAt >= rows[j].createdAt
  }

  datatype SearchResponse = SearchResponse(products: seq<ProductView>, count: nat)

  /**
   * The search response over the matching rows as the database orders them
   * (newest first): at most 100 shaped rows, the newest ones, while `count`
   * is the number of all matching rows.
   */
  function SearchPage(matching: seq<Product>, protocol: string, host: string): (r: SearchResponse)
    requires NewestFirst(matching)
    ensures r.count == |matching|
    ensures |r.products| == if |matching| < SearchLimit then |matching| else SearchLimit
    ensures forall i :: 0 <= i < |r.products| ==> r.products[i] == ShapeProduct(matching[i], protocol, host)
    ensures forall i, j :: 0 <= i < j < |r.products| ==>
      r.products[i].product.createdAt >= r.products[j].product.createdAt
    ensures forall i, j :: 0 <= i < |r.products| <= j < |matching| ==>
      r.products[i].product.createdAt >= matching[j].createdAt
  {
    var n := if |matching| < SearchLimit then |matching| else SearchLimit;
    SearchResponse(ShapeRows(matching[..n], protocol, host), |matching|)
  }

  // ---------------------------------------------------------------------
  // Single product

  /** `toFixed(2)` of a price held in cents: optional `-`, whole part, `.`, two digits. */
  function FormatPrice(c: Cents): (s: string)
    ensures |s| >= 4 && s[|s| - 3] == '.' && IsDigit(s[|s| - 2]) && IsDigit(s[|s| - 1])
    ensures c < 0 <==> s[0] == '-'
    ensures var m: nat := if c < 0 then -c else c;
      var k := if c < 0 then 1 else 0;
      && s[k..|s| - 3] == NatToString(m / 100)
      && (s[|s| - 2] as int - '0' as int) * 10 + (s[|s| - 1] as int - '0' as int) == m % 100
  {
    var m: nat := if c < 0 then -c else c;
    var sign := if c < 0 then "-" else "";
    var whole := NatToString(m / 100);
    var d1, d2 := DigitChar(m % 100 / 10), DigitChar(m % 100 % 10);
    PriceParts(sign, whole, d1, d2);
    sign + whole + "." + [d1, d2]
  }

  /** Distinct prices are displayed differently. */
  lemma FormatPriceInjective(a: Cents, b: Cents)
    requires FormatPrice(a) == FormatPrice(b)
    ensures a == b
  {
    var ma: nat := if a < 0 then -a else a;
    var mb: nat := if b < 0 then -b else b;
    var sign := if a < 0 then "-" else "";
    assert (a < 0) == (b < 0);
    PriceParts(sign, NatToString(ma / 100), DigitChar(ma % 100 / 10), DigitChar(ma % 100 % 10));
    PriceParts(sign, NatToString(mb / 100), DigitChar(mb % 100 / 10), DigitChar(mb % 100 % 10));
    NatToStringInjective(ma / 100, mb / 100);
    CentsFromParts(ma, mb);
  }

  /** The whole part and the two decimals can be read back from a printed price. */
  lemma PriceParts(sign: string, whole: string, d1: char, d2: char)
    ensures var s := sign + whole + "." + [d1, d2];
      |s| == |sign| + |whole| + 3 && s[|sign|..|s| - 3] == whole && s[|s| - 2] == d1 && s[|s| - 1] == d2
  {
    var s := sign + whole + "." + [d1, d2];
    assert s == (sign + whole) + ("." + [d1, d2]);
  }

  /** A count of cents is fixed by its whole part and its two decimals. */
  lemma CentsFromParts(m: nat, n: nat)
    requires m / 100 == n / 100 && m % 100 / 10 == n % 100 / 10 && m % 100 % 10 == n % 100 % 10
    ensures m == n
  {
    var r, s := m % 100, n % 100;
    assert r == r / 10 * 10 + r % 10;
    assert s == s / 10 * 10 + s % 10;
    assert m == m / 100 * 100 + r;
    assert n == n / 100 * 100 + s;
  }

  datatype ProductDetail =
    | DetailNotFound // 404 "Product not found"
    | Detail(view: ProductView, availableStock: int, price: string)

  /**
   * `getProductById`: an unknown id is a 404; otherwise the row with its
   * stock status, the stock repeated as `availableStock`, and the price with
   * two decimals. This endpoint does not shape the image: the row carries it
   * as stored, a missing one as `None`, and the view's shaped-image field is
   * unused here (it holds "").
   */
  function GetProductById(products: map<int, Product>, id: int): (r: ProductDetail)
    ensures r.DetailNotFound? <==> id !in products
    ensures r.Detail? ==>
      && r.view.product == products[id]
      && r.availableStock == products[id].stock
      && r.view.stockStatus == StockStatus(products[id].stock)
      && r.price == FormatPrice(products[id].price)
  {
    if id !in products then DetailNotFound
    else
      var p := products[id];
      Detail(ProductView(p, StockStatus(p.stock), if p.image.Some? then p.image.value else ""),
        p.stock, FormatPrice(p.price))
  }

  // ---------------------------------------------------------------------
  // Admin update and delete

  /** The attributes of an update body; `None` leaves the column as it is. */
  datatype ProductPatch = ProductPatch(
    name: Option<string>, description: Option<string>, price: Option<Cents>, category: Option<string>,
    stock: Option<int>, image: Option<string>, images: Option<string>, storage: Option<string>,
    ram: Option<string>, processor: Option<string>, brand: Option<string>)

  /** A nullable column after an update: the given value if the body has one, else the stored value. */
  function Overlay(given: Option<string>, stored: Option<string>): Option<string> {
    if given.Some? then given else stored
  }

  /** The row after `Product.update(updates)`: given columns replace the stored ones. */
  function ApplyPatch(p: Product, u: ProductPatch): (r: Product)
    ensures r.id == p.id && r.createdAt == p.createdAt
    ensures r.name == u.name.GetOr(p.name) && r.price == u.price.GetOr(p.price)
    ensures r.category == u.category.GetOr(p.category) && r.stock == u.stock.GetOr(p.stock)
    ensures r.description == (if u.description.Some? then u.description else p.description)
    ensures r.image == (if u.image.Some? then u.image else p.image)
    ensures r.images == (if u.images.Some? then u.images else p.images)
    ensures r.storage == (if u.storage.Some? then u.storage else p.storage)
    ensures r.ram == (if u.ram.Some? then u.ram else p.ram)
    ensures r.processor == (if u.processor.Some? then u.processor else p.processor)
    ensures r.brand == (if u.brand.Some? then u.brand else p.brand)
  {
    Product(p.id, u.name.GetOr(p.name), Overlay(u.description, p.description), u.price.GetOr(p.price),
            u.category.GetOr(p.category), u.stock.GetOr(p.stock), Overlay(u.image, p.image),
            Overlay(u.images, p.images), Overlay(u.storage, p.storage), Overlay(u.ram, p.ram),
            Overlay(u.processor, p.processor), Overlay(u.brand, p.brand), p.createdAt)
  }

  /** The body names at least one column; otherwise `Product.update` issues no query and reports 0 rows. */
  predicate SetsSomeColumn(u: ProductPatch) {
    || u.name.Some? || u.description.Some? || u.price.Some? || u.category.Some? || u.stock.Some?
    || u.image.Some? || u.images.Some? || u.storage.Some? || u.ram.Some? || u.processor.Some? || u.brand.Some?
  }

  /** An empty patch would leave the row as it is: the 404 for it is the only effect of the empty update. */
  lemma EmptyPatchKeepsRow(p: Product, u: ProductPatch)
    requires !SetsSomeColumn(u)
    ensures ApplyPatch(p, u) == p
  {
  }

  /** Every value the patch gives fits its column. */
  predicate PatchFits(u: ProductPatch) {
    && (u.name.Some? ==> FitsVarchar(u.name.value))
    && (u.price.Some? ==> FitsDecimal10_2(u.price.value))
    && (u.category.Some? ==> FitsVarchar(u.category.value))
    && (u.stock.Some? ==> FitsInteger(u.stock.value))
    && FitsOptVarchar(u.image) && FitsOptVarchar(u.storage) && FitsOptVarchar(u.ram)
    && FitsOptVarchar(u.processor) && FitsOptVarchar(u.brand)
  }

  /** A fitting patch of a fitting row gives a fitting row. */
  lemma PatchKeepsFit(p: Product, u: ProductPatch)
    requires ProductFits(p) && PatchFits(u)
    ensures ProductFits(ApplyPatch(p, u))
  {
  }

  /** A value too wide for its column makes the patched row break the column types. */
  lemma UnfitPatchBreaksRow(p: Product, u: ProductPatch)
    requires !PatchFits(u)
    ensures !ProductFits(ApplyPatch(p, u))
  {
  }

  datatype UpdateReply =
    | ProductUpdated
    | ProductNotFound // 404 "Product not found"
    | UpdateRefused   // 500 "Error updating product": the database refuses a value wider than its column

  /**
   * `updateProduct`: zero affected rows (no such row, or no column to set)
   * is a 404; a value wider than its column makes the statement fail, a 500;
   * both change nothing.
   */
  method UpdateProduct(db: Store, id: int, u: ProductPatch) returns (r: UpdateReply)
    requires db.Valid()
    modifies db`products
    ensures db.Valid()
    ensures r == ProductNotFound <==> id !in old(db.products) || !SetsSomeColumn(u)
    ensures r == UpdateRefused <==> id in old(db.products) && SetsSomeColumn(u) && !PatchFits(u)
    ensures r == ProductUpdated ==> db.products == old(db.products)[id := ApplyPatch(old(db.products)[id], u)]
    ensures r != ProductUpdated ==> db.products == old(db.products)
  {
    if id !in db.products || !SetsSomeColumn(u) {
      return ProductNotFound;
    }
    if !PatchFits(u) {
      return UpdateRefused;
    }
    db.products := db.products[id := ApplyPatch(db.products[id], u)];
    r := ProductUpdated;
  }

  /** `deleteProduct`: zero deleted rows is a 404; otherwise only that row goes. */
  method DeleteProduct(db: Store, id: int) returns (found: bool)
    requires db.Valid()
    modifies db`products
    ensures db.Valid()
    ensures found <==> id in old(db.products)
    ensures db.products == old(db.products) - {id}
  {
    found := id in db.products;
    db.products := db.products - {id};
  }

  // ---------------------------------------------------------------------
  // Reviews

  /** `Review.findOne({where: {productId, userId}})` */
  function FindReview(reviews: seq<Review>, productId: int, userId: int): (i: Option<nat>)
    ensures i.Some? ==> i.value < |reviews| && reviews[i.value].productId == productId && reviews[i.value].userId == userId
    ensures i.None? ==> forall k :: 0 <= k < |reviews| ==> !(reviews[k].productId == productId && reviews[k].userId == userId)
  {
    if reviews == [] then None
    else
      var last := |reviews| - 1;
      if reviews[last].productId == productId && reviews[last].userId == userId then Some(last)
      else
        var r := FindReview(reviews[..last], productId, userId);
        if r.Some? then Some(r.value) else None
  }

  /** The review table after `addReview` for a known product: update the pair's review in place, or append one. */
  function UpsertReview(reviews: seq<Review>, rv: Review): (r: seq<Review>) {
    match FindReview(reviews, rv.productId, rv.userId)
    case Some(i) => reviews[i := rv]
    case None => reviews + [rv]
  }

  /**
   * The upsert keeps one review per (product, user) pair, the new review is
   * the pair's review afterwards, and every other pair's review is kept.
   */
  lemma UpsertKeepsOnePerPair(reviews: seq<Review>, rv: Review)
    requires OneReviewPerPair(reviews)
    ensures OneReviewPerPair(UpsertReview(reviews, rv))
    ensures rv in UpsertReview(reviews, rv)
    ensures forall x :: x in reviews && (x.productId, x.userId) != (rv.productId, rv.userId) ==> x in UpsertReview(reviews, rv)
    ensures forall x :: x in UpsertReview(reviews, rv) && x != rv ==> x in reviews
    ensures |UpsertReview(reviews, rv)| == |reviews| + (if FindReview(reviews, rv.productId, rv.userId).None? then 1 else 0)
  {
    var r := UpsertReview(reviews, rv);
    match FindReview(reviews, rv.productId, rv.userId)
    case Some(i) =>
      assert r[i] == rv;
      forall x | x in reviews && (x.productId, x.userId) != (rv.productId, rv.userId)
        ensures x in r
      {
        var k :| 0 <= k < |reviews| && reviews[k] == x;
        assert r[k] == x;
      }
      forall x | x in r && x != rv
        ensures x in reviews
      {
        var k :| 0 <= k < |r| && r[k] == x;
        assert reviews[k] == x;
      }
    case None =>
      forall x | x in r && x != rv
        ensures x in reviews
      {
        var k :| 0 <= k < |r| && r[k] == x;
        assert reviews[k] == x;
      }
  }

  datatype ReviewOutcome =
    | ReviewProductNotFound // 404
    | ReviewUpdated         // 200 "Review updated successfully"
    | ReviewCreated         // 201 "Review added successfully"

  /** `addReview`: a second review by the same user on the same product replaces the first. */
  method AddReview(db: Store, productId: int, userId: int, rating: int, comment: string) returns (r: ReviewOutcome)
    requires db.Valid()
    modifies db`reviews
    ensures db.Valid()
    ensures r == ReviewProductNotFound <==> productId !in db.products
    ensures r == ReviewUpdated <==> productId in db.products && FindReview(old(db.reviews), productId, userId).Some?
    ensures r == ReviewProductNotFound ==> db.reviews == old(db.reviews)
    ensures r != ReviewProductNotFound ==> db.reviews == UpsertReview(old(db.reviews), Review(productId, userId, rating, comment))
  {
    if productId !in db.products {
      return ReviewProductNotFound;
    }
    var rv := Review(productId, userId, rating, comment);
    var existing := FindReview(db.reviews, productId, userId);
    UpsertKeepsOnePerPair(db.reviews, rv);
    if existing.Some? {
      db.reviews := db.reviews[existing.value := rv];
      r := ReviewUpdated;
    } else {
      db.reviews := db.reviews + [rv];
      r := ReviewCreated;
    }
  }
}
