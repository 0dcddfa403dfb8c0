/**
 * The client catalogue page's decisions: the query it sends for the current
 * search, category and filters, the guards in front of an add-to-cart
 * request, and what it shows for the reply. The URL's percent-encoding is
 * a parameter; rendering and timers are outside the model.
 */
module ProductsPage {
  import opened Wrappers
  import opened Text
  import Catalogue
  import Carts
  import Models

  /** The six filter fields of the page. */
  datatype Filters = Filters(minPrice: string, maxPrice: string, ram: string, processor: string, ssd: string, brand: string)

  /** The Clear Filters button: every field back to "". */
  const ClearedFilters := Filters("", "", "", "", "", "")

  /** The query parameters the page can send. */
  datatype Param = PSearch | PCategory | PMinPrice | PMaxPrice | PRam | PProcessor | PStorage | PBrand

  function Name(p: Param): string {
    match p
    case PSearch => "search"
    case PCategory => "category"
    case PMinPrice => "minPrice"
    case PMaxPrice => "maxPrice"
    case PRam => "ram"
    case PProcessor => "processor"
    case PStorage => "storage"
    case PBrand => "brand"
  }

  /** Every parameter the page may send, in the order it appends them; the `ssd` field goes out as `storage`. */
  function Candidates(search: string, category: string, f: Filters): seq<(Param, string)> {
    [(PSearch, search), (PCategory, category), (PMinPrice, f.minPrice), (PMaxPrice, f.maxPrice),
     (PRam, f.ram), (PProcessor, f.processor), (PStorage, f.ssd), (PBrand, f.brand)]
  }

  /** The pairs whose value is not empty, in their original order. */
  function NonEmpty(pairs: seq<(Param, string)>): (r: seq<(Param, string)>)
    ensures |r| <= |pairs|
    ensures forall i :: 0 <= i < |r| ==> r[i] in pairs && r[i].1 != ""
    ensures forall p :: p in pairs && p.1 != "" ==> p in r
  {
    if pairs == [] then []
    else if pairs[0].1 == "" then NonEmpty(pairs[1..])
    else [pairs[0]] + NonEmpty(pairs[1..])
  }

  /** One `if (value) params.append(name, value)` step. */
  function AppendIfSet(params: seq<(Param, string)>, p: Param, v: string): seq<(Param, string)> {
    if v != "" then params + [(p, v)] else params
  }

  /** The parameters `fetchProducts` appends, one conditional step per field. */
  function Params(search: string, category: string, f: Filters): seq<(Param, string)> {
    var a := AppendIfSet(AppendIfSet(AppendIfSet(AppendIfSet([], PSearch, search), PCategory, category),
      PMinPrice, f.minPrice), PMaxPrice, f.maxPrice);
    AppendIfSet(AppendIfSet(AppendIfSet(AppendIfSet(a, PRam, f.ram), PProcessor, f.processor), PStorage, f.ssd),
      PBrand, f.brand)
  }

  /** `name=value` pairs joined by `&`, names and values passed through the form encoder. */
  function QueryString(params: seq<(Param, string)>, encode: string -> string): string {
    Join(seq(|params|, i requires 0 <= i < |params| => encode(Name(params[i].0)) + "=" + encode(params[i].1)), "&")
  }

  /** `if (value) params.append(name, value)` on the page's parameter list. */
  method AppendIf(params: seq<(Param, string)>, p: Param, v: string) returns (params': seq<(Param, string)>)
    ensures params' == AppendIfSet(params, p, v)
  {
    params' := params;
    if v != "" {
      params' := params' + [(p, v)];
    }
  }

  /**
   * `fetchProducts`' URL: `/products` when no parameter is set, otherwise
   * the search endpoint with the parameters.
   */
  method FetchUrl(search: string, category: string, f: Filters, encode: string -> string)
    returns (url: string, params: seq<(Param, string)>)
    ensures params == Params(search, category, f)
    ensures params == [] ==> url == "/products"
    ensures params != [] ==> url == "/products/search?" + QueryString(params, encode)
  {
    params := [];
    params := AppendIf(params, PSearch, search);
    params := AppendIf(params, PCategory, category);
    params := AppendIf(params, PMinPrice, f.minPrice);
    params := AppendIf(params, PMaxPrice, f.maxPrice);
    params := AppendIf(params, PRam, f.ram);
    params := AppendIf(params, PProcessor, f.processor);
    params := AppendIf(params, PStorage, f.ssd);
    params := AppendIf(params, PBrand, f.brand);
    url := "/products";
    if params != [] {
      url := "/products/search?" + QueryString(params, encode);
    }
  }

  lemma {:induction false} NonEmptyAppend(pairs: seq<(Param, string)>, p: Param, v: string)
    ensures NonEmpty(pairs + [(p, v)]) == AppendIfSet(NonEmpty(pairs), p, v)
  {
    if pairs == [] {
      assert pairs + [(p, v)] == [(p, v)];
    } else {
      assert (pairs + [(p, v)])[1..] == pairs[1..] + [(p, v)];
      NonEmptyAppend(pairs[1..], p, v);
    }
  }

  /** The parameters sent are exactly the non-empty candidates, in the fixed order. */
  lemma ParamsAreNonEmptyCandidates(search: string, category: string, f: Filters)
    ensures Params(search, category, f) == NonEmpty(Candidates(search, category, f))
  {
    var a1 := [(PSearch, search)];
    var a2 := a1 + [(PCategory, category)];
    var a3 := a2 + [(PMinPrice, f.minPrice)];
    var a4 := a3 + [(PMaxPrice, f.maxPrice)];
    var a5 := a4 + [(PRam, f.ram)];
    var a6 := a5 + [(PProcessor, f.processor)];
    var a7 := a6 + [(PStorage, f.ssd)];
    var a8 := a7 + [(PBrand, f.brand)];
    assert a8 == Candidates(search, category, f);
    assert a1 == [] + [(PSearch, search)];
    NonEmptyAppend([], PSearch, search);
    NonEmptyAppend(a1, PCategory, category);
    NonEmptyAppend(a2, PMinPrice, f.minPrice);
    NonEmptyAppend(a3, PMaxPrice, f.maxPrice);
    NonEmptyAppend(a4, PRam, f.ram);
    NonEmptyAppend(a5, PProcessor, f.processor);
    NonEmptyAppend(a6, PStorage, f.ssd);
    NonEmptyAppend(a7, PBrand, f.brand);
  }

  /** The value the server reads for a parameter: the first pair with its name, or "" when absent. */
  function Value(params: seq<(Param, string)>, p: Param): (v: string)
    ensures v != "" ==> (p, v) in params
  {
    if params == [] then ""
    else if params[0].0 == p then params[0].1
    else Value(params[1..], p)
  }

  /** The search endpoint's view of the parameters. */
  function ServerQuery(params: seq<(Param, string)>): Catalogue.SearchQuery {
    Catalogue.SearchQuery(Value(params, PSearch), Value(params, PCategory), Value(params, PMinPrice),
      Value(params, PMaxPrice), Value(params, PRam), Value(params, PProcessor), Value(params, PStorage),
      Value(params, PBrand))
  }

  /** Filtering out empty values changes no parameter's value, once absent is read as "". */
  lemma {:induction false} NonEmptyKeepsValues(pairs: seq<(Param, string)>, p: Param)
    requires forall i, j :: 0 <= i < j < |pairs| ==> pairs[i].0 != pairs[j].0
    ensures Value(NonEmpty(pairs), p) == Value(pairs, p)
  {
    if pairs != [] {
      NonEmptyKeepsValues(pairs[1..], p);
      if pairs[0].0 == p && pairs[0].1 == "" {
        AbsentName(pairs[1..], p);
        NonEmptyAbsent(pairs[1..], p);
      }
    }
  }

  lemma {:induction false} AbsentName(pairs: seq<(Param, string)>, p: Param)
    requires forall i :: 0 <= i < |pairs| ==> pairs[i].0 != p
    ensures Value(pairs, p) == ""
  {
    if pairs != [] {
      AbsentName(pairs[1..], p);
    }
  }

  lemma NonEmptyAbsent(pairs: seq<(Param, string)>, p: Param)
    requires forall i :: 0 <= i < |pairs| ==> pairs[i].0 != p
    ensures Value(NonEmpty(pairs), p) == ""
  {
    var r := NonEmpty(pairs);
    forall i | 0 <= i < |r|
      ensures r[i].0 != p
    {
      assert r[i] in pairs;
    }
    AbsentName(r, p);
  }

  /**
   * The search endpoint reads back exactly the page's state: each filter
   * under its own name, `ssd` as `storage`, and "" for an empty field.
   */
  lemma ServerReadsPageState(search: string, category: string, f: Filters)
    ensures ServerQuery(Params(search, category, f)) ==
      Catalogue.SearchQuery(search, category, f.minPrice, f.maxPrice, f.ram, f.processor, f.ssd, f.brand)
  {
    var c := Candidates(search, category, f);
    ParamsAreNonEmptyCandidates(search, category, f);
    CandidatesDistinct(search, category, f);
    ReadsBack(c, 0);
    ReadsBack(c, 1);
    ReadsBack(c, 2);
    ReadsBack(c, 3);
    ReadsBack(c, 4);
    ReadsBack(c, 5);
    ReadsBack(c, 6);
    ReadsBack(c, 7);
  }

  /** The position of each parameter in the page's append order. */
  function Rank(p: Param): nat {
    match p
    case PSearch => 0
    case PCategory => 1
    case PMinPrice => 2
    case PMaxPrice => 3
    case PRam => 4
    case PProcessor => 5
    case PStorage => 6
    case PBrand => 7
  }

  /** The candidates name every parameter once, in append order. */
  lemma CandidatesDistinct(search: string, category: string, f: Filters)
    ensures var c := Candidates(search, category, f);
      |c| == 8 && forall i, j :: 0 <= i < j < |c| ==> c[i].0 != c[j].0
  {
    var c := Candidates(search, category, f);
    assert forall i :: 0 <= i < |c| ==> Rank(c[i].0) == i;
  }

  /** With distinct names, dropping empty values leaves every pair's value readable. */
  lemma ReadsBack(c: seq<(Param, string)>, k: nat)
    requires k < |c| && forall i, j :: 0 <= i < j < |c| ==> c[i].0 != c[j].0
    ensures Value(NonEmpty(c), c[k].0) == c[k].1
  {
    NonEmptyKeepsValues(c, c[k].0);
    ValueAt(c, k);
  }

  /** With distinct names, a pair's value is what its name reads. */
  lemma {:induction false} ValueAt(pairs: seq<(Param, string)>, k: nat)
    requires k < |pairs| && forall i, j :: 0 <= i < j < |pairs| ==> pairs[i].0 != pairs[j].0
    ensures Value(pairs, pairs[k].0) == pairs[k].1
  {
    if k > 0 {
      ValueAt(pairs[1..], k - 1);
    }
  }

  /** After Clear Filters only the search box and the category can still send parameters. */
  lemma ClearedFiltersSendNoFilter(search: string, category: string)
    ensures search == "" && category == "" ==> Params(search, category, ClearedFilters) == []
    ensures forall p :: p in Params(search, category, ClearedFilters) ==> p.0 == PSearch || p.0 == PCategory
  {
  }

  // ---------------------------------------------------------------------
  // Adding to the cart

  /** A product as the page lists it. */
  datatype Listed = Listed(id: int, stock: int)

  /** `products.find(p => p.id === id)` */
  function Find(products: seq<Listed>, id: int): (r: Option<Listed>)
    ensures r.Some? ==> r.value in products && r.value.id == id
    ensures r.None? ==> forall i :: 0 <= i < |products| ==> products[i].id != id
  {
    if products == [] then None
    else if products[0].id == id then Some(products[0])
    else Find(products[1..], id)
  }

  const SoldOutText := "Sorry, this product is out of stock"
  const LoginText := "Please login first"

  datatype Click = ShowMessage(text: string) | PostToCart(productId: int, quantity: int)

  /**
   * `addToCart`: no request for a product that is not listed or has no
   * stock, nor without a token; otherwise one unit is posted.
   */
  function AddToCart(products: seq<Listed>, productId: int, token: Option<string>): (c: Click)
    ensures c.PostToCart? <==>
      Find(products, productId).Some? && Find(products, productId).value.stock > 0 && token.Some? && token.value != ""
    ensures c.PostToCart? ==> c.productId == productId && c.quantity == 1
    ensures c == ShowMessage(SoldOutText) <==> Find(products, productId).None? || Find(products, productId).value.stock <= 0
    ensures c == ShowMessage(LoginText) <==>
      Find(products, productId).Some? && Find(products, productId).value.stock > 0 && (token.None? || token.value == "")
  {
    var product := Find(products, productId);
    if product.None? || product.value.stock <= 0 then ShowMessage(SoldOutText)
    else if token.None? || token.value == "" then ShowMessage(LoginText)
    else PostToCart(productId, 1)
  }

  /** A posted click raises the server row by one unit, up to the stock. */
  lemma ClickAddsOneUnit(products: seq<Listed>, productId: int, token: Option<string>,
                         carts: map<Models.CartKey, int>, rows: map<int, Models.Product>, userId: int)
    requires AddToCart(products, productId, token).PostToCart?
    requires productId in rows && rows[productId].stock > 0 && (userId, productId) in carts
    ensures var c := AddToCart(products, productId, token);
      Carts.AddResult(carts, rows, userId, c.productId, Some(c.quantity)).quantity ==
        Carts.Min(carts[(userId, productId)] + 1, rows[productId].stock)
  {
  }

  /** The cart endpoint's answer to the post. */
  datatype AddReply = AddAccepted(stockLimit: bool) | AddRefused(message: Option<string>)

  /** The message shown for the reply; `stock` is the listed stock of the product. */
  function AddMessage(reply: AddReply, stock: int): (text: string)
    ensures reply == AddAccepted(false) ==> text == "Added to cart!"
    ensures reply == AddAccepted(true) ==> text == "Added to cart! Limited to " + IntToString(stock) + " items."
    ensures reply == AddRefused(Some("Product is out of stock")) ==> text == "Sorry, this product is now out of stock"
    ensures reply == AddRefused(Some(LoginText)) ==> text == LoginText
    ensures reply.AddRefused? && reply.message != Some("Product is out of stock") && reply.message != Some(LoginText) ==>
      text == "An error occurred. Please try again later."
  {
    match reply
    case AddAccepted(limit) =>
      if limit then "Added to cart! Limited to " + IntToString(stock) + " items." else "Added to cart!"
    case AddRefused(m) =>
      var msg := m.GetOr("");
      if msg == "Product is out of stock" then "Sorry, this product is now out of stock"
      else if msg == LoginText then LoginText
      else "An error occurred. Please try again later."
  }
}
