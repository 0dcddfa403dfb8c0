# TECHMART shop core in Dafny

This project models the server side of the TECHMART shop and the two client
pages that talk to it. The model is written in Dafny and its properties are
proved.

- **Checkout.** `placeOrder` validates the request in a fixed order, computes
  the total from the store's prices, writes the order with its lines priced at
  purchase, decrements stock and empties the buyer's cart.
- **Payments.** The order/payment status machine: online initiation, gateway
  webhook success and failure, cash-on-delivery confirmation and refund.
- **Cart.** Add, update and remove, each clamping quantities to live stock.
- **Models.** The Order, OrderItem and Product records with their enums,
  defaults and non-null constraints. Money is a whole number of cents
  (DECIMAL(10,2)).
- **Smaller components:**
  - product view shaping, the search filter, single-product view,
    update/delete and the review upsert;
  - registration and login guards, and the password-reset token lifecycle;
  - the in-memory TTL cache and its key builders, including base64
    (section 4 of RFC 4648);
  - the query, sort and pagination helpers;
  - the orders CSV export and the analytics constants;
  - upload validation, stored file names and file URLs;
  - the client checkout form and quantity routing (`Cart.js`);
  - the client catalogue URL builder and add-to-cart guards (`Products.js`).

How the files are laid out:

- **One module per source component.** `Wrappers` holds Option.
  `Text` holds JavaScript's `trim`, `parseInt`, integer printing and ASCII
  `toUpperCase`.
- **The store.** The relational store is the class `Db.Store`. Its tables are
  fields: products, cart rows, orders, order items, users and reviews.
  `Valid()` holds the invariants every controller method keeps:
  - keys match row ids;
  - each order's total equals the sum of its lines;
  - there is at most one review per (product, user);
  - emails are unique.
- **Controller methods.** Each controller operation is a method that modifies
  only the tables it writes. Its `ensures` ties the new tables to pure
  functions of the old ones, and lemmas prove what those functions promise.
- **The clock and randomness.** The clock, random bytes, password hashing,
  the mail result and URL encoding are parameters.

## Model

| member | source | states |
|---|---|---|
| Models.ParsePaymentMethod | server/models/Order.js:20-23 | exactly `cod`, `online` and `wallet` are accepted, each as its own enumeration value |
| Models.NewProduct | server/models/Product.js:10-46 | creation succeeds iff name, price and category are present and every value fits its column (VARCHAR(255) strings, DECIMAL(10,2) price, 32-bit INTEGER stock); stock defaults to 0 with no lower bound; optional text attributes are kept as given; the created row fits its columns |
| Models.NewOrder | server/models/Order.js:11-28 | creation succeeds iff every non-null column is present, the method is in the enumeration and mobile ≤ 15 / pincode ≤ 10 characters; status, paymentStatus and method take their defaults pending, pending, cod |
| Models.NewOrderItem | server/models/OrderItem.js:6-17 | creation succeeds iff orderId, productId and a DECIMAL(10,2) price are present; quantity defaults to 1; the price is stored on the item |
| Db.ItemsOf | server/models/Order.js:32-35 | an order's lines are exactly the stored lines carrying its id |
| Db.Store.constructor | server/models/Order.js:4-29 | an empty store satisfies every table invariant |
| OrderLedger.MissingIds | server/controllers/orderController.js:57-72 | the reported ids are exactly the requested ids that the catalogue lacks, and the list is empty iff all are known |
| OrderLedger.ShortfallsExact | server/controllers/orderController.js:75-100 | the report lists every line whose stock is below its quantity and no other line; it is empty iff every line is in stock |
| OrderLedger.ShortfallsListed | server/controllers/orderController.js:75-100 | every reported entry is the shortfall of some line whose stock is below its quantity |
| OrderLedger.ShortLineListed | server/controllers/orderController.js:75-100 | every line whose stock is below its quantity is reported |
| OrderLedger.ShortfallsBound | server/controllers/orderController.js:75-100 | at most one entry per requested line |
| OrderLedger.CollectShortfalls | server/controllers/orderController.js:82-92 | the loop builds exactly the batch report |
| OrderLedger.LineItems | server/controllers/orderController.js:137-147 | one line per requested item, carrying the order id, the requested quantity and the database price read at placement |
| OrderLedger.TotalIsSumOfLines | server/controllers/orderController.js:103-107 | the stored total equals the sum of price × quantity over the stored lines |
| OrderLedger.ClientPricesIgnored | server/controllers/orderController.js:46 | requests differing only in the client's prices give the same total and the same lines |
| OrderLedger.ComputeTotal | server/controllers/orderController.js:103-107 | the accumulating loop yields the total of database price × quantity |
| OrderLedger.InitialState | server/controllers/orderController.js:110-119 | payment starts pending; the order is pending iff the method is `online`, otherwise processing (cod, wallet and any other string) |
| OrderLedger.SetStock | server/controllers/orderController.js:152-155 | writing a stock value keeps the product set |
| OrderLedger.StockAfter | server/controllers/orderController.js:150-156 | the stock writes keep the product set |
| OrderLedger.StockAfterEffect | server/controllers/orderController.js:150-156 | unordered products are untouched; an ordered product's new stock is the snapshot value minus the quantity of the last line naming it |
| OrderLedger.StockStaysNonNegative | server/controllers/orderController.js:84 | after a check with no shortfall, every ordered product's new stock is ≥ 0 |
| OrderLedger.LastQuantityIsSomeLine | server/controllers/orderController.js:150-156 | the quantity that wins is that of a line naming the product |
| OrderLedger.RepeatedProductLastLineWins | server/controllers/orderController.js:150-156 | two lines (2 then 3) for a product of stock 5 both pass, five units are sold and the stock is left at 2, not 0 |
| OrderLedger.ClearUserCart | server/controllers/orderController.js:159-161 | exactly the ordering user's cart rows are deleted; other rows keep their quantities |
| OrderLedger.ClearUserCartIdempotent | server/controllers/orderController.js:159-161 | clearing twice equals clearing once |
| OrderLedger.PlaceOrder | server/controllers/orderController.js:44-177 | each rejection (no items, unknown ids, shortfalls, refused row) happens iff its condition holds and changes nothing; success appends the order and its lines, sets the stock and clears the cart, keeping the store invariants |
| OrderLedger.Commit | server/controllers/orderController.js:124-161 | the writes of an accepted checkout, in order: order row, lines, stock, cart |
| OrderLedger.DecrementStock | server/controllers/orderController.js:150-156 | the per-line loop leaves the products as the stock-write function says |
| OrderLedger.LedgerAfterAppend | server/controllers/orderController.js:124-147 | appending a new order and its lines keeps every order's total equal to its lines' sum |
| OrderLedger.ItemsOfAppend | server/models/Order.js:34 | an order's lines in a concatenation are its lines in each part |
| Payments.Restate | server/controllers/paymentController.js:30-33 | a transition changes only status, paymentStatus and (when given) the refund reason |
| Payments.UpdateWhereId | server/controllers/paymentController.js:30-33 | an update by id touches only that row, and nothing when the id is absent; no row's id or total changes |
| Payments.UpdateKeepsLedger | server/controllers/paymentController.js:30-33 | a status update keeps every order's total equal to its lines' sum |
| Payments.SameTotalsKeepLedger | server/controllers/paymentController.js:30-33 | any change that keeps the rows and their totals keeps every total equal to its lines' sum |
| Payments.FallbackOrderRejected | server/controllers/paymentController.js:17-27 | the fallback order lacks name, mobile and pincode, so its creation is always refused |
| Payments.MakeIntent | server/controllers/paymentController.js:36-43 | the intent carries the amount, order and user; currency inr; status requires_payment_method; id `pi_` + digits; secret = id + `_secret` |
| Payments.IntentIdsDistinct | server/controllers/paymentController.js:37 | intents made at different clock readings have different ids |
| Payments.CreatePaymentIntent | server/controllers/paymentController.js:4-56 | an intent is created iff the order belongs to the user, and then the order becomes processing/pending; otherwise the orders are unchanged |
| Payments.IntentReopensPaidOrder | server/controllers/paymentController.js:30-33 | a paid order comes back as processing with payment pending |
| Payments.OrdersAfterEvent | server/controllers/paymentController.js:63-100 | a success with a truthy order id sets that order paid/completed, a payment failure sets it pending/failed; an unknown event, a missing order id or a throwing event leaves the orders unchanged |
| Payments.CartsAfterEvent | server/controllers/paymentController.js:80-84 | a success event carrying both a truthy order id and a truthy user id deletes exactly that user's cart rows; nothing else changes the carts |
| Payments.HandleWebhook | server/controllers/paymentController.js:59-105 | the handler errors iff the event throws, and the orders and carts become those the event functions give |
| Payments.WebhookIdempotent | server/controllers/paymentController.js:65-97 | delivering an event twice leaves the same orders and carts as delivering it once |
| Payments.ProcessCodPayment | server/controllers/paymentController.js:108-151 | 404 iff the user does not own the order; 400 iff the method is not cod; otherwise processing/pending; rejections change nothing |
| Payments.RefundDecision | server/controllers/paymentController.js:160-191 | 404 iff no such order, 400 iff not paid, 500 iff paid but the reason is wider than VARCHAR(255); the refund goes ahead iff the order exists, is paid and the reason fits, whoever owns it |
| Payments.RefundPayment | server/controllers/paymentController.js:154-192 | the outcome is RefundDecision; a refund sets refunded/refunded and records the reason; any other outcome, the 500 included, changes nothing |
| Payments.RefundOnce | server/controllers/paymentController.js:166-180 | a refunded order cannot be refunded again, whatever the second reason |
| Payments.TransitionsKeepPairs | server/controllers/paymentController.js:30-97 | initiation, webhooks and refund keep every order on a consistent (status, paymentStatus) pair |
| Payments.CompletedMeansPaid | server/controllers/paymentController.js:65-80 | on consistent pairs, payment is completed iff the order is paid, and refunded iff refunded |
| Payments.CheckoutStartsOnPair | server/controllers/orderController.js:110-119 | checkout starts every order on a consistent pair |
| Carts.AddedQuantity | server/controllers/cartController.js:52-78 | the stored quantity is min(existing + quantity, stock) for an existing row and min(quantity, stock) for a new one, never above stock |
| Carts.AddResult | server/controllers/cartController.js:24-94 | 404 iff the product is unknown; 400 iff its stock ≤ 0; on success stockLimit holds iff the stored quantity equals stock |
| Carts.AddItemToCart | server/controllers/cartController.js:24-94 | the outcome is the decision above; only the (user, product) cart row changes, and product stock is never written |
| Carts.AddStaysWithinStock | server/controllers/cartController.js:52-78 | with a positive quantity and a non-negative existing row, a successful add stores a value between 1 and the stock |
| Carts.UpdatedQuantity | server/controllers/cartController.js:104-123 | the stored value is the smaller of max(1, requested) and stock: never above either, equal to one of them; an in-range request is kept, a request above stock becomes stock, a request below 1 becomes 1 when stock allows |
| Carts.UpdateResult | server/controllers/cartController.js:97-137 | 404 for a missing row before the product lookup, then 404 for a missing product; a non-numeric quantity fails; success stores min(max(1, q), stock) |
| Carts.UpdateCartItem | server/controllers/cartController.js:97-137 | the outcome is the decision above; only that cart row changes; stock is never written |
| Carts.UpdateOnSoldOutStoresZero | server/controllers/cartController.js:104-123 | for a product with stock 0, any numeric update stores 0 and reports the stock limit |
| Carts.WithoutRow | server/controllers/cartController.js:148-161 | removal deletes exactly the (user, product) row |
| Carts.RemoveCartItem | server/controllers/cartController.js:140-178 | always a success; "not in cart" iff the row was missing; stock never written |
| Carts.RemoveIdempotent | server/controllers/cartController.js:148-176 | removing twice equals removing once, and a missing row is a no-op |
| Catalogue.StockStatus | server/controllers/productController.js:18 | "In Stock" iff stock > 0, "Out of Stock" iff stock ≤ 0 |
| Catalogue.ShapeImage | server/controllers/productController.js:19-24 | an empty image gives ""; an `http` value is kept; otherwise `protocol://host` and the path, with one leading `/` |
| Catalogue.ShapeImageIdempotent | server/controllers/productController.js:112-117 | shaping an already shaped image changes nothing |
| Catalogue.ShapeProduct | server/controllers/productController.js:16-26 | the view keeps the row and adds its stock status and shaped image |
| Catalogue.ShapeRows | server/controllers/productController.js:109-119 | one view per row, in row order |
| Catalogue.Contains | server/controllers/productController.js:54 | the pattern is the value between two `%` |
| Catalogue.Consider | server/controllers/productController.js:51-98 | one `if` of the controller: the clause built so far for the earlier columns gains this column's condition exactly when it has one |
| Catalogue.BuildWhereClause | server/controllers/productController.js:46-98 | a column is in the clause iff its parameter is non-empty (price: iff either bound is), holding a substring pattern for name, ram, processor, storage and brand, the exact pattern for category, the given bounds for price |
| Catalogue.NameOnlySearch | server/controllers/productController.js:51-55 | a search with only a name filters on the name alone, with the pattern `%name%` |
| Catalogue.SearchPage | server/controllers/productController.js:102-128 | at most 100 rows, newest first, taken from the front of the matches; the count is that of all matches |
| Catalogue.FormatPrice | server/controllers/productController.js:162 | a sign iff negative, then the decimal digits of the whole units, a point, and two digits whose value is the cents part |
| Catalogue.FormatPriceInjective | server/controllers/productController.js:162 | distinct prices print differently |
| Catalogue.GetProductById | server/controllers/productController.js:140-179 | 404 iff the id is unknown; otherwise availableStock equals stock, the stock status is StockStatus of the stock ("In Stock" iff positive, else "Out of Stock"), and the price is printed |
| Catalogue.ApplyPatch | server/controllers/productController.js:219-222 | each of the eleven patchable columns takes the given value when one is given and keeps the stored one otherwise; the id and createdAt are kept |
| Catalogue.EmptyPatchKeepsRow | server/controllers/productController.js:219-225 | a patch naming no column leaves the row as it was |
| Catalogue.PatchKeepsFit | server/models/Product.js:10-46 | a patch whose values fit their columns keeps a fitting row fitting |
| Catalogue.UnfitPatchBreaksRow | server/models/Product.js:10-46 | a patch with a value too wide for its column would give a row outside the column types |
| Catalogue.UpdateProduct | server/controllers/productController.js:214-240 | 404 iff no row has the id or the body names no column (zero rows updated); 500 iff the row exists and some value is too wide for its column; otherwise only that row is patched; the 404 and the 500 change nothing |
| Catalogue.DeleteProduct | server/controllers/productController.js:243-263 | 404 iff no row has the id; exactly that product is removed |
| Catalogue.FindReview | server/controllers/productController.js:284-286 | finds a review of that (product, user) pair, or reports that none exists |
| Catalogue.UpsertKeepsOnePerPair | server/controllers/productController.js:288-306 | the upsert keeps one review per pair, contains the new review, keeps every other pair's review and grows only when the pair was new |
| Catalogue.AddReview | server/controllers/productController.js:266-322 | 404 iff the product is unknown (reviews unchanged); an update iff the pair already had a review; otherwise the review is inserted |
| Accounts.RegisterUser | server/controllers/authController.js:23-62 | 400 iff a field is missing; "already exists" iff the email is taken; otherwise a new user with role user; every rejection leaves the users unchanged |
| Accounts.RegisterKeepsEmailsUnique | server/controllers/authController.js:34-44 | inserting a user with a fresh email keeps emails unique |
| Accounts.LoginUser | server/controllers/authController.js:64-105 | 400 iff a field is missing; success iff the email is known and the password matches, and then the id is that user's |
| Accounts.HexByte | server/controllers/authController.js:122 | two hex digits whose value is the byte |
| Accounts.Hex | server/controllers/authController.js:122 | two characters per byte, each pair the byte's hex digits |
| Accounts.HexInjective | server/controllers/authController.js:122 | distinct random bytes give distinct tokens |
| Accounts.WithToken | server/controllers/authController.js:126-132 | storing a token sets token and expiry and keeps the account |
| Accounts.SendResetLink | server/controllers/authController.js:107-151 | 400 iff no email; 404 iff unknown (nothing stored); otherwise a 64-character token with expiry now + 1 h is stored before mailing and kept when mailing fails |
| Accounts.AfterReset | server/controllers/authController.js:192-199 | a reset stores the new hash and clears token and expiry |
| Text.Utf16Length | server/controllers/authController.js:161 | a string's `length` counts UTF-16 code units: the character count plus one per astral character, between the character count and twice it |
| Accounts.ResetPassword | server/controllers/authController.js:153-211 | 400 iff a field is missing; too short iff under 6 UTF-16 code units, before any lookup; success iff some user holds the token with expiry after now |
| Accounts.ResetTokenSingleUse | server/controllers/authController.js:168-199 | after a reset no user holds that token, so a second use fails |
| Accounts.TokenWindow | server/controllers/authController.js:123 | a stored token is accepted exactly until one hour has passed |
| Cache.Lookup | server/utils/cacheUtils.js:69-75 | a value is returned iff the key is present and its expiry is after now |
| Cache.Stored | server/utils/cacheUtils.js:43-54 | the entry expires ttl·1000 ms from now, ttl defaulting to 300 |
| Cache.AfterGet | server/utils/cacheUtils.js:72-74 | a read removes an expired entry and leaves everything else |
| Cache.MemoryCache.constructor | server/utils/cacheUtils.js:33 | the cache starts empty |
| Cache.MemoryCache.Set | server/utils/cacheUtils.js:43-59 | the key is overwritten and nothing else changes |
| Cache.MemoryCache.Get | server/utils/cacheUtils.js:62-81 | returns the lookup result and evicts the key if it expired |
| Cache.MemoryCache.Del | server/utils/cacheUtils.js:84-94 | removes only that key |
| Cache.MemoryCache.Clear | server/utils/cacheUtils.js:97-107 | empties the cache |
| Cache.SetThenGet | server/utils/cacheUtils.js:51-71 | a read after a write returns the written value until the ttl runs out |
| Cache.OtherKeysUnaffected | server/utils/cacheUtils.js:51-89 | set, del and get on one key do not change what another key returns |
| Cache.EvictionInvisible | server/utils/cacheUtils.js:72-74 | evicting an expired entry changes no later read |
| Cache.DeletedKeysAnswerNothing | server/utils/cacheUtils.js:89-102 | after del or clear, reads return nothing |
| Cache.ProductsKey | server/utils/cacheUtils.js:111 | `products:` + page + `:` + limit + `:` + filters, with defaults 1, 10 and "": an absent page and limit give the prefix `products:1:10:` |
| Cache.ProductsKeyDefaults | server/utils/cacheUtils.js:111 | an absent page and limit give the same key as page 1 of 10: `products:1:10:` + filters |
| Cache.ProductsKeyInjective | server/utils/cacheUtils.js:111 | keys are distinct when page and limit hold no `:` |
| Cache.ProductsKeyParts | server/utils/cacheUtils.js:111 | a products key is `products:` followed by page, limit and filters, separated by `:` |
| Cache.ProductsKeyColonCollision | server/utils/cacheUtils.js:111 | with a `:` in page or limit, two different requests share a key |
| Cache.SessionKey | server/utils/cacheUtils.js:113 | `session:` + the decimal id |
| Cache.SessionKeyInjective | server/utils/cacheUtils.js:113 | distinct users get distinct session keys |
| Cache.SearchKey | server/utils/cacheUtils.js:112 | `search:` + base64 of the query |
| Cache.SearchKeyReadsBack | server/utils/cacheUtils.js:112 | the query can be decoded back from its key, so distinct queries get distinct keys |
| Base64.Encode | server/utils/cacheUtils.js:112 | the encoding is a whole number of four-character groups |
| Base64.EncodedLength | server/utils/cacheUtils.js:112 | four characters per started group of three bytes |
| Base64.GroupRoundTrip | server/utils/cacheUtils.js:112 | decoding an encoded group gives back its three bytes |
| Base64.RoundTrip | server/utils/cacheUtils.js:112 | decoding an encoding gives back the bytes, padding included |
| Base64.EncodeInjective | server/utils/cacheUtils.js:112 | distinct byte strings encode differently |
| SearchHelpers.SearchCondition | server/utils/searchUtils.js:15-23 | nothing iff the term is absent or empty; otherwise one `%term%` match per field, in field order |
| SearchHelpers.PriceFilter | server/utils/searchUtils.js:26-38 | nothing iff neither bound is given; gte present iff min is given, lte iff max is given |
| SearchHelpers.CategoryFilter | server/utils/searchUtils.js:41-49 | nothing for absent or empty input; a scalar is wrapped, an array passes through |
| SearchHelpers.SortOptions | server/utils/searchUtils.js:52-65 | the field is always valid (an invalid one becomes createdAt); the direction is always ASC or DESC, defaulting to ASC, upper-cased, invalid becoming DESC |
| SearchHelpers.SortDirectionCaseInsensitive | server/utils/searchUtils.js:60-64 | `desc`, `Desc` and `asc` are accepted in any case; `ascending` becomes DESC |
| SearchHelpers.NumberOr | server/utils/searchUtils.js:69-70 | never 0: an unparsable or zero value falls back |
| SearchHelpers.Pagination | server/utils/searchUtils.js:68-78 | page and limit are never 0; offset = (page − 1) × limit, ≥ 0 from page 1 on |
| SearchHelpers.PaginationDefaults | server/utils/searchUtils.js:68-78 | absent, unparsable or zero inputs give page 1 of 10 at offset 0 |
| SearchHelpers.PaginationReadsNumbers | server/utils/searchUtils.js:69-71 | non-zero decimal page and limit are read back as written |
| SearchHelpers.NumberOrReadsNumber | server/utils/searchUtils.js:69-70 | a parameter holding a printed non-zero integer reads back as that integer, not the fallback |
| SearchHelpers.BuildSearchQuery | server/utils/searchUtils.js:81-107 | the where clause holds the three filters under separate keys; order, limit, offset and page come from the helpers |
| SearchHelpers.EmptyParamsQuery | server/utils/searchUtils.js:81-107 | no parameters: no filter, createdAt ascending, first ten rows |
| SearchHelpers.TermSearchesNameAndDescription | server/utils/searchUtils.js:94 | a term matches either the name or the description |
| Admin.EmailCell | server/controllers/adminController.js:86 | `N/A` iff the email is missing, empty or literally `N/A`; otherwise the email itself |
| Admin.Csv | server/controllers/adminController.js:82 | the export starts with the exact header line |
| Text.WriteLines | server/controllers/adminController.js:84-86 | the string-growing loop leaves the head followed by every line, each ended by a newline, in order |
| Admin.ExportOrdersToCsv | server/controllers/adminController.js:72-95 | the string-growing loop yields the header then one newline-terminated row per order, in query order |
| Admin.RowSplitsBack | server/controllers/adminController.js:86 | a row with no comma or newline in its fields splits back into id, email, total, status, date |
| Admin.StatusPlain | server/controllers/adminController.js:86 | status names hold only lower-case letters, so neither a comma nor a newline |
| Admin.CsvLines | server/controllers/adminController.js:82-87 | with such rows, the export's lines are the header, one line per order, then the empty rest |
| Admin.CsvReadsBack | server/controllers/adminController.js:82-87 | 1 + n lines before the final newline, header first, each row line splitting into its order's fields |
| Admin.CommaInEmailShiftsColumns | server/controllers/adminController.js:86 | a comma in an email yields six columns, shifting total, status and date right (no RFC 4180 quoting) |
| Admin.Customers | server/controllers/adminController.js:31 | exactly the users with role `user` |
| Admin.GetAnalytics | server/controllers/adminController.js:26-51 | totalUsers counts role-`user` accounts only, never more than all users; totalRevenue is the constant 0 |
| Admin.AdminsNotCounted | server/controllers/adminController.js:31 | adding an admin leaves totalUsers unchanged; adding a customer raises it by one |
| Uploads.FileFilter | server/utils/uploadUtils.js:25-33 | accepted iff the type is one of the five image types; otherwise the fixed message |
| Uploads.FilterAcceptsOnlyImages | server/utils/uploadUtils.js:26-32 | only `image/` types pass; `image/svg+xml` does not |
| Uploads.ValidateFileSize | server/utils/uploadUtils.js:77-80 | holds iff size ≤ maxSizeMB · 1048576, 5 MB by default, bound inclusive |
| Uploads.DefaultSizeMatchesParserLimit | server/utils/uploadUtils.js:40 | the default check admits exactly the parser's 5 MB limit: 5242880 passes, 5242881 does not |
| Uploads.ExtName | server/utils/uploadUtils.js:20 | the extension is empty or starts with its only `.` and is a suffix of the last path segment |
| Uploads.StoredName | server/utils/uploadUtils.js:16-21 | the name is fieldname + `-`, then the timestamp's digits, `-`, the random number's digits, then the original extension |
| Uploads.StoredNameDistinct | server/utils/uploadUtils.js:16-21 | two uploads through the same field with the same extension get the same name only if both timestamp and random number agree |
| Uploads.StoredNameKeepsExtension | server/utils/uploadUtils.js:16-21 | a stored name has the same extension as the original when the field name holds no `.` or `/` |
| Uploads.StemFree | server/utils/uploadUtils.js:17-19 | the stem (field name, `-`, clock digits, `-`, random digits) holds no character that the field name lacks, digits and `-` aside |
| Uploads.ExtensionAfterStem | server/utils/uploadUtils.js:18-19 | after a non-empty stem with no `.` or `/`, the extension of stem plus extension is that extension |
| Uploads.FileUrl | server/utils/uploadUtils.js:69-74 | the forwarded protocol if set, else the connection's, then `://`, the host exactly, and `/uploads/` + filename |
| Uploads.FileUrlEndsInName | server/utils/uploadUtils.js:69-74 | the URL's last segment is the file name |
| Uploads.GetFileInfo | server/utils/uploadUtils.js:83-91 | the five fields are copied unchanged |
| Uploads.FileInfoDeterminesFile | server/utils/uploadUtils.js:83-91 | the summary loses nothing but the form field |
| CartPage.ChoiceName | client/src/pages/Cart.js:97 | the chosen method is sent under a name the order table accepts |
| CartPage.CheckForm | client/src/pages/Cart.js:80-98 | each problem iff its check is the first to fail, in the order empty cart, address, mobile, pincode, 10-digit mobile, 6-digit pincode; the request carries the untrimmed address and the trimmed mobile and pincode |
| CartPage.AcceptedFormFitsOrderRow | client/src/pages/Cart.js:80-98 | an accepted form yields an order row the server's table accepts |
| CartPage.QuantityChange | client/src/pages/Cart.js:43-47 | a quantity ≤ 0 becomes a removal; otherwise an update with that quantity |
| CartPage.UpdateReachesServerUnfloored | client/src/pages/Cart.js:43-53 | an update the page sends is stored by the server as min(quantity, stock) |
| CartPage.BuildOutOfStockText | client/src/pages/Cart.js:119-123 | the message loop yields the heading and one line per shortfall |
| CartPage.OutOfStockLines | client/src/pages/Cart.js:121-122 | the message splits back into the heading and one line per shortfall |
| CartPage.MessageOr | client/src/pages/Cart.js:116 | the logical or of the server's message and a fallback: the message when it is non-empty, the fallback otherwise |
| CartPage.AfterPlaceOrder | client/src/pages/Cart.js:106-126 | online success starts payment with the order id; cod success shows its message; a refused answer shows the server's message or "Order failed"; a failure shows the shortfall list when there is one, else the server's message or "Order failed. Try again." |
| CartPage.ServerShortfallsShown | client/src/pages/Cart.js:119-123 | the server's shortfall report is what the page shows |
| ProductsPage.NonEmpty | client/src/pages/Products.js:37-44 | keeps exactly the non-empty pairs |
| ProductsPage.FetchUrl | client/src/pages/Products.js:32-48 | the parameters are the non-empty ones in the fixed order; the URL is `/products` iff there are none |
| ProductsPage.ParamsAreNonEmptyCandidates | client/src/pages/Products.js:37-44 | the appended parameters are the candidates, in order, with the empty ones dropped; `ssd` goes out as `storage` |
| ProductsPage.ServerReadsPageState | client/src/pages/Products.js:37-44 | the server's search reads back exactly the page's search, category and filters |
| ProductsPage.ClearedFiltersSendNoFilter | client/src/pages/Products.js:392 | after Clear Filters only search and category can be sent |
| ProductsPage.Find | client/src/pages/Products.js:59 | finds a product with that id, or reports that none exists |
| ProductsPage.AddToCart | client/src/pages/Products.js:58-77 | a request (for one unit) is sent iff the product is known, in stock and a token exists; the sold-out message iff unknown or stock ≤ 0; the login message iff listed and in stock without a token |
| ProductsPage.ClickAddsOneUnit | client/src/pages/Products.js:73-77 | the server adds one unit, capped at stock, to the existing cart row |
| ProductsPage.AddMessage | client/src/pages/Products.js:79-95 | the message shown for each reply: added, added with the stock limit, sold out, please log in, or the generic error for any other refusal |
| Text.TrimStart | client/src/pages/Cart.js:81-85 | `trim` drops exactly the leading whitespace (and `TrimEnd` the trailing) |
| Text.TrimEmptyIff | client/src/pages/Cart.js:81-83 | a string trims to empty iff it is all whitespace |
| Text.ParseIntOfIntToString | server/controllers/cartController.js:104 | decimal `parseInt` reads back a printed integer |
| Text.ParseDigits | server/controllers/cartController.js:104 | a string of digits reads as its decimal value |
| Text.ParseNegatedDigits | server/controllers/cartController.js:104 | a minus sign then digits reads as the negated value |
| Text.ParseIntAnyRadixOfIntToString | server/utils/searchUtils.js:69-70 | `parseInt` without a radix reads back a printed integer |
| Text.AsciiUpper | server/utils/searchUtils.js:60 | letters a-z become A-Z and everything else is kept |

## Left out

- **Transactions and concurrency.** Each operation runs alone and in
  sequence. Rollback of a half-done checkout and protection against
  concurrent oversell are not modelled.
- **Floating-point money.** Money is integer cents. `toFixed(2)` is modelled
  exactly on cents by Catalogue.FormatPrice. `parseFloat` of amounts with
  more than two decimals, the `amount * 100` conversion and the client's
  float totals are not modelled. The client total is a parameter.
- **Opaque libraries.** bcrypt hashing and comparison, JSON web tokens, the
  crypto random source and the mailer are parameters. The confirmation mail
  after a password reset is not modelled.
- **ORM mechanics.** Eager loading, joins and count queries are not modelled.
  The store is abstract maps. getAllProducts, getUserCart, getAllOrders and
  getAllUsers are plain reads, apart from the view shaping modelled above.
- **Express glue, middleware and routes.** The admin role is a precondition
  of the caller.
- **Timers and debounced search.** Not modelled.
- **React rendering, state and local storage.** Not modelled.
- **Test files.** Not modelled.
- Models.NewOrder: the STRING(255) width of `name` is not checked.
- Models.NewProduct: `createProduct` passes only name, description, price,
  category, stock, image and images, so its storage, ram, processor and brand
  are absent. The model takes the draft as given.
- Payments.CreatePaymentIntent: the fallback `Order.create` always fails
  (non-null name, mobile and pincode). So the model treats an unknown order as
  an error that changes nothing. A non-numeric `amount` is `None`.
- Payments.MakeIntent: the id and the client secret read the clock twice. The
  model uses one reading.
- Payments.HandleWebhook: the metadata order and user ids are integers. Their
  string forms are not modelled.
- Carts.AddItemToCart: string quantities in the request body are not
  modelled. An explicit JSON `null` quantity is read as absent, that is as
  1. The application instead adds `null` to an existing row, which keeps its
  quantity, and creates a new row with `Math.min(null, stock)`, which is 0.
- Payments.RefundPayment: an explicit JSON `null` reason is read as absent,
  so the stored refund reason is kept. The application writes NULL over it.
- Catalogue.BuildWhereClause: ILIKE matching itself and the database's row
  order are not evaluated. Price bounds stay text, and `parseFloat` is left
  to the database.
- Catalogue.DeleteProduct: the referential actions on reviews, cart rows and
  order items are not modelled.
- Catalogue.UpdateProduct: a patch cannot change the id or set a column to
  null. For an id with no row, a patch with an over-wide value is answered
  404. Whether the database refuses the statement before it matches rows
  depends on how the library binds the values, and that is not modelled.
- Integer widths: stock is checked against the 32-bit INTEGER range on
  create and update. Cart and order-line quantities and the ids are unbounded
  integers, so a quantity outside that range is not refused.
- OrderLedger.PlaceOrder: a body whose `paymentMethod` is an explicit JSON
  `null` is treated like one without the field (cash on delivery). The
  application stores such an order with a null payment method; the model's
  order always holds one of the three methods.
- Accounts.RegisterUser: the email format check (`isEmail`) is a parameter.
  The name width is 100 and the email width is 255.
- Cache: the JSON stringify/parse round trip is not modelled. Values are
  stored strings. The Redis branch is not modelled.
- Cache.SearchKey: the key builder takes the query's UTF-8 bytes. The
  encoding of a JavaScript string to UTF-8 is not modelled.
- Text.AsciiUpper: `toUpperCase` is modelled for ASCII letters only.
  Non-ASCII case mapping is not modelled.
- SearchHelpers.NumberOr: `parseInt` results too large for an exact double
  are not modelled.
- Admin.ExportOrdersToCsv: `createdAt` is passed as its rendered text. The
  total is printed as the database's DECIMAL(10,2) text.
- Uploads.ExtName: trailing `/` characters are not stripped as `path.extname`
  does. `maxSizeMB` is an integer.
- Uploads: the multer single/multiple wrappers and `deleteFile` are not
  modelled (filesystem I/O).
- Uploads.StoredName: the clock and the random number are parameters.
- ProductsPage.FetchUrl: percent-encoding is a parameter. Its round trip is
  not modelled.
- CartPage.AfterPlaceOrder: the HTTP calls of online payment processing and
  the redirect timer are not modelled.
- CartPage.CheckForm: product ids are integers, so `parseInt` is the
  identity.
