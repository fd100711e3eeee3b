# ElectroShop core, modelled in Dafny

ElectroShop is an electronics web shop: an Express/Prisma back end and a React
front end. This project models the rules the shop's controllers, client stores
and pages apply. It is written as Dafny modules, and the properties the code
promises are proved about that model.

- **Order placement** (`Orders`). `createOrder` checks every requested line
  against the stored product and snapshots it at the effective price
  (`salePrice || price`). It prices the order: 10% tax, and $10.00 shipping
  unless the items cost strictly more than $100.00. It then inserts the order
  under an `ORD-<millis>-<3 digits>` number, decrements stock line by line and
  deletes the buyer's cart. Orders are read behind an owner-or-admin guard.
  Administrators overwrite the status with one of five values.
- **The cart table** (`Cart`). There is one line per (user, product). Through
  the controller the cart is added to (incrementing an existing line, checked
  against stock), updated, shrunk by one line, cleared and listed with its
  subtotal and item count. The browser store (`ClientCart`) keeps the last
  fetched list and recomputes the same totals.
- **The comparison list** (`ClientCompare`): at most three products with
  distinct ids.
- **Reviews** (`Reviews`). A user may review a product if it exists, the user
  has not reviewed it before, and it was bought in a delivered order. The
  model also covers the rating histogram, the rounded mean, and the
  owner-or-admin delete.
- **Products** (`Products`). This covers the required-field check of
  `createProduct`, the images and specifications it builds, the partial
  update, the three-id limit of `compareProducts`, and the average rating.
  Categories and brands (`Taxonomy`) share one model, because their two
  controllers are the same code.
- **Shared rules.** The URL slug (`Slug`), offset pagination (`Pagination`) and
  the partial updates of the user table (`Users`). JavaScript's `parseInt`
  (radix-less, so "0x" reads hexadecimal), `trim`, `split`, `padStart` and
  `length` (in UTF-16 code units) are modelled in `Text`, and truthiness,
  results and errors in `Common`.
- **Pages.** The password-strength meter and submit checks of the registration
  page (`Register`). The filter state, query parameters and pagination bar of
  the product listing (`ProductsPage`). The quantity selector, image fallback
  and specification grouping of the product page (`ProductDetail`).

**Conventions used throughout the model:**

- Money is integer cents; the tax is an exact rational number of cents.
- Tables that the code only reaches by primary key (products, orders) are
  maps. Tables it lists in an order (cart, reviews, users, categories,
  brands) are sequences kept in creation order, so `createdAt desc` is their
  reverse.
- A controller answer is a `Result` whose error names the message sent. A
  request on which the code would throw (a NaN id reaching Prisma, a missing
  name reaching `toLowerCase`) answers `ServerError`, the controllers'
  `catch` branch.
- Clock and random values (`Date.now()`, `Math.random()`) are parameters.
  So are the server's answer to a client store, the uploaded file names
  and the authenticated caller (`req.user` as an id and a role).

## Model

| member | source | states |
|---|---|---|
| Orders.Pad3 | backend/controllers/order.controller.js:8 | the random suffix is exactly three digits and reads back as the drawn value |
| Orders.OrderNumberRoundTrip | backend/controllers/order.controller.js:6-10 | splitting a generated order number on '-' gives back "ORD", the timestamp and the random value |
| Orders.PrimaryImage | backend/controllers/order.controller.js:37-60 | the snapshot image is the url of the first primary image; null when no image is primary or that url is empty |
| Orders.CheckLine | backend/controllers/order.controller.js:44-63 | a line passes iff its product exists with stock at least the quantity; a missing product fails naming its id; low stock fails naming the product; a passing line yields its snapshot |
| Orders.ValidateOk | backend/controllers/order.controller.js:33-64 | validation succeeds iff every line passes, and then gives one snapshot per line in request order |
| Orders.ValidateFirstError | backend/controllers/order.controller.js:33-52 | the first failing line decides the rejection |
| Orders.PlanOrder | backend/controllers/order.controller.js:25-27 | an absent or empty item list is refused with 'No order items' before any line is looked at |
| Orders.NewOrder | backend/controllers/order.controller.js:71-94 | the inserted order is PENDING, carries the snapshots and details, its number parses back to the timestamp and draw, and its totals are those of the pricing rule on Σ price × quantity |
| Orders.ValidateItems | backend/controllers/order.controller.js:30-64 | the validation loop returns exactly the verdict of the line-by-line specification and accumulates Σ price × quantity of the snapshots |
| Orders.ApplyDecrements | backend/controllers/order.controller.js:97-106 | the decrements keep the product keys and change nothing but stock |
| Orders.StockAfterOrder | backend/controllers/order.controller.js:97-106 | each product's stock drops by exactly the total quantity the request orders of it |
| Orders.DistinctLinesKeepStockNonNegative | backend/controllers/order.controller.js:33-52 | when the lines name distinct products, a validated order leaves every non-negative stock non-negative |
| Orders.DuplicateLinesOversell | backend/controllers/order.controller.js:48-52 | two lines of one product are each checked against the undecremented stock, so stock 3 accepts 2 + 2 and ends at -1 |
| Orders.PlacementExample | backend/controllers/order.controller.js:54-68 | a sale price wins over the list price, and exactly $100.00 of items pays $10.00 shipping |
| Orders.DecrementStock | backend/controllers/order.controller.js:97-106 | the second loop leaves the products as the decrement specification says |
| Orders.InsertOrder | backend/controllers/order.controller.js:71-94 | the order is stored under the next id, which then advances |
| Orders.PlaceOrder | backend/controllers/order.controller.js:71-111 | the writes insert the order, decrement stock and remove exactly the buyer's cart lines; reviews and counters stay |
| Orders.CreateOrder | backend/controllers/order.controller.js:15-121 | a rejected request writes nothing; an accepted one inserts the planned order, applies the decrements and clears exactly that user's cart |
| Orders.GetOrderById | backend/controllers/order.controller.js:210-257 | NotFound for an absent order; the order iff the caller owns it or is ADMIN, otherwise Forbidden |
| Orders.ParseStatusAccepts | backend/controllers/order.controller.js:267-271 | exactly the five status names are accepted |
| Orders.StatusRoundTrip | backend/controllers/order.controller.js:267-271 | every status is accepted under its own name |
| Orders.UpdateOrderStatus | backend/controllers/order.controller.js:262-304 | non-admins are refused; an invalid status is refused before any lookup; then NotFound; a known order under a valid status from an admin always succeeds, and then only that order's status changes, to any value from any value |
| Pricing.EffectivePrice | backend/controllers/order.controller.js:54 | a truthy sale price is charged, otherwise the list price |
| Pricing.ComputeTotals | backend/controllers/order.controller.js:66-68 | tax is a tenth of the items; shipping is free iff the items exceed $100.00, else $10.00; the total is their sum |
| Pricing.TotalIsItemsPlusTaxPlusShipping | backend/controllers/order.controller.js:66-68 | the total is 110% of the items plus the fee unless waived |
| Pricing.ThresholdPaysShipping | backend/controllers/order.controller.js:67 | $100.00 of items is not above the threshold and pays $10.00 |
| Pricing.TotalNotMonotone | backend/controllers/order.controller.js:67 | one more cent of items can lower the total, because the fee is waived |
| Cart.GetCart | backend/controllers/cart.controller.js:8-44 | the user's lines newest first, each with its current product; subtotal Σ effective price × quantity and item count Σ quantity; zeros for an empty cart |
| Cart.SubtotalReverse | backend/controllers/cart.controller.js:27-37 | the totals do not depend on the order of the lines |
| Cart.SubtotalNonNegative | backend/controllers/cart.controller.js:27-30 | non-negative prices and quantities give non-negative totals |
| Cart.AddLineEffect | backend/controllers/cart.controller.js:49-134 | a successful add makes the line's quantity the old one plus the added one (the added one alone for a new line), changes no other line and keeps one line per (user, product) |
| Cart.AddToCartExample | backend/controllers/cart.controller.js:62-86 | adds of 2 and 3 with stock 10 give one line of 5, and a further 6 is refused leaving it at 5 |
| Cart.SetLineEffect | backend/controllers/cart.controller.js:162-164 | a successful update overwrites exactly that line's quantity and keeps every other line |
| Cart.RemoveLineEffect | backend/controllers/cart.controller.js:204-210 | a removal deletes exactly that (user, product) line and keeps the others |
| Cart.ClearCartEffect | backend/controllers/cart.controller.js:227-229 | clearing leaves that user no lines and every other user's lines exactly as they were |
| Cart.AddToCart | backend/controllers/cart.controller.js:49-134 | NotFound for an unknown product; InsufficientStock against the requested or the combined quantity, with the cart unchanged; otherwise the cart is the incremented or extended table and the answer is the line |
| Cart.UpdateCartItem | backend/controllers/cart.controller.js:139-186 | NotFound without a line; InsufficientStock below the new quantity; otherwise the line's quantity is overwritten |
| Cart.RemoveFromCart | backend/controllers/cart.controller.js:191-220 | NotFound without a line; otherwise that line is deleted |
| Cart.ClearCart | backend/controllers/cart.controller.js:225-239 | every line of the user goes, even if there were none, and nothing else changes |
| ClientCart.CartStore.constructor | frontend/src/store/cartStore.js:8-9 | on a first visit, with nothing saved, the store starts with no items and not loading |
| ClientCart.CartStore.Restore | frontend/src/store/cartStore.js:5-6 | on a reload the store starts from the saved items and loading flag, whatever they were |
| ClientCart.CartStore.FetchCart | frontend/src/store/cartStore.js:11-20 | a successful fetch replaces the items; a failed one keeps them; loading ends false either way |
| ClientCart.CartStore.ClearCart | frontend/src/store/cartStore.js:50-57 | the items are emptied only after the server delete succeeds; on failure they stay and the error is passed on |
| ClientCart.CartStore.GetTotal | frontend/src/store/cartStore.js:59-65 | Σ effective price × quantity over the items, 0 for none |
| ClientCart.CartStore.GetItemCount | frontend/src/store/cartStore.js:67-70 | Σ quantity over the items, 0 for none |
| ClientCart.StoreAgreesWithServer | frontend/src/store/cartStore.js:59-70 | after fetching, the store shows the server's subtotal and item count |
| ClientCart.TotalOrderIndependent | frontend/src/store/cartStore.js:59-70 | the store's totals do not depend on the order of the items |
| ClientCompare.WithoutId | frontend/src/store/compareStore.js:23-27 | the filter keeps exactly the products with another id |
| ClientCompare.WithoutIdConcat | frontend/src/store/compareStore.js:23-27 | filtering keeps the remaining products in their relative order |
| ClientCompare.WithoutAbsentId | frontend/src/store/compareStore.js:23-27 | removing an id that is not listed changes nothing |
| ClientCompare.WithoutIdUnique | frontend/src/store/compareStore.js:23-27 | removal keeps ids unique |
| ClientCompare.CompareStore.constructor | frontend/src/store/compareStore.js:7 | on a first visit, with nothing saved, the list starts empty |
| ClientCompare.CompareStore.Restore | frontend/src/store/compareStore.js:4-5 | on a reload the list starts as saved, and a list these methods saved keeps the at-most-three, distinct-ids invariant |
| ClientCompare.CompareStore.AddToCompare | frontend/src/store/compareStore.js:9-21 | with three products listed the add is refused; an id already listed is refused; both leave the list as it was; otherwise the product is appended; at most three distinct ids always |
| ClientCompare.CompareStore.RemoveFromCompare | frontend/src/store/compareStore.js:23-27 | the list becomes the filtered one and no longer holds the id |
| ClientCompare.CompareStore.ClearCompare | frontend/src/store/compareStore.js:29-31 | the list is emptied |
| Reviews.ReviewVerdict | backend/controllers/review.controller.js:8-50 | a review is accepted iff the request passes the validator, the product exists, the user has not reviewed it and bought it in a DELIVERED order; the first failing check names the error |
| Reviews.CreateReview | backend/controllers/review.controller.js:52-68 | an accepted review is appended under the next id with the trimmed comment; a refused one writes nothing |
| Reviews.OneReviewPerUserAndProduct | backend/controllers/review.controller.js:22-33 | a user who reviewed a product is always refused a second review of it |
| Reviews.DistributionSumsToTotal | backend/controllers/review.controller.js:101-113 | with ratings in 1..5, the five histogram counts add up to the number of reviews |
| Reviews.AverageRatingBounds | backend/controllers/review.controller.js:114 | the mean of in-range ratings lies in [1, 5], and it is 0 without reviews |
| Reviews.Round1 | backend/controllers/review.controller.js:121 | the displayed mean is a multiple of 0.1 within half a step of the exact mean |
| Reviews.Round1Bounds | backend/controllers/review.controller.js:121 | rounding keeps a mean in [1, 5] inside [1, 5] |
| Reviews.ProductReviews | backend/controllers/review.controller.js:87-98 | exactly the reviews of the product |
| Reviews.Distribution | backend/controllers/review.controller.js:101-111 | the forEach leaves the histogram over keys 1..5 counting each rating |
| Reviews.GetProductReviews | backend/controllers/review.controller.js:83-129 | the product's reviews newest first with their count, rounded mean and histogram |
| Reviews.StatsConsistent | backend/controllers/review.controller.js:101-123 | the published histogram adds up to the total, and a non-empty rounded mean lies in [1, 5] |
| Common.FindKey | backend/controllers/review.controller.js:138-144 | the lookup by primary key the review, user, category and brand controllers share: a position whose row has the key, or none iff no row has it |
| Reviews.DeleteReview | backend/controllers/review.controller.js:134-163 | NotFound for an absent review; deleted iff the caller wrote it or is ADMIN, otherwise Forbidden; exactly that review goes |
| Slug.SlugShape | backend/controllers/product.controller.js:208-211 | a slug uses only [a-z0-9-], never two '-' in a row, and neither starts nor ends with '-' |
| Slug.SlugOfSlug | backend/controllers/product.controller.js:208-211 | a string already of slug shape is its own slug |
| Slug.SlugIdempotent | backend/controllers/product.controller.js:208-211 | slugging a slug changes nothing |
| Slug.SlugOfPunctuation | backend/controllers/product.controller.js:208-211 | a name with no ASCII letter or digit gives the empty slug |
| Slug.DashifyShape | backend/controllers/product.controller.js:210 | replacing runs of characters outside [a-z0-9] leaves only [a-z0-9-] with no two '-' in a row; the result is empty exactly when the input is, and a leading slug character is kept |
| Pagination.PageCount | backend/controllers/product.controller.js:117 | no page count (JSON null) for limit 0, otherwise a count whose sign follows the limit |
| Pagination.PageCountIsCeiling | backend/controllers/product.controller.js:117 | the count is the ceiling of total / limit |
| Pagination.Paginate | backend/controllers/product.controller.js:16-26 | query defaults apply only to absent parameters; NaN or negative skip or take fails; otherwise the rows from (page − 1) × limit on, at most limit of them, with the pagination block |
| Pagination.DefaultsServeFirstPage | backend/controllers/product.controller.js:18-19 | with no parameters the first page of the default size is served |
| Pagination.PageNonEmptyIff | backend/controllers/product.controller.js:113-118 | page p holds rows iff p ≤ pages |
| Pagination.PagesCoverRows | backend/controllers/product.controller.js:87-89 | pages 1 .. pages read in turn give every row exactly once, in order |
| Users.Merge | backend/controllers/user.controller.js:116-127 | each truthy field of the request replaces the stored one and every other field, the id included, stays |
| Users.EmptyPatchKeepsUser | backend/controllers/user.controller.js:116-127 | an empty request changes nothing |
| Users.MergeIdempotent | backend/controllers/user.controller.js:116-127 | sending an update twice equals sending it once |
| Users.MergeCompose | backend/controllers/user.controller.js:116-127 | two updates act as one with the later truthy values |
| Users.WithRole | backend/controllers/user.controller.js:13 | a truthy role keeps exactly the users with that role; otherwise all |
| Users.UserTable.GetAllUsers | backend/controllers/user.controller.js:8-53 | one page of the matching users newest first, default size 20, with their total |
| Users.UserTable.GetUserById | backend/controllers/user.controller.js:58-96 | the user with that id, NotFound iff there is none |
| Users.UserTable.UpdateUser | backend/controllers/user.controller.js:102-150 | NotFound for an unknown id; otherwise that row becomes its merge with the request and the others stay |
| Users.UserTable.DeleteUser | backend/controllers/user.controller.js:155-180 | NotFound for an unknown id; otherwise the delete succeeds and exactly that user's row is removed, the others keeping their order |
| Taxonomy.SortByName | backend/controllers/category.controller.js:16 | the listing is a permutation of the rows sorted by name |
| Taxonomy.LexTotal | backend/controllers/category.controller.js:16 | any two names are ordered one way or the other |
| Taxonomy.LexTrans | backend/controllers/category.controller.js:16 | the name order is transitive |
| Taxonomy.NewLabel | backend/controllers/category.controller.js:68-96 | a created row carries the name, the text, the slug made from the name (of slug shape) and the uploaded path iff a file came; a missing name fails |
| Taxonomy.MergeLabel | backend/controllers/category.controller.js:114-123 | truthy name and text replace the stored ones, an upload replaces the picture, the id and slug stay |
| Taxonomy.EmptyUpdateKeepsLabel | backend/controllers/brand.controller.js:116-123 | an update with no truthy field and no file leaves the row as it was |
| Taxonomy.RenameKeepsSlug | backend/controllers/category.controller.js:119-121 | a renamed row keeps the slug of its original name |
| Taxonomy.LabelTable.List | backend/controllers/category.controller.js:8-27 | every row, sorted by name |
| Taxonomy.LabelTable.GetById | backend/controllers/category.controller.js:32-63 | the row with that id, NotFound iff there is none |
| Taxonomy.LabelTable.Create | backend/controllers/category.controller.js:68-96 | a created row is appended under the next id; a refused one writes nothing |
| Taxonomy.LabelTable.Update | backend/controllers/category.controller.js:101-133 | NotFound for an unknown id; otherwise that row becomes its merge and the others stay |
| Taxonomy.LabelTable.Delete | backend/controllers/category.controller.js:138-162 | NotFound for an unknown id; otherwise exactly that row goes |
| Products.SalePriceOf | backend/controllers/product.controller.js:246 | a falsy sale price is stored as null, a truthy one as its parsed value |
| Products.IntColumn | backend/controllers/product.controller.js:247-250 | an integer column takes the parseInt value and NaN fails |
| Products.ImagesFor | backend/controllers/product.controller.js:217-221 | one image per upload, in order, with the product's name as alt, and only the first primary |
| Products.ImagesForPrimary | backend/controllers/product.controller.js:217-221 | the image orders show for a new product is its first upload |
| Products.AppendedImagesKeepPrimary | backend/controllers/product.controller.js:308-319 | images added by an update do not change the image orders show when one was already primary |
| Products.BuiltSpecsInFixedOrder | backend/controllers/product.controller.js:232-237 | the built specs follow the order RAM, Storage, Processor, Graphics Card, Screen Size, and hold a key iff its field is non-empty, with that field's value |
| Products.BuildSpecs | backend/controllers/product.controller.js:224-238 | the successive pushes give exactly the built specification list |
| Products.NewProduct | backend/controllers/product.controller.js:201-251 | MissingFields when name, description, price, category or brand is falsy or stock is absent; with them present it succeeds exactly when the price has a cent value, the sale price is valid and stock, category and brand parse as integers (ServerError otherwise); a created row has with the slug of its name, the parsed numbers, the sku as sent or generated, the images and the specs |
| Products.ZeroStockAccepted | backend/controllers/product.controller.js:201 | a stock of "0" passes the required-field check and is stored as 0 |
| Products.CreateProduct | backend/controllers/product.controller.js:180-279 | a created product is stored under the next id; a refused one writes nothing |
| Products.Staged | backend/controllers/product.controller.js:308-339 | uploads append images; a specifications field replaces the specs; nothing else changes |
| Products.MergeProduct | backend/controllers/product.controller.js:341-352 | only supplied fields change: truthy text fields, a supplied stock, sale price (falsy becomes null) and featured flag; a NaN price fails |
| Products.EmptyUpdateKeepsProduct | backend/controllers/product.controller.js:341-352 | an update with no fields and no files leaves the product as it was |
| Products.MergeIdempotent | backend/controllers/product.controller.js:341-352 | sending the same update twice equals sending it once |
| Products.UpdateProduct | backend/controllers/product.controller.js:284-369 | NotFound for an unknown id; otherwise the stored product becomes the staged and merged one |
| Products.CompareProducts | backend/controllers/product.controller.js:403-456 | a missing ids parameter is refused, more than three ids are refused; otherwise the query fails with ServerError exactly when an entry is not a number, and the answer is the ids that name a product, at most three |
| Products.FoundIds | backend/controllers/product.controller.js:417-420 | exactly the listed ids that name a product |
| Products.ProductRating | backend/controllers/product.controller.js:436-446 | the review count, and the mean of that product's ratings rounded to 0.1, which is 0 without reviews and in [1, 5] with them |
| Register.Strength | frontend/src/pages/Register.jsx:16-27 | the strength is 25 per satisfied criterion, 0 for an empty password, and one of 0, 25, 50, 75, 100 |
| Register.ScoreValues | frontend/src/pages/Register.jsx:16-27 | the score takes only the five values and is 0 for the empty password |
| Register.ScoreMonotone | frontend/src/pages/Register.jsx:18-22 | satisfying more criteria never lowers the score and a strictly larger set raises it |
| Register.TypingNeverWeakens | frontend/src/pages/Register.jsx:18-22 | typing one more character never lowers the score |
| Register.Label | frontend/src/pages/Register.jsx:63-67 | Weak below 50, Medium from 50 below 75, Strong from 75 |
| Register.BarColour | frontend/src/pages/Register.jsx:57-61 | the bar's colour follows the label's thresholds |
| Register.TextColourDisagrees | frontend/src/pages/Register.jsx:193 | as written, 50 shows Medium in red and 75 shows Strong in yellow |
| Register.TextColour | frontend/src/pages/Register.jsx:193 | the corrected text colour equals the bar's colour |
| Register.TextColourFixAt | frontend/src/pages/Register.jsx:193 | over the reachable scores, the correction changes the colour exactly at 50 and 75 |
| Register.CheckSubmit | frontend/src/pages/Register.jsx:29-42 | a password under six UTF-16 code units is refused first, then a trimmed name under two; otherwise the form is submitted |
| Register.AstralPasswordLength | frontend/src/pages/Register.jsx:19 | three emoji outside the Basic Multilingual Plane are six code units, so they meet the score's length criterion |
| Register.AstralPasswordAccepted | frontend/src/pages/Register.jsx:33 | the same three-emoji password passes the submit-time length check |
| Register.AcceptedPasswordScores | frontend/src/pages/Register.jsx:33-36 | a password accepted at submit already scores at least 25 |
| ProductsPage.SlotFor | frontend/src/pages/Products.jsx:401-429 | page p is a button iff it is first, last or within one of the current page; otherwise an ellipsis iff it is two away; otherwise nothing |
| ProductsPage.Window | frontend/src/pages/Products.jsx:401-402 | one slot per page 1 .. pages |
| ProductsPage.PaginationBar | frontend/src/pages/Products.jsx:391-433 | the bar exists iff there is more than one page; Prev is disabled on page 1 and Next on the last page |
| ProductsPage.WindowButtons | frontend/src/pages/Products.jsx:404-408 | the first and last pages are buttons, and at most five pages are |
| ProductsPage.SlotKinds | frontend/src/pages/Products.jsx:404-428 | each page's slot kind within the bar |
| ProductsPage.NonEmpty | frontend/src/pages/Products.jsx:77-79 | exactly the entries with a non-empty value, in order |
| ProductsPage.BuildParams | frontend/src/pages/Products.jsx:76-79 | the forEach copies exactly the non-empty filter entries |
| ProductsPage.ParamsExact | frontend/src/pages/Products.jsx:75-80 | the query names a filter iff it is set, and only with its value |
| ProductsPage.ProductsPage.constructor | frontend/src/pages/Products.jsx:19-28 | with an empty URL the page starts at the default filters |
| ProductsPage.ProductsPage.HandleFilterChange | frontend/src/pages/Products.jsx:71-73 | the chosen filter takes the value and the page resets to '1' |
| ProductsPage.FilterChangeResetsPage | frontend/src/pages/Products.jsx:71-73 | after a change the page is '1', the changed filter holds its value and no other filter moves |
| ProductsPage.ProductsPage.ApplyFilters | frontend/src/pages/Products.jsx:75-82 | the URL takes exactly the non-empty filters and the panel closes |
| ProductsPage.ProductsPage.ClearFilters | frontend/src/pages/Products.jsx:84-96 | defaults restored (empty filters, createdAt, desc, page '1') and the URL emptied |
| ProductsPage.ProductsPage.HandlePageChange | frontend/src/pages/Products.jsx:98-107 | the page filter takes the number and the URL takes the non-empty filters of the new state |
| ProductsPage.ProductsPage.RemoveChipAsWritten | frontend/src/pages/Products.jsx:266 | the chip clears the filter, but the URL is built from the filters before the click |
| ProductsPage.RemoveChipAsWrittenKeepsFilter | frontend/src/pages/Products.jsx:266 | as written, a removed search stays in the URL |
| ProductsPage.ProductsPage.RemoveChip | frontend/src/pages/Products.jsx:266 | the corrected chip builds the URL from the cleared filters |
| ProductsPage.RemoveChipDropsFilter | frontend/src/pages/Products.jsx:274 | corrected, the removed filter is gone from the URL and every other non-empty filter stays |
| ProductDetail.TypedQuantity | frontend/src/pages/ProductDetail.jsx:225 | a typed quantity is at least 1, at most the stock when there is stock, kept when in range, and 1 for NaN or 0 |
| ProductDetail.Decrement | frontend/src/pages/ProductDetail.jsx:215 | minus lowers the quantity by one but never below 1 |
| ProductDetail.Increment | frontend/src/pages/ProductDetail.jsx:229 | plus raises the quantity by one but never above the stock |
| ProductDetail.ButtonsStayInRange | frontend/src/pages/ProductDetail.jsx:215-229 | starting in [1, stock] both buttons stay in [1, stock] |
| ProductDetail.ButtonsInverse | frontend/src/pages/ProductDetail.jsx:215-229 | away from the bounds plus and minus undo each other |
| ProductDetail.TypedQuantityFixed | frontend/src/pages/ProductDetail.jsx:224-225 | typing back the shown in-range quantity keeps it |
| ProductDetail.DisplayImages | frontend/src/pages/ProductDetail.jsx:104 | the product's images, or one placeholder image named after the product when it has none |
| ProductDetail.ControlsAgree | frontend/src/pages/ProductDetail.jsx:210-242 | with non-negative stock the selector shows iff add-to-cart is enabled |
| ProductDetail.InGroupMembers | frontend/src/pages/ProductDetail.jsx:110-112 | a group holds exactly the specs naming it, 'General' for none |
| ProductDetail.GroupNamesMembers | frontend/src/pages/ProductDetail.jsx:109-114 | the headings are exactly the groups the specs name |
| ProductDetail.GroupNamesDistinct | frontend/src/pages/ProductDetail.jsx:111 | each heading appears once |
| ProductDetail.Grouped | frontend/src/pages/ProductDetail.jsx:109-114 | the object the reduce builds when it does not throw: one entry per heading, in order of first appearance, with its specs |
| ProductDetail.GroupedStepNew | frontend/src/pages/ProductDetail.jsx:111-112 | a spec of a new group appends a new heading holding only it |
| ProductDetail.GroupedStepKnown | frontend/src/pages/ProductDetail.jsx:112 | a spec of a known group goes at the end of that group and nothing else changes |
| ProductDetail.GroupSpecs | frontend/src/pages/ProductDetail.jsx:109-114 | the reduce throws iff some spec names a group `{}` inherits from `Object.prototype` ("constructor", "toString", "__proto__", ...); otherwise it builds exactly the grouping |
| ProductDetail.EachSpecInOneGroup | frontend/src/pages/ProductDetail.jsx:109-114 | every spec is in exactly one group, its own; headings are distinct; no group is empty |
| ProductDetail.InGroupAppend | frontend/src/pages/ProductDetail.jsx:112 | within a group the specs keep their input order |
| Text.ParseInt | backend/controllers/order.controller.js:215 | a string of digits parses to its value |
| Text.ParseIntReading | backend/controllers/order.controller.js:215 | every input is read as white space, a sign, then a hex-prefixed or decimal magnitude; NaN when the magnitude has no digit |
| Text.ParseIntSplit | backend/controllers/order.controller.js:215 | after JavaScript white space and one optional sign, the magnitude decides: NaN stays NaN, a minus sign negates |
| Text.ParseIntDecimal | backend/controllers/order.controller.js:274 | without a hex prefix the longest run of digits is the value, signed, and whatever follows it is ignored |
| Text.ParseIntHex | backend/controllers/order.controller.js:282 | with no radix, "0x" or "0X" reads the longest run of hexadecimal digits, signed; no hex digit after the prefix is NaN |
| Text.ParseIntNaN | backend/controllers/category.controller.js:37 | no digit after the white space and sign is NaN |
| Text.ParseIntHexExample | backend/controllers/order.controller.js:215 | "0x1A" reads as 26 |
| Text.ParseIntBarePrefixExample | backend/controllers/order.controller.js:215 | "0x" alone is NaN |
| Text.ParseIntTrailingExample | backend/controllers/product.controller.js:26 | "12abc" reads as 12 |
| Text.ParseIntNaNExample | backend/controllers/product.controller.js:89 | "abc" is NaN |
| Text.ParseIntSignExample | backend/controllers/brand.controller.js:37 | " -7" reads as -7 |
| Text.JsLength | frontend/src/pages/Register.jsx:33 | `length` counts UTF-16 code units: between one and two per character |
| Text.JsLengthBmp | frontend/src/pages/Register.jsx:33 | inside the Basic Multilingual Plane `length` is the number of characters |
| Text.Trim | frontend/src/pages/Register.jsx:39 | the trimmed name is the infix left after dropping the leading and trailing white space: everything outside it is white space and it neither starts nor ends with white space; a name without white space is kept |
| Text.SplitCount | backend/controllers/product.controller.js:411 | splitting on ',' gives one more piece than there are commas |
| Text.PadStart | backend/controllers/order.controller.js:8 | padStart leaves a long enough string as it is, and otherwise fills the front up to the width |

## Left out

- Prisma, Express and HTTP are not modelled: request parsing, status codes, JSON bodies, and the `include`/`select` joins that attach categories, brands and images to answers.
- Concurrency and atomicity are not modelled. `createOrder` writes the order, each stock decrement and the cart clear without a transaction. The model runs them in sequence and proves only that a rejected request writes nothing.
- Foreign-key and unique constraints of the database are not modelled, apart from the cart's (user, product) uniqueness and the unique row ids, which the table invariants keep. So are the role enum check on user updates and the 1..5 check on stored ratings, which the invariant assumes.
- Floating point is not modelled: prices are exact cents and means exact rationals. `parseFloat` is an input, `Amount.cents`, to the create and update forms. `toFixed(2)` on a whole-cent subtotal is the identity. `toFixed(1)` of a rating is `Reviews.Round1`, rounding halves up.
- `JSON.parse` of a string `specifications` field is not modelled; the form carries the parsed list. A JSON boolean `featured` (rather than the text "true") is not modelled.
- `toLowerCase` is ASCII-only. A Dafny string is a sequence of Unicode scalar values, so a character outside the Basic Multilingual Plane counts once in `|s|`, where JavaScript's `length` counts two code units. `Text.JsLength` counts code units, and the only length checks of the core (`Register.Criteria` and `Register.CheckSubmit`) use it.
- Taxonomy.LexLe: the database's name collation is taken as code-point order. This is not JavaScript's code-unit order, nor any locale-aware collation.
- Pricing.EffectivePrice: `salePrice || price` is taken on numbers. If Prisma hands back Decimal objects, a zero sale price would be truthy; the model follows the number reading.
- Pagination.Paginate: a negative `take` is answered with a server error; the exact behaviour of Prisma for a negative take is not modelled.
- Products: the filters and sort options of `getProducts`, `getFeaturedProducts`, the joins of `getProductById` and `deleteProduct` are not modelled. Only the pagination arithmetic and the rating of a product are.
- Orders: `getOrders` and `getUserOrders` are listings with joins and are not modelled.
- Cart.AddToCart: the controller does not check that a quantity is at least 1, and neither does the model; zero or negative quantities pass as the code lets them.
- Cart: `productId` and `quantity` arrive already parsed as integers; a NaN id from the request is not modelled for the cart.
- ClientCart: the store's `addToCart`, `updateQuantity` and `removeItem` only forward to the server and re-fetch; they are not modelled separately (their effect is `FetchCart` after the controller method).
- Ids are unbounded integers. Prisma's `Int` columns hold 32 bits, so a parsed id beyond 2^31-1 makes the query throw (a 500 answer) where the model answers NotFound.
- Orders.UpdateOrderStatus: it checks the status before looking the order up, as the code does, so an invalid status on an absent order answers 'Invalid status'.
- ProductDetail.GroupSpecs: the model keeps the headings in order of first appearance. A JavaScript object lists integer-like group names first, in numeric order; that reordering is not modelled. The TypeError for an inherited group name is modelled as `None`; what React then renders (an error boundary or a blank page) is not.
- ProductDetail.ControlsAgree: with a negative stock the selector is hidden while add-to-cart stays enabled; the model has both predicates, and the lemma assumes a stock that is not negative.
- ProductDetail: the quantity state is not re-clamped when the product reloads with a lower stock; star rendering, the "Save $" float display and the image thumbnails are not modelled.
- ProductsPage.ProductsPage.constructor: the initial filters are read from the URL; the model starts from an empty URL.
- ProductsPage.ProductsPage.RemoveChipAsWritten: the price chip (Products.jsx line 290) clears two filters, `minPrice` and `maxPrice`, before applying. The model's chip clears one key, so the price chip has the same stale-state effect but is not modelled as one method.
- Authentication middleware, token storage and the rendering-only pages and components are not modelled; the caller is an (id, role) value.
- The route-level `admin` guard is modelled only for `Orders.UpdateOrderStatus` (order.routes.js line 17). The other admin-only routes are open to any caller in the model: the user routes (`Users.UserTable`) and the catalogue writes (`Taxonomy.LabelTable`'s create, update and delete, `Products.CreateProduct` and `Products.UpdateProduct`). The owner-or-admin checks inside `Orders.GetOrderById` and `Reviews.DeleteReview` are the controllers' own code and are modelled.
- ClientCart.CartStore.Restore: zustand `persist` saves the whole state in localStorage under 'cart-storage' and restores it on load. So a `loading: true` saved in the middle of a fetch comes back, as `Restore` allows. A hand-edited or malformed saved value is not modelled.
- ClientCompare.CompareStore.Restore: the list saved under 'compare-storage' is taken to be one these methods wrote, so `Restore` requires the invariant. A hand-edited saved list breaking it (more than three products, or a repeated id) is not modelled; `AddToCompare` would still refuse such a list once it has three or more products.

## Findings

| source | as written | input that shows it | evidently intended | confidence | as-written member | corrected member |
|---|---|---|---|---|---|---|
| frontend/src/pages/Register.jsx:193 | the label's text is green above 75, yellow above 50, else red | a score of 50 (label Medium) shows red; 75 (label Strong) shows yellow | the text colour uses the label's and the bar's thresholds (< 50, < 75) | not executed | Register.TextColourDisagrees | Register.TextColourFixAt |
| frontend/src/pages/Products.jsx:266 | each active-filter chip's close button calls `handleFilterChange(key, '')` and then `applyFilters()`; the state update is deferred, so `applyFilters` reads the filters from before the click (same at lines 274, 282, 290) | search "x" applied, then its chip closed: the chip disappears but the URL keeps search=x and the listing stays filtered | the URL is built from the cleared filters, so the removed filter leaves the query | not executed | ProductsPage.RemoveChipAsWrittenKeepsFilter | ProductsPage.RemoveChipDropsFilter |
