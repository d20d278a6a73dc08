# Storefront model

A Dafny model of the logic inside the omranevacurve e-commerce store: an
Express/Mongo server (order placement, product reviews and search, the
`auth`/`adminAuth` gates, the route tables, the settings and user documents)
and a React client (currency conversion, the wishlist, the product grid and
its filter panel, the admin order and product tables, the carousels, the
product page, the review forms and the checkout payload).

One module per source file, each in a file of its own:

| module | file | source |
|---|---|---|
| `Common` | common.dfy | HTTP status codes, `Option`, JavaScript truthiness of strings |
| `Seqs`, `Text` | seqs.dfy, text.dfy | the array and string built-ins the source uses (`filter`, `reduce`, stable `sort`, `limit`, `includes`, `toLowerCase`, `trim`, `split`/`join`, `replace(/\D/g, '')`) |
| `Catalog` | catalog.dfy | the product document with its embedded reviews |
| `OrderController` | ordercontroller.dfy | server/controllers/orderController.js |
| `ProductController` | productcontroller.dfy | server/controllers/productController.js |
| `Auth` | auth.dfy | server/middleware/auth.js |
| `Routes` | routes.dfy | server/routes/{product,category,order,settings,user}Routes.js |
| `Settings` | settings.dfy | server/models/Settings.js, server/routes/settingsRoutes.js |
| `Users` | users.dfy | server/models/User.js, server/routes/userRoutes.js |
| `Currency` | currency.dfy | src/utils/currency.ts |
| `Wishlist` | wishlist.dfy | src/context/WishlistContext.tsx |
| `ProductGrid` | productgrid.dfy | src/components/ProductGrid/ProductGrid.tsx |
| `FilterBar` | filterbar.dfy | src/components/ProductGrid/FilterBar.tsx |
| `AdminOrders` | adminorders.dfy | src/components/Admin/Orders.tsx |
| `AdminProducts` | adminproducts.dfy | src/components/Admin/Products.tsx |
| `AddProduct` | addproduct.dfy | src/components/Admin/AddProductModal.tsx |
| `CategorySlider` | categoryslider.dfy | src/components/Categories/CategorySlider.tsx |
| `Featured` | featured.dfy | src/components/Featured/Featured.tsx |
| `ReviewForm` | reviewform.dfy | src/components/Reviews/ReviewForm.tsx |
| `Reviews` | reviews.dfy | src/components/Reviews/Reviews.tsx |
| `ProductDetails` | productdetails.dfy | src/pages/ProductDetailsPage.tsx |
| `PaymentForm` | paymentform.dfy | src/components/Cart/PaymentForm.tsx |

The form follows the source. Mongo collections become `map`s from id to
document. A handler that loads a document, changes it and saves it becomes a
method of a class holding the collection. Each such method is specified by a
function over the old collection, and the properties are proved about that
function. React components with state become classes whose fields are the
`useState` slots, with one method per handler. Pure code (the currency
conversion, the grid filter, the order filter and sort, the CSV, the route
tables) becomes functions and lemmas. Prices and ratings are exact `real`s.
`toFixed(2)` is rounding to the nearest cent with halves away from zero.

The route tables are ordered `(method, path pattern, guard, handler)` lists.
`Routes.Dispatch` takes the first entry that fits, in declaration order, as
Express's router does (literal segments are compared exactly; see "Left out"). For each
table, a lemma shows that dispatch agrees with a reference function written
case by case. The guard lemmas then read the access matrix off the tables.

The two wishlist toggles differ: the featured carousel stores a product's
price as saved, in US dollars (`Featured.Carousel.ToggleWishlist`), while the
product page stores the converted display price
(`ProductDetails.Page.ToggleWishlist`). The model keeps both as written.

## Model

| member | source | states |
|---|---|---|
| OrderController.Validate | server/controllers/orderController.js:9-20 | The request passes exactly when items is a non-empty list, email and mobile are truthy, and street, city and zipCode are truthy; a missing or empty item list is reported as "Order must contain at least one item" |
| OrderController.ValidationOrder | server/controllers/orderController.js:9-20 | The checks run in order: with items present, a missing contact is reported before a missing address, and the address error only when the contact is complete |
| OrderController.PaymentStatusFor | server/controllers/orderController.js:66 | paymentStatus is 'pending' exactly when paymentMethod is 'cod', and 'completed' otherwise |
| OrderController.OrderNumbersDiffer | server/controllers/orderController.js:65 | `ORD${Date.now()}` gives different numbers for different instants |
| OrderController.WalkStep | server/controllers/orderController.js:26-50 | One turn of the loop: an unknown product stops with 404 naming the id, `stock < quantity` stops with 400 naming the product, otherwise price × quantity is added, the snapshot pushed and the stock lowered |
| OrderController.LinesTotalIgnoresStock | server/controllers/orderController.js:37 | The total depends only on the stored prices, not on the stock the walk changes |
| OrderController.WalkDoneTotal | server/controllers/orderController.js:23-37 | A completed walk's total is Σ stored price × quantity over the lines |
| OrderController.WalkDoneItems | server/controllers/orderController.js:39-45 | A completed walk stores one snapshot per line (product id, quantity, stored price, name, first image), in line order |
| OrderController.WalkDoneStock | server/controllers/orderController.js:26-50 | A completed walk lowers each product's stock by the sum of its lines' quantities and changes nothing else |
| OrderController.WalkDone | server/controllers/orderController.js:26-50 | The total, the snapshots and the stock of a completed walk, together |
| OrderController.WalkPrefixStep | server/controllers/orderController.js:26-50 | Walking j + 1 lines is walking j lines and then taking one more |
| OrderController.WalkStopped | server/controllers/orderController.js:29-35 | A walk that stops does so at some line j: the lines before j were all processed and saved, and line j fails against the products as they were left |
| OrderController.WalkKeepsStockNonNegative | server/controllers/orderController.js:33-48 | With non-negative stock, no walk drives a stock below 0; a line whose quantity equals its product's stock passes the check and leaves that stock at 0 |
| OrderController.PlacedOrder | server/controllers/orderController.js:53-79 | A placed order passed validation, has status 'pending', payment status 'pending' exactly for 'cod', total Σ stored price × quantity and one snapshot per line; each product's stock drops by its lines' quantities; the answer is 201 Created |
| OrderController.InvalidRequestChangesNothing | server/controllers/orderController.js:9-20 | A request that fails validation is answered 400 and reads and writes no product |
| OrderController.FailedOrderKeepsEarlierDecrements | server/controllers/orderController.js:26-85 | A failed order stores nothing yet keeps stock taken: the products are those of a completed walk over the lines before some line j, with j the number of lines when the final save fails |
| OrderController.StoppedWalkKeepsEarlierDecrements | server/controllers/orderController.js:26-50 | A loop stopped by line j leaves each product with exactly the stock the lines before j asked of it taken off |
| OrderController.WalkStopsWithClientError | server/controllers/orderController.js:29-35 | The loop stops only with a 404 (unknown product) or a 400 (short stock) |
| OrderController.FailedSaveKeepsAllDecrements | server/controllers/orderController.js:52-85 | The `catch`'s 500 "Failed to create order" comes exactly from a failed `order.save()` after every line passed; no order is stored and every line's stock stays taken |
| OrderController.PartialFailureExample | server/controllers/orderController.js:26-50 | With 5 of "a" in stock, the cart [2 × "a", 1 × "missing"] is answered 404, no order is stored and "a" keeps 3 |
| OrderController.RepeatedProductSeesReducedStock | server/controllers/orderController.js:27-35 | A product listed twice is re-read: 3 in stock and two lines of 2 fail on the second line with 1 left |
| OrderController.PlaceOrderAtomic | server/controllers/orderController.js:5-87 | Corrected createOrder: a failed order, a failed save included, leaves every product as it was; a placed one is the same as the as-written one |
| OrderController.AtomicAgreesOnResponses | server/controllers/orderController.js:5-87 | The corrected and the as-written createOrder give the same response and store the same order for every request |
| OrderController.OrderService.constructor | server/controllers/orderController.js:1-2 | The service starts with the given products and no orders |
| OrderController.OrderService.CreateOrder | server/controllers/orderController.js:5-87 | The loop, with its invariants, leaves the response, products and orders that PlaceOrder gives, including the 500 with the stock already taken when the order's save fails |
| OrderController.OrderService.CreateOrderAtomic | server/controllers/orderController.js:5-87 | The corrected loop over a copy of the products leaves what PlaceOrderAtomic gives |
| OrderController.OrderService.UpdateOrderStatus | server/controllers/orderController.js:116-134 | Only `status` changes, to any value sent; an unknown id is answered 404 and changes nothing |
| Catalog.Mean | server/controllers/productController.js:223-224 | The stored rating: 0 with no review, otherwise the mean with mean × count = sum of ratings |
| ProductController.ReviewIndex | server/controllers/productController.js:252 | `reviews.id(reviewId)` finds nothing exactly when no review has the id, and otherwise the first review with it |
| ProductController.WithReview | server/controllers/productController.js:211-224 | The pushed review is appended after the old ones, the rating is the mean over all reviews, and no other field changes |
| ProductController.WithoutReviewAt | server/controllers/productController.js:326-334 | Exactly that review is removed, the rating is the mean of the rest or 0, and no other field changes |
| ProductController.MarkedHelpful | server/controllers/productController.js:257 | The helpful count (missing counts as 0) goes up by one and no other field changes |
| ProductController.Reported | server/controllers/productController.js:280 | The review is flagged reported and no other field changes |
| ProductController.Verified | server/controllers/productController.js:303 | The review is marked verified and no other field changes |
| ProductController.ReplaceReview | server/controllers/productController.js:252-258 | A review changed in place: that position holds the new value, every other review and field is unchanged |
| ProductController.RatingSumAppend | server/controllers/productController.js:223 | The rating sum over reviews + [r] is the old sum plus r's rating |
| ProductController.AddReviewUpdatesMean | server/controllers/productController.js:220-224 | After addReview, (n + 1) × new rating = n × old rating + the new stars |
| ProductController.AddReviewExample | server/controllers/productController.js:220-224 | Three five-star reviews and a new one-star review give a rating of 4 |
| ProductController.AddThenDeleteReview | server/controllers/productController.js:326-334 | Deleting a review just added restores the product exactly, rating included |
| ProductController.DeleteRemovesExactlyThatReview | server/controllers/productController.js:321-326 | With distinct ids, after deleteReview no review has that id and every other review remains |
| ProductController.AddKeepsIdsUnique | server/controllers/productController.js:220 | Pushing a review with a fresh id keeps review ids distinct |
| ProductController.FlagsAreIdempotent | server/controllers/productController.js:280-303 | Reporting or verifying twice is the same as once |
| ProductController.HelpfulCountsEveryMark | server/controllers/productController.js:257 | Two helpful marks add two: there is no per-user check |
| ProductController.FeaturedIdsAfterInsert | server/controllers/productController.js:116 | Inserting a new product adds its id to the featured set exactly when it is featured |
| ProductController.CreateKeepsOrdersDense | server/controllers/productController.js:112-119 | Creating products one at a time keeps the featured positions 0 … count − 1, each used once |
| ProductController.NewestFirstIsTotalPreorder | server/controllers/productController.js:80 | `sort('-createdAt')` compares as a total preorder, so the stable sort is well defined |
| ProductController.RankedMatchAndAreSorted | server/controllers/productController.js:71-80 | Every ranked product matches the query; there are at most twelve, newest first |
| ProductController.RankedAreNewest | server/controllers/productController.js:71-80 | A matching product that was cut is no newer than any ranked one, and then all twelve places are full |
| ProductController.SearchSpec | server/controllers/productController.js:63-82 | An empty query gives []; otherwise the hits are the selected fields of at most twelve matching products, taken newest first, and none of the matching products left out is newer than one shown |
| ProductController.SearchFindsByName | server/controllers/productController.js:71-80 | A product whose name contains the query in any letter case is found when fewer than twelve products match |
| ProductController.AllReviewsSpec | server/controllers/productController.js:4-24 | Every review of every product is listed once, tagged with its product, and nothing else is |
| ProductController.ProductStore.constructor | server/controllers/productController.js:1 | The store holds the given collection |
| ProductController.ProductStore.CreateProduct | server/controllers/productController.js:112-120 | The new document gets `order` = the featured count when featured, 0 otherwise, and is stored under the new id |
| ProductController.ProductStore.AddReview | server/controllers/productController.js:202-237 | 404 for an unknown product; otherwise the review (photos default [], verified) is pushed, the rating recomputed, and 201 answered with it |
| ProductController.ProductStore.MarkReviewHelpful | server/controllers/productController.js:245-260 | 404 for an unknown product or review, with nothing changed; otherwise the helpful count goes up by one |
| ProductController.ProductStore.ReportReview | server/controllers/productController.js:268-283 | 404s as above; otherwise the review is flagged reported |
| ProductController.ProductStore.VerifyReview | server/controllers/productController.js:291-306 | 404s as above; otherwise the review is marked verified |
| ProductController.ProductStore.DeleteReview | server/controllers/productController.js:314-338 | 404s as above; otherwise the review is removed and the rating recomputed, 0 when none is left |
| Auth.BearerRoundTrip | server/middleware/auth.js:6 | Removing the first 'Bearer ' from a header built as 'Bearer ' + token gives the token back |
| Auth.DecideSpec | server/middleware/auth.js:4-27 | `auth` lets a request through exactly when a token is present, verifies and names an existing user, and then with that user; each refusal is 401 "Authentication failed: " + the reason |
| Auth.AdminDecideSpec | server/middleware/auth.js:29-45 | `adminAuth` answers 401 exactly as `auth` does, 403 to an authenticated non-admin, and lets only an admin through |
| Auth.ClientHeaderDecision | server/middleware/auth.js:6-13 | With the header the client builds, the answer depends only on the verifier's result for the token |
| Auth.Request.constructor | server/middleware/auth.js:4 | A request with its header, no user, no response and no call of `next` |
| Auth.Request.Authenticate | server/middleware/auth.js:6-26 | On success `req.user` is the found user; on failure the 401 is sent |
| Auth.Request.RunAuth | server/middleware/auth.js:4-27 | `next` is called exactly once on success, with `req.user` set, and never after a 401 |
| Auth.Request.RunAdminAuth | server/middleware/auth.js:29-45 | 401 as `auth`; 403 for a non-admin, whose user is still recorded; `next` once for an admin |
| Routes.ParamsFromSpec | server/routes/productRoutes.js:25-40 | A parameter name is bound exactly when the pattern has a parameter segment of that name, to the path segment at the last such place |
| Routes.FirstFit | server/routes/categoryRoutes.js:15-22 | The entry found fits the request and lies at or after the start |
| Routes.FirstFitSpec | server/routes/categoryRoutes.js:15-22 | The entry found is the first that fits; when none is found, none fits |
| Routes.FirstFitAt | server/routes/categoryRoutes.js:15-22 | An entry that fits, with none fitting before it, is the one found |
| Routes.FirstFitNone | server/routes/categoryRoutes.js:15-22 | When no entry from the start on fits, none is found |
| Routes.DispatchSpec | server/routes/productRoutes.js:23-40 | A request is dispatched exactly when some entry fits, and then to the handler and guard of the first entry that fits, with that entry's parameters bound from the path |
| Routes.ServeSpec | server/routes/productRoutes.js:28-40 | A handler behind `auth` runs only with the user the gate found, one behind `adminAuth` only with an admin, and a guarded route without a valid token answers 401 |
| Routes.GuardedWritesNeedUser | server/routes/productRoutes.js:28-40 | In a table whose writes are guarded, no write runs without an authenticated user; where every write needs an admin, none runs for a non-admin |
| Routes.ProductListRoute | server/routes/productRoutes.js:23 | GET / reaches getProducts, unguarded |
| Routes.ProductSearchRoute | server/routes/productRoutes.js:24-25 | GET /search reaches searchProducts, not getProduct, because it is declared first |
| Routes.ProductGetRoute | server/routes/productRoutes.js:25 | GET /:id, for any id other than "search", reaches getProduct unguarded with that id |
| Routes.ProductCreateRoute | server/routes/productRoutes.js:28 | POST / reaches createProduct behind adminAuth |
| Routes.ProductUpdateRoute | server/routes/productRoutes.js:29 | PUT /:id reaches updateProduct behind adminAuth with that id |
| Routes.ProductRelatedRoute | server/routes/productRoutes.js:30 | PUT /:id/related reaches updateRelatedProducts behind adminAuth |
| Routes.ProductReorderRoute | server/routes/productRoutes.js:31 | PUT /featured/reorder reaches reorderFeaturedProducts behind adminAuth |
| Routes.ProductDeleteRoute | server/routes/productRoutes.js:32 | DELETE /:id reaches deleteProduct behind adminAuth |
| Routes.AllReviewsRoute | server/routes/productRoutes.js:35 | GET /reviews/all reaches getAllReviews behind adminAuth |
| Routes.AddReviewRoute | server/routes/productRoutes.js:36 | POST /:id/reviews reaches addReview behind auth |
| Routes.HelpfulRoute | server/routes/productRoutes.js:37 | POST /:id/reviews/:reviewId/helpful reaches markReviewHelpful behind auth with both ids |
| Routes.ReportRoute | server/routes/productRoutes.js:38 | POST /:id/reviews/:reviewId/report reaches reportReview behind auth |
| Routes.VerifyReviewRoute | server/routes/productRoutes.js:39 | PUT /:id/reviews/:reviewId/verify reaches verifyReview behind adminAuth |
| Routes.DeleteReviewRoute | server/routes/productRoutes.js:40 | DELETE /:id/reviews/:reviewId reaches deleteReview behind adminAuth |
| Routes.ProductGuards | server/routes/productRoutes.js:23-40 | Every product write is guarded; only add review, helpful and report use `auth` alone; every open entry is a GET |
| Routes.ProductDispatch | server/routes/productRoutes.js:23-40 | The product table routes every request exactly as the case-by-case reference does |
| Routes.CategoryListRoute | server/routes/categoryRoutes.js:15 | GET / reaches getAllCategories, unguarded |
| Routes.CategoryGetRoute | server/routes/categoryRoutes.js:16 | GET /:id reaches getCategory, unguarded |
| Routes.CategoryCreateRoute | server/routes/categoryRoutes.js:19 | POST / reaches createCategory behind adminAuth |
| Routes.CategoryUpdateRoute | server/routes/categoryRoutes.js:20 | PUT /:id reaches updateCategory behind adminAuth, for every id including "reorder" |
| Routes.CategoryDeleteRoute | server/routes/categoryRoutes.js:22 | DELETE /:id reaches deleteCategory behind adminAuth |
| Routes.CategoryGuards | server/routes/categoryRoutes.js:15-22 | Category reads are open and every write needs an admin, in the declared and in the reordered table |
| Routes.CategoryDispatch | server/routes/categoryRoutes.js:15-22 | The category table routes every request exactly as the reference does |
| Routes.CategoryReorderUnreachable | server/routes/categoryRoutes.js:20-21 | PUT /reorder reaches updateCategory with id "reorder", and no request at all reaches reorderCategories |
| Routes.FixedReorderRoute | server/routes/categoryRoutes.js:21 | With /reorder declared first, PUT /reorder reaches reorderCategories |
| Routes.FixedUpdateRoute | server/routes/categoryRoutes.js:20 | With /reorder declared first, PUT /:id still reaches updateCategory for every other id |
| Routes.CategoryFixedDispatch | server/routes/categoryRoutes.js:20-21 | The reordered table sends PUT /reorder to reorderCategories and routes every other request as the declared one |
| Routes.CheckoutRoute | server/routes/orderRoutes.js:13 | POST / reaches createOrder with no guard (guest checkout) |
| Routes.MyOrdersRoute | server/routes/orderRoutes.js:16 | GET /my-orders reaches getUserOrders behind auth |
| Routes.AllOrdersRoute | server/routes/orderRoutes.js:19 | GET /all reaches getAllOrders behind adminAuth |
| Routes.OrderStatusRoute | server/routes/orderRoutes.js:20 | PUT /:id/status reaches updateOrderStatus behind adminAuth |
| Routes.OrderGuards | server/routes/orderRoutes.js:13-20 | Checkout is open, the customer's own orders need auth, the full list and status changes need an admin |
| Routes.OrderDispatch | server/routes/orderRoutes.js:13-20 | The order table routes every request exactly as the reference does |
| Routes.SettingsReadRoute | server/routes/settingsRoutes.js:8 | GET / reaches the settings reader, unguarded |
| Routes.SettingsUpdateRoute | server/routes/settingsRoutes.js:21 | PUT / reaches the settings writer behind adminAuth |
| Routes.SettingsDispatch | server/routes/settingsRoutes.js:8-21 | The settings table routes every request exactly as the reference does |
| Routes.ProfileRoute | server/routes/userRoutes.js:9 | PATCH /profile reaches the profile handler behind auth |
| Routes.PasswordRoute | server/routes/userRoutes.js:48 | PATCH /password reaches the password handler behind auth |
| Routes.AccountRoute | server/routes/userRoutes.js:75 | DELETE /account reaches the account handler behind auth |
| Routes.NotificationsRoute | server/routes/userRoutes.js:91 | PATCH /notifications reaches the preferences handler behind auth |
| Routes.UserDispatch | server/routes/userRoutes.js:9-91 | The user table routes every request exactly as the reference does |
| Routes.UserRoutesNeedAuth | server/routes/userRoutes.js:9-91 | Every user route is behind auth, so its handler always has the requesting user |
| Settings.DefaultIsValid | server/models/Settings.js:4-24 | The default document meets every schema rule and its currency is USD |
| Settings.Assign | server/routes/settingsRoutes.js:29 | Every field the body names is copied onto the document; the others keep their values |
| Settings.AssignLaws | server/routes/settingsRoutes.js:29 | Assigning a body twice is assigning it once; an empty body changes nothing; a body naming every field replaces the document |
| Settings.SeedSpec | server/models/Settings.js:30-40 | Seeding leaves an existing document alone, gives an empty collection the valid default, and a second run changes nothing |
| Settings.ReadAfterSeed | server/routes/settingsRoutes.js:8-14 | After seeding, reading never answers 404 |
| Settings.UpdateSpec | server/routes/settingsRoutes.js:21-36 | 404 exactly when there is no document; 400 exactly when the assigned document breaks a rule (such as a currency outside USD/ILS/EUR), and then nothing is stored; otherwise the assigned document is stored and returned |
| Settings.UpdateKeepsValid | server/routes/settingsRoutes.js:21-36 | When every stored document is valid, an update keeps it so |
| Settings.SettingsStore.constructor | server/models/Settings.js:42 | An empty collection |
| Settings.SettingsStore.CreateDefaultSettings | server/models/Settings.js:30-40 | The collection becomes what SeedSpec describes, and stays valid |
| Settings.SettingsStore.Get | server/routes/settingsRoutes.js:8-18 | The reply is the single document, or 404 when there is none |
| Settings.SettingsStore.Put | server/routes/settingsRoutes.js:21-36 | Reply and collection are as UpdateSpec describes, and the collection stays valid |
| Users.TrimOfTrimmed | server/models/User.js:7-13 | A string with no white space at either end is its own trim |
| Users.NormalizeEmailSpec | server/models/User.js:10-17 | The setters leave no upper-case letter, and a lower-case address with no surrounding white space is stored as it is |
| Users.PreSave | server/models/User.js:58-64 | A modified password is replaced by its hash and stamps lastPasswordChange; otherwise the document is saved unchanged |
| Users.StoreKeepsInvariant | server/models/User.js:5-48 | Saving a document the schema admits, with a lower-case email, keeps emails unique and every document valid |
| Users.AdminEmailIsValid | server/models/User.js:78 | admin@example.com matches the email pattern and is lower-case |
| Users.SeedAdminSpec | server/models/User.js:72-87 | The default admin, with its password hashed, is added exactly when no admin exists and its email is free; otherwise nothing changes |
| Users.SeedAdminIdempotent | server/models/User.js:72-87 | Seeding twice is seeding once |
| Users.SeedAdminKeepsInvariant | server/models/User.js:72-87 | Seeding keeps the collection invariant |
| Users.Edited | server/routes/userRoutes.js:27-29 | Only truthy name, email and image overwrite, through the setters; every other field is untouched |
| Users.ProfileUpdateSpec | server/routes/userRoutes.js:9-45 | 404 for a missing user; a failure changes nothing; success stores `Edited(user, name, email, image)` (the trimmed name, the trimmed lower-case email and the image, where sent; password, role and preferences untouched) and answers with it; a clash found by the check answers 400 before any save |
| Users.ProfileUpdateKeepsInvariant | server/routes/userRoutes.js:18-31 | In a valid collection the check catches every clash before the save, so the unique index never fires, and a success keeps the invariant |
| Users.EditedEmailIsFree | server/routes/userRoutes.js:19-28 | The stored email is held by no other user when the raw address equals the stored one or no one else holds its normal form |
| Users.OwnEmailRetypedRejected | server/routes/userRoutes.js:19-24 | A user re-sending their own address with other letter case or surrounding spaces is answered "Email already in use" |
| Users.ProfileUpdateFixedSpec | server/routes/userRoutes.js:19-24 | With the corrected check, 400 "Email already in use" is answered exactly when another user holds the address, the user's own address retyped is accepted, and the invariant is kept |
| Users.PasswordUpdateSpec | server/routes/userRoutes.js:48-72 | A wrong current password, a missing new one or a changed one shorter than six characters changes nothing; a successful change stores the new password's hash and the time and nothing else |
| Users.PasswordUpdateKeepsInvariant | server/routes/userRoutes.js:48-72 | In a valid collection, a right current password and a new one of at least six characters always succeed, and the invariant is kept |
| Users.NewPasswordIsCurrent | server/routes/userRoutes.js:57-69 | After a change, the new password passes the next change's current-password check |
| Users.AccountDeletion | server/routes/userRoutes.js:75-88 | 404 for a missing user; otherwise exactly that user's document is removed |
| Users.MergePrefs | server/routes/userRoutes.js:100-103 | Each flag the body names is taken from the body; the others are kept |
| Users.MergePrefsLaws | server/routes/userRoutes.js:100-103 | Merging the same preferences twice is merging once; merging two in turn is merging the second over the first |
| Users.NotificationsUpdate | server/routes/userRoutes.js:91-111 | 404 for a missing user; otherwise only the preferences change, to the merge, and are returned |
| Users.UserStore.constructor | server/models/User.js:89 | An empty collection, which keeps the invariant |
| Users.UserStore.CreateDefaultAdmin | server/models/User.js:72-87 | The collection becomes what SeedAdminSpec describes, and stays valid |
| Users.UserStore.UpdateProfile | server/routes/userRoutes.js:9-45 | Reply and collection are those of the as-written profile update, and the collection stays valid |
| Users.UserStore.UpdateProfileFixed | server/routes/userRoutes.js:9-45 | Reply and collection are those of the corrected profile update, and the collection stays valid |
| Users.UserStore.UpdatePassword | server/routes/userRoutes.js:48-72 | Reply and collection are those PasswordUpdateSpec describes, and the collection stays valid |
| Users.UserStore.DeleteAccount | server/routes/userRoutes.js:75-88 | Reply and collection are those of AccountDeletion, and the collection stays valid |
| Users.UserStore.UpdateNotifications | server/routes/userRoutes.js:91-111 | Reply and collection are those of NotificationsUpdate, and the collection stays valid |
| Currency.Rate | src/utils/currency.ts:3-7 | Every rate is positive (USD 1, ILS 3.6, EUR 0.92) |
| Currency.RoundUpCents | src/utils/currency.ts:30 | Rounding a magnitude gives a non-negative whole number of cents within half a cent |
| Currency.RoundCents | src/utils/currency.ts:30 | `Number(x.toFixed(2))` is a whole number of cents within half a cent of x, and not negative for a non-negative x |
| Currency.ConvertPrice | src/utils/currency.ts:9-35 | Not a number gives 0; the same code gives the price unrounded; a code that is not one of the table's own keys gives the price; otherwise whole cents within half a cent of price / rate(from) × rate(to) |
| Currency.ConvertRoundTrip | src/utils/currency.ts:27-30 | Converting between two known currencies and back lands within 2.5 cents of the start |
| Currency.FormatPrice | src/utils/currency.ts:37-57 | '---' for what is not a number; otherwise the formatter's text, or `${amount}` (the `plain` parameter) when the formatter throws |
| Wishlist.Added | src/context/WishlistContext.tsx:32-39 | The item is appended exactly when no entry has its id; otherwise the list is unchanged, even when other fields differ |
| Wishlist.Removed | src/context/WishlistContext.tsx:41-43 | No entry has the id afterwards, and every entry left was on the list |
| Wishlist.RemovedKeepsOthers | src/context/WishlistContext.tsx:41-43 | Removal keeps every entry with another id, and the rest keep their order |
| Wishlist.RemoveAbsent | src/context/WishlistContext.tsx:41-43 | Removing an absent id changes nothing |
| Wishlist.AddThenRemove | src/context/WishlistContext.tsx:32-43 | Adding an item that was absent and removing it gives the list back |
| Wishlist.AddPreservesUnique | src/context/WishlistContext.tsx:32-39 | Adding keeps ids distinct |
| Wishlist.FilterPreservesUnique | src/context/WishlistContext.tsx:42 | Any filter of a list with distinct ids has distinct ids |
| Wishlist.RemovePreservesUnique | src/context/WishlistContext.tsx:41-43 | Removing keeps ids distinct |
| Wishlist.WishlistState.constructor | src/context/WishlistContext.tsx:21-25 | The saved list, or the empty one |
| Wishlist.WishlistState.AddToWishlist | src/context/WishlistContext.tsx:32-39 | The list becomes Added(old list, item), and distinct ids stay distinct |
| Wishlist.WishlistState.RemoveFromWishlist | src/context/WishlistContext.tsx:41-43 | The list becomes Removed(old list, id), and distinct ids stay distinct |
| Wishlist.WishlistState.IsInWishlist | src/context/WishlistContext.tsx:45-47 | True exactly when some entry has the id |
| Wishlist.WishlistState.WishlistCount | src/context/WishlistContext.tsx:56 | The number of entries |
| ProductGrid.CategoryId | src/components/ProductGrid/ProductGrid.tsx:84-89 | The id string itself, or the embedded document's `_id` |
| ProductGrid.FindCategory | src/components/ProductGrid/ProductGrid.tsx:93 | Nothing exactly when no category has the id, otherwise the first with it |
| ProductGrid.CategoryName | src/components/ProductGrid/ProductGrid.tsx:91-97 | The embedded document's name; for an id, the found category's name, or "Uncategorized" when none is found or its name is empty |
| ProductGrid.BandsCoverPrices | src/components/ProductGrid/ProductGrid.tsx:115-131 | Every price lies in exactly one band except 100 and 200, which lie in two; an unknown filter string matches no price |
| ProductGrid.FilterProductIff | src/components/ProductGrid/ProductGrid.tsx:99-137 | A product passes exactly when its category is selected (or 'all') and, when filters are chosen, some filter names one of its sizes, one of its colours or its price band (OR) |
| ProductGrid.FilteredProducts | src/components/ProductGrid/ProductGrid.tsx:139 | The result is an order-preserving subsequence of the products, all of which pass |
| ProductGrid.FilteredProductsComplete | src/components/ProductGrid/ProductGrid.tsx:139 | No product that passes is dropped |
| ProductGrid.NothingSelectedShowsAll | src/components/ProductGrid/ProductGrid.tsx:101-136 | With 'all' and no filters every product is shown, in order |
| ProductGrid.NameLeIsTotalPreorder | src/components/ProductGrid/ProductGrid.tsx:77 | The name comparison is a total preorder |
| ProductGrid.ActiveCategories | src/components/ProductGrid/ProductGrid.tsx:75-77 | The list is a permutation of the active categories |
| ProductGrid.ActiveCategoriesSpec | src/components/ProductGrid/ProductGrid.tsx:75-77 | The list holds exactly the active categories, sorted by name |
| FilterBar.PriceOptionsAreBands | src/components/ProductGrid/FilterBar.tsx:41-47 | Every price checkbox value is a band the grid's price test knows |
| FilterBar.Flip | src/components/ProductGrid/FilterBar.tsx:49-54 | The named section flips and the other three keep their values |
| FilterBar.Toggled | src/components/ProductGrid/FilterBar.tsx:189-195 | Checking appends the value; unchecking removes every occurrence and keeps the rest in order |
| FilterBar.ToggledKeepsOthers | src/components/ProductGrid/FilterBar.tsx:189-195 | Unchecking keeps every other value; checking an unselected value and unchecking it restores the list |
| FilterBar.Panel.constructor | src/components/ProductGrid/FilterBar.tsx:24-30 | Every section expanded, drawer closed, category 'all' and no filters |
| FilterBar.Panel.ToggleSection | src/components/ProductGrid/FilterBar.tsx:49-54 | Only that section flips |
| FilterBar.Panel.ClearFilters | src/components/ProductGrid/FilterBar.tsx:56-60 | Category 'all', no filters, drawer closed, and "Clear all" no longer shown |
| FilterBar.Panel.ChooseCategory | src/components/ProductGrid/FilterBar.tsx:148-167 | The category becomes the radio's id or 'all', and the drawer closes |
| FilterBar.Panel.ChangeCheckbox | src/components/ProductGrid/FilterBar.tsx:189-248 | The filters become Toggled(old filters, value, checked) |
| FilterBar.Panel.OpenDrawer | src/components/ProductGrid/FilterBar.tsx:84 | The drawer opens and nothing else changes |
| AdminOrders.DateRangeStart | src/components/Admin/Orders.tsx:161-173 | A start for 'today', 'week' and 'month'; none for 'all' or any other value |
| AdminOrders.EmptySearchMatchesAll | src/components/Admin/Orders.tsx:177-181 | An empty search text matches every order |
| AdminOrders.SortLeIsTotalPreorder | src/components/Admin/Orders.tsx:191-204 | Each sort key's comparator is a total preorder, so the stable sort is well defined |
| Seqs.SortByStable | src/components/Admin/Orders.tsx:191-204 | The sort is stable: the elements the comparator ties with any x come out in their original order |
| AdminOrders.FilteredOrders | src/components/Admin/Orders.tsx:175-204 | The table is a permutation of the orders that pass |
| AdminOrders.FilteredOrdersSpec | src/components/Admin/Orders.tsx:175-204 | An order is listed exactly when it matches the search, status, payment and date filters, as often as fetched, sorted by the chosen key; an unknown key keeps the fetched order |
| AdminOrders.DateDescNewestFirst | src/components/Admin/Orders.tsx:195-196 | With 'date-desc', newer orders come first |
| AdminOrders.ComputeStats | src/components/Admin/Orders.tsx:206-215 | total is the filtered count; the pending and delivered counters count only their status |
| AdminOrders.StatusCountsBounded | src/components/Admin/Orders.tsx:206-211 | pending + processing + shipped + delivered ≤ total, since cancelled has no counter |
| AdminOrders.RevenueInDollars | src/components/Admin/Orders.tsx:212-214 | In US dollars the revenue is the plain sum of the order totals |
| AdminOrders.RowCells | src/components/Admin/Orders.tsx:137-147 | Each order gives nine cells, as many as the header has |
| AdminOrders.TableReadsBack | src/components/Admin/Orders.tsx:148 | Rows of cells free of ',' and newline come back line by line and cell by cell from the joined text |
| AdminOrders.CsvReadsBack | src/components/Admin/Orders.tsx:134-148 | Split back, the CSV is the nine-column header and then each filtered order's cells in display order, provided no cell holds a comma or newline |
| AdminOrders.CommaInTotalSplitsRow | src/components/Admin/Orders.tsx:134-148 | As written, a total formatted as "$1,234.00" reads back as the two cells "$1" and "234.00", so the row has ten cells under nine headers |
| AdminOrders.ReadQuotedLine | src/components/Admin/Orders.tsx:148 | A line of quoted cells reads back as exactly those cells, whatever quotes or commas they hold |
| AdminOrders.CsvQuotedReadsBack | src/components/Admin/Orders.tsx:134-148 | Corrected export: with every cell quoted, the CSV reads back as the header and each order's nine cells for any cell free of newlines, commas included |
| AdminOrders.ToUsd | src/components/Admin/Orders.tsx:113-124 | One posted item per drafted item, with product and quantity kept |
| AdminOrders.ToUsdPrices | src/components/Admin/Orders.tsx:113-118 | Posted prices are whole cents within half a cent of the dollar value; in dollars they are sent as typed |
| AdminProducts.CategoryName | src/components/Admin/Products.tsx:70-76 | An embedded category gives its own name; an id not found gives "Uncategorized"; a found category gives its name, or "Uncategorized" when that name is empty |
| AdminProducts.OutgoingPriceInDollars | src/components/Admin/Products.tsx:78-85 | The price sent is the typed one in dollars, 0 for not a number, and whole cents within half a cent of the dollar value from ILS or EUR |
| AdminProducts.WithoutId | src/components/Admin/Products.tsx:97 | Exactly the products with another id remain, in order |
| AdminProducts.AddThenDelete | src/components/Admin/Products.tsx:86-97 | Deleting the product just added, with a new id, gives the table back |
| AdminProducts.ProductList.constructor | src/components/Admin/Products.tsx:30-32 | The fetched products, modal closed |
| AdminProducts.ProductList.HandleAddProduct | src/components/Admin/Products.tsx:78-92 | The form goes out with its price in dollars; the returned product is appended and the modal closed; a failed request changes neither the list nor the modal |
| AdminProducts.ProductList.HandleDeleteProduct | src/components/Admin/Products.tsx:94-102 | After a successful delete the list is WithoutId(old, id); a failure changes nothing |
| AdminProducts.FailedAddReportsSuccess | src/components/Admin/AddProductModal.tsx:164-172 | As written, a product the server refuses leaves the table unchanged, yet the modal closes and shows "Product added successfully" |
| AdminProducts.AddFlowFixed | src/components/Admin/Products.tsx:78-92 | Corrected flow: an incomplete form is reported and the modal stays open; a refused request keeps the table and the modal and shows only the failure; a success toast appears exactly when the product was stored |
| AdminProducts.ProductList.SubmitAddForm | src/components/Admin/AddProductModal.tsx:139-178 | The modal's submit as written: the form is checked, a complete one is sent with its price in dollars, and the table, modal and toasts are those of AddFlowAsWritten |
| AdminProducts.ProductList.SubmitAddFormFixed | src/components/Admin/AddProductModal.tsx:139-178 | The same submit with the failure passed back: table, modal and toasts are those of AddFlowFixed |
| AddProduct.TotalStockAppend | src/components/Admin/AddProductModal.tsx:162 | Adding a size raises the summed stock by its stock |
| AddProduct.ProductForm.constructor | src/components/Admin/AddProductModal.tsx:29-45 | No images, colours or sizes, empty drafts |
| AddProduct.ProductForm.HandleImageChange | src/components/Admin/AddProductModal.tsx:79-91 | A batch taking the count above five is refused whole; otherwise files and previews are appended; at most five, equal lengths |
| AddProduct.ProductForm.RemoveImage | src/components/Admin/AddProductModal.tsx:93-97 | The image and preview at that index go, the rest keep their order |
| AddProduct.ProductForm.AddColor | src/components/Admin/AddProductModal.tsx:99-110 | With a non-empty name and code the draft is appended and cleared; otherwise nothing changes |
| AddProduct.ProductForm.RemoveColor | src/components/Admin/AddProductModal.tsx:112-117 | The colour at that index goes, the rest keep their order |
| AddProduct.ProductForm.AddSize | src/components/Admin/AddProductModal.tsx:119-130 | With a name and a stock of at least 0 the draft is appended and reset; otherwise nothing changes |
| AddProduct.ProductForm.RemoveSize | src/components/Admin/AddProductModal.tsx:132-137 | The size at that index goes, the rest keep their order |
| AddProduct.ProductForm.Submit | src/components/Admin/AddProductModal.tsx:139-178 | No image, then no colour, then no size is reported in that order; a complete form is sent with its name, description, category, flags, colours, sizes and parsed price, the uploaded URLs in order, and the stock summed over the sizes, never negative |
| CategorySlider.ActiveByOrder | src/components/Categories/CategorySlider.tsx:32-34 | The list is a permutation of the active categories |
| CategorySlider.ActiveByOrderSpec | src/components/Categories/CategorySlider.tsx:32-34 | Exactly the active categories, ascending by order |
| CategorySlider.StepsWrapAround | src/components/Categories/CategorySlider.tsx:43-53 | On a non-empty list both steps keep the index in range and undo each other |
| CategorySlider.Slider.Mount | src/components/Categories/CategorySlider.tsx:17-35 | The sorted active categories, index 0 |
| CategorySlider.Slider.ItemsToShow | src/components/Categories/CategorySlider.tsx:22 | min(5, number of categories) |
| CategorySlider.Slider.NavigationNeedsSix | src/components/Categories/CategorySlider.tsx:74-91 | Arrows and auto-advance appear exactly when there are more than five categories |
| CategorySlider.Slider.NextSlide | src/components/Categories/CategorySlider.tsx:43-47 | The index goes up by one, wrapping to 0 at the end |
| CategorySlider.Slider.PrevSlide | src/components/Categories/CategorySlider.tsx:49-53 | The index goes down by one, wrapping to the last below 0 |
| CategorySlider.Slider.GetVisibleCategories | src/components/Categories/CategorySlider.tsx:55-67 | itemsToShow categories; item k is categories[(currentIndex + k) mod n] |
| CategorySlider.WindowPositionsDistinct | src/components/Categories/CategorySlider.tsx:55-67 | The window never shows a position twice |
| Featured.FeaturedProducts | src/components/Featured/Featured.tsx:36-38 | The list is a permutation of the featured products |
| Featured.FeaturedProductsSpec | src/components/Featured/Featured.tsx:36-38 | Exactly the featured products, ascending by order |
| Featured.CartLineOf | src/components/Featured/Featured.tsx:69-75 | The line carries the product's id, name, price and first image (none without images) |
| Featured.Carousel.Mount | src/components/Featured/Featured.tsx:33-39 | The featured list, index 0 |
| Featured.Carousel.Shown | src/components/Featured/Featured.tsx:55-67 | Nothing is shown exactly when the list is empty; otherwise `products[currentIndex]` |
| Featured.Carousel.HandleNext | src/components/Featured/Featured.tsx:51-53 | The index becomes (i + 1) mod n and stays in range |
| Featured.Carousel.HandlePrevious | src/components/Featured/Featured.tsx:47-49 | The index becomes (i − 1 + n) mod n and stays in range |
| Featured.Carousel.HandleAddToCart | src/components/Featured/Featured.tsx:69-77 | The line for the product on show |
| Featured.WishlistItemOf | src/components/Featured/Featured.tsx:85-90 | The wishlist entry carries the product's id, name, stored US-dollar price (not converted) and first image |
| Featured.Carousel.ToggleWishlist | src/components/Featured/Featured.tsx:79-93 | The product on show is removed when listed and added (WishlistItemOf) otherwise, so its membership flips |
| Featured.StepsUndoEachOther | src/components/Featured/Featured.tsx:47-53 | Both steps stay in range, and going back after going forward (or the reverse) returns to the start |
| ReviewForm.Form.constructor | src/components/Reviews/ReviewForm.tsx:10-14 | Rating 0, empty comment, no photos |
| ReviewForm.Form.SetRating | src/components/Reviews/ReviewForm.tsx:50-54 | A click sets a rating between 1 and 5 |
| ReviewForm.Form.SetComment | src/components/Reviews/ReviewForm.tsx:80 | Only the comment changes |
| ReviewForm.Form.HandlePhotoChange | src/components/Reviews/ReviewForm.tsx:16-28 | A batch taking the count above five is refused whole; otherwise photos and previews are appended; at most five, equal lengths |
| ReviewForm.Form.RemovePhoto | src/components/Reviews/ReviewForm.tsx:30-34 | The photo and preview at that index go, from both lists |
| ReviewForm.Form.Submit | src/components/Reviews/ReviewForm.tsx:36-40 | Nothing is sent while the parent is loading or the rating is 0 (the disabled button at line 141), or while the comment is empty (the `required` textarea at line 83); otherwise the rating (1 to 5), the non-empty comment and the photos |
| Reviews.AverageRating | src/components/Reviews/Reviews.tsx:35 | 0 for no reviews; otherwise mean × count = sum of ratings |
| Reviews.StarSumBounds | src/components/Reviews/Reviews.tsx:35 | With ratings in 1..5 the sum lies between n and 5n |
| Reviews.AverageWithinStars | src/components/Reviews/Reviews.tsx:35 | With ratings in 1..5 a non-empty mean lies in 1..5 |
| Reviews.RatingDistribution | src/components/Reviews/Reviews.tsx:37-40 | Counter k counts the reviews rated k, for k in 1..5 |
| Reviews.BucketsCoverReviews | src/components/Reviews/Reviews.tsx:37-40 | With whole ratings in 1..5 the five counters add up to the number of reviews |
| Reviews.Section.constructor | src/components/Reviews/Reviews.tsx:30-33 | Modal closed, not loading, no refresh yet |
| Reviews.Section.HandleSubmitReview | src/components/Reviews/Reviews.tsx:42-70 | Without a user nothing is sent; otherwise the uploads and the post; a successful post closes the modal and calls onReviewAdded once |
| Reviews.Section.HandleHelpful | src/components/Reviews/Reviews.tsx:72-84 | Sent only for a logged-in user; success refreshes |
| Reviews.Section.HandleReport | src/components/Reviews/Reviews.tsx:86-98 | Sent only for a logged-in user; nothing is refreshed |
| ProductDetails.SizeStock | src/pages/ProductDetailsPage.tsx:109 | The stock of the first size with the name, at whatever position it stands; 0 when there is none |
| ProductDetails.SizeStockFound | src/pages/ProductDetailsPage.tsx:109 | A non-zero stock belongs to some size with that name |
| ProductDetails.Page.Load | src/pages/ProductDetailsPage.tsx:55-63 | The first colour and size are preselected when the lists are non-empty, nothing otherwise |
| ProductDetails.Page.ChooseColor | src/pages/ProductDetailsPage.tsx:227 | Only the selected colour changes |
| ProductDetails.Page.ChooseSize | src/pages/ProductDetailsPage.tsx:236 | Only the selected size changes |
| ProductDetails.Page.HandleAddToCart | src/pages/ProductDetailsPage.tsx:98-124 | Refused without a size, then without a colour, then when the size's stock is 0; otherwise the line with the converted price, first image, colour and size |
| ProductDetails.Page.ToggleWishlist | src/pages/ProductDetailsPage.tsx:126-141 | The product is removed when on the list and added otherwise, so its membership flips |
| PaymentForm.Mobile | src/components/Cart/PaymentForm.tsx:55 | The country code followed by exactly the digits of the typed number: a subsequence of it, all digits, as many as it holds |
| Text.DigitsOnly | src/components/Cart/PaymentForm.tsx:55 | `replace(/\D/g, '')` keeps exactly the digits in order: a subsequence of the input, all digits, as many as the input has |
| PaymentForm.PayloadSpec | src/components/Cart/PaymentForm.tsx:37-59 | One line per cart entry, in order, with its product, quantity, price, size and colour; the address renamed with country 'US'; the client's total carried along |
| PaymentForm.PayloadValidation | src/components/Cart/PaymentForm.tsx:37-59 | The payload passes the server's checks exactly when the cart is non-empty and email, mobile, address, city and postal code are non-empty |
| PaymentForm.ClientTotalIgnored | src/components/Cart/PaymentForm.tsx:58 | Payloads differing only in the total place the same order |
| PaymentForm.ErrorMessage | src/components/Cart/PaymentForm.tsx:69 | The server's message when there is one, otherwise 'Failed to create order' |
| PaymentForm.ReplyOf | src/components/Cart/PaymentForm.tsx:62-69 | The reply is a placed order exactly when the server answered 201 Created |
| PaymentForm.RejectionsShowServerReason | src/components/Cart/PaymentForm.tsx:62-70 | Every request the server turns down is shown with the server's own reason |
| PaymentForm.Checkout.constructor | src/components/Cart/PaymentForm.tsx:25-29 | Card payment, no confirmation, the given cart |
| PaymentForm.Checkout.ChooseMethod | src/components/Cart/PaymentForm.tsx:99-111 | Only the payment method changes |
| PaymentForm.Checkout.HandleSubmit | src/components/Cart/PaymentForm.tsx:31-75 | The payload is built from cart and form; a placed order sets the number, shows the confirmation and empties the cart; a failure shows the error and keeps the cart |

## Left out

- Mongo, Express and React plumbing: connections, `populate`, the `save` round trip, timers (`setInterval` polling and auto-advance), toasts, navigation and rendering. Requests are sequential; concurrent `createOrder` calls racing on one stock are not modelled.
- Clocks (`Date.now()`, `new Date()`), fresh ids, `jwt.verify`, `bcrypt.hash`/`compare`, `URL.createObjectURL`, Cloudinary uploads, `Intl.NumberFormat` and date-fns `format` are parameters of the members that use them.
- Floating point: prices and ratings are exact reals; `toFixed(2)` is exact rounding to cents, halves away from zero. IEEE-754 artefacts are not modelled.
- Strings are sequences of characters. `toLowerCase` folds only A–Z, and `trim` and `\S` treat only ASCII white space as space.
- `localeCompare` is abstracted as a code-point order, which is a total preorder. The sort is stable, as `Array.prototype.sort` is (`Seqs.SortByStable`).
- ProductController.SearchProducts: the `$regex` search is modelled as a case-insensitive substring test, so regular-expression metacharacters in the query are taken literally. The populated `category` of each hit is not modelled, because `Catalog` keeps no category.
- Mongoose casting, null checks and validation messages are abstracted. In the user and settings handlers a failed save is the single response `Invalid` (a 400 with the validator's message). In `createOrder` a failed `order.save()` is the `saved` parameter and gives the `catch`'s 500. A lookup that throws there (a malformed id that Mongoose cannot cast, a lost connection) also lands in that 500, but the model answers such a lookup as a missing product (404). The `error.message` the 500 carries is not modelled.
- The `getUserOrders`, `getAllOrders`, `getProducts`, `getProduct`, `updateProduct`, `updateRelatedProducts`, `reorderFeaturedProducts`, `deleteProduct` and category handlers are reached by the route tables, but their bodies are not modelled.
- server/models/Product.js, server/models/Order.js and the category controller are not part of this model. `Catalog` keeps only the fields the controllers touch.
- `user.remove()` is modelled as deleting the document.
- An absent `currentPassword` is not modelled: the current password is a string handed to the `compare` parameter.
- The outer `catch` of `adminAuth` never runs, because `auth` catches its own errors. A handler that throws after `next()` is not modelled.
- Express's own 404 for a path no entry fits is the `None` of `Routes.Dispatch`.
- Routes.Dispatch: literal path segments are compared exactly, and a trailing slash is not modelled. Express's default router ignores case and a trailing slash, so `GET /SEARCH` reaches `searchProducts` there, while the model sends it to `getProduct` with id "SEARCH".
- Currency.ConvertPrice: `fromCurrency in exchangeRates` also accepts the keys every object inherits (`toString`, `constructor`, …). For those the source divides or multiplies by a function and returns NaN, while the model treats them as unknown codes and returns the price. The codes the client passes are always USD, ILS or EUR.
- The cart context, shipping form and localStorage persistence are outside the model. The wishlist starts from the saved list, given as a parameter.
- The store's documented design gives `paymentStatus` 'completed' for 'card' and 'pending' otherwise. The code gives 'pending' for 'cod' and 'completed' for every other value, including a missing one. The model follows the code (`OrderController.PaymentStatusFor`).
- AdminOrders.ComputeStats: the ensures names the total and the pending and delivered counters; the processing and shipped counters, and `StatusCountsBounded`, follow from the same definition.
- Currency.FormatPrice: the text of `Intl.NumberFormat` is the `format` parameter, so its contract states the `'---'` guard, that the formatter's text is returned, and the fallback, but not what the en-US currency text looks like.

## Findings

| source | as written | input that shows it | evidently intended | confidence | as-written member | corrected member |
|---|---|---|---|---|---|---|
| server/routes/categoryRoutes.js:20-21 | `PUT /:id` is declared before `PUT /reorder`, so the first entry that fits takes every PUT with one segment | `PUT /reorder` reaches `updateCategory` with id "reorder"; `reorderCategories` is reached by no request | `PUT /reorder` reaches `reorderCategories` | high, not executed | Routes.CategoryReorderUnreachable | Routes.CategoryFixedDispatch |
| server/controllers/orderController.js:26-50 | each line's stock is decremented and saved before later lines are checked, so a later failure leaves earlier decrements in place with no order | 5 of "a" in stock, cart [2 × "a", 1 × "missing"]: answered 404, no order, "a" left with 3 | a failed order takes no stock | high, not executed | OrderController.FailedOrderKeepsEarlierDecrements | OrderController.OrderService.CreateOrderAtomic |
| src/components/Admin/AddProductModal.tsx:164-172 | `handleAddProduct` (Products.tsx:78-92) catches a failed POST itself, so the modal's `await onSubmit` returns normally and goes on to `onClose()` and its success toast | the server refuses `POST /products`: the table is unchanged, the modal closes, and "Product added successfully" is shown after "Failed to add product" | a refused product keeps the modal open and reports only the failure | high, not executed | AdminProducts.FailedAddReportsSuccess | AdminProducts.AddFlowFixed |
| src/components/Admin/Orders.tsx:134-148 | cells are joined with ',' without quoting, and the Total cell is the en-US currency text | an order totalling 1234 USD: its Total cell "$1,234.00" reads back as "$1" and "234.00", ten cells under nine headers | every order reads back as nine cells | high, not executed | AdminOrders.CommaInTotalSplitsRow | AdminOrders.CsvQuotedReadsBack |
| server/routes/userRoutes.js:19-24 | the "changed" test compares the raw body email with the stored one, while `findOne({ email })` applies the trim and lower-case setters and then finds the user's own document | user stored as "a@b.co" sends email "A@b.co": answered 400 "Email already in use" | only another user's document counts as a clash | medium, not executed | Users.OwnEmailRetypedRejected | Users.ProfileUpdateFixedSpec |
