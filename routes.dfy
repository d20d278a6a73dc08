// server/routes/productRoutes.js, categoryRoutes.js, orderRoutes.js,
// settingsRoutes.js and userRoutes.js: each router is an ordered table of
// (method, path pattern, guard, handler) entries, and Express hands a
// request to the first entry whose method and pattern match. Paths are the
// segments after the router's mount point; a `:name` segment matches any
// non-empty segment and binds it.

module Routes {
  import opened Common
  import Users
  import Auth

  datatype Method = GET | POST | PUT | PATCH | DELETE

  datatype Segment = Lit(text: string) | Param(name: string)

  /** The middleware in front of a handler: none, `auth` or `adminAuth`. */
  datatype Guard = Open | NeedsAuth | NeedsAdmin

  datatype Handler =
    | GetProducts | SearchProducts | GetProduct | CreateProduct | UpdateProduct | UpdateRelatedProducts
    | ReorderFeaturedProducts | DeleteProduct | GetAllReviews | AddReview | MarkReviewHelpful
    | ReportReview | VerifyReview | DeleteReview
    | GetAllCategories | GetCategory | CreateCategory | UpdateCategory | ReorderCategories | DeleteCategory
    | CreateOrder | GetUserOrders | GetAllOrders | UpdateOrderStatus
    | GetSettings | UpdateSettings
    | UpdateProfile | UpdatePassword | DeleteAccount | UpdateNotifications

  datatype Route = Route(verb: Method, pattern: seq<Segment>, guard: Guard, handler: Handler)

  // ---------------------------------------------------------------- matching

  predicate SegmentMatches(seg: Segment, s: string)
  {
    match seg
    case Lit(text) => s == text
    case Param(_) => s != ""
  }

  /** A path matches a pattern with as many segments, each matching its own. */
  predicate Matches(pattern: seq<Segment>, path: seq<string>)
  {
    |pattern| == |path| && forall j :: 0 <= j < |pattern| ==> SegmentMatches(pattern[j], path[j])
  }

  /** The values a matching path gives the parameters of the pattern's
      segments from `i` on; where two segments share a name the later wins. */
  function ParamsFrom(pattern: seq<Segment>, path: seq<string>, i: nat): map<string, string>
    requires |pattern| == |path| && i <= |pattern|
    decreases |pattern| - i
  {
    if i == |pattern| then map[]
    else
      var here := if pattern[i].Param? then map[pattern[i].name := path[i]] else map[];
      here + ParamsFrom(pattern, path, i + 1)
  }

  /** A name is bound exactly when a segment from `i` on is a parameter of
      that name, and it is bound to the path segment at the last such place. */
  lemma {:induction false} ParamsFromSpec(pattern: seq<Segment>, path: seq<string>, i: nat)
    requires |pattern| == |path| && i <= |pattern|
    ensures forall key :: key in ParamsFrom(pattern, path, i) <==>
              exists j :: i <= j < |pattern| && pattern[j] == Param(key)
    ensures forall j :: (i <= j < |pattern| && pattern[j].Param? &&
                         forall k :: j < k < |pattern| ==> pattern[k] != pattern[j]) ==>
              ParamsFrom(pattern, path, i)[pattern[j].name] == path[j]
    decreases |pattern| - i
  {
    if i < |pattern| {
      ParamsFromSpec(pattern, path, i + 1);
    }
  }

  predicate Fits(r: Route, m: Method, path: seq<string>)
  {
    r.verb == m && Matches(r.pattern, path)
  }

  /** The first entry of the table, from index `i` on, that fits the request. */
  function FirstFit(table: seq<Route>, m: Method, path: seq<string>, i: nat): (r: Option<nat>)
    requires i <= |table|
    ensures r.Some? ==> i <= r.value < |table| && Fits(table[r.value], m, path)
    decreases |table| - i
  {
    if i == |table| then None
    else if Fits(table[i], m, path) then Some(i)
    else FirstFit(table, m, path, i + 1)
  }

  /** The entry found is the first that fits; when none is found, none fits. */
  lemma {:induction false} FirstFitSpec(table: seq<Route>, m: Method, path: seq<string>, i: nat)
    requires i <= |table|
    ensures var r := FirstFit(table, m, path, i);
            && (r.Some? ==> forall j :: i <= j < r.value ==> !Fits(table[j], m, path))
            && (r.None? ==> forall j :: i <= j < |table| ==> !Fits(table[j], m, path))
    decreases |table| - i
  {
    if i < |table| && !Fits(table[i], m, path) {
      FirstFitSpec(table, m, path, i + 1);
    }
  }

  /** Conversely, an entry that fits with none fitting before it is the one
      found. */
  lemma {:induction false} FirstFitAt(table: seq<Route>, m: Method, path: seq<string>, s: nat, i: nat)
    requires s <= i < |table| && Fits(table[i], m, path)
    requires forall k :: s <= k < i ==> !Fits(table[k], m, path)
    ensures FirstFit(table, m, path, s) == Some(i)
    decreases i - s
  {
    if s < i {
      FirstFitAt(table, m, path, s + 1, i);
    }
  }

  /** And when no entry from `s` on fits, none is found. */
  lemma {:induction false} FirstFitNone(table: seq<Route>, m: Method, path: seq<string>, s: nat)
    requires s <= |table|
    requires forall k :: s <= k < |table| ==> !Fits(table[k], m, path)
    ensures FirstFit(table, m, path, s) == None
    decreases |table| - s
  {
    if s < |table| {
      FirstFitNone(table, m, path, s + 1);
    }
  }

  /** Where a request goes: the handler, its guard and the bound parameters. */
  datatype Target = Target(handler: Handler, guard: Guard, params: map<string, string>)

  function Dispatch(table: seq<Route>, m: Method, path: seq<string>): Option<Target>
  {
    match FirstFit(table, m, path, 0)
    case None => None
    case Some(i) => Some(Target(table[i].handler, table[i].guard, ParamsFrom(table[i].pattern, path, 0)))
  }

  /** A request is dispatched exactly when some entry fits it, and then to
      the handler and guard of the first entry that fits, with that entry's
      parameters bound from the path. */
  lemma DispatchSpec(table: seq<Route>, m: Method, path: seq<string>)
    ensures var t := Dispatch(table, m, path);
            && (t.Some? <==> exists i :: 0 <= i < |table| && Fits(table[i], m, path))
            && (t.Some? ==> exists i :: 0 <= i < |table| && Fits(table[i], m, path) &&
                              (forall j :: 0 <= j < i ==> !Fits(table[j], m, path)) &&
                              table[i].handler == t.value.handler && table[i].guard == t.value.guard &&
                              t.value.params == ParamsFrom(table[i].pattern, path, 0))
  {
    FirstFitSpec(table, m, path, 0);
  }

  // ------------------------------------------------------------------ tables

  /** Entry `k` of productRoutes.js, in declaration order. */
  function ProductRoute(k: int): Route
  {
    match k
    case 0 => Route(GET, [], Open, GetProducts)
    case 1 => Route(GET, [Lit("search")], Open, SearchProducts)
    case 2 => Route(GET, [Param("id")], Open, GetProduct)
    case 3 => Route(POST, [], NeedsAdmin, CreateProduct)
    case 4 => Route(PUT, [Param("id")], NeedsAdmin, UpdateProduct)
    case 5 => Route(PUT, [Param("id"), Lit("related")], NeedsAdmin, UpdateRelatedProducts)
    case 6 => Route(PUT, [Lit("featured"), Lit("reorder")], NeedsAdmin, ReorderFeaturedProducts)
    case 7 => Route(DELETE, [Param("id")], NeedsAdmin, DeleteProduct)
    case 8 => Route(GET, [Lit("reviews"), Lit("all")], NeedsAdmin, GetAllReviews)
    case 9 => Route(POST, [Param("id"), Lit("reviews")], NeedsAuth, AddReview)
    case 10 => Route(POST, [Param("id"), Lit("reviews"), Param("reviewId"), Lit("helpful")], NeedsAuth, MarkReviewHelpful)
    case 11 => Route(POST, [Param("id"), Lit("reviews"), Param("reviewId"), Lit("report")], NeedsAuth, ReportReview)
    case 12 => Route(PUT, [Param("id"), Lit("reviews"), Param("reviewId"), Lit("verify")], NeedsAdmin, VerifyReview)
    case _ => Route(DELETE, [Param("id"), Lit("reviews"), Param("reviewId")], NeedsAdmin, DeleteReview)
  }

  /** productRoutes.js */
  const ProductRoutes: seq<Route> := seq(14, k => ProductRoute(k))

  /** categoryRoutes.js, in declaration order. */
  const CategoryRoutes: seq<Route> := [
    Route(GET, [], Open, GetAllCategories),
    Route(GET, [Param("id")], Open, GetCategory),
    Route(POST, [], NeedsAdmin, CreateCategory),
    Route(PUT, [Param("id")], NeedsAdmin, UpdateCategory),
    Route(PUT, [Lit("reorder")], NeedsAdmin, ReorderCategories),
    Route(DELETE, [Param("id")], NeedsAdmin, DeleteCategory)
  ]

  /** The category table with the fixed route declared before the
      parameterised one. */
  const CategoryRoutesFixed: seq<Route> := [
    Route(GET, [], Open, GetAllCategories),
    Route(GET, [Param("id")], Open, GetCategory),
    Route(POST, [], NeedsAdmin, CreateCategory),
    Route(PUT, [Lit("reorder")], NeedsAdmin, ReorderCategories),
    Route(PUT, [Param("id")], NeedsAdmin, UpdateCategory),
    Route(DELETE, [Param("id")], NeedsAdmin, DeleteCategory)
  ]

  /** orderRoutes.js, in declaration order. */
  const OrderRoutes: seq<Route> := [
    Route(POST, [], Open, CreateOrder),
    Route(GET, [Lit("my-orders")], NeedsAuth, GetUserOrders),
    Route(GET, [Lit("all")], NeedsAdmin, GetAllOrders),
    Route(PUT, [Param("id"), Lit("status")], NeedsAdmin, UpdateOrderStatus)
  ]

  /** settingsRoutes.js */
  const SettingsRoutes: seq<Route> := [
    Route(GET, [], Open, GetSettings),
    Route(PUT, [], NeedsAdmin, UpdateSettings)
  ]

  /** userRoutes.js */
  const UserRoutes: seq<Route> := [
    Route(PATCH, [Lit("profile")], NeedsAuth, UpdateProfile),
    Route(PATCH, [Lit("password")], NeedsAuth, UpdatePassword),
    Route(DELETE, [Lit("account")], NeedsAuth, DeleteAccount),
    Route(PATCH, [Lit("notifications")], NeedsAuth, UpdateNotifications)
  ]

  // ------------------------------------------------------- guards with gates

  /** What becomes of a request: no route (Express's own 404), refused by a
      gate, or handled, with the user the gate found. */
  datatype Served = NoRoute
                  | Refused(status: Status, message: string)
                  | Handled(handler: Handler, params: map<string, string>, user: Option<Users.User>)

  function Serve(table: seq<Route>, m: Method, path: seq<string>, header: Option<string>,
                 verify: string -> Auth.Verified, users: map<string, Users.User>): Served
  {
    match Dispatch(table, m, path)
    case None => NoRoute
    case Some(t) =>
      match t.guard
      case Open => Handled(t.handler, t.params, None)
      case NeedsAuth =>
        (match Auth.Decide(header, verify, users)
         case Fail(status, message) => Refused(status, message)
         case Pass(u) => Handled(t.handler, t.params, Some(u)))
      case NeedsAdmin =>
        (match Auth.AdminDecide(header, verify, users)
         case Fail(status, message) => Refused(status, message)
         case Pass(u) => Handled(t.handler, t.params, Some(u)))
  }

  /** A request handled behind a guard carries the user the gate found; one
      handled behind `adminAuth` carries an admin; a request the table routes
      to a guarded handler without a valid token is refused with 401. */
  lemma ServeSpec(table: seq<Route>, m: Method, path: seq<string>, header: Option<string>,
                  verify: string -> Auth.Verified, users: map<string, Users.User>)
    ensures var s := Serve(table, m, path, header, verify, users);
            var t := Dispatch(table, m, path);
            && (s.NoRoute? <==> t.None?)
            && (t.Some? && t.value.guard == NeedsAdmin && s.Handled? ==>
                  s.user.Some? && s.user.value.role == Users.RoleAdmin && Auth.Decide(header, verify, users) == Auth.Pass(s.user.value))
            && (t.Some? && t.value.guard == NeedsAuth && s.Handled? ==>
                  s.user.Some? && Auth.Decide(header, verify, users) == Auth.Pass(s.user.value))
            && (t.Some? && t.value.guard != Open && Auth.Decide(header, verify, users).Fail? ==>
                  s.Refused? && s.status == Unauthorized401)
            && (t.Some? && t.value.guard == Open ==> s == Handled(t.value.handler, t.value.params, None))
  {
    Auth.AdminDecideSpec(header, verify, users);
    Auth.DecideSpec(header, verify, users);
  }

  /** Every entry of a table that is not a read is guarded, and the reads
      guarded are the ones listed. */
  predicate WritesGuarded(table: seq<Route>)
  {
    forall i :: 0 <= i < |table| && table[i].verb != GET ==> table[i].guard != Open
  }

  /** Every entry of a table that is not a read needs an admin. */
  predicate WritesNeedAdmin(table: seq<Route>)
  {
    forall i :: 0 <= i < |table| && table[i].verb != GET ==> table[i].guard == NeedsAdmin
  }

  /** In a table whose writes are all guarded, no write is handled without
      an authenticated user; and where every write needs an admin, none is
      handled for anyone but an admin. */
  lemma GuardedWritesNeedUser(table: seq<Route>, m: Method, path: seq<string>, header: Option<string>,
                              verify: string -> Auth.Verified, users: map<string, Users.User>)
    requires WritesGuarded(table) && m != GET
    ensures var s := Serve(table, m, path, header, verify, users);
            s.Handled? ==> s.user.Some?
    ensures WritesNeedAdmin(table) ==>
              var s := Serve(table, m, path, header, verify, users);
              s.Handled? ==> s.user.Some? && s.user.value.role == Users.RoleAdmin
  {
    ServeSpec(table, m, path, header, verify, users);
    DispatchSpec(table, m, path);
  }

  // ------------------------------------------------------ where requests go

  /** `GET /` lists the products, open to all. */
  lemma ProductListRoute()
    ensures Dispatch(ProductRoutes, GET, []) == Some(Target(GetProducts, Open, map[]))
  {
    var path: seq<string> := [];
    FirstFitAt(ProductRoutes, GET, path, 0, 0);
  }

  /** `GET /search` reaches the search, which is declared before `/:id`. */
  lemma ProductSearchRoute()
    ensures Dispatch(ProductRoutes, GET, ["search"]) == Some(Target(SearchProducts, Open, map[]))
  {
    var path: seq<string> := ["search"];
    FirstFitAt(ProductRoutes, GET, path, 0, 1);
  }

  /** Any other single segment is a product id. */
  lemma ProductGetRoute(id: string)
    requires id != "" && id != "search"
    ensures Dispatch(ProductRoutes, GET, [id]) == Some(Target(GetProduct, Open, map["id" := id]))
  {
    var path: seq<string> := [id];
    assert !SegmentMatches(ProductRoutes[1].pattern[0], path[0]);
    FirstFitAt(ProductRoutes, GET, path, 0, 2);
    assert ParamsFrom(ProductRoutes[2].pattern, path, 0) == map["id" := id];
  }

  /** Creating a product needs an admin. */
  lemma ProductCreateRoute()
    ensures Dispatch(ProductRoutes, POST, []) == Some(Target(CreateProduct, NeedsAdmin, map[]))
  {
    var path: seq<string> := [];
    FirstFitAt(ProductRoutes, POST, path, 0, 3);
  }

  /** Updating a product needs an admin. */
  lemma ProductUpdateRoute(id: string)
    requires id != ""
    ensures Dispatch(ProductRoutes, PUT, [id]) == Some(Target(UpdateProduct, NeedsAdmin, map["id" := id]))
  {
    var path: seq<string> := [id];
    FirstFitAt(ProductRoutes, PUT, path, 0, 4);
    assert ParamsFrom(ProductRoutes[4].pattern, path, 0) == map["id" := id];
  }

  /** Setting related products needs an admin. */
  lemma ProductRelatedRoute(id: string)
    requires id != ""
    ensures Dispatch(ProductRoutes, PUT, [id, "related"]) == Some(Target(UpdateRelatedProducts, NeedsAdmin, map["id" := id]))
  {
    var path: seq<string> := [id, "related"];
    FirstFitAt(ProductRoutes, PUT, path, 0, 5);
    assert ParamsFrom(ProductRoutes[5].pattern, path, 1) == map[];
    assert ParamsFrom(ProductRoutes[5].pattern, path, 0) == map["id" := id];
  }

  /** `PUT /featured/reorder` is not taken by `PUT /:id/related`, whose second segment differs. */
  lemma ProductReorderRoute()
    ensures Dispatch(ProductRoutes, PUT, ["featured", "reorder"]) == Some(Target(ReorderFeaturedProducts, NeedsAdmin, map[]))
  {
    var path: seq<string> := ["featured", "reorder"];
    assert "reorder"[2] != "related"[2];
    assert !SegmentMatches(ProductRoutes[5].pattern[1], path[1]);
    FirstFitAt(ProductRoutes, PUT, path, 0, 6);
  }

  /** Deleting a product needs an admin. */
  lemma ProductDeleteRoute(id: string)
    requires id != ""
    ensures Dispatch(ProductRoutes, DELETE, [id]) == Some(Target(DeleteProduct, NeedsAdmin, map["id" := id]))
  {
    var path: seq<string> := [id];
    FirstFitAt(ProductRoutes, DELETE, path, 0, 7);
    assert ParamsFrom(ProductRoutes[7].pattern, path, 0) == map["id" := id];
  }

  /** `GET /reviews/all` reaches the admin's review list; no earlier read has two segments. */
  lemma AllReviewsRoute()
    ensures Dispatch(ProductRoutes, GET, ["reviews", "all"]) == Some(Target(GetAllReviews, NeedsAdmin, map[]))
  {
    var path: seq<string> := ["reviews", "all"];
    FirstFitAt(ProductRoutes, GET, path, 0, 8);
  }

  /** Posting a review needs a signed-in user. */
  lemma AddReviewRoute(id: string)
    requires id != ""
    ensures Dispatch(ProductRoutes, POST, [id, "reviews"]) == Some(Target(AddReview, NeedsAuth, map["id" := id]))
  {
    var path: seq<string> := [id, "reviews"];
    FirstFitAt(ProductRoutes, POST, path, 0, 9);
    assert ParamsFrom(ProductRoutes[9].pattern, path, 1) == map[];
    assert ParamsFrom(ProductRoutes[9].pattern, path, 0) == map["id" := id];
  }

  /** Voting a review helpful needs a signed-in user. */
  lemma HelpfulRoute(id: string, reviewId: string)
    requires id != "" && reviewId != ""
    ensures Dispatch(ProductRoutes, POST, [id, "reviews", reviewId, "helpful"]) == Some(Target(MarkReviewHelpful, NeedsAuth, map["id" := id, "reviewId" := reviewId]))
  {
    var path: seq<string> := [id, "reviews", reviewId, "helpful"];
    FirstFitAt(ProductRoutes, POST, path, 0, 10);
    assert ParamsFrom(ProductRoutes[10].pattern, path, 3) == map[];
    assert ParamsFrom(ProductRoutes[10].pattern, path, 2) == map["reviewId" := reviewId];
    assert ParamsFrom(ProductRoutes[10].pattern, path, 1) == map["reviewId" := reviewId];
    assert ParamsFrom(ProductRoutes[10].pattern, path, 0) == map["id" := id, "reviewId" := reviewId];
  }

  /** Reporting a review needs a signed-in user. */
  lemma ReportRoute(id: string, reviewId: string)
    requires id != "" && reviewId != ""
    ensures Dispatch(ProductRoutes, POST, [id, "reviews", reviewId, "report"]) == Some(Target(ReportReview, NeedsAuth, map["id" := id, "reviewId" := reviewId]))
  {
    var path: seq<string> := [id, "reviews", reviewId, "report"];
    assert !SegmentMatches(ProductRoutes[10].pattern[3], path[3]);
    FirstFitAt(ProductRoutes, POST, path, 0, 11);
    assert ParamsFrom(ProductRoutes[11].pattern, path, 3) == map[];
    assert ParamsFrom(ProductRoutes[11].pattern, path, 2) == map["reviewId" := reviewId];
    assert ParamsFrom(ProductRoutes[11].pattern, path, 1) == map["reviewId" := reviewId];
    assert ParamsFrom(ProductRoutes[11].pattern, path, 0) == map["id" := id, "reviewId" := reviewId];
  }

  /** Verifying a review needs an admin. */
  lemma VerifyReviewRoute(id: string, reviewId: string)
    requires id != "" && reviewId != ""
    ensures Dispatch(ProductRoutes, PUT, [id, "reviews", reviewId, "verify"]) == Some(Target(VerifyReview, NeedsAdmin, map["id" := id, "reviewId" := reviewId]))
  {
    var path: seq<string> := [id, "reviews", reviewId, "verify"];
    FirstFitAt(ProductRoutes, PUT, path, 0, 12);
    assert ParamsFrom(ProductRoutes[12].pattern, path, 3) == map[];
    assert ParamsFrom(ProductRoutes[12].pattern, path, 2) == map["reviewId" := reviewId];
    assert ParamsFrom(ProductRoutes[12].pattern, path, 1) == map["reviewId" := reviewId];
    assert ParamsFrom(ProductRoutes[12].pattern, path, 0) == map["id" := id, "reviewId" := reviewId];
  }

  /** Deleting a review needs an admin. */
  lemma DeleteReviewRoute(id: string, reviewId: string)
    requires id != "" && reviewId != ""
    ensures Dispatch(ProductRoutes, DELETE, [id, "reviews", reviewId]) == Some(Target(DeleteReview, NeedsAdmin, map["id" := id, "reviewId" := reviewId]))
  {
    var path: seq<string> := [id, "reviews", reviewId];
    FirstFitAt(ProductRoutes, DELETE, path, 0, 13);
    assert ParamsFrom(ProductRoutes[13].pattern, path, 2) == map["reviewId" := reviewId];
    assert ParamsFrom(ProductRoutes[13].pattern, path, 1) == map["reviewId" := reviewId];
    assert ParamsFrom(ProductRoutes[13].pattern, path, 0) == map["id" := id, "reviewId" := reviewId];
  }

  /** `GET /` lists the categories, open to all. */
  lemma CategoryListRoute()
    ensures Dispatch(CategoryRoutes, GET, []) == Some(Target(GetAllCategories, Open, map[]))
  {
    var path: seq<string> := [];
    FirstFitAt(CategoryRoutes, GET, path, 0, 0);
  }

  /** `GET /:id` reads one category, open to all. */
  lemma CategoryGetRoute(id: string)
    requires id != ""
    ensures Dispatch(CategoryRoutes, GET, [id]) == Some(Target(GetCategory, Open, map["id" := id]))
  {
    var path: seq<string> := [id];
    FirstFitAt(CategoryRoutes, GET, path, 0, 1);
    assert ParamsFrom(CategoryRoutes[1].pattern, path, 0) == map["id" := id];
  }

  /** Creating a category needs an admin. */
  lemma CategoryCreateRoute()
    ensures Dispatch(CategoryRoutes, POST, []) == Some(Target(CreateCategory, NeedsAdmin, map[]))
  {
    var path: seq<string> := [];
    FirstFitAt(CategoryRoutes, POST, path, 0, 2);
  }

  /** `PUT /:id` updates a category, for every id including "reorder". */
  lemma CategoryUpdateRoute(id: string)
    requires id != ""
    ensures Dispatch(CategoryRoutes, PUT, [id]) == Some(Target(UpdateCategory, NeedsAdmin, map["id" := id]))
  {
    var path: seq<string> := [id];
    FirstFitAt(CategoryRoutes, PUT, path, 0, 3);
    assert ParamsFrom(CategoryRoutes[3].pattern, path, 0) == map["id" := id];
  }

  /** Deleting a category needs an admin. */
  lemma CategoryDeleteRoute(id: string)
    requires id != ""
    ensures Dispatch(CategoryRoutes, DELETE, [id]) == Some(Target(DeleteCategory, NeedsAdmin, map["id" := id]))
  {
    var path: seq<string> := [id];
    FirstFitAt(CategoryRoutes, DELETE, path, 0, 5);
    assert ParamsFrom(CategoryRoutes[5].pattern, path, 0) == map["id" := id];
  }

  /** With the fixed order `PUT /reorder` reaches `reorderCategories`. */
  lemma FixedReorderRoute()
    ensures Dispatch(CategoryRoutesFixed, PUT, ["reorder"]) == Some(Target(ReorderCategories, NeedsAdmin, map[]))
  {
    var path: seq<string> := ["reorder"];
    FirstFitAt(CategoryRoutesFixed, PUT, path, 0, 3);
  }

  /** With the fixed order every other id still reaches `updateCategory`. */
  lemma FixedUpdateRoute(id: string)
    requires id != "" && id != "reorder"
    ensures Dispatch(CategoryRoutesFixed, PUT, [id]) == Some(Target(UpdateCategory, NeedsAdmin, map["id" := id]))
  {
    var path: seq<string> := [id];
    assert !SegmentMatches(CategoryRoutesFixed[3].pattern[0], path[0]);
    FirstFitAt(CategoryRoutesFixed, PUT, path, 0, 4);
    assert ParamsFrom(CategoryRoutesFixed[4].pattern, path, 0) == map["id" := id];
  }

  /** Checkout is open, so guests can order. */
  lemma CheckoutRoute()
    ensures Dispatch(OrderRoutes, POST, []) == Some(Target(CreateOrder, Open, map[]))
  {
    var path: seq<string> := [];
    FirstFitAt(OrderRoutes, POST, path, 0, 0);
  }

  /** A customer's own orders need a signed-in user. */
  lemma MyOrdersRoute()
    ensures Dispatch(OrderRoutes, GET, ["my-orders"]) == Some(Target(GetUserOrders, NeedsAuth, map[]))
  {
    var path: seq<string> := ["my-orders"];
    FirstFitAt(OrderRoutes, GET, path, 0, 1);
  }

  /** The full order list needs an admin. */
  lemma AllOrdersRoute()
    ensures Dispatch(OrderRoutes, GET, ["all"]) == Some(Target(GetAllOrders, NeedsAdmin, map[]))
  {
    var path: seq<string> := ["all"];
    assert !SegmentMatches(OrderRoutes[1].pattern[0], path[0]);
    FirstFitAt(OrderRoutes, GET, path, 0, 2);
  }

  /** Changing an order's status needs an admin. */
  lemma OrderStatusRoute(id: string)
    requires id != ""
    ensures Dispatch(OrderRoutes, PUT, [id, "status"]) == Some(Target(UpdateOrderStatus, NeedsAdmin, map["id" := id]))
  {
    var path: seq<string> := [id, "status"];
    FirstFitAt(OrderRoutes, PUT, path, 0, 3);
    assert ParamsFrom(OrderRoutes[3].pattern, path, 1) == map[];
    assert ParamsFrom(OrderRoutes[3].pattern, path, 0) == map["id" := id];
  }

  /** Reading the settings is open. */
  lemma SettingsReadRoute()
    ensures Dispatch(SettingsRoutes, GET, []) == Some(Target(GetSettings, Open, map[]))
  {
    var path: seq<string> := [];
    FirstFitAt(SettingsRoutes, GET, path, 0, 0);
  }

  /** Changing the settings needs an admin. */
  lemma SettingsUpdateRoute()
    ensures Dispatch(SettingsRoutes, PUT, []) == Some(Target(UpdateSettings, NeedsAdmin, map[]))
  {
    var path: seq<string> := [];
    FirstFitAt(SettingsRoutes, PUT, path, 0, 1);
  }

  /** Editing the profile needs a signed-in user. */
  lemma ProfileRoute()
    ensures Dispatch(UserRoutes, PATCH, ["profile"]) == Some(Target(UpdateProfile, NeedsAuth, map[]))
  {
    var path: seq<string> := ["profile"];
    FirstFitAt(UserRoutes, PATCH, path, 0, 0);
  }

  /** Changing the password needs a signed-in user. */
  lemma PasswordRoute()
    ensures Dispatch(UserRoutes, PATCH, ["password"]) == Some(Target(UpdatePassword, NeedsAuth, map[]))
  {
    var path: seq<string> := ["password"];
    assert !SegmentMatches(UserRoutes[0].pattern[0], path[0]);
    FirstFitAt(UserRoutes, PATCH, path, 0, 1);
  }

  /** Deleting the account needs a signed-in user. */
  lemma AccountRoute()
    ensures Dispatch(UserRoutes, DELETE, ["account"]) == Some(Target(DeleteAccount, NeedsAuth, map[]))
  {
    var path: seq<string> := ["account"];
    FirstFitAt(UserRoutes, DELETE, path, 0, 2);
  }

  /** Changing the notification preferences needs a signed-in user. */
  lemma NotificationsRoute()
    ensures Dispatch(UserRoutes, PATCH, ["notifications"]) == Some(Target(UpdateNotifications, NeedsAuth, map[]))
  {
    var path: seq<string> := ["notifications"];
    assert !SegmentMatches(UserRoutes[0].pattern[0], path[0]);
    assert !SegmentMatches(UserRoutes[1].pattern[0], path[0]);
    FirstFitAt(UserRoutes, PATCH, path, 0, 3);
  }

  // ------------------------------------------------------- tables, entire

  /** The product table's writes are all guarded, only the three review
      actions with `auth` alone, so a customer can review, vote and report
      but never change the catalogue; the open entries are all reads. */
  lemma ProductGuards()
    ensures WritesGuarded(ProductRoutes)
    ensures forall i :: 0 <= i < |ProductRoutes| && ProductRoutes[i].guard == NeedsAuth ==>
              ProductRoutes[i].handler == AddReview || ProductRoutes[i].handler == MarkReviewHelpful ||
              ProductRoutes[i].handler == ReportReview
    ensures forall i :: 0 <= i < |ProductRoutes| && ProductRoutes[i].guard == Open ==> ProductRoutes[i].verb == GET
  {
  }

  /** What the product table does with every request, by the request's
      shape: each path reaches the handler named here or no handler at all. */
  function ProductReference(m: Method, path: seq<string>): Option<Target>
  {
    if path == [] then
      if m == GET then Some(Target(GetProducts, Open, map[]))
      else if m == POST then Some(Target(CreateProduct, NeedsAdmin, map[]))
      else None
    else if path[0] == "" then None
    else if |path| == 1 then
      var ps := map["id" := path[0]];
      if m == GET then
        if path[0] == "search" then Some(Target(SearchProducts, Open, map[])) else Some(Target(GetProduct, Open, ps))
      else if m == PUT then Some(Target(UpdateProduct, NeedsAdmin, ps))
      else if m == DELETE then Some(Target(DeleteProduct, NeedsAdmin, ps))
      else None
    else if |path| == 2 then
      if m == GET && path == ["reviews", "all"] then Some(Target(GetAllReviews, NeedsAdmin, map[]))
      else if m == PUT && path[1] == "related" then Some(Target(UpdateRelatedProducts, NeedsAdmin, map["id" := path[0]]))
      else if m == PUT && path == ["featured", "reorder"] then Some(Target(ReorderFeaturedProducts, NeedsAdmin, map[]))
      else if m == POST && path[1] == "reviews" then Some(Target(AddReview, NeedsAuth, map["id" := path[0]]))
      else None
    else if |path| > 4 || path[1] != "reviews" || path[2] == "" then None
    else
      var ps := map["id" := path[0], "reviewId" := path[2]];
      if |path| == 3 then
        if m == DELETE then Some(Target(DeleteReview, NeedsAdmin, ps)) else None
      else if m == POST && path[3] == "helpful" then Some(Target(MarkReviewHelpful, NeedsAuth, ps))
      else if m == POST && path[3] == "report" then Some(Target(ReportReview, NeedsAuth, ps))
      else if m == PUT && path[3] == "verify" then Some(Target(VerifyReview, NeedsAdmin, ps))
      else None
  }

  /** The product table routes every request as the reference says. */
  lemma ProductDispatch(m: Method, path: seq<string>)
    ensures Dispatch(ProductRoutes, m, path) == ProductReference(m, path)
  {
    var r := ProductReference(m, path);
    if r.None? {
      FirstFitNone(ProductRoutes, m, path, 0);
    } else if path == [] {
      if m == GET { ProductListRoute(); } else { ProductCreateRoute(); }
    } else if |path| == 1 {
      var id := path[0];
      assert path == [id];
      if m == GET && id == "search" { ProductSearchRoute(); }
      else if m == GET { ProductGetRoute(id); }
      else if m == PUT { ProductUpdateRoute(id); }
      else { ProductDeleteRoute(id); }
    } else if |path| == 2 {
      var id := path[0];
      if m == GET { AllReviewsRoute(); }
      else if m == PUT && path[1] == "related" { assert path == [id, "related"]; ProductRelatedRoute(id); }
      else if m == PUT { ProductReorderRoute(); }
      else { assert path == [id, "reviews"]; AddReviewRoute(id); }
    } else if |path| == 3 {
      assert path == [path[0], "reviews", path[2]];
      DeleteReviewRoute(path[0], path[2]);
    } else {
      var id, reviewId := path[0], path[2];
      if m == POST && path[3] == "helpful" {
        assert path == [id, "reviews", reviewId, "helpful"];
        HelpfulRoute(id, reviewId);
      } else if m == POST {
        assert path == [id, "reviews", reviewId, "report"];
        ReportRoute(id, reviewId);
      } else {
        assert path == [id, "reviews", reviewId, "verify"];
        VerifyReviewRoute(id, reviewId);
      }
    }
  }

  /** Reads are open; every write needs an admin; and the same holds for
      the reordered table. */
  lemma CategoryGuards()
    ensures WritesNeedAdmin(CategoryRoutes)
    ensures forall i :: 0 <= i < |CategoryRoutes| && CategoryRoutes[i].verb == GET ==> CategoryRoutes[i].guard == Open
    ensures WritesNeedAdmin(CategoryRoutesFixed)
  {
  }

  /** What the category table does with every request: the two collection
      routes, and for one non-empty segment the read, the update or the
      delete of the category it names. */
  function CategoryReference(m: Method, path: seq<string>): Option<Target>
  {
    if path == [] then
      if m == GET then Some(Target(GetAllCategories, Open, map[]))
      else if m == POST then Some(Target(CreateCategory, NeedsAdmin, map[]))
      else None
    else if |path| == 1 && path[0] != "" then
      var ps := map["id" := path[0]];
      if m == GET then Some(Target(GetCategory, Open, ps))
      else if m == PUT then Some(Target(UpdateCategory, NeedsAdmin, ps))
      else if m == DELETE then Some(Target(DeleteCategory, NeedsAdmin, ps))
      else None
    else None
  }

  /** The category table as declared routes every request as the reference
      says. */
  lemma CategoryDispatch(m: Method, path: seq<string>)
    ensures Dispatch(CategoryRoutes, m, path) == CategoryReference(m, path)
  {
    var r := CategoryReference(m, path);
    if r.None? {
      FirstFitNone(CategoryRoutes, m, path, 0);
    } else if path == [] {
      if m == GET { CategoryListRoute(); } else { CategoryCreateRoute(); }
    } else {
      var id := path[0];
      assert path == [id];
      if m == GET { CategoryGetRoute(id); }
      else if m == PUT { CategoryUpdateRoute(id); }
      else { CategoryDeleteRoute(id); }
    }
  }

  /** As declared, `PUT /reorder` is taken by `PUT /:id`: the request reaches
      `updateCategory` with id "reorder", and `reorderCategories` is reached
      by no request at all. */
  lemma CategoryReorderUnreachable(m: Method, path: seq<string>)
    ensures Dispatch(CategoryRoutes, PUT, ["reorder"]) == Some(Target(UpdateCategory, NeedsAdmin, map["id" := "reorder"]))
    ensures var t := Dispatch(CategoryRoutes, m, path);
            t.Some? ==> t.value.handler != ReorderCategories
  {
    CategoryUpdateRoute("reorder");
    CategoryDispatch(m, path);
  }

  /** With the fixed order `PUT /reorder` reaches `reorderCategories`, and
      every other request is routed exactly as before. */
  lemma CategoryFixedDispatch(m: Method, path: seq<string>)
    ensures Dispatch(CategoryRoutesFixed, m, path) ==
            if m == PUT && path == ["reorder"] then Some(Target(ReorderCategories, NeedsAdmin, map[]))
            else CategoryReference(m, path)
  {
    var F := CategoryRoutesFixed;
    if m == PUT && path == ["reorder"] {
      FixedReorderRoute();
    } else if CategoryReference(m, path).None? {
      FirstFitNone(F, m, path, 0);
    } else if path == [] {
      if m == GET { FirstFitAt(F, m, path, 0, 0); } else { FirstFitAt(F, m, path, 0, 2); }
    } else {
      var id := path[0];
      assert path == [id];
      if m == PUT {
        FixedUpdateRoute(id);
      } else {
        var k := if m == GET then 1 else 5;
        FirstFitAt(F, m, path, 0, k);
        assert ParamsFrom(F[k].pattern, path, 0) == map["id" := id];
      }
    }
  }

  /** Guest checkout is open; the customer's own orders need `auth`; the
      full list and status changes need an admin. */
  lemma OrderGuards()
    ensures forall i :: 0 <= i < |OrderRoutes| && OrderRoutes[i].guard == Open ==> OrderRoutes[i].handler == CreateOrder
    ensures forall i :: 0 <= i < |OrderRoutes| && OrderRoutes[i].verb == PUT ==> OrderRoutes[i].guard == NeedsAdmin
  {
  }

  /** What the order table does with every request. */
  function OrderReference(m: Method, path: seq<string>): Option<Target>
  {
    if m == POST && path == [] then Some(Target(CreateOrder, Open, map[]))
    else if m == GET && path == ["my-orders"] then Some(Target(GetUserOrders, NeedsAuth, map[]))
    else if m == GET && path == ["all"] then Some(Target(GetAllOrders, NeedsAdmin, map[]))
    else if m == PUT && |path| == 2 && path[0] != "" && path[1] == "status" then
      Some(Target(UpdateOrderStatus, NeedsAdmin, map["id" := path[0]]))
    else None
  }

  lemma OrderDispatch(m: Method, path: seq<string>)
    ensures Dispatch(OrderRoutes, m, path) == OrderReference(m, path)
  {
    if OrderReference(m, path).None? {
      FirstFitNone(OrderRoutes, m, path, 0);
    } else if m == POST {
      CheckoutRoute();
    } else if m == GET && path == ["my-orders"] {
      MyOrdersRoute();
    } else if m == GET {
      AllOrdersRoute();
    } else {
      assert path == [path[0], "status"];
      OrderStatusRoute(path[0]);
    }
  }

  /** What the settings table does with every request. */
  function SettingsReference(m: Method, path: seq<string>): Option<Target>
  {
    if path != [] then None
    else if m == GET then Some(Target(GetSettings, Open, map[]))
    else if m == PUT then Some(Target(UpdateSettings, NeedsAdmin, map[]))
    else None
  }

  lemma SettingsDispatch(m: Method, path: seq<string>)
    ensures Dispatch(SettingsRoutes, m, path) == SettingsReference(m, path)
  {
    if SettingsReference(m, path).None? {
      FirstFitNone(SettingsRoutes, m, path, 0);
    } else if m == GET {
      SettingsReadRoute();
    } else {
      SettingsUpdateRoute();
    }
  }

  /** What the user table does with every request. */
  function UserReference(m: Method, path: seq<string>): Option<Target>
  {
    if m == PATCH && path == ["profile"] then Some(Target(UpdateProfile, NeedsAuth, map[]))
    else if m == PATCH && path == ["password"] then Some(Target(UpdatePassword, NeedsAuth, map[]))
    else if m == DELETE && path == ["account"] then Some(Target(DeleteAccount, NeedsAuth, map[]))
    else if m == PATCH && path == ["notifications"] then Some(Target(UpdateNotifications, NeedsAuth, map[]))
    else None
  }

  lemma UserDispatch(m: Method, path: seq<string>)
    ensures Dispatch(UserRoutes, m, path) == UserReference(m, path)
  {
    if UserReference(m, path).None? {
      FirstFitNone(UserRoutes, m, path, 0);
    } else if path == ["profile"] {
      ProfileRoute();
    } else if path == ["password"] {
      PasswordRoute();
    } else if path == ["account"] {
      AccountRoute();
    } else {
      NotificationsRoute();
    }
  }

  /** Every user route needs `auth`, so a handler there always has the
      requesting user. */
  lemma UserRoutesNeedAuth(m: Method, path: seq<string>, header: Option<string>,
                           verify: string -> Auth.Verified, users: map<string, Users.User>)
    ensures forall i :: 0 <= i < |UserRoutes| ==> UserRoutes[i].guard == NeedsAuth
    ensures var s := Serve(UserRoutes, m, path, header, verify, users);
            s.Handled? ==> s.user.Some? && Auth.Decide(header, verify, users) == Auth.Pass(s.user.value)
  {
    ServeSpec(UserRoutes, m, path, header, verify, users);
    DispatchSpec(UserRoutes, m, path);
  }
}
