// server/controllers/orderController.js: placing an order and changing its
// status. `createOrder` validates the request, then walks the cart line by
// line: it looks the product up, checks its stock, adds price × quantity to
// the total, snapshots the line and saves the product with its stock
// reduced, before moving on. A failing line ends the request with the
// earlier lines' stock already taken and no order stored. The products and
// orders collections are maps; the clock reading and the fresh order id are
// inputs.

module OrderController {
  import opened Common
  import Seqs
  import Text
  import Catalog

  // --------------------------------------------------------------- requests

  datatype LineRequest = LineRequest(product: string, quantity: int, price: real,
                                     size: Option<string>, color: Option<string>)

  datatype CustomerInfo = CustomerInfo(firstName: Option<string>, lastName: Option<string>,
                                       email: Option<string>, mobile: Option<string>)

  datatype Address = Address(street: Option<string>, city: Option<string>,
                             zipCode: Option<string>, country: Option<string>)

  /** `req.body` of `POST /api/orders`; every part may be missing. The
      client's `totalAmount` is carried but never read. */
  datatype OrderRequest = OrderRequest(items: Option<seq<LineRequest>>, shippingAddress: Option<Address>,
                                       paymentMethod: Option<string>, customerInfo: Option<CustomerInfo>,
                                       totalAmount: Option<real>)

  // ----------------------------------------------------------------- orders

  /** The snapshot of a line stored in the order. */
  datatype OrderItem = OrderItem(product: string, quantity: int, price: real, name: string,
                                 image: Option<string>)

  datatype Order = Order(orderNumber: string, items: seq<OrderItem>, totalAmount: real,
                         shippingAddress: Address, paymentMethod: Option<string>,
                         customerInfo: CustomerInfo, status: string, paymentStatus: string)

  datatype Response =
    | Error(status: Status, message: string)
    | Created(id: string, orderNumber: string, totalAmount: real, orderStatus: string)
    | Updated(order: Order)

  const NoItems: string := "Order must contain at least one item"
  const NoContact: string := "Customer email and mobile number are required"
  const NoAddress: string := "Complete shipping address is required"
  /** The `catch` around the whole handler; `error.message` is not carried. */
  const CreateFailed: string := "Failed to create order"

  // ------------------------------------------------------------- validation

  /** The three checks before the loop, in order; None when all pass. */
  function Validate(req: OrderRequest): (r: Option<string>)
    ensures r.None? <==>
              && req.items.Some? && |req.items.value| > 0
              && req.customerInfo.Some? && Truthy(req.customerInfo.value.email) && Truthy(req.customerInfo.value.mobile)
              && req.shippingAddress.Some? && Truthy(req.shippingAddress.value.street)
              && Truthy(req.shippingAddress.value.city) && Truthy(req.shippingAddress.value.zipCode)
    ensures (req.items.None? || req.items.value == []) ==> r == Some(NoItems)
  {
    if req.items.None? || |req.items.value| == 0 then Some(NoItems)
    else if req.customerInfo.None? || !Truthy(req.customerInfo.value.email) || !Truthy(req.customerInfo.value.mobile)
    then Some(NoContact)
    else if req.shippingAddress.None? || !Truthy(req.shippingAddress.value.street)
            || !Truthy(req.shippingAddress.value.city) || !Truthy(req.shippingAddress.value.zipCode)
    then Some(NoAddress)
    else None
  }

  /** The checks run in order: the first failing one is reported. */
  lemma ValidationOrder(req: OrderRequest)
    ensures req.items.Some? && |req.items.value| > 0 &&
            (req.customerInfo.None? || !Truthy(req.customerInfo.value.email) || !Truthy(req.customerInfo.value.mobile))
            ==> Validate(req) == Some(NoContact)
    ensures req.items.Some? && |req.items.value| > 0 &&
            req.customerInfo.Some? && Truthy(req.customerInfo.value.email) && Truthy(req.customerInfo.value.mobile) &&
            (req.shippingAddress.None? || !Truthy(req.shippingAddress.value.street) ||
             !Truthy(req.shippingAddress.value.city) || !Truthy(req.shippingAddress.value.zipCode))
            ==> Validate(req) == Some(NoAddress)
  {
  }

  /** `paymentMethod === 'cod' ? 'pending' : 'completed'` */
  function PaymentStatusFor(paymentMethod: Option<string>): (s: string)
    ensures s == "pending" <==> paymentMethod == Some("cod")
    ensures s == "pending" || s == "completed"
  {
    if paymentMethod == Some("cod") then "pending" else "completed"
  }

  /** `ORD${Date.now()}` */
  function OrderNumber(now: nat): string
  {
    "ORD" + Text.NatToString(now)
  }

  /** Orders placed at different instants get different numbers. */
  lemma OrderNumbersDiffer(t1: nat, t2: nat)
    requires t1 != t2
    ensures OrderNumber(t1) != OrderNumber(t2)
  {
    if OrderNumber(t1) == OrderNumber(t2) {
      assert OrderNumber(t1)[3..] == Text.NatToString(t1);
      assert OrderNumber(t2)[3..] == Text.NatToString(t2);
      Text.NatToStringInjective(t1, t2);
    }
  }

  // -------------------------------------------------------- the line walk

  /** A line's snapshot, taken from the product as it stands. */
  function Snapshot(line: LineRequest, p: Catalog.Product): OrderItem
  {
    OrderItem(line.product, line.quantity, p.price, p.name, Catalog.FirstImage(p))
  }

  /** The product after the line's quantity is taken from its stock. */
  function Taken(p: Catalog.Product, quantity: int): Catalog.Product
  {
    p.(stock := p.stock - quantity)
  }

  /** Where the loop ends: all lines done, with the products, the snapshots
      and the total; or stopped by a line, with the products as saved so far. */
  datatype Walked =
    | Done(products: map<string, Catalog.Product>, items: seq<OrderItem>, total: real)
    | Stopped(status: Status, message: string, products: map<string, Catalog.Product>)

  /** The line a product lookup or stock check stops at, if this one does. */
  function LineFailure(products: map<string, Catalog.Product>, line: LineRequest): Option<(Status, string)>
  {
    if line.product !in products then Some((NotFound404, "Product not found: " + line.product))
    else if products[line.product].stock < line.quantity then
      Some((BadRequest400, "Insufficient stock for " + products[line.product].name))
    else None
  }

  /** The products after the line is taken: its product's stock lowered by the quantity. */
  function Advance(products: map<string, Catalog.Product>, line: LineRequest): map<string, Catalog.Product>
    requires line.product in products
  {
    products[line.product := Taken(products[line.product], line.quantity)]
  }

  /** What the line adds to the total: the stored price times the quantity. */
  function Amount(products: map<string, Catalog.Product>, line: LineRequest): real
    requires line.product in products
  {
    products[line.product].price * line.quantity as real
  }

  /** The `for (const item of items)` loop from the current state on. */
  function Walk(products: map<string, Catalog.Product>, lines: seq<LineRequest>,
                items: seq<OrderItem>, total: real): Walked
    decreases |lines|
  {
    if lines == [] then Done(products, items, total)
    else
      match LineFailure(products, lines[0])
      case Some(f) => Stopped(f.0, f.1, products)
      case None =>
        Walk(Advance(products, lines[0]), lines[1..],
             items + [Snapshot(lines[0], products[lines[0].product])], total + Amount(products, lines[0]))
  }

  /** One turn of the loop. */
  lemma WalkStep(products: map<string, Catalog.Product>, lines: seq<LineRequest>,
                 items: seq<OrderItem>, total: real)
    requires lines != []
    ensures LineFailure(products, lines[0]).Some? ==>
              Walk(products, lines, items, total) ==
              Stopped(LineFailure(products, lines[0]).value.0, LineFailure(products, lines[0]).value.1, products)
    ensures LineFailure(products, lines[0]).None? ==>
              && lines[0].product in products
              && products[lines[0].product].stock >= lines[0].quantity
              && Walk(products, lines, items, total) ==
                 Walk(Advance(products, lines[0]), lines[1..],
                      items + [Snapshot(lines[0], products[lines[0].product])], total + Amount(products, lines[0]))
  {
  }

  // ------------------------------------------------------ walk properties

  /** Σ price × quantity over the lines, at the given prices. */
  function LinesTotal(products: map<string, Catalog.Product>, lines: seq<LineRequest>): real
    decreases |lines|
  {
    if lines == [] then 0.0
    else
      (if lines[0].product in products then Amount(products, lines[0]) else 0.0)
      + LinesTotal(products, lines[1..])
  }

  /** The quantity the lines ask of one product. */
  function Demand(lines: seq<LineRequest>, id: string): int
    decreases |lines|
  {
    if lines == [] then 0
    else (if lines[0].product == id then lines[0].quantity else 0) + Demand(lines[1..], id)
  }

  /** Two product maps that differ at most in stock. */
  predicate SameButStock(a: map<string, Catalog.Product>, b: map<string, Catalog.Product>)
  {
    && a.Keys == b.Keys
    && forall id :: id in a ==> a[id] == b[id].(stock := a[id].stock)
  }

  lemma LinesTotalIgnoresStock(a: map<string, Catalog.Product>, b: map<string, Catalog.Product>, lines: seq<LineRequest>)
    requires SameButStock(a, b)
    ensures LinesTotal(a, lines) == LinesTotal(b, lines)
    decreases |lines|
  {
    if lines != [] {
      LinesTotalIgnoresStock(a, b, lines[1..]);
    }
  }

  /** A completed walk adds Σ stored price × quantity to the total. */
  lemma {:induction false} WalkDoneTotal(products: map<string, Catalog.Product>, lines: seq<LineRequest>,
                                         items: seq<OrderItem>, total: real)
    requires Walk(products, lines, items, total).Done?
    ensures Walk(products, lines, items, total).total == total + LinesTotal(products, lines)
    decreases |lines|
  {
    if lines != [] {
      WalkStep(products, lines, items, total);
      var next := Advance(products, lines[0]);
      WalkDoneTotal(next, lines[1..], items + [Snapshot(lines[0], products[lines[0].product])],
                    total + Amount(products, lines[0]));
      assert SameButStock(next, products);
      LinesTotalIgnoresStock(next, products, lines[1..]);
    }
  }

  /** A completed walk appends one snapshot per line, taken from the stored
      product as it stood when that line was reached. */
  lemma {:induction false} WalkDoneItems(products: map<string, Catalog.Product>, lines: seq<LineRequest>,
                                         items: seq<OrderItem>, total: real)
    requires Walk(products, lines, items, total).Done?
    ensures var w := Walk(products, lines, items, total);
            && |w.items| == |items| + |lines|
            && w.items[..|items|] == items
            && (forall k :: 0 <= k < |lines| ==>
                  (lines[k].product in products &&
                   w.items[|items| + k] == Snapshot(lines[k], products[lines[k].product])))
    decreases |lines|
  {
    if lines != [] {
      WalkStep(products, lines, items, total);
      var next := Advance(products, lines[0]);
      var items' := items + [Snapshot(lines[0], products[lines[0].product])];
      WalkDoneItems(next, lines[1..], items', total + Amount(products, lines[0]));
      var w := Walk(products, lines, items, total);
      forall k | 0 <= k < |lines|
        ensures lines[k].product in products && w.items[|items| + k] == Snapshot(lines[k], products[lines[k].product])
      {
        if k > 0 {
          assert lines[k] == lines[1..][k - 1];
          assert w.items[|items'| + (k - 1)] == Snapshot(lines[1..][k - 1], next[lines[1..][k - 1].product]);
        } else {
          assert w.items[..|items'|] == items';
        }
      }
      assert w.items[..|items|] == w.items[..|items'|][..|items|];
    }
  }

  /** A completed walk lowers each product's stock by the quantity its lines
      asked for and changes nothing else. */
  lemma {:induction false} WalkDoneStock(products: map<string, Catalog.Product>, lines: seq<LineRequest>,
                                         items: seq<OrderItem>, total: real)
    requires Walk(products, lines, items, total).Done?
    ensures var w := Walk(products, lines, items, total);
            && w.products.Keys == products.Keys
            && (forall id :: id in products ==> w.products[id] == Taken(products[id], Demand(lines, id)))
    decreases |lines|
  {
    if lines != [] {
      WalkStep(products, lines, items, total);
      var next := Advance(products, lines[0]);
      WalkDoneStock(next, lines[1..], items + [Snapshot(lines[0], products[lines[0].product])],
                    total + Amount(products, lines[0]));
    }
  }

  /** All three at once. */
  lemma WalkDone(products: map<string, Catalog.Product>, lines: seq<LineRequest>,
                 items: seq<OrderItem>, total: real)
    requires Walk(products, lines, items, total).Done?
    ensures var w := Walk(products, lines, items, total);
            && w.total == total + LinesTotal(products, lines)
            && |w.items| == |items| + |lines|
            && w.items[..|items|] == items
            && (forall k :: 0 <= k < |lines| ==>
                  (lines[k].product in products &&
                   w.items[|items| + k] == Snapshot(lines[k], products[lines[k].product])))
            && w.products.Keys == products.Keys
            && (forall id :: id in products ==> w.products[id] == Taken(products[id], Demand(lines, id)))
  {
    WalkDoneTotal(products, lines, items, total);
    WalkDoneItems(products, lines, items, total);
    WalkDoneStock(products, lines, items, total);
  }

  /** Walking the first j + 1 lines is taking the first line, then walking j more. */
  lemma WalkPrefixStep(products: map<string, Catalog.Product>, lines: seq<LineRequest>,
                       items: seq<OrderItem>, total: real, j: nat)
    requires j < |lines|
    requires LineFailure(products, lines[0]).None?
    ensures Walk(products, lines[..j + 1], items, total) ==
            Walk(Advance(products, lines[0]), lines[1..][..j],
                 items + [Snapshot(lines[0], products[lines[0].product])], total + Amount(products, lines[0]))
  {
    WalkStep(products, lines[..j + 1], items, total);
    assert lines[..j + 1][0] == lines[0];
    assert lines[..j + 1][1..] == lines[1..][..j];
  }

  /** A stopped walk stopped at some line j: the lines before it were all
      processed and saved, exactly as a walk over them alone would, and line
      j fails against the products as they were left. */
  lemma {:induction false} WalkStopped(products: map<string, Catalog.Product>, lines: seq<LineRequest>,
                                       items: seq<OrderItem>, total: real)
    requires Walk(products, lines, items, total).Stopped?
    ensures exists j :: 0 <= j < |lines| &&
              var before := Walk(products, lines[..j], items, total);
              && before.Done?
              && before.products == Walk(products, lines, items, total).products
              && LineFailure(before.products, lines[j]) ==
                   Some((Walk(products, lines, items, total).status, Walk(products, lines, items, total).message))
    decreases |lines|
  {
    var w := Walk(products, lines, items, total);
    WalkStep(products, lines, items, total);
    if LineFailure(products, lines[0]).Some? {
      assert lines[..0] == [];
      assert Walk(products, lines[..0], items, total) == Done(products, items, total);
    } else {
      var next := Advance(products, lines[0]);
      var items' := items + [Snapshot(lines[0], products[lines[0].product])];
      var total' := total + Amount(products, lines[0]);
      WalkStopped(next, lines[1..], items', total');
      var j :| 0 <= j < |lines[1..]| &&
               var before := Walk(next, lines[1..][..j], items', total');
               && before.Done?
               && before.products == w.products
               && LineFailure(before.products, lines[1..][j]) == Some((w.status, w.message));
      WalkPrefixStep(products, lines, items, total, j);
      assert lines[j + 1] == lines[1..][j];
    }
  }

  /** Stock never goes negative: the test is `stock < quantity`, so a line
      is only taken when the stock covers it (and equal stock leaves 0). */
  lemma {:induction false} WalkKeepsStockNonNegative(products: map<string, Catalog.Product>, lines: seq<LineRequest>,
                                                     items: seq<OrderItem>, total: real)
    requires forall id :: id in products ==> products[id].stock >= 0
    ensures forall id :: id in Walk(products, lines, items, total).products ==>
              Walk(products, lines, items, total).products[id].stock >= 0
    ensures forall l: LineRequest | l.product in products && products[l.product].stock == l.quantity ::
              LineFailure(products, l).None? && Advance(products, l)[l.product].stock == 0
    decreases |lines|
  {
    if lines != [] {
      WalkStep(products, lines, items, total);
      if LineFailure(products, lines[0]).None? {
        var next := Advance(products, lines[0]);
        assert forall id :: id in next ==> next[id].stock >= 0;
        WalkKeepsStockNonNegative(next, lines[1..], items + [Snapshot(lines[0], products[lines[0].product])],
                                  total + Amount(products, lines[0]));
      }
    }
  }

  // -------------------------------------------------------- createOrder

  /** What `createOrder` leaves behind: the products collection, the order
      stored (if any) and the response. */
  datatype Outcome = Outcome(products: map<string, Catalog.Product>, order: Option<Order>, response: Response)

  function NewOrder(req: OrderRequest, items: seq<OrderItem>, total: real, now: nat): Order
    requires req.customerInfo.Some? && req.shippingAddress.Some?
  {
    var c := req.customerInfo.value;
    Order(OrderNumber(now), items, total, req.shippingAddress.value, req.paymentMethod,
          CustomerInfo(c.firstName, c.lastName, c.email, c.mobile),
          "pending", PaymentStatusFor(req.paymentMethod))
  }

  /** `createOrder` as written. `saved` says whether `order.save()`
      succeeds; when it throws, the `catch` answers 500 and the stock the
      loop already saved stays taken. */
  function PlaceOrder(products: map<string, Catalog.Product>, req: OrderRequest, now: nat, newId: string, saved: bool): Outcome
  {
    match Validate(req)
    case Some(msg) => Outcome(products, None, Error(BadRequest400, msg))
    case None =>
      match Walk(products, req.items.value, [], 0.0)
      case Stopped(status, msg, ps) => Outcome(ps, None, Error(status, msg))
      case Done(ps, items, total) =>
        if !saved then Outcome(ps, None, Error(ServerError500, CreateFailed))
        else
          var order := NewOrder(req, items, total, now);
          Outcome(ps, Some(order), Created(newId, order.orderNumber, total, "pending"))
  }

  /** A stored order: status 'pending', payment 'pending' exactly for cash on
      delivery, total Σ stored price × quantity (the client's prices and
      total play no part), one snapshot per line. */
  lemma PlacedOrder(products: map<string, Catalog.Product>, req: OrderRequest, now: nat, newId: string, saved: bool)
    requires PlaceOrder(products, req, now, newId, saved).order.Some?
    ensures var o := PlaceOrder(products, req, now, newId, saved).order.value;
            && Validate(req).None?
            && o.status == "pending"
            && (o.paymentStatus == "pending" <==> req.paymentMethod == Some("cod"))
            && o.totalAmount == LinesTotal(products, req.items.value)
            && |o.items| == |req.items.value|
            && (forall k :: 0 <= k < |o.items| ==>
                  (req.items.value[k].product in products &&
                   o.items[k] == Snapshot(req.items.value[k], products[req.items.value[k].product])))
            && (forall id :: id in products ==>
                  (id in PlaceOrder(products, req, now, newId, saved).products &&
                   PlaceOrder(products, req, now, newId, saved).products[id].stock ==
                   products[id].stock - Demand(req.items.value, id)))
            && PlaceOrder(products, req, now, newId, saved).response.Created?
  {
    WalkDone(products, req.items.value, [], 0.0);
    var w := Walk(products, req.items.value, [], 0.0);
    assert forall k :: 0 <= k < |w.items| ==> w.items[k] == w.items[0 + k];
  }

  /** A rejected request reads and writes nothing. */
  lemma InvalidRequestChangesNothing(products: map<string, Catalog.Product>, req: OrderRequest, now: nat, newId: string, saved: bool)
    requires Validate(req).Some?
    ensures PlaceOrder(products, req, now, newId, saved) == Outcome(products, None, Error(BadRequest400, Validate(req).value))
  {
  }

  /** Every product of `after` is the one in `products` with the stock that
      the first j lines demand taken off. */
  ghost predicate TakenByPrefix(products: map<string, Catalog.Product>, after: map<string, Catalog.Product>,
                                lines: seq<LineRequest>, j: nat)
    requires j <= |lines|
  {
    forall id :: id in products ==> id in after && after[id] == Taken(products[id], Demand(lines[..j], id))
  }

  /** A failed order stores nothing but keeps the stock already taken: a
      line failing part-way leaves the products of a completed walk over the
      lines before it, and an order whose save fails (the 500 of the
      `catch`) leaves every line's stock taken. */
  lemma FailedOrderKeepsEarlierDecrements(products: map<string, Catalog.Product>, req: OrderRequest, now: nat, newId: string, saved: bool)
    requires Validate(req).None?
    requires PlaceOrder(products, req, now, newId, saved).response.Error?
    ensures PlaceOrder(products, req, now, newId, saved).order.None?
    ensures exists j: nat :: j <= |req.items.value| &&
              TakenByPrefix(products, PlaceOrder(products, req, now, newId, saved).products, req.items.value, j)
  {
    var lines := req.items.value;
    var after := PlaceOrder(products, req, now, newId, saved).products;
    if Walk(products, lines, [], 0.0).Done? {
      FailedSaveKeepsAllDecrements(products, req, now, newId, saved);
      assert lines[..|lines|] == lines;
      assert TakenByPrefix(products, after, lines, |lines|);
    } else {
      StoppedWalkKeepsEarlierDecrements(products, lines);
      assert after == Walk(products, lines, [], 0.0).products;
    }
  }

  /** A walk that stops at line j leaves the products of a completed walk
      over the lines before j. */
  lemma StoppedWalkKeepsEarlierDecrements(products: map<string, Catalog.Product>, lines: seq<LineRequest>)
    requires Walk(products, lines, [], 0.0).Stopped?
    ensures exists j: nat :: j <= |lines| && TakenByPrefix(products, Walk(products, lines, [], 0.0).products, lines, j)
  {
    WalkStopped(products, lines, [], 0.0);
    var j :| 0 <= j < |lines| &&
             var before := Walk(products, lines[..j], [], 0.0);
             && before.Done?
             && before.products == Walk(products, lines, [], 0.0).products
             && LineFailure(before.products, lines[j]) ==
                  Some((Walk(products, lines, [], 0.0).status, Walk(products, lines, [], 0.0).message));
    WalkDoneStock(products, lines[..j], [], 0.0);
    assert TakenByPrefix(products, Walk(products, lines, [], 0.0).products, lines, j);
  }

  /** A walk stops only at a lookup (404) or a stock check (400). */
  lemma {:induction false} WalkStopsWithClientError(products: map<string, Catalog.Product>, lines: seq<LineRequest>,
                                                    items: seq<OrderItem>, total: real)
    requires Walk(products, lines, items, total).Stopped?
    ensures Walk(products, lines, items, total).status in {NotFound404, BadRequest400}
    decreases |lines|
  {
    WalkStep(products, lines, items, total);
    if LineFailure(products, lines[0]).None? {
      WalkStopsWithClientError(Advance(products, lines[0]), lines[1..],
                               items + [Snapshot(lines[0], products[lines[0].product])],
                               total + Amount(products, lines[0]));
    }
  }

  /** The 500 of the `catch` comes only from a failed `order.save()` after
      every line went through, and then every line's stock stays taken. */
  lemma FailedSaveKeepsAllDecrements(products: map<string, Catalog.Product>, req: OrderRequest, now: nat, newId: string, saved: bool)
    requires Validate(req).None?
    ensures PlaceOrder(products, req, now, newId, saved).response.Error? &&
            PlaceOrder(products, req, now, newId, saved).response.status == ServerError500 <==>
              !saved && Walk(products, req.items.value, [], 0.0).Done?
    ensures !saved && Walk(products, req.items.value, [], 0.0).Done? ==>
              && PlaceOrder(products, req, now, newId, saved).order.None?
              && forall id :: id in products ==>
                   id in PlaceOrder(products, req, now, newId, saved).products &&
                   PlaceOrder(products, req, now, newId, saved).products[id] ==
                     Taken(products[id], Demand(req.items.value, id))
  {
    var w := Walk(products, req.items.value, [], 0.0);
    if w.Stopped? {
      WalkStopsWithClientError(products, req.items.value, [], 0.0);
    } else {
      WalkDone(products, req.items.value, [], 0.0);
    }
  }

  /** An example of the partial failure: with 5 in stock for "a", the cart
      [2 × "a", 1 × "missing"] is answered 404, no order is stored, and "a"
      is left with 3. */
  lemma PartialFailureExample(a: Catalog.Product)
    requires a.id == "a" && a.stock == 5
    ensures var req := OrderRequest(Some([LineRequest("a", 2, 0.0, None, None), LineRequest("missing", 1, 0.0, None, None)]),
                                    Some(Address(Some("s"), Some("c"), Some("z"), None)), None,
                                    Some(CustomerInfo(None, None, Some("e"), Some("m"))), None);
            var out := PlaceOrder(map["a" := a], req, 0, "o", true);
            && out.response == Error(NotFound404, "Product not found: missing")
            && out.order.None?
            && out.products["a"].stock == 3
  {
    var lines := [LineRequest("a", 2, 0.0, None, None), LineRequest("missing", 1, 0.0, None, None)];
    assert lines[1..][1..] == [];
  }

  /** A product listed twice is checked the second time against the stock
      the first line left: 3 in stock and two lines of 2 fail on the second
      line, with 1 left. */
  lemma RepeatedProductSeesReducedStock(a: Catalog.Product)
    requires a.id == "a" && a.stock == 3
    ensures var lines := [LineRequest("a", 2, 0.0, None, None), LineRequest("a", 2, 0.0, None, None)];
            var w := Walk(map["a" := a], lines, [], 0.0);
            && w == Stopped(BadRequest400, "Insufficient stock for " + a.name, w.products)
            && w.products["a"].stock == 1
  {
    var lines := [LineRequest("a", 2, 0.0, None, None), LineRequest("a", 2, 0.0, None, None)];
    assert lines[1..][1..] == [];
  }

  // ------------------------------------------------------- corrected order

  /** The evidently intended `createOrder`: every line is checked first and
      stock is taken only when the whole order can be placed. */
  function PlaceOrderAtomic(products: map<string, Catalog.Product>, req: OrderRequest, now: nat, newId: string, saved: bool): (out: Outcome)
    ensures out.order.None? ==> out.products == products
    ensures out.order.Some? ==> out == PlaceOrder(products, req, now, newId, saved)
  {
    var written := PlaceOrder(products, req, now, newId, saved);
    if written.order.Some? then written
    else Outcome(products, None, written.response)
  }

  /** Both agree on every response; they differ only in the stock a failed order leaves. */
  lemma AtomicAgreesOnResponses(products: map<string, Catalog.Product>, req: OrderRequest, now: nat, newId: string, saved: bool)
    ensures PlaceOrderAtomic(products, req, now, newId, saved).response == PlaceOrder(products, req, now, newId, saved).response
    ensures PlaceOrderAtomic(products, req, now, newId, saved).order == PlaceOrder(products, req, now, newId, saved).order
  {
  }

  // ---------------------------------------------------------------- service

  class OrderService {
    var products: map<string, Catalog.Product>
    var orders: map<string, Order>

    constructor (products: map<string, Catalog.Product>)
      ensures this.products == products && orders == map[]
    {
      this.products := products;
      orders := map[];
    }

    /** `createOrder`. `now` is `Date.now()`; `newId` is the id the database
        gives the new document. */
    method CreateOrder(req: OrderRequest, now: nat, newId: string, saved: bool) returns (res: Response)
      requires newId !in orders
      modifies this
      ensures var out := PlaceOrder(old(products), req, now, newId, saved);
              && res == out.response
              && products == out.products
              && (out.order.None? ==> orders == old(orders))
              && (out.order.Some? ==> orders == old(orders)[newId := out.order.value])
    {
      if req.items.None? || |req.items.value| == 0 {
        return Error(BadRequest400, NoItems);
      }
      if req.customerInfo.None? || !Truthy(req.customerInfo.value.email) || !Truthy(req.customerInfo.value.mobile) {
        return Error(BadRequest400, NoContact);
      }
      if req.shippingAddress.None? || !Truthy(req.shippingAddress.value.street)
         || !Truthy(req.shippingAddress.value.city) || !Truthy(req.shippingAddress.value.zipCode) {
        return Error(BadRequest400, NoAddress);
      }
      assert Validate(req).None?;
      ghost var start := products;
      var lines := req.items.value;
      var totalAmount := 0.0;
      var orderItems: seq<OrderItem> := [];
      var stored := products;
      var i := 0;
      while i < |lines|
        invariant 0 <= i <= |lines|
        invariant Walk(start, lines, [], 0.0) == Walk(stored, lines[i..], orderItems, totalAmount)
        invariant products == stored && start == old(products) && orders == old(orders)
      {
        var line := lines[i];
        assert lines[i..][0] == line && lines[i..][1..] == lines[i + 1..];
        WalkStep(stored, lines[i..], orderItems, totalAmount);
        if line.product !in stored {
          assert PlaceOrder(start, req, now, newId, saved) == Outcome(stored, None, Error(NotFound404, "Product not found: " + line.product));
          return Error(NotFound404, "Product not found: " + line.product);
        }
        var product := stored[line.product];
        if product.stock < line.quantity {
          assert PlaceOrder(start, req, now, newId, saved) == Outcome(stored, None, Error(BadRequest400, "Insufficient stock for " + product.name));
          return Error(BadRequest400, "Insufficient stock for " + product.name);
        }
        assert stored[line.product := product.(stock := product.stock - line.quantity)] == Advance(stored, line);
        totalAmount := totalAmount + Amount(stored, line);  // product.price * item.quantity
        orderItems := orderItems + [Snapshot(line, product)];
        stored := stored[line.product := product.(stock := product.stock - line.quantity)];
        products := stored;  // product.save()
        i := i + 1;
      }
      assert lines[i..] == [];
      assert Walk(start, lines, [], 0.0) == Done(products, orderItems, totalAmount);
      if !saved {
        assert PlaceOrder(start, req, now, newId, saved) == Outcome(products, None, Error(ServerError500, CreateFailed));
        return Error(ServerError500, CreateFailed);
      }
      var order := NewOrder(req, orderItems, totalAmount, now);
      assert PlaceOrder(start, req, now, newId, saved) == Outcome(products, Some(order), Created(newId, order.orderNumber, totalAmount, "pending"));
      orders := orders[newId := order];
      res := Created(newId, order.orderNumber, totalAmount, "pending");
    }

    /** The corrected `createOrder`: the lines are walked over a copy of the
        products, which is written back only when every line passed. */
    method CreateOrderAtomic(req: OrderRequest, now: nat, newId: string, saved: bool) returns (res: Response)
      requires newId !in orders
      modifies this
      ensures var out := PlaceOrderAtomic(old(products), req, now, newId, saved);
              && res == out.response
              && products == out.products
              && (out.order.None? ==> orders == old(orders))
              && (out.order.Some? ==> orders == old(orders)[newId := out.order.value])
      ensures res.Error? ==> products == old(products)
    {
      var v := Validate(req);
      if v.Some? {
        return Error(BadRequest400, v.value);
      }
      var lines := req.items.value;
      var working := products;
      var totalAmount := 0.0;
      var orderItems: seq<OrderItem> := [];
      var i := 0;
      while i < |lines|
        invariant 0 <= i <= |lines|
        invariant Walk(products, lines, [], 0.0) == Walk(working, lines[i..], orderItems, totalAmount)
        invariant products == old(products) && orders == old(orders)
      {
        var line := lines[i];
        assert lines[i..][0] == line && lines[i..][1..] == lines[i + 1..];
        WalkStep(working, lines[i..], orderItems, totalAmount);
        var failure := LineFailure(working, line);
        if failure.Some? {
          assert PlaceOrder(products, req, now, newId, saved) == Outcome(working, None, Error(failure.value.0, failure.value.1));
          assert PlaceOrderAtomic(products, req, now, newId, saved) == Outcome(products, None, Error(failure.value.0, failure.value.1));
          return Error(failure.value.0, failure.value.1);
        }
        totalAmount := totalAmount + Amount(working, line);
        orderItems := orderItems + [Snapshot(line, working[line.product])];
        working := Advance(working, line);
        i := i + 1;
      }
      assert lines[i..] == [];
      if !saved {
        assert PlaceOrder(products, req, now, newId, saved) == Outcome(working, None, Error(ServerError500, CreateFailed));
        return Error(ServerError500, CreateFailed);
      }
      var order := NewOrder(req, orderItems, totalAmount, now);
      assert PlaceOrder(products, req, now, newId, saved) == Outcome(working, Some(order), Created(newId, order.orderNumber, totalAmount, "pending"));
      assert PlaceOrderAtomic(products, req, now, newId, saved) == PlaceOrder(products, req, now, newId, saved);
      products := working;
      orders := orders[newId := order];
      res := Created(newId, order.orderNumber, totalAmount, "pending");
    }

    /** `updateOrderStatus`: only `status` changes, to whatever was sent; an
        unknown id is answered 404. */
    method UpdateOrderStatus(id: string, status: string) returns (res: Response)
      modifies this
      ensures id !in old(orders) ==> res == Error(NotFound404, "Order not found") && orders == old(orders)
      ensures id in old(orders) ==> orders == old(orders)[id := old(orders)[id].(status := status)]
                                    && res == Updated(orders[id])
      ensures products == old(products)
    {
      if id !in orders {
        return Error(NotFound404, "Order not found");
      }
      orders := orders[id := orders[id].(status := status)];
      res := Updated(orders[id]);
    }
  }
}
