/** The order controller: the generated order number, order placement (the
    validation loop that snapshots every line, the pricing rule, the order
    insert, the stock decrements and the cart clear), the owner-or-admin
    read guard and the admin status overwrite. */
module Orders {
  import opened Common
  import opened Text
  import opened Pricing
  import opened Store
  import opened Cart

  // ---------------------------------------------------------------------
  // Order numbers: "ORD-" + millisecond timestamp + "-" + 3 random digits

  /** `Math.floor(Math.random() * 1000).toString().padStart(3, '0')`. */
  function Pad3(random: nat): (s: string)
    requires random < 1000
    ensures |s| == 3 && AllDigits(s) && ParseDecimal(s) == random
  {
    var d := NatToDecimal(random);
    ParseNatToDecimal(random);
    if |d| < 3 then
      assert PadStart(d, 3, '0') == Repeat('0', 3 - |d|) + d;
      ParseLeadingZeros(3 - |d|, d);
      PadStart(d, 3, '0')
    else PadStart(d, 3, '0')
  }

  /** `generateOrderNumber` with `Date.now()` and the random draw as inputs. */
  function GenerateOrderNumber(timestamp: nat, random: nat): string
    requires random < 1000
  {
    "ORD-" + NatToDecimal(timestamp) + "-" + Pad3(random)
  }

  /** Reads the timestamp and the random suffix back out of an order number. */
  function ParseOrderNumber(s: string): Option<(nat, nat)> {
    var parts := Split(s, '-');
    if |parts| == 3 && parts[0] == "ORD"
       && parts[1] != [] && AllDigits(parts[1])
       && |parts[2]| == 3 && AllDigits(parts[2])
    then Some((ParseDecimal(parts[1]), ParseDecimal(parts[2])))
    else None
  }

  /** Every generated number has the fixed shape and gives back both the
      timestamp and the random value. */
  lemma OrderNumberRoundTrip(timestamp: nat, random: nat)
    requires random < 1000
    ensures ParseOrderNumber(GenerateOrderNumber(timestamp, random)) == Some((timestamp, random))
  {
    var t, r := NatToDecimal(timestamp), Pad3(random);
    NoDashInDigits(t);
    NoDashInDigits(r);
    assert '-' !in "ORD";
    assert GenerateOrderNumber(timestamp, random) == "ORD" + ['-'] + (t + ['-'] + r);
    SplitAround("ORD", '-', t + ['-'] + r);
    SplitAround(t, '-', r);
    assert IndexOf(r, '-') == None;
    assert Split(GenerateOrderNumber(timestamp, random), '-') == ["ORD", t, r];
    ParseNatToDecimal(timestamp);
  }

  lemma NoDashInDigits(s: string)
    requires AllDigits(s)
    ensures '-' !in s
  {
    assert forall i :: 0 <= i < |s| ==> IsDigit(s[i]);
  }

  // ---------------------------------------------------------------------
  // Order placement as a specification

  /** One requested line of an order. */
  datatype LineRequest = LineRequest(productId: int, quantity: int)

  /** `images: { where: { isPrimary: true }, take: 1 }` then
      `images[0]?.url || null`: the url of the first primary image; none, or
      an empty url, gives null. */
  function PrimaryImage(images: seq<Image>): (r: Option<string>)
    ensures r.Some? ==> r.value != "" && exists i :: 0 <= i < |images| && images[i].isPrimary && images[i].url == r.value
    ensures (forall i :: 0 <= i < |images| ==> !images[i].isPrimary) ==> r.None?
    ensures forall k :: 0 <= k < |images| && images[k].isPrimary && (forall j :: 0 <= j < k ==> !images[j].isPrimary) ==>
              r == (if images[k].url == "" then None else Some(images[k].url))
  {
    if images == [] then None
    else if images[0].isPrimary then (if images[0].url == "" then None else Some(images[0].url))
    else PrimaryImage(images[1..])
  }

  /** The order item remembered for a product bought `quantity` times. */
  function Snapshot(p: Product, quantity: int): OrderItem {
    OrderItem(p.id, p.name, PrimaryImage(p.images), p.UnitPrice(), quantity)
  }

  /** The checks of one line: the product exists and has enough stock. */
  function CheckLine(products: map<int, Product>, line: LineRequest): (r: Result<OrderItem, Error>)
    ensures r.Ok? <==> line.productId in products && products[line.productId].stock >= line.quantity
    ensures r.Ok? ==> r.value == Snapshot(products[line.productId], line.quantity)
    ensures line.productId !in products ==> r == Err(ProductNotFound(line.productId))
    ensures line.productId in products && products[line.productId].stock < line.quantity ==>
              r == Err(InsufficientStockFor(products[line.productId].name))
  {
    if line.productId !in products then Err(ProductNotFound(line.productId))
    else if products[line.productId].stock < line.quantity then Err(InsufficientStockFor(products[line.productId].name))
    else Ok(Snapshot(products[line.productId], line.quantity))
  }

  /** The validation loop: the first failing line decides the error, else the
      snapshots of all lines in request order. */
  function Validate(products: map<int, Product>, lines: seq<LineRequest>): Result<seq<OrderItem>, Error>
    decreases |lines|
  {
    if lines == [] then Ok([])
    else match CheckLine(products, lines[0])
      case Err(e) => Err(e)
      case Ok(item) =>
        match Validate(products, lines[1..])
        case Err(e) => Err(e)
        case Ok(rest) => Ok([item] + rest)
  }

  /** Items validated so far, in front of the verdict on the rest. */
  function Prepend(done: seq<OrderItem>, rest: Result<seq<OrderItem>, Error>): Result<seq<OrderItem>, Error> {
    match rest
    case Err(e) => Err(e)
    case Ok(items) => Ok(done + items)
  }

  /** One more validated line moves from the rest to the items done. */
  lemma PrependStep(products: map<int, Product>, done: seq<OrderItem>, lines: seq<LineRequest>, i: nat)
    requires i < |lines| && CheckLine(products, lines[i]).Ok?
    ensures Prepend(done, Validate(products, lines[i..])) ==
            Prepend(done + [CheckLine(products, lines[i]).value], Validate(products, lines[i + 1..]))
  {
    assert lines[i..][0] == lines[i];
    assert lines[i..][1..] == lines[i + 1..];
    match Validate(products, lines[i + 1..])
    case Err(_) =>
    case Ok(rest) =>
      assert done + ([CheckLine(products, lines[i]).value] + rest) == done + [CheckLine(products, lines[i]).value] + rest;
  }

  /** A line that fails, after the lines done so far passed, decides the
      verdict on the whole request. */
  lemma ValidateFirstErrorAt(products: map<int, Product>, done: seq<OrderItem>, lines: seq<LineRequest>, i: nat)
    requires i < |lines| && CheckLine(products, lines[i]).Err?
    ensures Prepend(done, Validate(products, lines[i..])) == Err(CheckLine(products, lines[i]).error)
  {
    assert lines[i..][0] == lines[i];
  }

  /** Validation succeeds exactly when every line passes its checks, and then
      yields one snapshot per line, in order. */
  lemma {:induction false} ValidateOk(products: map<int, Product>, lines: seq<LineRequest>)
    ensures Validate(products, lines).Ok? <==> forall i :: 0 <= i < |lines| ==> CheckLine(products, lines[i]).Ok?
    ensures Validate(products, lines).Ok? ==>
              |Validate(products, lines).value| == |lines|
              && forall i :: 0 <= i < |lines| ==>
                   Validate(products, lines).value[i] == Snapshot(products[lines[i].productId], lines[i].quantity)
    decreases |lines|
  {
    if lines != [] {
      ValidateOk(products, lines[1..]);
      assert forall i :: 1 <= i < |lines| ==> lines[i] == lines[1..][i - 1];
      if !CheckLine(products, lines[0]).Ok? {
        assert !(forall i :: 0 <= i < |lines| ==> CheckLine(products, lines[i]).Ok?);
      }
    }
  }

  /** A failing line whose predecessors all pass decides the error. */
  lemma {:induction false} ValidateFirstError(products: map<int, Product>, lines: seq<LineRequest>, k: nat)
    requires k < |lines| && CheckLine(products, lines[k]).Err?
    requires forall i :: 0 <= i < k ==> CheckLine(products, lines[i]).Ok?
    ensures Validate(products, lines) == Err(CheckLine(products, lines[k]).error)
    decreases k
  {
    if k > 0 {
      assert lines[1..][k - 1] == lines[k];
      ValidateFirstError(products, lines[1..], k - 1);
    }
  }

  /** Σ price × quantity over the snapshots (defined from the last one, the
      order the loop adds them in). */
  function ItemsPrice(items: seq<OrderItem>): Cents {
    if items == [] then 0 else ItemsPrice(items[..|items| - 1]) + items[|items| - 1].price * items[|items| - 1].quantity
  }

  /** The request check, validation and snapshots of `createOrder`. */
  function PlanOrder(products: map<int, Product>, items: Option<seq<LineRequest>>): (r: Result<seq<OrderItem>, Error>)
    ensures items.None? || items.value == [] ==> r == Err(NoOrderItems)
    ensures items.Some? && items.value != [] ==> r == Validate(products, items.value)
  {
    if items.None? || |items.value| == 0 then Err(NoOrderItems) else Validate(products, items.value)
  }

  /** The order row `createOrder` inserts. */
  function NewOrder(id: int, userId: int, items: seq<OrderItem>, details: OrderDetails, timestamp: nat, random: nat): (o: Order)
    requires random < 1000
    ensures o.id == id && o.userId == userId && o.items == items && o.details == details && o.status == PENDING
    ensures ParseOrderNumber(o.orderNumber) == Some((timestamp, random))
    ensures var t := ComputeTotals(ItemsPrice(items));
      o.itemsPrice == t.itemsPrice && o.taxPrice == t.taxPrice
      && o.shippingPrice == t.shippingPrice && o.totalPrice == t.totalPrice
  {
    OrderNumberRoundTrip(timestamp, random);
    var t := ComputeTotals(ItemsPrice(items));
    Order(id, GenerateOrderNumber(timestamp, random), userId, items, details,
          t.itemsPrice, t.taxPrice, t.shippingPrice, t.totalPrice, PENDING)
  }

  // ---------------------------------------------------------------------
  // Stock decrements

  function Decrement(products: map<int, Product>, line: LineRequest): map<int, Product> {
    if line.productId in products then
      products[line.productId := products[line.productId].(stock := products[line.productId].stock - line.quantity)]
    else products
  }

  /** The stock after the decrement loop has run over `lines`. */
  function ApplyDecrements(products: map<int, Product>, lines: seq<LineRequest>): (r: map<int, Product>)
    ensures r.Keys == products.Keys
    ensures forall id :: id in r ==> r[id] == products[id].(stock := r[id].stock)
  {
    if lines == [] then products
    else Decrement(ApplyDecrements(products, lines[..|lines| - 1]), lines[|lines| - 1])
  }

  /** Decrements change stock only, so keys, ids and cart references stay. */
  lemma DecrementsKeepShape(products: map<int, Product>, nextId: int, cart: seq<CartLine>, lines: seq<LineRequest>)
    requires ProductsKeyed(products, nextId) && CartRefersTo(cart, products)
    ensures ProductsKeyed(ApplyDecrements(products, lines), nextId)
    ensures CartRefersTo(cart, ApplyDecrements(products, lines))
  {
    var r := ApplyDecrements(products, lines);
    forall id | id in r ensures r[id].id == id && id < nextId {
      assert r[id].id == products[id].id;
    }
  }

  /** The total quantity the lines request of one product. */
  function QuantityOrdered(lines: seq<LineRequest>, productId: int): int {
    if lines == [] then 0
    else QuantityOrdered(lines[..|lines| - 1], productId)
         + (if lines[|lines| - 1].productId == productId then lines[|lines| - 1].quantity else 0)
  }

  /** Every product's stock drops by exactly the quantity ordered of it. */
  lemma {:induction false} StockAfterOrder(products: map<int, Product>, lines: seq<LineRequest>, id: int)
    requires id in products
    ensures ApplyDecrements(products, lines)[id].stock == products[id].stock - QuantityOrdered(lines, id)
  {
    if lines != [] {
      StockAfterOrder(products, lines[..|lines| - 1], id);
    }
  }

  /** With distinct product ids, a product's ordered quantity is that of its
      one line. */
  lemma {:induction false} QuantityOfDistinct(lines: seq<LineRequest>, id: int, k: int)
    requires forall i, j :: 0 <= i < j < |lines| ==> lines[i].productId != lines[j].productId
    requires (0 <= k < |lines| && lines[k].productId == id) || (k == -1 && forall i :: 0 <= i < |lines| ==> lines[i].productId != id)
    ensures QuantityOrdered(lines, id) == if k == -1 then 0 else lines[k].quantity
  {
    if lines != [] {
      var init := lines[..|lines| - 1];
      if k == |lines| - 1 {
        QuantityOfDistinct(init, id, -1);
      } else {
        QuantityOfDistinct(init, id, k);
      }
    }
  }

  /** When every stock starts non-negative, a validated order whose lines name
      distinct products leaves every stock non-negative. */
  lemma DistinctLinesKeepStockNonNegative(products: map<int, Product>, lines: seq<LineRequest>)
    requires forall id :: id in products ==> products[id].stock >= 0
    requires forall i, j :: 0 <= i < j < |lines| ==> lines[i].productId != lines[j].productId
    requires Validate(products, lines).Ok?
    ensures forall id :: id in ApplyDecrements(products, lines) ==> ApplyDecrements(products, lines)[id].stock >= 0
  {
    ValidateOk(products, lines);
    forall id | id in products ensures ApplyDecrements(products, lines)[id].stock >= 0 {
      StockAfterOrder(products, lines, id);
      if k :| 0 <= k < |lines| && lines[k].productId == id {
        QuantityOfDistinct(lines, id, k);
        assert CheckLine(products, lines[k]).Ok?;
      } else {
        QuantityOfDistinct(lines, id, -1);
      }
    }
  }

  /** Each line is checked against the stock before any decrement, so two
      lines of the same product can together take more than there is. */
  lemma DuplicateLinesOversell(p: Product)
    requires p.id == 1 && p.stock == 3
    ensures var lines := [LineRequest(1, 2), LineRequest(1, 2)];
      Validate(map[1 := p], lines).Ok? && ApplyDecrements(map[1 := p], lines)[1].stock == -1
  {
    var lines := [LineRequest(1, 2), LineRequest(1, 2)];
    assert lines[1..][1..] == [];
    assert lines[..1][..0] == [];
    StockAfterOrder(map[1 := p], lines, 1);
  }

  /** A product of 60.00 on sale at 50.00 bought twice: 100.00 of items is
      not above the threshold, so $10.00 shipping is charged. */
  lemma PlacementExample(p: Product)
    requires p.id == 1 && p.price == 6000 && p.salePrice == Some(5000) && p.stock == 5
    ensures var plan := PlanOrder(map[1 := p], Some([LineRequest(1, 2)]));
      && plan.Ok? && |plan.value| == 1 && plan.value[0].price == 5000
      && ComputeTotals(ItemsPrice(plan.value)) == Totals(10000, 1000.0, 1000, 12000.0)
  {
    var plan := PlanOrder(map[1 := p], Some([LineRequest(1, 2)]));
    assert [LineRequest(1, 2)][1..] == [];
    assert plan.value == [Snapshot(p, 2)];
    assert plan.value[..0] == [];
  }

  // ---------------------------------------------------------------------
  // The controller methods

  /** The first loop of `createOrder`: checks each line against the stored
      products, stops at the first failure, and otherwise returns the
      snapshots in request order with the accumulated items price. */
  method ValidateItems(products: map<int, Product>, lines: seq<LineRequest>)
    returns (r: Result<seq<OrderItem>, Error>, itemsPrice: Cents)
    ensures r == Validate(products, lines)
    ensures r.Ok? ==> itemsPrice == ItemsPrice(r.value)
  {
    itemsPrice := 0;
    var orderItems: seq<OrderItem> := [];
    var i := 0;
    assert lines[0..] == lines;
    match Validate(products, lines) {
      case Err(_) =>
      case Ok(v) => assert [] + v == v;
    }
    while i < |lines|
      invariant 0 <= i <= |lines|
      invariant Validate(products, lines) == Prepend(orderItems, Validate(products, lines[i..]))
      invariant itemsPrice == ItemsPrice(orderItems)
    {
      var line := lines[i];
      if line.productId !in products {
        ValidateFirstErrorAt(products, orderItems, lines, i);
        return Err(ProductNotFound(line.productId)), itemsPrice;
      }
      var product := products[line.productId];
      if product.stock < line.quantity {
        ValidateFirstErrorAt(products, orderItems, lines, i);
        return Err(InsufficientStockFor(product.name)), itemsPrice;
      }
      var price := product.UnitPrice();
      itemsPrice := itemsPrice + price * line.quantity;
      var item := OrderItem(product.id, product.name, PrimaryImage(product.images), price, line.quantity);
      PrependStep(products, orderItems, lines, i);
      ghost var prev := orderItems;
      orderItems := orderItems + [item];
      assert orderItems[..|orderItems| - 1] == prev;
      i := i + 1;
    }
    assert Validate(products, lines[i..]) == Ok([]);
    assert orderItems + [] == orderItems;
    r := Ok(orderItems);
  }

  lemma NewOrderFields(id: int, userId: int, items: seq<OrderItem>, details: OrderDetails,
                       timestamp: nat, random: nat, itemsPrice: Cents)
    requires random < 1000 && itemsPrice == ItemsPrice(items)
    ensures var t := ComputeTotals(itemsPrice);
      NewOrder(id, userId, items, details, timestamp, random) ==
      Order(id, GenerateOrderNumber(timestamp, random), userId, items, details,
            t.itemsPrice, t.taxPrice, t.shippingPrice, t.totalPrice, PENDING)
  {
  }

  lemma InsertKeepsOrdersKeyed(orders: map<int, Order>, id: int, o: Order)
    requires OrdersKeyed(orders, id) && o.id == id
    ensures OrdersKeyed(orders[id := o], id + 1)
  {
  }

  /** The second loop of `createOrder`: one decrement per requested line. */
  method DecrementStock(shop: Shop, lines: seq<LineRequest>)
    modifies shop`products
    ensures shop.products == ApplyDecrements(old(shop.products), lines)
  {
    ghost var before := shop.products;
    var j := 0;
    while j < |lines|
      invariant 0 <= j <= |lines|
      invariant shop.products == ApplyDecrements(before, lines[..j])
    {
      assert lines[..j + 1][..j] == lines[..j];
      shop.products := Decrement(shop.products, lines[j]);
      j := j + 1;
    }
    assert lines[..j] == lines;
  }

  /** `prisma.order.create`: the new row under the next id. */
  method InsertOrder(shop: Shop, order: Order)
    requires shop.Valid() && order.id == shop.nextOrderId
    modifies shop`orders, shop`nextOrderId
    ensures shop.Valid()
    ensures shop.orders == old(shop.orders)[order.id := order] && shop.nextOrderId == old(shop.nextOrderId) + 1
  {
    InsertKeepsOrdersKeyed(shop.orders, order.id, order);
    shop.orders := shop.orders[order.id := order];
    shop.nextOrderId := shop.nextOrderId + 1;
  }

  /** The writes of `createOrder` once every line has passed: the order row
      under the next id, the stock decrements and the user's cart cleared. */
  method PlaceOrder(shop: Shop, userId: int, lines: seq<LineRequest>, orderItems: seq<OrderItem>, itemsPrice: Cents,
                    details: OrderDetails, timestamp: nat, random: nat) returns (order: Order)
    requires shop.Valid()
    requires random < 1000 && itemsPrice == ItemsPrice(orderItems)
    modifies shop
    ensures shop.Valid()
    ensures order == NewOrder(old(shop.nextOrderId), userId, orderItems, details, timestamp, random)
    ensures shop.orders == old(shop.orders)[old(shop.nextOrderId) := order]
    ensures shop.nextOrderId == old(shop.nextOrderId) + 1
    ensures shop.products == ApplyDecrements(old(shop.products), lines)
    ensures shop.cart == WithoutUser(old(shop.cart), userId)
    ensures shop.reviews == old(shop.reviews) && shop.nextReviewId == old(shop.nextReviewId)
    ensures shop.nextProductId == old(shop.nextProductId)
  {
    var totals := ComputeTotals(itemsPrice);
    order := Order(shop.nextOrderId, GenerateOrderNumber(timestamp, random), userId, orderItems, details,
                   totals.itemsPrice, totals.taxPrice, totals.shippingPrice, totals.totalPrice, PENDING);
    NewOrderFields(shop.nextOrderId, userId, orderItems, details, timestamp, random, itemsPrice);
    InsertOrder(shop, order);
    DecrementsKeepShape(shop.products, shop.nextProductId, shop.cart, lines);
    DecrementStock(shop, lines);
    assert ProductsKeyed(shop.products, shop.nextProductId) && OrdersKeyed(shop.orders, shop.nextOrderId);
    assert CartKeysUnique(shop.cart) && CartRefersTo(shop.cart, shop.products);
    assert ReviewsValid(shop.reviews, shop.nextReviewId);
    ClearCart(shop, userId);
  }

  /** `createOrder`. On any rejection nothing is written. On success the
      order is inserted under the next id, each requested product's stock is
      decremented by its line, and all of the user's cart lines are deleted. */
  method CreateOrder(shop: Shop, userId: int, items: Option<seq<LineRequest>>, details: OrderDetails,
                     timestamp: nat, random: nat) returns (r: Result<Order, Error>)
    requires shop.Valid()
    requires random < 1000
    modifies shop
    ensures shop.Valid()
    ensures var plan := PlanOrder(old(shop.products), items);
      && (plan.Err? ==>
            && r == Err(plan.error)
            && shop.products == old(shop.products) && shop.cart == old(shop.cart)
            && shop.orders == old(shop.orders) && shop.nextOrderId == old(shop.nextOrderId))
      && (plan.Ok? ==>
            && r == Ok(NewOrder(old(shop.nextOrderId), userId, plan.value, details, timestamp, random))
            && shop.orders == old(shop.orders)[old(shop.nextOrderId) := r.value]
            && shop.nextOrderId == old(shop.nextOrderId) + 1
            && shop.products == ApplyDecrements(old(shop.products), items.value)
            && shop.cart == WithoutUser(old(shop.cart), userId))
    ensures shop.reviews == old(shop.reviews) && shop.nextReviewId == old(shop.nextReviewId)
    ensures shop.nextProductId == old(shop.nextProductId)
  {
    if items.None? || |items.value| == 0 {
      return Err(NoOrderItems);
    }
    var lines := items.value;
    var checked, itemsPrice := ValidateItems(shop.products, lines);
    if checked.Err? {
      return Err(checked.error);
    }
    var order := PlaceOrder(shop, userId, lines, checked.value, itemsPrice, details, timestamp, random);
    r := Ok(order);
  }

  /** `getOrderById`: NotFound for an unknown or unparsable id, Forbidden
      when the caller neither owns the order nor is an administrator. */
  function GetOrderById(shop: Shop, requester: Requester, id: string): (r: Result<Order, Error>)
    reads shop
    ensures ParseInt(id).None? ==> r == Err(ServerError)
    ensures ParseInt(id).Some? && ParseInt(id).value !in shop.orders ==> r == Err(NotFound)
    ensures ParseInt(id).Some? && ParseInt(id).value in shop.orders ==>
              (r.Ok? <==> OwnerOrAdmin(requester, shop.orders[ParseInt(id).value].userId))
              && (r.Ok? ==> r.value == shop.orders[ParseInt(id).value])
              && (r.Err? ==> r.error == Forbidden)
  {
    match ParseInt(id)
    case None => Err(ServerError)
    case Some(k) =>
      if k !in shop.orders then Err(NotFound)
      else if shop.orders[k].userId != requester.id && requester.role != "ADMIN" then Err(Forbidden)
      else Ok(shop.orders[k])
  }

  function StatusName(s: Status): string {
    match s
    case PENDING => "PENDING"
    case PROCESSING => "PROCESSING"
    case SHIPPED => "SHIPPED"
    case DELIVERED => "DELIVERED"
    case CANCELLED => "CANCELLED"
  }

  /** `validStatuses.includes(status)`: exactly the five names. */
  function ParseStatus(s: Option<string>): (r: Option<Status>)
    ensures r.Some? ==> s == Some(StatusName(r.value))
  {
    if s == Some("PENDING") then Some(PENDING)
    else if s == Some("PROCESSING") then Some(PROCESSING)
    else if s == Some("SHIPPED") then Some(SHIPPED)
    else if s == Some("DELIVERED") then Some(DELIVERED)
    else if s == Some("CANCELLED") then Some(CANCELLED)
    else None
  }

  /** Every status name is accepted and names that status. */
  lemma StatusRoundTrip(st: Status)
    ensures ParseStatus(Some(StatusName(st))) == Some(st)
  {
  }

  /** Exactly the five names are accepted. */
  lemma ParseStatusAccepts(s: Option<string>)
    ensures ParseStatus(s).Some? <==>
              s in {Some("PENDING"), Some("PROCESSING"), Some("SHIPPED"), Some("DELIVERED"), Some("CANCELLED")}
  {
  }

  /** `updateOrderStatus` behind the admin middleware: non-administrators are
      refused, then the status is validated before the order is looked up,
      and the stored status is overwritten whatever it was. */
  method UpdateOrderStatus(shop: Shop, requester: Requester, id: string, status: Option<string>)
    returns (r: Result<Order, Error>)
    requires shop.Valid()
    modifies shop
    ensures shop.Valid()
    ensures !IsAdmin(requester) ==> r == Err(Forbidden)
    ensures IsAdmin(requester) && ParseStatus(status).None? ==> r == Err(InvalidStatus)
    ensures IsAdmin(requester) && ParseStatus(status).Some? && ParseInt(id).None? ==> r == Err(ServerError)
    ensures IsAdmin(requester) && ParseStatus(status).Some? && ParseInt(id).Some? && ParseInt(id).value !in old(shop.orders) ==>
              r == Err(NotFound)
    ensures IsAdmin(requester) && ParseStatus(status).Some? && ParseInt(id).Some? && ParseInt(id).value in old(shop.orders) ==>
              r.Ok?
    ensures r.Err? ==> shop.orders == old(shop.orders)
    ensures r.Ok? ==> IsAdmin(requester) && ParseStatus(status).Some? && ParseInt(id).Some?
                      && ParseInt(id).value in old(shop.orders)
                      && r.value == old(shop.orders)[ParseInt(id).value].(status := ParseStatus(status).value)
                      && shop.orders == old(shop.orders)[ParseInt(id).value := r.value]
    ensures shop.products == old(shop.products) && shop.cart == old(shop.cart) && shop.nextOrderId == old(shop.nextOrderId)
    ensures shop.reviews == old(shop.reviews) && shop.nextReviewId == old(shop.nextReviewId)
    ensures shop.nextProductId == old(shop.nextProductId)
  {
    if requester.role != "ADMIN" {
      return Err(Forbidden);
    }
    var st := ParseStatus(status);
    if st.None? {
      return Err(InvalidStatus);
    }
    var key := ParseInt(id);
    if key.None? {
      return Err(ServerError);
    }
    var k := key.value;
    if k !in shop.orders {
      return Err(NotFound);
    }
    var updated := shop.orders[k].(status := st.value);
    shop.orders := shop.orders[k := updated];
    r := Ok(updated);
  }
}
