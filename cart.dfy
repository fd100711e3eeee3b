/** The cart controller: one row per (user, product) with a quantity; adding,
    overwriting, removing and clearing rows, and the cart read with its
    totals. Each operation is a pure transition of the cart table (the
    specification) and a method on the shop that performs it. */
module Cart {
  import opened Common
  import opened Pricing
  import opened Store

  /** A cart line joined with its product, as `getCart` returns it. */
  datatype CartEntry = CartEntry(line: CartLine, product: Product)

  datatype CartView = CartView(items: seq<CartEntry>, subtotal: Cents, itemCount: int)

  predicate HasKey(l: CartLine, userId: int, productId: int) {
    l.userId == userId && l.productId == productId
  }

  // ---------------------------------------------------------------------
  // Folds over cart entries (also used by the browser cart store)

  function LineTotal(e: CartEntry): Cents {
    e.product.UnitPrice() * e.line.quantity
  }

  /** Σ (salePrice || price) × quantity. */
  function Subtotal(items: seq<CartEntry>): Cents {
    if items == [] then 0 else LineTotal(items[0]) + Subtotal(items[1..])
  }

  /** Σ quantity. */
  function ItemCount(items: seq<CartEntry>): int {
    if items == [] then 0 else items[0].line.quantity + ItemCount(items[1..])
  }

  lemma {:induction false} SubtotalConcat(a: seq<CartEntry>, b: seq<CartEntry>)
    ensures Subtotal(a + b) == Subtotal(a) + Subtotal(b)
    ensures ItemCount(a + b) == ItemCount(a) + ItemCount(b)
  {
    if a != [] {
      assert (a + b)[0] == a[0];
      assert (a + b)[1..] == a[1..] + b;
      SubtotalConcat(a[1..], b);
    } else {
      assert a + b == b;
    }
  }

  /** The totals do not depend on the order the lines are listed in. */
  lemma {:induction false} SubtotalReverse(a: seq<CartEntry>)
    ensures Subtotal(Reverse(a)) == Subtotal(a)
    ensures ItemCount(Reverse(a)) == ItemCount(a)
  {
    if a != [] {
      SubtotalReverse(a[1..]);
      SubtotalConcat(Reverse(a[1..]), [a[0]]);
    }
  }

  /** With no negative price or quantity the totals are not negative. */
  lemma {:induction false} SubtotalNonNegative(a: seq<CartEntry>)
    requires forall i :: 0 <= i < |a| ==> a[i].product.UnitPrice() >= 0 && a[i].line.quantity >= 0
    ensures Subtotal(a) >= 0 && ItemCount(a) >= 0
  {
    if a != [] {
      SubtotalNonNegative(a[1..]);
    }
  }

  // ---------------------------------------------------------------------
  // Queries on the cart table

  /** The lines of one user, in creation order. */
  function UserLines(cart: seq<CartLine>, userId: int): (r: seq<CartLine>)
    ensures |r| <= |cart|
    ensures forall l :: l in r <==> l in cart && l.userId == userId
  {
    if cart == [] then []
    else if cart[0].userId == userId then [cart[0]] + UserLines(cart[1..], userId)
    else UserLines(cart[1..], userId)
  }

  /** `deleteMany({ where: { userId } })`: every other user's line, in order. */
  function WithoutUser(cart: seq<CartLine>, userId: int): (r: seq<CartLine>)
    ensures |r| <= |cart|
    ensures forall l :: l in r <==> l in cart && l.userId != userId
  {
    if cart == [] then []
    else if cart[0].userId != userId then [cart[0]] + WithoutUser(cart[1..], userId)
    else WithoutUser(cart[1..], userId)
  }

  /** The position of the (user, product) line, if there is one. */
  function FindLine(cart: seq<CartLine>, userId: int, productId: int): (r: Option<nat>)
    ensures r.None? ==> forall i :: 0 <= i < |cart| ==> !HasKey(cart[i], userId, productId)
    ensures r.Some? ==> r.value < |cart| && HasKey(cart[r.value], userId, productId)
    ensures r.Some? ==> forall i :: 0 <= i < r.value ==> !HasKey(cart[i], userId, productId)
  {
    if cart == [] then None
    else if HasKey(cart[0], userId, productId) then Some(0)
    else match FindLine(cart[1..], userId, productId)
      case None => None
      case Some(i) => Some(i + 1)
  }

  /** The quantity of the (user, product) line, if there is one. */
  function LineQuantity(cart: seq<CartLine>, userId: int, productId: int): Option<int> {
    match FindLine(cart, userId, productId)
    case None => None
    case Some(k) => Some(cart[k].quantity)
  }

  function Join(lines: seq<CartLine>, products: map<int, Product>): (r: seq<CartEntry>)
    requires forall i :: 0 <= i < |lines| ==> lines[i].productId in products
    ensures |r| == |lines|
    ensures forall i :: 0 <= i < |r| ==> r[i] == CartEntry(lines[i], products[lines[i].productId])
  {
    if lines == [] then [] else [CartEntry(lines[0], products[lines[0].productId])] + Join(lines[1..], products)
  }

  /** `getCart`: the user's lines newest first, each joined with its current
      product, with the item count and the subtotal. Prices are whole cents,
      so `toFixed(2)` leaves the subtotal as it is. */
  function GetCart(shop: Shop, userId: int): (v: CartView)
    reads shop
    requires shop.Valid()
    ensures var mine := UserLines(shop.cart, userId);
      && |v.items| == |mine|
      && (forall i :: 0 <= i < |v.items| ==>
            v.items[i].line == mine[|mine| - 1 - i]
            && v.items[i].product == shop.products[mine[|mine| - 1 - i].productId])
      && v.subtotal == Subtotal(v.items)
      && v.itemCount == ItemCount(v.items)
    ensures UserLines(shop.cart, userId) == [] ==> v == CartView([], 0, 0)
  {
    var mine := UserLines(shop.cart, userId);
    assert forall l :: l in mine ==> l.productId in shop.products;
    var items := Join(Reverse(mine), shop.products);
    CartView(items, Subtotal(items), ItemCount(items))
  }

  // ---------------------------------------------------------------------
  // Pure transitions of the cart table

  function QuantityOrDefault(quantity: Option<int>): int {
    if quantity.Some? then quantity.value else 1
  }

  /** `addToCart`: NotFound for an unknown product, InsufficientStock when the
      stock is below the requested quantity or, for an existing line, below
      the combined quantity; otherwise the line is incremented or appended. */
  function AddLine(cart: seq<CartLine>, products: map<int, Product>, userId: int, productId: int, quantity: Option<int>)
    : Result<seq<CartLine>, Error>
  {
    var q := QuantityOrDefault(quantity);
    if productId !in products then Err(NotFound)
    else if products[productId].stock < q then Err(InsufficientStock)
    else match FindLine(cart, userId, productId)
      case Some(k) =>
        if products[productId].stock < cart[k].quantity + q then Err(InsufficientStock)
        else Ok(cart[k := cart[k].(quantity := cart[k].quantity + q)])
      case None => Ok(cart + [CartLine(userId, productId, q)])
  }

  /** `updateCartItem`: NotFound without a line, InsufficientStock when the
      product's stock is below the new quantity, else the quantity is
      overwritten. */
  function SetLine(cart: seq<CartLine>, products: map<int, Product>, userId: int, productId: int, quantity: int)
    : Result<seq<CartLine>, Error>
  {
    match FindLine(cart, userId, productId)
    case None => Err(NotFound)
    case Some(k) =>
      if productId !in products then Err(NotFound)
      else if products[productId].stock < quantity then Err(InsufficientStock)
      else Ok(cart[k := cart[k].(quantity := quantity)])
  }

  /** `removeFromCart`: NotFound without a line, else that line is deleted. */
  function RemoveLine(cart: seq<CartLine>, userId: int, productId: int): Result<seq<CartLine>, Error> {
    match FindLine(cart, userId, productId)
    case None => Err(NotFound)
    case Some(k) => Ok(cart[..k] + cart[k + 1..])
  }

  // ---------------------------------------------------------------------
  // Properties of the transitions

  lemma ConsUnique(x: CartLine, s: seq<CartLine>)
    requires CartKeysUnique(s)
    requires forall l :: l in s ==> !SameKey(x, l)
    ensures CartKeysUnique([x] + s)
  {
    var c := [x] + s;
    forall i, j | 0 <= i < j < |c| ensures !SameKey(c[i], c[j]) {
      if i == 0 {
        assert c[j] == s[j - 1];
      } else {
        assert c[i] == s[i - 1] && c[j] == s[j - 1];
      }
    }
  }

  lemma {:induction false} WithoutUserUnique(cart: seq<CartLine>, userId: int)
    requires CartKeysUnique(cart)
    ensures CartKeysUnique(WithoutUser(cart, userId))
  {
    if cart != [] {
      assert CartKeysUnique(cart[1..]) by {
        forall i, j | 0 <= i < j < |cart[1..]| ensures !SameKey(cart[1..][i], cart[1..][j]) {
          assert cart[1..][i] == cart[i + 1] && cart[1..][j] == cart[j + 1];
        }
      }
      WithoutUserUnique(cart[1..], userId);
      if cart[0].userId != userId {
        forall l | l in WithoutUser(cart[1..], userId) ensures !SameKey(cart[0], l) {
          var j :| 0 <= j < |cart[1..]| && cart[1..][j] == l;
          assert cart[j + 1] == l;
        }
        ConsUnique(cart[0], WithoutUser(cart[1..], userId));
      }
    }
  }

  lemma WithoutUserRefers(cart: seq<CartLine>, userId: int, products: map<int, Product>)
    requires CartRefersTo(cart, products)
    ensures CartRefersTo(WithoutUser(cart, userId), products)
  {
    var c := WithoutUser(cart, userId);
    forall i | 0 <= i < |c| ensures c[i].productId in products {
      assert c[i] in cart;
    }
  }

  lemma {:induction false} UserLinesOfWithoutUser(cart: seq<CartLine>, userId: int, other: int)
    ensures UserLines(WithoutUser(cart, userId), userId) == []
    ensures other != userId ==> UserLines(WithoutUser(cart, userId), other) == UserLines(cart, other)
  {
    if cart != [] {
      UserLinesOfWithoutUser(cart[1..], userId, other);
      if cart[0].userId != userId {
        assert ([cart[0]] + WithoutUser(cart[1..], userId))[1..] == WithoutUser(cart[1..], userId);
      }
    }
  }

  /** Clearing one user's cart empties it and leaves every other user's cart
      exactly as it was, in the same order. */
  lemma ClearCartEffect(cart: seq<CartLine>, userId: int)
    ensures UserLines(WithoutUser(cart, userId), userId) == []
    ensures forall other :: other != userId ==>
              UserLines(WithoutUser(cart, userId), other) == UserLines(cart, other)
  {
    forall other | other != userId
      ensures UserLines(WithoutUser(cart, userId), other) == UserLines(cart, other)
    {
      UserLinesOfWithoutUser(cart, userId, other);
    }
    UserLinesOfWithoutUser(cart, userId, userId);
  }

  /** Replacing a line by one with the same key moves no key. */
  lemma FindAfterUpdate(cart: seq<CartLine>, k: nat, x: CartLine, u: int, p: int)
    requires k < |cart| && SameKey(cart[k], x)
    ensures FindLine(cart[k := x], u, p) == FindLine(cart, u, p)
  {
    var c := cart[k := x];
    assert forall i :: 0 <= i < |cart| ==> (HasKey(c[i], u, p) <==> HasKey(cart[i], u, p));
    var a, b := FindLine(c, u, p), FindLine(cart, u, p);
    if a.Some? && b.Some? {
      assert !(a.value < b.value) && !(b.value < a.value);
    }
  }

  lemma FindAfterAppend(cart: seq<CartLine>, x: CartLine, u: int, p: int)
    ensures FindLine(cart + [x], u, p) ==
            if FindLine(cart, u, p).Some? then FindLine(cart, u, p)
            else if HasKey(x, u, p) then Some(|cart|) else None
  {
    var c := cart + [x];
    assert forall i :: 0 <= i < |cart| ==> c[i] == cart[i];
    assert c[|cart|] == x;
    var a, b := FindLine(c, u, p), FindLine(cart, u, p);
    if a.Some? && b.Some? {
      assert !(a.value < b.value) && !(b.value < a.value);
    }
  }

  /** A successful add sets the line to the old quantity plus the added one
      (the added one for a new line) and changes no other line's quantity;
      the table keeps one line per (user, product). */
  lemma AddLineEffect(cart: seq<CartLine>, products: map<int, Product>, u: int, p: int, quantity: Option<int>)
    requires AddLine(cart, products, u, p, quantity).Ok?
    ensures var c := AddLine(cart, products, u, p, quantity).value;
      && LineQuantity(c, u, p) ==
           Some(QuantityOrDefault(quantity) + (if LineQuantity(cart, u, p).Some? then LineQuantity(cart, u, p).value else 0))
      && (forall u', p' :: !(u' == u && p' == p) ==> LineQuantity(c, u', p') == LineQuantity(cart, u', p'))
      && (CartKeysUnique(cart) ==> CartKeysUnique(c))
    ensures p in products
  {
    var c := AddLine(cart, products, u, p, quantity).value;
    match FindLine(cart, u, p)
    case Some(k) =>
      var x := cart[k].(quantity := cart[k].quantity + QuantityOrDefault(quantity));
      assert c == cart[k := x];
      forall u', p' ensures FindLine(c, u', p') == FindLine(cart, u', p') {
        FindAfterUpdate(cart, k, x, u', p');
      }
      if CartKeysUnique(cart) {
        forall i, j | 0 <= i < j < |c| ensures !SameKey(c[i], c[j]) {
          assert SameKey(c[i], cart[i]) && SameKey(c[j], cart[j]);
        }
      }
    case None =>
      var x := CartLine(u, p, QuantityOrDefault(quantity));
      assert c == cart + [x];
      forall u', p' ensures FindLine(c, u', p') ==
          if FindLine(cart, u', p').Some? then FindLine(cart, u', p')
          else if HasKey(x, u', p') then Some(|cart|) else None {
        FindAfterAppend(cart, x, u', p');
      }
      if CartKeysUnique(cart) {
        forall i, j | 0 <= i < j < |c| ensures !SameKey(c[i], c[j]) {
          if j == |cart| {
            assert !HasKey(cart[i], u, p);
          } else {
            assert c[i] == cart[i] && c[j] == cart[j];
          }
        }
      }
  }

  /** Adding 2 and then 3 units of a product with stock 10 gives one line of 5;
      adding 6 more is refused and the line stays at 5. */
  lemma AddToCartExample(products: map<int, Product>, pr: Product)
    requires products == map[7 := pr] && pr.stock == 10
    ensures var c1 := AddLine([], products, 1, 7, Some(2));
      && c1 == Ok([CartLine(1, 7, 2)])
      && AddLine(c1.value, products, 1, 7, Some(3)) == Ok([CartLine(1, 7, 5)])
      && AddLine([CartLine(1, 7, 5)], products, 1, 7, Some(6)) == Err(InsufficientStock)
  {
    assert FindLine([], 1, 7) == None;
    assert [] + [CartLine(1, 7, 2)] == [CartLine(1, 7, 2)];
    assert AddLine([], products, 1, 7, Some(2)) == Ok([CartLine(1, 7, 2)]);
    assert FindLine([CartLine(1, 7, 2)], 1, 7) == Some(0);
    assert [CartLine(1, 7, 2)][0 := CartLine(1, 7, 5)] == [CartLine(1, 7, 5)];
    assert FindLine([CartLine(1, 7, 5)], 1, 7) == Some(0);
  }

  /** A successful update overwrites exactly that line's quantity. */
  lemma SetLineEffect(cart: seq<CartLine>, products: map<int, Product>, u: int, p: int, q: int)
    requires SetLine(cart, products, u, p, q).Ok?
    ensures var c := SetLine(cart, products, u, p, q).value;
      && LineQuantity(c, u, p) == Some(q)
      && (forall u', p' :: !(u' == u && p' == p) ==> LineQuantity(c, u', p') == LineQuantity(cart, u', p'))
      && (CartKeysUnique(cart) ==> CartKeysUnique(c))
      && |c| == |cart|
  {
    var c := SetLine(cart, products, u, p, q).value;
    var k := FindLine(cart, u, p).value;
    var x := cart[k].(quantity := q);
    assert c == cart[k := x];
    forall u', p' ensures FindLine(c, u', p') == FindLine(cart, u', p') {
      FindAfterUpdate(cart, k, x, u', p');
    }
    if CartKeysUnique(cart) {
      forall i, j | 0 <= i < j < |c| ensures !SameKey(c[i], c[j]) {
        assert SameKey(c[i], cart[i]) && SameKey(c[j], cart[j]);
      }
    }
  }

  /** Deleting position k shifts every later line down by one. */
  lemma DeleteAt(cart: seq<CartLine>, k: nat)
    requires k < |cart|
    ensures var c := cart[..k] + cart[k + 1..];
      |c| == |cart| - 1 && forall i :: 0 <= i < |c| ==> c[i] == (if i < k then cart[i] else cart[i + 1])
  {
  }

  /** A successful removal deletes the one (user, product) line and keeps all
      the others, in order. */
  lemma RemoveLineEffect(cart: seq<CartLine>, u: int, p: int)
    requires CartKeysUnique(cart)
    requires RemoveLine(cart, u, p).Ok?
    ensures var c := RemoveLine(cart, u, p).value;
      && LineQuantity(c, u, p) == None
      && |c| == |cart| - 1
      && (forall l :: l in c <==> l in cart && !HasKey(l, u, p))
      && CartKeysUnique(c)
  {
    var k := FindLine(cart, u, p).value;
    var c := cart[..k] + cart[k + 1..];
    DeleteAt(cart, k);
    RemoveLineNoKey(cart, u, p, k);
    RemoveLineKeepsOthers(cart, u, p, k);
    DeleteAtUnique(cart, k);
  }

  lemma DeleteAtUnique(cart: seq<CartLine>, k: nat)
    requires k < |cart| && CartKeysUnique(cart)
    ensures CartKeysUnique(cart[..k] + cart[k + 1..])
  {
    var c := cart[..k] + cart[k + 1..];
    DeleteAt(cart, k);
    forall i, j | 0 <= i < j < |c| ensures !SameKey(c[i], c[j]) {
      var i', j' := if i < k then i else i + 1, if j < k then j else j + 1;
      assert c[i] == cart[i'] && c[j] == cart[j'] && i' < j';
    }
  }

  lemma RemoveLineNoKey(cart: seq<CartLine>, u: int, p: int, k: nat)
    requires CartKeysUnique(cart)
    requires k < |cart| && HasKey(cart[k], u, p)
    ensures var c := cart[..k] + cart[k + 1..];
      forall i :: 0 <= i < |c| ==> !HasKey(c[i], u, p)
  {
    var c := cart[..k] + cart[k + 1..];
    DeleteAt(cart, k);
    forall i | 0 <= i < |c| ensures !HasKey(c[i], u, p) {
      if i >= k {
        assert !SameKey(cart[k], cart[i + 1]);
      } else {
        assert !SameKey(cart[i], cart[k]);
      }
    }
  }

  lemma RemoveLineKeepsOthers(cart: seq<CartLine>, u: int, p: int, k: nat)
    requires k < |cart| && HasKey(cart[k], u, p)
    ensures var c := cart[..k] + cart[k + 1..];
      forall l :: l in cart && !HasKey(l, u, p) ==> l in c
  {
    var c := cart[..k] + cart[k + 1..];
    DeleteAt(cart, k);
    forall l | l in cart && !HasKey(l, u, p) ensures l in c {
      var j :| 0 <= j < |cart| && cart[j] == l;
      if j < k { assert c[j] == l; } else { assert j != k; assert c[j - 1] == l; }
    }
  }

  // ---------------------------------------------------------------------
  // The controller methods

  method AddToCart(shop: Shop, userId: int, productId: int, quantity: Option<int>) returns (r: Result<CartLine, Error>)
    requires shop.Valid()
    modifies shop
    ensures shop.Valid()
    ensures var spec := AddLine(old(shop.cart), old(shop.products), userId, productId, quantity);
      && (spec.Err? ==> r == Err(spec.error) && shop.cart == old(shop.cart))
      && (spec.Ok? ==> r.Ok? && shop.cart == spec.value
                       && LineQuantity(shop.cart, userId, productId) == Some(r.value.quantity)
                       && HasKey(r.value, userId, productId))
    ensures shop.products == old(shop.products) && shop.orders == old(shop.orders)
    ensures shop.reviews == old(shop.reviews) && shop.nextOrderId == old(shop.nextOrderId)
    ensures shop.nextProductId == old(shop.nextProductId) && shop.nextReviewId == old(shop.nextReviewId)
  {
    if productId !in shop.products {
      return Err(NotFound);
    }
    var product := shop.products[productId];
    var q := QuantityOrDefault(quantity);
    if product.stock < q {
      return Err(InsufficientStock);
    }
    ghost var before := shop.cart;
    var existing := FindLine(shop.cart, userId, productId);
    var line;
    if existing.Some? {
      var k := existing.value;
      var newQuantity := shop.cart[k].quantity + q;
      if product.stock < newQuantity {
        return Err(InsufficientStock);
      }
      line := shop.cart[k].(quantity := newQuantity);
      shop.cart := shop.cart[k := line];
    } else {
      line := CartLine(userId, productId, q);
      shop.cart := shop.cart + [line];
    }
    AddLineEffect(before, shop.products, userId, productId, quantity);
    forall i | 0 <= i < |shop.cart| ensures shop.cart[i].productId in shop.products {
      if i < |before| { assert shop.cart[i].productId == before[i].productId; }
    }
    r := Ok(line);
  }

  method UpdateCartItem(shop: Shop, userId: int, productId: int, quantity: int) returns (r: Result<CartLine, Error>)
    requires shop.Valid()
    modifies shop
    ensures shop.Valid()
    ensures var spec := SetLine(old(shop.cart), old(shop.products), userId, productId, quantity);
      && (spec.Err? ==> r == Err(spec.error) && shop.cart == old(shop.cart))
      && (spec.Ok? ==> r == Ok(CartLine(userId, productId, quantity)) && shop.cart == spec.value)
    ensures shop.products == old(shop.products) && shop.orders == old(shop.orders)
    ensures shop.reviews == old(shop.reviews) && shop.nextOrderId == old(shop.nextOrderId)
    ensures shop.nextProductId == old(shop.nextProductId) && shop.nextReviewId == old(shop.nextReviewId)
  {
    var found := FindLine(shop.cart, userId, productId);
    if found.None? {
      return Err(NotFound);
    }
    var k := found.value;
    var product := shop.products[shop.cart[k].productId];
    if product.stock < quantity {
      return Err(InsufficientStock);
    }
    ghost var before := shop.cart;
    var line := shop.cart[k].(quantity := quantity);
    shop.cart := shop.cart[k := line];
    SetLineEffect(before, shop.products, userId, productId, quantity);
    forall i | 0 <= i < |shop.cart| ensures shop.cart[i].productId in shop.products {
      assert shop.cart[i].productId == before[i].productId;
    }
    r := Ok(line);
  }

  method RemoveFromCart(shop: Shop, userId: int, productId: int) returns (r: Result<(), Error>)
    requires shop.Valid()
    modifies shop
    ensures shop.Valid()
    ensures var spec := RemoveLine(old(shop.cart), userId, productId);
      && (spec.Err? ==> r == Err(spec.error) && shop.cart == old(shop.cart))
      && (spec.Ok? ==> r == Ok(()) && shop.cart == spec.value)
    ensures shop.products == old(shop.products) && shop.orders == old(shop.orders)
    ensures shop.reviews == old(shop.reviews) && shop.nextOrderId == old(shop.nextOrderId)
    ensures shop.nextProductId == old(shop.nextProductId) && shop.nextReviewId == old(shop.nextReviewId)
  {
    var found := FindLine(shop.cart, userId, productId);
    if found.None? {
      return Err(NotFound);
    }
    ghost var before := shop.cart;
    var k := found.value;
    shop.cart := shop.cart[..k] + shop.cart[k + 1..];
    RemoveLineEffect(before, userId, productId);
    forall i | 0 <= i < |shop.cart| ensures shop.cart[i].productId in shop.products {
      assert shop.cart[i] in before;
    }
    r := Ok(());
  }

  method ClearCart(shop: Shop, userId: int)
    requires shop.Valid()
    modifies shop
    ensures shop.Valid()
    ensures shop.cart == WithoutUser(old(shop.cart), userId)
    ensures shop.products == old(shop.products) && shop.orders == old(shop.orders)
    ensures shop.reviews == old(shop.reviews) && shop.nextOrderId == old(shop.nextOrderId)
    ensures shop.nextProductId == old(shop.nextProductId) && shop.nextReviewId == old(shop.nextReviewId)
  {
    WithoutUserUnique(shop.cart, userId);
    shop.cart := WithoutUser(shop.cart, userId);
  }
}
