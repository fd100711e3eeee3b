/** The rows the controllers read and write, and the shop database that holds
    the product, cart, order and review tables. Products and orders are only
    reached by primary key and are maps; cart lines and reviews are listed
    newest first and are sequences in creation order. */
module Store {
  import opened Common
  import opened Pricing

  datatype Image = Image(url: string, alt: string, isPrimary: bool)

  datatype Spec = Spec(key: string, value: string, group: Option<string>)

  datatype Product = Product(
    id: int,
    name: string,
    slug: string,
    description: string,
    price: Cents,
    salePrice: Option<Cents>,
    stock: int,
    sku: string,
    categoryId: int,
    brandId: int,
    featured: bool,
    images: seq<Image>,
    specs: seq<Spec>)
  {
    /** The price a buyer pays per unit. */
    function UnitPrice(): Cents {
      EffectivePrice(price, salePrice)
    }
  }

  /** One row of the cart table; (userId, productId) is unique. */
  datatype CartLine = CartLine(userId: int, productId: int, quantity: int)

  datatype Status = PENDING | PROCESSING | SHIPPED | DELIVERED | CANCELLED

  /** What an order remembers of a product at purchase time. */
  datatype OrderItem = OrderItem(productId: int, name: string, image: Option<string>, price: Cents, quantity: int)

  /** The free-text fields of an order request, copied into the order as given. */
  datatype OrderDetails = OrderDetails(
    shippingAddress: Option<string>,
    phone: Option<string>,
    paymentMethod: Option<string>,
    notes: Option<string>)

  datatype Order = Order(
    id: int,
    orderNumber: string,
    userId: int,
    items: seq<OrderItem>,
    details: OrderDetails,
    itemsPrice: Cents,
    taxPrice: real,
    shippingPrice: Cents,
    totalPrice: real,
    status: Status)

  datatype Review = Review(id: int, userId: int, productId: int, rating: int, title: Option<string>, comment: string)

  predicate SameKey(a: CartLine, b: CartLine) {
    a.userId == b.userId && a.productId == b.productId
  }

  /** The unique (userId, productId) constraint of the cart table. */
  predicate CartKeysUnique(cart: seq<CartLine>) {
    forall i, j :: 0 <= i < j < |cart| ==> !SameKey(cart[i], cart[j])
  }

  /** Review ids are unique and below the next id, one review per user and
      product, and every stored rating passed the route's 1..5 check. */
  predicate ReviewsValid(reviews: seq<Review>, nextId: int) {
    && (forall i :: 0 <= i < |reviews| ==> 1 <= reviews[i].rating <= 5 && reviews[i].id < nextId)
    && (forall i, j :: 0 <= i < j < |reviews| ==>
          reviews[i].id != reviews[j].id
          && !(reviews[i].userId == reviews[j].userId && reviews[i].productId == reviews[j].productId))
  }

  /** Map keys agree with the row ids and lie below the auto-increment counter. */
  predicate ProductsKeyed(products: map<int, Product>, nextId: int) {
    forall id :: id in products ==> products[id].id == id && id < nextId
  }

  predicate OrdersKeyed(orders: map<int, Order>, nextId: int) {
    forall id :: id in orders ==> orders[id].id == id && id < nextId
  }

  /** Every cart line names a stored product. */
  predicate CartRefersTo(cart: seq<CartLine>, products: map<int, Product>) {
    forall i :: 0 <= i < |cart| ==> cart[i].productId in products
  }

  class Shop {
    var products: map<int, Product>
    var nextProductId: int
    var cart: seq<CartLine>
    var orders: map<int, Order>
    var nextOrderId: int
    var reviews: seq<Review>
    var nextReviewId: int

    /** Keys agree with row ids and lie below the auto-increment counters, cart
        keys are unique and name stored products, reviews are well formed. */
    ghost predicate Valid()
      reads this
    {
      && ProductsKeyed(products, nextProductId)
      && OrdersKeyed(orders, nextOrderId)
      && CartKeysUnique(cart)
      && CartRefersTo(cart, products)
      && ReviewsValid(reviews, nextReviewId)
    }

    constructor ()
      ensures Valid()
      ensures products == map[] && cart == [] && orders == map[] && reviews == []
    {
      products := map[];
      nextProductId := 1;
      cart := [];
      orders := map[];
      nextOrderId := 1;
      reviews := [];
      nextReviewId := 1;
    }
  }
}
