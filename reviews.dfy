/** The review controller: who may review a product (it exists, no earlier
    review by the same user, bought in a delivered order), the rating
    statistics of a product's reviews, and who may delete a review. */
module Reviews {
  import opened Common
  import opened Text
  import opened Store

  // ---------------------------------------------------------------------
  // Eligibility

  /** The route validator: an integer rating in 1..5 and a comment that is
      not blank once trimmed. */
  predicate RequestValid(rating: int, comment: Option<string>) {
    1 <= rating <= 5 && comment.Some? && Trim(comment.value) != ""
  }

  predicate Reviewed(reviews: seq<Review>, userId: int, productId: int) {
    exists i :: 0 <= i < |reviews| && reviews[i].userId == userId && reviews[i].productId == productId
  }

  predicate HasItemFor(items: seq<OrderItem>, productId: int) {
    exists i :: 0 <= i < |items| && items[i].productId == productId
  }

  /** `orderItem.findFirst` over the user's DELIVERED orders. */
  predicate Purchased(orders: map<int, Order>, userId: int, productId: int) {
    exists id :: id in orders && orders[id].userId == userId && orders[id].status == DELIVERED
                 && HasItemFor(orders[id].items, productId)
  }

  /** The checks of `createReview`, in order. */
  function ReviewVerdict(products: map<int, Product>, reviews: seq<Review>, orders: map<int, Order>,
                         userId: int, productId: int, rating: int, comment: Option<string>): (r: Result<(), Error>)
    ensures r.Ok? <==> RequestValid(rating, comment) && productId in products
                       && !Reviewed(reviews, userId, productId) && Purchased(orders, userId, productId)
    ensures !RequestValid(rating, comment) ==> r == Err(InvalidReview)
    ensures RequestValid(rating, comment) && productId !in products ==> r == Err(NotFound)
    ensures RequestValid(rating, comment) && productId in products && Reviewed(reviews, userId, productId) ==>
              r == Err(AlreadyReviewed)
    ensures RequestValid(rating, comment) && productId in products && !Reviewed(reviews, userId, productId)
              && !Purchased(orders, userId, productId) ==>
              r == Err(NotPurchased)
  {
    if !RequestValid(rating, comment) then Err(InvalidReview)
    else if productId !in products then Err(NotFound)
    else if Reviewed(reviews, userId, productId) then Err(AlreadyReviewed)
    else if !Purchased(orders, userId, productId) then Err(NotPurchased)
    else Ok(())
  }

  /** `createReview`: the review is added only when every check passes; the
      comment is stored trimmed, as the validator's sanitizer leaves it. */
  method CreateReview(shop: Shop, userId: int, productId: int, rating: int, title: Option<string>, comment: Option<string>)
    returns (r: Result<Review, Error>)
    requires shop.Valid()
    modifies shop
    ensures shop.Valid()
    ensures var v := ReviewVerdict(old(shop.products), old(shop.reviews), old(shop.orders), userId, productId, rating, comment);
      && (v.Err? ==> r == Err(v.error) && shop.reviews == old(shop.reviews))
      && (v.Ok? ==> r == Ok(Review(old(shop.nextReviewId), userId, productId, rating, title, Trim(comment.value)))
                    && shop.reviews == old(shop.reviews) + [r.value])
    ensures shop.nextReviewId == old(shop.nextReviewId) + (if r.Ok? then 1 else 0)
    ensures shop.products == old(shop.products) && shop.orders == old(shop.orders) && shop.cart == old(shop.cart)
    ensures shop.nextOrderId == old(shop.nextOrderId) && shop.nextProductId == old(shop.nextProductId)
  {
    if !(1 <= rating <= 5) || comment.None? || Trim(comment.value) == "" {
      return Err(InvalidReview);
    }
    if productId !in shop.products {
      return Err(NotFound);
    }
    if Reviewed(shop.reviews, userId, productId) {
      return Err(AlreadyReviewed);
    }
    if !Purchased(shop.orders, userId, productId) {
      return Err(NotPurchased);
    }
    var review := Review(shop.nextReviewId, userId, productId, rating, title, Trim(comment.value));
    AppendKeepsReviewsValid(shop.reviews, shop.nextReviewId, review);
    shop.reviews := shop.reviews + [review];
    shop.nextReviewId := shop.nextReviewId + 1;
    assert ProductsKeyed(shop.products, shop.nextProductId) && OrdersKeyed(shop.orders, shop.nextOrderId);
    assert CartKeysUnique(shop.cart) && CartRefersTo(shop.cart, shop.products);
    r := Ok(review);
  }

  lemma AppendKeepsReviewsValid(reviews: seq<Review>, nextId: int, review: Review)
    requires ReviewsValid(reviews, nextId)
    requires review.id == nextId && 1 <= review.rating <= 5
    requires !Reviewed(reviews, review.userId, review.productId)
    ensures ReviewsValid(reviews + [review], nextId + 1)
  {
    var s := reviews + [review];
    forall i, j | 0 <= i < j < |s|
      ensures s[i].id != s[j].id && !(s[i].userId == s[j].userId && s[i].productId == s[j].productId)
    {
      assert s[i] == reviews[i];
      if j == |reviews| {
        assert s[j] == review;
      } else {
        assert s[j] == reviews[j];
      }
    }
  }

  /** A second review by the same user of the same product is always refused,
      so no accepted review sequence ever holds two for one pair. */
  lemma OneReviewPerUserAndProduct(products: map<int, Product>, reviews: seq<Review>, orders: map<int, Order>,
                                   userId: int, productId: int, rating: int, comment: Option<string>)
    requires Reviewed(reviews, userId, productId)
    ensures ReviewVerdict(products, reviews, orders, userId, productId, rating, comment).Err?
  {
  }

  // ---------------------------------------------------------------------
  // Rating statistics

  /** How many of the reviews have rating `k` (counted in list order). */
  function CountRating(reviews: seq<Review>, k: int): nat {
    if reviews == [] then 0
    else CountRating(reviews[..|reviews| - 1], k) + (if reviews[|reviews| - 1].rating == k then 1 else 0)
  }

  function SumRatings(reviews: seq<Review>): int {
    if reviews == [] then 0 else SumRatings(reviews[..|reviews| - 1]) + reviews[|reviews| - 1].rating
  }

  predicate RatingsInRange(reviews: seq<Review>) {
    forall i :: 0 <= i < |reviews| ==> 1 <= reviews[i].rating <= 5
  }

  /** With every rating in 1..5, the five counts add up to the number of
      reviews. */
  lemma {:induction false} DistributionSumsToTotal(reviews: seq<Review>)
    requires RatingsInRange(reviews)
    ensures CountRating(reviews, 1) + CountRating(reviews, 2) + CountRating(reviews, 3)
            + CountRating(reviews, 4) + CountRating(reviews, 5) == |reviews|
  {
    if reviews != [] {
      DistributionSumsToTotal(reviews[..|reviews| - 1]);
    }
  }

  lemma {:induction false} SumRatingsBounds(reviews: seq<Review>)
    requires RatingsInRange(reviews)
    ensures |reviews| <= SumRatings(reviews) <= 5 * |reviews|
  {
    if reviews != [] {
      SumRatingsBounds(reviews[..|reviews| - 1]);
    }
  }

  /** `totalRating / reviews.length`, 0 without reviews (exact, not IEEE). */
  function AverageRating(reviews: seq<Review>): real {
    if |reviews| == 0 then 0.0 else SumRatings(reviews) as real / |reviews| as real
  }

  lemma DivBounds(s: real, n: real, lo: real, hi: real)
    requires n > 0.0 && lo * n <= s <= hi * n
    ensures lo <= s / n <= hi
  {
    var a := s / n;
    assert a * n == s;
    assert (a - lo) * n >= 0.0 && (hi - a) * n >= 0.0;
  }

  /** The mean of in-range ratings lies in [1, 5]; with no review it is 0. */
  lemma AverageRatingBounds(reviews: seq<Review>)
    requires RatingsInRange(reviews)
    ensures |reviews| == 0 ==> AverageRating(reviews) == 0.0
    ensures |reviews| > 0 ==> 1.0 <= AverageRating(reviews) <= 5.0
  {
    if |reviews| > 0 {
      SumRatingsBounds(reviews);
      var n, s := |reviews| as real, SumRatings(reviews) as real;
      DivBounds(s, n, 1.0, 5.0);
    }
  }

  /** `parseFloat(x.toFixed(1))` on exact values: the nearest multiple of
      0.1, halves rounded up (what `toFixed` does for the non-negative means
      it is applied to). */
  function Round1(x: real): (r: real)
    ensures (r * 10.0).Floor as real == r * 10.0
    ensures r - 0.05 <= x < r + 0.05
  {
    (x * 10.0 + 0.5).Floor as real / 10.0
  }

  /** Rounding keeps an in-range mean within [1, 5]. */
  lemma Round1Bounds(x: real)
    requires 1.0 <= x <= 5.0
    ensures 1.0 <= Round1(x) <= 5.0
  {
    var f := (x * 10.0 + 0.5).Floor;
    assert 10 <= f <= 50;
  }

  datatype Stats = Stats(total: nat, averageRating: real, distribution: map<int, nat>)

  /** The reviews of one product, oldest first. */
  function ProductReviews(reviews: seq<Review>, productId: int): (r: seq<Review>)
    ensures forall x :: x in r <==> x in reviews && x.productId == productId
    ensures RatingsInRange(reviews) ==> RatingsInRange(r)
  {
    if reviews == [] then []
    else if reviews[0].productId == productId then [reviews[0]] + ProductReviews(reviews[1..], productId)
    else ProductReviews(reviews[1..], productId)
  }

  /** The `forEach` loop building the rating histogram over keys 1..5. */
  method Distribution(reviews: seq<Review>) returns (dist: map<int, nat>)
    requires RatingsInRange(reviews)
    ensures dist.Keys == {1, 2, 3, 4, 5}
    ensures forall k :: k in dist ==> dist[k] == CountRating(reviews, k)
  {
    dist := map[5 := 0, 4 := 0, 3 := 0, 2 := 0, 1 := 0];
    var i := 0;
    while i < |reviews|
      invariant 0 <= i <= |reviews|
      invariant dist.Keys == {1, 2, 3, 4, 5}
      invariant forall k :: k in dist ==> dist[k] == CountRating(reviews[..i], k)
    {
      assert reviews[..i + 1][..i] == reviews[..i];
      var rating := reviews[i].rating;
      dist := dist[rating := dist[rating] + 1];
      i := i + 1;
    }
    assert reviews[..i] == reviews;
  }

  /** `getProductReviews`: the product's reviews newest first with their
      count, rounded mean and histogram. */
  method GetProductReviews(shop: Shop, productId: string) returns (r: Result<(seq<Review>, Stats), Error>)
    requires shop.Valid()
    ensures ParseInt(productId).None? ==> r == Err(ServerError)
    ensures ParseInt(productId).Some? ==>
      var mine := ProductReviews(shop.reviews, ParseInt(productId).value);
      && r.Ok?
      && r.value.0 == Reverse(mine)
      && r.value.1.total == |mine|
      && r.value.1.averageRating == Round1(AverageRating(mine))
      && r.value.1.distribution.Keys == {1, 2, 3, 4, 5}
      && (forall k :: k in r.value.1.distribution ==> r.value.1.distribution[k] == CountRating(mine, k))
  {
    var key := ParseInt(productId);
    if key.None? {
      return Err(ServerError);
    }
    var mine := ProductReviews(shop.reviews, key.value);
    var dist := Distribution(mine);
    AverageRatingBounds(mine);
    var avg := Round1(AverageRating(mine));
    r := Ok((Reverse(mine), Stats(|mine|, avg, dist)));
  }

  /** The published statistics are consistent: the histogram adds up to the
      total and a non-empty mean is within [1, 5]. */
  lemma StatsConsistent(reviews: seq<Review>)
    requires RatingsInRange(reviews)
    ensures CountRating(reviews, 1) + CountRating(reviews, 2) + CountRating(reviews, 3)
            + CountRating(reviews, 4) + CountRating(reviews, 5) == |reviews|
    ensures |reviews| > 0 ==> 1.0 <= Round1(AverageRating(reviews)) <= 5.0
    ensures |reviews| == 0 ==> Round1(AverageRating(reviews)) == 0.0
  {
    DistributionSumsToTotal(reviews);
    AverageRatingBounds(reviews);
    if |reviews| > 0 {
      Round1Bounds(AverageRating(reviews));
    }
  }

  // ---------------------------------------------------------------------
  // Deletion

  /** The position of the review with that id, if any. */
  function FindReview(reviews: seq<Review>, id: int): Option<nat> {
    FindKey(reviews, (x: Review) => x.id, id)
  }

  /** `deleteReview`: NotFound for an unknown or unparsable id, Forbidden
      unless the caller wrote the review or is an administrator; otherwise
      exactly that review is removed. */
  method DeleteReview(shop: Shop, requester: Requester, id: string) returns (r: Result<(), Error>)
    requires shop.Valid()
    modifies shop
    ensures shop.Valid()
    ensures ParseInt(id).None? ==> r == Err(ServerError)
    ensures ParseInt(id).Some? && FindReview(old(shop.reviews), ParseInt(id).value).None? ==> r == Err(NotFound)
    ensures ParseInt(id).Some? && FindReview(old(shop.reviews), ParseInt(id).value).Some? ==>
      var k := FindReview(old(shop.reviews), ParseInt(id).value).value;
      (r.Ok? <==> OwnerOrAdmin(requester, old(shop.reviews)[k].userId))
      && (r.Err? ==> r.error == Forbidden)
      && (r.Ok? ==> shop.reviews == old(shop.reviews)[..k] + old(shop.reviews)[k + 1..])
    ensures r.Err? ==> shop.reviews == old(shop.reviews)
    ensures shop.products == old(shop.products) && shop.orders == old(shop.orders) && shop.cart == old(shop.cart)
    ensures shop.nextOrderId == old(shop.nextOrderId) && shop.nextProductId == old(shop.nextProductId)
    ensures shop.nextReviewId == old(shop.nextReviewId)
  {
    var key := ParseInt(id);
    if key.None? {
      return Err(ServerError);
    }
    var found := FindReview(shop.reviews, key.value);
    if found.None? {
      return Err(NotFound);
    }
    var k := found.value;
    if shop.reviews[k].userId != requester.id && requester.role != "ADMIN" {
      return Err(Forbidden);
    }
    DeleteKeepsReviewsValid(shop.reviews, shop.nextReviewId, k);
    shop.reviews := shop.reviews[..k] + shop.reviews[k + 1..];
    r := Ok(());
  }

  lemma DeleteKeepsReviewsValid(reviews: seq<Review>, nextId: int, k: nat)
    requires ReviewsValid(reviews, nextId) && k < |reviews|
    ensures ReviewsValid(reviews[..k] + reviews[k + 1..], nextId)
  {
    var s := reviews[..k] + reviews[k + 1..];
    assert forall i :: 0 <= i < |s| ==> s[i] == (if i < k then reviews[i] else reviews[i + 1]);
    forall i, j | 0 <= i < j < |s|
      ensures s[i].id != s[j].id && !(s[i].userId == s[j].userId && s[i].productId == s[j].productId)
    {
      var i', j' := if i < k then i else i + 1, if j < k then j else j + 1;
      assert s[i] == reviews[i'] && s[j] == reviews[j'] && i' < j';
    }
  }
}
