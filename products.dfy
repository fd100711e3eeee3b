/** The product controller: the form a product is created or updated from,
    its required-field check, the image and specification lists it builds,
    the partial update, the comparison id limit and the rounded average
    rating every listing attaches to a product. */
module Products {
  import opened Common
  import opened Text
  import opened Slug
  import opened Pricing
  import opened Store
  import opened Orders
  import opened Reviews

  /** A money field as the form sends it: its text, and what `parseFloat`
      makes of it, in cents (`None` for NaN). */
  datatype Amount = Amount(text: string, cents: Option<Cents>)

  predicate AmountTruthy(a: Option<Amount>) {
    a.Some? && a.value.text != ""
  }

  /** The fields of a create or update request. Every field arrives as text;
      `specifications` is the already parsed JSON list when it was sent
      (the truthy case) and `None` when it was absent or empty. */
  datatype ProductForm = ProductForm(
    name: Option<string>,
    description: Option<string>,
    price: Option<Amount>,
    salePrice: Option<Amount>,
    stock: Option<string>,
    sku: Option<string>,
    categoryId: Option<string>,
    brandId: Option<string>,
    featured: Option<string>,
    specifications: Option<seq<Spec>>,
    ram: Option<string>,
    storage: Option<string>,
    processor: Option<string>,
    graphicsCard: Option<string>,
    screenSize: Option<string>)

  const EmptyForm := ProductForm(None, None, None, None, None, None, None, None, None, None,
                                 None, None, None, None, None)

  // ---------------------------------------------------------------------
  // Field conversions

  /** `salePrice ? parseFloat(salePrice) : null`; NaN is refused by the
      database. */
  function SalePriceOf(a: Option<Amount>): (r: Result<Option<Cents>, Error>)
    ensures !AmountTruthy(a) ==> r == Ok(None)
    ensures AmountTruthy(a) ==> (r.Ok? <==> a.value.cents.Some?) && (r.Ok? ==> r.value == a.value.cents)
    ensures r.Err? ==> r.error == ServerError
  {
    if !AmountTruthy(a) then Ok(None)
    else if a.value.cents.None? then Err(ServerError)
    else Ok(a.value.cents)
  }

  /** `parseInt(field)` stored in an integer column; NaN is refused. */
  function IntColumn(s: string): (r: Result<int, Error>)
    ensures r.Ok? <==> ParseInt(s).Some?
    ensures r.Ok? ==> r.value == ParseInt(s).value
    ensures r.Err? ==> r.error == ServerError
  {
    match ParseInt(s)
    case None => Err(ServerError)
    case Some(n) => Ok(n)
  }

  /** `featured === 'true' || featured === true` on a form field. */
  predicate Featured(featured: Option<string>) {
    featured == Some("true")
  }

  // ---------------------------------------------------------------------
  // Images

  /** `req.files.map((file, index) => ...)`: one image per uploaded file, in
      upload order, all with the same alt text, only the first primary. */
  function ImagesFor(uploads: seq<string>, alt: string): (r: seq<Image>)
    ensures |r| == |uploads|
    ensures forall i :: 0 <= i < |r| ==> r[i] == Image(UploadPath(uploads[i]), alt, i == 0)
  {
    seq(|uploads|, i requires 0 <= i < |uploads| => Image(UploadPath(uploads[i]), alt, i == 0))
  }

  /** Orders and listings show the first upload as the product's image. */
  lemma ImagesForPrimary(uploads: seq<string>, alt: string)
    ensures PrimaryImage(ImagesFor(uploads, alt)) == if uploads == [] then None else Some(UploadPath(uploads[0]))
  {
  }

  /** Images added by an update are appended; the image orders and listings
      show is then still the first primary image from before, when there was
      one. */
  lemma {:induction false} AppendedImagesKeepPrimary(images: seq<Image>, added: seq<Image>)
    requires exists i :: 0 <= i < |images| && images[i].isPrimary
    ensures PrimaryImage(images + added) == PrimaryImage(images)
  {
    if !images[0].isPrimary {
      assert (images + added)[1..] == images[1..] + added;
      AppendedImagesKeepPrimary(images[1..], added);
    }
  }

  // ---------------------------------------------------------------------
  // Specifications built from the individual fields

  const SpecKeys: seq<string> := ["RAM", "Storage", "Processor", "Graphics Card", "Screen Size"]

  function FieldValues(f: ProductForm): (r: seq<Option<string>>)
    ensures |r| == 5
  {
    [f.ram, f.storage, f.processor, f.graphicsCard, f.screenSize]
  }

  /** The position of a key in the fixed order, 5 for any other key. */
  function Rank(key: string): (k: nat)
    ensures k <= 5 && (k < 5 ==> SpecKeys[k] == key)
  {
    if key == "RAM" then 0
    else if key == "Storage" then 1
    else if key == "Processor" then 2
    else if key == "Graphics Card" then 3
    else if key == "Screen Size" then 4
    else 5
  }

  lemma RankOfKeys()
    ensures forall k :: 0 <= k < 5 ==> Rank(SpecKeys[k]) == k
  {
    assert Rank(SpecKeys[0]) == 0 && Rank(SpecKeys[1]) == 1 && Rank(SpecKeys[2]) == 2;
    assert Rank(SpecKeys[3]) == 3 && Rank(SpecKeys[4]) == 4;
  }

  /** `if (field) specs.push({ key, value: field })`. */
  function Optional(key: string, value: Option<string>): seq<Spec> {
    if Truthy(value) then [Spec(key, value.value, None)] else []
  }

  /** The specs pushed for fields 0 .. k-1, in the fixed order. */
  function SpecsUpTo(values: seq<Option<string>>, k: nat): seq<Spec>
    requires |values| == 5 && k <= 5
  {
    if k == 0 then [] else SpecsUpTo(values, k - 1) + Optional(SpecKeys[k - 1], values[k - 1])
  }

  /** Every built spec belongs to a truthy field below rank k, carries that
      field's value, and ranks strictly increase along the list. */
  lemma {:induction false} SpecsUpToShape(values: seq<Option<string>>, k: nat)
    requires |values| == 5 && k <= 5
    ensures var r := SpecsUpTo(values, k);
      (forall s :: s in r ==> Rank(s.key) < k && Truthy(values[Rank(s.key)])
                              && s == Spec(SpecKeys[Rank(s.key)], values[Rank(s.key)].value, None))
      && (forall i, j :: 0 <= i < j < |r| ==> Rank(r[i].key) < Rank(r[j].key))
      && (forall m :: 0 <= m < k && Truthy(values[m]) ==> Spec(SpecKeys[m], values[m].value, None) in r)
  {
    SpecsUpToMembers(values, k);
    SpecsUpToRanks(values, k);
    SpecsUpToComplete(values, k);
  }

  lemma {:induction false} SpecsUpToMembers(values: seq<Option<string>>, k: nat)
    requires |values| == 5 && k <= 5
    ensures forall s :: s in SpecsUpTo(values, k) ==>
              (Rank(s.key) < k && Truthy(values[Rank(s.key)])
               && s == Spec(SpecKeys[Rank(s.key)], values[Rank(s.key)].value, None))
  {
    if k > 0 {
      RankOfKeys();
      SpecsUpToMembers(values, k - 1);
    }
  }

  predicate RanksIncrease(r: seq<Spec>) {
    forall i, j :: 0 <= i < j < |r| ==> Rank(r[i].key) < Rank(r[j].key)
  }

  lemma {:induction false} SpecsUpToRanks(values: seq<Option<string>>, k: nat)
    requires |values| == 5 && k <= 5
    ensures RanksIncrease(SpecsUpTo(values, k))
  {
    if k > 0 {
      SpecsUpToRanks(values, k - 1);
      SpecsUpToMembers(values, k - 1);
      RankOfKeys();
      var done := SpecsUpTo(values, k - 1);
      var r := SpecsUpTo(values, k);
      if Truthy(values[k - 1]) {
        assert r == done + [Spec(SpecKeys[k - 1], values[k - 1].value, None)];
        assert forall i :: 0 <= i < |done| ==> r[i] == done[i] && done[i] in done;
        assert r[|r| - 1].key == SpecKeys[k - 1];
      } else {
        assert r == done;
      }
    }
  }

  lemma {:induction false} SpecsUpToComplete(values: seq<Option<string>>, k: nat)
    requires |values| == 5 && k <= 5
    ensures forall m :: 0 <= m < k && Truthy(values[m]) ==> Spec(SpecKeys[m], values[m].value, None) in SpecsUpTo(values, k)
  {
    if k > 0 {
      SpecsUpToComplete(values, k - 1);
    }
  }

  /** Without a `specifications` field the specs follow the fixed order RAM,
      Storage, Processor, Graphics Card, Screen Size, one per non-empty field
      and none for an empty one. */
  lemma BuiltSpecsInFixedOrder(f: ProductForm)
    ensures var r := SpecsUpTo(FieldValues(f), 5);
      (forall i, j :: 0 <= i < j < |r| ==> Rank(r[i].key) < Rank(r[j].key))
      && (forall s :: s in r ==> Rank(s.key) < 5 && s.value != "" && s.group.None?)
      && (forall k :: 0 <= k < 5 ==>
            (Truthy(FieldValues(f)[k]) <==> exists s :: s in r && s.key == SpecKeys[k])
            && (Truthy(FieldValues(f)[k]) ==> Spec(SpecKeys[k], FieldValues(f)[k].value, None) in r))
  {
    var values := FieldValues(f);
    var r := SpecsUpTo(values, 5);
    SpecsUpToShape(values, 5);
    RankOfKeys();
    forall k | 0 <= k < 5
      ensures (Truthy(values[k]) <==> exists s :: s in r && s.key == SpecKeys[k])
    {
      if Truthy(values[k]) {
        assert Spec(SpecKeys[k], values[k].value, None) in r;
      }
      if exists s :: s in r && s.key == SpecKeys[k] {
        var s :| s in r && s.key == SpecKeys[k];
        assert Rank(s.key) == k;
      }
    }
  }

  /** The successive pushes of `createProduct` when no `specifications` field
      was sent. */
  method BuildSpecs(f: ProductForm) returns (specs: seq<Spec>)
    ensures specs == SpecsUpTo(FieldValues(f), 5)
  {
    ghost var v := FieldValues(f);
    specs := [];
    if Truthy(f.ram) { specs := specs + [Spec("RAM", f.ram.value, None)]; }
    assert specs == SpecsUpTo(v, 1);
    if Truthy(f.storage) { specs := specs + [Spec("Storage", f.storage.value, None)]; }
    assert specs == SpecsUpTo(v, 2);
    if Truthy(f.processor) { specs := specs + [Spec("Processor", f.processor.value, None)]; }
    assert specs == SpecsUpTo(v, 3);
    if Truthy(f.graphicsCard) { specs := specs + [Spec("Graphics Card", f.graphicsCard.value, None)]; }
    assert specs == SpecsUpTo(v, 4);
    if Truthy(f.screenSize) { specs := specs + [Spec("Screen Size", f.screenSize.value, None)]; }
  }

  /** The specs a new product gets: the sent list, else the built one. */
  function SpecsFor(f: ProductForm): seq<Spec> {
    if f.specifications.Some? then f.specifications.value else SpecsUpTo(FieldValues(f), 5)
  }

  // ---------------------------------------------------------------------
  // Creation

  /** `!name || !description || !price || !categoryId || !brandId || stock === undefined`
      fails: a stock of "0" passes, an absent one does not. */
  predicate HasRequiredFields(f: ProductForm) {
    Truthy(f.name) && Truthy(f.description) && AmountTruthy(f.price)
    && Truthy(f.categoryId) && Truthy(f.brandId) && f.stock.Some?
  }

  /** The row `createProduct` inserts, or why it is refused: MissingFields
      before anything else, then a NaN in a numeric column. An empty sku is
      replaced by the generated one. */
  function NewProduct(id: int, f: ProductForm, generatedSku: string, uploads: seq<string>, specs: seq<Spec>)
    : (r: Result<Product, Error>)
    ensures !HasRequiredFields(f) ==> r == Err(MissingFields)
    ensures r.Err? ==> r.error == MissingFields || r.error == ServerError
    ensures HasRequiredFields(f) ==>
              (r.Ok? <==> f.price.value.cents.Some? && SalePriceOf(f.salePrice).Ok?
                          && ParseInt(f.stock.value).Some? && ParseInt(f.categoryId.value).Some?
                          && ParseInt(f.brandId.value).Some?)
    ensures r.Ok? ==>
      && HasRequiredFields(f)
      && r.value.id == id && r.value.name == f.name.value && r.value.description == f.description.value
      && IsSlug(r.value.slug) && r.value.slug == MakeSlug(f.name.value)
      && Some(r.value.price) == f.price.value.cents
      && SalePriceOf(f.salePrice) == Ok(r.value.salePrice)
      && Some(r.value.stock) == ParseInt(f.stock.value)
      && r.value.sku == (if Truthy(f.sku) then f.sku.value else generatedSku)
      && Some(r.value.categoryId) == ParseInt(f.categoryId.value)
      && Some(r.value.brandId) == ParseInt(f.brandId.value)
      && r.value.featured == Featured(f.featured)
      && r.value.images == ImagesFor(uploads, f.name.value)
      && r.value.specs == specs
  {
    if !HasRequiredFields(f) then Err(MissingFields)
    else
      var name := f.name.value;
      SlugShape(name);
      match (f.price.value.cents, SalePriceOf(f.salePrice), IntColumn(f.stock.value),
             IntColumn(f.categoryId.value), IntColumn(f.brandId.value))
      case (Some(price), Ok(sale), Ok(stock), Ok(categoryId), Ok(brandId)) =>
        Ok(Product(id, name, MakeSlug(name), f.description.value, price, sale, stock,
                   if Truthy(f.sku) then f.sku.value else generatedSku,
                   categoryId, brandId, Featured(f.featured), ImagesFor(uploads, name), specs))
      case _ => Err(ServerError)
  }

  /** A zero stock is accepted while a zero price is accepted only as text:
      the check is on the field's text, not its value. */
  lemma ZeroStockAccepted(f: ProductForm)
    requires HasRequiredFields(f) && f.price.value.cents.Some?
    requires f.salePrice.None? && f.stock == Some("0")
    requires ParseInt(f.categoryId.value).Some? && ParseInt(f.brandId.value).Some?
    ensures NewProduct(7, f, "generated", [], []).Ok?
    ensures NewProduct(7, f, "generated", [], []).value.stock == 0
  {
    assert AllDigits("0");
    assert ParseDecimal("0") == 0;
  }

  /** `prisma.product.create`: the new row under the next id. */
  method InsertProduct(shop: Shop, p: Product)
    requires shop.Valid() && p.id == shop.nextProductId
    modifies shop`products, shop`nextProductId
    ensures shop.Valid()
    ensures shop.products == old(shop.products)[p.id := p] && shop.nextProductId == old(shop.nextProductId) + 1
  {
    shop.products := shop.products[p.id := p];
    shop.nextProductId := shop.nextProductId + 1;
    assert ProductsKeyed(shop.products, shop.nextProductId);
    assert OrdersKeyed(shop.orders, shop.nextOrderId);
    assert CartRefersTo(shop.cart, shop.products);
  }

  /** `createProduct`: the new row under the next id, or the refusal with no
      change. `generatedSku` stands for the timestamp-and-random fallback. */
  method CreateProduct(shop: Shop, f: ProductForm, generatedSku: string, uploads: seq<string>)
    returns (r: Result<Product, Error>)
    requires shop.Valid()
    modifies shop`products, shop`nextProductId
    ensures shop.Valid()
    ensures r == NewProduct(old(shop.nextProductId), f, generatedSku, uploads, SpecsFor(f))
    ensures r.Ok? ==> shop.products == old(shop.products)[r.value.id := r.value]
                      && shop.nextProductId == old(shop.nextProductId) + 1
    ensures r.Err? ==> shop.products == old(shop.products) && shop.nextProductId == old(shop.nextProductId)
  {
    if !HasRequiredFields(f) {
      return Err(MissingFields);
    }
    var specs: seq<Spec>;
    if f.specifications.Some? {
      specs := f.specifications.value;
    } else {
      specs := BuildSpecs(f);
    }
    assert specs == SpecsFor(f);
    r := NewProduct(shop.nextProductId, f, generatedSku, uploads, specs);
    if r.Ok? {
      InsertProduct(shop, r.value);
    }
  }

  // ---------------------------------------------------------------------
  // Update

  /** The writes `updateProduct` makes before the row update: uploaded images
      appended (alt text `name || product.name`) and a sent specification
      list replacing the old one. */
  function Staged(p: Product, f: ProductForm, uploads: seq<string>): (r: Product)
    ensures r == p.(images := r.images, specs := r.specs)
    ensures r.images == p.images + ImagesFor(uploads, MergeTruthy(p.name, f.name))
    ensures f.specifications.Some? ==> r.specs == f.specifications.value
    ensures f.specifications.None? ==> r.specs == p.specs
  {
    p.(images := p.images + ImagesFor(uploads, MergeTruthy(p.name, f.name)),
       specs := if f.specifications.Some? then f.specifications.value else p.specs)
  }

  /** The spread of the row update: name, description, price, category and
      brand change when truthy; sale price, stock and featured whenever they
      were sent, a falsy sale price becoming null. Slug and sku never change. */
  function MergeProduct(p: Product, f: ProductForm): (r: Result<Product, Error>)
    ensures r.Err? ==> r.error == ServerError
    ensures r.Ok? ==>
      && r.value.id == p.id && r.value.slug == p.slug && r.value.sku == p.sku
      && r.value.images == p.images && r.value.specs == p.specs
      && r.value.name == MergeTruthy(p.name, f.name)
      && r.value.description == MergeTruthy(p.description, f.description)
      && (AmountTruthy(f.price) ==> Some(r.value.price) == f.price.value.cents)
      && (!AmountTruthy(f.price) ==> r.value.price == p.price)
      && (f.salePrice.Some? ==> Ok(r.value.salePrice) == SalePriceOf(f.salePrice))
      && (f.salePrice.Some? && !AmountTruthy(f.salePrice) ==> r.value.salePrice.None?)
      && (f.salePrice.None? ==> r.value.salePrice == p.salePrice)
      && (f.stock.Some? ==> Some(r.value.stock) == ParseInt(f.stock.value))
      && (f.stock.None? ==> r.value.stock == p.stock)
      && (Truthy(f.categoryId) ==> Some(r.value.categoryId) == ParseInt(f.categoryId.value))
      && (!Truthy(f.categoryId) ==> r.value.categoryId == p.categoryId)
      && (Truthy(f.brandId) ==> Some(r.value.brandId) == ParseInt(f.brandId.value))
      && (!Truthy(f.brandId) ==> r.value.brandId == p.brandId)
      && (f.featured.Some? ==> r.value.featured == Featured(f.featured))
      && (f.featured.None? ==> r.value.featured == p.featured)
    ensures r.Err? <==> (AmountTruthy(f.price) && f.price.value.cents.None?)
                        || (f.salePrice.Some? && SalePriceOf(f.salePrice).Err?)
                        || (f.stock.Some? && ParseInt(f.stock.value).None?)
                        || (Truthy(f.categoryId) && ParseInt(f.categoryId.value).None?)
                        || (Truthy(f.brandId) && ParseInt(f.brandId.value).None?)
  {
    var price := if AmountTruthy(f.price) then f.price.value.cents else Some(p.price);
    var sale := if f.salePrice.Some? then SalePriceOf(f.salePrice) else Ok(p.salePrice);
    var stock := if f.stock.Some? then IntColumn(f.stock.value) else Ok(p.stock);
    var categoryId := if Truthy(f.categoryId) then IntColumn(f.categoryId.value) else Ok(p.categoryId);
    var brandId := if Truthy(f.brandId) then IntColumn(f.brandId.value) else Ok(p.brandId);
    var featured := if f.featured.Some? then Featured(f.featured) else p.featured;
    if price.None? || sale.Err? || stock.Err? || categoryId.Err? || brandId.Err? then Err(ServerError)
    else Ok(p.(name := MergeTruthy(p.name, f.name), description := MergeTruthy(p.description, f.description),
               price := price.value, salePrice := sale.value, stock := stock.value,
               categoryId := categoryId.value, brandId := brandId.value, featured := featured))
  }

  /** An update request with no fields and no files leaves the product as it
      was. */
  lemma EmptyUpdateKeepsProduct(p: Product)
    ensures Staged(p, EmptyForm, []) == p
    ensures MergeProduct(p, EmptyForm) == Ok(p)
  {
    assert p.images + ImagesFor([], p.name) == p.images;
  }

  /** Sending the same update twice has the effect of sending it once. */
  lemma MergeIdempotent(p: Product, f: ProductForm)
    requires MergeProduct(p, f).Ok?
    ensures MergeProduct(MergeProduct(p, f).value, f) == MergeProduct(p, f)
  {
  }

  /** `updateProduct`: ServerError for an unparsable id, NotFound for an
      unknown one. Otherwise the images and specifications are written first
      and the row update last, so a NaN that makes the row update throw
      still leaves the new images and specifications in place. */
  method UpdateProduct(shop: Shop, id: string, f: ProductForm, uploads: seq<string>)
    returns (r: Result<Product, Error>)
    requires shop.Valid()
    modifies shop`products
    ensures shop.Valid()
    ensures ParseInt(id).None? ==> r == Err(ServerError) && shop.products == old(shop.products)
    ensures ParseInt(id).Some? && ParseInt(id).value !in old(shop.products) ==>
              r == Err(NotFound) && shop.products == old(shop.products)
    ensures ParseInt(id).Some? && ParseInt(id).value in old(shop.products) ==>
      var key := ParseInt(id).value;
      var staged := Staged(old(shop.products)[key], f, uploads);
      && r == MergeProduct(staged, f)
      && shop.products == old(shop.products)[key := if r.Ok? then r.value else staged]
  {
    var key := ParseInt(id);
    if key.None? {
      return Err(ServerError);
    }
    if key.value !in shop.products {
      return Err(NotFound);
    }
    var k := key.value;
    var staged := Staged(shop.products[k], f, uploads);
    WriteProduct(shop, staged);
    r := MergeProduct(staged, f);
    if r.Ok? {
      WriteProduct(shop, r.value);
    }
  }

  /** `prisma.product.update` of a stored row that keeps its id. */
  method WriteProduct(shop: Shop, p: Product)
    requires shop.Valid() && p.id in shop.products
    modifies shop`products
    ensures shop.Valid()
    ensures shop.products == old(shop.products)[p.id := p]
  {
    shop.products := shop.products[p.id := p];
    assert ProductsKeyed(shop.products, shop.nextProductId);
    assert CartRefersTo(shop.cart, shop.products);
  }

  // ---------------------------------------------------------------------
  // Comparison and ratings

  /** `compareProducts`: the `ids` parameter is required, split on ',' and
      limited to three entries; an entry that is not a number makes the
      query throw. The answer is the set of ids that name a product. */
  function CompareProducts(products: map<int, Product>, ids: Option<string>): (r: Result<set<int>, Error>)
    ensures !Truthy(ids) ==> r == Err(IdsRequired)
    ensures Truthy(ids) && |Split(ids.value, ',')| > 3 ==> r == Err(TooManyIds)
    ensures Truthy(ids) && |Split(ids.value, ',')| <= 3 ==>
              (r.Err? <==> None in ParsedIds(ids.value)) && (r.Err? ==> r.error == ServerError)
    ensures r.Ok? ==> |r.value| <= 3
                      && forall id :: id in r.value <==> id in products && Some(id) in ParsedIds(ids.value)
  {
    if !Truthy(ids) then Err(IdsRequired)
    else
      var parts := Split(ids.value, ',');
      if |parts| > 3 then Err(TooManyIds)
      else
        var parsed := ParsedIds(ids.value);
        if None in parsed then Err(ServerError) else Ok(FoundIds(parsed, products))
  }

  function ParsedIds(ids: string): (r: seq<Option<int>>)
    ensures |r| == |Split(ids, ',')|
  {
    var parts := Split(ids, ',');
    seq(|parts|, i requires 0 <= i < |parts| => ParseInt(parts[i]))
  }

  /** `where: { id: { in: productIds } }`: the listed ids that name a product. */
  function FoundIds(parsed: seq<Option<int>>, products: map<int, Product>): (r: set<int>)
    requires None !in parsed
    ensures |r| <= |parsed|
    ensures forall id :: id in r <==> id in products && Some(id) in parsed
  {
    if parsed == [] then {}
    else
      var rest := FoundIds(parsed[1..], products);
      assert forall x :: x in parsed <==> x == parsed[0] || x in parsed[1..];
      if parsed[0].value in products && parsed[0].value !in rest then {parsed[0].value} + rest else rest
  }

  /** The rating a listing attaches to a product: its review count and the
      mean rating rounded to one decimal (0 without reviews). */
  function ProductRating(reviews: seq<Review>, productId: int): (r: (real, nat))
    ensures r.1 == |ProductReviews(reviews, productId)|
    ensures r.0 == Round1(AverageRating(ProductReviews(reviews, productId)))
    ensures RatingsInRange(reviews) && r.1 == 0 ==> r.0 == 0.0
    ensures RatingsInRange(reviews) && r.1 > 0 ==> 1.0 <= r.0 <= 5.0
    ensures (r.0 * 10.0).Floor as real == r.0 * 10.0
  {
    var mine := ProductReviews(reviews, productId);
    var answer := (Round1(AverageRating(mine)), |mine|);
    if RatingsInRange(reviews) then
      StatsConsistent(mine);
      answer
    else answer
  }
}
