/** Money and the order pricing rule. Amounts are integer cents (the price
    columns carry two decimals), so sums of prices are exact; the 10% tax
    may fall between cents and is an exact rational number of cents. */
module Pricing {
  import opened Common

  type Cents = int

  /** `product.salePrice || product.price`: a sale price that is absent, null
      or 0 falls back to the list price. */
  function EffectivePrice(price: Cents, salePrice: Option<Cents>): (r: Cents)
    ensures TruthyNum(salePrice) ==> r == salePrice.value
    ensures !TruthyNum(salePrice) ==> r == price
  {
    if TruthyNum(salePrice) then salePrice.value else price
  }

  /** Shipping is free strictly above $100.00, else $10.00. */
  const FreeShippingAbove: Cents := 10000
  const ShippingFee: Cents := 1000

  datatype Totals = Totals(itemsPrice: Cents, taxPrice: real, shippingPrice: Cents, totalPrice: real)

  function ShippingPrice(itemsPrice: Cents): Cents {
    if itemsPrice > FreeShippingAbove then 0 else ShippingFee
  }

  /** Tax, shipping and grand total of an order whose items cost `itemsPrice`. */
  function ComputeTotals(itemsPrice: Cents): (t: Totals)
    ensures t.itemsPrice == itemsPrice
    ensures t.taxPrice * 10.0 == itemsPrice as real
    ensures t.shippingPrice == 0 <==> itemsPrice > 10000
    ensures t.shippingPrice != 0 ==> t.shippingPrice == 1000
    ensures t.totalPrice == itemsPrice as real + t.taxPrice + t.shippingPrice as real
  {
    var tax := itemsPrice as real * 0.1;
    var shipping := ShippingPrice(itemsPrice);
    Totals(itemsPrice, tax, shipping, itemsPrice as real + tax + shipping as real)
  }

  /** The grand total is 110% of the items plus the fee, which is waived
      strictly above the threshold. */
  lemma TotalIsItemsPlusTaxPlusShipping(itemsPrice: Cents)
    ensures ComputeTotals(itemsPrice).totalPrice ==
            1.1 * itemsPrice as real + (if itemsPrice > 10000 then 0.0 else 1000.0)
  {
  }

  /** Exactly $100.00 of items still pays shipping. */
  lemma ThresholdPaysShipping()
    ensures ComputeTotals(10000) == Totals(10000, 1000.0, 1000, 12000.0)
  {
  }

  /** The waived fee makes the total drop when the items cross the threshold. */
  lemma TotalNotMonotone()
    ensures ComputeTotals(10000).totalPrice > ComputeTotals(10001).totalPrice
  {
  }
}
