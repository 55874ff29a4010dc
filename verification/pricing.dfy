/** The price shown for a product: `firstNumber(p.price ?? p.price_usd ?? p.usd)`
    (js/products.js:182-183, js/detalle.js:31, 99, 105). The USD/PEN
    conversion and the `toFixed` formatting are not modelled. */
module Pricing {
  import opened Options
  import opened JsValue
  import opened Products
  import JsNumber

  /** `p.price ?? p.price_usd ?? p.usd`. */
  function PriceField(p: Product): Prim {
    Coalesce(Coalesce(p.price, p.priceUsd), p.usd)
  }

  /** The USD price as a number, or null. */
  function UsdPrice(p: Product): Option<real> {
    FirstNumber(PriceField(p))
  }

  /** The detail page shows "Gratis" when there is no price or it is zero. */
  predicate DetailFree(usd: Option<real>) {
    usd.None? || usd == Some(0.0)
  }

  /** The listing card shows "Gratis" unless there is a positive price. */
  predicate ListingFree(usd: Option<real>) {
    !(usd.Some? && usd.value > 0.0)
  }

  predicate DetailShowsFree(p: Product) {
    DetailFree(UsdPrice(p))
  }

  predicate ListingShowsFree(p: Product) {
    ListingFree(UsdPrice(p))
  }

  /** None of the three price fields holds a value. */
  predicate PriceAbsent(p: Product) {
    IsNullish(p.price) && IsNullish(p.priceUsd) && IsNullish(p.usd)
  }

  /** The price comes from the first of `price`, `price_usd`, `usd` that is
      neither null nor undefined. */
  lemma PricePrecedence(p: Product)
    ensures !IsNullish(p.price) ==> PriceField(p) == p.price
    ensures IsNullish(p.price) && !IsNullish(p.priceUsd) ==> PriceField(p) == p.priceUsd
    ensures IsNullish(p.price) && IsNullish(p.priceUsd) ==> PriceField(p) == p.usd
    ensures PriceAbsent(p) <==> IsNullish(PriceField(p))
  {
  }

  /** The detail page calls a product free exactly when its price is
      absent, not a finite number, or zero. */
  lemma DetailFreeIff(p: Product)
    ensures DetailShowsFree(p) <==>
      PriceAbsent(p) || !ToNumber(PriceField(p)).IsFinite() || ToNumber(PriceField(p)) == JsNumber.Finite(0.0)
  {
  }

  /** The two pages agree except on negative prices, which the listing
      shows as free and the detail page shows as a price. */
  lemma ListingAndDetailAgree(p: Product)
    ensures DetailShowsFree(p) ==> ListingShowsFree(p)
    ensures ListingShowsFree(p) && !DetailShowsFree(p) <==> UsdPrice(p).Some? && UsdPrice(p).value < 0.0
  {
    FreeVerdicts(UsdPrice(p));
  }

  lemma FreeVerdicts(usd: Option<real>)
    ensures DetailFree(usd) ==> ListingFree(usd)
    ensures ListingFree(usd) && !DetailFree(usd) <==> usd.Some? && usd.value < 0.0
  {
  }
}
