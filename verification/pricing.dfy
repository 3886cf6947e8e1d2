/**
 * Pricing strategies: `StandardPriceStrategy`, `StudentStrategy` and
 * `FirstSessionStrategy`. Each maps a base price to the price after its discount.
 */
module Pricing {

  datatype PriceStrategy = StandardPriceStrategy | StudentStrategy | FirstSessionStrategy

  /** `calculateDiscount`: the price after the strategy's discount (not the discount itself). */
  function CalculateDiscount(strategy: PriceStrategy, basePrice: real): (price: real)
    ensures strategy == StandardPriceStrategy ==> price == basePrice
    ensures basePrice >= 0.0 ==> 0.0 <= price <= basePrice
    ensures basePrice == 0.0 ==> price == 0.0
  {
    match strategy
    case StandardPriceStrategy => basePrice
    case StudentStrategy => basePrice * 0.80
    case FirstSessionStrategy => basePrice * 0.90
  }

  /** The amount a strategy takes off, as the booking engine derives it. */
  function DiscountAmount(strategy: PriceStrategy, basePrice: real): (amount: real)
    ensures strategy == StandardPriceStrategy ==> amount == 0.0
    ensures basePrice >= 0.0 ==> 0.0 <= amount <= basePrice
  {
    basePrice - CalculateDiscount(strategy, basePrice)
  }

  /** Standard takes nothing off, Student 20% and First Session 10% of the base. */
  lemma DiscountRates(basePrice: real)
    ensures DiscountAmount(StandardPriceStrategy, basePrice) == 0.0
    ensures DiscountAmount(StudentStrategy, basePrice) == basePrice * 0.20
    ensures DiscountAmount(FirstSessionStrategy, basePrice) == basePrice * 0.10
  {
  }

  /** The standard strategy is the identity, so applying it twice is applying it once. */
  lemma StandardIdempotent(basePrice: real)
    ensures CalculateDiscount(StandardPriceStrategy, CalculateDiscount(StandardPriceStrategy, basePrice))
         == CalculateDiscount(StandardPriceStrategy, basePrice)
  {
  }

  /** On a non-negative base, a discount is never negative and never exceeds the base. */
  lemma DiscountBounded(strategy: PriceStrategy, basePrice: real)
    requires basePrice >= 0.0
    ensures 0.0 <= DiscountAmount(strategy, basePrice) <= basePrice * 0.20
  {
  }
}
