/**
 * Movies and customers: the immutable records a booking is about.
 * `Movie2D` and `Movie3D` are the two concrete movie classes; here they are the two
 * values of `Format`, and `CalculatePrice` dispatches on it.
 */
module Catalog {

  datatype AgeRating = GeneralAudience | Plus7 | Plus13 | Plus18

  datatype Genre = Action | Drama | Comedy | SciFi | Horror | Romance | Fantasy

  datatype Format = TwoD | ThreeD

  /**
   * A movie. Java compares movies by reference (Movie overrides no `equals`), so each
   * movie object carries an `id`; two values denote the same object iff they are equal.
   */
  datatype Movie = Movie(
    id: nat,
    title: string,
    durationMinutes: int,
    basePrice: real,
    genre: Genre,
    ageRating: AgeRating,
    format: Format)

  /** The fixed extra cost of a 3D screening (50.0 TL). */
  const THREE_D_SURCHARGE: real := 50.0

  /** `Movie2D.calculatePrice` and `Movie3D.calculatePrice`. */
  function CalculatePrice(m: Movie): (price: real)
    ensures m.format == TwoD ==> price == m.basePrice
    ensures m.format == ThreeD ==> price > m.basePrice
    ensures m.basePrice >= 0.0 ==> price >= 0.0
  {
    match m.format
    case TwoD => m.basePrice
    case ThreeD => m.basePrice + THREE_D_SURCHARGE
  }

  /** For the same base price, the 3D version costs exactly the surcharge more than the 2D one. */
  lemma ThreeDCostsSurchargeMore(m: Movie)
    ensures CalculatePrice(m.(format := ThreeD)) == CalculatePrice(m.(format := TwoD)) + THREE_D_SURCHARGE
  {
  }

  /** The price depends on the base price and the format only: not on title, duration, genre or rating. */
  lemma PriceIgnoresDescriptors(m1: Movie, m2: Movie)
    requires m1.basePrice == m2.basePrice && m1.format == m2.format
    ensures CalculatePrice(m1) == CalculatePrice(m2)
  {
  }

  /** A customer as supplied by the caller for one booking. */
  datatype Customer = Customer(
    name: string,
    surname: string,
    email: string,
    phoneNumber: string,
    birthYear: int)
}
