/**
 * The market ("mandi") records that the price provider hands to the engine.
 * The provider builds one object per market; the quoted data never changes
 * afterwards, while the candidate-discovery fallback writes two tags onto the
 * same shared objects.
 */
module Market {
  import opened Common

  datatype LatLng = LatLng(lat: real, lng: real)

  class Mandi {
    const name: string
    const location: LatLng
    /** The quoted `price`; 0.0 stands for a missing (falsy) price. */
    const price: real
    const pricePerQuintal: real
    /** Set to true when the market enters the decision only as one of the closest out-of-range markets. */
    var isFallback: bool
    /** The distance recorded next to `isFallback`; None while the field is absent. */
    var originalDistance: Option<real>

    constructor (name: string, location: LatLng, price: real, pricePerQuintal: real)
      ensures this.name == name && this.location == location
      ensures this.price == price && this.pricePerQuintal == pricePerQuintal
      ensures !isFallback && originalDistance == None
    {
      this.name := name;
      this.location := location;
      this.price := price;
      this.pricePerQuintal := pricePerQuintal;
      isFallback := false;
      originalDistance := None;
    }
  }
}
