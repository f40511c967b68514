/** The normalized shapes the eBay connector builds (`storage.models` in the
    repository). Fields that the connector copies from the item unchanged
    keep their JSON value; the two objects it builds from constructor
    defaults, `Shipping()` and `Returns(unknown=True)`, are constructors of
    their own, so nothing here depends on what those defaults are. */
module Models {
  import opened PyJson

  datatype Source = Ebay | Newegg | Manual

  datatype Condition = New | Refurb | Used | Unknown

  datatype ShippingMethod = Standard | Expedited | Unknown

  datatype Price = Price(value: real, currency: string)

  /** `Shipping()` (every field at its default) or `Shipping(cost=..., eta_days=..., method=...)`. */
  datatype Shipping =
    | DefaultShipping
    | ShippingOf(cost: Option<real>, etaDays: Option<int>, shipMethod: ShippingMethod)

  /** `Returns(unknown=True)` (the other fields at their defaults) or
      `Returns(available=..., window_days=..., unknown=False)`. */
  datatype Returns =
    | UnknownReturns
    | KnownReturns(available: Json, windowDays: Option<int>)
  {
    /** The `unknown` field. */
    predicate IsUnknown() {
      UnknownReturns?
    }
  }

  datatype Seller = Seller(name: Json, rating: Option<real>, reviews: Option<int>, isOfficial: bool)

  datatype Specs = Specs(brand: Option<string>, model: Option<string>, keyTerms: seq<string>)

  datatype Signals = Signals(sponsored: bool, lowStock: bool)

  /** Provenance; the capture timestamp is not part of the model. */
  datatype RawData = RawData(notes: string)

  datatype Listing = Listing(
    id: Json,
    source: Source,
    title: Json,
    url: Json,
    imageUrl: Json,
    price: Price,
    condition: Condition,
    shipping: Shipping,
    returnPolicy: Returns,
    seller: Seller,
    specs: Specs,
    signals: Signals,
    raw: RawData)
}
