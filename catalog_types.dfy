/**
 * The records of the catalogue (src/types/common.types.ts). A product, its
 * price and its seller are values: they are loaded once and never mutated.
 */
module CatalogTypes {

  datatype Price = Price(currency: string, priceInCents: int, display: string)

  datatype Seller = Seller(name: string, id: int, country: string)

  datatype Product = Product(
    id: int,
    name: string,
    brand: string,
    depositedOn: string,
    price: Price,
    seller: Seller,
    shippableCountries: seq<string>)

  datatype Country = Country(code: string, name: string)

  /** The selected price range, in whole currency units. */
  datatype PriceRange = PriceRange(lower: int, upper: int)

  /** A sort value that is neither of the two enumerated ones. */
  type UnknownSortValue = v: string | v != "priceASC" && v != "priceDES" witness ""

  /**
   * The sort key. `PriceAsc` is "priceASC" and `PriceDesc` is "priceDES";
   * `Other` stands for any other value reaching the store through an untyped
   * dispatch, which the comparator treats as "always equal".
   */
  datatype SortKey = PriceAsc | PriceDesc | Other(value: UnknownSortValue)

  /**
   * The key a raw sort value stands for: each string has exactly one key, and
   * each key one string. The reducers take the key itself; this function only
   * records which string each enum member carries.
   */
  function SortKeyOf(raw: string): (k: SortKey)
    ensures k == PriceAsc <==> raw == "priceASC"
    ensures k == PriceDesc <==> raw == "priceDES"
    ensures k.Other? ==> k.value == raw
  {
    if raw == "priceASC" then PriceAsc
    else if raw == "priceDES" then PriceDesc
    else Other(raw)
  }
}
