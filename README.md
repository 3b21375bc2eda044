# Product catalogue filter and sort state, in Dafny

This project models the core of a browser product catalogue: the store that
holds the product list together with the country filter, the price-range
filter, the sort key, the filter-drawer flag and the current page; the
count of active filters; the derived list of products that pass the filters,
with configured brands shown reversed, stably sorted by price; the display
helpers for a brand's tag colour and the "Deposited ... ago" text; the
decision logic of the filter panel; and the country store.

Modules, one per source file or concern:

- `CatalogTypes` (catalog_types.dfy): products, prices, sellers, countries,
  the price range and the sort key.
- `Text` (text.dfy): the JavaScript string operations the code relies on:
  split on one character, trim, join, character reversal and decimal
  rendering of whole numbers. Each has its inverse or a characterisation
  proved.
- `Settings` (settings.dfy): the price bounds and the list of reversed brands
  taken from the build environment, with their defaults 0, 2000 and
  "Louis Vuitton".
- `ProductSlice` (product_slice.dfy): the state record, the pure reducer
  `Reduce` and the class `ProductStore`, whose seven methods assign its
  fields in place and are each proved to produce `Reduce`'s next state. It
  also holds the active-filter count.
- `ProductSelectors` (product_selectors.dfy): the derived product list.
- `Utils` (utils.dfy): the tag colour and the deposit text.
- `FilterComponent` (filter_component.dfy): the filter panel's handlers over a
  `ProductStore`.
- `CountrySlice` (country_slice.dfy): the country store.

No reducer enforces `lower <= upper` on the price range:
`setPriceRangeFilter` stores any pair, and so does the model. Of paging, only
the `currentPage` field is modelled.

## Model

| member | source | states |
|---|---|---|
| `Text.Trim` | src/reducers/productSlice.ts:13 | neither end of the trimmed text is whitespace, and an already trimmed string is unchanged |
| `Text.TrimInfix` | src/reducers/productSlice.ts:13 | the input is leading whitespace, then the trimmed text, then trailing whitespace |
| `Text.Split` | src/reducers/productSlice.ts:12 | splitting gives at least one piece and no piece holds the separator |
| `Text.JoinSplit` | src/reducers/productSlice.ts:12 | joining the pieces of a split with the separator gives back the original string |
| `Text.SplitJoin` | src/reducers/productSlice.ts:12 | splitting a join of separator-free pieces gives back the pieces |
| `Text.Join` | src/utils/utils.tsx:39 | joining no parts gives the empty string, and a single part gives that part unchanged; otherwise the text starts with the first part, followed by the separator when there are more parts |
| `Text.Reverse` | src/reducers/productSlice.ts:248 | the reversed brand has the same length, and its i-th character is the input's (n-1-i)-th |
| `Text.ReverseReverse` | src/reducers/productSlice.ts:248 | reversing twice gives back the original brand |
| `Text.NatToString` | src/utils/utils.tsx:31 | a number renders as a non-empty string of decimal digits without a leading zero |
| `Text.DecimalRoundTrip` | src/utils/utils.tsx:31 | the rendered digits read back as the number |
| `Settings.ConfiguredNumber` | src/reducers/productSlice.ts:7-8 | the fallback is used exactly when the variable is NaN, zero or the fallback itself; otherwise its value is used |
| `Settings.TrimNonEmpty` | src/reducers/productSlice.ts:13-14 | the entries are exactly the non-empty trimmed pieces, and there are no more of them than pieces |
| `Settings.ParseBrandList` | src/reducers/productSlice.ts:11-14 | every brand in the list is non-empty, comma-free and trimmed, and the list holds exactly the non-empty trimmed comma-separated pieces of the variable |
| `Settings.ParseSingleBrand` | src/reducers/productSlice.ts:11-14 | a single brand name without commas or outer whitespace parses to a list of itself alone |
| `Settings.LoadConfig` | src/reducers/productSlice.ts:7-14 | the bounds come from the variables with fallbacks 0 and 2000, and an unset or empty brand variable falls back to "Louis Vuitton" |
| `Settings.DefaultConfig` | src/reducers/productSlice.ts:7-14 | with nothing configured, the range is 0 to 2000 and only "Louis Vuitton" is reversed |
| `ProductSlice.InitialState` | src/reducers/productSlice.ts:37-47 | the initial state has no products and no active filter, sorts by ascending price, hides the drawer and is on page 1 |
| `ProductSlice.Reduce` | src/reducers/productSlice.ts:63-134 | for each field, which action may change it and to what: filter, sort and reset actions set the page to 1, and every other field is unchanged |
| `ProductSlice.ActiveFilterCount` | src/reducers/productSlice.ts:199-207 | the count is at most 2; it is 0 exactly when the country is "All" and both bounds are at their defaults, and 2 exactly when both a country and a non-default range are set |
| `ProductSlice.GetCurrentCountFilterApply` | src/reducers/productSlice.ts:199-207 | the counter, incremented once per active filter, ends at the active-filter count |
| `ProductSlice.ResetClearsFilters` | src/reducers/productSlice.ts:109-114 | after a reset the count is 0, the filters and page are their initial values, and products, sort key and drawer flag are unchanged |
| `ProductSlice.CountryFilterCount` | src/reducers/productSlice.ts:199-207 | choosing a country when none was chosen raises the count by exactly one |
| `ProductSlice.ReduceIdempotent` | src/reducers/productSlice.ts:63-134 | dispatching the same action twice gives the same state as dispatching it once |
| `ProductSlice.ProductStore.constructor` | src/reducers/productSlice.ts:37-47 | a new store holds the initial state |
| `ProductSlice.ProductStore.SetProducts` | src/reducers/productSlice.ts:63-65 | replaces the products and nothing else |
| `ProductSlice.ProductStore.SetCountryFilter` | src/reducers/productSlice.ts:73-76 | sets the country, goes back to page 1 and changes nothing else |
| `ProductSlice.ProductStore.SetPriceRangeFilter` | src/reducers/productSlice.ts:84-91 | sets both bounds, goes back to page 1 and changes nothing else |
| `ProductSlice.ProductStore.SetSorting` | src/reducers/productSlice.ts:99-102 | sets the sort key, goes back to page 1 and changes nothing else |
| `ProductSlice.ProductStore.ResetFilter` | src/reducers/productSlice.ts:109-114 | restores "All", the minimum and the maximum, goes back to page 1, leaves the rest unchanged, and leaves the count at 0 |
| `ProductSlice.ProductStore.SetIsShowFilterDrawer` | src/reducers/productSlice.ts:122-124 | sets the drawer flag and nothing else |
| `ProductSlice.ProductStore.SetCurrentPage` | src/reducers/productSlice.ts:132-134 | sets the page and nothing else |
| `CatalogTypes.SortKeyOf` | src/types/common.types.ts:67-72 | "priceASC" is the ascending key and "priceDES" the descending key, exactly; every other string is an unknown key that keeps its value |
| `ProductSelectors.MatchesCountry` | src/reducers/productSlice.ts:225-227 | "All" lets every product through; any other country passes exactly the products that ship to it |
| `ProductSelectors.MatchesPriceRange` | src/reducers/productSlice.ts:228-233 | the default range passes everything; otherwise a product passes exactly when it costs at least the lower bound and, unless the upper bound is the maximum, at most the upper bound |
| `ProductSelectors.DisplayBrand` | src/reducers/productSlice.ts:234-252 | a configured brand is replaced by its reversal, other products are returned as they are, and every field other than the brand is kept |
| `ProductSelectors.EvaluateProduct` | src/reducers/productSlice.ts:224-253 | a product yields a value exactly when it passes the country and price tests, and that value is its displayed form |
| `ProductSelectors.FilterProducts` | src/reducers/productSlice.ts:223-254 | the filtered list is no longer than the input |
| `ProductSelectors.PassingIndices` | src/reducers/productSlice.ts:223-254 | the passing positions are in range and strictly increasing |
| `ProductSelectors.PassingIndicesMatch` | src/reducers/productSlice.ts:223-254 | the passing positions are exactly the positions whose product passes both tests |
| `ProductSelectors.FilterProductsExact` | src/reducers/productSlice.ts:223-254 | the j-th filtered product is the displayed form of the product at the j-th passing position, so the list is the passing products in input order |
| `ProductSelectors.FilteredShipToCountry` | src/reducers/productSlice.ts:225-227 | with a country other than "All" chosen, every listed product ships to it |
| `ProductSelectors.FilteredWithinPriceRange` | src/reducers/productSlice.ts:228-233 | away from the default range, every listed product costs at least the lower bound, and at most the upper bound unless that bound is the maximum |
| `ProductSelectors.NoFilterKeepsEverything` | src/reducers/productSlice.ts:225-233 | with "All" and the default range, every product is listed in input order |
| `ProductSelectors.RankAgreesWithComparator` | src/reducers/productSlice.ts:256-265 | the rank order is the comparator's order: one product ranks at most another exactly when the comparator does not put it after, equal ranks exactly when it returns 0, and the comparator is antisymmetric |
| `ProductSelectors.InsertByRank` | src/reducers/productSlice.ts:256-266 | inserting makes the list exactly one element longer |
| `ProductSelectors.InsertByRankPermutes` | src/reducers/productSlice.ts:256-266 | inserting adds exactly the one element and loses none |
| `ProductSelectors.InsertKeepsSorted` | src/reducers/productSlice.ts:256-266 | inserting into a sorted list keeps it sorted |
| `ProductSelectors.SortProducts` | src/reducers/productSlice.ts:256-266 | the sorted list is a permutation of its input and is ordered by the comparator |
| `ProductSelectors.InsertWithPrice` | src/reducers/productSlice.ts:256-266 | insertion puts the new element before every element of equal price |
| `ProductSelectors.SortKeepsEqualPricesInOrder` | src/reducers/productSlice.ts:256-266 | the sort is stable: for every price, the products with that price keep their input order |
| `ProductSelectors.OtherKeyKeepsOrder` | src/reducers/productSlice.ts:263-264 | a key outside the enumeration leaves the order unchanged |
| `ProductSelectors.SortedPrices` | src/reducers/productSlice.ts:258-261 | ascending gives non-decreasing prices and descending gives non-increasing ones |
| `ProductSelectors.SelectSortedFilteredProducts` | src/reducers/productSlice.ts:215-268 | the derived list is a permutation of the filtered products, ordered by the state's sort key |
| `ProductSelectors.SelectSortedFilteredProductsSpec` | src/reducers/productSlice.ts:215-268 | the derived list is a permutation of the filtered list, ordered by the key, stable on equal prices, and unchanged for an unknown key |
| `ProductSelectors.AscendingExample` | src/reducers/productSlice.ts:258-259 | products priced 500, 100 and 300 sort ascending to the order 100, 300, 500 |
| `Utils.ColorFromBrand` | src/utils/utils.tsx:4-17 | the colour is one of five; red, green, blue and orange each correspond to exactly Gucci, Chanel, Supreme and Off-White, and every other brand is pink |
| `Utils.BreakDown` | src/utils/utils.tsx:23-28 | the remaining months are below 12 and the remaining days below 30 |
| `Utils.BreakDownSums` | src/utils/utils.tsx:23-28 | months are below 12 and days below 30, and years*360 + months*30 + days is the whole number of days |
| `Utils.BreakDownUnique` | src/utils/utils.tsx:23-28 | no other split of the days meets those bounds |
| `Utils.Pluralize` | src/utils/utils.tsx:30-31 | the text starts with the decimal digits of the value followed by a space |
| `Utils.PluralizeShape` | src/utils/utils.tsx:30-31 | the text is the decimal value, which reads back as the value, a space, then the singular word for 1 and the plural word for every other value |
| `Utils.DepositParts` | src/utils/utils.tsx:34-37 | one part for each non-zero component, and each present part at its place: years first, then months, then days |
| `Utils.DepositTimeSince` | src/utils/utils.tsx:19-41 | the text starts with "Deposited " and ends with " ago", and an unparsable date gives "Deposited  ago" |
| `Utils.CalculateDepositTimeSince` | src/utils/utils.tsx:19-41 | pushing the non-zero parts one by one and joining them gives the specified text |
| `Utils.UnderADay` | src/utils/utils.tsx:23-39 | less than a day apart, the text is "Deposited  ago" |
| `Utils.PastAndFutureAlike` | src/utils/utils.tsx:22 | deposits equally far in the past and in the future read the same |
| `Utils.OnePartInOrder` | src/utils/utils.tsx:34-39 | with exactly one component present, the text is "Deposited ", that component's count and word, then " ago" |
| `Utils.FiveDays` | src/utils/utils.tsx:22-39 | five days back reads "Deposited 5 days ago" |
| `Utils.AllPartsInOrder` | src/utils/utils.tsx:34-39 | with all components present, the text lists years, months and days, separated by ", " |
| `Utils.TwoPartsInOrder` | src/utils/utils.tsx:34-39 | with exactly two components present, the text lists the larger unit, ", ", then the smaller unit |
| `Utils.FourHundredDays` | src/utils/utils.tsx:22-39 | 400 days read "Deposited 1 year, 1 month, 10 days ago" |
| `FilterComponent.HandleCountryChange` | src/components/FilterComponent/FilterComponent.tsx:47-52 | the chosen country is dispatched unchanged to the country-filter reducer |
| `FilterComponent.HandlePriceRangeChange` | src/components/FilterComponent/FilterComponent.tsx:58-65 | a two-number value sets lower and upper from its two entries; a value of any other length changes nothing |
| `FilterComponent.IsDisableResetFilter` | src/components/FilterComponent/FilterComponent.tsx:80-86 | the reset button is disabled exactly when the store's active-filter count is 0 |
| `FilterComponent.CallResetFilter` | src/components/FilterComponent/FilterComponent.tsx:92-95 | dispatches the reset, after which the reset button is disabled |
| `FilterComponent.ResetDisablesButton` | src/components/FilterComponent/FilterComponent.tsx:92-95 | from any state, the reset leaves the button disabled |
| `CountrySlice.ReduceSetCountries` | src/reducers/countrySlice.ts:35-37 | the new country list is the payload, whatever was stored before |
| `CountrySlice.GetCountriesIsLastSet` | src/reducers/countrySlice.ts:17-50 | from the initial state, getCountries gives the last list set, or undefined if none was set |
| `CountrySlice.LastWriteWins` | src/reducers/countrySlice.ts:35-37 | two sets in a row equal the second alone, and repeating a payload changes nothing |
| `CountrySlice.CountryStore.constructor` | src/reducers/countrySlice.ts:17-19 | a new store holds no list (undefined) |
| `CountrySlice.CountryStore.SetCountries` | src/reducers/countrySlice.ts:35-37 | overwrites the stored list with the payload and nothing else |
| `CountrySlice.CountryStore.GetCountries` | src/reducers/countrySlice.ts:50 | gives the stored list, or undefined when none was set |

## Left out

- Rendering and layout, the slider marks, and the promotional price display. The promotional price uses floating-point `* 0.9` and `toFixed(2)`.
- Loading the bundled data and the error and success notifications, including the message shown by `callResetFilter`. These are asynchronous I/O.
- The debounce on price-range input. It is timing behaviour only.
- Selector memoisation and the mechanics of Immer drafts. Selectors are plain functions, and each reducer is a field update on the store.
- Reading `import.meta.env` and converting text to a number with `Number`. The model takes the converted value, with `None` standing for NaN.
- Reading the clock and parsing the ISO-8601 deposit date. Both times are parameters, in milliseconds; `None` stands for a date that does not parse.
- Page slicing. The function that slices a page is not part of this model.
- Prices, bounds and slider values are whole numbers. The source compares `price_in_cents / 100` with the bounds in floating point; the model compares `price_in_cents` with `bound * 100` in integers.
- Text.Reverse: reverses Unicode characters, while the source's `split("")` reverses UTF-16 code units. The two differ only for brands with characters outside the Basic Multilingual Plane.
