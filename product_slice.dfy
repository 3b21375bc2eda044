/**
 * The product store (src/reducers/productSlice.ts): its state record, the
 * seven reducers, and the count of active filters.
 *
 * A reducer takes the current state and an action and gives the next state;
 * `Reduce` is that pure function. `ProductStore` is the same state held in
 * fields that each reducer assigns in place, as the source does on its
 * draft, and each of its methods is proved to produce exactly `Reduce`'s
 * next state.
 */
module ProductSlice {
  import opened CatalogTypes
  import opened Settings

  /** The country filter value meaning "no country filter". */
  const ALL: string := "All"

  datatype ProductState = ProductState(
    products: seq<Product>,
    countryFilter: string,
    priceRangeFilter: PriceRange,
    sortBy: SortKey,
    isShowFilterDrawer: bool,
    currentPage: int)

  /** True when the price range is exactly the configured default range. */
  predicate IsFullPriceRange(range: PriceRange, cfg: Config) {
    range.lower == cfg.minPrice && range.upper == cfg.maxPrice
  }

  /** True when no filter is applied: every country and the full price range. */
  predicate NoFilterApplied(s: ProductState, cfg: Config) {
    s.countryFilter == ALL && IsFullPriceRange(s.priceRangeFilter, cfg)
  }

  /** The state before any action: no product, no filter, ascending price, page 1. */
  function InitialState(cfg: Config): (s: ProductState)
    ensures s.products == [] && NoFilterApplied(s, cfg)
    ensures s.sortBy == PriceAsc && !s.isShowFilterDrawer && s.currentPage == 1
  {
    ProductState([], ALL, PriceRange(cfg.minPrice, cfg.maxPrice), PriceAsc, false, 1)
  }

  datatype ProductAction =
    | SetProducts(newProducts: seq<Product>)
    | SetCountryFilter(country: string)
    | SetPriceRangeFilter(lower: int, upper: int)
    | SetSorting(key: SortKey)
    | ResetFilter
    | SetIsShowFilterDrawer(show: bool)
    | SetCurrentPage(page: int)

  /** The actions that change what the product list shows, and so go back to page 1. */
  predicate ChangesView(a: ProductAction) {
    a.SetCountryFilter? || a.SetPriceRangeFilter? || a.SetSorting? || a.ResetFilter?
  }

  /**
   * The reducer. Read field by field, its contract says which actions may
   * change each field and to what; every other action leaves it alone.
   */
  function Reduce(cfg: Config, s: ProductState, a: ProductAction): (r: ProductState)
    ensures r.products == if a.SetProducts? then a.newProducts else s.products
    ensures r.countryFilter ==
      if a.SetCountryFilter? then a.country
      else if a.ResetFilter? then ALL
      else s.countryFilter
    ensures r.priceRangeFilter ==
      if a.SetPriceRangeFilter? then PriceRange(a.lower, a.upper)
      else if a.ResetFilter? then PriceRange(cfg.minPrice, cfg.maxPrice)
      else s.priceRangeFilter
    ensures r.sortBy == if a.SetSorting? then a.key else s.sortBy
    ensures r.isShowFilterDrawer == if a.SetIsShowFilterDrawer? then a.show else s.isShowFilterDrawer
    ensures r.currentPage ==
      if a.SetCurrentPage? then a.page
      else if ChangesView(a) then 1
      else s.currentPage
  {
    match a
    case SetProducts(ps) => s.(products := ps)
    case SetCountryFilter(c) => s.(countryFilter := c, currentPage := 1)
    case SetPriceRangeFilter(lo, hi) =>
      s.(priceRangeFilter := s.priceRangeFilter.(lower := lo).(upper := hi), currentPage := 1)
    case SetSorting(k) => s.(sortBy := k, currentPage := 1)
    case ResetFilter =>
      s.(priceRangeFilter := PriceRange(cfg.minPrice, cfg.maxPrice), countryFilter := ALL, currentPage := 1)
    case SetIsShowFilterDrawer(b) => s.(isShowFilterDrawer := b)
    case SetCurrentPage(p) => s.(currentPage := p)
  }

  /** The number of filters in use: one for the country, one for the price range. */
  function ActiveFilterCount(s: ProductState, cfg: Config): (n: nat)
    ensures n <= 2
    ensures n == 0 <==> NoFilterApplied(s, cfg)
    ensures n == 2 <==> s.countryFilter != ALL && !IsFullPriceRange(s.priceRangeFilter, cfg)
  {
    (if s.countryFilter != ALL then 1 else 0)
    + (if !IsFullPriceRange(s.priceRangeFilter, cfg) then 1 else 0)
  }

  /** `getCurrentCountFilterApply`: counts the active filters one by one. */
  method GetCurrentCountFilterApply(s: ProductState, cfg: Config) returns (count: nat)
    ensures count == ActiveFilterCount(s, cfg)
  {
    count := 0;
    if s.countryFilter != ALL {
      count := count + 1;
    }
    if s.priceRangeFilter.lower != cfg.minPrice || s.priceRangeFilter.upper != cfg.maxPrice {
      count := count + 1;
    }
  }

  /**
   * After a reset no filter is applied, whatever the state before, and the
   * products, the sort key and the drawer flag are what they were.
   */
  lemma ResetClearsFilters(cfg: Config, s: ProductState)
    ensures var r := Reduce(cfg, s, ResetFilter);
      && ActiveFilterCount(r, cfg) == 0
      && r == InitialState(cfg).(products := s.products, sortBy := s.sortBy,
                                 isShowFilterDrawer := s.isShowFilterDrawer)
  {
  }

  /** Choosing a country counts one filter more than before exactly when no country was chosen. */
  lemma CountryFilterCount(cfg: Config, s: ProductState, c: string)
    requires s.countryFilter == ALL && c != ALL
    ensures ActiveFilterCount(Reduce(cfg, s, SetCountryFilter(c)), cfg) == ActiveFilterCount(s, cfg) + 1
  {
  }

  /** Each reducer's effect depends only on its payload: applying it twice equals applying it once. */
  lemma ReduceIdempotent(cfg: Config, s: ProductState, a: ProductAction)
    ensures Reduce(cfg, Reduce(cfg, s, a), a) == Reduce(cfg, s, a)
  {
  }

  /** The store: the state record held in fields that the reducers assign. */
  class ProductStore {
    const config: Config
    var products: seq<Product>
    var countryFilter: string
    var priceRangeFilter: PriceRange
    var sortBy: SortKey
    var isShowFilterDrawer: bool
    var currentPage: int

    /** The value of the store's fields, as the selectors see it. */
    function State(): ProductState
      reads this
    {
      ProductState(products, countryFilter, priceRangeFilter, sortBy, isShowFilterDrawer, currentPage)
    }

    constructor (config: Config)
      ensures this.config == config && State() == InitialState(config)
    {
      this.config := config;
      products := [];
      countryFilter := ALL;
      priceRangeFilter := PriceRange(config.minPrice, config.maxPrice);
      sortBy := PriceAsc;
      isShowFilterDrawer := false;
      currentPage := 1;
    }

    method SetProducts(payload: seq<Product>)
      modifies this
      ensures State() == old(State()).(products := payload)
      ensures State() == Reduce(config, old(State()), ProductAction.SetProducts(payload))
    {
      products := payload;
    }

    method SetCountryFilter(payload: string)
      modifies this
      ensures State() == old(State()).(countryFilter := payload, currentPage := 1)
      ensures State() == Reduce(config, old(State()), ProductAction.SetCountryFilter(payload))
    {
      countryFilter := payload;
      currentPage := 1;
    }

    method SetPriceRangeFilter(lower: int, upper: int)
      modifies this
      ensures State() == old(State()).(priceRangeFilter := PriceRange(lower, upper), currentPage := 1)
      ensures State() == Reduce(config, old(State()), ProductAction.SetPriceRangeFilter(lower, upper))
    {
      priceRangeFilter := priceRangeFilter.(lower := lower);
      priceRangeFilter := priceRangeFilter.(upper := upper);
      currentPage := 1;
    }

    method SetSorting(payload: SortKey)
      modifies this
      ensures State() == old(State()).(sortBy := payload, currentPage := 1)
      ensures State() == Reduce(config, old(State()), ProductAction.SetSorting(payload))
    {
      sortBy := payload;
      currentPage := 1;
    }

    method ResetFilter()
      modifies this
      ensures State() == old(State()).(countryFilter := ALL,
                                       priceRangeFilter := PriceRange(config.minPrice, config.maxPrice),
                                       currentPage := 1)
      ensures State() == Reduce(config, old(State()), ProductAction.ResetFilter)
      ensures ActiveFilterCount(State(), config) == 0
    {
      priceRangeFilter := priceRangeFilter.(lower := config.minPrice);
      priceRangeFilter := priceRangeFilter.(upper := config.maxPrice);
      countryFilter := ALL;
      currentPage := 1;
    }

    method SetIsShowFilterDrawer(payload: bool)
      modifies this
      ensures State() == old(State()).(isShowFilterDrawer := payload)
      ensures State() == Reduce(config, old(State()), ProductAction.SetIsShowFilterDrawer(payload))
    {
      isShowFilterDrawer := payload;
    }

    method SetCurrentPage(payload: int)
      modifies this
      ensures State() == old(State()).(currentPage := payload)
      ensures State() == Reduce(config, old(State()), ProductAction.SetCurrentPage(payload))
    {
      currentPage := payload;
    }
  }
}
