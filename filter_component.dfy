/**
 * The decision logic of the filter panel
 * (src/components/FilterComponent/FilterComponent.tsx): what each user
 * intent dispatches into the product store, and when the reset button is
 * disabled. The panel reads the same price bounds as the store.
 */
module FilterComponent {
  import opened CatalogTypes
  import opened Settings
  import opened ProductSlice

  /** `handleCountryChange`: the chosen country goes to the store unchanged. */
  method HandleCountryChange(store: ProductStore, value: string)
    modifies store
    ensures store.State() == Reduce(store.config, old(store.State()), ProductAction.SetCountryFilter(value))
    ensures store.countryFilter == value && store.currentPage == 1
  {
    store.SetCountryFilter(value);
  }

  /**
   * `handlePriceRangeChange`: a slider value of exactly two numbers sets the
   * lower and upper bounds; any other value changes nothing.
   */
  method HandlePriceRangeChange(store: ProductStore, value: seq<int>)
    modifies store
    ensures |value| == 2 ==>
      store.State() == Reduce(store.config, old(store.State()), ProductAction.SetPriceRangeFilter(value[0], value[1]))
    ensures |value| == 2 ==> store.priceRangeFilter == PriceRange(value[0], value[1])
    ensures |value| != 2 ==> store.State() == old(store.State())
  {
    if |value| == 2 {
      store.SetPriceRangeFilter(value[0], value[1]);
    }
  }

  /** `isDisableResetFilter`: the button is off exactly when the store counts no active filter. */
  function IsDisableResetFilter(s: ProductState, cfg: Config): (disabled: bool)
    ensures disabled <==> ActiveFilterCount(s, cfg) == 0
  {
    s.countryFilter == ALL && s.priceRangeFilter.lower == cfg.minPrice && s.priceRangeFilter.upper == cfg.maxPrice
  }

  /** `callResetFilter`: dispatches the reset, after which the button is disabled. */
  method CallResetFilter(store: ProductStore)
    modifies store
    ensures store.State() == Reduce(store.config, old(store.State()), ProductAction.ResetFilter)
    ensures IsDisableResetFilter(store.State(), store.config)
  {
    store.ResetFilter();
  }

  /** Whatever the state, resetting it leaves the reset button disabled. */
  lemma ResetDisablesButton(cfg: Config, s: ProductState)
    ensures IsDisableResetFilter(Reduce(cfg, s, ResetFilter), cfg)
  {
  }
}
