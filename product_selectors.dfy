/**
 * The derived product list `selectSortedFilteredProducts`
 * (src/reducers/productSlice.ts:215-268): keep the products that ship to the
 * selected country and fall in the selected price range, show the brands of
 * the configured list reversed, then sort stably by price.
 */
module ProductSelectors {
  import opened CatalogTypes
  import opened Settings
  import opened Text
  import opened Wrappers
  import opened ProductSlice

  /** The country test: "All" lets every product through; any other country only the products shipping to it. */
  function MatchesCountry(p: Product, countryFilter: string): (r: bool)
    ensures countryFilter == ALL ==> r
    ensures countryFilter != ALL ==> (r <==> countryFilter in p.shippableCountries)
  {
    countryFilter == ALL || countryFilter in p.shippableCountries
  }

  /**
   * The price test, on whole currency units compared in cents. The default
   * range lets everything through; otherwise the lower bound always applies
   * and the upper bound only when it is not the configured maximum.
   */
  function MatchesPriceRange(p: Product, range: PriceRange, cfg: Config): (r: bool)
    ensures IsFullPriceRange(range, cfg) ==> r
    ensures !IsFullPriceRange(range, cfg) && range.upper == cfg.maxPrice
      ==> (r <==> p.price.priceInCents >= range.lower * 100)
    ensures !IsFullPriceRange(range, cfg) && range.upper != cfg.maxPrice
      ==> (r <==> range.lower * 100 <= p.price.priceInCents <= range.upper * 100)
  {
    || IsFullPriceRange(range, cfg)
    || (&& p.price.priceInCents >= range.lower * 100
        && (range.upper != cfg.maxPrice ==> p.price.priceInCents <= range.upper * 100))
  }

  predicate Matches(p: Product, s: ProductState, cfg: Config) {
    MatchesCountry(p, s.countryFilter) && MatchesPriceRange(p, s.priceRangeFilter, cfg)
  }

  /** The product as listed: the brand reversed when it is a configured brand, every other field kept. */
  function DisplayBrand(p: Product, cfg: Config): (r: Product)
    ensures r == p.(brand := r.brand)
    ensures p.brand in cfg.reverseBrands ==> r.brand == Reverse(p.brand)
    ensures p.brand !in cfg.reverseBrands ==> r == p
  {
    if p.brand in cfg.reverseBrands then p.(brand := Reverse(p.brand)) else p
  }

  /** The per-product step of the `map`: the listed product, or `None` for `null`. */
  function EvaluateProduct(p: Product, s: ProductState, cfg: Config): (r: Option<Product>)
    ensures r.Some? <==> Matches(p, s, cfg)
    ensures r.Some? ==> r.value == DisplayBrand(p, cfg)
  {
    var matchesCountry := MatchesCountry(p, s.countryFilter);
    var matchesPriceRange := MatchesPriceRange(p, s.priceRangeFilter, cfg);
    if matchesCountry && matchesPriceRange && p.brand !in cfg.reverseBrands then Some(p)
    else if matchesCountry && matchesPriceRange && p.brand in cfg.reverseBrands then
      Some(p.(brand := Reverse(p.brand)))
    else None
  }

  /** `products.map(EvaluateProduct).filter(p => p !== null)`. */
  function FilterProducts(ps: seq<Product>, s: ProductState, cfg: Config): (r: seq<Product>)
    ensures |r| <= |ps|
  {
    if ps == [] then []
    else
      match EvaluateProduct(ps[0], s, cfg)
      case Some(q) => [q] + FilterProducts(ps[1..], s, cfg)
      case None => FilterProducts(ps[1..], s, cfg)
  }

  /** Every position moved one place on. */
  function Shift(idx: seq<nat>): (r: seq<nat>)
    ensures |r| == |idx| && forall j :: 0 <= j < |r| ==> r[j] == idx[j] + 1
  {
    seq(|idx|, j requires 0 <= j < |idx| => idx[j] + 1)
  }

  lemma ShiftMember(idx: seq<nat>, i: nat)
    ensures i in Shift(idx) <==> i >= 1 && i - 1 in idx
  {
    var r := Shift(idx);
    if i in r {
      var j :| 0 <= j < |r| && r[j] == i;
      assert idx[j] == i - 1;
    }
    if i >= 1 && i - 1 in idx {
      var j :| 0 <= j < |idx| && idx[j] == i - 1;
      assert r[j] == i;
    }
  }

  /** The positions, in increasing order, of the products that pass both tests. */
  function PassingIndices(ps: seq<Product>, s: ProductState, cfg: Config): (idx: seq<nat>)
    ensures |idx| <= |ps|
    ensures forall j :: 0 <= j < |idx| ==> idx[j] < |ps|
    ensures forall j, k :: 0 <= j < k < |idx| ==> idx[j] < idx[k]
  {
    if ps == [] then []
    else
      var shifted := Shift(PassingIndices(ps[1..], s, cfg));
      if Matches(ps[0], s, cfg) then [0] + shifted else shifted
  }

  /** The passing positions are exactly the positions whose product passes both tests. */
  lemma {:induction false} PassingIndicesMatch(ps: seq<Product>, s: ProductState, cfg: Config)
    ensures var idx := PassingIndices(ps, s, cfg);
      forall i :: 0 <= i < |ps| ==> (i in idx <==> Matches(ps[i], s, cfg))
  {
    if ps != [] {
      var tail := ps[1..];
      var ridx := PassingIndices(tail, s, cfg);
      var shifted := Shift(ridx);
      PassingIndicesMatch(tail, s, cfg);
      forall i | 1 <= i < |ps| ensures i in shifted <==> Matches(ps[i], s, cfg) {
        assert ps[i] == tail[i - 1];
        ShiftMember(ridx, i);
      }
      ShiftMember(ridx, 0);
    }
  }

  /**
   * The filtered list is exactly the passing products, in input order, each
   * shown through `DisplayBrand`: its j-th element comes from the j-th
   * passing position.
   */
  lemma {:induction false} FilterProductsExact(ps: seq<Product>, s: ProductState, cfg: Config)
    ensures var r := FilterProducts(ps, s, cfg); var idx := PassingIndices(ps, s, cfg);
      && |r| == |idx|
      && forall j :: 0 <= j < |r| ==> r[j] == DisplayBrand(ps[idx[j]], cfg)
  {
    if ps != [] {
      FilterProductsExact(ps[1..], s, cfg);
      var rest, ridx := FilterProducts(ps[1..], s, cfg), PassingIndices(ps[1..], s, cfg);
      var shifted := Shift(ridx);
      ShiftedPositions(ps, rest, ridx, cfg);
      if Matches(ps[0], s, cfg) {
        assert FilterProducts(ps, s, cfg) == [DisplayBrand(ps[0], cfg)] + rest;
        assert PassingIndices(ps, s, cfg) == [0] + shifted;
        ConsPosition(ps, rest, shifted, cfg);
      } else {
        assert FilterProducts(ps, s, cfg) == rest;
        assert PassingIndices(ps, s, cfg) == shifted;
      }
    }
  }

  /** Positions into the tail of `ps`, moved one on, are the same products of `ps`. */
  lemma ShiftedPositions(ps: seq<Product>, rest: seq<Product>, ridx: seq<nat>, cfg: Config)
    requires ps != [] && |rest| == |ridx|
    requires forall j :: 0 <= j < |ridx| ==> ridx[j] < |ps| - 1
    requires forall j :: 0 <= j < |rest| ==> rest[j] == DisplayBrand(ps[1..][ridx[j]], cfg)
    ensures forall j :: 0 <= j < |rest| ==> rest[j] == DisplayBrand(ps[Shift(ridx)[j]], cfg)
  {
  }

  /** Putting the first product in front of its position 0 keeps the correspondence. */
  lemma ConsPosition(ps: seq<Product>, rest: seq<Product>, shifted: seq<nat>, cfg: Config)
    requires ps != [] && |rest| == |shifted|
    requires forall j :: 0 <= j < |shifted| ==> shifted[j] < |ps|
    requires forall j :: 0 <= j < |rest| ==> rest[j] == DisplayBrand(ps[shifted[j]], cfg)
    ensures var r, idx := [DisplayBrand(ps[0], cfg)] + rest, [0] + shifted;
      forall j :: 0 <= j < |r| ==> r[j] == DisplayBrand(ps[idx[j]], cfg)
  {
    var r, idx := [DisplayBrand(ps[0], cfg)] + rest, [0] + shifted;
    forall j | 0 <= j < |r| ensures r[j] == DisplayBrand(ps[idx[j]], cfg) {
      if j > 0 {
        assert r[j] == rest[j - 1] && idx[j] == shifted[j - 1];
      }
    }
  }

  /** With a country chosen, every listed product ships to it. */
  lemma FilteredShipToCountry(ps: seq<Product>, s: ProductState, cfg: Config)
    requires s.countryFilter != ALL
    ensures forall q :: q in FilterProducts(ps, s, cfg) ==> s.countryFilter in q.shippableCountries
  {
    FilterProductsExact(ps, s, cfg);
    PassingIndicesMatch(ps, s, cfg);
  }

  /**
   * Away from the default range, every listed product costs at least the
   * lower bound, and at most the upper bound unless that is the maximum.
   */
  lemma FilteredWithinPriceRange(ps: seq<Product>, s: ProductState, cfg: Config)
    requires !IsFullPriceRange(s.priceRangeFilter, cfg)
    ensures forall q :: q in FilterProducts(ps, s, cfg) ==>
      && q.price.priceInCents >= s.priceRangeFilter.lower * 100
      && (s.priceRangeFilter.upper != cfg.maxPrice ==> q.price.priceInCents <= s.priceRangeFilter.upper * 100)
  {
    FilterProductsExact(ps, s, cfg);
    PassingIndicesMatch(ps, s, cfg);
  }

  /** With no filter applied nothing is dropped: every product is listed, in order. */
  lemma NoFilterKeepsEverything(ps: seq<Product>, s: ProductState, cfg: Config)
    requires NoFilterApplied(s, cfg)
    ensures var r := FilterProducts(ps, s, cfg);
      |r| == |ps| && forall i :: 0 <= i < |ps| ==> r[i] == DisplayBrand(ps[i], cfg)
  {
    FilterProductsExact(ps, s, cfg);
    PassingIndicesMatch(ps, s, cfg);
    var idx := PassingIndices(ps, s, cfg);
    IncreasingIndicesAreAll(idx, |ps|);
  }

  /** A strictly increasing list of every position below n is 0, 1, ..., n-1. */
  lemma {:induction false} IncreasingIndicesAreAll(idx: seq<nat>, n: nat)
    requires |idx| <= n
    requires forall j :: 0 <= j < |idx| ==> idx[j] < n
    requires forall j, k :: 0 <= j < k < |idx| ==> idx[j] < idx[k]
    requires forall i :: 0 <= i < n ==> i in idx
    ensures |idx| == n && forall j :: 0 <= j < n ==> idx[j] == j
  {
    if n > 0 {
      assert n - 1 in idx;
      var last := |idx| - 1;
      var j :| 0 <= j < |idx| && idx[j] == n - 1;
      assert j == last;
      assert idx[last] == n - 1;
      var front := idx[..last];
      assert forall k :: 0 <= k < |front| ==> front[k] == idx[k] && idx[k] < idx[last];
      forall i | 0 <= i < n - 1 ensures i in front {
        assert i in idx;
        var k :| 0 <= k < |idx| && idx[k] == i;
        assert k != last;
        assert front[k] == i;
      }
      IncreasingIndicesAreAll(front, n - 1);
      assert idx == front + [n - 1];
    }
  }

  /**
   * The sort position of a product under the comparator of the source:
   * `a - b` on cents for ascending, `b - a` for descending, and 0 (always
   * equal) for any other key.
   */
  function Rank(p: Product, key: SortKey): int {
    match key
    case PriceAsc => p.price.priceInCents
    case PriceDesc => -p.price.priceInCents
    case Other(_) => 0
  }

  /** The comparator the source passes to `sort`: negative, zero or positive. */
  function Comparator(a: Product, b: Product, key: SortKey): int {
    match key
    case PriceAsc => a.price.priceInCents - b.price.priceInCents
    case PriceDesc => b.price.priceInCents - a.price.priceInCents
    case Other(_) => 0
  }

  /**
   * Ranks order products as the comparator does: `a` may precede `b` exactly
   * when the comparator does not put it after `b`, and two products are
   * equally ranked exactly when the comparator calls them equal.
   */
  lemma RankAgreesWithComparator(a: Product, b: Product, key: SortKey)
    ensures Rank(a, key) <= Rank(b, key) <==> Comparator(a, b, key) <= 0
    ensures Rank(a, key) == Rank(b, key) <==> Comparator(a, b, key) == 0
    ensures Comparator(a, b, key) == -Comparator(b, a, key)
  {
  }

  predicate SortedByRank(s: seq<Product>, key: SortKey) {
    forall i, j :: 0 <= i < j < |s| ==> Rank(s[i], key) <= Rank(s[j], key)
  }

  /** Inserts `x` before the first element that does not rank below it. */
  function InsertByRank(x: Product, s: seq<Product>, key: SortKey): (r: seq<Product>)
    ensures |r| == |s| + 1
  {
    if s == [] then [x]
    else if Rank(x, key) <= Rank(s[0], key) then [x] + s
    else [s[0]] + InsertByRank(x, s[1..], key)
  }

  /** Insertion adds `x` and loses nothing. */
  lemma {:induction false} InsertByRankPermutes(x: Product, s: seq<Product>, key: SortKey)
    ensures multiset(InsertByRank(x, s, key)) == multiset(s) + multiset{x}
  {
    if s != [] && Rank(x, key) > Rank(s[0], key) {
      InsertByRankPermutes(x, s[1..], key);
      assert s == [s[0]] + s[1..];
    }
  }

  /** A lower bound on the ranks of `x` and of `s` bounds the ranks after insertion. */
  lemma {:induction false} InsertRankBound(x: Product, s: seq<Product>, key: SortKey, bound: int)
    requires bound <= Rank(x, key)
    requires forall i :: 0 <= i < |s| ==> bound <= Rank(s[i], key)
    ensures var r := InsertByRank(x, s, key);
      |r| == |s| + 1 && forall i :: 0 <= i < |r| ==> bound <= Rank(r[i], key)
  {
    if s != [] && Rank(x, key) > Rank(s[0], key) {
      InsertRankBound(x, s[1..], key, bound);
      var tail := InsertByRank(x, s[1..], key);
      assert InsertByRank(x, s, key) == [s[0]] + tail;
    }
  }

  /** An element ranked no higher than every element of a sorted sequence can go in front of it. */
  lemma ConsSorted(y: Product, t: seq<Product>, key: SortKey)
    requires SortedByRank(t, key)
    requires forall i :: 0 <= i < |t| ==> Rank(y, key) <= Rank(t[i], key)
    ensures SortedByRank([y] + t, key)
  {
    var r := [y] + t;
    forall i, j | 0 <= i < j < |r| ensures Rank(r[i], key) <= Rank(r[j], key) {
      assert r[j] == t[j - 1];
      if i > 0 {
        assert r[i] == t[i - 1];
      }
    }
  }

  lemma {:induction false} InsertKeepsSorted(x: Product, s: seq<Product>, key: SortKey)
    requires SortedByRank(s, key)
    ensures SortedByRank(InsertByRank(x, s, key), key)
  {
    if s == [] {
      assert InsertByRank(x, s, key) == [x];
    } else if Rank(x, key) <= Rank(s[0], key) {
      assert InsertByRank(x, s, key) == [x] + s;
      ConsSorted(x, s, key);
    } else {
      var tail := InsertByRank(x, s[1..], key);
      assert SortedByRank(s[1..], key);
      InsertKeepsSorted(x, s[1..], key);
      InsertRankBound(x, s[1..], key, Rank(s[0], key));
      assert InsertByRank(x, s, key) == [s[0]] + tail;
      ConsSorted(s[0], tail, key);
    }
  }

  /**
   * `Array.prototype.sort` with the source's comparator. The sort is stable
   * (ECMA-262 requires it since the 2019 edition), so it is modelled as
   * insertion sort, which keeps equally ranked elements in input order.
   */
  function SortProducts(s: seq<Product>, key: SortKey): (r: seq<Product>)
    ensures multiset(r) == multiset(s)
    ensures SortedByRank(r, key)
  {
    if s == [] then []
    else
      assert s == [s[0]] + s[1..];
      InsertByRankPermutes(s[0], SortProducts(s[1..], key), key);
      InsertKeepsSorted(s[0], SortProducts(s[1..], key), key);
      InsertByRank(s[0], SortProducts(s[1..], key), key)
  }

  /** The products of `s` whose price is `cents`, in their order in `s`. */
  function WithPrice(s: seq<Product>, cents: int): seq<Product> {
    if s == [] then []
    else if s[0].price.priceInCents == cents then [s[0]] + WithPrice(s[1..], cents)
    else WithPrice(s[1..], cents)
  }

  /** The products of `[y] + t` with price `cents`: `y` when it has that price, then those of `t`. */
  lemma WithPriceCons(y: Product, t: seq<Product>, cents: int)
    ensures WithPrice([y] + t, cents)
      == if y.price.priceInCents == cents then [y] + WithPrice(t, cents) else WithPrice(t, cents)
  {
    assert ([y] + t)[0] == y && ([y] + t)[1..] == t;
  }

  lemma {:induction false} InsertWithPrice(x: Product, s: seq<Product>, key: SortKey, cents: int)
    ensures WithPrice(InsertByRank(x, s, key), cents)
      == if x.price.priceInCents == cents then [x] + WithPrice(s, cents) else WithPrice(s, cents)
  {
    if s == [] {
      WithPriceCons(x, [], cents);
    } else if Rank(x, key) <= Rank(s[0], key) {
      WithPriceCons(x, s, cents);
    } else {
      var tail := InsertByRank(x, s[1..], key);
      InsertWithPrice(x, s[1..], key, cents);
      assert InsertByRank(x, s, key) == [s[0]] + tail;
      WithPriceCons(s[0], tail, cents);
      assert s == [s[0]] + s[1..];
      WithPriceCons(s[0], s[1..], cents);
      assert !key.Other? && x.price.priceInCents != s[0].price.priceInCents;
    }
  }

  /** Stability: for every price, the products with that price keep their relative order. */
  lemma {:induction false} SortKeepsEqualPricesInOrder(s: seq<Product>, key: SortKey, cents: int)
    ensures WithPrice(SortProducts(s, key), cents) == WithPrice(s, cents)
  {
    if s != [] {
      SortKeepsEqualPricesInOrder(s[1..], key, cents);
      InsertWithPrice(s[0], SortProducts(s[1..], key), key, cents);
    }
  }

  /** A key outside the enumeration compares everything equal, so the order is unchanged. */
  lemma {:induction false} OtherKeyKeepsOrder(s: seq<Product>, value: UnknownSortValue)
    ensures SortProducts(s, Other(value)) == s
  {
    if s != [] {
      var t := SortProducts(s[1..], Other(value));
      OtherKeyKeepsOrder(s[1..], value);
      assert t == s[1..];
      assert SortProducts(s, Other(value)) == InsertByRank(s[0], t, Other(value));
      assert t == [] || Rank(s[0], Other(value)) <= Rank(t[0], Other(value));
      assert InsertByRank(s[0], t, Other(value)) == [s[0]] + t;
      assert [s[0]] + s[1..] == s;
    }
  }

  /** Ascending order gives non-decreasing prices, descending order non-increasing ones. */
  lemma SortedPrices(s: seq<Product>, key: SortKey)
    ensures var r := SortProducts(s, key);
      && (key == PriceAsc ==> forall i, j :: 0 <= i < j < |r| ==> r[i].price.priceInCents <= r[j].price.priceInCents)
      && (key == PriceDesc ==> forall i, j :: 0 <= i < j < |r| ==> r[i].price.priceInCents >= r[j].price.priceInCents)
  {
    var r := SortProducts(s, key);
    assert SortedByRank(r, key);
  }

  /** `selectSortedFilteredProducts`: filter and transform, then sort by the state's key. */
  function SelectSortedFilteredProducts(s: ProductState, cfg: Config): (r: seq<Product>)
    ensures multiset(r) == multiset(FilterProducts(s.products, s, cfg))
    ensures SortedByRank(r, s.sortBy)
  {
    SortProducts(FilterProducts(s.products, s, cfg), s.sortBy)
  }

  /**
   * The derived list is a reordering of the filtered list that is ordered by
   * the sort key, keeps equal prices in filtered order, and leaves the
   * filtered order alone for a key outside the enumeration.
   */
  lemma SelectSortedFilteredProductsSpec(s: ProductState, cfg: Config)
    ensures var f := FilterProducts(s.products, s, cfg); var r := SelectSortedFilteredProducts(s, cfg);
      && multiset(r) == multiset(f)
      && SortedByRank(r, s.sortBy)
      && (forall cents :: WithPrice(r, cents) == WithPrice(f, cents))
      && (s.sortBy.Other? ==> r == f)
  {
    var f := FilterProducts(s.products, s, cfg);
    forall cents ensures WithPrice(SortProducts(f, s.sortBy), cents) == WithPrice(f, cents) {
      SortKeepsEqualPricesInOrder(f, s.sortBy, cents);
    }
    if s.sortBy.Other? {
      OtherKeyKeepsOrder(f, s.sortBy.value);
    }
  }

  /** Ascending sort of products priced 500, 100 and 300 lists them as the 100, the 300, the 500. */
  lemma AscendingExample(a: Product, b: Product, c: Product)
    requires a.price.priceInCents == 500 && b.price.priceInCents == 100 && c.price.priceInCents == 300
    ensures SortProducts([a, b, c], PriceAsc) == [b, c, a]
  {
    assert [a, b, c][1..] == [b, c];
    assert [b, c][1..] == [c];
    assert [c][1..] == [];
    assert SortProducts([c], PriceAsc) == [c];
    assert SortProducts([b, c], PriceAsc) == InsertByRank(b, [c], PriceAsc) == [b, c];
    assert InsertByRank(a, [c], PriceAsc) == [c, a];
  }
}
