/**
 * The configuration the product store reads from its build environment
 * (src/reducers/productSlice.ts:7-14): the minimum and maximum of the price
 * filter and the list of brands whose label is shown reversed.
 */
module Settings {
  import opened Wrappers
  import opened Text

  datatype Config = Config(minPrice: int, maxPrice: int, reverseBrands: seq<string>)

  const DEFAULT_MIN_PRICE: int := 0
  const DEFAULT_MAX_PRICE: int := 2000
  const DEFAULT_REVERSE_BRAND: string := "Louis Vuitton"

  /**
   * `Number(raw) || fallback`. `parsed` is what `Number` made of the raw
   * variable, `None` standing for NaN (an unset or non-numeric variable);
   * NaN and zero are both falsy, so both give the fallback.
   */
  function ConfiguredNumber(parsed: Option<int>, fallback: int): (r: int)
    ensures r == fallback <==> parsed.None? || parsed.value == 0 || parsed.value == fallback
    ensures r != fallback ==> parsed == Some(r)
  {
    if parsed.Some? && parsed.value != 0 then parsed.value else fallback
  }

  /** Trims every piece and drops the ones left empty (`.map(trim).filter(Boolean)`). */
  function TrimNonEmpty(pieces: seq<string>): (r: seq<string>)
    ensures |r| <= |pieces|
    ensures forall b :: b in r <==> b != "" && exists p :: p in pieces && b == Trim(p)
  {
    if pieces == [] then []
    else
      var t := Trim(pieces[0]);
      var rest := TrimNonEmpty(pieces[1..]);
      assert forall p :: p in pieces <==> p == pieces[0] || p in pieces[1..];
      if t == "" then rest else [t] + rest
  }

  /**
   * The brand list `raw.split(",").map(trim).filter(Boolean)`: every entry
   * is non-empty, holds no comma and neither starts nor ends with
   * whitespace, and the entries are exactly the non-empty trimmed pieces.
   */
  function ParseBrandList(raw: string): (r: seq<string>)
    ensures forall b :: b in r ==>
      && b != ""
      && ',' !in b
      && !IsWhitespace(b[0]) && !IsWhitespace(b[|b| - 1])
    ensures forall b :: b in r <==> b != "" && exists p :: p in Split(raw, ',') && b == Trim(p)
  {
    var pieces := Split(raw, ',');
    var r := TrimNonEmpty(pieces);
    forall b | b in r ensures ',' !in b {
      var p :| p in pieces && b == Trim(p);
      TrimSubset(p, ',');
    }
    r
  }

  /** A brand name without commas or outer whitespace parses to itself alone. */
  lemma ParseSingleBrand(raw: string)
    requires raw != "" && ',' !in raw
    requires !IsWhitespace(raw[0]) && !IsWhitespace(raw[|raw| - 1])
    ensures ParseBrandList(raw) == [raw]
  {
    SplitWithoutSeparator(raw, ',');
    assert Split(raw, ',')[1..] == [];
  }

  /**
   * The configuration built from the three environment variables; an unset
   * or empty brand variable falls back to "Louis Vuitton".
   */
  function LoadConfig(minEnv: Option<int>, maxEnv: Option<int>, brandEnv: Option<string>): (c: Config)
    ensures c.minPrice == ConfiguredNumber(minEnv, DEFAULT_MIN_PRICE)
    ensures c.maxPrice == ConfiguredNumber(maxEnv, DEFAULT_MAX_PRICE)
    ensures brandEnv.None? || brandEnv.value == "" ==> c.reverseBrands == ParseBrandList(DEFAULT_REVERSE_BRAND)
    ensures brandEnv.Some? && brandEnv.value != "" ==> c.reverseBrands == ParseBrandList(brandEnv.value)
  {
    var raw := if brandEnv.Some? && brandEnv.value != "" then brandEnv.value else DEFAULT_REVERSE_BRAND;
    Config(ConfiguredNumber(minEnv, DEFAULT_MIN_PRICE), ConfiguredNumber(maxEnv, DEFAULT_MAX_PRICE), ParseBrandList(raw))
  }

  /** With no variable set the filter spans 0 to 2000 and only "Louis Vuitton" is reversed. */
  lemma DefaultConfig()
    ensures LoadConfig(None, None, None) == Config(0, 2000, ["Louis Vuitton"])
  {
    ParseSingleBrand(DEFAULT_REVERSE_BRAND);
  }
}
