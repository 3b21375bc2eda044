/**
 * The country store (src/reducers/countrySlice.ts): an optional list of
 * countries, undefined until the first `setCountries`, replaced wholesale
 * by each one.
 */
module CountrySlice {
  import opened Wrappers
  import opened CatalogTypes

  datatype CountryState = CountryState(countries: Option<seq<Country>>)

  const InitialCountryState: CountryState := CountryState(None)

  /** The `setCountries` reducer: the new state is the payload, whatever the old state. */
  function ReduceSetCountries(s: CountryState, payload: seq<Country>): (r: CountryState)
    ensures r.countries == Some(payload)
  {
    s.(countries := Some(payload))
  }

  /** The state after dispatching `setCountries` with each payload in turn. */
  function ReplaySetCountries(s: CountryState, payloads: seq<seq<Country>>): CountryState
    decreases |payloads|
  {
    if payloads == [] then s
    else ReplaySetCountries(ReduceSetCountries(s, payloads[0]), payloads[1..])
  }

  /** `getCountries` after any run from the start: the last list set, or undefined if none was. */
  lemma {:induction false} GetCountriesIsLastSet(s: CountryState, payloads: seq<seq<Country>>)
    requires s == InitialCountryState || payloads != []
    ensures ReplaySetCountries(s, payloads).countries
      == if payloads == [] then None else Some(payloads[|payloads| - 1])
    decreases |payloads|
  {
    if payloads != [] && |payloads| > 1 {
      GetCountriesIsLastSet(ReduceSetCountries(s, payloads[0]), payloads[1..]);
    }
  }

  /** Two `setCountries` in a row equal the second alone; repeating a payload changes nothing. */
  lemma LastWriteWins(s: CountryState, first: seq<Country>, second: seq<Country>)
    ensures ReduceSetCountries(ReduceSetCountries(s, first), second) == ReduceSetCountries(s, second)
    ensures ReduceSetCountries(ReduceSetCountries(s, second), second) == ReduceSetCountries(s, second)
  {
  }

  /** The store: the optional list held in a field that `setCountries` overwrites. */
  class CountryStore {
    var countries: Option<seq<Country>>

    function State(): CountryState
      reads this
    {
      CountryState(countries)
    }

    constructor ()
      ensures State() == InitialCountryState && GetCountries().None?
    {
      countries := None;
    }

    method SetCountries(payload: seq<Country>)
      modifies this
      ensures State() == ReduceSetCountries(old(State()), payload)
      ensures GetCountries() == Some(payload)
    {
      countries := Some(payload);
    }

    /** `getCountries`: the stored list, or `None` while undefined. */
    function GetCountries(): (r: Option<seq<Country>>)
      reads this
      ensures r == State().countries
    {
      countries
    }
  }
}
