/**
 * The country -> state reference table: the built-in fallback, the choice
 * between it and the externally supplied table (`window.COUNTRY_DATA`), and
 * the state names listed for a selected country.
 */
module CountryData {
  import opened Wrappers

  /** A country's entry, `{ "states": { <state>: [<cities>] } }`; the
      `states` object may be missing. */
  datatype CountryEntry = CountryEntry(states: Option<map<string, seq<string>>>)

  type CountryTable = map<string, CountryEntry>

  /** The built-in two-country table (js/register.js:11-14). */
  const FALLBACK_COUNTRY_DATA: CountryTable := map[
    "India" := CountryEntry(Some(map["Maharashtra" := [], "Karnataka" := [], "Delhi" := []])),
    "United States" := CountryEntry(Some(map["California" := [], "New York" := [], "Texas" := []]))
  ]

  /** `getCountryData`: the external table when it is present and has at least
      one key, the fallback otherwise; either way the table is never empty. */
  function GetCountryData(external: Option<CountryTable>): (data: CountryTable)
    ensures |data| > 0
    ensures external.Some? && |external.value| > 0 ==> data == external.value
    ensures external.None? || |external.value| == 0 ==> data == FALLBACK_COUNTRY_DATA
  {
    if external.Some? && |external.value| > 0 then external.value else FALLBACK_COUNTRY_DATA
  }

  /** The state names `populateStates(country)` lists: none for an empty or
      unknown country or for an entry without `states`, otherwise the keys of
      its `states` object. */
  function StateNames(data: CountryTable, country: string): (names: set<string>)
    ensures country == "" || country !in data || data[country].states.None? ==> names == {}
    ensures country != "" && country in data && data[country].states.Some? ==> names == data[country].states.value.Keys
  {
    if country == "" || country !in data then {}
    else match data[country].states
      case None => {}
      case Some(st) => st.Keys
  }

  /** The fallback lists three states for each of its two countries. */
  lemma FallbackStates()
    ensures FALLBACK_COUNTRY_DATA.Keys == {"India", "United States"}
    ensures StateNames(FALLBACK_COUNTRY_DATA, "India") == {"Maharashtra", "Karnataka", "Delhi"}
    ensures StateNames(FALLBACK_COUNTRY_DATA, "United States") == {"California", "New York", "Texas"}
  {
  }
}
