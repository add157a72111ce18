/**
 * The constant currency tables of `lib/types.ts`: the display currencies with
 * their conversion rates against the US dollar, and the country-to-currency map
 * used when a visitor's country is detected.
 */
module CurrencyTables {

  datatype Currency = Currency(code: string, symbol: string, rate: real)

  const Currencies: map<string, Currency> := map[
    "USD" := Currency("USD", "$", 1.0),
    "EUR" := Currency("EUR", "€", 0.85),
    "GBP" := Currency("GBP", "£", 0.73),
    "CAD" := Currency("CAD", "C$", 1.25),
    "AUD" := Currency("AUD", "A$", 1.35)
  ]

  const CountryCurrencyMap: map<string, string> := map[
    "US" := "USD",
    "CA" := "CAD",
    "GB" := "GBP",
    "AU" := "AUD",
    "DE" := "EUR",
    "FR" := "EUR",
    "IT" := "EUR",
    "ES" := "EUR",
    "NL" := "EUR"
  ]

  /** Every currency code the country map yields is a non-empty key of the currency table. */
  lemma CountryMapIsClosed()
    ensures forall c :: c in CountryCurrencyMap ==> CountryCurrencyMap[c] in Currencies && CountryCurrencyMap[c] != ""
  {
  }

  /** Each entry's `code` is the key it is stored under. */
  lemma CodesMatchKeys()
    ensures forall k :: k in Currencies ==> Currencies[k].code == k
  {
  }

  /** The US dollar is present and is the base currency: its rate is exactly 1. */
  lemma UsdIsBase()
    ensures "USD" in Currencies && Currencies["USD"].rate == 1.0
  {
  }

  /** Every conversion rate is strictly positive. */
  lemma RatesArePositive()
    ensures forall k :: k in Currencies ==> Currencies[k].rate > 0.0
  {
  }

  /** The five euro countries map to EUR; US, CA, GB and AU map to their own currencies. */
  lemma CountryAssignments()
    ensures forall c :: c in {"DE", "FR", "IT", "ES", "NL"} ==> c in CountryCurrencyMap && CountryCurrencyMap[c] == "EUR"
    ensures CountryCurrencyMap["US"] == "USD" && CountryCurrencyMap["CA"] == "CAD"
    ensures CountryCurrencyMap["GB"] == "GBP" && CountryCurrencyMap["AU"] == "AUD"
    ensures CountryCurrencyMap.Keys == {"US", "CA", "GB", "AU", "DE", "FR", "IT", "ES", "NL"}
  {
  }
}
