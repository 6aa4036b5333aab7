# Currency service model

A Dafny model of the currency service of a small currency-conversion API.
It covers two versions of the service: the TypeScript one
(`src/services/currencyService.ts`) and an older compiled copy
(`dist/src/services/currencyService.js`). Both versions have the same two parts.

- **The currency registry** is a module-level array of `{code, type, conversionRateToUSD?}` entries.
  `addCurrency` appends an entry and rejects a code that is already present.
  `removeCurrency` splices an entry out and rejects an absent code.
  The TypeScript version also has `initializeCurrencies` and `clearCurrencies`, which reassign the array.
  The array is modelled once, as the class `Registry.CurrencyList`, whose field `entries` the methods reassign.
  Both versions use that class. The TypeScript list starts empty and is reseeded by `InitializeCurrencies`.
  The compiled list starts with six entries (`CurrencyServiceDist.LoadCurrencies`).
- **Conversion.** Both codes must be registered, otherwise the call fails with "Unsupported currency".
  This check happens before any rate is fetched.
  A FICTITIOUS currency uses its own stored rate. Any other currency uses the rate table's entry for its code.
  The result is `amount / fromRate * toRate`.
  - In the TypeScript version, the table is derived from a bitcoin/ethereum price payload (`CurrencyServiceTs.RatesAsWritten`). `CurrencyServiceTs.ConvertCurrency` converts over that table as written. `CurrencyServiceTs.ConvertCurrencyCorrected` converts over the corrected table `CurrencyServiceTs.Rates` (see Findings).
  - In the compiled version, the table is the provider's `conversion_rates` map, and `convertCurrency` is exactly `Conversion.Convert`.

Modules:

- `Currencies` holds the entry, error and result types, and the searches over the array: `some` (`Has`), `findIndex` (`IndexOf`), `find` (`Find`) and `splice` (`RemoveAt`). It also holds the lemmas that keep codes pairwise distinct.
- `Registry` holds the mutable array.
- `Conversion` holds rate selection and the arithmetic, with its algebra: converting to itself, a zero amount, the round trip and chaining.
- `CurrencyServiceTs` and `CurrencyServiceDist` hold the parts that differ between the two versions.

Exceptions become `Outcome`/`Result` values. Amounts and rates are exact reals.
The rate fetch is an input: `None` stands for a fetch that failed.
In two places the source yields NaN or Infinity instead of throwing, and the model returns an error instead:

- a code with no rate gives `MissingRate`;
- a zero source rate gives `ZeroRate`.

## Model

| member | source | states |
|---|---|---|
| Currencies.Has | src/services/currencyService.ts:91 | `some(c => c.code === code)`: some position of the array holds an entry with the code (also dist/src/services/currencyService.js:49) |
| Currencies.IndexOf | src/services/currencyService.ts:98 | `findIndex`: -1 exactly when no entry has the code; otherwise an index holding the code with no earlier match |
| Currencies.Find | src/services/currencyService.ts:50-51 | `find`: an entry exactly when the code is registered; it carries the code and is the first such entry |
| Currencies.FindDistinct | src/services/currencyService.ts:50-51 | with distinct codes, `find` returns the one entry holding the code |
| Currencies.RemoveAt | src/services/currencyService.ts:102 | `splice(i, 1)`: length drops by one, the entries before `i` stay, the ones after shift down by one in order, and the multiset loses exactly the removed entry |
| Currencies.AppendKeepsDistinct | src/services/currencyService.ts:91-94 | appending an entry whose code is new keeps codes pairwise distinct |
| Currencies.RemoveAtKeepsDistinct | src/services/currencyService.ts:102 | splicing out any entry keeps codes pairwise distinct |
| Currencies.RemovedCodeAbsent | src/services/currencyService.ts:98-102 | with distinct codes, after splicing at `findIndex` the code is no longer present |
| Currencies.AppendThenRemove | src/services/currencyService.ts:88-103 | adding a new code and then removing it restores the original list |
| Currencies.AppendedCodes | src/services/currencyService.ts:94 | `push` makes the pushed code present and leaves every other code present or absent as before |
| Currencies.RemovedCodes | src/services/currencyService.ts:102 | `splice` leaves every code other than the removed entry's present or absent as before |
| Registry.Step | src/services/currencyService.ts:88-103 | one `addCurrency` or `removeCurrency` call (unchanged array when it throws): distinct codes stay distinct, the called code is present afterwards exactly when the call was an add, and no other code changes presence |
| Registry.ReplayKeepsDistinct | src/services/currencyService.ts:88-103 | any series of adds and removes, failed ones included, keeps the codes distinct |
| Registry.ReplayMembership | src/services/currencyService.ts:88-103 | after a series of calls a code is present exactly when the last call naming it was an add, or, when no call names it, when it was present before |
| Registry.AddThenRemove | src/services/currencyService.ts:88-103 | adding a new code and removing it again leaves the array as it was |
| Registry.CurrencyList.constructor | src/services/currencyService.ts:19 | the array starts as the given list (empty in the TypeScript version, six entries in the compiled one) |
| Registry.CurrencyList.Replace | src/services/currencyService.ts:22 | reassigning the array replaces its whole content |
| Registry.CurrencyList.Add | src/services/currencyService.ts:88-95 | existing code: "Currency already exists" and the list is unchanged; otherwise the entry is appended as given and earlier entries are kept, which is `Step` for the call; distinct codes stay distinct; the same logic is dist/src/services/currencyService.js:48-53 |
| Registry.CurrencyList.Remove | src/services/currencyService.ts:97-103 | absent code: "Currency not found" and the list is unchanged; otherwise exactly the first matching entry is spliced out, which is `Step` for the call; with distinct codes they stay distinct and the code is gone; the same logic is dist/src/services/currencyService.js:55-61 |
| Conversion.RateOf | src/services/currencyService.ts:59-72 | FICTITIOUS uses its stored rate and fails exactly when there is none; any other type uses the table entry for its code and fails exactly when it is absent |
| Conversion.SideRate | src/services/currencyService.ts:50-72 | one side's rate for a registered code, taken from the entry `find` returns: a FICTITIOUS entry's stored rate, present exactly when it has one; otherwise the table's entry for the code, present exactly when the table has it; a missing rate is `MissingRate` for that code |
| Conversion.LiveSideRate | dist/src/services/currencyService.js:31-42 | a registered non-FICTITIOUS code's rate is the table's entry for its code, for any code |
| Conversion.Convert | dist/src/services/currencyService.js:22-46 | "Unsupported currency" exactly when a code is unregistered, whatever the fetch gives; fetch failure only after both codes pass; a result exactly when both rates exist and the source rate is non-zero |
| Conversion.ConvertValue | dist/src/services/currencyService.js:43-45 | a successful result is the unrounded `amount / fromRate * toRate` |
| Conversion.ConvertPreservesValue | src/services/currencyService.ts:74-75 | the result is worth at the table's rates what the amount was worth: `result * fromRate == amount * toRate` |
| Conversion.ConvertSucceeds | src/services/currencyService.ts:57-75 | when both codes are registered, both rates exist and the source rate is non-zero, the conversion succeeds with `amount / fromRate * toRate` |
| Conversion.ConvertToSelf | src/services/currencyService.ts:74-75 | converting a currency to itself returns the amount |
| Conversion.ConvertZero | src/services/currencyService.ts:74-75 | a zero amount converts to zero |
| Conversion.ConvertRoundTrip | src/services/currencyService.ts:74-75 | converting back with the same rates returns the original amount |
| Conversion.ConvertChain | src/services/currencyService.ts:74-75 | converting A to B and then B to C equals converting A to C |
| CurrencyServiceTs.SeedShape | src/services/currencyService.ts:21-29 | the seed has five distinct codes and no stored rates: three FIAT, then two CRYPTO |
| CurrencyServiceTs.InitializeCurrencies | src/services/currencyService.ts:21-29 | the list becomes exactly USD, BRL, EUR (FIAT), BTC, ETH (CRYPTO) in that order, with distinct codes |
| CurrencyServiceTs.ClearCurrencies | src/services/currencyService.ts:105-107 | the list becomes empty |
| CurrencyServiceTs.SeedLive | src/services/currencyService.ts:22-28 | after initialisation all five codes are registered and take their rate from the table |
| CurrencyServiceTs.RatesAsWritten | src/services/currencyService.ts:37-43 | the table as written: only the five keys; USD is 1, BTC is bitcoin.usd and ETH is ethereum.usd; BRL and EUR times bitcoin.usd give bitcoin.brl and bitcoin.eur; BRL and EUR are present exactly when bitcoin.usd is non-zero |
| CurrencyServiceTs.Rates | src/services/currencyService.ts:37-43 | the corrected table (see Findings): the same five keys and fiat entries, with every entry in units per dollar; BTC and ETH times their dollar prices give 1 |
| CurrencyServiceTs.RatesPresent | src/services/currencyService.ts:37-43 | when the quoted prices are non-zero, all five codes have a non-zero rate, both in the table as written and in the corrected one |
| CurrencyServiceTs.ConvertCurrency | src/services/currencyService.ts:49-75 | `convertCurrency` as written, over the table of lines 37-43: "Unsupported currency" exactly when a code is unregistered, whatever the payload; fetch failure only after that; a result exactly when both side rates from that table exist and the source rate is non-zero |
| CurrencyServiceTs.ConvertCurrencyCorrected | src/services/currencyService.ts:49-75 | the same conversion over the corrected table `Rates`, with the same three conditions |
| CurrencyServiceTs.LiveConversionsSucceed | src/services/currencyService.ts:57-75 | any two of the five codes that are registered as FIAT or CRYPTO convert successfully when the quoted prices are non-zero, as written and corrected |
| CurrencyServiceTs.RatesMatchBitcoinQuote | src/services/currencyService.ts:39-40 | each fiat entry of the corrected table agrees with bitcoin's quoted price in that currency |
| CurrencyServiceTs.BitcoinMatchesQuotes | src/services/currencyService.ts:37-43 | with the corrected table, BTC converts to USD, BRL and EUR at exactly bitcoin's quoted prices |
| CurrencyServiceTs.CryptoToDollarCorrected | src/services/currencyService.ts:41-42 | with the corrected table, BTC and ETH each convert to USD at their quoted dollar price: `amount * price` |
| CurrencyServiceTs.CryptoToDollarAsWritten | src/services/currencyService.ts:41-42 | `convertCurrency` as written converts BTC or ETH to USD as `amount / price`, dividing by the coin's dollar price |
| CurrencyServiceTs.CryptoToDollarCounterexample | src/services/currencyService.ts:41-42 | as written, after `initializeCurrencies`, one bitcoin quoted at 45000 dollars converts to 1/45000 of a dollar and one ether quoted at 3000 to 1/3000 |
| CurrencyServiceDist.SeedShape | dist/src/services/currencyService.js:8-15 | six distinct codes; the first five are the TypeScript seed, and GOLD is FICTITIOUS at 0.1 |
| CurrencyServiceDist.LoadCurrencies | dist/src/services/currencyService.js:8-15 | the array starts as exactly the six seeded entries, with distinct codes |
| CurrencyServiceDist.SeedRegistered | dist/src/services/currencyService.js:8-15 | USD, BRL, EUR, BTC and ETH take their rates from the table; GOLD is found as FICTITIOUS with rate 0.1 |
| CurrencyServiceDist.FixedRateToDollar | dist/src/services/currencyService.js:31-45 | a FICTITIOUS currency with stored rate `r` converts to USD (table rate 1) as `amount / r`, whatever the table holds for its code |
| CurrencyServiceDist.GoldToDollar | dist/src/services/currencyService.js:14 | ten GOLD convert to one hundred US dollars |
| CurrencyServiceDist.RealToDollarExample | dist/src/services/currencyService.js:43-45 | with `conversion_rates` {USD: 1, BRL: 5}, ten BRL convert to exactly 2 USD, unrounded |

## Left out

- The HTTP calls in `getLiveRates` (axios) are not modelled. The parsed payload or rate table is a parameter, and `None` means the fetch failed.
- The error rewrap at src/services/currencyService.ts:44-46 becomes `RatesUnavailable`. A payload missing its `bitcoin` or `ethereum` fields is not modelled separately.
- `Intl.NumberFormat('de-DE')` formatting (src/services/currencyService.ts:77-85) is not modelled. It is a foreign locale library. It rounds to two fraction digits, ties away from zero. `CurrencyServiceTs.ConvertCurrency` returns the unrounded, unformatted real. The model says nothing about the formatted string, including the `'2.00'` that the TypeScript test expects.
- IEEE floating point is not modelled: no floating-point rounding, NaN or Infinity. A missing rate becomes `MissingRate`, and a zero source rate becomes `ZeroRate`. The source throws neither. Which of the two errors is reported when both apply is the model's choice.
- CurrencyServiceTs.RatesAsWritten: when bitcoin's dollar price is zero, BRL and EUR are left out of the table instead of holding Infinity or NaN. `CurrencyServiceTs.Rates` does the same for BTC and ETH when their own dollar price is zero.
- `console.log` in `addCurrency` is not modelled.
- `async`/`await`, and any concurrency between calls, are not modelled. Every call is one atomic step.
- The controllers, routes, server and app files are not part of this model. This includes the upper-casing of codes and the check of the type string, which happen there. The service compares codes exactly.
- Not in the service, so not modelled:
  - rate caching and refresh;
  - symbol-index lookups and reconciling two providers;
  - `getCurrency` and `getAllCurrencies`;
  - checking that a FICTITIOUS currency has a positive rate.
- The TypeScript service test imports `initializeRates`, `getCurrency` and `getAllCurrencies`, which the service does not define. The model follows the service.

## Findings

| source | as written | input that shows it | evidently intended | confidence | as-written member | corrected member |
|---|---|---|---|---|---|---|
| src/services/currencyService.ts:41-42 | `BTC: rates.bitcoin.usd` and `ETH: rates.ethereum.usd` (dollars per coin) in a table whose USD, BRL and EUR entries are units per dollar, which is what `amount / fromRate * toRate` needs | bitcoin.usd = 45000, ethereum.usd = 3000: converting 1 BTC to USD gives 1/45000 instead of 45000, and 1 ETH gives 1/3000 instead of 3000 | `BTC: 1 / rates.bitcoin.usd`, `ETH: 1 / rates.ethereum.usd`, so that each coin converts to USD at its quoted price (and BTC to BRL and EUR at bitcoin's quotes, `CurrencyServiceTs.BitcoinMatchesQuotes`) | not executed; high | CurrencyServiceTs.CryptoToDollarCounterexample | CurrencyServiceTs.CryptoToDollarCorrected |
