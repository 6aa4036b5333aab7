/** The TypeScript currency service: the seed list, the reset hooks, the
    rate table built from the bitcoin/ethereum price payload, and
    `convertCurrency` over that table. The list itself is
    `Registry.CurrencyList`, which starts empty here. */
module CurrencyServiceTs {
  import opened Currencies
  import opened Conversion
  import opened Registry

  /** The five currencies `initializeCurrencies` installs. */
  function Seed(): seq<Currency> {
    [ Currency("USD", FIAT, None),
      Currency("BRL", FIAT, None),
      Currency("EUR", FIAT, None),
      Currency("BTC", CRYPTO, None),
      Currency("ETH", CRYPTO, None) ]
  }

  /** The seed has distinct codes, no stored rates, three FIAT entries
      followed by two CRYPTO entries. */
  lemma SeedShape()
    ensures |Seed()| == 5 && DistinctCodes(Seed())
    ensures forall i :: 0 <= i < |Seed()| ==> Seed()[i].rateToUsd == None
    ensures forall i :: 0 <= i < |Seed()| ==> (Seed()[i].kind == FIAT <==> i < 3) && (Seed()[i].kind == CRYPTO <==> 3 <= i)
  {
  }

  /** `initializeCurrencies`: the list becomes exactly the seed, in order. */
  method InitializeCurrencies(currencies: CurrencyList)
    modifies currencies
    ensures currencies.entries == [ Currency("USD", FIAT, None), Currency("BRL", FIAT, None),
                                    Currency("EUR", FIAT, None), Currency("BTC", CRYPTO, None),
                                    Currency("ETH", CRYPTO, None) ]
    ensures DistinctCodes(currencies.entries)
  {
    SeedShape();
    currencies.Replace(Seed());
  }

  /** `clearCurrencies`: the list becomes empty. */
  method ClearCurrencies(currencies: CurrencyList)
    modifies currencies
    ensures currencies.entries == []
  {
    currencies.Replace([]);
  }

  /** One coin's prices as the provider reports them. */
  datatype Quote = Quote(usd: real, brl: real, eur: real)

  /** The parsed provider response: `rates.bitcoin` and `rates.ethereum`. */
  datatype Payload = Payload(bitcoin: Quote, ethereum: Quote)

  const RateCodes: set<string> := {"USD", "BRL", "EUR", "BTC", "ETH"}

  /** The table `getLiveRates` builds, as written: fiat entries are units
      per US dollar (derived through bitcoin's prices), crypto entries are
      US dollars per unit. Entries whose derivation would divide by a zero
      bitcoin price are absent. */
  function RatesAsWritten(p: Payload): (t: RateTable)
    ensures t.Keys <= RateCodes
    ensures "USD" in t && t["USD"] == 1.0
    ensures "BTC" in t && t["BTC"] == p.bitcoin.usd
    ensures "ETH" in t && t["ETH"] == p.ethereum.usd
    ensures ("BRL" in t <==> p.bitcoin.usd != 0.0) && ("EUR" in t <==> p.bitcoin.usd != 0.0)
    ensures "BRL" in t ==> t["BRL"] * p.bitcoin.usd == p.bitcoin.brl
    ensures "EUR" in t ==> t["EUR"] * p.bitcoin.usd == p.bitcoin.eur
  {
    var t := map["USD" := 1.0, "BTC" := p.bitcoin.usd, "ETH" := p.ethereum.usd];
    if p.bitcoin.usd == 0.0 then t
    else t["BRL" := p.bitcoin.brl / p.bitcoin.usd]["EUR" := p.bitcoin.eur / p.bitcoin.usd]
  }

  /** The table with every entry in units per US dollar, which is what
      `amount / fromRate * toRate` expects: the crypto entries are the
      reciprocals of their dollar prices. */
  function Rates(p: Payload): (t: RateTable)
    ensures t.Keys <= RateCodes
    ensures "USD" in t && t["USD"] == 1.0
    ensures ("BRL" in t <==> p.bitcoin.usd != 0.0) && ("EUR" in t <==> p.bitcoin.usd != 0.0)
    ensures ("BTC" in t <==> p.bitcoin.usd != 0.0) && ("ETH" in t <==> p.ethereum.usd != 0.0)
    ensures "BRL" in t ==> t["BRL"] * p.bitcoin.usd == p.bitcoin.brl
    ensures "EUR" in t ==> t["EUR"] * p.bitcoin.usd == p.bitcoin.eur
    ensures "BTC" in t ==> t["BTC"] * p.bitcoin.usd == 1.0
    ensures "ETH" in t ==> t["ETH"] * p.ethereum.usd == 1.0
  {
    var fiat := if p.bitcoin.usd == 0.0 then map["USD" := 1.0]
                else map["USD" := 1.0, "BRL" := p.bitcoin.brl / p.bitcoin.usd,
                         "EUR" := p.bitcoin.eur / p.bitcoin.usd, "BTC" := 1.0 / p.bitcoin.usd];
    if p.ethereum.usd == 0.0 then fiat else fiat["ETH" := 1.0 / p.ethereum.usd]
  }

  /** `convertCurrency` before formatting, as written: the registry check
      comes first, then the payload (`None` when the fetch failed) is
      turned into the table `getLiveRates` builds and both sides' rates
      are applied. */
  function ConvertCurrency(list: seq<Currency>, from: string, to: string, amount: real, payload: Option<Payload>): (r: Result<real>)
    ensures r == Err(Unsupported) <==> !Has(list, from) || !Has(list, to)
    ensures r == Err(RatesUnavailable) <==> Has(list, from) && Has(list, to) && payload.None?
    ensures r.Ok? <==>
              && payload.Some? && Has(list, from) && Has(list, to)
              && SideRate(list, from, RatesAsWritten(payload.value)).Ok?
              && SideRate(list, to, RatesAsWritten(payload.value)).Ok?
              && SideRate(list, from, RatesAsWritten(payload.value)).value != 0.0
  {
    Convert(list, from, to, amount, if payload.None? then None else Some(RatesAsWritten(payload.value)))
  }

  /** `convertCurrency` over the corrected table `Rates` (see Findings in
      the README): the same steps, with every entry in units per dollar. */
  function ConvertCurrencyCorrected(list: seq<Currency>, from: string, to: string, amount: real, payload: Option<Payload>): (r: Result<real>)
    ensures r == Err(Unsupported) <==> !Has(list, from) || !Has(list, to)
    ensures r == Err(RatesUnavailable) <==> Has(list, from) && Has(list, to) && payload.None?
    ensures r.Ok? <==>
              && payload.Some? && Has(list, from) && Has(list, to)
              && SideRate(list, from, Rates(payload.value)).Ok?
              && SideRate(list, to, Rates(payload.value)).Ok?
              && SideRate(list, from, Rates(payload.value)).value != 0.0
  {
    Convert(list, from, to, amount, if payload.None? then None else Some(Rates(payload.value)))
  }

  const FiatCodes: set<string> := {"USD", "BRL", "EUR"}

  const CryptoCodes: set<string> := {"BTC", "ETH"}

  /** Every one of the five seeded codes is registered with a rate taken
      from the table. */
  lemma SeedLive()
    ensures Live(Seed(), "USD") && Live(Seed(), "BRL") && Live(Seed(), "EUR")
    ensures Live(Seed(), "BTC") && Live(Seed(), "ETH")
  {
    assert IndexOf(Seed(), "USD") == 0 && IndexOf(Seed(), "BRL") == 1 && IndexOf(Seed(), "EUR") == 2;
    assert IndexOf(Seed(), "BTC") == 3 && IndexOf(Seed(), "ETH") == 4;
  }

  /** With non-zero provider prices both tables hold a non-zero rate for
      each of the five codes. */
  lemma RatesPresent(p: Payload)
    requires p.bitcoin.usd != 0.0 && p.bitcoin.brl != 0.0 && p.bitcoin.eur != 0.0 && p.ethereum.usd != 0.0
    ensures forall code :: code in RateCodes ==> code in Rates(p) && Rates(p)[code] != 0.0
    ensures forall code :: code in RateCodes ==> code in RatesAsWritten(p) && RatesAsWritten(p)[code] != 0.0
  {
  }

  /** Any two of the five codes, registered as FIAT or CRYPTO (as
      `initializeCurrencies` registers them, see SeedLive), convert into
      each other whenever the provider's prices are non-zero, with the
      table as written and with the corrected one. */
  lemma LiveConversionsSucceed(list: seq<Currency>, p: Payload, from: string, to: string, amount: real)
    requires from in RateCodes && to in RateCodes && Live(list, from) && Live(list, to)
    requires p.bitcoin.usd != 0.0 && p.bitcoin.brl != 0.0 && p.bitcoin.eur != 0.0 && p.ethereum.usd != 0.0
    ensures ConvertCurrency(list, from, to, amount, Some(p)).Ok?
    ensures ConvertCurrencyCorrected(list, from, to, amount, Some(p)).Ok?
  {
    RatesPresent(p);
    LiveSideRate(list, from, RatesAsWritten(p));
    LiveSideRate(list, to, RatesAsWritten(p));
    ConvertSucceeds(list, from, to, amount, RatesAsWritten(p));
    LiveSideRate(list, from, Rates(p));
    LiveSideRate(list, to, Rates(p));
    ConvertSucceeds(list, from, to, amount, Rates(p));
  }

  /** Bitcoin's quoted price in one of the three fiat currencies. */
  function BitcoinQuote(p: Payload, code: string): real
    requires code in FiatCodes
  {
    if code == "USD" then p.bitcoin.usd else if code == "BRL" then p.bitcoin.brl else p.bitcoin.eur
  }

  /** A coin's quoted price in US dollars. */
  function DollarPrice(p: Payload, coin: string): real
    requires coin in CryptoCodes
  {
    if coin == "BTC" then p.bitcoin.usd else p.ethereum.usd
  }

  /** The corrected table's entry for a fiat code agrees with bitcoin's
      quoted price in that currency. */
  lemma RatesMatchBitcoinQuote(p: Payload, code: string)
    requires p.bitcoin.usd != 0.0 && code in FiatCodes
    ensures code in Rates(p) && Rates(p)[code] * p.bitcoin.usd == BitcoinQuote(p, code)
  {
  }

  /** With the corrected table, bitcoin converts to US dollars, reais and
      euros at exactly the provider's quoted bitcoin prices in them. */
  lemma BitcoinMatchesQuotes(list: seq<Currency>, p: Payload, amount: real, code: string)
    requires Live(list, "BTC") && Live(list, code) && code in FiatCodes && p.bitcoin.usd != 0.0
    ensures ConvertCurrencyCorrected(list, "BTC", code, amount, Some(p)).Ok?
    ensures ConvertCurrencyCorrected(list, "BTC", code, amount, Some(p)).value == amount * BitcoinQuote(p, code)
  {
    var t := Rates(p);
    RatesMatchBitcoinQuote(p, code);
    LiveSideRate(list, "BTC", t);
    LiveSideRate(list, code, t);
    PerDollar(amount, p.bitcoin.usd, SideRate(list, "BTC", t).value, SideRate(list, code, t).value, BitcoinQuote(p, code));
    ConvertSucceeds(list, "BTC", code, amount, t);
  }

  /** With the corrected table, either coin converts to US dollars at its
      quoted dollar price. */
  lemma CryptoToDollarCorrected(list: seq<Currency>, p: Payload, amount: real, coin: string)
    requires Live(list, coin) && Live(list, "USD") && coin in CryptoCodes && DollarPrice(p, coin) != 0.0
    ensures ConvertCurrencyCorrected(list, coin, "USD", amount, Some(p)).Ok?
    ensures ConvertCurrencyCorrected(list, coin, "USD", amount, Some(p)).value == amount * DollarPrice(p, coin)
  {
    var t := Rates(p);
    LiveSideRate(list, coin, t);
    LiveSideRate(list, "USD", t);
    PerDollar(amount, DollarPrice(p, coin), SideRate(list, coin, t).value, 1.0, DollarPrice(p, coin));
    ConvertSucceeds(list, coin, "USD", amount, t);
  }

  /** Converting out of a currency worth `price` dollars a unit into one
      whose rate is `rate` per dollar multiplies by `rate * price`. */
  lemma PerDollar(amount: real, price: real, unitRate: real, rate: real, quote: real)
    requires price != 0.0 && unitRate * price == 1.0 && rate * price == quote
    ensures amount / unitRate * rate == amount * quote
  {
    assert unitRate == 1.0 / price;
    assert rate == quote / price;
  }

  /** As written, converting either coin to US dollars divides by its
      dollar price instead of multiplying by it. */
  lemma CryptoToDollarAsWritten(list: seq<Currency>, p: Payload, amount: real, coin: string)
    requires Live(list, coin) && Live(list, "USD") && coin in CryptoCodes && DollarPrice(p, coin) != 0.0
    ensures ConvertCurrency(list, coin, "USD", amount, Some(p)).Ok?
    ensures ConvertCurrency(list, coin, "USD", amount, Some(p)).value == amount / DollarPrice(p, coin)
  {
    var t := RatesAsWritten(p);
    LiveSideRate(list, coin, t);
    LiveSideRate(list, "USD", t);
    ConvertSucceeds(list, coin, "USD", amount, t);
  }

  /** The provider response used by the counterexample: bitcoin at 45000
      US dollars, ether at 3000. */
  function SamplePayload(): Payload {
    Payload(Quote(45000.0, 225000.0, 40000.0), Quote(3000.0, 15000.0, 2700.0))
  }

  /** After `initializeCurrencies`, with bitcoin quoted at 45000 US dollars
      and ether at 3000, one bitcoin converts, as written, to 1/45000 of a
      dollar and one ether to 1/3000. */
  lemma CryptoToDollarCounterexample()
    ensures ConvertCurrency(Seed(), "BTC", "USD", 1.0, Some(SamplePayload())).Ok?
    ensures ConvertCurrency(Seed(), "BTC", "USD", 1.0, Some(SamplePayload())).value == 1.0 / 45000.0 != 45000.0
    ensures ConvertCurrency(Seed(), "ETH", "USD", 1.0, Some(SamplePayload())).Ok?
    ensures ConvertCurrency(Seed(), "ETH", "USD", 1.0, Some(SamplePayload())).value == 1.0 / 3000.0 != 3000.0
  {
    SeedLive();
    assert ConvertCurrency(Seed(), "BTC", "USD", 1.0, Some(SamplePayload())).Ok?
        && ConvertCurrency(Seed(), "BTC", "USD", 1.0, Some(SamplePayload())).value == 1.0 / 45000.0 by {
      CryptoToDollarAsWritten(Seed(), SamplePayload(), 1.0, "BTC");
    }
    assert ConvertCurrency(Seed(), "ETH", "USD", 1.0, Some(SamplePayload())).Ok?
        && ConvertCurrency(Seed(), "ETH", "USD", 1.0, Some(SamplePayload())).value == 1.0 / 3000.0 by {
      CryptoToDollarAsWritten(Seed(), SamplePayload(), 1.0, "ETH");
    }
  }
}
