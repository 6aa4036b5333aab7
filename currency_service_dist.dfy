/** The compiled copy of the currency service. Its list starts with six
    entries, GOLD among them with a fixed rate; its rate table is the
    provider's `conversion_rates` map itself, so its `convertCurrency` is
    `Conversion.Convert` with that map, and the result is not formatted.
    `addCurrency` and `removeCurrency` are `Registry.CurrencyList.Add` and
    `Registry.CurrencyList.Remove`. */
module CurrencyServiceDist {
  import opened Currencies
  import opened Conversion
  import opened Registry
  import CurrencyServiceTs

  /** The `currencies` array as the module defines it. */
  function Seed(): seq<Currency> {
    [ Currency("USD", FIAT, None),
      Currency("BRL", FIAT, None),
      Currency("EUR", FIAT, None),
      Currency("BTC", CRYPTO, None),
      Currency("ETH", CRYPTO, None),
      Currency("GOLD", FICTITIOUS, Some(0.1)) ]
  }

  /** The six seeded codes are distinct; the first five entries are those
      the TypeScript `initializeCurrencies` installs, and GOLD is appended
      with its fixed rate of 0.1 per US dollar. */
  lemma SeedShape()
    ensures |Seed()| == 6 && DistinctCodes(Seed())
    ensures Seed()[..5] == CurrencyServiceTs.Seed()
    ensures Seed()[5] == Currency("GOLD", FICTITIOUS, Some(0.1))
  {
  }

  /** Loading the module: the array holds exactly the six seeded entries. */
  method LoadCurrencies() returns (currencies: CurrencyList)
    ensures fresh(currencies)
    ensures currencies.entries == [ Currency("USD", FIAT, None), Currency("BRL", FIAT, None),
                                    Currency("EUR", FIAT, None), Currency("BTC", CRYPTO, None),
                                    Currency("ETH", CRYPTO, None), Currency("GOLD", FICTITIOUS, Some(0.1)) ]
    ensures DistinctCodes(currencies.entries)
  {
    SeedShape();
    currencies := new CurrencyList(Seed());
  }

  /** GOLD is registered with its own rate; the other five take theirs
      from the table. */
  lemma SeedRegistered()
    ensures Live(Seed(), "USD") && Live(Seed(), "BRL") && Live(Seed(), "EUR")
    ensures Live(Seed(), "BTC") && Live(Seed(), "ETH")
    ensures Has(Seed(), "GOLD") && Find(Seed(), "GOLD").value.kind == FICTITIOUS
    ensures Find(Seed(), "GOLD").value.rateToUsd == Some(0.1)
  {
    assert IndexOf(Seed(), "USD") == 0 && IndexOf(Seed(), "BRL") == 1 && IndexOf(Seed(), "EUR") == 2;
    assert IndexOf(Seed(), "BTC") == 3 && IndexOf(Seed(), "ETH") == 4 && IndexOf(Seed(), "GOLD") == 5;
  }

  /** A FICTITIOUS currency stored at `rate` per US dollar converts to US
      dollars by dividing by that rate, whatever the table says about it;
      GOLD at 0.1 is worth ten dollars a unit. */
  lemma FixedRateToDollar(list: seq<Currency>, code: string, rate: real, t: RateTable, amount: real)
    requires Has(list, code) && Find(list, code).value.kind == FICTITIOUS
    requires Find(list, code).value.rateToUsd == Some(rate) && rate != 0.0
    requires Live(list, "USD") && "USD" in t && t["USD"] == 1.0
    ensures Convert(list, code, "USD", amount, Some(t)).Ok?
    ensures Convert(list, code, "USD", amount, Some(t)).value == amount / rate
  {
    LiveSideRate(list, "USD", t);
    ConvertSucceeds(list, code, "USD", amount, t);
  }

  /** With the seeded list, ten GOLD are a hundred US dollars. */
  lemma GoldToDollar(t: RateTable)
    requires "USD" in t && t["USD"] == 1.0
    ensures Convert(Seed(), "GOLD", "USD", 10.0, Some(t)).value == 100.0
  {
    SeedRegistered();
    FixedRateToDollar(Seed(), "GOLD", 0.1, t, 10.0);
  }

  /** With `conversion_rates` {USD: 1, BRL: 5}, ten reais are two US
      dollars, unrounded. */
  lemma RealToDollarExample()
    ensures Convert(Seed(), "BRL", "USD", 10.0, Some(map["USD" := 1.0, "BRL" := 5.0])).value == 2.0
  {
    var t := map["USD" := 1.0, "BRL" := 5.0];
    SeedRegistered();
    LiveSideRate(Seed(), "USD", t);
    LiveSideRate(Seed(), "BRL", t);
    ConvertSucceeds(Seed(), "BRL", "USD", 10.0, t);
  }
}
