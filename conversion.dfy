/** Rate selection and the conversion arithmetic of `convertCurrency`,
    common to the TypeScript service and its compiled copy. Amounts and
    rates are exact reals. The rate table is whatever the live-rate fetch
    produced, keyed by currency code; `None` stands for a failed fetch. */
module Conversion {
  import opened Currencies

  type RateTable = map<string, real>

  /** The rate used for one side of a conversion: a FICTITIOUS entry's own
      stored rate, otherwise the table's entry for its code. A missing
      rate (NaN in the source) is an error. */
  function RateOf(c: Currency, table: RateTable): (r: Result<real>)
    ensures c.kind == FICTITIOUS ==> (r.Ok? <==> c.rateToUsd.Some?)
    ensures c.kind != FICTITIOUS ==> (r.Ok? <==> c.code in table)
    ensures r.Ok? && c.kind == FICTITIOUS ==> c.rateToUsd == Some(r.value)
    ensures r.Ok? && c.kind != FICTITIOUS ==> table[c.code] == r.value
    ensures r.Err? ==> r.error == MissingRate(c.code)
  {
    if c.kind == FICTITIOUS then
      match c.rateToUsd
      case Some(rate) => Ok(rate)
      case None => Err(MissingRate(c.code))
    else if c.code in table then Ok(table[c.code])
    else Err(MissingRate(c.code))
  }

  /** The rate for a registered code: the rate of the entry `find` returns,
      its own stored rate when it is FICTITIOUS, otherwise the table's entry
      for the code. */
  function SideRate(list: seq<Currency>, code: string, table: RateTable): (r: Result<real>)
    requires Has(list, code)
    ensures Find(list, code).value.kind == FICTITIOUS ==>
              (r.Ok? <==> Find(list, code).value.rateToUsd.Some?) &&
              (r.Ok? ==> Find(list, code).value.rateToUsd == Some(r.value))
    ensures Find(list, code).value.kind != FICTITIOUS ==>
              (r.Ok? <==> code in table) && (r.Ok? ==> table[code] == r.value)
    ensures r.Err? ==> r.error == MissingRate(code)
  {
    RateOf(Find(list, code).value, table)
  }

  /** A registered code whose rate comes from the table. */
  predicate Live(list: seq<Currency>, code: string) {
    Has(list, code) && Find(list, code).value.kind != FICTITIOUS
  }

  /** The rate of a live code is its table entry, when the table has one. */
  lemma LiveSideRate(list: seq<Currency>, code: string, t: RateTable)
    requires Live(list, code)
    ensures SideRate(list, code, t).Ok? <==> code in t
    ensures code in t ==> SideRate(list, code, t).value == t[code]
  {
  }

  /** `convertCurrency(from, to, amount)`: both codes must be registered
      before the rates are looked at; the result is `amount / fromRate *
      toRate`. A zero `fromRate` (Infinity or NaN in the source) is an
      error. */
  function Convert(list: seq<Currency>, from: string, to: string, amount: real, fetched: Option<RateTable>): (r: Result<real>)
    // Unregistered codes are reported whatever the fetch would have given.
    ensures r == Err(Unsupported) <==> !Has(list, from) || !Has(list, to)
    ensures r == Err(RatesUnavailable) <==> Has(list, from) && Has(list, to) && fetched.None?
    // A result exists exactly when both rates exist and the source rate is not zero.
    ensures r.Ok? <==>
              Has(list, from) && Has(list, to) && fetched.Some? &&
              SideRate(list, from, fetched.value).Ok? && SideRate(list, to, fetched.value).Ok? &&
              SideRate(list, from, fetched.value).value != 0.0
  {
    var fromCurrency := Find(list, from);
    var toCurrency := Find(list, to);
    if fromCurrency.None? || toCurrency.None? then Err(Unsupported)
    else if fetched.None? then Err(RatesUnavailable)
    else
      var rates := fetched.value;
      match RateOf(fromCurrency.value, rates)
      case Err(e) => Err(e)
      case Ok(fromRate) =>
        match RateOf(toCurrency.value, rates)
        case Err(e) => Err(e)
        case Ok(toRate) =>
          if fromRate == 0.0 then Err(ZeroRate(from))
          else
            var amountInUsd := amount / fromRate;
            var convertedAmount := amountInUsd * toRate;
            Ok(convertedAmount)
  }

  /** The value of a successful conversion, from the two side rates. */
  lemma ConvertValue(list: seq<Currency>, from: string, to: string, amount: real, rates: RateTable)
    requires Convert(list, from, to, amount, Some(rates)).Ok?
    ensures Convert(list, from, to, amount, Some(rates)).value
            == amount / SideRate(list, from, rates).value * SideRate(list, to, rates).value
  {
  }

  /** A converted amount is worth, at the table's rates, what the original
      amount was worth: result / toRate == amount / fromRate. */
  lemma ConvertPreservesValue(list: seq<Currency>, from: string, to: string, amount: real, rates: RateTable)
    requires Convert(list, from, to, amount, Some(rates)).Ok?
    ensures Convert(list, from, to, amount, Some(rates)).value * SideRate(list, from, rates).value
            == amount * SideRate(list, to, rates).value
  {
    ConvertValue(list, from, to, amount, rates);
    var fromRate := SideRate(list, from, rates).value;
    assert amount / fromRate * fromRate == amount;
  }

  /** Both rates present and a non-zero source rate give exactly the
      source's `amount / fromRate * toRate`. */
  lemma ConvertSucceeds(list: seq<Currency>, from: string, to: string, amount: real, rates: RateTable)
    requires Has(list, from) && Has(list, to)
    requires SideRate(list, from, rates).Ok? && SideRate(list, to, rates).Ok?
    requires SideRate(list, from, rates).value != 0.0
    ensures Convert(list, from, to, amount, Some(rates)).Ok?
    ensures Convert(list, from, to, amount, Some(rates)).value
            == amount / SideRate(list, from, rates).value * SideRate(list, to, rates).value
  {
  }

  /** Converting a currency to itself gives the amount back. */
  lemma ConvertToSelf(list: seq<Currency>, code: string, amount: real, rates: RateTable)
    requires Has(list, code)
    requires SideRate(list, code, rates).Ok? && SideRate(list, code, rates).value != 0.0
    ensures Convert(list, code, code, amount, Some(rates)).Ok?
    ensures Convert(list, code, code, amount, Some(rates)).value == amount
  {
    var rate := SideRate(list, code, rates).value;
    assert amount / rate * rate == amount;
  }

  /** A zero amount converts to zero. */
  lemma ConvertZero(list: seq<Currency>, from: string, to: string, fetched: Option<RateTable>)
    requires Convert(list, from, to, 0.0, fetched).Ok?
    ensures Convert(list, from, to, 0.0, fetched).value == 0.0
  {
  }

  /** Converting back with the same rates returns the original amount. */
  lemma ConvertRoundTrip(list: seq<Currency>, from: string, to: string, amount: real, rates: RateTable)
    requires Convert(list, from, to, amount, Some(rates)).Ok?
    requires SideRate(list, to, rates).value != 0.0
    ensures Convert(list, to, from, Convert(list, from, to, amount, Some(rates)).value, Some(rates)).Ok?
    ensures Convert(list, to, from, Convert(list, from, to, amount, Some(rates)).value, Some(rates)).value == amount
  {
    var fromRate := SideRate(list, from, rates).value;
    var toRate := SideRate(list, to, rates).value;
    ConvertValue(list, from, to, amount, rates);
    var converted := Convert(list, from, to, amount, Some(rates)).value;
    Cancel(amount / fromRate, toRate, fromRate);
    assert converted / toRate * fromRate == amount;
    ConvertSucceeds(list, to, from, converted, rates);
  }

  /** Converting in two steps through a third currency is the same as
      converting directly. */
  lemma ConvertChain(list: seq<Currency>, a: string, b: string, c: string, amount: real, rates: RateTable)
    requires Convert(list, a, b, amount, Some(rates)).Ok?
    requires Convert(list, b, c, Convert(list, a, b, amount, Some(rates)).value, Some(rates)).Ok?
    ensures Convert(list, a, c, amount, Some(rates)).Ok?
    ensures Convert(list, a, c, amount, Some(rates)).value
            == Convert(list, b, c, Convert(list, a, b, amount, Some(rates)).value, Some(rates)).value
  {
    var ra := SideRate(list, a, rates).value;
    var rb := SideRate(list, b, rates).value;
    var rc := SideRate(list, c, rates).value;
    ConvertValue(list, a, b, amount, rates);
    var mid := Convert(list, a, b, amount, Some(rates)).value;
    assert rb != 0.0 && SideRate(list, c, rates).Ok?;
    ConvertSucceeds(list, b, c, mid, rates);
    ConvertSucceeds(list, a, c, amount, rates);
    Cancel(amount / ra, rb, rc);
  }

  /** Dividing by a non-zero rate undoes multiplying by it. */
  lemma Cancel(x: real, rate: real, other: real)
    requires rate != 0.0
    ensures x * rate / rate * other == x * other
  {
  }
}
