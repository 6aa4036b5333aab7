/** The service's module-level `currencies` array, shared by the TypeScript
    service and its compiled copy: reassigned wholesale, grown by `push`
    and shrunk by `splice`. */
module Registry {
  import opened Currencies

  class CurrencyList {
    var entries: seq<Currency>

    /** The array as the module initialises it. */
    constructor (seed: seq<Currency>)
      ensures entries == seed
    {
      entries := seed;
    }

    /** `currencies = seed`: the array is replaced by a new one. */
    method Replace(seed: seq<Currency>)
      modifies this
      ensures entries == seed
    {
      entries := seed;
    }

    /** `addCurrency`: rejects a code already present, otherwise appends
        the entry exactly as given (no check on type or rate). */
    method Add(code: string, kind: CurrencyType, rateToUsd: Option<real>) returns (out: Outcome)
      modifies this
      ensures old(Has(entries, code)) ==> out == Fail(AlreadyExists) && entries == old(entries)
      ensures !old(Has(entries, code)) ==>
                out == Pass && entries == old(entries) + [Currency(code, kind, rateToUsd)]
      ensures entries == Step(old(entries), AddCall(code, kind, rateToUsd))
      ensures DistinctCodes(old(entries)) ==> DistinctCodes(entries)
      ensures Has(entries, code)
    {
      if Has(entries, code) {
        return Fail(AlreadyExists);
      }
      ghost var before := entries;
      entries := entries + [Currency(code, kind, rateToUsd)];
      if DistinctCodes(before) {
        AppendKeepsDistinct(before, Currency(code, kind, rateToUsd));
      }
      assert entries[|before|].code == code;
      out := Pass;
    }

    /** `removeCurrency`: rejects an absent code, otherwise splices out the
        first entry carrying it and keeps the others in order. */
    method Remove(code: string) returns (out: Outcome)
      modifies this
      ensures !old(Has(entries, code)) ==> out == Fail(NotFound) && entries == old(entries)
      ensures old(Has(entries, code)) ==>
                out == Pass && entries == RemoveAt(old(entries), IndexOf(old(entries), code))
      ensures entries == Step(old(entries), RemoveCall(code))
      ensures DistinctCodes(old(entries)) ==> DistinctCodes(entries) && !Has(entries, code)
    {
      var index := IndexOf(entries, code);
      if index == -1 {
        return Fail(NotFound);
      }
      ghost var before := entries;
      entries := RemoveAt(entries, index);
      if DistinctCodes(before) {
        RemoveAtKeepsDistinct(before, index);
        RemovedCodeAbsent(before, code);
      }
      out := Pass;
    }
  }

  /** A call that changes the array: `addCurrency` or `removeCurrency`. */
  datatype Call =
    | AddCall(code: string, kind: CurrencyType, rateToUsd: Option<real>)
    | RemoveCall(code: string)

  /** The array after one call; a call that throws leaves it as it was.
      With distinct codes, the called code is present afterwards exactly
      when the call was an add, and no other code changes presence. */
  function Step(s: seq<Currency>, call: Call): (r: seq<Currency>)
    ensures DistinctCodes(s) ==> DistinctCodes(r)
    ensures DistinctCodes(s) ==> (Has(r, call.code) <==> call.AddCall?)
    ensures forall other :: other != call.code ==> (Has(r, other) <==> Has(s, other))
  {
    match call
    case AddCall(code, kind, rate) =>
      if Has(s, code) then s
      else
        var c := Currency(code, kind, rate);
        assert DistinctCodes(s) ==> DistinctCodes(s + [c]) by {
          if DistinctCodes(s) { AppendKeepsDistinct(s, c); }
        }
        AppendedCodes(s, c);
        s + [c]
    case RemoveCall(code) =>
      var i := IndexOf(s, code);
      if i == -1 then s
      else
        assert DistinctCodes(s) ==> DistinctCodes(RemoveAt(s, i)) && !Has(RemoveAt(s, i), code) by {
          if DistinctCodes(s) { RemoveAtKeepsDistinct(s, i); RemovedCodeAbsent(s, code); }
        }
        RemovedCodes(s, i);
        RemoveAt(s, i)
  }

  /** The array after a series of calls, applied in order. */
  function Replay(s: seq<Currency>, calls: seq<Call>): seq<Currency>
    decreases |calls|
  {
    if |calls| == 0 then s else Replay(Step(s, calls[0]), calls[1..])
  }

  /** Whether `code` is present after the calls: decided by the last call
      naming it, or by `present` (its presence before) when none does. */
  function PresentAfter(present: bool, calls: seq<Call>, code: string): bool
    decreases |calls|
  {
    if |calls| == 0 then present
    else PresentAfter(if calls[0].code == code then calls[0].AddCall? else present, calls[1..], code)
  }

  /** Any series of adds and removes keeps the codes distinct. */
  lemma {:induction false} ReplayKeepsDistinct(s: seq<Currency>, calls: seq<Call>)
    requires DistinctCodes(s)
    ensures DistinctCodes(Replay(s, calls))
    decreases |calls|
  {
    if |calls| > 0 {
      ReplayKeepsDistinct(Step(s, calls[0]), calls[1..]);
    }
  }

  /** Starting from distinct codes, a code is present after a series of
      calls exactly when the last call naming it was an add (or, if none
      names it, when it was present to begin with). */
  lemma {:induction false} ReplayMembership(s: seq<Currency>, calls: seq<Call>, code: string)
    requires DistinctCodes(s)
    ensures Has(Replay(s, calls), code) <==> PresentAfter(Has(s, code), calls, code)
    decreases |calls|
  {
    if |calls| > 0 {
      var next := Step(s, calls[0]);
      assert Has(next, code) == (if calls[0].code == code then calls[0].AddCall? else Has(s, code));
      ReplayMembership(next, calls[1..], code);
    }
  }

  /** Adding a new code and then removing it restores the array. */
  lemma AddThenRemove(s: seq<Currency>, code: string, kind: CurrencyType, rateToUsd: Option<real>)
    requires !Has(s, code)
    ensures Step(Step(s, AddCall(code, kind, rateToUsd)), RemoveCall(code)) == s
  {
    AppendThenRemove(s, Currency(code, kind, rateToUsd));
  }
}
