/** Currency entries, the errors the service raises, and the searches the
    service runs over its list of entries (`find`, `some`, `findIndex`). */
module Currencies {

  datatype CurrencyType = FIAT | CRYPTO | FICTITIOUS

  datatype Option<T> = None | Some(value: T)

  /** One registered currency. `rateToUsd` is the optional
      `conversionRateToUSD`; only FICTITIOUS entries are read for it. */
  datatype Currency = Currency(code: string, kind: CurrencyType, rateToUsd: Option<real>)

  /** The thrown errors of the service, plus the two cases where the
      source computes NaN or Infinity instead of throwing. */
  datatype Error =
    | AlreadyExists         // "Currency already exists"
    | NotFound              // "Currency not found"
    | Unsupported           // "Unsupported currency"
    | RatesUnavailable      // fetching the live rates failed
    | MissingRate(code: string)
    | ZeroRate(code: string)

  datatype Result<T> = Ok(value: T) | Err(error: Error)

  datatype Outcome = Pass | Fail(error: Error)

  /** `currencies.some(c => c.code === code)` */
  predicate Has(s: seq<Currency>, code: string) {
    exists i :: 0 <= i < |s| && s[i].code == code
  }

  /** No two entries share a code. */
  predicate DistinctCodes(s: seq<Currency>) {
    forall i, j :: 0 <= i < j < |s| ==> s[i].code != s[j].code
  }

  /** `currencies.findIndex(c => c.code === code)`: the first matching
      position, or -1 when there is none. */
  function IndexOf(s: seq<Currency>, code: string): (r: int)
    ensures -1 <= r < |s|
    ensures r == -1 <==> !Has(s, code)
    ensures r != -1 ==> s[r].code == code
    ensures forall j :: 0 <= j < r ==> s[j].code != code
  {
    if |s| == 0 then -1
    else if s[0].code == code then 0
    else
      var k := IndexOf(s[1..], code);
      if k == -1 then
        assert forall i :: 1 <= i < |s| ==> s[i] == s[1..][i - 1];
        -1
      else
        assert s[1..][k] == s[k + 1];
        k + 1
  }

  /** `currencies.find(c => c.code === code)`: the first entry with that
      code, if any. */
  function Find(s: seq<Currency>, code: string): (r: Option<Currency>)
    ensures r.Some? <==> Has(s, code)
    ensures r.Some? ==> r.value in s && r.value.code == code
    ensures r.Some? ==> exists i :: 0 <= i < |s| && s[i] == r.value && forall j :: 0 <= j < i ==> s[j].code != code
  {
    var i := IndexOf(s, code);
    if i == -1 then None else Some(s[i])
  }

  /** With distinct codes, `find` returns the one entry carrying the code. */
  lemma FindDistinct(s: seq<Currency>, c: Currency)
    requires DistinctCodes(s) && c in s
    ensures Find(s, c.code) == Some(c)
  {
    var k :| 0 <= k < |s| && s[k] == c;
    assert IndexOf(s, c.code) == k;
  }

  /** `currencies.splice(i, 1)`: the sequence without position i. */
  function RemoveAt(s: seq<Currency>, i: int): (r: seq<Currency>)
    requires 0 <= i < |s|
    ensures |r| == |s| - 1
    ensures forall j :: 0 <= j < i ==> r[j] == s[j]
    ensures forall j :: i <= j < |r| ==> r[j] == s[j + 1]
    ensures multiset(r) + multiset{s[i]} == multiset(s)
  {
    assert s == s[..i] + [s[i]] + s[i + 1..];
    s[..i] + s[i + 1..]
  }

  /** Appending an entry whose code is new keeps the codes distinct. */
  lemma AppendKeepsDistinct(s: seq<Currency>, c: Currency)
    requires DistinctCodes(s) && !Has(s, c.code)
    ensures DistinctCodes(s + [c])
  {
    var t := s + [c];
    forall i, j | 0 <= i < j < |t| ensures t[i].code != t[j].code {
      if j == |s| {
        assert t[i] == s[i];
      } else {
        assert t[i] == s[i] && t[j] == s[j];
      }
    }
  }

  /** Removing any one entry keeps the codes distinct. */
  lemma RemoveAtKeepsDistinct(s: seq<Currency>, i: int)
    requires DistinctCodes(s) && 0 <= i < |s|
    ensures DistinctCodes(RemoveAt(s, i))
  {
    var r := RemoveAt(s, i);
    forall a, b | 0 <= a < b < |r| ensures r[a].code != r[b].code {
      var a' := if a < i then a else a + 1;
      var b' := if b < i then b else b + 1;
      assert r[a] == s[a'] && r[b] == s[b'];
    }
  }

  /** With distinct codes, removing the entry `findIndex` points at leaves
      no entry with that code. */
  lemma RemovedCodeAbsent(s: seq<Currency>, code: string)
    requires DistinctCodes(s) && Has(s, code)
    ensures !Has(RemoveAt(s, IndexOf(s, code)), code)
  {
    var i := IndexOf(s, code);
    var r := RemoveAt(s, i);
    forall k | 0 <= k < |r| ensures r[k].code != code {
      if k >= i {
        assert r[k] == s[k + 1];
      }
    }
  }

  /** Removing a code right after appending it as new restores the list. */
  lemma AppendThenRemove(s: seq<Currency>, c: Currency)
    requires !Has(s, c.code)
    ensures IndexOf(s + [c], c.code) == |s|
    ensures RemoveAt(s + [c], |s|) == s
  {
    var t := s + [c];
    assert t[|s|].code == c.code;
    forall j | 0 <= j < |s| ensures t[j].code != c.code {
      assert t[j] == s[j];
    }
  }

  /** Appending an entry adds its code and leaves every other code as it was. */
  lemma AppendedCodes(s: seq<Currency>, c: Currency)
    ensures Has(s + [c], c.code)
    ensures forall other :: other != c.code ==> (Has(s + [c], other) <==> Has(s, other))
  {
    var t := s + [c];
    assert t[|s|] == c;
    forall other | other != c.code && Has(t, other) ensures Has(s, other) {
      var k :| 0 <= k < |t| && t[k].code == other;
      assert t[k] == s[k];
    }
    forall other | Has(s, other) ensures Has(t, other) {
      var k :| 0 <= k < |s| && s[k].code == other;
      assert t[k] == s[k];
    }
  }

  /** Removing position `i` leaves every code other than the removed
      entry's as present or absent as before. */
  lemma RemovedCodes(s: seq<Currency>, i: int)
    requires 0 <= i < |s|
    ensures forall other :: other != s[i].code ==> (Has(RemoveAt(s, i), other) <==> Has(s, other))
  {
    var r := RemoveAt(s, i);
    forall other | other != s[i].code && Has(r, other) ensures Has(s, other) {
      var k :| 0 <= k < |r| && r[k].code == other;
      if k >= i { assert r[k] == s[k + 1]; }
    }
    forall other | other != s[i].code && Has(s, other) ensures Has(r, other) {
      var k :| 0 <= k < |s| && s[k].code == other;
      if k < i { assert r[k] == s[k]; } else { assert r[k - 1] == s[k]; }
    }
  }
}
