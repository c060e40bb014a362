/** Price rows: validated and put in canonical form once, then looked up by
    model and provider. */
module Prices {
  import opened Bytes
  import opened Wildcard

  const MAX_PRICE_PER_MILLION: real := 10000.0
  const MAX_PER_CALL: real := 10000.0
  const MAX_MULTIPLIER: real := 50.0

  datatype Mode = Tokens | PerCall

  datatype Price = Price(
    name: string, provider: string, modeName: string, multiplier: real,
    input: real, output: real, cacheRead: real, cacheWrite: Option<real>, perCall: real)
  {
    function Mode(): Mode { if modeName == "per_call" then PerCall else Tokens }

    /** The row charges something. */
    predicate Priced() {
      if Mode().PerCall? then perCall > 0.0
      else input > 0.0 || output > 0.0 || cacheRead > 0.0 || (cacheWrite.Some? && cacheWrite.value > 0.0)
    }

    /** What billing relies on. */
    predicate Normalized() {
      && (modeName == "tokens" || modeName == "per_call")
      && 1.0 <= multiplier <= MAX_MULTIPLIER
      && ValidPrice(input, MAX_PRICE_PER_MILLION) && ValidPrice(output, MAX_PRICE_PER_MILLION)
      && ValidPrice(cacheRead, MAX_PRICE_PER_MILLION)
      && (cacheWrite.Some? ==> ValidPrice(cacheWrite.value, MAX_PRICE_PER_MILLION))
      && ValidPrice(perCall, MAX_PER_CALL)
    }
  }

  predicate ValidPrice(price: real, max: real) { 0.0 <= price <= max }

  function Trim(s: string): string { TrimRight(TrimLeft(s)) }

  const COMPATIBLE: string := "openai-compatible-"

  /** "openai-compatible-x" and "x" name the same provider. */
  function NormalizeProvider(provider: string): string {
    var p := Normalize(provider);
    if COMPATIBLE <= p then p[|COMPATIBLE|..] else p
  }

  type Key = (string, string)

  function PriceKey(name: string, provider: string): Key { (Normalize(name), NormalizeProvider(provider)) }

  /** A provider's name is what is left without the prefix of a compatible
      one. */
  lemma ProviderIs(provider: string, name: string)
    ensures NormalizeProvider(provider) == name <==>
      Normalize(provider) == "openai-compatible-" + name || (Normalize(provider) == name && !("openai-compatible-" <= name))
  {
    hide Normalize;
    var p := Normalize(provider);
    if COMPATIBLE <= p {
      assert p == COMPATIBLE + p[|COMPATIBLE|..];
    }
    assert (COMPATIBLE + name)[|COMPATIBLE|..] == name;
  }

  /** Two rows are for the same model exactly when names and providers agree. */
  lemma SameKeyIff(name: string, provider: string, other: string, otherProvider: string)
    ensures PriceKey(name, provider) == PriceKey(other, otherProvider) <==>
      && SameLetters(Trim(name), Trim(other))
      && NormalizeProvider(provider) == NormalizeProvider(otherProvider)
  {
    hide NormalizeProvider;
    NormalizeIff(name, other);
  }

  datatype PriceError = NameRequired | Duplicate | BadMultiplier | BadMode | BadPrice

  datatype Canonical = Row(price: Price) | Rejected(error: PriceError)

  /** One row in canonical form; a multiplier of 0 means 1. */
  function Canonicalize(row: Price): Canonical {
    var mode := Normalize(row.modeName);
    var clean := row.(
      name := Trim(row.name), provider := NormalizeProvider(row.provider),
      multiplier := if row.multiplier == 0.0 then 1.0 else row.multiplier,
      modeName := if mode == "" then "tokens" else mode);
    if clean.name == "" then Rejected(NameRequired)
    else if !(1.0 <= clean.multiplier <= MAX_MULTIPLIER) then Rejected(BadMultiplier)
    else if clean.modeName != "tokens" && clean.modeName != "per_call" then Rejected(BadMode)
    else if !clean.Normalized() then Rejected(BadPrice)
    else Row(clean)
  }

  /** A row is accepted exactly with a name, a multiplier from 1 to 50 or the 0
      that means 1, a known mode or none, and prices from 0 to 10000; it keeps
      its prices. */
  lemma CanonicalIff(row: Price)
    ensures var c, mode := Canonicalize(row), Normalize(row.modeName);
      && (c.Row? <==>
            && Trim(row.name) != "" && (row.multiplier == 0.0 || 1.0 <= row.multiplier <= 50.0)
            && (mode == "" || mode == "tokens" || mode == "per_call")
            && 0.0 <= row.input <= 10000.0 && 0.0 <= row.output <= 10000.0 && 0.0 <= row.cacheRead <= 10000.0
            && (row.cacheWrite.Some? ==> 0.0 <= row.cacheWrite.value <= 10000.0) && 0.0 <= row.perCall <= 10000.0)
      && (c.Row? ==>
            && c.price.input == row.input && c.price.output == row.output && c.price.cacheRead == row.cacheRead
            && c.price.cacheWrite == row.cacheWrite && c.price.perCall == row.perCall
            && c.price.multiplier == (if row.multiplier == 0.0 then 1.0 else row.multiplier)
            && (c.price.Mode().PerCall? <==> mode == "per_call") && c.price.Normalized())
  {
    hide Normalize, NormalizeProvider, Trim;
  }

  datatype Table = Table(rows: seq<Price>, index: map<Key, nat>) {
    /** The index finds every row under its own key and nothing else. */
    ghost predicate Valid() {
      && (forall k :: k in index ==> index[k] < |rows| && PriceKey(rows[index[k]].name, rows[index[k]].provider) == k)
      && (forall i :: 0 <= i < |rows| ==> var k := PriceKey(rows[i].name, rows[i].provider); k in index && index[k] == i)
      && forall i :: 0 <= i < |rows| ==> rows[i].Normalized()
    }

    /** The provider's own row, else the one without a provider. */
    function Lookup(provider: string, model: string): (r: Option<Price>)
    {
      var p := NormalizeProvider(provider);
      if p != "" && PriceKey(model, p) in index && index[PriceKey(model, p)] < |rows| then Some(rows[index[PriceKey(model, p)]])
      else if PriceKey(model, "") in index && index[PriceKey(model, "")] < |rows| then Some(rows[index[PriceKey(model, "")]])
      else None
    }

    predicate Prices(row: Price, model: string, provider: string) {
      PriceKey(row.name, row.provider) == PriceKey(model, provider)
    }

    /** A lookup is exact: it returns the one row for the model and provider,
        falls back to the unqualified row only when there is none, and fails
        only when neither exists. */
    lemma LookupIsExact(provider: string, model: string, row: Price)
      requires Valid()
      ensures Lookup(provider, model) == Some(row) <==>
        var p := NormalizeProvider(provider);
        row in rows && ((Prices(row, model, p) && p != "") ||
          (Prices(row, model, "") && (p == "" || forall other :: other in rows ==> !Prices(other, model, p))))
    {
      var p := NormalizeProvider(provider);
      assert NormalizeProvider("") == "";
      forall k | k in index ensures rows[index[k]] in rows && Prices(rows[index[k]], model, p) == (k == PriceKey(model, p)) {}
      forall other | other in rows && Prices(other, model, p) ensures PriceKey(model, p) in index && rows[index[PriceKey(model, p)]] == other {
        var i :| 0 <= i < |rows| && rows[i] == other;
      }
      forall other | other in rows && Prices(other, model, "") ensures PriceKey(model, "") in index && rows[index[PriceKey(model, "")]] == other {
        var i :| 0 <= i < |rows| && rows[i] == other;
      }
    }

    lemma LookupIsNormalized(provider: string, model: string)
      requires Valid() && Lookup(provider, model).Some?
      ensures Lookup(provider, model).value.Normalized()
    {}
  }

  datatype Result = Accepted(table: Table) | Refused(error: PriceError)

  /** Checks one row in the order the configuration does. */
  method Clean(given: Price) returns (c: Canonical)
    ensures c == Canonicalize(given)
  {
    var row := given.(name := Trim(given.name), provider := NormalizeProvider(given.provider));
    if row.name == "" {
      return Rejected(NameRequired);
    }
    if row.multiplier == 0.0 {
      row := row.(multiplier := 1.0);
    }
    if row.multiplier < 1.0 || row.multiplier > MAX_MULTIPLIER {
      return Rejected(BadMultiplier);
    }
    var mode := Normalize(row.modeName);
    if mode == "" || mode == "tokens" {
      row := row.(modeName := "tokens");
    } else if mode == "per_call" {
      row := row.(modeName := "per_call");
    } else {
      return Rejected(BadMode);
    }
    if !ValidPrice(row.input, MAX_PRICE_PER_MILLION) || !ValidPrice(row.output, MAX_PRICE_PER_MILLION)
       || !ValidPrice(row.cacheRead, MAX_PRICE_PER_MILLION) {
      return Rejected(BadPrice);
    }
    if row.cacheWrite.Some? && !ValidPrice(row.cacheWrite.value, MAX_PRICE_PER_MILLION) {
      return Rejected(BadPrice);
    }
    if !ValidPrice(row.perCall, MAX_PER_CALL) {
      return Rejected(BadPrice);
    }
    return Row(row);
  }

  /** The rows' common key in canonical form. */
  function RowKey(row: Price): Key { PriceKey(Trim(row.name), NormalizeProvider(row.provider)) }

  /** The row is refused for itself, or its model and provider come twice. */
  ghost predicate Faulty(rows: seq<Price>, error: PriceError) {
    || (exists i :: 0 <= i < |rows| && Canonicalize(rows[i]) == Rejected(error))
    || (error == Duplicate && exists j, i :: 0 <= j < i < |rows| && RowKey(rows[j]) == RowKey(rows[i]))
  }

  /** The first n rows are clean and indexed, the others as given. */
  ghost predicate CleanTo(given: seq<Price>, rows: seq<Price>, index: map<Key, nat>, n: nat) {
    && |rows| == |given| && n <= |rows|
    && (forall k :: n <= k < |rows| ==> rows[k] == given[k])
    && (forall k :: 0 <= k < n ==> Row(rows[k]) == Canonicalize(given[k]))
    && (forall key :: key in index ==> index[key] < n && RowKey(given[index[key]]) == key)
    && (forall k :: 0 <= k < n ==> RowKey(given[k]) in index && index[RowKey(given[k])] == k)
  }

  lemma CleanRow(given: Price, row: Price)
    requires Row(row) == Canonicalize(given)
    ensures PriceKey(row.name, row.provider) == RowKey(given) && row.Normalized()
  {}

  lemma AllClean(given: seq<Price>, rows: seq<Price>, index: map<Key, nat>)
    requires CleanTo(given, rows, index, |rows|)
    ensures Table(rows, index).Valid() && forall error :: !Faulty(given, error)
  {
    hide Canonicalize, PriceKey, RowKey;
    forall i | 0 <= i < |rows|
      ensures PriceKey(rows[i].name, rows[i].provider) == RowKey(given[i]) && rows[i].Normalized()
    {
      CleanRow(given[i], rows[i]);
    }
    forall i, error | 0 <= i < |given| ensures Canonicalize(given[i]) != Rejected(error) {
      assert Row(rows[i]) == Canonicalize(given[i]);
    }
  }

  lemma OneMoreClean(given: seq<Price>, rows: seq<Price>, index: map<Key, nat>, i: nat, row: Price)
    requires i < |rows| && CleanTo(given, rows, index, i)
    requires RowKey(given[i]) !in index && Row(row) == Canonicalize(given[i])
    ensures CleanTo(given, rows[i := row], index[RowKey(given[i]) := i], i + 1)
  {
    hide RowKey, Canonicalize;
  }

  /** Rewrites the rows in place and indexes them; the first bad or repeated
      row stops it. */
  method NormalizeModelPrices(rows: array<Price>) returns (r: Result)
    modifies rows
    ensures r.Accepted? ==> r.table.Valid() && r.table.rows == rows[..]
    ensures r.Accepted? ==> forall i :: 0 <= i < rows.Length ==> Row(rows[i]) == Canonicalize(old(rows[i]))
    ensures r.Refused? ==> Faulty(old(rows[..]), r.error)
    ensures r.Accepted? <==> forall error :: !Faulty(old(rows[..]), error)
  {
    ghost var given := rows[..];
    var index: map<Key, nat> := map[];
    for i := 0 to rows.Length
      invariant CleanTo(given, rows[..], index, i)
    {
      assert rows[..][i] == given[i];
      if Trim(rows[i].name) == "" {
        assert Canonicalize(given[i]) == Rejected(NameRequired) && Faulty(given, NameRequired);
        return Refused(NameRequired);
      }
      var key := RowKey(rows[i]);
      if key in index {
        return Refused(Duplicate);
      }
      var row := Clean(rows[i]);
      if row.Rejected? {
        assert Canonicalize(given[i]) == Rejected(row.error) && Faulty(given, row.error);
        return Refused(row.error);
      }
      OneMoreClean(given, rows[..], index, i, row.price);
      ghost var before := rows[..];
      rows[i] := row.price;
      index := index[key := i];
      assert rows[..] == before[i := row.price];
    }
    AllClean(given, rows[..], index);
    return Accepted(Table(rows[..], index));
  }
}
