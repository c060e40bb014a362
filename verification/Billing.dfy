/** Billing one usage record: its tokens in disjoint classes, each class priced
    and rounded on its own. Money is exact real arithmetic up to the rounding
    to whole nanodollars. */
module Billing {
  import opened Bytes
  import opened Prices
  import opened Usage

  const MAX_TOKENS: int := 0x8000_0000
  const INT64_LIMIT: int := 0x8000_0000_0000_0000

  datatype Detail = Detail(
    input: int, output: int, reasoning: int, cached: int, cacheRead: int, cacheCreation: int, total: int)

  function AtLeastZero(x: int): int { if x < 0 then 0 else x }

  function Plausible(x: int): int { if x < 0 || x > MAX_TOKENS then 0 else x }

  /** Negative counts become zero; the two counts that are not billed are also
      dropped when absurd. */
  function Sanitize(d: Detail): Detail {
    Detail(AtLeastZero(d.input), AtLeastZero(d.output), AtLeastZero(d.reasoning), Plausible(d.cached),
           AtLeastZero(d.cacheRead), AtLeastZero(d.cacheCreation), Plausible(d.total))
  }

  /** A billed count above the ceiling rejects the record. */
  predicate Invalid(d: Detail) {
    d.input > MAX_TOKENS || d.output > MAX_TOKENS || d.reasoning > MAX_TOKENS
    || d.cacheRead > MAX_TOKENS || d.cacheCreation > MAX_TOKENS
  }

  predicate InRange(x: int) { 0 <= x <= MAX_TOKENS }

  predicate Sane(d: Detail) {
    InRange(d.input) && InRange(d.output) && InRange(d.reasoning) && InRange(d.cached)
    && InRange(d.cacheRead) && InRange(d.cacheCreation) && InRange(d.total)
  }

  /** The pass over the billed and then the unbilled counts. */
  method SanitizeDetail(d: Detail) returns (clean: Detail, clamped: bool, invalid: bool)
    ensures invalid == Invalid(d)
    ensures clean == Sanitize(d) && (!invalid ==> Sane(clean))
    ensures clamped <==> clean != d
  {
    var billed := [d.input, d.output, d.reasoning, d.cacheRead, d.cacheCreation];
    var given, n := billed, |billed|;
    clamped, invalid := false, false;
    for i := 0 to |billed|
      invariant |billed| == n
      invariant forall k :: 0 <= k < n ==> billed[k] == if k < i then AtLeastZero(given[k]) else given[k]
      invariant clamped <==> exists k :: 0 <= k < i && given[k] < 0
      invariant invalid <==> exists k :: 0 <= k < i && given[k] > MAX_TOKENS
    {
      if billed[i] < 0 {
        billed, clamped := billed[i := 0], true;
      } else if billed[i] > MAX_TOKENS {
        invalid := true;
      }
    }
    var total, cached := d.total, d.cached;
    if total < 0 || total > MAX_TOKENS {
      total, clamped := 0, true;
    }
    if cached < 0 || cached > MAX_TOKENS {
      cached, clamped := 0, true;
    }
    assert given[0] == d.input && given[1] == d.output && given[2] == d.reasoning && given[3] == d.cacheRead && given[4] == d.cacheCreation;
    clean := Detail(billed[0], billed[1], billed[2], cached, billed[3], billed[4], total);
  }

  /** Cleaning keeps every plausible count and drops the others; what it cannot
      make billable is rejected, and nothing else. */
  lemma CleanIs(d: Detail)
    ensures var c := Sanitize(d);
      && (Sane(d) ==> c == d)
      && (Invalid(d) <==> !Sane(c))
      && c.input == (if d.input < 0 then 0 else d.input) && c.output == (if d.output < 0 then 0 else d.output)
      && c.reasoning == (if d.reasoning < 0 then 0 else d.reasoning)
      && c.cacheRead == (if d.cacheRead < 0 then 0 else d.cacheRead)
      && c.cacheCreation == (if d.cacheCreation < 0 then 0 else d.cacheCreation)
      && c.total == (if 0 <= d.total <= 0x8000_0000 then d.total else 0)
      && c.cached == (if 0 <= d.cached <= 0x8000_0000 then d.cached else 0)
  {}

  /** Whether cached tokens are within the input and reasoning within the
      output. */
  datatype Semantics = Subset | Independent | SeparateReasoning

  datatype Split = Split(input: int, cacheRead: int, cacheWrite: int, output: int)

  function Min(x: int, y: int): int { if x <= y then x else y }

  function SplitTokens(semantics: Semantics, d: Detail, writesApart: bool): Split {
    if semantics.Independent? then
      if writesApart then Split(d.input, d.cacheRead, d.cacheCreation, d.output)
      else Split(d.input + d.cacheCreation, d.cacheRead, 0, d.output)
    else
      var cacheRead := Min(d.cacheRead, d.input);
      var fresh' := d.input - cacheRead;
      var cacheWrite := if writesApart then Min(d.cacheCreation, fresh') else 0;
      var outside := semantics.SeparateReasoning? || (d.reasoning > 0 && d.total - d.input - d.output == d.reasoning);
      Split(fresh' - cacheWrite, cacheRead, cacheWrite, d.output + if outside then d.reasoning else 0)
  }

  /** The classes partition the prompt and the generated tokens as the provider
      counts them, at a price of their own for cache writes or without one. */
  lemma SplitPartitions(semantics: Semantics, d: Detail, writesApart: bool)
    requires Sane(d)
    ensures var s := SplitTokens(semantics, d, writesApart);
      && s.input >= 0 && s.cacheRead >= 0 && s.cacheWrite >= 0 && s.output >= 0
      && s.input + s.cacheRead + s.cacheWrite ==
         (if semantics.Independent? then d.input + d.cacheRead + d.cacheCreation else d.input)
      && (s.output == d.output || s.output == d.output + d.reasoning)
      && s.output == SplitTokens(semantics, d, !writesApart).output
      && s.cacheRead == SplitTokens(semantics, d, !writesApart).cacheRead
      && (semantics.Independent? ==> s.output == d.output && s.cacheRead == d.cacheRead)
      && s.input <= 2 * MAX_TOKENS && s.cacheRead <= MAX_TOKENS && s.cacheWrite <= MAX_TOKENS && s.output <= 2 * MAX_TOKENS
  {}

  /** Reasoning tokens come on top of the output: the provider always reports
      them so, or the record's own total shows it. */
  predicate ReasoningOnTop(semantics: Semantics, d: Detail) {
    match semantics
    case Independent => false
    case SeparateReasoning => true
    case Subset => d.total == d.input + d.output + d.reasoning
  }

  /** The counts by class, told from the record alone. Where cache tokens are
      part of the input, reads take as much of it as was reported, and writes
      with a price of their own as much of the rest as was reported. */
  ghost predicate Reported(semantics: Semantics, d: Detail, writesApart: bool, s: Split) {
    && s.output == d.output + (if ReasoningOnTop(semantics, d) then d.reasoning else 0)
    && (!writesApart ==> s.cacheWrite == 0)
    && (semantics.Independent? ==>
          && s.cacheRead == d.cacheRead && (writesApart ==> s.cacheWrite == d.cacheCreation)
          && s.input + s.cacheWrite == d.input + d.cacheCreation)
    && (!semantics.Independent? ==>
          && s.input + s.cacheRead + s.cacheWrite == d.input && s.input >= 0
          && s.cacheRead <= d.cacheRead && (s.cacheRead < d.cacheRead ==> s.cacheRead == d.input)
          && (writesApart ==> s.cacheWrite <= d.cacheCreation && (s.cacheWrite < d.cacheCreation ==> s.input == 0)))
  }

  /** The split is the one way to class the tokens like that. */
  lemma SplitIs(semantics: Semantics, d: Detail, writesApart: bool, s: Split)
    requires Sane(d)
    ensures Reported(semantics, d, writesApart, s) && s.cacheWrite >= 0 <==> s == SplitTokens(semantics, d, writesApart)
  {}

  /** Half away from zero. */
  function Round(x: real): int {
    if x >= 0.0 then (x + 0.5).Floor else -((-x + 0.5).Floor)
  }

  /** tokens times price per million, in nanodollars after the multiplier. */
  function TokenCharge(tokens: int, price: real, multiplier: real): int {
    Round(tokens as real * price * 1000.0 * multiplier)
  }

  function ReadPrice(p: Price): real { if p.cacheRead == 0.0 then p.input else p.cacheRead }

  function WritePrice(p: Price): real { if p.cacheWrite.Some? then p.cacheWrite.value else p.input }

  function BillTokens(p: Price, semantics: Semantics, d: Detail): Bucket {
    var s := SplitTokens(semantics, d, p.cacheWrite.Some?);
    var inputCost, outputCost := TokenCharge(s.input, p.input, p.multiplier), TokenCharge(s.output, p.output, p.multiplier);
    var readCost, writeCost := TokenCharge(s.cacheRead, ReadPrice(p), p.multiplier), TokenCharge(s.cacheWrite, WritePrice(p), p.multiplier);
    Bucket(1, 0, s.input, s.cacheRead, s.cacheWrite, s.output, inputCost + readCost + writeCost + outputCost, readCost, writeCost)
  }

  lemma ProductMonotone(a: real, b: real, c: real)
    requires a <= b && 0.0 <= c
    ensures a * c <= b * c
  {
    assert 0.0 <= (b - a) * c;
  }

  lemma RoundMonotone(x: real, y: real)
    requires 0.0 <= x <= y
    ensures 0 <= Round(x) <= Round(y)
  {}

  lemma TimesMultiplier(x: real, bound: real, multiplier: real)
    requires 0.0 <= x <= bound && 1.0 <= multiplier <= MAX_MULTIPLIER
    ensures 0.0 <= x * multiplier <= 50.0 * bound
  {
    assert 0.0 <= multiplier * x by {
      ProductMonotone(0.0, multiplier, x);
    }
    assert multiplier * x <= 50.0 * x by {
      ProductMonotone(multiplier, 50.0, x);
    }
    assert x * multiplier == multiplier * x;
    assert 50.0 * x <= 50.0 * bound;
  }

  /** One token costs at most half a dollar: the highest price and multiplier. */
  lemma ChargeBound(tokens: int, price: real, multiplier: real)
    requires tokens >= 0 && ValidPrice(price, MAX_PRICE_PER_MILLION) && 1.0 <= multiplier <= MAX_MULTIPLIER
    ensures 0 <= TokenCharge(tokens, price, multiplier) <= tokens * 500_000_000
  {
    var t := tokens as real;
    ProductMonotone(price, 10000.0, t);
    ProductMonotone(0.0, price, t);
    var x := t * price * 1000.0;
    assert t * price == price * t && 0.0 * t == 0.0;
    assert 0.0 <= t * price <= 10000.0 * t;
    assert 0.0 <= x <= 10000.0 * t * 1000.0;
    TimesMultiplier(x, 10000.0 * t * 1000.0, multiplier);
    assert 500_000_000.0 * t == (tokens * 500_000_000) as real;
    RoundMonotone(x * multiplier, (tokens * 500_000_000) as real);
  }

  /** Every charge fits an int64, although a single class can hold twice the
      tokens of a record's largest count. */
  lemma ChargeFitsInt64(p: Price, semantics: Semantics, d: Detail)
    requires p.Normalized() && Sane(d)
    ensures var b := BillTokens(p, semantics, d);
      0 <= b.charged < INT64_LIMIT && 0 <= b.readCost && 0 <= b.writeCost && b.readCost + b.writeCost <= b.charged
  {
    var s := SplitTokens(semantics, d, p.cacheWrite.Some?);
    SplitPartitions(semantics, d, p.cacheWrite.Some?);
    ChargeBound(s.input, p.input, p.multiplier);
    ChargeBound(s.output, p.output, p.multiplier);
    ChargeBound(s.cacheRead, ReadPrice(p), p.multiplier);
    ChargeBound(s.cacheWrite, WritePrice(p), p.multiplier);
    assert s.input + s.cacheRead + s.cacheWrite + s.output <= 5 * MAX_TOKENS;
  }

  /** The comment on tokenCharge bounds each class by 1.1e18; folding creation
      into input exceeds that. */
  lemma ClassAboveCommentedBound()
    ensures var p := Price("m", "", "tokens", 50.0, 10000.0, 0.0, 0.0, None, 0.0);
            var d := Detail(MAX_TOKENS, 0, 0, 0, 0, MAX_TOKENS, 0);
            p.Normalized() && Sane(d) && TokenCharge(SplitTokens(Independent, d, false).input, p.input, p.multiplier) > COMMENTED_LIMIT
  {}

  function Dollars(tokens: int, price: real): real { tokens as real * price }

  /** The price of the counts in nanodollars, before rounding. */
  function ExactCharge(p: Price, input: int, cacheRead: int, cacheWrite: int, output: int): real {
    1000.0 * p.multiplier *
    (Dollars(input, p.input) + Dollars(cacheRead, if p.cacheRead == 0.0 then p.input else p.cacheRead)
     + Dollars(cacheWrite, if p.cacheWrite.None? then p.input else p.cacheWrite.value) + Dollars(output, p.output))
  }

  predicate Within(amount: int, exact: real, slack: real) { exact - slack <= amount as real <= exact + slack }

  lemma RoundWithin(x: real)
    ensures Within(Round(x), x, 0.5)
  {}

  lemma ChargeWithin(tokens: int, price: real, multiplier: real)
    ensures Within(TokenCharge(tokens, price, multiplier), 1000.0 * multiplier * Dollars(tokens, price), 0.5)
  {
    var x := Dollars(tokens, price);
    RoundWithin(x * 1000.0 * multiplier);
    Regroup(x, multiplier);
  }

  lemma Regroup(x: real, multiplier: real)
    ensures x * 1000.0 * multiplier == 1000.0 * multiplier * x
  {}

  lemma Factor(k: real, a: real, b: real, c: real, d: real)
    ensures k * (a + b + c + d) == k * a + k * b + k * c + k * d
  {}

  /** Every class is charged at its own price: the charge is the exact one up
      to the four roundings, and each cache cost its own part up to one. */
  lemma ChargeIsExact(p: Price, semantics: Semantics, d: Detail)
    requires Sane(d)
    ensures var b := BillTokens(p, semantics, d);
      && b.calls == 1 && Reported(semantics, d, p.cacheWrite.Some?, Split(b.input, b.cacheRead, b.cacheWrite, b.output))
      && Within(b.charged, ExactCharge(p, b.input, b.cacheRead, b.cacheWrite, b.output), 2.0)
      && Within(b.readCost, ExactCharge(p, 0, b.cacheRead, 0, 0), 0.5)
      && Within(b.writeCost, ExactCharge(p, 0, 0, b.cacheWrite, 0), 0.5)
  {
    hide SplitTokens, Reported, Dollars, TokenCharge;
    var s := SplitTokens(semantics, d, p.cacheWrite.Some?);
    SplitIs(semantics, d, p.cacheWrite.Some?, s);
    ChargeWithin(s.input, p.input, p.multiplier);
    ChargeWithin(s.output, p.output, p.multiplier);
    ChargeWithin(s.cacheRead, ReadPrice(p), p.multiplier);
    ChargeWithin(s.cacheWrite, WritePrice(p), p.multiplier);
    NoDollars(p.input);
    NoDollars(p.output);
    NoDollars(ReadPrice(p));
    NoDollars(WritePrice(p));
    Factor(1000.0 * p.multiplier, Dollars(s.input, p.input), Dollars(s.cacheRead, ReadPrice(p)),
           Dollars(s.cacheWrite, WritePrice(p)), Dollars(s.output, p.output));
  }

  lemma NoDollars(price: real)
    ensures Dollars(0, price) == 0.0
  {}

  const COMMENTED_LIMIT: int := 1_100_000_000_000_000_000

  predicate ClassesWithinComment(p: Price, semantics: Semantics, d: Detail) {
    var s := SplitTokens(semantics, d, p.cacheWrite.Some?);
    && TokenCharge(s.input, p.input, p.multiplier) < COMMENTED_LIMIT
    && TokenCharge(s.output, p.output, p.multiplier) < COMMENTED_LIMIT
    && TokenCharge(s.cacheRead, ReadPrice(p), p.multiplier) < COMMENTED_LIMIT
    && TokenCharge(s.cacheWrite, WritePrice(p), p.multiplier) < COMMENTED_LIMIT
  }

  /** The highest token prices, with cache writes counted as input. */
  const DEAREST: Price := Price("m", "", "tokens", 50.0, 10000.0, 10000.0, 0.0, None, 0.0)

  lemma DearestCharge(tokens: int)
    requires tokens >= 0
    ensures TokenCharge(tokens, 10000.0, 50.0) == tokens * 500_000_000
  {
    assert tokens as real * 10000.0 * 1000.0 * 50.0 == (tokens * 500_000_000) as real;
  }

  lemma WithinCommentAt(p: Price, semantics: Semantics, d: Detail)
    requires p.Normalized() && Sane(d)
    requires var s := SplitTokens(semantics, d, false); s.input < 2_200_000_000 && s.output < 2_200_000_000
    ensures ClassesWithinComment(p, semantics, d)
  {
    hide TokenCharge;
    var s := SplitTokens(semantics, d, p.cacheWrite.Some?);
    SplitPartitions(semantics, d, p.cacheWrite.Some?);
    ChargeBound(s.input, p.input, p.multiplier);
    ChargeBound(s.output, p.output, p.multiplier);
    ChargeBound(s.cacheRead, ReadPrice(p), p.multiplier);
    ChargeBound(s.cacheWrite, WritePrice(p), p.multiplier);
  }

  /** The comment's bound holds of a record, whatever the price row, exactly
      when input and output, with cache writes folded into input, are each
      below 2.2 billion tokens. */
  lemma CommentHoldsIff(semantics: Semantics, d: Detail)
    requires Sane(d)
    ensures (forall p: Price :: p.Normalized() ==> ClassesWithinComment(p, semantics, d)) <==>
            var s := SplitTokens(semantics, d, false); s.input < 2_200_000_000 && s.output < 2_200_000_000
  {
    hide TokenCharge, SplitTokens;
    var s := SplitTokens(semantics, d, false);
    if s.input < 2_200_000_000 && s.output < 2_200_000_000 {
      forall p: Price | p.Normalized() ensures ClassesWithinComment(p, semantics, d) {
        WithinCommentAt(p, semantics, d);
      }
    } else {
      SplitPartitions(semantics, d, false);
      DearestCharge(s.input);
      DearestCharge(s.output);
      assert DEAREST.Normalized() && !ClassesWithinComment(DEAREST, semantics, d);
    }
  }

  lemma ListCharge(tokens: int, price: real, multiplier: real)
    requires tokens >= 0 && 0.0 <= price && 1.0 <= multiplier
    ensures 0 <= TokenCharge(tokens, price, 1.0) <= TokenCharge(tokens, price, multiplier)
  {
    var x := tokens as real * price * 1000.0;
    ProductMonotone(0.0, tokens as real, price);
    assert 0.0 * price == 0.0;
    ProductMonotone(1.0, multiplier, x);
    assert x * multiplier == multiplier * x;
    RoundMonotone(x, x * multiplier);
  }

  /** The list price of a record never exceeds what it is charged. */
  lemma ListCostBelowCharge(p: Price, semantics: Semantics, d: Detail)
    requires p.Normalized() && Sane(d)
    ensures 0 <= BillTokens(p.(multiplier := 1.0), semantics, d).charged <= BillTokens(p, semantics, d).charged
  {
    var s := SplitTokens(semantics, d, p.cacheWrite.Some?);
    SplitPartitions(semantics, d, p.cacheWrite.Some?);
    ListCharge(s.input, p.input, p.multiplier);
    ListCharge(s.output, p.output, p.multiplier);
    ListCharge(s.cacheRead, ReadPrice(p), p.multiplier);
    ListCharge(s.cacheWrite, WritePrice(p), p.multiplier);
  }

  /** What the host and the store say about one event. known: the key exists;
      traced: its media trace was remembered and not yet taken. */
  datatype Event = Event(
    enabled: bool, failed: bool, known: bool, model: string, requested: string, provider: string, semantics: Semantics, detail: Detail, traced: bool)

  /** The model an event is billed as: the one that ran, else the one asked
      for. */
  function ModelOf(e: Event): string { if Trim(e.model) == "" then Trim(e.requested) else Trim(e.model) }

  datatype Outcome =
    | Recorded(bucket: Bucket)
    | IgnoredDisabled | SkippedFailed | IgnoredUnknownKey | IgnoredNoModel | InvalidUsage | IgnoredEmpty | UnmeteredPerCall

  const UNPRICED: Price := Price("", "", "tokens", 1.0, 0.0, 0.0, 0.0, None, 0.0)

  function Nano(usd: real): int { Round(usd * 1_000_000_000.0) }

  function RecordUsage(e: Event, table: Table): Outcome {
    var d := Sanitize(e.detail);
    if !e.enabled then IgnoredDisabled
    else if e.failed then SkippedFailed
    else if !e.known then IgnoredUnknownKey
    else if ModelOf(e) == "" then IgnoredNoModel
    else if Invalid(e.detail) then InvalidUsage
    else
      var found := table.Lookup(e.provider, ModelOf(e));
      var p := if found.Some? then found.value else UNPRICED;
      var priced := found.Some? && p.Priced();
      if p.Mode().PerCall? then
        if !e.traced then UnmeteredPerCall
        else Recorded(Bucket(1, if priced then 0 else 1, 0, 0, 0, 0, Nano(p.perCall), 0, 0))
      else
        var b := BillTokens(p, e.semantics, d);
        if priced && b.input == 0 && b.cacheRead == 0 && b.cacheWrite == 0 && b.output == 0 then IgnoredEmpty
        else Recorded(b.(unpriced := if priced then 0 else 1))
  }

  function ListCost(e: Event, table: Table): Option<int> {
    if e.failed || ModelOf(e) == "" || Invalid(e.detail) then None
    else
      var found := table.Lookup(e.provider, ModelOf(e));
      if found.None? || !found.value.Priced() then None
      else if found.value.Mode().PerCall? then
        if e.traced then Some(Nano(found.value.perCall)) else None
      else Some(BillTokens(found.value.(multiplier := 1.0), e.semantics, Sanitize(e.detail)).charged)
  }

  lemma SanitizedIsSane(d: Detail)
    requires !Invalid(d)
    ensures Sane(Sanitize(d))
  {}

  lemma PerCallFits(usd: real)
    requires ValidPrice(usd, MAX_PER_CALL)
    ensures 0 <= Nano(usd) <= 10_000_000_000_000
  {
    RoundMonotone(usd * 1_000_000_000.0, 10_000_000_000_000.0);
  }

  /** The counters are nonnegative and fit, and the cache amounts are part of
      the charge. */
  predicate SoundBucket(b: Bucket) {
    && b.calls == 1 && 0 <= b.unpriced <= 1
    && b.input >= 0 && b.cacheRead >= 0 && b.cacheWrite >= 0 && b.output >= 0
    && 0 <= b.charged < INT64_LIMIT && 0 <= b.readCost && 0 <= b.writeCost && b.readCost + b.writeCost <= b.charged
  }

  lemma BilledTokensAreSound(p: Price, semantics: Semantics, d: Detail)
    requires p.Normalized() && Sane(d)
    ensures SoundBucket(BillTokens(p, semantics, d))
    ensures !p.Priced() && p.Mode().Tokens? ==> BillTokens(p, semantics, d).charged == 0
    ensures 0 <= BillTokens(p.(multiplier := 1.0), semantics, d).charged <= BillTokens(p, semantics, d).charged
    ensures var b := BillTokens(p, semantics, d);
            b.input == 0 && b.cacheRead == 0 && b.cacheWrite == 0 && b.output == 0 ==> b.charged == 0
  {
    ChargeFitsInt64(p, semantics, d);
    SplitPartitions(semantics, d, p.cacheWrite.Some?);
    ListCostBelowCharge(p, semantics, d);
    var s := SplitTokens(semantics, d, p.cacheWrite.Some?);
    NothingFree(s.input, p.input, p.multiplier);
    NothingFree(s.output, p.output, p.multiplier);
    NothingFree(s.cacheRead, ReadPrice(p), p.multiplier);
    NothingFree(s.cacheWrite, WritePrice(p), p.multiplier);
  }

  lemma NothingFree(tokens: int, price: real, multiplier: real)
    ensures tokens == 0 || price == 0.0 ==> TokenCharge(tokens, price, multiplier) == 0
  {
    if tokens == 0 || price == 0.0 {
      assert tokens as real * price == 0.0;
      assert 0.0 * multiplier == 0.0;
    }
  }

  /** What an outcome says about its bucket and the event's list cost. */
  predicate SoundOutcome(o: Outcome, listed: Option<int>) {
    match o
    case Recorded(b) =>
      && SoundBucket(b)
      && (b.unpriced == 1 <==> listed.None?)
      && (b.unpriced == 1 ==> b.charged == 0)
      && (b.unpriced == 0 ==> listed.Some? && 0 <= listed.value <= b.charged)
    case IgnoredEmpty => listed == Some(0)
    case IgnoredDisabled => true
    case IgnoredUnknownKey => true
    case _ => listed.None?
  }

  predicate Billable(e: Event) { e.enabled && !e.failed && e.known && ModelOf(e) != "" && !Invalid(e.detail) }

  lemma PerCallIsSound(e: Event, table: Table)
    requires table.Valid() && Billable(e) && table.Lookup(e.provider, ModelOf(e)).Some? && table.Lookup(e.provider, ModelOf(e)).value.Mode().PerCall?
    ensures SoundOutcome(RecordUsage(e, table), ListCost(e, table))
  {
    hide BillTokens, table.Lookup;
    table.LookupIsNormalized(e.provider, ModelOf(e));
    PerCallFits(table.Lookup(e.provider, ModelOf(e)).value.perCall);
  }

  lemma TokensAreSound(e: Event, table: Table)
    requires table.Valid() && Billable(e)
    requires var found := table.Lookup(e.provider, ModelOf(e)); found.Some? ==> !found.value.Mode().PerCall?
    ensures SoundOutcome(RecordUsage(e, table), ListCost(e, table))
  {
    hide BillTokens, table.Lookup, Nano;
    var found := table.Lookup(e.provider, ModelOf(e));
    if found.Some? {
      table.LookupIsNormalized(e.provider, ModelOf(e));
    }
    SanitizedIsSane(e.detail);
    BilledTokensAreSound(if found.Some? then found.value else UNPRICED, e.semantics, Sanitize(e.detail));
  }

  /** Every recorded event is one call with a sound bucket; it is marked
      unpriced, and then free, exactly when it has no list cost, and otherwise
      its list cost never exceeds the charge. An event with a list cost is
      recorded unless the plugin is off, the key is unknown or there is nothing
      to bill. */
  lemma RecordedBucketIsSound(e: Event, table: Table)
    requires table.Valid()
    ensures match RecordUsage(e, table)
      case Recorded(b) =>
        && SoundBucket(b)
        && (b.unpriced == 1 <==> ListCost(e, table).None?)
        && (b.unpriced == 1 ==> b.charged == 0)
        && (b.unpriced == 0 ==> 0 <= ListCost(e, table).value <= b.charged)
      case IgnoredEmpty => ListCost(e, table) == Some(0)
      case IgnoredDisabled => true
      case IgnoredUnknownKey => true
      case _ => ListCost(e, table).None?
  {
    hide BillTokens, Sanitize, SoundBucket;
    if Billable(e) {
      var found := table.Lookup(e.provider, ModelOf(e));
      if found.Some? && found.value.Mode().PerCall? {
        PerCallIsSound(e, table);
      } else {
        TokensAreSound(e, table);
      }
    }
  }

  /** The row an event is billed by: that of the model it names, or else of the
      one that was asked for. */
  function RowOf(e: Event, table: Table): Price {
    var name := if Trim(e.model) != "" then Trim(e.model) else Trim(e.requested);
    if table.Lookup(e.provider, name).Some? then table.Lookup(e.provider, name).value else UNPRICED
  }

  /** Priced by the call, an event has a charge when its generation was
      admitted; otherwise unless it reports nothing under a priced row. */
  predicate HasCharge(e: Event, table: Table) {
    var row, d := RowOf(e, table), Sanitize(e.detail);
    if row.modeName == "per_call" then e.traced
    else
      var b := BillTokens(row, e.semantics, d);
      row.Priced() && table.Lookup(e.provider, ModelOf(e)).Some? ==> b.input > 0 || b.cacheRead > 0 || b.cacheWrite > 0 || b.output > 0
  }

  /** An event is recorded exactly when the plugin is on, it succeeded, its key
      and model are known, its counts are plausible and it has a charge. It is
      charged the price of one call, or its tokens at the row's prices. */
  lemma RecordedIff(e: Event, table: Table)
    requires table.Valid()
    ensures var r, row := RecordUsage(e, table), RowOf(e, table);
      && (r.Recorded? <==> e.enabled && !e.failed && e.known && (Trim(e.model) != "" || Trim(e.requested) != "") && Sane(Sanitize(e.detail)) && HasCharge(e, table))
      && (r.Recorded? && row.modeName != "per_call" ==>
            r.bucket.(unpriced := 0) == BillTokens(row, e.semantics, Sanitize(e.detail)))
      && (r.Recorded? && row.modeName == "per_call" ==>
            && Within(r.bucket.charged, row.perCall * 1_000_000_000.0, 0.5)
            && r.bucket.(unpriced := 0, charged := 0) == Bucket(1, 0, 0, 0, 0, 0, 0, 0, 0))
  {
    hide BillTokens, table.Lookup, Nano, Sanitize, Invalid, Within;
    CleanIs(e.detail);
    NanoWithin(RowOf(e, table).perCall);
    TokensReported(RowOf(e, table), e.semantics, Sanitize(e.detail));
  }

  lemma NanoWithin(usd: real)
    ensures Within(Nano(usd), usd * 1_000_000_000.0, 0.5)
  {
    RoundWithin(usd * 1_000_000_000.0);
  }

  lemma TokensReported(p: Price, semantics: Semantics, d: Detail)
    ensures BillTokens(p, semantics, d).unpriced == 0
    ensures Sane(d) ==> var b := BillTokens(p, semantics, d); b.input >= 0 && b.cacheRead >= 0 && b.cacheWrite >= 0 && b.output >= 0
  {
    hide TokenCharge;
    if Sane(d) {
      SplitPartitions(semantics, d, p.cacheWrite.Some?);
    }
  }

  /** The list cost is the row's price without its multiplier, or that of one
      call. */
  lemma ListCostIsExact(e: Event, table: Table)
    requires table.Valid() && ListCost(e, table).Some?
    ensures var row, cost := RowOf(e, table), ListCost(e, table).value;
      var b := BillTokens(row, e.semantics, Sanitize(e.detail));
      if row.modeName == "per_call" then Within(cost, row.perCall * 1_000_000_000.0, 0.5)
      else Within(cost, ExactCharge(row.(multiplier := 1.0), b.input, b.cacheRead, b.cacheWrite, b.output), 2.0)
  {
    hide BillTokens, table.Lookup, Nano, Sanitize, Invalid, Within, ExactCharge;
    var row, d := RowOf(e, table), Sanitize(e.detail);
    CleanIs(e.detail);
    NanoWithin(row.perCall);
    ChargeIsExact(row.(multiplier := 1.0), e.semantics, d);
    SameCounts(row, e.semantics, d);
  }

  lemma SameCounts(p: Price, semantics: Semantics, d: Detail)
    ensures var a, b := BillTokens(p, semantics, d), BillTokens(p.(multiplier := 1.0), semantics, d);
      a.input == b.input && a.cacheRead == b.cacheRead && a.cacheWrite == b.cacheWrite && a.output == b.output
  {
    hide TokenCharge, SplitTokens;
  }

  /** A row is unpriced exactly when no counts cost anything under it. */
  lemma UnpricedIff(p: Price)
    requires p.Normalized() && p.modeName == "tokens"
    ensures !p.Priced() <==> forall input: nat, cacheRead: nat, cacheWrite: nat, output: nat ::
      ExactCharge(p, input, cacheRead, cacheWrite, output) == 0.0
  {
    if p.Priced() {
      var sum := Dollars(1, p.input) + Dollars(1, ReadPrice(p)) + Dollars(1, WritePrice(p)) + Dollars(1, p.output);
      OneDollar(p.input);
      OneDollar(p.output);
      OneDollar(ReadPrice(p));
      OneDollar(WritePrice(p));
      assert sum > 0.0;
      Positive(1000.0 * p.multiplier, sum);
      assert ExactCharge(p, 1, 1, 1, 1) == 1000.0 * p.multiplier * sum;
    } else {
      forall input: nat, cacheRead: nat, cacheWrite: nat, output: nat ensures ExactCharge(p, input, cacheRead, cacheWrite, output) == 0.0 {
        FreeCharge(p, input, cacheRead, cacheWrite, output);
      }
    }
  }

  lemma OneDollar(price: real)
    ensures Dollars(1, price) == price
  {}

  lemma Positive(k: real, x: real)
    ensures k > 0.0 && x > 0.0 ==> k * x > 0.0
  {}

  lemma FreeCharge(p: Price, input: nat, cacheRead: nat, cacheWrite: nat, output: nat)
    requires p.Normalized() && p.modeName == "tokens" && !p.Priced()
    ensures ExactCharge(p, input, cacheRead, cacheWrite, output) == 0.0
  {
    assert Dollars(input, 0.0) == Dollars(cacheRead, 0.0) == Dollars(cacheWrite, 0.0) == Dollars(output, 0.0) == 0.0;
    assert 1000.0 * p.multiplier * 0.0 == 0.0;
  }

  /** What channel statistics read off a call: the prompt, cached and generated
      tokens are those billing counts, for every price row. */
  function ShapeTokens(semantics: Semantics, detail: Detail): (int, int, int, int) {
    if Invalid(detail) then (0, 0, 0, 0)
    else
      var d := Sanitize(detail);
      var s := SplitTokens(semantics, d, true);
      (s.input + s.cacheRead + s.cacheWrite, s.cacheRead, s.output, d.reasoning)
  }

  lemma ShapeAgreesWithBilling(p: Price, semantics: Semantics, detail: Detail)
    requires !Invalid(detail)
    ensures var b := BillTokens(p, semantics, Sanitize(detail));
            var (prompt, cached, generated, reasoning) := ShapeTokens(semantics, detail);
            && prompt == b.input + b.cacheRead + b.cacheWrite && cached == b.cacheRead && generated == b.output
            && reasoning == if detail.reasoning < 0 then 0 else detail.reasoning
  {
    SanitizedIsSane(detail);
    SplitPartitions(semantics, Sanitize(detail), p.cacheWrite.Some?);
  }
}
