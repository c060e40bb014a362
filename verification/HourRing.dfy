/** Channel statistics: one channel's last 168 hours, each in its slot of a ring.
    The ring is compared with the log of every accepted observation. */
module HourRing {
  import opened Bytes
  import opened StatusCodes

  const HOURS_KEPT: int := 168
  const STARTS_KEPT: int := 8
  const CLIENT_CLOSED: int := 499
  const MAX_INT32: int := 0x7FFF_FFFF

  /** The inclusive upper bounds, in milliseconds, of the histogram buckets. */
  const BOUNDS: seq<int> := [
    50, 100, 150, 200, 300, 500, 750,
    1_000, 1_500, 2_000, 3_000, 5_000, 7_500,
    10_000, 15_000, 20_000, 30_000, 45_000,
    60_000, 90_000, 120_000, 180_000, 300_000, 600_000, 1_200_000]

  type Histogram = seq<nat>

  /** The first bucket from i on whose bound is not below ms. */
  function BucketFrom(bounds: seq<int>, ms: int, i: nat): (b: nat)
    requires i <= |bounds|
    ensures i <= b <= |bounds| && (b < |bounds| ==> ms <= bounds[b])
    ensures forall j :: i <= j < b ==> ms > bounds[j]
    decreases |bounds| - i, ms
  {
    if i < |bounds| && ms > bounds[i] then BucketFrom(bounds, ms, i + 1) else i
  }

  function Bump(h: Histogram, ms: int): Histogram {
    var b := BucketFrom(BOUNDS, ms, 0);
    if b < |h| then h[b := h[b] + 1] else h
  }

  /** Go's remainder: it has the sign of the dividend. */
  function TruncMod(a: int, n: int): int
    requires n > 0
  {
    if a >= 0 then a % n else -((-a) % n)
  }

  function TruncDiv(a: int, n: int): int
    requires n > 0
  {
    if a >= 0 then a / n else -((-a) / n)
  }

  function UnixHour(at: int): (h: int)
    ensures h * 3600 <= at < (h + 1) * 3600
  {
    var h := TruncDiv(at, 3600);
    if TruncMod(at, 3600) < 0 then h - 1 else h
  }

  lemma RemainderIs(a: int, q: int, r: int)
    requires 0 <= r < HOURS_KEPT && a == HOURS_KEPT * q + r
    ensures a % HOURS_KEPT == r
  {}

  lemma TwiceTruncated(hour: int)
    ensures var m := TruncMod(hour, HOURS_KEPT); -HOURS_KEPT < m < HOURS_KEPT && (m + HOURS_KEPT) % HOURS_KEPT == hour % HOURS_KEPT
  {
    if hour >= 0 {
      RemainderIs(hour % HOURS_KEPT + HOURS_KEPT, 1, hour % HOURS_KEPT);
    } else {
      var q, r := (-hour) / HOURS_KEPT, (-hour) % HOURS_KEPT;
      assert hour == HOURS_KEPT * (-q) - r;
      if r == 0 {
        RemainderIs(hour, -q, 0);
      } else {
        RemainderIs(hour, -q - 1, HOURS_KEPT - r);
      }
    }
  }

  /** The remainder of the division rounded down, also for hours before 1970. */
  function SlotIndex(hour: int): (i: int)
    ensures 0 <= i < HOURS_KEPT && i == hour % HOURS_KEPT
  {
    TwiceTruncated(hour);
    TruncMod(TruncMod(hour, HOURS_KEPT) + HOURS_KEPT, HOURS_KEPT)
  }

  lemma SameSlot(a: int, b: int)
    requires SlotIndex(a) == SlotIndex(b) && -HOURS_KEPT < a - b < HOURS_KEPT
    ensures a == b
  {
    assert a == a / HOURS_KEPT * HOURS_KEPT + a % HOURS_KEPT;
    assert b == b / HOURS_KEPT * HOURS_KEPT + b % HOURS_KEPT;
  }

  datatype HourStats = HourStats(
    hour: int, attempts: nat, failures: nat, codes: Table, latency: Histogram, ttft: Histogram,
    inputTokens: nat, outputTokens: nat, listCost: nat, lastAt: int)

  function NoSamples(): (h: Histogram)
    ensures |h| == 26 && forall i :: 0 <= i < 26 ==> h[i] == 0
  {
    seq(26, i => 0)
  }

  function Empty(hour: int): HourStats {
    HourStats(hour, 0, 0, EMPTY, NoSamples(), NoSamples(), 0, 0, 0, 0)
  }

  /** One usage record; at is None when its time is missing, start is 0 when
      the executor call is unknown. */
  datatype Observation = Observation(
    at: Stamp, failed: bool, status: int, latencyMs: int, ttftMs: int,
    inputTokens: int, outputTokens: int, listCost: int, start: int)

  datatype Stamp = Missing | At(time: int)

  function Clamp(at: Stamp, now: int): int {
    if at.Missing? || at.time > now then now else at.time
  }

  /** An accepted observation: the time it counts at and whether its executor
      call had been counted. */
  datatype Entry = Entry(at: int, o: Observation, repeated: bool) {
    function Hour(): int { UnixHour(at) }
  }

  function NonNegative(x: int): nat { if x < 0 then 0 else x }

  function Later(x: int, y: int): int { if y > x then y else x }

  function FailureCode(status: int): int { if 0 < status <= MAX_INT32 then status else 0 }

  /** The counts of an attempt, without its tokens, cost and time. */
  function CountAttempt(b: HourStats, e: Entry): HourStats {
    if e.o.failed then
      b.(attempts := b.attempts + 1, failures := b.failures + 1, codes := Counted(b.codes, FailureCode(e.o.status)))
    else if e.repeated then b
    else
      b.(attempts := b.attempts + 1,
         latency := if e.o.latencyMs > 0 then Bump(b.latency, e.o.latencyMs) else b.latency,
         ttft := if e.o.ttftMs > 0 then Bump(b.ttft, e.o.ttftMs) else b.ttft)
  }

  function Apply(b: HourStats, e: Entry): HourStats {
    var c := CountAttempt(b, e);
    c.(inputTokens := c.inputTokens + NonNegative(e.o.inputTokens),
       outputTokens := c.outputTokens + NonNegative(e.o.outputTokens),
       listCost := c.listCost + NonNegative(e.o.listCost),
       lastAt := Later(c.lastAt, e.at))
  }

  /** What the log says about one hour. */
  function HourOf(log: seq<Entry>, hour: int): HourStats {
    if log == [] then Empty(hour)
    else
      var before, last := HourOf(log[..|log| - 1], hour), log[|log| - 1];
      if last.Hour() == hour then Apply(before, last) else before
  }

  predicate Seen(log: seq<Entry>, hour: int) { exists i :: 0 <= i < |log| && log[i].Hour() == hour }

  /** The successful executor calls counted so far, oldest first. */
  function CountedStarts(log: seq<Entry>): seq<int> {
    if log == [] then []
    else
      var before, last := CountedStarts(log[..|log| - 1]), log[|log| - 1];
      if last.o.failed || last.repeated || last.o.start == 0 then before else before + [last.o.start]
  }

  /** A call is recognized again while it is among the latest eight counted. */
  predicate Recognized(starts: seq<int>, key: int) {
    key != 0 && exists i :: 0 <= i < |starts| && i >= |starts| - STARTS_KEPT && starts[i] == key
  }

  datatype Totals = Totals(
    attempts: nat, failures: nat, latency: Histogram, ttft: Histogram,
    inputTokens: nat, outputTokens: nat, listCost: nat, lastAt: int)

  function Nothing(): Totals { Totals(0, 0, NoSamples(), NoSamples(), 0, 0, 0, 0) }

  function AddSamples(a: Histogram, b: Histogram): Histogram
    requires |a| == |b|
  {
    seq(|a|, i requires 0 <= i < |a| => a[i] + b[i])
  }

  predicate WellShaped(t: Totals) { |t.latency| == 26 && |t.ttft| == 26 }

  function Plus(a: Totals, b: Totals): (r: Totals)
    requires WellShaped(a) && WellShaped(b)
    ensures WellShaped(r)
  {
    Totals(a.attempts + b.attempts, a.failures + b.failures, AddSamples(a.latency, b.latency), AddSamples(a.ttft, b.ttft),
           a.inputTokens + b.inputTokens, a.outputTokens + b.outputTokens, a.listCost + b.listCost, Later(a.lastAt, b.lastAt))
  }

  function TotalsOf(b: HourStats): Totals {
    Totals(b.attempts, b.failures, b.latency, b.ttft, b.inputTokens, b.outputTokens, b.listCost, b.lastAt)
  }

  /** What one accepted observation adds. */
  function Share(e: Entry): (t: Totals)
    ensures WellShaped(t)
  {
    var counted := !e.o.failed && !e.repeated;
    Totals(
      if e.o.failed || counted then 1 else 0,
      if e.o.failed then 1 else 0,
      if counted && e.o.latencyMs > 0 then Bump(NoSamples(), e.o.latencyMs) else NoSamples(),
      if counted && e.o.ttftMs > 0 then Bump(NoSamples(), e.o.ttftMs) else NoSamples(),
      NonNegative(e.o.inputTokens), NonNegative(e.o.outputTokens), NonNegative(e.o.listCost), Later(0, e.at))
  }

  datatype Span = Span(from: int, to: int) {
    predicate Contains(hour: int) { from <= hour <= to }
  }

  /** The sum over all accepted observations of a span's hours. */
  function SumOf(log: seq<Entry>, span: Span): (t: Totals)
    ensures WellShaped(t)
  {
    if log == [] then Nothing()
    else
      var before, last := SumOf(log[..|log| - 1], span), log[|log| - 1];
      if span.Contains(last.Hour()) then Plus(before, Share(last)) else before
  }

  lemma BumpIsPlus(h: Histogram, ms: int)
    requires |h| == 26
    ensures Bump(h, ms) == AddSamples(h, Bump(NoSamples(), ms))
  {}

  lemma PlusZeroSamples(h: Histogram)
    requires |h| == 26
    ensures AddSamples(h, NoSamples()) == h
  {}

  lemma {:induction false} HourIsWellShaped(log: seq<Entry>, hour: int)
    ensures HourOf(log, hour).hour == hour && WellShaped(TotalsOf(HourOf(log, hour)))
    ensures HourOf(log, hour).lastAt >= 0
  {
    if log != [] {
      HourIsWellShaped(log[..|log| - 1], hour);
    }
  }

  lemma ApplyAddsShare(b: HourStats, e: Entry)
    requires WellShaped(TotalsOf(b)) && b.lastAt >= 0
    ensures TotalsOf(Apply(b, e)) == Plus(TotalsOf(b), Share(e))
  {
    BumpIsPlus(b.latency, e.o.latencyMs);
    BumpIsPlus(b.ttft, e.o.ttftMs);
    PlusZeroSamples(b.latency);
    PlusZeroSamples(b.ttft);
  }

  lemma PlusCommutes(a: Totals, b: Totals, c: Totals)
    requires WellShaped(a) && WellShaped(b) && WellShaped(c)
    ensures Plus(Plus(a, b), c) == Plus(Plus(a, c), b) == Plus(a, Plus(b, c))
  {}

  lemma HourAddsShare(before: seq<Entry>, e: Entry, hour: int)
    requires e.Hour() == hour
    ensures WellShaped(TotalsOf(HourOf(before, hour)))
    ensures TotalsOf(HourOf(before + [e], hour)) == Plus(TotalsOf(HourOf(before, hour)), Share(e))
  {
    HourIsWellShaped(before, hour);
    OtherHoursKept(before, e, hour);
    ApplyAddsShare(HourOf(before, hour), e);
  }

  lemma SumOfLonger(before: seq<Entry>, e: Entry, span: Span)
    ensures SumOf(before + [e], span) == if span.Contains(e.Hour()) then Plus(SumOf(before, span), Share(e)) else SumOf(before, span)
  {
    assert (before + [e])[..|before|] == before;
  }

  /** The accepted observations of a span. */
  predicate Counts(e: Entry, span: Span) { span.from * 3600 <= e.at < (span.to + 1) * 3600 }

  /** How many entries of the span satisfy p. */
  function HowMany(log: seq<Entry>, span: Span, p: Entry -> bool): nat {
    if log == [] then 0
    else
      var last := log[|log| - 1];
      HowMany(log[..|log| - 1], span, p) + if Counts(last, span) && p(last) then 1 else 0
  }

  /** The sum of a counter over the entries of the span. */
  function SumIn(log: seq<Entry>, span: Span, f: Entry -> nat): nat {
    if log == [] then 0
    else
      var last := log[|log| - 1];
      SumIn(log[..|log| - 1], span, f) + if Counts(last, span) then f(last) else 0
  }

  lemma HourIn(e: Entry, span: Span)
    ensures span.Contains(e.Hour()) <==> Counts(e, span)
  {
    var h := e.Hour();
    assert h * 3600 <= e.at < (h + 1) * 3600;
  }

  /** A sum says how many attempts there were: every failure, and every success
      whose executor call was new; how many of them failed; and what tokens and
      cost were reported, never less than nothing. Its latest time is that of
      an entry of the span, and none is later. */
  lemma {:induction false} SumIs(log: seq<Entry>, span: Span)
    ensures var t := SumOf(log, span);
      && t.attempts == HowMany(log, span, (e: Entry) => e.o.failed || !e.repeated)
      && t.failures == HowMany(log, span, (e: Entry) => e.o.failed)
      && t.inputTokens == SumIn(log, span, (e: Entry) => if e.o.inputTokens > 0 then e.o.inputTokens else 0)
      && t.outputTokens == SumIn(log, span, (e: Entry) => if e.o.outputTokens > 0 then e.o.outputTokens else 0)
      && t.listCost == SumIn(log, span, (e: Entry) => if e.o.listCost > 0 then e.o.listCost else 0)
      && (forall e :: e in log && Counts(e, span) ==> e.at <= t.lastAt)
      && (t.lastAt != 0 ==> exists e :: e in log && Counts(e, span) && e.at == t.lastAt)
  {
    hide UnixHour, Entry.Hour, Bump, AddSamples, Counts;
    if log != [] {
      var before, last := log[..|log| - 1], log[|log| - 1];
      assert log == before + [last];
      SumIs(before, span);
      HourIn(last, span);
    }
  }

  /** The measured successes of a span, and those among them up to a bound: the
      sum of the histogram's buckets up to it. */
  function UpTo(h: Histogram, b: nat): nat
    requires b <= |h|
  {
    if b == 0 then 0 else UpTo(h, b - 1) + h[b - 1]
  }

  predicate MeasuredWithin(e: Entry, ms: int, bound: Option<int>) {
    !e.o.failed && !e.repeated && ms > 0 && (bound.Some? ==> ms <= bound.value)
  }

  lemma {:induction false} UpToAdds(x: Histogram, y: Histogram, b: nat)
    requires |x| == |y| && b <= |x|
    ensures UpTo(AddSamples(x, y), b) == UpTo(x, b) + UpTo(y, b)
  {
    if b > 0 {
      UpToAdds(x, y, b - 1);
    }
  }

  lemma {:induction false} NoneUpTo(b: nat)
    requires b <= 26
    ensures UpTo(NoSamples(), b) == 0
  {
    if b > 0 {
      NoneUpTo(b - 1);
    }
  }

  lemma {:induction false} OneUpTo(ms: int, b: nat)
    requires b <= 26
    ensures UpTo(Bump(NoSamples(), ms), b) == if BucketFrom(BOUNDS, ms, 0) < b then 1 else 0
  {
    if b > 0 {
      OneUpTo(ms, b - 1);
    }
  }

  /** A time is counted up to a bound exactly when it is not above it. */
  lemma BucketUpTo(ms: int, b: nat)
    requires 0 < b <= 26
    ensures BucketFrom(BOUNDS, ms, 0) < b <==> b == 26 || ms <= BOUNDS[b - 1]
  {
    Rising(BucketFrom(BOUNDS, ms, 0), b - 1);
  }

  lemma Rising(i: nat, j: nat)
    ensures i <= j < 25 ==> BOUNDS[i] <= BOUNDS[j]
  {}

  function BoundOf(b: nat): Option<int>
    requires 0 < b <= 26
  {
    if b == 26 then None else Some(BOUNDS[b - 1])
  }

  /** The histograms of a sum: up to each bound as many samples as there were
      measured successes within it. */
  lemma {:induction false} SamplesAre(log: seq<Entry>, span: Span, b: nat)
    requires 0 < b <= 26
    ensures UpTo(SumOf(log, span).latency, b) == HowMany(log, span, (e: Entry) => MeasuredWithin(e, e.o.latencyMs, BoundOf(b)))
    ensures UpTo(SumOf(log, span).ttft, b) == HowMany(log, span, (e: Entry) => MeasuredWithin(e, e.o.ttftMs, BoundOf(b)))
  {
    hide UnixHour, Entry.Hour, Bump, AddSamples, Counts, BucketFrom;
    NoneUpTo(b);
    if log != [] {
      var before, last := log[..|log| - 1], log[|log| - 1];
      SamplesAre(before, span, b);
      HourIn(last, span);
      UpToAdds(SumOf(before, span).latency, Share(last).latency, b);
      UpToAdds(SumOf(before, span).ttft, Share(last).ttft, b);
      OneUpTo(last.o.latencyMs, b);
      OneUpTo(last.o.ttftMs, b);
      BucketUpTo(last.o.latencyMs, b);
      BucketUpTo(last.o.ttftMs, b);
    }
  }

  /** The sum of a span is the sum of its hours. */
  lemma {:induction false} SumByHours(log: seq<Entry>, from: int, to: int)
    requires from <= to
    ensures WellShaped(TotalsOf(HourOf(log, to)))
    ensures SumOf(log, Span(from, to)) == Plus(SumOf(log, Span(from, to - 1)), TotalsOf(HourOf(log, to)))
    decreases |log|
  {
    HourIsWellShaped(log, to);
    if log != [] {
      var before, last := log[..|log| - 1], log[|log| - 1];
      assert log == before + [last];
      SumByHours(before, from, to);
      SumOfLonger(before, last, Span(from, to));
      SumOfLonger(before, last, Span(from, to - 1));
      var below, hour := SumOf(before, Span(from, to - 1)), TotalsOf(HourOf(before, to));
      PlusCommutes(below, hour, Share(last));
      if last.Hour() == to {
        HourAddsShare(before, last, to);
      } else {
        OtherHoursKept(before, last, to);
      }
    } else {
      PlusZeroSamples(NoSamples());
    }
  }

  lemma {:induction false} EmptySpan(log: seq<Entry>, span: Span)
    requires span.to < span.from
    ensures SumOf(log, span) == Nothing()
  {
    if log != [] {
      EmptySpan(log[..|log| - 1], span);
    }
  }

  lemma {:induction false} UnseenHourIsEmpty(log: seq<Entry>, hour: int)
    requires !Seen(log, hour)
    ensures HourOf(log, hour) == Empty(hour)
  {
    if log != [] {
      assert log[|log| - 1].Hour() != hour;
      assert !Seen(log[..|log| - 1], hour);
      UnseenHourIsEmpty(log[..|log| - 1], hour);
    }
  }

  /** The slot of an hour holds that hour's log, or another hour when nothing
      was accepted in it. The one exception is the zeroed ring: its first slot
      looks like hour 0, 1 January 1970. */
  ghost predicate SlotHolds(log: seq<Entry>, slot: HourStats, hour: int) {
    if Seen(log, hour) then slot == HourOf(log, hour)
    else slot.hour == hour ==> hour == 0 && slot == Empty(0)
  }

  /** Every hour of the window that ends at hour current is in the ring. */
  ghost predicate WindowHolds(log: seq<Entry>, hours: seq<HourStats>, current: int) {
    && |hours| == HOURS_KEPT
    && (forall i :: 0 <= i < |log| ==> log[i].Hour() <= current)
    && (forall i :: 0 <= i < HOURS_KEPT ==> hours[i].hour <= current || hours[i] == Empty(0))
    && (forall h :: current - HOURS_KEPT < h <= current ==> SlotHolds(log, hours[SlotIndex(h)], h))
  }

  lemma WindowMoves(log: seq<Entry>, hours: seq<HourStats>, current: int, later: int)
    requires WindowHolds(log, hours, current) && current <= later
    ensures WindowHolds(log, hours, later)
  {
    forall h | later - HOURS_KEPT < h <= later ensures SlotHolds(log, hours[SlotIndex(h)], h) {
      if h > current {
        assert !Seen(log, h);
      }
    }
  }

  /** What the slot of a window hour holds, an older hour counting as empty. */
  lemma SlotIsHour(log: seq<Entry>, hours: seq<HourStats>, current: int, hour: int)
    requires WindowHolds(log, hours, current) && current - HOURS_KEPT < hour <= current
    ensures var slot := hours[SlotIndex(hour)];
            HourOf(log, hour) == if slot.hour == hour then slot else Empty(hour)
  {
    assert SlotHolds(log, hours[SlotIndex(hour)], hour);
    HourIsWellShaped(log, hour);
    if !Seen(log, hour) {
      UnseenHourIsEmpty(log, hour);
    }
  }

  /** Storing one hour overwrites no other hour of the window. */
  lemma WindowTakesEntry(log: seq<Entry>, hours: seq<HourStats>, current: int, e: Entry)
    requires WindowHolds(log, hours, current) && current - HOURS_KEPT < e.Hour() <= current
    ensures WindowHolds(log + [e], hours[SlotIndex(e.Hour()) := HourOf(log + [e], e.Hour())], current)
  {
    var after := hours[SlotIndex(e.Hour()) := HourOf(log + [e], e.Hour())];
    HourIsWellShaped(log + [e], e.Hour());
    forall h | current - HOURS_KEPT < h <= current ensures SlotHolds(log + [e], after[SlotIndex(h)], h) {
      OtherHoursKept(log, e, h);
      assert SlotHolds(log, hours[SlotIndex(h)], h);
      if h != e.Hour() && SlotIndex(h) == SlotIndex(e.Hour()) {
        SameSlot(h, e.Hour());
      }
    }
  }

  /** The ring of starts holds the latest eight counted calls. */
  ghost predicate StartsHold(counted: seq<int>, starts: seq<int>, next: int) {
    && |starts| == STARTS_KEPT && next == |counted| % STARTS_KEPT
    && forall i :: 0 <= i < STARTS_KEPT ==>
      starts[i] == if LatestAt(|counted|, i) < 0 then 0 else counted[LatestAt(|counted|, i)]
  }

  lemma StartsFind(counted: seq<int>, starts: seq<int>, next: int, key: int)
    requires StartsHold(counted, starts, next) && key != 0
    ensures Recognized(counted, key) <==> key in starts
  {
    if j :| 0 <= j < |counted| && j >= |counted| - STARTS_KEPT && counted[j] == key {
      LatestAtIs(|counted|, j);
      assert starts[j % STARTS_KEPT] == key;
    }
    if i :| 0 <= i < |starts| && starts[i] == key {
      assert counted[LatestAt(|counted|, i)] == key;
    }
  }

  lemma StartsTake(counted: seq<int>, starts: seq<int>, next: int, key: int)
    requires StartsHold(counted, starts, next)
    ensures StartsHold(counted + [key], starts[next := key], (next + 1) % STARTS_KEPT)
  {
    forall i | 0 <= i < STARTS_KEPT
      ensures LatestAt(|counted| + 1, i) == if i == next then |counted| else LatestAt(|counted|, i)
    {
      NextLatestAt(|counted|, i);
    }
  }

  lemma HoursRise(a: int, b: int)
    requires a <= b
    ensures UnixHour(a) <= UnixHour(b)
  {}

  lemma ClampedTime(at: Stamp, now: int)
    ensures Clamp(at, now) <= now && UnixHour(Clamp(at, now)) <= UnixHour(now)
  {
    HoursRise(Clamp(at, now), now);
  }

  /** Recording into an hour's slot, its own or one it takes over. */
  lemma RingTakesEntry(log: seq<Entry>, ring: seq<HourStats>, current: int, e: Entry)
    requires WindowHolds(log, ring, current) && |ring| == HOURS_KEPT && current - HOURS_KEPT < e.Hour() <= current
    ensures var slot := SlotIndex(e.Hour());
      WindowHolds(log + [e], ring[slot := Apply(if ring[slot].hour == e.Hour() then ring[slot] else Empty(e.Hour()), e)], current)
  {
    hide WindowHolds, Apply, SlotIndex, UnixHour;
    SlotIsHour(log, ring, current, e.Hour());
    OtherHoursKept(log, e, e.Hour());
    WindowTakesEntry(log, ring, current, e);
  }

  lemma CountedStartsLonger(log: seq<Entry>, e: Entry)
    ensures CountedStarts(log + [e]) ==
            if e.o.failed || e.repeated || e.o.start == 0 then CountedStarts(log) else CountedStarts(log) + [e.o.start]
  {
    assert (log + [e])[..|log|] == log;
  }

  /** Nothing was accepted in the span. */
  ghost predicate Idle(log: seq<Entry>, span: Span) {
    forall h :: span.Contains(h) ==> !Seen(log, h)
  }

  /** One record's effect on its hour, step by step. */
  method Recorded(hour: HourStats, o: Observation, at: int, repeated: bool) returns (b: HourStats)
    ensures b == Apply(hour, Entry(at, o, repeated))
  {
    b := hour;
    if o.failed {
      b := b.(attempts := b.attempts + 1, failures := b.failures + 1, codes := Counted(b.codes, FailureCode(o.status)));
    } else if !repeated {
      b := b.(attempts := b.attempts + 1);
      if o.latencyMs > 0 {
        b := b.(latency := Bump(b.latency, o.latencyMs));
      }
      if o.ttftMs > 0 {
        b := b.(ttft := Bump(b.ttft, o.ttftMs));
      }
    }
    b := b.(inputTokens := b.inputTokens + NonNegative(o.inputTokens),
            outputTokens := b.outputTokens + NonNegative(o.outputTokens),
            listCost := b.listCost + NonNegative(o.listCost));
    if at > b.lastAt {
      b := b.(lastAt := at);
    }
  }

  lemma SpanGrows(log: seq<Entry>, from: int, to: int, slot: HourStats)
    requires from <= to
    requires HourOf(log, to) == if slot.hour == to then slot else Empty(to)
    ensures slot.hour == to ==> WellShaped(TotalsOf(slot))
    ensures SumOf(log, Span(from, to)) ==
            if slot.hour == to then Plus(SumOf(log, Span(from, to - 1)), TotalsOf(slot)) else SumOf(log, Span(from, to - 1))
  {
    SumByHours(log, from, to);
    var t := SumOf(log, Span(from, to - 1));
    PlusZeroSamples(t.latency);
    PlusZeroSamples(t.ttft);
    LatestIsNatural(log, Span(from, to - 1));
  }

  class ChannelStats {
    const hours: array<HourStats>
    const starts: array<int>
    var startsNext: int
    /** Every accepted observation, and the latest time the clock showed. */
    ghost var log: seq<Entry>
    ghost var clock: int

    ghost predicate Valid()
      reads this, hours, starts
    {
      && hours.Length == HOURS_KEPT && starts.Length == STARTS_KEPT
      && WindowHolds(log, hours[..], UnixHour(clock))
      && StartsHold(CountedStarts(log), starts[..], startsNext)
    }

    constructor ()
      ensures Valid() && log == [] && fresh(hours) && fresh(starts)
    {
      hours := new HourStats[HOURS_KEPT](_ => Empty(0));
      starts := new int[STARTS_KEPT](_ => 0);
      startsNext := 0;
      log, clock := [], 0;
    }

    /** Whether a successful attempt of this executor call was counted already;
        a new one is remembered. */
    method CountedStart(key: int) returns (repeated: bool)
      requires Valid()
      modifies starts, this`startsNext
      ensures repeated == Recognized(CountedStarts(log), key)
      ensures StartsHold(CountedStarts(log) + (if key == 0 || repeated then [] else [key]), starts[..], startsNext)
    {
      ghost var counted := CountedStarts(log);
      assert counted + [] == counted;
      if key == 0 {
        return false;
      }
      StartsFind(counted, starts[..], startsNext, key);
      for i := 0 to starts.Length
        invariant key !in starts[..i]
      {
        if starts[i] == key {
          assert key in starts[..];
          return true;
        }
        assert starts[..i + 1] == starts[..i] + [starts[i]];
      }
      assert starts[..starts.Length] == starts[..];
      StartsTake(counted, starts[..], startsNext, key);
      ghost var was := starts[..];
      starts[startsNext] := key;
      assert starts[..] == was[startsNext := key];
      startsNext := (startsNext + 1) % STARTS_KEPT;
      return false;
    }

    /** Adds one usage record. */
    method Observe(o: Observation, now: int)
      requires Valid() && now >= clock
      modifies this, hours, starts
      ensures Valid() && clock == now
      ensures var at := if o.at.At? && o.at.time <= now then o.at.time else now;
        if (o.failed && o.status == 499) || UnixHour(at) <= UnixHour(now) - 168 then log == old(log)
        else log == old(log) + [Entry(at, o, !o.failed && Recognized(CountedStarts(old(log)), o.start))]
    {
      hide WindowHolds, StartsHold, Recognized, Apply, HourOf, CountedStarts, SlotIndex, UnixHour;
      WindowMoves(log, hours[..], UnixHour(clock), UnixHour(now)) by { HoursRise(clock, now); }
      clock := now;
      if o.failed && o.status == CLIENT_CLOSED {
        return;
      }
      var at := Clamp(o.at, now);
      ClampedTime(o.at, now);
      var hour := UnixHour(at);
      if hour <= UnixHour(now) - HOURS_KEPT {
        return;
      }
      ghost var before, ring := log, hours[..];
      var slot := SlotIndex(hour);
      var b := hours[slot];
      if b.hour != hour {
        b := Empty(hour);
      }
      var repeated := false;
      if !o.failed {
        repeated := CountedStart(o.start);
      }
      ghost var e := Entry(at, o, repeated);
      b := Recorded(b, o, at, repeated);
      RingTakesEntry(before, ring, UnixHour(now), e);
      CountedStartsLonger(before, e);
      assert CountedStarts(before) + [] == CountedStarts(before);
      hours[slot] := b;
      log := before + [e];
      assert hours[..] == ring[slot := b];
    }

    /** An attempt inside the span, or hour 0 of a ring that still holds
        zeroes there. */
    ghost predicate Shows(span: Span)
      requires Valid()
      reads this, hours, starts
    {
      !Idle(log, span) || (span.Contains(0) && hours[0] == Empty(0))
    }

    /** True of a span with an observed attempt. A zeroed ring also answers so
        for hour 0, and for no other. */
    method Active(span: Span, ghost now: int) returns (active: bool)
      requires Valid() && now >= clock && span.to <= UnixHour(now) && span.from > UnixHour(now) - HOURS_KEPT
      ensures active <==> Shows(span)
    {
      WindowMoves(log, hours[..], UnixHour(clock), UnixHour(now));
      HourIsWellShaped(log, 0);
      var h := span.from;
      while h <= span.to
        invariant span.from <= h
        invariant forall k :: span.from <= k < h ==> !Seen(log, k) && (k == 0 ==> hours[0] != Empty(0))
        decreases span.to - h
      {
        HourIsWellShaped(log, h);
        assert SlotIndex(0) == 0;
        assert SlotHolds(log, hours[..][SlotIndex(h)], h);
        if hours[SlotIndex(h)].hour == h {
          return true;
        }
        h := h + 1;
      }
      return false;
    }

    /** Sums the span: exactly the accepted observations of its hours. */
    method Collect(span: Span, ghost now: int) returns (t: Totals)
      requires Valid() && now >= clock && span.to <= UnixHour(now) && span.from > UnixHour(now) - HOURS_KEPT
      ensures t == SumOf(log, span)
    {
      WindowMoves(log, hours[..], UnixHour(clock), UnixHour(now));
      t := Nothing();
      var h := span.from;
      EmptySpan(log, Span(span.from, h - 1));
      while h <= span.to
        invariant span.from <= h && (if span.from <= span.to then h <= span.to + 1 else h == span.from)
        invariant t == SumOf(log, Span(span.from, h - 1))
        decreases span.to - h
      {
        SlotIsHour(log, hours[..], UnixHour(now), h);
        var b := hours[SlotIndex(h)];
        SpanGrows(log, span.from, h, b);
        if b.hour == h {
          t := Plus(t, TotalsOf(b));
        }
        h := h + 1;
      }
      if span.to < span.from {
        EmptySpan(log, span);
      }
    }
  }

  function Week(now: int): Span { Span(UnixHour(now) - HOURS_KEPT + 1, UnixHour(now)) }

  /** All channels; metadata keeps an idle one known. */
  class Registry {
    var channels: map<string, ChannelStats>
    var metas: set<string>

    ghost predicate Valid(now: int)
      reads this, channels.Values, set c | c in channels.Values :: c.hours, set c | c in channels.Values :: c.starts
    {
      forall index :: index in channels ==> channels[index].Valid() && channels[index].clock <= now
    }

    constructor ()
      ensures channels == map[] && metas == {}
    {
      channels, metas := map[], {};
    }

    /** A listed channel goes exactly when nobody described it and its window is
        empty; one with an observation inside the window never does. */
    method EvictIdle(indexes: seq<string>, now: int)
      requires Valid(now)
      modifies this`channels
      ensures var week := Span(UnixHour(now) - 167, UnixHour(now));
        && channels == (map i | i in old(channels) && !(i in indexes && i !in metas && !old(channels)[i].Shows(week)) :: old(channels)[i])
        && forall i :: i in old(channels) && i !in channels ==> Idle(old(channels)[i].log, week)
    {
      hide ChannelStats.Valid, ChannelStats.Shows, Idle;
      var week, left := Week(now), channels;
      for k := 0 to |indexes|
        invariant left.Keys <= channels.Keys && forall i :: i in left ==> left[i] == channels[i]
        invariant forall i :: i in channels ==> (i !in left <==> i in indexes[..k] && i !in metas && !channels[i].Shows(week))
        modifies {}
      {
        var index := indexes[k];
        assert indexes[..k + 1] == indexes[..k] + [index];
        if index in left && index !in metas {
          var active := channels[index].Active(week, now);
          if !active {
            left := left - {index};
          }
        }
      }
      assert indexes[..|indexes|] == indexes;
      forall i | i in channels && i !in left ensures Idle(channels[i].log, week) {
        NotShown(channels[i], week);
      }
      channels := left;
    }
  }

  lemma NotShown(c: ChannelStats, span: Span)
    requires c.Valid() && !c.Shows(span)
    ensures Idle(c.log, span)
  {
    hide ChannelStats.Valid, Idle;
  }

  /** The codes of an hour's failures, in order. */
  function FailureCodes(log: seq<Entry>, hour: int): seq<int> {
    if log == [] then []
    else
      var before, last := FailureCodes(log[..|log| - 1], hour), log[|log| - 1];
      if last.Hour() == hour && last.o.failed
      then before + [if 0 < last.o.status < 0x8000_0000 then last.o.status else 0]
      else before
  }

  lemma {:induction false} HourCountsItsFailures(log: seq<Entry>, hour: int)
    ensures HourOf(log, hour).codes == CountAll(FailureCodes(log, hour))
  {
    if log != [] {
      var before, last := log[..|log| - 1], log[|log| - 1];
      HourCountsItsFailures(before, hour);
      if last.Hour() == hour && last.o.failed {
        var codes := FailureCodes(before, hour) + [FailureCode(last.o.status)];
        assert codes[..|codes| - 1] == FailureCodes(before, hour);
      }
    }
  }

  /** An hour never shows more failures under a code than it had. */
  lemma HourNeverOverstates(log: seq<Entry>, hour: int, code: int)
    ensures Shown(HourOf(log, hour).codes, code) <= Occurrences(FailureCodes(log, hour), code)
    ensures |Codes(FailureCodes(log, hour))| <= SIZE ==>
      Shown(HourOf(log, hour).codes, code) == Occurrences(FailureCodes(log, hour), code)
  {
    HourCountsItsFailures(log, hour);
    NeverOverstated(FailureCodes(log, hour), code);
    if |Codes(FailureCodes(log, hour))| <= SIZE {
      ExactForFewCodes(FailureCodes(log, hour), code);
    }
  }

  lemma {:induction false} LatestIsNatural(log: seq<Entry>, span: Span)
    ensures SumOf(log, span).lastAt >= 0
  {
    if log != [] {
      LatestIsNatural(log[..|log| - 1], span);
    }
  }

  lemma OtherHoursKept(before: seq<Entry>, e: Entry, h: int)
    ensures HourOf(before + [e], h) == if e.Hour() == h then Apply(HourOf(before, h), e) else HourOf(before, h)
    ensures Seen(before + [e], h) <==> e.Hour() == h || Seen(before, h)
  {
    var log := before + [e];
    assert log[..|log| - 1] == before;
    if e.Hour() == h {
      assert log[|before|].Hour() == h;
    }
    if i :| 0 <= i < |before| && before[i].Hour() == h {
      assert log[i].Hour() == h;
    }
  }

  /** The latest of n numbered items that lies in ring position i, or -1. */
  function LatestAt(n: nat, i: int): (at: int)
    requires 0 <= i < STARTS_KEPT
    ensures -1 <= at < n
    ensures at >= 0 ==> at % STARTS_KEPT == i && at >= n - STARTS_KEPT
    ensures at < 0 <==> n <= i
  {
    if i >= n then -1
    else
      var at := n - 1 - (n - 1 - i) % STARTS_KEPT;
      assert at == i + (n - 1 - i) / STARTS_KEPT * STARTS_KEPT;
      at
  }

  lemma OneAtPlace(a: nat, b: nat)
    requires a % STARTS_KEPT == b % STARTS_KEPT && -STARTS_KEPT < a - b < STARTS_KEPT
    ensures a == b
  {}

  lemma LatestAtIs(n: nat, j: nat)
    requires j < n && j >= n - STARTS_KEPT
    ensures LatestAt(n, j % STARTS_KEPT) == j
  {
    hide LatestAt;
    if LatestAt(n, j % STARTS_KEPT) >= 0 {
      OneAtPlace(LatestAt(n, j % STARTS_KEPT), j);
    }
  }

  lemma NextLatestAt(n: nat, i: int)
    requires 0 <= i < STARTS_KEPT
    ensures LatestAt(n + 1, i) == if i == n % STARTS_KEPT then n else LatestAt(n, i)
  {
    hide LatestAt;
    if i == n % STARTS_KEPT {
      LatestAtIs(n + 1, n);
    } else if LatestAt(n, i) >= 0 {
      OneAtPlace(LatestAt(n + 1, i), LatestAt(n, i));
    }
  }
}
