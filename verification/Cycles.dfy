/** Quota periods and how they roll forward over calendar days. */
module Cycles {
  import opened Bytes
  import opened Calendar
  import opened Usage

  datatype Window = Daily | Weekly | Monthly {
    function Days(): (n: nat)
      ensures n > 0
    {
      match this
      case Daily => 1
      case Weekly => 7
      case Monthly => 30
    }
  }

  datatype Kind = Initial | Migration | Manual | Automatic

  /** One quota period; what it used is the sum over its models. */
  datatype Cycle = Cycle(startedAt: int, resetsAt: int, kind: Kind, byModel: Models)

  datatype CycleSet = CycleSet(daily: Cycle, weekly: Cycle, monthly: Cycle) {
    function Of(w: Window): Cycle {
      match w
      case Daily => daily
      case Weekly => weekly
      case Monthly => monthly
    }

    function With(w: Window, c: Cycle): CycleSet {
      match w
      case Daily => this.(daily := c)
      case Weekly => this.(weekly := c)
      case Monthly => this.(monthly := c)
    }
  }

  /** What loading requires of a period. */
  predicate Valid(z: Zone, w: Window, c: Cycle) {
    c.startedAt < c.resetsAt && DayStart(z, c.startedAt, w.Days()) == c.resetsAt
  }

  predicate AllValid(z: Zone, cs: CycleSet) { forall w: Window :: Valid(z, w, cs.Of(w)) }

  /** How many whole periods of n days lie between day d and now. */
  function Periods(z: Zone, d: int, n: int, now: int): (k: int)
    requires n > 0
  {
    (DayOf(z, now) - d) / n
  }

  /** The period that holds now, counted in whole periods from the deadline. */
  function Advanced(z: Zone, w: Window, c: Cycle, now: int): Cycle {
    if now < c.resetsAt then c
    else
      var d, n := DayOf(z, c.resetsAt), w.Days();
      var k := Periods(z, d, n, now);
      Cycle(if k == 0 then c.resetsAt else z(d + k * n), z(d + (k + 1) * n), Automatic, map[])
  }

  function AllAdvanced(z: Zone, cs: CycleSet, now: int): CycleSet {
    CycleSet(Advanced(z, Daily, cs.daily, now), Advanced(z, Weekly, cs.weekly, now), Advanced(z, Monthly, cs.monthly, now))
  }

  function AnyExpired(cs: CycleSet, now: int): bool {
    cs.daily.resetsAt <= now || cs.weekly.resetsAt <= now || cs.monthly.resetsAt <= now
  }

  lemma PeriodsBound(z: Zone, d: int, n: int, now: int, k: int)
    requires n > 0
    ensures z(d + k * n) <= now < z(d + (k + 1) * n) <==> k == Periods(z, d, n, now)
  {
    hide Increasing, DayOf;
    var day := DayOf(z, now);
    AfterStart(z, now, d + k * n);
    AfterStart(z, now, d + (k + 1) * n);
    QuotientIs(day - d, n, k);
  }

  lemma QuotientIs(a: int, n: int, k: int)
    requires n > 0
    ensures k * n <= a < (k + 1) * n <==> k == a / n
  {
    var q := a / n;
    assert q * n <= a < (q + 1) * n;
    if k < q {
      Multiples(k + 1, q, n);
    } else if k > q {
      Multiples(q + 1, k, n);
    }
  }

  lemma Multiples(a: int, b: int, n: int)
    requires a <= b && n > 0
    ensures a * n <= b * n
  {}

  lemma OneMore(k: int, n: int)
    ensures k * n + n == (k + 1) * n
  {}

  /** Rolls an expired period forward from its own deadline, one period at a
      time. */
  method AdvanceCycle(z: Zone, w: Window, c: Cycle, now: int) returns (r: Cycle, changed: bool)
    ensures r == Advanced(z, w, c, now) && (changed <==> c.resetsAt <= now)
  {
    hide Increasing, DayOf;
    if now < c.resetsAt {
      return c, false;
    }
    ghost var d, n, k := DayOf(z, c.resetsAt), w.Days(), 0;
    var start := c.resetsAt;
    var next := DayStart(z, start, w.Days());
    DaysInOrder(z, c.resetsAt, now);
    assert d + (k + 1) * n == d + n;
    while now >= next
      invariant k >= 0 && start == (if k == 0 then c.resetsAt else z(d + k * n)) && next == z(d + (k + 1) * n)
      invariant d + k * n <= DayOf(z, now)
      decreases DayOf(z, now) - (d + k * n)
    {
      AfterStart(z, now, d + (k + 1) * n);
      DayOfStart(z, d + (k + 1) * n);
      OneMore(k + 1, n);
      OneMore(k, n);
      k := k + 1;
      start, next := next, DayStart(z, next, w.Days());
    }
    AfterStart(z, now, d + k * n);
    PeriodsBound(z, d, n, now, k);
    return Cycle(start, next, Automatic, map[]), true;
  }

  method AdvanceCycles(z: Zone, cs: CycleSet, now: int) returns (r: CycleSet, changed: bool)
    ensures r == AllAdvanced(z, cs, now) && (changed <==> AnyExpired(cs, now))
  {
    hide Advanced;
    var daily, weekly, monthly;
    var d, w, m;
    daily, d := AdvanceCycle(z, Daily, cs.daily, now);
    weekly, w := AdvanceCycle(z, Weekly, cs.weekly, now);
    monthly, m := AdvanceCycle(z, Monthly, cs.monthly, now);
    return CycleSet(daily, weekly, monthly), d || w || m;
  }

  /** The three periods a key opens with. */
  function Opened(z: Zone, at: int, kind: Kind): CycleSet {
    CycleSet(Cycle(DayStart(z, at, 0), DayStart(z, at, 1), kind, map[]),
           Cycle(at, DayStart(z, at, 7), kind, map[]),
           Cycle(at, DayStart(z, at, 30), kind, map[]))
  }

  function ResetByHand(z: Zone, w: Window, now: int): Cycle { Cycle(now, DayStart(z, now, w.Days()), Manual, map[]) }

  // What a valid period is.

  /** A deadline is the first instant of its day. */
  lemma DeadlineIsDayStart(z: Zone, w: Window, c: Cycle)
    requires Valid(z, w, c)
    ensures c.resetsAt == z(DayOf(z, c.resetsAt)) && DayOf(z, c.resetsAt) == DayOf(z, c.startedAt) + w.Days()
  {
    hide Increasing, DayOf;
    DayOfStart(z, DayOf(z, c.startedAt) + w.Days());
  }

  lemma StartsBeforeDeadline(z: Zone, at: int, n: int)
    requires n > 0
    ensures at < DayStart(z, at, n)
  {
    hide Increasing, DayOf;
    DayBounds(z, at);
    NoEarlier(z, DayOf(z, at) + 1, DayOf(z, at) + n);
  }

  /** Rolling forward lands on the one interval [z(d + kn), z(d + (k+1)n)) of
      the deadline's day d that holds now. */
  lemma AdvancedHoldsNow(z: Zone, w: Window, c: Cycle, now: int)
    requires Valid(z, w, c) && c.resetsAt <= now
    ensures var d, n, r := DayOf(z, c.resetsAt), w.Days(), Advanced(z, w, c, now);
      var k := Periods(z, d, n, now);
      && k >= 0 && r.startedAt == z(d + k * n) && r.resetsAt == z(d + (k + 1) * n) && r.startedAt <= now < r.resetsAt
      && forall j :: z(d + j * n) <= now < z(d + (j + 1) * n) ==> j == k
  {
    hide Increasing, DayOf;
    var d, n := DayOf(z, c.resetsAt), w.Days();
    var k := Periods(z, d, n, now);
    DeadlineIsDayStart(z, w, c);
    DaysInOrder(z, c.resetsAt, now);
    PeriodsBound(z, d, n, now, k);
    forall j | z(d + j * n) <= now < z(d + (j + 1) * n) ensures j == k {
      PeriodsBound(z, d, n, now, j);
    }
  }

  lemma AdvancedIsValid(z: Zone, w: Window, c: Cycle, now: int)
    requires Valid(z, w, c)
    ensures Valid(z, w, Advanced(z, w, c, now)) && now < Advanced(z, w, c, now).resetsAt
    ensures c.startedAt <= now ==> Advanced(z, w, c, now).startedAt <= now
  {
    hide Increasing, DayOf;
    if now >= c.resetsAt {
      var d, n := DayOf(z, c.resetsAt), w.Days();
      var k := Periods(z, d, n, now);
      AdvancedHoldsNow(z, w, c, now);
      DayOfStart(z, d + k * n);
      OneMore(k, n);
    }
  }

  lemma SameRoll(z: Zone, w: Window, c: Cycle, r: Cycle, k: int, now: int)
    requires Valid(z, w, c) && Valid(z, w, r)
    requires r.resetsAt == z(DayOf(z, c.resetsAt) + k * w.Days()) && c.resetsAt <= r.resetsAt <= now
    ensures Advanced(z, w, r, now) == Advanced(z, w, c, now)
  {
    hide Increasing, DayOf, Valid, Advanced;
    var d, n := DayOf(z, c.resetsAt), w.Days();
    var j, q := Periods(z, d + k * n, n, now), Periods(z, d, n, now);
    DayOfStart(z, d + k * n);
    AdvancedHoldsNow(z, w, c, now);
    AdvancedHoldsNow(z, w, r, now);
    SplitPeriods(k, j, n);
    SplitPeriods(k, j + 1, n);
    assert z(d + (k + j) * n) <= now < z(d + (k + j + 1) * n);
    assert q == k + j;
    AdvancedShape(z, w, c, now);
    AdvancedShape(z, w, r, now);
  }

  lemma AdvancedShape(z: Zone, w: Window, c: Cycle, now: int)
    ensures c.resetsAt <= now ==> Advanced(z, w, c, now).kind == Automatic && Advanced(z, w, c, now).byModel == map[]
    ensures now < c.resetsAt ==> Advanced(z, w, c, now) == c
  {}

  /** Advancing in two stops is advancing once. */
  lemma AdvanceInStops(z: Zone, w: Window, c: Cycle, t: int, now: int)
    requires Valid(z, w, c) && t <= now
    ensures Advanced(z, w, Advanced(z, w, c, t), now) == Advanced(z, w, c, now)
  {
    hide Increasing, DayOf, Valid, Advanced;
    var r := Advanced(z, w, c, t);
    AdvancedShape(z, w, c, t);
    AdvancedShape(z, w, r, now);
    if t >= c.resetsAt {
      var d, n := DayOf(z, c.resetsAt), w.Days();
      var k := Periods(z, d, n, t);
      AdvancedHoldsNow(z, w, c, t);
      AdvancedIsValid(z, w, c, t);
      if now < r.resetsAt {
        AdvancedHoldsNow(z, w, c, now);
        AdvancedShape(z, w, c, now);
        assert k == Periods(z, d, n, now);
      } else {
        SameRoll(z, w, c, r, k + 1, now);
      }
    }
  }

  lemma SplitPeriods(a: int, b: int, n: int)
    ensures a * n + b * n == (a + b) * n
  {}

  lemma OpenedIsValid(z: Zone, at: int, kind: Kind)
    ensures AllValid(z, Opened(z, at, kind))
    ensures forall w: Window :: Opened(z, at, kind).Of(w).startedAt <= at
    ensures forall w: Window :: var c := Opened(z, at, kind).Of(w);
      c.kind == kind && c.byModel == map[] && c.startedAt == if w == Daily then z(DayOf(z, at)) else at
  {
    hide Increasing, DayOf;
    DayBounds(z, at);
    DayOfStart(z, DayOf(z, at));
    forall w: Window ensures Valid(z, w, Opened(z, at, kind).Of(w)) && Opened(z, at, kind).Of(w).startedAt <= at {
      StartsBeforeDeadline(z, at, w.Days());
    }
  }

  lemma ResetIsValid(z: Zone, w: Window, now: int)
    ensures Valid(z, w, ResetByHand(z, w, now))
  {
    hide Increasing, DayOf;
    StartsBeforeDeadline(z, now, w.Days());
  }

  /** Whatever opens, rolls forward or resets a period, it stays loadable. */
  lemma AllAdvancedIsValid(z: Zone, cs: CycleSet, now: int)
    requires AllValid(z, cs)
    ensures AllValid(z, AllAdvanced(z, cs, now)) && !AnyExpired(AllAdvanced(z, cs, now), now)
    ensures forall w: Window :: AllAdvanced(z, cs, now).Of(w) == Advanced(z, w, cs.Of(w), now)
  {
    hide Advanced, Valid;
    forall w: Window ensures AllAdvanced(z, cs, now).Of(w) == Advanced(z, w, cs.Of(w), now) && Valid(z, w, AllAdvanced(z, cs, now).Of(w)) {
      AdvancedIsValid(z, w, cs.Of(w), now);
    }
    AdvancedIsValid(z, Daily, cs.Of(Daily), now);
    AdvancedIsValid(z, Weekly, cs.Of(Weekly), now);
    AdvancedIsValid(z, Monthly, cs.Of(Monthly), now);
  }

  lemma AllAdvancedInStops(z: Zone, cs: CycleSet, t: int, now: int)
    requires AllValid(z, cs) && t <= now
    ensures AllAdvanced(z, AllAdvanced(z, cs, t), now) == AllAdvanced(z, cs, now)
  {
    hide Advanced, Valid;
    AdvanceInStops(z, Daily, cs.Of(Daily), t, now);
    AdvanceInStops(z, Weekly, cs.Of(Weekly), t, now);
    AdvanceInStops(z, Monthly, cs.Of(Monthly), t, now);
  }

  lemma ValidIgnoresModels(z: Zone, w: Window, c: Cycle, models: Models)
    ensures Valid(z, w, c.(byModel := models)) <==> Valid(z, w, c)
  {
    hide DayStart;
  }

  /** A rolled period starts at its predecessor's deadline or later. */
  lemma StartsAtDeadline(z: Zone, w: Window, c: Cycle, now: int)
    requires Valid(z, w, c) && c.resetsAt <= now
    ensures var r := Advanced(z, w, c, now); c.resetsAt <= r.startedAt <= r.resetsAt
    ensures Advanced(z, w, c, now).startedAt == z(DayOf(z, Advanced(z, w, c, now).startedAt))
  {
    hide DayOf, Increasing, Advanced;
    var d, n := DayOf(z, c.resetsAt), w.Days();
    var k := Periods(z, d, n, now);
    AdvancedHoldsNow(z, w, c, now);
    DeadlineIsDayStart(z, w, c);
    Multiples(0, k, n);
    NoEarlier(z, d, d + k * n);
    DayOfStart(z, d + k * n);
  }
}
