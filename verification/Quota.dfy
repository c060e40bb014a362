/** When a key is refused for its quota, and until when. */
module Quota {
  import opened Bytes
  import opened Calendar
  import opened Usage
  import opened Cycles
  import opened Ledger
  import Flush
  import opened LedgerMemory
  import CycleIndex
  import Prepaid

  /** Limits in nanodollars; zero or less is none. A prepaid key is
      limited by its balance alone. */
  datatype Limits = Periods(daily: int, weekly: int, monthly: int) | BalanceOnly {
    function Of(w: Window): int
      requires Periods?
    {
      match w
      case Daily => daily
      case Weekly => weekly
      case Monthly => monthly
    }

    predicate Any() { BalanceOnly? || daily > 0 || weekly > 0 || monthly > 0 }
  }

  datatype Denial = Exhausted | Exceeded(window: Window, limit: int, retryAt: int)

  /** What a period used: the charges of all its models. */
  ghost function Used(models: Models): int
    decreases |models|
  {
    if models == map[] then 0 else var m :| m in models; models[m].charged + Used(models - {m})
  }

  lemma {:induction false} UsedWithout(models: Models, m: string)
    requires m in models
    ensures Used(models) == models[m].charged + Used(models - {m})
    decreases |models|
  {
    var n :| n in models && Used(models) == models[n].charged + Used(models - {n});
    if n != m {
      UsedWithout(models - {n}, m);
      UsedWithout(models - {m}, n);
      assert models - {n} - {m} == models - {m} - {n};
    }
  }

  /** Every billed call adds its charge to what the period used. */
  lemma UsedGrows(models: Models, m: string, delta: Bucket)
    ensures Used(Booked(models, m, delta)) == Used(models) + delta.charged
  {
    var after := Booked(models, m, delta);
    UsedWithout(after, m);
    if m in models {
      UsedWithout(models, m);
      assert after - {m} == models - {m};
    } else {
      assert after - {m} == models;
    }
  }

  method SumUsed(models: Models) returns (used: int)
    ensures used == Used(models)
  {
    used := 0;
    var left := models;
    while left.Keys != {}
      invariant used + Used(left) == Used(models)
      decreases |left|
    {
      var m :| m in left.Keys;
      UsedWithout(left, m);
      used := used + left[m].charged;
      left := left - {m};
    }
    assert left == map[];
  }

  ghost predicate Spent(cs: CycleSet, limits: Limits, w: Window)
    requires limits.Periods?
  {
    limits.Of(w) > 0 && Used(cs.Of(w).byModel) >= limits.Of(w)
  }

  /** The latest deadline among the exhausted periods. */
  ghost function Later(cs: CycleSet, limits: Limits, w: Window, earlier: Option<Denial>): Option<Denial>
    requires limits.Periods?
  {
    if Spent(cs, limits, w) && (earlier.None? || earlier.value.Exhausted? || cs.Of(w).resetsAt >= earlier.value.retryAt) then
      Some(Exceeded(w, limits.Of(w), cs.Of(w).resetsAt))
    else earlier
  }

  ghost function PeriodDenial(cs: CycleSet, limits: Limits): Option<Denial>
    requires limits.Periods?
  {
    Later(cs, limits, Monthly, Later(cs, limits, Weekly, Later(cs, limits, Daily, None)))
  }

  /** The periods a key is judged by: its own, or for a key without any
      throwaway ones. */
  function CyclesNow(z: Zone, u: KeyUsage, now: int): CycleSet {
    if u.cycles.Some? then AllAdvanced(z, u.cycles.value, now) else Opened(z, now, Initial)
  }

  ghost function DenialAt(z: Zone, l: Ledger, id: string, limits: Limits, now: int): Option<Denial> {
    if limits.BalanceOnly? then
      if l.Entry(id).balance.Some? && l.Entry(id).balance.value.nano > 0 then None else Some(Exhausted)
    else if !limits.Any() then None
    else PeriodDenial(CyclesNow(z, l.Entry(id), now), limits)
  }

  method QuotaDenial(l: UsageLedger, id: string, limits: Limits, now: int) returns (denial: Option<Denial>)
    requires l.Valid()
    modifies l
    ensures l.Valid()
    ensures denial == DenialAt(l.zone, old(l.View()), id, limits, now)
    ensures l.View() == if limits.BalanceOnly? || !limits.Any() then old(l.View()) else Read(l.zone, Evicted(l.zone, old(l.View()), now), id, now)
  {
    hide SlotsView, Apart, Evicted, Read, Used, AllAdvanced, Opened;
    SlotShown(l.entries, id);
    if limits.BalanceOnly? {
      var balance := l.SlotOf(id).balance;
      return if balance.Some? && balance.value.nano > 0 then None else Some(Exhausted);
    }
    if !limits.Any() {
      return None;
    }
    ghost var before := l.View();
    l.EvictExpired(now);
    var cycles := l.CurrentCycles(id, now);
    CyclesSeen(l.zone, before, id, now);
    var cs := if cycles.Some? then cycles.value else Opened(l.zone, now, Initial);
    denial := Deny(cs, limits);
  }

  /** Looks at the three periods in turn. */
  method Deny(cs: CycleSet, limits: Limits) returns (denial: Option<Denial>)
    requires limits.Periods?
    ensures denial == PeriodDenial(cs, limits)
  {
    hide Used;
    denial := None;
    ghost var expected := [None, Later(cs, limits, Daily, None), Later(cs, limits, Weekly, Later(cs, limits, Daily, None)), PeriodDenial(cs, limits)];
    var windows := [Daily, Weekly, Monthly];
    for i := 0 to 3
      invariant denial == expected[i]
    {
      var w := windows[i];
      var used := SumUsed(cs.Of(w).byModel);
      if limits.Of(w) > 0 && used >= limits.Of(w) &&
         (denial.None? || denial.value.Exhausted? || cs.Of(w).resetsAt >= denial.value.retryAt) {
        denial := Some(Exceeded(w, limits.Of(w), cs.Of(w).resetsAt));
      }
    }
  }

  lemma CyclesSeen(z: Zone, l: Ledger, id: string, now: int)
    ensures var cycles := Read(z, Evicted(z, l, now), id, now).Entry(id).cycles;
      (if cycles.Some? then cycles.value else Opened(z, now, Initial)) == CyclesNow(z, l.Entry(id), now)
  {
    hide Evicted, AllAdvanced, Opened;
    Flush.EvictedPeriods(z, l, now, id);
    NothingRolled(z, l.Entry(id), now);
  }

  lemma NothingRolled(z: Zone, u: KeyUsage, now: int)
    ensures u.cycles.Some? && !AnyExpired(u.cycles.value, now) ==> AllAdvanced(z, u.cycles.value, now) == u.cycles.value
  {
    hide DayOf;
  }

  // What a denial means.

  /** Refused exactly when some limited period has used its limit; the retry
      time is the latest deadline of those. */
  lemma DeniedIffSpent(cs: CycleSet, limits: Limits)
    requires limits.Periods?
    ensures PeriodDenial(cs, limits).Some? <==> exists w: Window :: Spent(cs, limits, w)
    ensures var d := PeriodDenial(cs, limits); d.Some? ==>
      && d.value.Exceeded? && Spent(cs, limits, d.value.window)
      && d.value.limit == limits.Of(d.value.window) && d.value.retryAt == cs.Of(d.value.window).resetsAt
      && forall w: Window :: Spent(cs, limits, w) ==> cs.Of(w).resetsAt <= d.value.retryAt
  {
    hide Spent;
    forall w: Window | Spent(cs, limits, w)
      ensures PeriodDenial(cs, limits).Some? && cs.Of(w).resetsAt <= PeriodDenial(cs, limits).value.retryAt
    {
      match w
      case Daily =>
      case Weekly =>
      case Monthly =>
    }
  }

  lemma NothingUsed(c: Cycle, z: Zone, w: Window, now: int)
    requires c.resetsAt <= now
    ensures Used(Advanced(z, w, c, now).byModel) == 0
  {
    hide DayOf;
  }

  /** With no further billing or reset, an exhausted period stays so up to its
      deadline, and any other stays within its limit. */
  lemma SpentUntilDeadline(z: Zone, cs: CycleSet, limits: Limits, w: Window, now: int)
    requires limits.Periods? && AllValid(z, cs)
    ensures Spent(AllAdvanced(z, cs, now), limits, w) <==> Spent(cs, limits, w) && now < cs.Of(w).resetsAt
  {
    hide Advanced, Valid, Used;
    AllAdvancedIsValid(z, cs, now);
    AdvancedShape(z, w, cs.Of(w), now);
    if now >= cs.Of(w).resetsAt {
      NothingUsed(cs.Of(w), z, w, now);
    }
  }

  /** A denial is tight: left alone, the key is refused at every instant before
      the retry time and admitted by quota at every one from it on. */
  lemma DenialIsTight(z: Zone, l: Ledger, id: string, limits: Limits, now: int, later: int)
    requires limits.Periods? && limits.Any() && now <= later
    requires l.Entry(id).cycles.Some? && AllValid(z, l.Entry(id).cycles.value)
    requires DenialAt(z, l, id, limits, now).Some?
    ensures DenialAt(z, l, id, limits, now).value.Exceeded?
    ensures DenialAt(z, l, id, limits, later).Some? <==> later < DenialAt(z, l, id, limits, now).value.retryAt
  {
    hide AllAdvanced, Spent, PeriodDenial, AllValid, Used;
    var own := l.Entry(id).cycles.value;
    var cs, after := AllAdvanced(z, own, now), AllAdvanced(z, own, later);
    DeniedIffSpent(cs, limits);
    DeniedIffSpent(after, limits);
    AllAdvancedIsValid(z, own, now);
    AllAdvancedInStops(z, own, now, later);
    forall w: Window ensures Spent(after, limits, w) <==> Spent(cs, limits, w) && later < cs.Of(w).resetsAt {
      SpentUntilDeadline(z, cs, limits, w, later);
    }
  }

  /** A key admitted now stays admitted until something is billed. */
  lemma AdmittedStays(z: Zone, l: Ledger, id: string, limits: Limits, now: int, later: int)
    requires limits.Periods? && now <= later
    requires l.Entry(id).cycles.Some? && AllValid(z, l.Entry(id).cycles.value)
    requires DenialAt(z, l, id, limits, now).None?
    ensures DenialAt(z, l, id, limits, later).None?
  {
    hide AllAdvanced, Spent, PeriodDenial, AllValid, Used;
    if limits.Any() {
      var own := l.Entry(id).cycles.value;
      var cs, after := AllAdvanced(z, own, now), AllAdvanced(z, own, later);
      DeniedIffSpent(cs, limits);
      DeniedIffSpent(after, limits);
      AllAdvancedIsValid(z, own, now);
      AllAdvancedInStops(z, own, now, later);
      forall w: Window ensures !Spent(after, limits, w) {
        SpentUntilDeadline(z, cs, limits, w, later);
      }
    }
  }

  // Over runs.

  /** The step books a call of the key or resets one of its periods by hand. */
  predicate Touches(z: Zone, w: Flush.World, s: Flush.Step, key: string) {
    ((s.Bill? || s.Replay?) && s.id == key) || (CycleIndex.ResetDone(z, w, s) && s.id == key)
  }

  lemma UntouchedStep(z: Zone, w: Flush.World, s: Flush.Step, key: string, clock: int, later: int)
    requires Flush.Enabled(z, w, s) && CycleIndex.Steady(s, key, clock) && !Touches(z, w, s, key)
    requires clock <= CycleIndex.ClockAfter(s, clock) <= later
    requires w.l.Entry(key).cycles.Some? && AllValid(z, w.l.Entry(key).cycles.value)
    ensures var cs, after := w.l.Entry(key).cycles.value, Flush.Next(z, w, s).l.Entry(key).cycles;
      after.Some? && AllValid(z, after.value) && AllAdvanced(z, after.value, later) == AllAdvanced(z, cs, later)
  {
    hide Flush.Next, Flush.Enabled, AllAdvanced, AllValid, CycleIndex.ResetDone;
    var cs, now := w.l.Entry(key).cycles.value, CycleIndex.ClockAfter(s, clock);
    CycleIndex.StepCycles(z, w, s, key, clock);
    AllAdvancedIsValid(z, cs, now);
    AllAdvancedInStops(z, cs, now, later);
  }

  /** Whatever else happens, an untouched key's periods roll to the same ones. */
  lemma {:induction false} UntouchedRun(
    z: Zone, run: seq<Flush.World>, steps: seq<Flush.Step>, clocks: seq<int>, key: string, logs: seq<seq<CycleIndex.Event>>, i: nat, later: int)
    requires CycleIndex.IsSteadyRun(z, run, steps, clocks, key, logs) && i < |run| && clocks[i] <= later
    requires forall k :: 0 <= k < i ==> !Touches(z, run[k], steps[k], key)
    requires run[0].l.Entry(key).cycles.Some? && AllValid(z, run[0].l.Entry(key).cycles.value)
    ensures var cs := run[i].l.Entry(key).cycles;
      && cs.Some? && AllValid(z, cs.value) && clocks[0] <= clocks[i]
      && AllAdvanced(z, cs.value, later) == AllAdvanced(z, run[0].l.Entry(key).cycles.value, later)
  {
    hide Flush.Next, Flush.Enabled, AllAdvanced, AllValid, Touches, CycleIndex.LogAfter;
    if i > 0 {
      var k := i - 1;
      assert CycleIndex.Steady(steps[k], key, clocks[k]) && clocks[i] == CycleIndex.ClockAfter(steps[k], clocks[k]);
      assert Flush.Enabled(z, run[k], steps[k]) && run[i] == Flush.Next(z, run[k], steps[k]);
      UntouchedRun(z, run, steps, clocks, key, logs, k, later);
      UntouchedStep(z, run[k], steps[k], key, clocks[k], later);
    }
  }

  /** A denial is tight over every run: through flushes, journaled calls of
      other keys, registrations, looks, failed resets and adjustments, a key
      that is not billed or reset is refused before the retry time and admitted
      from it on; one that was admitted stays so. */
  lemma DenialIsTightOverRun(
    z: Zone, run: seq<Flush.World>, steps: seq<Flush.Step>, clocks: seq<int>, key: string, logs: seq<seq<CycleIndex.Event>>,
    limits: Limits, i: nat, later: int)
    requires CycleIndex.IsSteadyRun(z, run, steps, clocks, key, logs) && i < |run| && clocks[i] <= later
    requires forall k :: 0 <= k < i ==> !Touches(z, run[k], steps[k], key)
    requires run[0].l.Entry(key).cycles.Some? && AllValid(z, run[0].l.Entry(key).cycles.value) && limits.Periods?
    ensures var first := DenialAt(z, run[0].l, key, limits, clocks[0]);
      DenialAt(z, run[i].l, key, limits, later).Some? <==> first.Some? && first.value.Exceeded? && later < first.value.retryAt
  {
    hide Flush.Next, Flush.Enabled, AllAdvanced, AllValid, Touches, PeriodDenial;
    UntouchedRun(z, run, steps, clocks, key, logs, i, later);
    SameDenial(z, run[0].l, run[i].l, key, limits, later);
    if DenialAt(z, run[0].l, key, limits, clocks[0]).Some? {
      DenialIsTight(z, run[0].l, key, limits, clocks[0], later);
    } else {
      AdmittedStays(z, run[0].l, key, limits, clocks[0], later);
    }
  }

  lemma SameDenial(z: Zone, a: Ledger, b: Ledger, id: string, limits: Limits, now: int)
    requires a.Entry(id).cycles.Some? && b.Entry(id).cycles.Some? && limits.Periods?
    requires AllAdvanced(z, a.Entry(id).cycles.value, now) == AllAdvanced(z, b.Entry(id).cycles.value, now)
    ensures DenialAt(z, a, id, limits, now) == DenialAt(z, b, id, limits, now)
  {
    hide AllAdvanced, PeriodDenial;
  }

  // Prepaid keys.

  /** At every point of every run a prepaid key is refused exactly when its
      credits do not exceed what it was charged, whatever the time. */
  lemma PrepaidDenial(
    z: Zone, keys: seq<Key>, at: int, run: seq<Flush.World>, steps: seq<Flush.Step>, key: string, books: seq<Prepaid.Books>, i: nat, now: int)
    requires Prepaid.IsBookedRun(z, run, steps, key, books) && i < |run|
    requires run[0] == Flush.FirstBoot(z, keys, at) && books[0] == Prepaid.Books([], [], [])
    ensures DenialAt(z, run[i].l, key, BalanceOnly, now) ==
            if Prepaid.Credits(books[i].now) <= Prepaid.Charges(books[i].now) then Some(Exhausted) else None
  {
    hide Flush.FirstBoot, Flush.Enabled, Flush.Next, Flush.Inv, Prepaid.BooksHold, Prepaid.BooksAfter, Prepaid.Credits, Prepaid.Charges;
    Prepaid.EveryRunIsAccounted(z, keys, at, run, steps, key, books, i);
  }

  /** A credit of 3 and a call of 8: refused from then on, until more is
      credited than owed. */
  lemma OverdrawnIsRefused(z: Zone, l: Ledger, id: string, model: string, delta: Bucket, more: int, now: int)
    requires l.Entry(id).cycles.Some? && l.Entry(id).balance == Some(Balance(3, 3, [])) && delta.charged == 8
    ensures var billed := Recorded(z, l, id, model, delta, true, now);
      var credited := AdjustBalance(billed, id, more, "").Ended(Written);
      && DenialAt(z, l, id, BalanceOnly, now).None? && DenialAt(z, billed, id, BalanceOnly, now) == Some(Exhausted)
      && (DenialAt(z, credited, id, BalanceOnly, now).None? <==> more > 5)
  {
    hide AllAdvanced, BookedAll, OpenDate, BookedOn, Evicted;
    var u := OnDate(Charged(z, l.Entry(id), model, delta, true, now), OpenDate(z, l, now), model, delta);
    Flush.EvictedPeriods(z, l.Put(id, u), now, id);
  }

  // Refusals and the calls they come from.

  /** The charges of the calls a period counts: those since its start, and
      since the last reset by hand of its window. */
  function ChargedFrom(log: seq<CycleIndex.Event>, w: Window, from: int): int {
    if log == [] then 0
    else
      var earlier := ChargedFrom(log[..|log| - 1], w, from);
      match log[|log| - 1]
      case Took(_, delta, at) => if at >= from then earlier + delta.charged else earlier
      case Cleared(window) => if window == w then 0 else earlier
  }

  lemma {:induction false} CountedCharges(log: seq<CycleIndex.Event>, w: Window, from: int)
    ensures Used(CycleIndex.Counted(log, w, from)) == ChargedFrom(log, w, from)
  {
    hide Used, Booked;
    if log == [] {
      NothingIsUsed();
    } else {
      var earlier, last := log[..|log| - 1], log[|log| - 1];
      CountedCharges(earlier, w, from);
      match last
      case Took(model, delta, at) => UsedGrows(CycleIndex.Counted(earlier, w, from), model, delta);
      case Cleared(_) => NothingIsUsed();
    }
  }

  lemma NothingIsUsed()
    ensures Used(map[]) == 0
  {}

  /** At every point of every steady run a key is refused exactly when the
      calls since the start of its day, week or month cost its limit for that
      period or more. */
  lemma DeniedIffCharged(
    z: Zone, run: seq<Flush.World>, steps: seq<Flush.Step>, clocks: seq<int>, key: string, logs: seq<seq<CycleIndex.Event>>,
    createdAt: int, i: nat, daily: int, weekly: int, monthly: int, now: int)
    requires CycleIndex.IsSteadyRun(z, run, steps, clocks, key, logs) && i < |run| && clocks[i] <= now
    requires CycleIndex.JustOpened(z, run[0], key, createdAt, clocks[0]) && logs[0] == []
    ensures run[i].l.Entry(key).cycles.Some?
    ensures var cs, log := AllAdvanced(z, run[i].l.Entry(key).cycles.value, now), logs[i];
      DenialAt(z, run[i].l, key, Periods(daily, weekly, monthly), now).Some? <==>
        || (daily > 0 && ChargedFrom(log, Daily, cs.daily.startedAt) >= daily)
        || (weekly > 0 && ChargedFrom(log, Weekly, cs.weekly.startedAt) >= weekly)
        || (monthly > 0 && ChargedFrom(log, Monthly, cs.monthly.startedAt) >= monthly)
  {
    hide Flush.Next, Flush.Enabled, AllAdvanced, PeriodDenial, Used, ChargedFrom, CycleIndex.Counted, CycleIndex.JustOpened, CycleIndex.Before;
    CycleIndex.PeriodsAreSums(z, run, steps, clocks, key, logs, createdAt, i);
    var own, log, limits := run[i].l.Entry(key).cycles.value, logs[i], Periods(daily, weekly, monthly);
    var cs := AllAdvanced(z, own, now);
    CycleIndex.IndexRolled(z, own, log, clocks[i], now);
    DeniedIffSpent(cs, limits);
    assert cs.Of(Daily) == cs.daily && cs.Of(Weekly) == cs.weekly && cs.Of(Monthly) == cs.monthly;
    CountedCharges(log, Daily, cs.daily.startedAt);
    CountedCharges(log, Weekly, cs.weekly.startedAt);
    CountedCharges(log, Monthly, cs.monthly.startedAt);
    assert Spent(cs, limits, Daily) <==> daily > 0 && ChargedFrom(log, Daily, cs.daily.startedAt) >= daily;
    assert Spent(cs, limits, Weekly) <==> weekly > 0 && ChargedFrom(log, Weekly, cs.weekly.startedAt) >= weekly;
    assert Spent(cs, limits, Monthly) <==> monthly > 0 && ChargedFrom(log, Monthly, cs.monthly.startedAt) >= monthly;
  }
}
