/** Quota periods against daily history: for a fresh key that was never reset by
    hand, a period's bucket is the sum of the day buckets from its start day
    to today. */
module CycleDays {
  import opened Bytes
  import opened Calendar
  import opened Usage
  import opened Cycles
  import opened Ledger
  import opened Flush
  import opened CycleIndex

  /** The calls made on one day. */
  function OnDay(z: Zone, log: seq<Event>, d: int): Models {
    if log == [] then map[]
    else
      var earlier := OnDay(z, log[..|log| - 1], d);
      match log[|log| - 1]
      case Took(model, delta, at) => if DayOf(z, at) == d then Booked(earlier, model, delta) else earlier
      case Cleared(_) => earlier
  }

  function SumRange(f: int -> Bucket, from: int, to: int): Bucket
    decreases if from > to then 0 else to - from + 1
  {
    if from > to then NOTHING else SumRange(f, from, to - 1).Plus(f(to))
  }

  function DayBuckets(z: Zone, log: seq<Event>, model: string): int -> Bucket {
    (d: int) => BucketOf(OnDay(z, log, d), model)
  }

  function LedgerBuckets(l: Ledger, key: string, model: string): int -> Bucket { (d: int) => BucketOf(l.On(key, d), model) }

  lemma {:induction false} SumSame(f: int -> Bucket, g: int -> Bucket, from: int, to: int)
    requires forall d: int :: from <= d <= to ==> f(d) == g(d)
    ensures SumRange(f, from, to) == SumRange(g, from, to)
    decreases if from > to then 0 else to - from + 1
  {
    if from <= to {
      SumSame(f, g, from, to - 1);
    }
  }

  /** One day's bucket grows, so does the sum. */
  lemma {:induction false} SumGrows(f: int -> Bucket, g: int -> Bucket, day: int, delta: Bucket, from: int, to: int)
    requires from <= day <= to && g(day) == f(day).Plus(delta)
    requires forall d: int :: from <= d <= to && d != day ==> g(d) == f(d)
    ensures SumRange(g, from, to) == SumRange(f, from, to).Plus(delta)
    decreases if from > to then 0 else to - from + 1
  {
    if day == to {
      SumSame(f, g, from, to - 1);
    } else {
      SumGrows(f, g, day, delta, from, to - 1);
    }
  }

  predicate NeverCleared(log: seq<Event>) { forall e :: e in log ==> e.Took? }

  /** Counting from an instant is counting from its day, for these calls. */
  predicate Aligned(z: Zone, log: seq<Event>, from: int) {
    forall e :: e in log && e.Took? ==> (e.at >= from <==> DayOf(z, e.at) >= DayOf(z, from))
  }

  predicate NoneAfter(z: Zone, log: seq<Event>, today: int) { forall e :: e in log && e.Took? ==> DayOf(z, e.at) <= today }

  lemma BucketBooked(models: Models, model: string, delta: Bucket, m: string)
    ensures BucketOf(Booked(models, model, delta), m) == if m == model then BucketOf(models, m).Plus(delta) else BucketOf(models, m)
  {}

  lemma {:induction false} NoCalls(f: int -> Bucket, from: int, to: int)
    requires forall d: int :: from <= d <= to ==> f(d) == NOTHING
    ensures SumRange(f, from, to) == NOTHING
    decreases if from > to then 0 else to - from + 1
  {
    if from <= to {
      NoCalls(f, from, to - 1);
    }
  }

  /** The bucket counted from an instant is the sum over the days. */
  lemma {:induction false} CountIsDaySum(z: Zone, log: seq<Event>, w: Window, from: int, today: int, model: string)
    requires NeverCleared(log) && Aligned(z, log, from) && NoneAfter(z, log, today)
    ensures BucketOf(Counted(log, w, from), model) == SumRange(DayBuckets(z, log, model), DayOf(z, from), today)
    decreases |log|
  {
    hide DayOf, Booked, BucketOf;
    var f := DayBuckets(z, log, model);
    if log == [] {
      NothingBooked(model);
      forall d: int | DayOf(z, from) <= d <= today ensures f(d) == NOTHING {}
      NoCalls(f, DayOf(z, from), today);
    } else {
      var e, earlier := log[|log| - 1], log[..|log| - 1];
      assert e in log && e.Took?;
      CountIsDaySum(z, earlier, w, from, today, model);
      var g, day := DayBuckets(z, earlier, model), DayOf(z, e.at);
      BucketBooked(Counted(earlier, w, from), e.model, e.delta, model);
      BucketBooked(OnDay(z, earlier, day), e.model, e.delta, model);
      forall d: int | d != day ensures f(d) == g(d) {}
      if e.at >= from && e.model == model {
        SumGrows(g, f, day, e.delta, DayOf(z, from), today);
      } else {
        forall d: int | DayOf(z, from) <= d <= today ensures f(d) == g(d) {}
        SumSame(f, g, DayOf(z, from), today);
      }
    }
  }

  lemma NothingBooked(model: string)
    ensures BucketOf(map[], model) == NOTHING
  {}

  // The days of the ledger.

  /** The history file cannot have closed today. */
  predicate TodayOpen(z: Zone, w: World, clock: int) {
    w.l.closedThrough.AtMost(Through(DayOf(z, clock) - 1)) && w.horizon <= Oldest(z, clock)
  }

  ghost predicate DaysLogged(z: Zone, w: World, key: string, log: seq<Event>) {
    forall d: int :: d >= w.horizon ==> w.l.On(key, d) == OnDay(z, log, d)
  }

  /** A period starts with a day, or no later than the key. */
  predicate StartsDay(z: Zone, c: Cycle, createdAt: int) { c.startedAt == z(DayOf(z, c.startedAt)) || c.startedAt <= createdAt }

  ghost predicate AllStartDays(z: Zone, cs: CycleSet, createdAt: int) { forall w: Window :: StartsDay(z, cs.Of(w), createdAt) }

  predicate SinceCreation(log: seq<Event>, createdAt: int) { forall e :: e in log && e.Took? ==> e.at >= createdAt }

  /** A journaled call of the key was made while it existed, on a day that is
      still open. */
  predicate OnOwnDay(z: Zone, w: World, s: Step, key: string, createdAt: int) {
    s.Replay? && s.id == key ==> createdAt <= TakenAt(s) && !w.l.closedThrough.Covers(DayOf(z, TakenAt(s)))
  }

  /** A step that leaves the key's history and its periods comparable. */
  predicate Comparable(z: Zone, w: World, s: Step, key: string, createdAt: int) {
    OnOwnDay(z, w, s, key, createdAt) && !(ResetDone(z, w, s) && s.id == key)
  }

  ghost predicate Fresh(z: Zone, w: World, key: string, log: seq<Event>, createdAt: int, clock: int) {
    && Inv(w) && KeyIndexed(z, w, key, log, clock) && TodayOpen(z, w, clock) && DaysLogged(z, w, key, log)
    && NeverCleared(log) && SinceCreation(log, createdAt) && createdAt <= clock
    && AllStartDays(z, w.l.Entry(key).cycles.value, createdAt)
  }

  lemma StartsDayRolled(z: Zone, w: Window, c: Cycle, createdAt: int, now: int)
    requires Valid(z, w, c) && StartsDay(z, c, createdAt)
    ensures StartsDay(z, Advanced(z, w, c, now), createdAt)
  {
    hide DayOf, Advanced;
    AdvancedShape(z, w, c, now);
    if now >= c.resetsAt {
      StartsAtDeadline(z, w, c, now);
    }
  }

  lemma StepStartDays(z: Zone, w: World, s: Step, key: string, log: seq<Event>, createdAt: int, clock: int)
    requires KeyIndexed(z, w, key, log, clock) && w.l.Entry(key).cycles.Some? && AllStartDays(z, w.l.Entry(key).cycles.value, createdAt)
    requires Enabled(z, w, s) && Steady(s, key, clock) && !(ResetDone(z, w, s) && s.id == key)
    ensures Next(z, w, s).l.Entry(key).cycles.Some? && AllStartDays(z, Next(z, w, s).l.Entry(key).cycles.value, createdAt)
  {
    hide *;
    IndexedParts(z, w, key, log, clock);
    StepCycles(z, w, s, key, clock);
    AfterStartDays(z, w, s, key, createdAt, clock);
  }

  lemma IndexedParts(z: Zone, w: World, key: string, log: seq<Event>, clock: int)
    requires KeyIndexed(z, w, key, log, clock)
    ensures w.l.Entry(key).cycles.Some? && AllValid(z, w.l.Entry(key).cycles.value)
  {}

  lemma AfterStartDays(z: Zone, w: World, s: Step, key: string, createdAt: int, clock: int)
    requires w.l.Entry(key).cycles.Some? && AllValid(z, w.l.Entry(key).cycles.value)
    requires AllStartDays(z, w.l.Entry(key).cycles.value, createdAt) && Steady(s, key, clock) && !(ResetDone(z, w, s) && s.id == key)
    ensures AllStartDays(z, CyclesAfter(z, w, s, key, w.l.Entry(key).cycles.value), createdAt)
  {
    hide AllAdvanced, ResetWindow, BookedAll, BookedAllSince, AllStartDays, AllValid, Valid;
    var cs, now := w.l.Entry(key).cycles.value, ClockAfter(s, clock);
    AllRolledStartDays(z, cs, createdAt, now);
    if s.Bill? || s.Replay? {
      BookedStartDays(z, AllAdvanced(z, cs, now), createdAt, s.model, s.delta, TakenAt(s));
    }
  }

  lemma AllRolledStartDays(z: Zone, cs: CycleSet, createdAt: int, now: int)
    requires AllValid(z, cs) && AllStartDays(z, cs, createdAt)
    ensures AllStartDays(z, AllAdvanced(z, cs, now), createdAt)
  {
    hide Advanced, Valid, StartsDay;
    AllAdvancedIsValid(z, cs, now);
    forall w: Window ensures StartsDay(z, AllAdvanced(z, cs, now).Of(w), createdAt) {
      StartsDayRolled(z, w, cs.Of(w), createdAt, now);
      assert AllAdvanced(z, cs, now).Of(w) == Advanced(z, w, cs.Of(w), now);
    }
  }

  lemma BookedStartDays(z: Zone, cs: CycleSet, createdAt: int, model: string, delta: Bucket, at: int)
    requires AllStartDays(z, cs, createdAt)
    ensures AllStartDays(z, BookedAll(cs, model, delta), createdAt) && AllStartDays(z, BookedAllSince(cs, model, delta, at), createdAt)
  {
    hide DayOf, Booked;
    forall w: Window
      ensures StartsDay(z, BookedAll(cs, model, delta).Of(w), createdAt) && StartsDay(z, BookedAllSince(cs, model, delta, at).Of(w), createdAt)
    {
      assert BookedAll(cs, model, delta).Of(w).startedAt == cs.Of(w).startedAt == BookedAllSince(cs, model, delta, at).Of(w).startedAt;
      assert StartsDay(z, cs.Of(w), createdAt);
    }
  }

  lemma BeginOpen(z: Zone, w: World, now: int, clock: int)
    requires Inv(w) && TodayOpen(z, w, clock) && clock <= now && w.phase.Idle?
    ensures TodayOpen(z, Next(z, w, Begin(now)), now)
  {
    hide Evicted, RolledEntries, NeedsHistory, LiveSnapshot, HistorySnapshot, PlanStands, SnapshotOf, HistoryAgrees, DayOf;
    DaysInOrder(z, clock, now);
    EvictedMarks(z, w.l, now);
    RolledEntriesDays(z, Evicted(z, w.l, now), now);
  }

  lemma StepOpen(z: Zone, w: World, s: Step, key: string, clock: int)
    requires Inv(w) && TodayOpen(z, w, clock) && Enabled(z, w, s) && Steady(s, key, clock)
    ensures TodayOpen(z, Next(z, w, s), ClockAfter(s, clock))
  {
    hide Inv, Worked, ResetWindow, AdjustBalance, PlanFlush, MarkFlushed, DayOf, LiveFileOf, LiveSnapshot;
    DaysInOrder(z, clock, ClockAfter(s, clock));
    match s
    case Begin(now) => BeginOpen(z, w, now, clock);
    case Reset(id, window, expected, now, outcome) => AttemptDays(z, w.l, id, window, expected, now, outcome);
    case Adjust(id, amount, request, outcome) => AdjustDays(w.l, id, amount, request, outcome);
    case Finish => FinishMarks(w);
    case WriteHistory(outcome) =>
    case WriteLive(outcome) =>
    case _ => ClosedDaysStay(z, w, s);
  }

  lemma FinishMarks(w: World)
    requires w.phase.LiveEnded?
    ensures MarkFlushed(w.l, w.phase.plan, w.phase.written, w.phase.liveWritten).closedThrough == w.l.closedThrough
    ensures MarkFlushed(w.l, w.phase.plan, w.phase.written, w.phase.liveWritten).entries == w.l.entries
  {}

  /** A call made now is booked on its own day. */
  lemma BillDays(z: Zone, w: World, s: Step, key: string, log: seq<Event>, clock: int)
    requires s.Bill? && DaysLogged(z, w, key, log) && TodayOpen(z, w, clock) && clock <= s.now
    ensures DaysLogged(z, Next(z, w, s), key, LogAfter(z, w, s, key, log))
  {
    hide DayOf, Evicted, Charged, Booked;
    var day := DayOf(z, s.now);
    DaysInOrder(z, clock, s.now);
    assert OpenDate(z, w.l, s.now) == day;
    var u := Charged(z, w.l.Entry(s.id), s.model, s.delta, s.deduct, s.now);
    ChargedDays(z, w.l.Entry(s.id), s.model, s.delta, s.deduct, s.now, s.now);
    var booked := w.l.Put(s.id, OnDate(u, day, s.model, s.delta));
    BookedElsewhere(w.l, s.id, u, day, s.model, s.delta);
    EvictedKeeps(z, booked, s.now);
    var after, longer := Next(z, w, s), log + [Took(s.model, s.delta, s.now)];
    assert longer[..|longer| - 1] == log;
    forall d: int | d >= after.horizon ensures after.l.On(key, d) == OnDay(z, LogAfter(z, w, s, key, log), d) {
      assert after.l.On(key, d) == booked.On(key, d);
      assert w.l.On(key, d) == OnDay(z, log, d);
    }
  }

  /** A journaled call is booked on the day it was made. */
  lemma ReplayDays(z: Zone, w: World, s: Step, key: string, log: seq<Event>, createdAt: int)
    requires s.Replay? && DaysLogged(z, w, key, log) && OnOwnDay(z, w, s, key, createdAt)
    ensures DaysLogged(z, Next(z, w, s), key, LogAfter(z, w, s, key, log))
  {
    hide DayOf, Evicted, ChargedSince, Booked;
    var t := TakenAt(s);
    var date := OpenDate(z, w.l, t);
    var u := ChargedSince(z, w.l.Entry(s.id), s.model, s.delta, s.deduct, t, s.now);
    ChargedDays(z, w.l.Entry(s.id), s.model, s.delta, s.deduct, t, s.now);
    var booked := w.l.Put(s.id, OnDate(u, date, s.model, s.delta));
    BookedElsewhere(w.l, s.id, u, date, s.model, s.delta);
    EvictedKeeps(z, booked, s.now);
    var after, longer := Next(z, w, s), log + [Took(s.model, s.delta, t)];
    assert longer[..|longer| - 1] == log;
    forall d: int | d >= after.horizon ensures after.l.On(key, d) == OnDay(z, LogAfter(z, w, s, key, log), d) {
      assert after.l.On(key, d) == booked.On(key, d);
      assert w.l.On(key, d) == OnDay(z, log, d);
    }
  }

  lemma OtherDays(z: Zone, w: World, s: Step, key: string, log: seq<Event>, clock: int)
    requires !s.Bill? && !s.Replay? && DaysLogged(z, w, key, log) && Enabled(z, w, s) && Steady(s, key, clock)
    requires !(ResetDone(z, w, s) && s.id == key)
    ensures DaysLogged(z, Next(z, w, s), key, LogAfter(z, w, s, key, log))
  {
    hide DayOf, Evicted, RolledEntries, Read, ResetWindow, AdjustBalance, LiveFileOf, LiveSnapshot, HistorySnapshot, NeedsHistory, OnDay,
      Ledger.On, Oldest, Synced, Forgotten;
    match s
    case Sync(keys, now) => SyncedDays(z, w.l, keys, now);
    case Forget(id) => ForgottenDays(w.l, id);
    case Tidy(now) => EvictedKeeps(z, w.l, now);
    case Look(id, now) => ReadDays(z, w.l, id, now);
    case Reset(id, window, expected, now, outcome) => AttemptDays(z, w.l, id, window, expected, now, outcome);
    case Adjust(id, amount, request, outcome) => AdjustDays(w.l, id, amount, request, outcome);
    case Begin(now) =>
      var l := RolledEntries(z, Evicted(z, w.l, now), now);
      EvictedKeeps(z, w.l, now);
      RolledEntriesDays(z, Evicted(z, w.l, now), now);
      PlannedShape(z, w.l, now, l);
      SameEntriesSameDays(PlanFlush(z, w.l, now).ledger, l);
    case Finish =>
      FinishMarks(w);
      SameEntriesSameDays(Next(z, w, s).l, w.l);
    case WriteHistory(_) =>
    case WriteLive(_) =>
  }

  lemma LogGrows(z: Zone, w: World, s: Step, key: string, log: seq<Event>, createdAt: int, clock: int)
    requires NeverCleared(log) && SinceCreation(log, createdAt) && createdAt <= clock && Steady(s, key, clock) && Comparable(z, w, s, key, createdAt)
    ensures NeverCleared(LogAfter(z, w, s, key, log)) && SinceCreation(LogAfter(z, w, s, key, log), createdAt)
    ensures createdAt <= ClockAfter(s, clock)
  {
    hide ResetWindow, DayOf;
  }

  lemma StepKeepsFresh(z: Zone, w: World, s: Step, key: string, log: seq<Event>, createdAt: int, clock: int)
    requires Fresh(z, w, key, log, createdAt, clock) && Enabled(z, w, s) && Steady(s, key, clock) && Comparable(z, w, s, key, createdAt)
    ensures Fresh(z, Next(z, w, s), key, LogAfter(z, w, s, key, log), createdAt, ClockAfter(s, clock))
  {
    hide Inv, KeyIndexed, TodayOpen, DaysLogged, AllStartDays, Next, Enabled, ResetWindow, LogAfter, SinceCreation, NeverCleared, OnOwnDay;
    StepKeepsInv(z, w, s);
    StepKeepsIndex(z, w, s, key, log, clock);
    StepOpen(z, w, s, key, clock);
    LogGrows(z, w, s, key, log, createdAt, clock);
    if s.Bill? {
      BillDays(z, w, s, key, log, clock);
    } else if s.Replay? {
      ReplayDays(z, w, s, key, log, createdAt);
    } else {
      OtherDays(z, w, s, key, log, clock);
    }
    assert w.l.Entry(key).cycles.Some? by { IndexedHasCycles(z, w, key, log, clock); }
    StepStartDays(z, w, s, key, log, createdAt, clock);
  }

  lemma IndexedHasCycles(z: Zone, w: World, key: string, log: seq<Event>, clock: int)
    requires KeyIndexed(z, w, key, log, clock)
    ensures w.l.Entry(key).cycles.Some?
  {}

  /** Looked at now, each period of a fresh key is the sum of its day buckets
      from the period's first day to today, for every model. */
  lemma PeriodIsDaySum(z: Zone, w: World, key: string, log: seq<Event>, createdAt: int, clock: int, window: Window, model: string)
    requires Fresh(z, w, key, log, createdAt, clock)
    ensures var c := AllAdvanced(z, w.l.Entry(key).cycles.value, clock).Of(window);
      BucketOf(c.byModel, model) == SumRange(LedgerBuckets(w.l, key, model), DayOf(z, c.startedAt), DayOf(z, clock))
  {
    hide Inv, AllAdvanced, OnDay, Counted, Before, Ledger.On, DayOf, BucketOf, Valid;
    var cs := w.l.Entry(key).cycles.value;
    var r := AllAdvanced(z, cs, clock);
    var c, today := r.Of(window), DayOf(z, clock);
    IndexRolled(z, cs, log, clock, clock);
    AllRolledStartDays(z, cs, createdAt, clock);
    LogAligned(z, c, log, createdAt, clock);
    CountIsDaySum(z, log, window, c.startedAt, today, model);
    FirstDayKept(z, window, c, clock);
    var f, g := LedgerBuckets(w.l, key, model), DayBuckets(z, log, model);
    forall d: int | DayOf(z, c.startedAt) <= d <= today ensures f(d) == g(d) {
      assert w.l.On(key, d) == OnDay(z, log, d);
    }
    SumSame(f, g, DayOf(z, c.startedAt), today);
  }

  lemma LogAligned(z: Zone, c: Cycle, log: seq<Event>, createdAt: int, clock: int)
    requires StartsDay(z, c, createdAt) && SinceCreation(log, createdAt) && Before(log, clock + 1)
    ensures Aligned(z, log, c.startedAt) && NoneAfter(z, log, DayOf(z, clock))
  {
    hide DayOf, Increasing;
    forall e | e in log && e.Took?
      ensures (e.at >= c.startedAt <==> DayOf(z, e.at) >= DayOf(z, c.startedAt)) && DayOf(z, e.at) <= DayOf(z, clock)
    {
      AfterStart(z, e.at, DayOf(z, c.startedAt));
      DaysInOrder(z, e.at, clock);
      if e.at >= c.startedAt {
        DaysInOrder(z, c.startedAt, e.at);
      }
    }
  }

  /** A current period is shorter than retention. */
  lemma FirstDayKept(z: Zone, w: Window, c: Cycle, now: int)
    requires Valid(z, w, c) && now < c.resetsAt
    ensures DayOf(z, c.startedAt) >= Oldest(z, now)
  {
    hide DayOf, Increasing;
    AfterStart(z, now, DayOf(z, c.startedAt) + w.Days());
  }

  lemma OpenedStartDays(z: Zone, createdAt: int)
    ensures AllValid(z, Opened(z, createdAt, Initial)) && AllStartDays(z, Opened(z, createdAt, Initial), createdAt)
  {
    hide Opened, Valid, DayOf;
    OpenedIsValid(z, createdAt, Initial);
  }

  lemma OpenedFresh(z: Zone, w: World, key: string, createdAt: int, clock: int)
    requires Inv(w) && JustOpened(z, w, key, createdAt, clock) && TodayOpen(z, w, clock)
    requires forall d: int :: d >= w.horizon ==> w.l.On(key, d) == map[]
    ensures Fresh(z, w, key, [], createdAt, clock)
  {
    hide Inv, TodayOpen, AllAdvanced, Opened, DayOf, StartsDay;
    OpenedIndex(z, w, key, createdAt, clock);
    OpenedStartDays(z, createdAt);
    AllRolledStartDays(z, Opened(z, createdAt, Initial), createdAt, clock);
    forall d: int | d >= w.horizon ensures w.l.On(key, d) == OnDay(z, [], d) {}
  }

  lemma {:induction false} StaysFresh(z: Zone, run: seq<World>, steps: seq<Step>, clocks: seq<int>, key: string, logs: seq<seq<Event>>, createdAt: int, i: nat)
    requires IsSteadyRun(z, run, steps, clocks, key, logs) && i < |run| && logs[0] == []
    requires Inv(run[0]) && JustOpened(z, run[0], key, createdAt, clocks[0]) && TodayOpen(z, run[0], clocks[0])
    requires forall d: int :: d >= run[0].horizon ==> run[0].l.On(key, d) == map[]
    requires forall k :: 0 <= k < |steps| ==> Comparable(z, run[k], steps[k], key, createdAt)
    ensures Fresh(z, run[i], key, logs[i], createdAt, clocks[i])
  {
    hide Next, Enabled, Steady, LogAfter, ClockAfter, JustOpened, Inv, TodayOpen, Fresh, Comparable, Ledger.On;
    if i == 0 {
      OpenedFresh(z, run[0], key, createdAt, clocks[0]);
    } else {
      StaysFresh(z, run, steps, clocks, key, logs, createdAt, i - 1);
      var k := i - 1;
      assert Enabled(z, run[k], steps[k]) && run[k + 1] == Next(z, run[k], steps[k]);
      assert Comparable(z, run[k], steps[k], key, createdAt);
      StepKeepsFresh(z, run[k], steps[k], key, logs[k], createdAt, clocks[k]);
    }
  }

  /** At every point of every steady run that starts with the key's
      registration, never resets it by hand and books its journaled calls on
      their own day, each of its periods, looked at then, is for every model the sum of its day buckets from the period's
      first day to today. */
  lemma PeriodsAreDaySums(z: Zone, run: seq<World>, steps: seq<Step>, clocks: seq<int>, key: string, logs: seq<seq<Event>>, createdAt: int, i: nat)
    requires IsSteadyRun(z, run, steps, clocks, key, logs) && i < |run| && logs[0] == []
    requires Inv(run[0]) && JustOpened(z, run[0], key, createdAt, clocks[0]) && TodayOpen(z, run[0], clocks[0])
    requires forall d: int :: d >= run[0].horizon ==> run[0].l.On(key, d) == map[]
    requires forall k :: 0 <= k < |steps| ==> Comparable(z, run[k], steps[k], key, createdAt)
    ensures run[i].l.Entry(key).cycles.Some?
    ensures forall window: Window, model ::
      var c := AllAdvanced(z, run[i].l.Entry(key).cycles.value, clocks[i]).Of(window);
      BucketOf(c.byModel, model) == SumRange(LedgerBuckets(run[i].l, key, model), DayOf(z, c.startedAt), DayOf(z, clocks[i]))
  {
    hide Next, Enabled, Steady, LogAfter, ClockAfter, JustOpened, Inv, TodayOpen, Fresh, Comparable, Ledger.On, AllAdvanced, SumRange,
      LedgerBuckets, DayOf, BucketOf;
    StaysFresh(z, run, steps, clocks, key, logs, createdAt, i);
    FreshHasCycles(z, run[i], key, logs[i], createdAt, clocks[i]);
    forall window: Window, model
      ensures var c := AllAdvanced(z, run[i].l.Entry(key).cycles.value, clocks[i]).Of(window);
        BucketOf(c.byModel, model) == SumRange(LedgerBuckets(run[i].l, key, model), DayOf(z, c.startedAt), DayOf(z, clocks[i]))
    {
      PeriodIsDaySum(z, run[i], key, logs[i], createdAt, clocks[i], window, model);
    }
  }

  lemma FreshHasCycles(z: Zone, w: World, key: string, log: seq<Event>, createdAt: int, clock: int)
    requires Fresh(z, w, key, log, createdAt, clock)
    ensures w.l.Entry(key).cycles.Some?
  {
    hide Inv;
  }
}
