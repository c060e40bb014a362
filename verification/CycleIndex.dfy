/** Quota periods as a running index of what was billed: over every run of
    calls, journaled calls, registrations, reads, flushes, resets and
    adjustments on a clock that never goes back, each period holds exactly the
    calls made since it started. */
module CycleIndex {
  import opened Bytes
  import opened Calendar
  import opened Usage
  import opened Cycles
  import opened Ledger
  import opened Flush

  /** What happened to one key: a billed call, or a period reset by hand. */
  datatype Event = Took(model: string, delta: Bucket, at: int) | Cleared(window: Window)

  /** The calls since the window's last reset by hand made at `from` or later,
      by model. */
  function Counted(log: seq<Event>, w: Window, from: int): Models {
    if log == [] then map[]
    else
      var earlier := Counted(log[..|log| - 1], w, from);
      match log[|log| - 1]
      case Took(model, delta, at) => if at >= from then Booked(earlier, model, delta) else earlier
      case Cleared(window) => if window == w then map[] else earlier
  }

  /** Times move forward, and the steps are those of one running instance that
      knows the key. */
  predicate Steady(s: Step, key: string, clock: int) {
    match s
    case Bill(_, _, _, _, now) => clock <= now
    case Replay(_, _, _, _, _, now) => clock <= now
    case Sync(keys, now) => clock <= now && exists k :: k in keys && k.id == key
    case Forget(id) => id != key
    case Tidy(now) => clock <= now
    case Look(_, now) => clock <= now
    case Reset(_, _, _, now, _) => clock <= now
    case Begin(now) => clock <= now
    case Adjust(_, _, _, _) => true
    case WriteHistory(_) => true
    case WriteLive(_) => true
    case Finish => true
    case _ => false
  }

  function ClockAfter(s: Step, clock: int): int {
    match s
    case Bill(_, _, _, _, now) => now
    case Replay(_, _, _, _, _, now) => now
    case Sync(_, now) => now
    case Tidy(now) => now
    case Look(_, now) => now
    case Reset(_, _, _, now, _) => now
    case Begin(now) => now
    case _ => clock
  }

  /** The reset by hand went through. */
  predicate ResetDone(z: Zone, w: World, s: Step) {
    s.Reset? && s.outcome.Written? && ResetWindow(z, w.l, s.id, s.window, s.expected, s.now).Persisting?
  }

  /** When a call counts as made. */
  function TakenAt(s: Step): int
    requires s.Bill? || s.Replay?
  {
    if s.Bill? then s.now else BookedAt(s.at, s.now)
  }

  function LogAfter(z: Zone, w: World, s: Step, key: string, log: seq<Event>): seq<Event> {
    if (s.Bill? || s.Replay?) && s.id == key then log + [Took(s.model, s.delta, TakenAt(s))]
    else if ResetDone(z, w, s) && s.id == key then log + [Cleared(s.window)]
    else log
  }

  /** What a step makes of the key's periods. */
  function CyclesAfter(z: Zone, w: World, s: Step, key: string, cs: CycleSet): CycleSet {
    match s
    case Bill(id, model, delta, _, now) => if id == key then BookedAll(AllAdvanced(z, cs, now), model, delta) else cs
    case Replay(id, model, delta, _, at, now) =>
      if id == key then BookedAllSince(AllAdvanced(z, cs, now), model, delta, BookedAt(at, now)) else cs
    case Sync(_, now) => AllAdvanced(z, cs, now)
    case Look(id, now) => if id == key then AllAdvanced(z, cs, now) else cs
    case Begin(now) => AllAdvanced(z, cs, now)
    case Reset(id, window, _, now, _) =>
      if id != key then cs
      else
        var rolled := AllAdvanced(z, cs, now);
        if ResetDone(z, w, s) then rolled.With(window, ResetByHand(z, window, now)) else rolled
    case _ => cs
  }

  lemma RolledUsage(z: Zone, u: KeyUsage, now: int)
    ensures u.cycles.Some? ==> RolledEntry(z, u, now).cycles == Some(AllAdvanced(z, u.cycles.value, now))
    ensures !Expired(u, now) ==> RolledEntry(z, u, now) == u
  {
    hide DayOf;
  }

  lemma ReadCycles(z: Zone, l: Ledger, id: string, now: int, key: string)
    requires l.Entry(key).cycles.Some?
    ensures Read(z, l, id, now).Entry(key).cycles ==
            if id == key then Some(AllAdvanced(z, l.Entry(key).cycles.value, now)) else l.Entry(key).cycles
  {
    hide AllAdvanced, Expired, RolledEntry;
    if id == key {
      RolledUsage(z, l.Entry(key), now);
    }
  }

  lemma RolledAllCycles(z: Zone, l: Ledger, now: int, key: string)
    requires l.Entry(key).cycles.Some?
    ensures RolledEntries(z, l, now).Entry(key).cycles == Some(AllAdvanced(z, l.Entry(key).cycles.value, now))
  {
    hide AllAdvanced, Expired, RolledEntry;
    RolledUsage(z, l.Entry(key), now);
  }

  lemma BillCycles(z: Zone, l: Ledger, s: Step, key: string)
    requires s.Bill? && l.Entry(key).cycles.Some?
    ensures Worked(z, l, s).Entry(key).cycles ==
            if s.id == key then Some(BookedAll(AllAdvanced(z, l.Entry(key).cycles.value, s.now), s.model, s.delta)) else l.Entry(key).cycles
  {
    hide AllAdvanced, BookedAll, Evicted, OpenDate, BookedOn;
    var u := OnDate(Charged(z, l.Entry(s.id), s.model, s.delta, s.deduct, s.now), OpenDate(z, l, s.now), s.model, s.delta);
    EvictedPeriods(z, l.Put(s.id, u), s.now, key);
  }

  lemma ReplayCycles(z: Zone, l: Ledger, s: Step, key: string)
    requires s.Replay? && l.Entry(key).cycles.Some?
    ensures Worked(z, l, s).Entry(key).cycles ==
            if s.id == key then Some(BookedAllSince(AllAdvanced(z, l.Entry(key).cycles.value, s.now), s.model, s.delta, TakenAt(s)))
            else l.Entry(key).cycles
  {
    hide AllAdvanced, BookedAllSince, Evicted, OpenDate, BookedOn;
    var t := TakenAt(s);
    var u := OnDate(ChargedSince(z, l.Entry(s.id), s.model, s.delta, s.deduct, t, s.now), OpenDate(z, l, t), s.model, s.delta);
    EvictedPeriods(z, l.Put(s.id, u), s.now, key);
  }

  lemma AdvancedIsCurrent(z: Zone, w: Window, c: Cycle, now: int)
    ensures now < Advanced(z, w, c, now).resetsAt
  {
    hide DayOf, Increasing;
    PeriodsBound(z, DayOf(z, c.resetsAt), w.Days(), now, Periods(z, DayOf(z, c.resetsAt), w.Days(), now));
  }

  /** Rolling again at the same instant changes nothing. */
  lemma RolledTwice(z: Zone, cs: CycleSet, now: int)
    ensures !AnyExpired(AllAdvanced(z, cs, now), now) && AllAdvanced(z, AllAdvanced(z, cs, now), now) == AllAdvanced(z, cs, now)
  {
    hide Advanced;
    forall w: Window ensures now < Advanced(z, w, cs.Of(w), now).resetsAt {
      AdvancedIsCurrent(z, w, cs.Of(w), now);
    }
    var r := AllAdvanced(z, cs, now);
    assert r.daily == Advanced(z, Daily, cs.Of(Daily), now) && r.weekly == Advanced(z, Weekly, cs.Of(Weekly), now)
      && r.monthly == Advanced(z, Monthly, cs.Of(Monthly), now);
    AdvancedShape(z, Daily, r.daily, now);
    AdvancedShape(z, Weekly, r.weekly, now);
    AdvancedShape(z, Monthly, r.monthly, now);
  }

  lemma WithCyclesRolls(z: Zone, l: Ledger, k: Key, now: int, key: string)
    requires l.Entry(key).cycles.Some?
    ensures WithCycles(z, l, k.id, k.createdAt, now).Entry(key).cycles ==
            if k.id == key then Some(AllAdvanced(z, l.Entry(key).cycles.value, now)) else l.Entry(key).cycles
  {
    hide AllAdvanced, Opened, Expired, RolledEntry;
    RolledUsage(z, l.Entry(key), now);
  }

  /** Registration rolls the periods of a key that has some. */
  lemma {:induction false} WithAllCyclesRolls(z: Zone, l: Ledger, keys: seq<Key>, now: int, key: string)
    requires l.Entry(key).cycles.Some?
    ensures WithAllCycles(z, l, keys, now).Entry(key).cycles ==
            if exists k :: k in keys && k.id == key then Some(AllAdvanced(z, l.Entry(key).cycles.value, now)) else l.Entry(key).cycles
    decreases |keys|
  {
    hide WithCycles, AllAdvanced, AnyExpired, Ledger.Entry;
    if keys != [] {
      var earlier, last := keys[..|keys| - 1], keys[|keys| - 1];
      assert keys == earlier + [last];
      WithAllCyclesRolls(z, l, earlier, now, key);
      WithCyclesRolls(z, WithAllCycles(z, l, earlier, now), last, now, key);
      RolledTwice(z, l.Entry(key).cycles.value, now);
    }
  }

  lemma SyncCycles(z: Zone, l: Ledger, keys: seq<Key>, now: int, key: string)
    requires l.Entry(key).cycles.Some? && exists k :: k in keys && k.id == key
    ensures Synced(z, l, keys, now).Entry(key).cycles == Some(AllAdvanced(z, l.Entry(key).cycles.value, now))
  {
    hide WithAllCycles, AllAdvanced;
    WithAllCyclesRolls(z, l, keys, now, key);
    var k :| k in keys && k.id == key;
    KnownStays(WithAllCycles(z, l, keys, now), set k | k in keys :: k.id, key);
  }

  lemma KnownStays(l: Ledger, known: set<string>, key: string)
    requires key in known
    ensures OnlyKnown(l, known).Entry(key).cycles == l.Entry(key).cycles
  {}

  lemma ForgetCycles(l: Ledger, id: string, key: string)
    requires id != key
    ensures Forgotten(l, id).Entry(key) == l.Entry(key)
  {}

  lemma ResetCycles(z: Zone, w: World, s: Step, key: string)
    requires s.Reset? && w.phase.Idle? && w.l.Entry(key).cycles.Some?
    ensures Next(z, w, s).l.Entry(key).cycles == Some(CyclesAfter(z, w, s, key, w.l.Entry(key).cycles.value))
  {
    hide AllAdvanced, Read, ResetByHand, LiveFileOf, LiveSnapshot;
    ReadCycles(z, w.l, s.id, s.now, key);
    if w.l.Entry(s.id).cycles.None? {
      ReadNothing(z, w.l, s.id, s.now);
    } else {
      ReadCycles(z, w.l, s.id, s.now, s.id);
    }
  }

  lemma ReadNothing(z: Zone, l: Ledger, id: string, now: int)
    requires l.Entry(id).cycles.None?
    ensures Read(z, l, id, now) == l
  {}

  /** Every step does to the key's periods what CyclesAfter says. */
  lemma StepCycles(z: Zone, w: World, s: Step, key: string, clock: int)
    requires Enabled(z, w, s) && Steady(s, key, clock) && w.l.Entry(key).cycles.Some?
    ensures Next(z, w, s).l.Entry(key).cycles == Some(CyclesAfter(z, w, s, key, w.l.Entry(key).cycles.value))
  {
    hide AllAdvanced, BookedAll, Evicted, RolledEntries, Read, ResetWindow, AdjustBalance, LiveFileOf, LiveSnapshot, HistorySnapshot,
      NeedsHistory, Recorded, Replayed, Synced, Forgotten, BookedAllSince, DayOf;
    match s
    case Bill(id, model, delta, deduct, now) => BillCycles(z, w.l, s, key);
    case Replay(id, model, delta, deduct, at, now) => ReplayCycles(z, w.l, s, key);
    case Sync(keys, now) => SyncCycles(z, w.l, keys, now, key);
    case Forget(id) => ForgetCycles(w.l, id, key);
    case Tidy(now) => EvictedPeriods(z, w.l, now, key);
    case Look(id, now) => ReadCycles(z, w.l, id, now, key);
    case Begin(now) =>
      EvictedPeriods(z, w.l, now, key);
      RolledAllCycles(z, Evicted(z, w.l, now), now, key);
      PlannedShape(z, w.l, now, RolledEntries(z, Evicted(z, w.l, now), now));
      SameEntriesSameDays(PlanFlush(z, w.l, now).ledger, RolledEntries(z, Evicted(z, w.l, now), now));
    case Reset(id, window, expected, now, outcome) => ResetCycles(z, w, s, key);
    case Adjust(id, amount, request, outcome) => AdjustCycles(w, s, key);
    case _ =>
  }

  lemma AdjustCycles(w: World, s: Step, key: string)
    requires s.Adjust?
    ensures AdjustBalance(w.l, s.id, s.amount, s.request).Ended(s.outcome).Entry(key).cycles == w.l.Entry(key).cycles
  {
    hide Adjusted, Earlier;
  }

  // The index.

  /** All calls are before the deadline, and the period holds those since it
      started. */
  ghost predicate Indexed(z: Zone, cs: CycleSet, log: seq<Event>, clock: int) {
    && AllValid(z, cs)
    && forall w: Window ::
         && cs.Of(w).startedAt <= clock && cs.Of(w).byModel == Counted(log, w, cs.Of(w).startedAt)
         && Before(log, cs.Of(w).resetsAt)
  }

  /** Every call was made before an instant. */
  predicate Before(log: seq<Event>, end: int) { forall e :: e in log && e.Took? ==> e.at < end }

  lemma {:induction false} NoneSince(log: seq<Event>, w: Window, from: int)
    requires Before(log, from)
    ensures Counted(log, w, from) == map[]
  {
    hide Booked;
    if log != [] {
      assert log[|log| - 1] in log;
      NoneSince(log[..|log| - 1], w, from);
    }
  }

  lemma LaterEnd(log: seq<Event>, a: int, b: int)
    requires Before(log, a) && a <= b
    ensures Before(log, b)
  {}

  lemma WindowRolled(z: Zone, w: Window, c: Cycle, log: seq<Event>, clock: int, now: int)
    requires Valid(z, w, c) && c.startedAt <= clock <= now && c.byModel == Counted(log, w, c.startedAt) && Before(log, c.resetsAt)
    ensures var r := Advanced(z, w, c, now);
      && Valid(z, w, r) && r.startedAt <= now < r.resetsAt && r.byModel == Counted(log, w, r.startedAt) && Before(log, r.resetsAt)
  {
    hide DayOf, Valid, Advanced, Before, Counted;
    var r := Advanced(z, w, c, now);
    AdvancedIsValid(z, w, c, now);
    AdvancedShape(z, w, c, now);
    if now >= c.resetsAt {
      StartsAtDeadline(z, w, c, now);
      LaterEnd(log, c.resetsAt, r.startedAt);
      LaterEnd(log, c.resetsAt, r.resetsAt);
      NoneSince(log, w, r.startedAt);
    }
  }

  lemma IndexRolled(z: Zone, cs: CycleSet, log: seq<Event>, clock: int, now: int)
    requires Indexed(z, cs, log, clock) && clock <= now
    ensures Indexed(z, AllAdvanced(z, cs, now), log, now)
    ensures forall w: Window :: now < AllAdvanced(z, cs, now).Of(w).resetsAt
  {
    hide Advanced, Valid, Counted, Before;
    var r := AllAdvanced(z, cs, now);
    AllAdvancedIsValid(z, cs, now);
    forall w: Window
      ensures r.Of(w).startedAt <= now < r.Of(w).resetsAt && r.Of(w).byModel == Counted(log, w, r.Of(w).startedAt) && Before(log, r.Of(w).resetsAt)
    {
      WindowRolled(z, w, cs.Of(w), log, clock, now);
    }
  }

  /** A call made by now is booked into exactly the periods that count it. */
  lemma IndexBooked(z: Zone, cs: CycleSet, log: seq<Event>, model: string, delta: Bucket, at: int, now: int)
    requires Indexed(z, cs, log, now) && at <= now && forall w: Window :: now < cs.Of(w).resetsAt
    ensures Indexed(z, BookedAllSince(cs, model, delta, at), log + [Took(model, delta, at)], now)
  {
    hide Valid, Booked;
    var after, longer := BookedAllSince(cs, model, delta, at), log + [Took(model, delta, at)];
    assert longer[..|longer| - 1] == log;
    forall w: Window
      ensures after.Of(w) == BookedSince(cs.Of(w), model, delta, at) && Valid(z, w, after.Of(w))
      ensures after.Of(w).byModel == Counted(longer, w, after.Of(w).startedAt) && Before(longer, after.Of(w).resetsAt)
    {
      ValidIgnoresModels(z, w, cs.Of(w), Booked(cs.Of(w).byModel, model, delta));
    }
  }

  /** A call made now counts in every period. */
  lemma BookedNow(cs: CycleSet, model: string, delta: Bucket, now: int)
    requires forall w: Window :: cs.Of(w).startedAt <= now
    ensures BookedAllSince(cs, model, delta, now) == BookedAll(cs, model, delta)
  {
    assert cs.Of(Daily).startedAt <= now && cs.Of(Weekly).startedAt <= now && cs.Of(Monthly).startedAt <= now;
  }

  lemma IndexReset(z: Zone, cs: CycleSet, log: seq<Event>, window: Window, now: int)
    requires Indexed(z, cs, log, now) && forall w: Window :: now < cs.Of(w).resetsAt
    requires Before(log, now + 1)
    ensures Indexed(z, cs.With(window, ResetByHand(z, window, now)), log + [Cleared(window)], now)
  {
    hide Valid, DayStart;
    var after, longer := cs.With(window, ResetByHand(z, window, now)), log + [Cleared(window)];
    assert longer[..|longer| - 1] == log;
    ResetIsValid(z, window, now);
    StartsBeforeDeadline(z, now, window.Days());
    forall w: Window
      ensures Valid(z, w, after.Of(w)) && after.Of(w).startedAt <= now
      ensures after.Of(w).byModel == Counted(longer, w, after.Of(w).startedAt) && Before(longer, after.Of(w).resetsAt)
    {
      if w != window {
        assert after.Of(w) == cs.Of(w);
      }
    }
  }

  /** The key is indexed, and nothing was logged after the clock. */
  ghost predicate KeyIndexed(z: Zone, w: World, key: string, log: seq<Event>, clock: int) {
    w.l.Entry(key).cycles.Some? && Indexed(z, w.l.Entry(key).cycles.value, log, clock) && Before(log, clock + 1)
  }

  lemma StepKeepsIndex(z: Zone, w: World, s: Step, key: string, log: seq<Event>, clock: int)
    requires KeyIndexed(z, w, key, log, clock) && Enabled(z, w, s) && Steady(s, key, clock)
    ensures KeyIndexed(z, Next(z, w, s), key, LogAfter(z, w, s, key, log), ClockAfter(s, clock))
  {
    hide Next, Indexed, Before, AllAdvanced, BookedAll, BookedAllSince, ResetWindow, ResetByHand, Enabled;
    var cs, now := w.l.Entry(key).cycles.value, ClockAfter(s, clock);
    StepCycles(z, w, s, key, clock);
    IndexRolled(z, cs, log, clock, now);
    LaterEnd(log, clock + 1, now + 1);
    var rolled := AllAdvanced(z, cs, now);
    IndexLater(z, cs, log, clock, now);
    if (s.Bill? || s.Replay?) && s.id == key {
      if s.Bill? {
        StartedBy(z, rolled, log, now);
        BookedNow(rolled, s.model, s.delta, now);
      }
      IndexBooked(z, rolled, log, s.model, s.delta, TakenAt(s), now);
      LongerBefore(log, Took(s.model, s.delta, TakenAt(s)), now + 1);
    } else if ResetDone(z, w, s) && s.id == key {
      IndexReset(z, rolled, log, s.window, now);
      LongerBefore(log, Cleared(s.window), now + 1);
    }
  }

  lemma StartedBy(z: Zone, cs: CycleSet, log: seq<Event>, clock: int)
    requires Indexed(z, cs, log, clock)
    ensures forall w: Window :: cs.Of(w).startedAt <= clock
  {
    hide Valid, Counted, Before;
  }

  lemma IndexLater(z: Zone, cs: CycleSet, log: seq<Event>, clock: int, now: int)
    requires Indexed(z, cs, log, clock) && clock <= now
    ensures Indexed(z, cs, log, now)
  {
    hide Valid, Counted, Before;
  }

  lemma LongerBefore(log: seq<Event>, e: Event, end: int)
    requires Before(log, end) && (e.Took? ==> e.at < end)
    ensures Before(log + [e], end)
  {}

  /** A run, and what it did to one key. */
  ghost predicate IsSteadyRun(z: Zone, run: seq<World>, steps: seq<Step>, clocks: seq<int>, key: string, logs: seq<seq<Event>>) {
    && |run| == |steps| + 1 == |clocks| == |logs|
    && forall i :: 0 <= i < |steps| ==>
         && Enabled(z, run[i], steps[i]) && Steady(steps[i], key, clocks[i]) && run[i + 1] == Next(z, run[i], steps[i])
         && clocks[i + 1] == ClockAfter(steps[i], clocks[i]) && logs[i + 1] == LogAfter(z, run[i], steps[i], key, logs[i])
  }

  /** A key just registered, at its creation or later. */
  predicate JustOpened(z: Zone, w: World, key: string, createdAt: int, clock: int) {
    createdAt <= clock && w.l.Entry(key).cycles == Some(AllAdvanced(z, Opened(z, createdAt, Initial), clock))
  }

  lemma OpenedIndex(z: Zone, w: World, key: string, createdAt: int, clock: int)
    requires JustOpened(z, w, key, createdAt, clock)
    ensures KeyIndexed(z, w, key, [], clock)
  {
    hide Advanced, Valid, DayStart;
    var cs := Opened(z, createdAt, Initial);
    OpenedIsValid(z, createdAt, Initial);
    assert Indexed(z, cs, [], createdAt) by {
      forall w: Window ensures cs.Of(w).byModel == map[] {}
    }
    IndexRolled(z, cs, [], createdAt, clock);
  }

  /** At every point of every steady run each period's buckets are the sums of
      the calls made since it started. */
  lemma {:induction false} PeriodsAreSums(z: Zone, run: seq<World>, steps: seq<Step>, clocks: seq<int>, key: string, logs: seq<seq<Event>>, createdAt: int, i: nat)
    requires IsSteadyRun(z, run, steps, clocks, key, logs) && i < |run|
    requires JustOpened(z, run[0], key, createdAt, clocks[0]) && logs[0] == []
    ensures KeyIndexed(z, run[i], key, logs[i], clocks[i])
    ensures forall w: Window :: var c := run[i].l.Entry(key).cycles.value.Of(w); c.byModel == Counted(logs[i], w, c.startedAt)
  {
    hide Next, Enabled, Steady, LogAfter, ClockAfter, Counted, JustOpened, Valid;
    if i == 0 {
      OpenedIndex(z, run[0], key, createdAt, clocks[0]);
    } else {
      PeriodsAreSums(z, run, steps, clocks, key, logs, createdAt, i - 1);
      var k := i - 1;
      assert Enabled(z, run[k], steps[k]) && run[k + 1] == Next(z, run[k], steps[k]);
      StepKeepsIndex(z, run[k], steps[k], key, logs[k], clocks[k]);
    }
  }
}
