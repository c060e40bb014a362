/** What the history file holds: after every flush exactly the past days of
    the ledger, so a day that closed reaches it and a day retention dropped
    leaves it. */
module FlushHistory {
  import opened Bytes
  import opened Calendar
  import opened Usage
  import opened Cycles
  import opened Ledger
  import opened Flush

  /** The ledger's day as far as a watermark covers it. */
  function UpTo(l: Ledger, m: Mark, id: string, d: int): Models { if m.Covers(d) then l.On(id, d) else map[] }

  function MarkOf(h: Option<HistoryFile>): Mark { if h.Some? then Through(h.value.through) else Never }

  /** Up to its watermark the file is the ledger, and beyond it holds nothing. */
  ghost predicate Holds(h: Option<HistoryFile>, l: Ledger) {
    forall id, d: int :: HistoryDays(h, id, d) == UpTo(l, MarkOf(h), id, d)
  }

  /** The file as the ledger knows it. */
  ghost predicate Current(h: Option<HistoryFile>, l: Ledger) { MarkOf(h) == l.historyThrough && Holds(h, l) }

  /** Unless the ledger says it is stale, the file, or the content that is being
      written to it, is what the ledger has. */
  ghost predicate Honest(w: World) {
    !w.l.historyStale ==>
      if w.phase.Idle? || w.phase.plan.history.None? then Current(w.history, w.l)
      else Writing(w) ==> Holds(w.phase.plan.history, w.l)
  }

  /** The content of a planned history write, until the write has failed. */
  predicate Writing(w: World) { !w.phase.Idle? && w.phase.plan.history.Some? && (w.phase.Planning? || w.phase.written) }

  /** The step does not drop a day that is being written to the history file
      for the first time, or the file is rewritten anyway. */
  ghost predicate Orderly(z: Zone, w: World, s: Step) {
    Works(s) && Writing(w) && !Worked(z, w.l, s).historyStale ==>
      KeepsNew(w.phase.plan.history.value.through, w.l, Worked(z, w.l, s))
  }

  ghost predicate KeepsNew(through: int, a: Ledger, b: Ledger) {
    forall id, d: int :: d <= through && !a.historyThrough.Covers(d) && a.On(id, d) != map[] ==> b.On(id, d) != map[]
  }

  /** Work on the ledger alone. */
  predicate Works(s: Step) { s.Bill? || s.Replay? || s.Tidy? || s.Look? || s.Sync? || s.Forget? }

  // What work does to closed days.

  /** The day stays, or retention drops it, and says so when the file is known
      to hold it. */
  ghost predicate StaysOrDrops(a: Ledger, b: Ledger, id: string, d: int) {
    b.On(id, d) == a.On(id, d) || (b.On(id, d) == map[] && (a.historyThrough.Covers(d) ==> b.historyStale))
  }

  lemma EvictedStays(z: Zone, l: Ledger, now: int, id: string, d: int)
    ensures StaysOrDrops(l, Evicted(z, l, now), id, d)
    ensures l.historyStale ==> Evicted(z, l, now).historyStale
    ensures Evicted(z, l, now).historyThrough == l.historyThrough
  {
    hide DayOf, Oldest;
    var e := Evicted(z, l, now);
    if e.On(id, d) != l.On(id, d) {
      assert id in l.entries && d in l.entries[id].days;
      assert e.entries == KeptEntries(l.entries, Oldest(z, now));
    }
  }

  lemma BookedStays(z: Zone, l: Ledger, key: string, u: KeyUsage, at: int, model: string, delta: Bucket, now: int, id: string, d: int)
    requires u.days == l.Entry(key).days && l.closedThrough.Covers(d)
    ensures var b := Evicted(z, l.Put(key, OnDate(u, OpenDate(z, l, at), model, delta)), now).Dirtied();
      StaysOrDrops(l, b, id, d) && (l.historyStale ==> b.historyStale) && b.historyThrough == l.historyThrough
  {
    hide Evicted, DayOf, Booked;
    var date := OpenDate(z, l, at);
    var booked := l.Put(key, OnDate(u, date, model, delta));
    NeverClosed(z, l.closedThrough, at);
    BookedElsewhere(l, key, u, date, model, delta);
    EvictedStays(z, booked, now, id, d);
    DirtiedDays(Evicted(z, booked, now));
    assert booked.On(id, d) == l.On(id, d);
  }

  lemma {:induction false} WithAllCyclesStale(z: Zone, l: Ledger, keys: seq<Key>, now: int)
    ensures WithAllCycles(z, l, keys, now).historyStale == l.historyStale
  {
    hide AllAdvanced, Opened, Expired;
    if keys != [] {
      WithAllCyclesStale(z, l, keys[..|keys| - 1], now);
    }
  }

  lemma WorkedStays(z: Zone, l: Ledger, s: Step, id: string, d: int)
    requires Works(s) && l.closedThrough.Covers(d)
    ensures var b := Worked(z, l, s);
      StaysOrDrops(l, b, id, d) && (l.historyStale ==> b.historyStale) && b.historyThrough == l.historyThrough
  {
    hide Evicted, OpenDate, BookedOn, Charged, ChargedSince, WithAllCycles, OnlyKnown, Ledger.On, Mark.Covers, Expired;
    match s
    case Bill(key, model, delta, deduct, now) =>
      ChargedDays(z, l.Entry(key), model, delta, deduct, now, now);
      BookedStays(z, l, key, Charged(z, l.Entry(key), model, delta, deduct, now), now, model, delta, now, id, d);
    case Replay(key, model, delta, deduct, at, now) =>
      ChargedDays(z, l.Entry(key), model, delta, deduct, BookedAt(at, now), now);
      BookedStays(z, l, key, ChargedSince(z, l.Entry(key), model, delta, deduct, BookedAt(at, now), now), BookedAt(at, now), model, delta, now, id, d);
    case Tidy(now) => EvictedStays(z, l, now, id, d);
    case Look(key, now) => ReadDays(z, l, key, now);
    case Sync(keys, now) =>
      SyncedDays(z, l, keys, now);
      WithAllCyclesStale(z, l, keys, now);
      OnlyKnownStale(WithAllCycles(z, l, keys, now), set k | k in keys :: k.id);
    case Forget(key) => ForgottenDays(l, key);
  }

  lemma OnlyKnownStale(l: Ledger, known: set<string>)
    ensures OnlyKnown(l, known).historyStale == l.historyStale
  {}

  // What every step keeps.

  lemma HoldsStays(z: Zone, h: Option<HistoryFile>, l: Ledger, s: Step)
    requires Works(s) && Holds(h, l) && MarkOf(h).AtMost(l.closedThrough) && !Worked(z, l, s).historyStale
    requires h.Some? ==> KeepsNew(h.value.through, l, Worked(z, l, s))
    ensures Holds(h, Worked(z, l, s)) && !l.historyStale && Worked(z, l, s).historyThrough == l.historyThrough
  {
    hide Worked, HistoryDays, Ledger.On;
    forall id, d: int ensures HistoryDays(h, id, d) == UpTo(Worked(z, l, s), MarkOf(h), id, d) {
      if MarkOf(h).Covers(d) {
        WorkedStays(z, l, s, id, d);
      }
    }
    WorkedMarks(z, l, s);
  }

  lemma WorkedMarks(z: Zone, l: Ledger, s: Step)
    requires Works(s)
    ensures Worked(z, l, s).historyThrough == l.historyThrough && (l.historyStale ==> Worked(z, l, s).historyStale)
  {
    hide Evicted, OpenDate, BookedOn, Charged, ChargedSince, WithAllCycles, OnlyKnown, Expired;
    match s
    case Bill(key, model, delta, deduct, now) =>
      EvictedStays(z, l.Put(key, OnDate(Charged(z, l.Entry(key), model, delta, deduct, now), OpenDate(z, l, now), model, delta)), now, key, 0);
    case Replay(key, model, delta, deduct, at, now) =>
      var t := BookedAt(at, now);
      EvictedStays(z, l.Put(key, OnDate(ChargedSince(z, l.Entry(key), model, delta, deduct, t, now), OpenDate(z, l, t), model, delta)), now, key, 0);
    case Tidy(now) => EvictedStays(z, l, now, "", 0);
    case Look(key, now) => ReadDays(z, l, key, now);
    case Sync(keys, now) =>
      SyncedDays(z, l, keys, now);
      WithAllCyclesStale(z, l, keys, now);
      OnlyKnownStale(WithAllCycles(z, l, keys, now), set k | k in keys :: k.id);
    case Forget(key) => ForgottenDays(l, key);
  }

  lemma WorkHonestIff(z: Zone, w: World, s: Step)
    requires Inv(w) && Honest(w) && Works(s)
    ensures Honest(Next(z, w, s)) <==> Orderly(z, w, s)
  {
    hide Worked, Holds, HistoryAgrees, SnapshotOf, Ledger.On, RaisedHorizon, KeepsNew;
    WorkedMarks(z, w.l, s);
    if !Worked(z, w.l, s).historyStale {
      if w.phase.Idle? || w.phase.plan.history.None? {
        NothingNew(w.history, w.l, Worked(z, w.l, s));
        HoldsStays(z, w.history, w.l, s);
      } else if Writing(w) {
        if Orderly(z, w, s) {
          HoldsStays(z, w.phase.plan.history, w.l, s);
        } else {
          NewDropped(w.phase.plan.history.value, w.l, Worked(z, w.l, s));
        }
      }
    }
  }

  lemma NothingNew(h: Option<HistoryFile>, l: Ledger, b: Ledger)
    requires MarkOf(h) == l.historyThrough
    ensures h.Some? ==> KeepsNew(h.value.through, l, b)
  {}

  lemma NewDropped(h: HistoryFile, l: Ledger, b: Ledger)
    requires Holds(Some(h), l) && !KeepsNew(h.through, l, b)
    ensures !Holds(Some(h), b)
  {
    hide HistoryDays, Ledger.On;
    var id, d: int :| d <= h.through && !l.historyThrough.Covers(d) && l.On(id, d) != map[] && b.On(id, d) == map[];
    assert HistoryDays(Some(h), id, d) == UpTo(l, Through(h.through), id, d) != UpTo(b, Through(h.through), id, d);
  }

  /** The tidied ledger a plan is taken of. */
  function Tidied(z: Zone, l: Ledger, now: int): Ledger { RolledEntries(z, Evicted(z, l, now), now) }

  lemma TidiedStays(z: Zone, l: Ledger, now: int, id: string, d: int)
    ensures var t := Tidied(z, l, now);
      StaysOrDrops(l, t, id, d) && (l.historyStale ==> t.historyStale) && t.historyThrough == l.historyThrough
  {
    hide Evicted, Expired, RolledEntry;
    EvictedStays(z, l, now, id, d);
    RolledEntriesDays(z, Evicted(z, l, now), now);
    assert Tidied(z, l, now).On(id, d) == Evicted(z, l, now).On(id, d);
  }

  /** What a flush starts with: either the file is the past of the tidied
      ledger, or it is about to be. */
  lemma PlanIsPast(z: Zone, history: Option<HistoryFile>, l: Ledger, now: int)
    requires !l.historyStale ==> Current(history, l)
    ensures var p := PlanFlush(z, l, now);
      && p.ledger.historyThrough == l.historyThrough
      && (p.plan.None? || p.plan.value.history.None? ==>
            !p.ledger.historyStale && Current(history, p.ledger) && PastCovered(p.ledger, p.ledger.historyThrough, DayOf(z, now)))
      && (p.plan.Some? && p.plan.value.history.Some? ==>
            !p.ledger.historyStale && Holds(p.plan.value.history, p.ledger) && PastCovered(p.ledger, MarkOf(p.plan.value.history), DayOf(z, now)))
  {
    hide Evicted, RolledEntries, DayOf, LiveSnapshot, HistorySnapshot, Ledger.On, HistoryDays, Oldest;
    var t, p := Tidied(z, l, now), PlanFlush(z, l, now);
    TidiedStays(z, l, now, "", 0);
    assert p.ledger.entries == t.entries;
    SameEntriesSameDays(p.ledger, t);
    if p.plan.Some? && p.plan.value.history.Some? {
      var h := p.plan.value.history.value;
      forall id, d: int ensures HistoryDays(Some(h), id, d) == UpTo(p.ledger, Through(h.through), id, d) {
        HistorySnapshotOn(t, h.through, id, d);
      }
    } else {
      forall id, d: int ensures HistoryDays(history, id, d) == UpTo(p.ledger, MarkOf(history), id, d) {
        TidiedStays(z, l, now, id, d);
      }
      NothingPast(t, t.historyThrough, DayOf(z, now));
    }
  }

  /** Every day before today that a key was billed on is up to the mark. */
  ghost predicate PastCovered(l: Ledger, m: Mark, today: int) {
    forall id, d: int :: d < today && l.On(id, d) != map[] ==> m.Covers(d)
  }

  lemma NothingPast(l: Ledger, m: Mark, today: int)
    requires m.Covers(today - 1) || !HasDaysIn(l, m, today - 1)
    ensures PastCovered(l, m, today)
  {
    forall id, d: int | d < today && l.On(id, d) != map[] ensures m.Covers(d) {
      assert id in l.entries && d in l.entries[id].days;
    }
  }

  lemma BeginHonest(z: Zone, w: World, now: int)
    requires Honest(w) && w.phase.Idle?
    ensures Honest(Next(z, w, Begin(now)))
  {
    hide PlanFlush, Holds, PastCovered;
    PlanIsPast(z, w.history, w.l, now);
  }

  lemma FinishHonest(z: Zone, w: World)
    requires Inv(w) && Honest(w) && w.phase.LiveEnded?
    ensures Honest(Next(z, w, Finish))
  {
    hide HistoryAgrees, SnapshotOf, HistoryDays;
    var l := Next(z, w, Finish).l;
    SameEntriesSameDays(w.l, l);
  }

  lemma ChangeHonest(z: Zone, w: World, s: Step)
    requires Honest(w) && (s.Reset? || s.Adjust?) && Enabled(z, w, s)
    ensures Honest(Next(z, w, s))
  {
    hide ResetByHand, Expired, RolledEntry, Adjusted, Earlier, LiveFileOf, LiveSnapshot, HistoryDays, Ledger.On, CycleSet.With;
    if s.Reset? {
      AttemptDays(z, w.l, s.id, s.window, s.expected, s.now, s.outcome);
    } else {
      AdjustDays(w.l, s.id, s.amount, s.request, s.outcome);
    }
  }

  /** Loading takes the file's days as they are, and drops none it owns without
      saying so. */
  lemma RestartHonest(z: Zone, w: World, now: int)
    requires Inv(w) && Enabled(z, w, Restart(now))
    ensures Honest(Next(z, w, Restart(now)))
  {
    hide Merged, Evicted, HistoryDays, SnapshotOf, Ledger.On, PlanStands;
    MergeSucceeds(w);
    var dataset := Merged(w.live, w.history);
    var raw := Ledger(dataset.keys, false, 0, dataset.through, dataset.through, false, None);
    var l := Next(z, w, Restart(now)).l;
    assert l == Evicted(z, raw, now);
    EvictedStays(z, raw, now, "", 0);
    if !l.historyStale {
      forall id, d: int ensures HistoryDays(w.history, id, d) == UpTo(l, MarkOf(w.history), id, d) {
        EvictedStays(z, raw, now, id, d);
        RawOn(raw, id, d);
        FileDay(w, id, d);
      }
    }
  }

  /** What loading finds of a day the history file owns. */
  lemma FileDay(w: World, id: string, d: int)
    requires Inv(w)
    ensures Merged(w.live, w.history).Dataset?
    ensures var keys := Merged(w.live, w.history).keys;
      HistoryDays(w.history, id, d) == if w.HistoryMark().Covers(d) then ModelsOf((if id in keys then keys[id] else NO_USAGE).days, d) else map[]
  {
    hide Merged, LiveDays, SnapshotOf, Ledger.On, PlanStands;
    MergeSucceeds(w);
    if w.history.Some? {
      MergedOn(w.live, w.history.value, id, d);
    }
  }

  /** Each step keeps the file honest exactly when it is orderly. */
  lemma StepIsHonestIff(z: Zone, w: World, s: Step)
    requires Inv(w) && Honest(w) && Enabled(z, w, s)
    ensures Honest(Next(z, w, s)) <==> Orderly(z, w, s)
  {
    hide Inv, Honest, Next, Worked, KeepsNew;
    match s
    case Reset(_, _, _, _, _) => ChangeHonest(z, w, s);
    case Adjust(_, _, _, _) => ChangeHonest(z, w, s);
    case Begin(now) => BeginHonest(z, w, now);
    case WriteHistory(outcome) => WriteHistoryHonest(z, w, outcome);
    case WriteLive(outcome) => WriteLiveHonest(z, w, outcome);
    case Finish => FinishHonest(z, w);
    case Restart(now) => RestartHonest(z, w, now);
    case _ => WorkHonestIff(z, w, s);
  }

  lemma WriteHistoryHonest(z: Zone, w: World, outcome: Outcome)
    requires Honest(w) && w.phase.Planning?
    ensures Honest(Next(z, w, WriteHistory(outcome)))
  {
    hide Holds;
  }

  lemma WriteLiveHonest(z: Zone, w: World, outcome: Outcome)
    requires Honest(w) && w.phase.HistoryEnded?
    ensures Honest(Next(z, w, WriteLive(outcome)))
  {
    hide Holds, LiveFileOf;
  }

  lemma FirstBootHonest(z: Zone, keys: seq<Key>, at: int)
    ensures Honest(FirstBoot(z, keys, at))
  {
    hide Evicted, WithAllCycles, OnlyKnown, LiveFileOf, LiveSnapshot, Ledger.On;
    var raw := Ledger(map[], false, 0, Never, Never, false, None);
    var l := Evicted(z, raw, at);
    EvictedStays(z, raw, at, "", 0);
    SyncedDays(z, l, keys, at);
  }

  lemma {:induction false} OrderlyRunIsHonest(z: Zone, keys: seq<Key>, at: int, run: seq<World>, steps: seq<Step>, i: nat)
    requires IsRun(z, run, steps) && run[0] == FirstBoot(z, keys, at) && i < |run|
    requires forall k :: 0 <= k < i ==> Orderly(z, run[k], steps[k])
    ensures Inv(run[i]) && Honest(run[i])
  {
    hide Inv, Honest, Next, FirstBoot, Enabled, Orderly;
    EveryRunIsSafe(z, keys, at, run, steps, i);
    if i == 0 {
      FirstBootHonest(z, keys, at);
    } else {
      var k := i - 1;
      OrderlyRunIsHonest(z, keys, at, run, steps, k);
      assert Enabled(z, run[k], steps[k]) && run[k + 1] == Next(z, run[k], steps[k]);
      StepIsHonestIff(z, run[k], steps[k]);
    }
  }

  /** Over a run the file is honest throughout exactly when every step is
      orderly. */
  lemma EveryRunIsHonest(z: Zone, keys: seq<Key>, at: int, run: seq<World>, steps: seq<Step>)
    requires IsRun(z, run, steps) && run[0] == FirstBoot(z, keys, at)
    ensures (forall i :: 0 <= i < |run| ==> Honest(run[i])) <==> forall k :: 0 <= k < |steps| ==> Orderly(z, run[k], steps[k])
  {
    hide Inv, Honest, Next, FirstBoot, Orderly, Enabled;
    if forall k :: 0 <= k < |steps| ==> Orderly(z, run[k], steps[k]) {
      forall i | 0 <= i < |run| ensures Honest(run[i]) {
        OrderlyRunIsHonest(z, keys, at, run, steps, i);
      }
    } else if forall i :: 0 <= i < |run| ==> Honest(run[i]) {
      var k :| 0 <= k < |steps| && !Orderly(z, run[k], steps[k]);
      EveryRunIsSafe(z, keys, at, run, steps, k);
      assert Enabled(z, run[k], steps[k]) && run[k + 1] == Next(z, run[k], steps[k]);
      StepIsHonestIff(z, run[k], steps[k]);
      assert false;
    }
  }

  // After a flush.

  /** What a flush leaves when it plans nothing, or its writes succeed. */
  function Left(z: Zone, w: World, now: int): World
    requires w.phase.Idle?
  {
    if PlanFlush(z, w.l, now).plan.None? then Next(z, w, Begin(now)) else Flushed(z, w, now)
  }

  /** The file holds exactly the past: every day before today a key was billed
      on, as the ledger has it, and no day the ledger does not have. */
  ghost predicate IsPast(history: Option<HistoryFile>, l: Ledger, today: int) {
    && MarkOf(history) == l.historyThrough && !l.historyStale
    && (forall id, d: int :: d < today && l.On(id, d) != map[] ==> HistoryDays(history, id, d) == l.On(id, d))
    && (forall id, d: int :: HistoryDays(history, id, d) != map[] ==> HistoryDays(history, id, d) == l.On(id, d))
  }

  lemma LeftParts(z: Zone, w: World, now: int)
    requires w.phase.Idle?
    ensures var p, f := PlanFlush(z, w.l, now), Left(z, w, now);
      && f.l.entries == p.ledger.entries
      && (p.plan.None? || p.plan.value.history.None? ==>
            f.history == w.history && f.l.historyThrough == p.ledger.historyThrough && f.l.historyStale == p.ledger.historyStale)
      && (p.plan.Some? && p.plan.value.history.Some? ==>
            f.history == p.plan.value.history && f.l.historyThrough == MarkOf(f.history) && f.l.historyStale == p.ledger.historyStale)
      && (p.plan.Some? && p.plan.value.revision == p.ledger.revision ==> !f.l.dirty)
      && (p.plan.None? ==> f.l.dirty == p.ledger.dirty)
  {
    hide PlanFlush, LiveFileOf;
  }

  lemma LeftIsPast(z: Zone, w: World, now: int)
    requires Honest(w) && w.phase.Idle?
    ensures IsPast(Left(z, w, now).history, Left(z, w, now).l, DayOf(z, now)) && !Left(z, w, now).l.dirty
    ensures Left(z, w, now).l.entries == Tidied(z, w.l, now).entries
  {
    hide DayOf, PlanFlush, Left, HistoryDays, Ledger.On, Tidied;
    PlanIsPast(z, w.history, w.l, now);
    LeftParts(z, w, now);
    PlanRevision(z, w.l, now);
    NothingDirty(z, w.l, now);
    PlannedEntries(z, w.l, now);
    SameEntriesSameDays(Left(z, w, now).l, PlanFlush(z, w.l, now).ledger);
  }

  lemma NothingDirty(z: Zone, l: Ledger, now: int)
    ensures PlanFlush(z, l, now).plan.None? ==> !PlanFlush(z, l, now).ledger.dirty
  {
    hide Evicted, RolledEntries, NeedsHistory, LiveSnapshot, HistorySnapshot, DayOf;
  }

  lemma PlannedEntries(z: Zone, l: Ledger, now: int)
    ensures PlanFlush(z, l, now).ledger.entries == Tidied(z, l, now).entries
  {
    hide Evicted, RolledEntries, NeedsHistory, LiveSnapshot, HistorySnapshot, DayOf;
  }

  /** After any flush of any run, whatever failed before it, that plans nothing
      or whose writes succeed, nothing is left to write, and the history file is
      exactly the past days of the ledger: a day that closed has reached it, and
      a day retention dropped, in this flush or before, is no longer in it. */
  lemma HistoryIsPast(z: Zone, keys: seq<Key>, at: int, run: seq<World>, steps: seq<Step>, i: nat, now: int)
    requires IsRun(z, run, steps) && run[0] == FirstBoot(z, keys, at) && i < |run| && run[i].phase.Idle?
    requires forall k :: 0 <= k < i ==> Orderly(z, run[k], steps[k])
    ensures IsPast(Left(z, run[i], now).history, Left(z, run[i], now).l, DayOf(z, now)) && !Left(z, run[i], now).l.dirty
    ensures run[i].l.lastEvicted != Some(DayOf(z, now)) ==>
      forall id, d: int :: d < Oldest(z, now) ==> HistoryDays(Left(z, run[i], now).history, id, d) == map[]
  {
    hide Honest, Inv, Left, HistoryDays, DayOf, FirstBoot, Orderly, Ledger.On, Tidied;
    OrderlyRunIsHonest(z, keys, at, run, steps, i);
    var w := run[i];
    LeftIsPast(z, w, now);
    SameEntriesSameDays(Left(z, w, now).l, Tidied(z, w.l, now));
    if w.l.lastEvicted != Some(DayOf(z, now)) {
      forall id, d: int | d < Oldest(z, now) ensures HistoryDays(Left(z, w, now).history, id, d) == map[] {
        TidiedDrops(z, w.l, now, id, d);
      }
    }
  }

  lemma TidiedDrops(z: Zone, l: Ledger, now: int, id: string, d: int)
    requires l.lastEvicted != Some(DayOf(z, now)) && d < Oldest(z, now)
    ensures Tidied(z, l, now).On(id, d) == map[]
  {
    hide DayOf, HistoryHolds, RolledEntries, Expired;
    RolledEntriesDays(z, Evicted(z, l, now), now);
    assert Tidied(z, l, now).On(id, d) == Evicted(z, l, now).On(id, d);
  }

  /** After a history write that failed, whether or not its content landed, the
      live file still has those days, and the ledger knows to write them
      again. */
  lemma FailedHistoryWrite(z: Zone, w: World, landed: bool, id: string, d: int)
    requires Inv(w) && w.phase.Planning? && w.phase.plan.history.Some?
    ensures var f := Next(z, Next(z, Next(z, w, WriteHistory(Failed(landed))), WriteLive(Written)), Finish);
      && f.history == (if landed then w.phase.plan.history else w.history)
      && f.l.historyStale && f.l.historyThrough == w.l.historyThrough == f.live.through
      && (!f.l.historyThrough.Covers(d) ==> LiveDays(f.live.keys, id, d) == w.phase.from.On(id, d))
  {
    hide LiveFileOf, LiveDays, Ledger.On, HistoryAgrees, SnapshotOf;
    var plan := w.phase.plan;
    LiveFileIsSnapshot(plan.live, w.phase.from, plan.through, plan.through);
    LiveFileThrough(plan.through, plan.live);
    LiveDaysAre(LiveFileOf(plan.through, plan.live).keys, w.phase.from, plan.through, id, d);
  }

  lemma LiveDaysAre(keys: LiveKeys, l: Ledger, through: Mark, id: string, d: int)
    requires SnapshotOf(keys, l, through)
    ensures !through.Covers(d) ==> LiveDays(keys, id, d) == l.On(id, d)
  {
    hide LiveDays, Ledger.On;
  }

  /** The live file a successful flush leaves holds the other days, and every
      key's periods and balance: together the files are the ledger. */
  lemma LiveIsRest(z: Zone, w: World, now: int, id: string, d: int)
    requires w.phase.Idle? && PlanFlush(z, w.l, now).plan.Some?
    ensures var f := Flushed(z, w, now);
      && f.live.through == f.l.historyThrough
      && LiveDays(f.live.keys, id, d) == (if f.l.historyThrough.Covers(d) then map[] else f.l.On(id, d))
      && (if id in f.live.keys then f.live.keys[id].cycles else None) == f.l.Entry(id).cycles
      && (if id in f.live.keys then f.live.keys[id].balance else None) == f.l.Entry(id).balance
      && (id in f.live.keys ==> !Empty(f.live.keys[id]))
  {
    hide PlanFlush, LiveSnapshot, LiveFileOf, LiveDays, Ledger.On, Ledger.Entry, Flushed;
    var p, f := PlanFlush(z, w.l, now), Flushed(z, w, now);
    var plan := p.plan.value;
    FlushedLive(z, w, now);
    PlannedShape(z, w.l, now, Tidied(z, w.l, now));
    LiveSnapshotIsSnapshot(p.ledger, plan.through);
    LiveFileIsSnapshot(plan.live, p.ledger, plan.through, f.l.historyThrough);
    LiveFileThrough(f.l.historyThrough, plan.live);
    SnapshotPeriods(f.live.keys, p.ledger, f.l.historyThrough, id);
    NoneEmpty(f.l.historyThrough, plan.live, id);
    SameEntriesSameDays(f.l, p.ledger);
    if f.l.historyThrough.Covers(d) {
      TrimmedAway(f.l.historyThrough, plan.live, id, d);
    }
  }

  lemma FlushedLive(z: Zone, w: World, now: int)
    requires w.phase.Idle? && PlanFlush(z, w.l, now).plan.Some?
    ensures var p, f := PlanFlush(z, w.l, now), Flushed(z, w, now);
      && f.live == LiveFileOf(f.l.historyThrough, p.plan.value.live) && f.l.entries == p.ledger.entries
      && f.l.historyThrough == (if p.plan.value.history.Some? then MarkOf(p.plan.value.history) else p.ledger.historyThrough)
      && p.plan.value.through == p.ledger.historyThrough
  {
    hide PlanFlush, LiveFileOf;
    PlannedShape(z, w.l, now, Tidied(z, w.l, now));
  }

  lemma NoneEmpty(through: Mark, keys: LiveKeys, id: string)
    ensures id in LiveFileOf(through, keys).keys ==> !Empty(LiveFileOf(through, keys).keys[id])
  {}

  lemma TrimmedAway(through: Mark, keys: LiveKeys, id: string, d: int)
    requires through.Covers(d)
    ensures LiveDays(LiveFileOf(through, keys).keys, id, d) == map[]
  {}

  /** A flush whose writes succeed from here on. */
  function Completed(z: Zone, w: World): World
    requires w.phase.Planning?
  {
    Next(z, Next(z, Next(z, w, WriteHistory(Written)), WriteLive(Written)), Finish)
  }

  lemma CompletedParts(z: Zone, w: World)
    requires w.phase.Planning? && w.phase.plan.history.Some?
    ensures var f := Completed(z, w);
      && f.history == w.phase.plan.history && f.l.historyThrough == MarkOf(f.history) && f.l.historyStale == w.l.historyStale
      && f.l.entries == w.l.entries
  {
    hide LiveFileOf;
  }

  /** A pass that runs while a flush writes a day for the first time, and drops
      it, leaves it in the file, and nothing says so. */
  lemma LatePassLeavesDay(z: Zone, w: World, now: int, id: string, d: int)
    requires Inv(w) && Honest(w) && w.phase.Planning? && w.phase.plan.history.Some? && d <= w.phase.plan.history.value.through
    requires !w.l.historyThrough.Covers(d) && w.l.On(id, d) != map[] && d < Oldest(z, now)
    requires w.l.lastEvicted != Some(DayOf(z, now)) && !Evicted(z, w.l, now).historyStale
    ensures var f := Completed(z, Next(z, w, Tidy(now)));
      && HistoryDays(f.history, id, d) != map[] == f.l.On(id, d) && f.l.historyThrough.Covers(d) && !f.l.historyStale
  {
    hide DayOf, HistoryDays, Oldest, Evicted, Completed, Inv, RaisedHorizon;
    EvictedStays(z, w.l, now, id, d);
    TidiedDrops(z, w.l, now, id, d);
    RolledEntriesDays(z, Evicted(z, w.l, now), now);
    assert Evicted(z, w.l, now).On(id, d) == map[];
    CompletedParts(z, Next(z, w, Tidy(now)));
    SameEntriesSameDays(Completed(z, Next(z, w, Tidy(now))).l, Evicted(z, w.l, now));
  }
}
