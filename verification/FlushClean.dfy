/** What the dirty flag means: a ledger that is not dirty is one the files hold,
    so a crash then loses nothing. It holds exactly as long as no failed reset
    or adjustment of a clean ledger leaves another period or balance in the
    live file. */
module FlushClean {
  import opened Bytes
  import opened Calendar
  import opened Usage
  import opened Cycles
  import opened Ledger
  import opened Flush

  /** Two ledgers agree on a key's periods and its balance. */
  predicate SameKey(a: KeyUsage, b: KeyUsage) { a.cycles == b.cycles && (a.cycles.Some? ==> a.balance == b.balance) }

  /** The last landed live cut holds what the history file does not. */
  ghost predicate Saved(w: World) {
    && (forall id, d: int :: d >= w.horizon && !w.l.historyThrough.Covers(d) ==> w.cut.On(id, d) == w.l.On(id, d))
    && (forall id :: SameKey(w.l.Entry(id), w.cut.Entry(id)))
  }

  /** While a flush is under way, the same revision means the same content. */
  predicate Tracked(w: World) {
    && (!w.l.dirty && !w.phase.Idle? ==> w.l.revision == w.phase.plan.revision)
    && (!w.phase.Idle? ==> w.l.revision >= w.phase.plan.revision)
    && (!w.phase.Idle? && w.l.revision == w.phase.plan.revision ==> w.l.entries == w.phase.from.entries)
    && (w.phase.LiveEnded? && w.phase.liveWritten ==> w.cut == w.phase.from)
  }

  ghost predicate CleanIsSaved(w: World) { Tracked(w) && (!w.l.dirty ==> Saved(w)) }

  /** A change whose write failed although its content landed is harmless to a
      ledger that is dirty anyway, or when it would have changed nothing. */
  predicate Harmless(z: Zone, w: World, s: Step) {
    match s
    case Reset(id, window, expected, now, outcome) =>
      outcome == Failed(true) ==>
        var a := ResetWindow(z, w.l, id, window, expected, now);
        !a.Persisting? || a.before.dirty || a.before.Entry(id).cycles == a.after.Entry(id).cycles
    case Adjust(id, amount, request, outcome) =>
      outcome == Failed(true) ==>
        var a := AdjustBalance(w.l, id, amount, request);
        !a.Persisting? || w.l.dirty || a.after.Entry(id).balance == w.l.Entry(id).balance
    case _ => true
  }

  /** Every change shows in the dirty flag and the revision. */
  predicate Shows(a: Ledger, b: Ledger) {
    && b.revision >= a.revision && (b.revision == a.revision ==> b.entries == a.entries && b.dirty == a.dirty)
    && (b.revision > a.revision ==> b.dirty)
  }

  lemma EvictedShows(z: Zone, l: Ledger, now: int)
    ensures Shows(l, Evicted(z, l, now))
  {
    hide HistoryHolds, DayOf, KeptEntries;
  }

  lemma ReadShows(z: Zone, l: Ledger, id: string, now: int)
    ensures Shows(l, Read(z, l, id, now))
  {
    hide AnyExpired, AllAdvanced;
  }

  lemma ForgottenShows(l: Ledger, id: string)
    ensures Shows(l, Forgotten(l, id))
  {}

  lemma WithCyclesShows(z: Zone, l: Ledger, id: string, createdAt: Option<int>, now: int)
    ensures Shows(l, WithCycles(z, l, id, createdAt, now))
  {
    hide AnyExpired, AllAdvanced, Opened;
  }

  lemma {:induction false} WithAllCyclesShows(z: Zone, l: Ledger, keys: seq<Key>, now: int)
    ensures Shows(l, WithAllCycles(z, l, keys, now))
  {
    hide WithCycles;
    if keys != [] {
      WithAllCyclesShows(z, l, keys[..|keys| - 1], now);
      WithCyclesShows(z, WithAllCycles(z, l, keys[..|keys| - 1], now), keys[|keys| - 1].id, keys[|keys| - 1].createdAt, now);
    }
  }

  lemma OnlyKnownShows(l: Ledger, known: set<string>)
    ensures Shows(l, OnlyKnown(l, known))
  {
    var dropped := set id | id in l.entries && id !in known && Registered(l.entries[id]);
    if |dropped| == 0 {
      assert dropped == {};
      assert OnlyKnown(l, known).entries == l.entries;
    }
  }

  lemma RolledEntriesShows(z: Zone, l: Ledger, now: int)
    ensures Shows(l, RolledEntries(z, l, now))
  {
    hide AnyExpired;
    var expired := set id | id in l.entries && Expired(l.entries[id], now);
    if |expired| == 0 {
      assert expired == {};
      forall id | id in l.entries ensures RolledEntry(z, l.entries[id], now) == l.entries[id] {
        assert id !in expired;
        NothingToRoll(z, l.entries[id], now);
      }
      assert RolledEntries(z, l, now).entries == l.entries;
    }
  }

  lemma WorkShows(z: Zone, l: Ledger, s: Step)
    ensures Shows(l, Worked(z, l, s))
  {
    hide Charged, ChargedSince, OnDate, Evicted, Read, Forgotten, WithAllCycles, OnlyKnown, OpenDate;
    match s
    case Bill(id, model, delta, deduct, now) =>
      var u := OnDate(Charged(z, l.Entry(id), model, delta, deduct, now), OpenDate(z, l, now), model, delta);
      EvictedShows(z, l.Put(id, u), now);
    case Replay(id, model, delta, deduct, at, now) =>
      var t := BookedAt(at, now);
      var u := OnDate(ChargedSince(z, l.Entry(id), model, delta, deduct, t, now), OpenDate(z, l, t), model, delta);
      EvictedShows(z, l.Put(id, u), now);
    case Tidy(now) => EvictedShows(z, l, now);
    case Look(id, now) => ReadShows(z, l, id, now);
    case Sync(keys, now) =>
      WithAllCyclesShows(z, l, keys, now);
      OnlyKnownShows(WithAllCycles(z, l, keys, now), set k | k in keys :: k.id);
    case Forget(id) => ForgottenShows(l, id);
    case _ =>
  }

  lemma WorkKeepsClean(z: Zone, w: World, s: Step)
    requires CleanIsSaved(w)
    ensures CleanIsSaved(w.(l := Worked(z, w.l, s), horizon := RaisedHorizon(z, w.horizon, s)))
  {
    hide Worked, RaisedHorizon, Ledger.On, SameKey, KeepsClosed;
    WorkShows(z, w.l, s);
    HorizonRises(z, w.horizon, s);
    ClosedDaysStay(z, w, s);
    var l := Worked(z, w.l, s);
    if l.entries == w.l.entries {
      SameEntriesSameDays(l, w.l);
    }
  }

  lemma BeginKeepsClean(z: Zone, w: World, now: int)
    requires CleanIsSaved(w) && w.phase.Idle?
    ensures CleanIsSaved(Next(z, w, Begin(now)))
  {
    hide Evicted, RolledEntries, NeedsHistory, LiveSnapshot, HistorySnapshot, Ledger.On, SameKey, Oldest;
    var l := RolledEntries(z, Evicted(z, w.l, now), now);
    EvictedShows(z, w.l, now);
    EvictedMarks(z, w.l, now);
    RolledEntriesShows(z, Evicted(z, w.l, now), now);
    RolledEntriesDays(z, Evicted(z, w.l, now), now);
    PlannedShape(z, w.l, now, l);
    PlannedFlags(z, w.l, now, l);
    var p := PlanFlush(z, w.l, now).ledger;
    if p.entries == w.l.entries {
      SameEntriesSameDays(p, w.l);
    }
  }

  lemma PlannedFlags(z: Zone, before: Ledger, now: int, l: Ledger)
    requires l == RolledEntries(z, Evicted(z, before, now), now)
    ensures var p := PlanFlush(z, before, now);
      && p.ledger.dirty == l.dirty && p.ledger.revision == l.revision
      && (p.plan.Some? ==> p.plan.value.revision == l.revision)
  {
    hide Evicted, RolledEntries, NeedsHistory, LiveSnapshot, HistorySnapshot, DayOf;
  }

  lemma WriteLiveKeepsClean(z: Zone, w: World, outcome: Outcome)
    requires CleanIsSaved(w) && w.phase.HistoryEnded?
    ensures CleanIsSaved(Next(z, w, WriteLive(outcome)))
  {
    hide LiveFileOf, Ledger.On;
    if !w.l.dirty && outcome.Landed() {
      SameEntriesSameDays(w.l, w.phase.from);
    }
  }

  lemma FinishKeepsClean(z: Zone, w: World)
    requires CleanIsSaved(w) && Inv(w) && w.phase.LiveEnded?
    ensures CleanIsSaved(Next(z, w, Finish))
  {
    hide Ledger.On, SnapshotOf, HistoryAgrees;
    var u := Next(z, w, Finish);
    SameEntriesSameDays(u.l, w.l);
    if w.l.revision == w.phase.plan.revision {
      SameEntriesSameDays(w.l, w.phase.from);
    }
  }

  lemma PersistedKeepsClean(z: Zone, w: World, a: Attempt, outcome: Outcome)
    requires CleanIsSaved(w) && w.phase.Idle? && outcome != Failed(true)
    requires Shows(w.l, if a.Persisting? then a.before else a.ledger)
    requires SameDays(w.l, a.Ended(outcome)) && SameMarks(w.l, a.Ended(outcome))
    ensures CleanIsSaved(Persisted(w, a, outcome))
  {
    hide LiveFileOf, LiveSnapshot, Ledger.On, SameKey;
    var u := Persisted(w, a, outcome);
    if a.Persisting? && outcome.Landed() {
      SameEntriesSameDays(u.l, u.cut);
      forall id ensures SameKey(u.l.Entry(id), u.cut.Entry(id)) {
        SameKeyItself(u.l.Entry(id));
      }
    } else if u.l.entries == w.l.entries {
      SameEntriesSameDays(u.l, w.l);
    }
  }

  /** The file holds the change and memory does not. */
  lemma LandedFailure(z: Zone, w: World, a: Attempt, id: string)
    requires w.phase.Idle? && a.Persisting? && SameMarks(w.l, a.before) && SameDays(a.before, a.after)
    requires forall k :: k != id ==> a.before.Entry(k) == a.after.Entry(k)
    ensures CleanIsSaved(Persisted(w, a, Failed(true))) <==> a.before.dirty || SameKey(a.before.Entry(id), a.after.Entry(id))
  {
    hide LiveFileOf, LiveSnapshot, Ledger.On, Ledger.Entry;
    var u := Persisted(w, a, Failed(true));
    assert u.l == a.before && u.cut == a.after;
    if a.before.dirty || SameKey(a.before.Entry(id), a.after.Entry(id)) {
      forall k | !a.before.dirty ensures SameKey(u.l.Entry(k), u.cut.Entry(k)) {
        SameKeyItself(a.before.Entry(k));
      }
    }
  }

  lemma ResetChanges(z: Zone, l: Ledger, id: string, window: Window, expected: Option<Expected>, now: int)
    ensures var a := ResetWindow(z, l, id, window, expected, now); a.Persisting? ==>
      && SameMarks(l, a.before) && SameDays(a.before, a.after) && (forall k :: k != id ==> a.before.Entry(k) == a.after.Entry(k))
      && a.before.Entry(id).cycles.Some? && a.before.Entry(id).balance == a.after.Entry(id).balance
  {
    hide Read, ResetByHand, CycleSet.With;
    ReadDays(z, l, id, now);
  }

  lemma AdjustChanges(l: Ledger, id: string, amount: int, request: string)
    ensures var a := AdjustBalance(l, id, amount, request); a.Persisting? ==>
      && a.before == l && SameDays(l, a.after) && (forall k :: k != id ==> l.Entry(k) == a.after.Entry(k))
      && l.Entry(id).cycles.Some? && l.Entry(id).cycles == a.after.Entry(id).cycles
      && (amount != 0 ==> a.after.Entry(id).balance != l.Entry(id).balance)
  {
    hide Earlier, Latest;
  }

  /** A reset that failed and landed keeps the flag's meaning exactly when the
      ledger was dirty or the period was the new one already. */
  lemma FailedResetIff(z: Zone, w: World, id: string, window: Window, expected: Option<Expected>, now: int)
    requires CleanIsSaved(w) && w.phase.Idle?
    ensures var a := ResetWindow(z, w.l, id, window, expected, now);
      CleanIsSaved(Next(z, w, Reset(id, window, expected, now, Failed(true)))) <==>
        !a.Persisting? || a.before.dirty || a.before.Entry(id).cycles == a.after.Entry(id).cycles
  {
    hide CleanIsSaved, Ledger.Entry, ResetWindow, Persisted;
    var a := ResetWindow(z, w.l, id, window, expected, now);
    if a.Persisting? {
      ResetChanges(z, w.l, id, window, expected, now);
      LandedFailure(z, w, a, id);
    } else {
      ResetShows(z, w.l, id, window, expected, now);
      AttemptDays(z, w.l, id, window, expected, now, Failed(false));
      PersistedKeepsClean(z, w, a, Failed(false));
      NothingLanded(w, a);
    }
  }

  lemma NothingLanded(w: World, a: Attempt)
    requires !a.Persisting?
    ensures Persisted(w, a, Failed(true)) == Persisted(w, a, Failed(false))
  {}

  /** An adjustment that failed and landed keeps it exactly when the ledger was
      dirty or nothing was to be written. No adjustment is of nothing. */
  lemma FailedAdjustIff(z: Zone, w: World, id: string, amount: int, request: string)
    requires CleanIsSaved(w) && w.phase.Idle?
    ensures var a, clean := AdjustBalance(w.l, id, amount, request), CleanIsSaved(Next(z, w, Adjust(id, amount, request, Failed(true))));
      && (clean <==> !a.Persisting? || w.l.dirty || a.after.Entry(id).balance == w.l.Entry(id).balance)
      && (amount != 0 ==> (clean <==> !a.Persisting? || w.l.dirty))
  {
    hide CleanIsSaved, Ledger.Entry, AdjustBalance, Persisted;
    var a := AdjustBalance(w.l, id, amount, request);
    AdjustChanges(w.l, id, amount, request);
    if a.Persisting? {
      LandedFailure(z, w, a, id);
    } else {
      AdjustShows(w.l, id, amount, request);
      AdjustDays(w.l, id, amount, request, Failed(false));
      PersistedKeepsClean(z, w, a, Failed(false));
      NothingLanded(w, a);
    }
  }

  lemma SameKeyItself(u: KeyUsage)
    ensures SameKey(u, u)
  {}

  lemma ResetShows(z: Zone, l: Ledger, id: string, window: Window, expected: Option<Expected>, now: int)
    ensures var a := ResetWindow(z, l, id, window, expected, now); Shows(l, if a.Persisting? then a.before else a.ledger)
  {
    hide Read, ResetByHand;
    ReadShows(z, l, id, now);
  }

  lemma RestartKeepsClean(z: Zone, w: World, now: int)
    requires Inv(w) && Enabled(z, w, Restart(now))
    ensures CleanIsSaved(Next(z, w, Restart(now)))
  {
    hide Merged, Loaded, Oldest, Inv, Ledger.On, SameKey, Enabled;
    CrashRecovery(z, w, now);
    var u := Next(z, w, Restart(now));
    forall id ensures SameKey(u.l.Entry(id), u.cut.Entry(id)) {
      SameKeyFrom(u.l.Entry(id), u.cut.Entry(id));
    }
  }

  lemma SameKeyFrom(a: KeyUsage, b: KeyUsage)
    requires a.cycles == b.cycles && (a.cycles.Some? ==> a.balance == b.balance)
    ensures SameKey(a, b)
  {}

  /** A step keeps the meaning of the flag exactly when it is harmless. */
  lemma StepIsCleanIff(z: Zone, w: World, s: Step)
    requires Inv(w) && CleanIsSaved(w) && Enabled(z, w, s)
    ensures CleanIsSaved(Next(z, w, s)) <==> Harmless(z, w, s)
  {
    hide Inv, CleanIsSaved, Persisted, PlanFlush, MarkFlushed, Loaded, Merged, Worked, ResetWindow, AdjustBalance;
    match s
    case Reset(id, window, expected, now, outcome) =>
      if outcome == Failed(true) {
        FailedResetIff(z, w, id, window, expected, now);
      } else {
        AttemptDays(z, w.l, id, window, expected, now, outcome);
        ResetShows(z, w.l, id, window, expected, now);
        PersistedKeepsClean(z, w, ResetWindow(z, w.l, id, window, expected, now), outcome);
      }
    case Adjust(id, amount, request, outcome) =>
      if outcome == Failed(true) {
        FailedAdjustIff(z, w, id, amount, request);
      } else {
        AdjustDays(w.l, id, amount, request, outcome);
        AdjustShows(w.l, id, amount, request);
        PersistedKeepsClean(z, w, AdjustBalance(w.l, id, amount, request), outcome);
      }
    case Begin(now) => BeginKeepsClean(z, w, now);
    case WriteHistory(outcome) => WriteHistoryKeepsClean(z, w, outcome);
    case WriteLive(outcome) => WriteLiveKeepsClean(z, w, outcome);
    case Finish => FinishKeepsClean(z, w);
    case Restart(now) => RestartKeepsClean(z, w, now);
    case _ => WorkKeepsClean(z, w, s);
  }

  lemma AdjustShows(l: Ledger, id: string, amount: int, request: string)
    ensures var a := AdjustBalance(l, id, amount, request); Shows(l, if a.Persisting? then a.before else a.ledger)
  {
    hide Adjusted, Earlier;
  }

  lemma WriteHistoryKeepsClean(z: Zone, w: World, outcome: Outcome)
    requires CleanIsSaved(w) && w.phase.Planning?
    ensures CleanIsSaved(Next(z, w, WriteHistory(outcome)))
  {
    hide Ledger.On, SameKey;
  }

  lemma FirstBootClean(z: Zone, keys: seq<Key>, now: int)
    ensures CleanIsSaved(FirstBoot(z, keys, now))
  {
    hide Synced, Loaded, LiveSnapshot, LiveFileOf, Oldest, Ledger.On, SameKey;
    var w := FirstBoot(z, keys, now);
    SameEntriesSameDays(w.l, w.cut);
    forall id ensures SameKey(w.l.Entry(id), w.cut.Entry(id)) {
      SameKeyItself(w.l.Entry(id));
    }
  }

  lemma {:induction false} HarmlessRunIsClean(z: Zone, keys: seq<Key>, at: int, run: seq<World>, steps: seq<Step>, i: nat)
    requires IsRun(z, run, steps) && run[0] == FirstBoot(z, keys, at) && i < |run|
    requires forall k :: 0 <= k < i ==> Harmless(z, run[k], steps[k])
    ensures CleanIsSaved(run[i])
  {
    hide Inv, CleanIsSaved, Next, FirstBoot, Enabled, Harmless;
    if i == 0 {
      FirstBootClean(z, keys, at);
    } else {
      var k := i - 1;
      HarmlessRunIsClean(z, keys, at, run, steps, k);
      EveryRunIsSafe(z, keys, at, run, steps, k);
      assert Enabled(z, run[k], steps[k]) && run[k + 1] == Next(z, run[k], steps[k]);
      StepIsCleanIff(z, run[k], steps[k]);
    }
  }

  /** All along a run the flag keeps its meaning if and only if every step of
      it is harmless. */
  lemma EveryRunIsClean(z: Zone, keys: seq<Key>, at: int, run: seq<World>, steps: seq<Step>)
    requires IsRun(z, run, steps) && run[0] == FirstBoot(z, keys, at)
    ensures (forall i :: 0 <= i < |run| ==> CleanIsSaved(run[i])) <==> (forall k :: 0 <= k < |steps| ==> Harmless(z, run[k], steps[k]))
  {
    hide Inv, CleanIsSaved, Next, FirstBoot, Enabled, Harmless;
    if forall k :: 0 <= k < |steps| ==> Harmless(z, run[k], steps[k]) {
      forall i | 0 <= i < |run| ensures CleanIsSaved(run[i]) {
        HarmlessRunIsClean(z, keys, at, run, steps, i);
      }
    }
    if forall i :: 0 <= i < |run| ==> CleanIsSaved(run[i]) {
      forall k | 0 <= k < |steps| ensures Harmless(z, run[k], steps[k]) {
        EveryRunIsSafe(z, keys, at, run, steps, k);
        assert Enabled(z, run[k], steps[k]) && run[k + 1] == Next(z, run[k], steps[k]) && CleanIsSaved(run[k + 1]);
        StepIsCleanIff(z, run[k], steps[k]);
      }
    }
  }

  /** A crash while nothing is dirty loses nothing that retention keeps, if the
      run up to it was harmless. */
  lemma CleanCrashLosesNothing(z: Zone, keys: seq<Key>, at: int, run: seq<World>, steps: seq<Step>, i: nat, now: int)
    requires IsRun(z, run, steps) && run[0] == FirstBoot(z, keys, at) && i < |run|
    requires forall k :: 0 <= k < i ==> Harmless(z, run[k], steps[k])
    requires !run[i].l.dirty && Enabled(z, run[i], Restart(now))
    ensures var w, l := run[i], Next(z, run[i], Restart(now)).l;
      && (forall id, d: int :: d >= Higher(w.horizon, Oldest(z, now)) ==> l.On(id, d) == w.l.On(id, d))
      && (forall id :: SameKey(l.Entry(id), w.l.Entry(id)))
  {
    hide Merged, Loaded, Oldest, Inv, Ledger.On, FirstBoot, Harmless, Enabled;
    EveryRunIsSafe(z, keys, at, run, steps, i);
    HarmlessRunIsClean(z, keys, at, run, steps, i);
    CrashRecovery(z, run[i], now);
    InvMarks(run[i]);
  }

  lemma InvMarks(w: World)
    requires Inv(w)
    ensures forall d: int :: w.l.historyThrough.Covers(d) ==> w.HistoryMark().Covers(d)
  {
    hide PlanStands, SnapshotOf, HistoryAgrees;
  }

  /** Such an adjustment of a clean ledger leaves it clean while the files hold
      another balance. */
  lemma LandedFailureDiffers(z: Zone, w: World, id: string, amount: int)
    requires w.phase.Idle? && id in w.l.entries && w.l.entries[id].cycles.Some? && amount != 0 && !w.l.dirty
    ensures var u := Next(z, w, Adjust(id, amount, "", Failed(true)));
      u.l == w.l && u.cut.Entry(id).balance != u.l.Entry(id).balance && !SameKey(u.l.Entry(id), u.cut.Entry(id))
  {
    hide LiveFileOf, LiveSnapshot;
  }
}
