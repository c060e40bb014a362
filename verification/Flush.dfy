/** The two-file flush as a state machine: the ledger in memory, the live and
    the history file, and a flush under way. Every write may fail, with or
    without its content landing, and a restart may come at any point. */
module Flush {
  import opened Bytes
  import opened Calendar
  import opened Usage
  import opened Cycles
  import opened Ledger

  /** How far a flush has come; from is the ledger its plan was taken of. */
  datatype Phase =
    | Idle
    | Planning(plan: Plan, from: Ledger)
    | HistoryEnded(plan: Plan, from: Ledger, written: bool)
    | LiveEnded(plan: Plan, from: Ledger, written: bool, liveWritten: bool)

  /** cut is the ledger the live file's content was taken of, and horizon the
      oldest day no retention pass has reached yet. */
  datatype World = World(l: Ledger, live: LiveFile, history: Option<HistoryFile>, phase: Phase, cut: Ledger, horizon: int) {
    function HistoryMark(): Mark { if history.Some? then Through(history.value.through) else Never }
  }

  datatype Step =
    | Bill(id: string, model: string, delta: Bucket, deduct: bool, now: int)
    | Replay(id: string, model: string, delta: Bucket, deduct: bool, at: Option<int>, now: int)
    | Tidy(now: int)
    | Look(id: string, now: int)
    | Sync(keys: seq<Key>, now: int)
    | Forget(id: string)
    | Reset(id: string, window: Window, expected: Option<Expected>, now: int, outcome: Outcome)
    | Adjust(id: string, amount: int, request: string, outcome: Outcome)
    | Begin(now: int)
    | WriteHistory(outcome: Outcome)
    | WriteLive(outcome: Outcome)
    | Finish
    | Restart(now: int)

  /** A flush, a reset and an adjustment exclude one another; a restart loads
      only a watermark that is not ahead of the clock. */
  predicate Enabled(z: Zone, w: World, s: Step) {
    match s
    case Reset(_, _, _, _, _) => w.phase.Idle?
    case Adjust(_, _, _, _) => w.phase.Idle?
    case Begin(_) => w.phase.Idle?
    case WriteHistory(_) => w.phase.Planning?
    case WriteLive(_) => w.phase.HistoryEnded?
    case Finish => w.phase.LiveEnded?
    case Restart(now) => Merged(w.live, w.history).Dataset? && w.HistoryMark().AtMost(Through(DayOf(z, now)))
    case _ => true
  }

  function Higher(a: int, b: int): int { if a < b then b else a }

  /** What a step on the ledger alone makes of it. */
  function Worked(z: Zone, l: Ledger, s: Step): Ledger {
    match s
    case Bill(id, model, delta, deduct, now) => Recorded(z, l, id, model, delta, deduct, now)
    case Replay(id, model, delta, deduct, at, now) => Replayed(z, l, id, model, delta, deduct, at, now)
    case Tidy(now) => Evicted(z, l, now)
    case Look(id, now) => Read(z, l, id, now)
    case Sync(keys, now) => Synced(z, l, keys, now)
    case Forget(id) => Forgotten(l, id)
    case _ => l
  }

  function RaisedHorizon(z: Zone, horizon: int, s: Step): int {
    match s
    case Bill(_, _, _, _, now) => Higher(horizon, Oldest(z, now))
    case Replay(_, _, _, _, _, now) => Higher(horizon, Oldest(z, now))
    case Tidy(now) => Higher(horizon, Oldest(z, now))
    case Begin(now) => Higher(horizon, Oldest(z, now))
    case Restart(now) => Higher(horizon, Oldest(z, now))
    case _ => horizon
  }

  /** A change written under the ledger's lock. */
  function Persisted(w: World, a: Attempt, outcome: Outcome): World {
    if a.Persisting? && outcome.Landed() then
      w.(l := a.Ended(outcome), live := LiveFileOf(a.after.historyThrough, LiveSnapshot(a.after, a.after.historyThrough)),
         cut := a.after)
    else w.(l := a.Ended(outcome))
  }

  function Next(z: Zone, w: World, s: Step): World
    requires Enabled(z, w, s)
  {
    var u := w.(horizon := RaisedHorizon(z, w.horizon, s));
    match s
    case Reset(id, window, expected, now, outcome) => Persisted(u, ResetWindow(z, w.l, id, window, expected, now), outcome)
    case Adjust(id, amount, request, outcome) => Persisted(u, AdjustBalance(w.l, id, amount, request), outcome)
    case Begin(now) =>
      var p := PlanFlush(z, w.l, now);
      u.(l := p.ledger, phase := if p.plan.Some? then Planning(p.plan.value, p.ledger) else Idle)
    case WriteHistory(outcome) =>
      var plan := w.phase.plan;
      if plan.history.None? then u.(phase := HistoryEnded(plan, w.phase.from, false))
      else
        u.(history := if outcome.Landed() then plan.history else w.history,
           phase := HistoryEnded(plan, w.phase.from, outcome.Written?))
    case WriteLive(outcome) =>
      var plan := w.phase.plan;
      var through := if w.phase.written && plan.history.Some? then Through(plan.history.value.through) else plan.through;
      var ended := LiveEnded(plan, w.phase.from, w.phase.written, outcome.Written?);
      if outcome.Landed() then u.(live := LiveFileOf(through, plan.live), cut := w.phase.from, phase := ended)
      else u.(phase := ended)
    case Finish => u.(l := MarkFlushed(w.l, w.phase.plan, w.phase.written, w.phase.liveWritten), phase := Idle)
    case Restart(now) =>
      var dataset := Merged(w.live, w.history);
      u.(l := Loaded(z, dataset.keys, dataset.through, now), phase := Idle)
    case _ => u.(l := Worked(z, w.l, s))
  }

  /** The first boot: a ledger without days, written once. */
  function FirstBoot(z: Zone, keys: seq<Key>, now: int): World {
    var l := Synced(z, Loaded(z, map[], Never, now), keys, now);
    World(l.(dirty := false), LiveFileOf(Never, LiveSnapshot(l, Never)), None, Idle, l, Oldest(z, now))
  }

  // What the operations do to days.

  ghost predicate SameDays(a: Ledger, b: Ledger) { forall id, d: int :: b.On(id, d) == a.On(id, d) }

  predicate SameMarks(a: Ledger, b: Ledger) { b.historyThrough == a.historyThrough && b.closedThrough == a.closedThrough }

  /** From oldest on, nothing dated up to the watermark has changed. */
  ghost predicate KeepsClosed(a: Ledger, b: Ledger, m: Mark, oldest: int) {
    forall id, d: int :: m.Covers(d) && d >= oldest ==> b.On(id, d) == a.On(id, d)
  }

  lemma EvictedOn(z: Zone, l: Ledger, now: int, id: string, d: int)
    ensures d >= Oldest(z, now) ==> Evicted(z, l, now).On(id, d) == l.On(id, d)
    ensures Evicted(z, l, now).On(id, d) in {l.On(id, d), map[]}
  {
    hide DayOf, HistoryHolds;
    if id in l.entries {
      assert Kept(l.entries[id], Oldest(z, now)).days.Keys <= l.entries[id].days.Keys;
    }
  }

  lemma EvictedMarks(z: Zone, l: Ledger, now: int)
    ensures SameMarks(l, Evicted(z, l, now))
  {
    hide DayOf, HistoryHolds, KeptEntries, Oldest;
  }

  lemma EvictedKeeps(z: Zone, l: Ledger, now: int)
    ensures forall id, d: int :: d >= Oldest(z, now) ==> Evicted(z, l, now).On(id, d) == l.On(id, d)
  {
    hide Evicted, Ledger.On, Oldest;
    forall id, d: int | d >= Oldest(z, now) ensures Evicted(z, l, now).On(id, d) == l.On(id, d) {
      EvictedOn(z, l, now, id, d);
    }
  }

  /** Booking on one date leaves every other date alone. */
  lemma BookedElsewhere(l: Ledger, id: string, u: KeyUsage, date: int, model: string, delta: Bucket)
    requires u.days == l.Entry(id).days
    ensures forall k, d: int :: k != id || d != date ==> l.Put(id, OnDate(u, date, model, delta)).On(k, d) == l.On(k, d)
    ensures SameMarks(l, l.Put(id, OnDate(u, date, model, delta)))
    ensures l.Put(id, OnDate(u, date, model, delta)).On(id, date) == Booked(l.On(id, date), model, delta)
  {}

  lemma RecordedKeeps(z: Zone, l: Ledger, id: string, model: string, delta: Bucket, deduct: bool, now: int)
    ensures var r := Recorded(z, l, id, model, delta, deduct, now);
      SameMarks(l, r) && KeepsClosed(l, r, l.closedThrough, Oldest(z, now))
  {
    hide Charged, Evicted, FirstOpen, OnDate, Oldest, Ledger.On, Ledger.Put, Mark.Covers;
    var date := OpenDate(z, l, now);
    var u := Charged(z, l.Entry(id), model, delta, deduct, now);
    ChargedDays(z, l.Entry(id), model, delta, deduct, now, now);
    var booked := l.Put(id, OnDate(u, date, model, delta));
    BookedElsewhere(l, id, u, date, model, delta);
    NeverClosed(z, l.closedThrough, now);
    EvictedKeeps(z, booked, now);
    EvictedMarks(z, booked, now);
    DirtiedDays(Evicted(z, booked, now));
  }

  lemma ReplayedKeeps(z: Zone, l: Ledger, id: string, model: string, delta: Bucket, deduct: bool, at: Option<int>, now: int)
    ensures var r := Replayed(z, l, id, model, delta, deduct, at, now);
      SameMarks(l, r) && KeepsClosed(l, r, l.closedThrough, Oldest(z, now))
  {
    hide ChargedSince, Evicted, FirstOpen, OnDate, Oldest, Ledger.On, Ledger.Put, Mark.Covers;
    var t := BookedAt(at, now);
    var date := OpenDate(z, l, t);
    var u := ChargedSince(z, l.Entry(id), model, delta, deduct, t, now);
    ChargedDays(z, l.Entry(id), model, delta, deduct, t, now);
    var booked := l.Put(id, OnDate(u, date, model, delta));
    BookedElsewhere(l, id, u, date, model, delta);
    NeverClosed(z, l.closedThrough, t);
    EvictedKeeps(z, booked, now);
    EvictedMarks(z, booked, now);
    DirtiedDays(Evicted(z, booked, now));
  }

  lemma ChargedDays(z: Zone, u: KeyUsage, model: string, delta: Bucket, deduct: bool, at: int, now: int)
    ensures Charged(z, u, model, delta, deduct, now).days == u.days
    ensures ChargedSince(z, u, model, delta, deduct, at, now).days == u.days
  {
    hide AllAdvanced, BookedAll, BookedAllSince;
  }

  lemma DirtiedDays(l: Ledger)
    ensures SameDays(l, l.Dirtied()) && SameMarks(l, l.Dirtied())
  {}

  lemma PutDays(l: Ledger, id: string, u: KeyUsage)
    requires u.days == l.Entry(id).days
    ensures SameDays(l, l.Put(id, u)) && SameMarks(l, l.Put(id, u))
  {}

  lemma WithCyclesDays(z: Zone, l: Ledger, id: string, createdAt: Option<int>, now: int)
    ensures SameDays(l, WithCycles(z, l, id, createdAt, now)) && SameMarks(l, WithCycles(z, l, id, createdAt, now))
  {
    hide AllAdvanced, Opened, AnyExpired;
  }

  lemma {:induction false} WithAllCyclesDays(z: Zone, l: Ledger, keys: seq<Key>, now: int)
    ensures SameDays(l, WithAllCycles(z, l, keys, now)) && SameMarks(l, WithAllCycles(z, l, keys, now))
  {
    hide WithCycles, Ledger.On;
    if keys != [] {
      var earlier := WithAllCycles(z, l, keys[..|keys| - 1], now);
      WithAllCyclesDays(z, l, keys[..|keys| - 1], now);
      WithCyclesDays(z, earlier, keys[|keys| - 1].id, keys[|keys| - 1].createdAt, now);
    }
  }

  lemma OnlyKnownDays(l: Ledger, known: set<string>)
    ensures SameDays(l, OnlyKnown(l, known)) && SameMarks(l, OnlyKnown(l, known))
  {}

  lemma ForgottenDays(l: Ledger, id: string)
    ensures SameDays(l, Forgotten(l, id)) && SameMarks(l, Forgotten(l, id))
  {}

  lemma ReadDays(z: Zone, l: Ledger, id: string, now: int)
    ensures SameDays(l, Read(z, l, id, now)) && SameMarks(l, Read(z, l, id, now))
  {
    hide AllAdvanced, AnyExpired;
  }

  lemma RolledEntriesDays(z: Zone, l: Ledger, now: int)
    ensures SameDays(l, RolledEntries(z, l, now)) && SameMarks(l, RolledEntries(z, l, now))
  {
    hide AllAdvanced, AnyExpired;
  }

  /** No work on the ledger writes to a closed day it still keeps. */
  lemma ClosedDaysStay(z: Zone, w: World, s: Step)
    ensures var l := Worked(z, w.l, s);
      SameMarks(w.l, l) && KeepsClosed(w.l, l, w.l.closedThrough, RaisedHorizon(z, w.horizon, s))
  {
    hide Recorded, Replayed, Evicted, Read, Synced, Forgotten, Ledger.On, Oldest, Mark.Covers;
    match s
    case Bill(id, model, delta, deduct, now) => RecordedKeeps(z, w.l, id, model, delta, deduct, now);
    case Replay(id, model, delta, deduct, at, now) => ReplayedKeeps(z, w.l, id, model, delta, deduct, at, now);
    case Tidy(now) =>
      EvictedKeeps(z, w.l, now);
      EvictedMarks(z, w.l, now);
    case Look(id, now) => ReadDays(z, w.l, id, now);
    case Sync(keys, now) => SyncedDays(z, w.l, keys, now);
    case Forget(id) => ForgottenDays(w.l, id);
    case _ =>
  }

  lemma SyncedDays(z: Zone, l: Ledger, keys: seq<Key>, now: int)
    ensures SameDays(l, Synced(z, l, keys, now)) && SameMarks(l, Synced(z, l, keys, now))
  {
    hide WithAllCycles, OnlyKnown, Ledger.On;
    WithAllCyclesDays(z, l, keys, now);
    OnlyKnownDays(WithAllCycles(z, l, keys, now), set k | k in keys :: k.id);
  }

  // The invariant.

  function HistoryDays(history: Option<HistoryFile>, id: string, d: int): Models {
    if history.Some? && id in history.value.days then ModelsOf(history.value.days[id], d) else map[]
  }

  function LiveDays(keys: LiveKeys, id: string, d: int): Models { if id in keys then ModelsOf(keys[id].days, d) else map[] }

  /** A history file agrees with the ledger on every day it owns that
      retention keeps, and holds no later day. */
  ghost predicate HistoryAgrees(h: HistoryFile, l: Ledger, horizon: int) {
    && (forall id, d: int :: d <= h.through && d >= horizon ==> HistoryDays(Some(h), id, d) == l.On(id, d))
    && (forall id, d: int :: d > h.through ==> HistoryDays(Some(h), id, d) == map[])
  }

  /** A snapshot holds the periods and balances of the ledger it was taken of
      and its days after the watermark. */
  ghost predicate SnapshotOf(keys: LiveKeys, l: Ledger, through: Mark) {
    && (forall id, d: int :: !through.Covers(d) ==> LiveDays(keys, id, d) == l.On(id, d))
    && (forall id :: id in keys ==> id in l.entries && keys[id].cycles == l.entries[id].cycles && keys[id].balance == l.entries[id].balance)
    && (forall id :: id in l.entries && id !in keys ==> l.entries[id].cycles.None? && l.entries[id].balance.None?)
  }

  /** The watermarks in order: what the live file was trimmed against, what
      the ledger knows to be in the history file, what is in it, and what is
      closed. */
  predicate MarksInOrder(w: World) {
    && w.l.historyThrough.AtMost(w.HistoryMark()) && w.HistoryMark().AtMost(w.l.closedThrough)
    && w.live.through.AtMost(if w.phase.LiveEnded? && w.phase.written then w.HistoryMark() else w.l.historyThrough)
  }

  /** A plan under way was taken against the current watermark. */
  ghost predicate PlanStands(w: World) {
    w.phase.Idle? ||
    var p := w.phase.plan;
    && p.through == w.l.historyThrough && SnapshotOf(p.live, w.phase.from, p.through)
    && (p.history.Some? ==>
          && p.through.AtMost(Through(p.history.value.through))
          && Through(p.history.value.through).AtMost(w.l.closedThrough)
          && HistoryAgrees(p.history.value, w.l, w.horizon))
    && (!w.phase.Planning? && w.phase.written ==> p.history.Some? && w.history == p.history)
  }

  ghost predicate Inv(w: World) {
    && MarksInOrder(w) && PlanStands(w) && SnapshotOf(w.live.keys, w.cut, w.live.through)
    && (w.history.Some? ==> HistoryAgrees(w.history.value, w.l, w.horizon))
  }

  lemma HistoryStaysAgreed(h: HistoryFile, a: Ledger, b: Ledger, before: int, horizon: int)
    requires HistoryAgrees(h, a, before) && before <= horizon
    requires Through(h.through).AtMost(a.closedThrough) && KeepsClosed(a, b, a.closedThrough, horizon)
    ensures HistoryAgrees(h, b, horizon)
  {
    hide Ledger.On, HistoryDays;
  }

  lemma WorkKeepsInv(z: Zone, w: World, s: Step)
    requires Inv(w)
    ensures Inv(w.(l := Worked(z, w.l, s), horizon := RaisedHorizon(z, w.horizon, s)))
  {
    hide Worked, RaisedHorizon, HistoryAgrees, SnapshotOf, KeepsClosed, Mark.AtMost;
    ClosedDaysStay(z, w, s);
    HorizonRises(z, w.horizon, s);
    var l, horizon := Worked(z, w.l, s), RaisedHorizon(z, w.horizon, s);
    if w.history.Some? {
      HistoryStaysAgreed(w.history.value, w.l, l, w.horizon, horizon);
    }
    if !w.phase.Idle? && w.phase.plan.history.Some? {
      HistoryStaysAgreed(w.phase.plan.history.value, w.l, l, w.horizon, horizon);
    }
  }

  lemma HorizonRises(z: Zone, horizon: int, s: Step)
    ensures horizon <= RaisedHorizon(z, horizon, s)
  {
    hide Oldest;
  }

  // Snapshots.

  lemma LiveSnapshotIsSnapshot(l: Ledger, through: Mark)
    ensures SnapshotOf(LiveSnapshot(l, through), l, through)
  {}

  /** Writing a snapshot trims it further and drops what is empty. */
  lemma LiveFileIsSnapshot(keys: LiveKeys, l: Ledger, taken: Mark, through: Mark)
    requires SnapshotOf(keys, l, taken) && taken.AtMost(through)
    ensures SnapshotOf(LiveFileOf(through, keys).keys, l, through)
  {
    forall id, d: int | !through.Covers(d) ensures LiveDays(LiveFileOf(through, keys).keys, id, d) == l.On(id, d) {
      TrimmedDays(keys, through, id, d);
      assert !taken.Covers(d);
    }
  }

  lemma TrimmedDays(keys: LiveKeys, through: Mark, id: string, d: int)
    requires !through.Covers(d)
    ensures LiveDays(LiveFileOf(through, keys).keys, id, d) == LiveDays(keys, id, d)
  {
    if id in keys && Empty(TrimmedKey(keys[id], through)) {
      assert d !in TrimmedKey(keys[id], through).days;
    }
  }

  lemma HistorySnapshotAgrees(l: Ledger, through: int, horizon: int)
    ensures HistoryAgrees(HistoryFile(through, HistorySnapshot(l, through)), l, horizon)
  {
    var h := HistoryFile(through, HistorySnapshot(l, through));
    forall id, d: int ensures HistoryDays(Some(h), id, d) == if d <= through then l.On(id, d) else map[] {
      HistorySnapshotOn(l, through, id, d);
    }
  }

  lemma HistorySnapshotOn(l: Ledger, through: int, id: string, d: int)
    ensures HistoryDays(Some(HistoryFile(through, HistorySnapshot(l, through))), id, d) ==
            if d <= through then l.On(id, d) else map[]
  {
    if id in l.entries && d in l.entries[id].days && d <= through && l.entries[id].days[d] != map[] {
      assert d in DaysUpTo(l.entries[id].days, through);
    }
  }

  // Steps.

  lemma PersistedKeepsInv(z: Zone, w: World, a: Attempt, outcome: Outcome)
    requires Inv(w) && w.phase.Idle?
    requires SameDays(w.l, a.Ended(outcome)) && SameMarks(w.l, a.Ended(outcome))
    requires a.Persisting? ==> a.after.historyThrough == w.l.historyThrough
    ensures Inv(Persisted(w, a, outcome))
  {
    hide LiveSnapshot, LiveFileOf, SnapshotOf, Ledger.On, HistoryDays;
    if a.Persisting? && outcome.Landed() {
      LiveSnapshotIsSnapshot(a.after, a.after.historyThrough);
      LiveFileIsSnapshot(LiveSnapshot(a.after, a.after.historyThrough), a.after, a.after.historyThrough, a.after.historyThrough);
      LiveFileThrough(a.after.historyThrough, LiveSnapshot(a.after, a.after.historyThrough));
    }
  }

  lemma LiveFileThrough(through: Mark, keys: LiveKeys)
    ensures LiveFileOf(through, keys).through == through
  {}

  lemma AttemptDays(z: Zone, l: Ledger, id: string, w: Window, expected: Option<Expected>, now: int, outcome: Outcome)
    ensures var a := ResetWindow(z, l, id, w, expected, now);
      SameDays(l, a.Ended(outcome)) && SameMarks(l, a.Ended(outcome)) && (a.Persisting? ==> a.after.historyThrough == l.historyThrough)
  {
    hide ResetByHand, Read, CycleSet.With;
    var before := Read(z, l, id, now);
    ReadDays(z, l, id, now);
    var a := ResetWindow(z, l, id, w, expected, now);
    if a.Persisting? {
      var u := before.Entry(id).(cycles := Some(before.Entry(id).cycles.value.With(w, ResetByHand(z, w, now))));
      PutDays(before, id, u);
      DirtiedDays(before.Put(id, u));
    }
  }

  lemma AdjustDays(l: Ledger, id: string, amount: int, request: string, outcome: Outcome)
    ensures var a := AdjustBalance(l, id, amount, request);
      SameDays(l, a.Ended(outcome)) && SameMarks(l, a.Ended(outcome)) && (a.Persisting? ==> a.after.historyThrough == l.historyThrough)
  {
    hide Adjusted, Earlier, Latest;
  }

  lemma BeginKeepsInv(z: Zone, w: World, now: int)
    requires Inv(w) && w.phase.Idle?
    ensures Inv(Next(z, w, Begin(now)))
  {
    hide Evicted, RolledEntries, LiveSnapshot, HistorySnapshot, HistoryAgrees, SnapshotOf, NeedsHistory, KeepsClosed, Ledger.On;
    var evicted := Evicted(z, w.l, now);
    var l := RolledEntries(z, evicted, now);
    EvictedKeeps(z, w.l, now);
    EvictedMarks(z, w.l, now);
    RolledEntriesDays(z, evicted, now);
    var planned := PlanFlush(z, w.l, now);
    var u := Next(z, w, Begin(now));
    LiveSnapshotIsSnapshot(planned.ledger, l.historyThrough);
    PlannedShape(z, w.l, now, l);
    assert KeepsClosed(w.l, planned.ledger, w.l.closedThrough, u.horizon) by { BeginDays(z, w, now, l); }
    if w.history.Some? {
      HistoryStaysAgreed(w.history.value, w.l, planned.ledger, w.horizon, u.horizon);
    }
    if planned.plan.Some? && planned.plan.value.history.Some? {
      var through := planned.plan.value.history.value.through;
      HistorySnapshotAgrees(planned.ledger, through, u.horizon);
    }
  }

  lemma BeginDays(z: Zone, w: World, now: int, l: Ledger)
    requires l == RolledEntries(z, Evicted(z, w.l, now), now)
    ensures KeepsClosed(w.l, PlanFlush(z, w.l, now).ledger, w.l.closedThrough, Higher(w.horizon, Oldest(z, now)))
  {
    hide Evicted, RolledEntries, LiveSnapshot, HistorySnapshot, NeedsHistory, Oldest, Mark.Covers;
    EvictedKeeps(z, w.l, now);
    RolledEntriesDays(z, Evicted(z, w.l, now), now);
    var p := PlanFlush(z, w.l, now).ledger;
    assert forall id, d: int :: p.On(id, d) == l.On(id, d);
  }

  /** What a plan says, once the ledger is tidied. */
  lemma PlannedShape(z: Zone, before: Ledger, now: int, l: Ledger)
    requires l == RolledEntries(z, Evicted(z, before, now), now)
    ensures var p := PlanFlush(z, before, now);
      && p.ledger.historyThrough == l.historyThrough && l.closedThrough.AtMost(p.ledger.closedThrough)
      && p.ledger.entries == l.entries
      && (p.plan.Some? ==>
            && p.plan.value.through == l.historyThrough && p.plan.value.live == LiveSnapshot(p.ledger, l.historyThrough)
            && (p.plan.value.history.Some? ==> var h := p.plan.value.history.value;
                  && h.days == HistorySnapshot(p.ledger, h.through)
                  && l.historyThrough.AtMost(Through(h.through)) && Through(h.through).AtMost(p.ledger.closedThrough)))
  {
    hide Evicted, RolledEntries, NeedsHistory, DayOf;
  }

  lemma WriteHistoryKeepsInv(z: Zone, w: World, outcome: Outcome)
    requires Inv(w) && w.phase.Planning?
    ensures Inv(Next(z, w, WriteHistory(outcome)))
  {
    hide HistoryAgrees, SnapshotOf;
  }

  lemma WriteLiveKeepsInv(z: Zone, w: World, outcome: Outcome)
    requires Inv(w) && w.phase.HistoryEnded?
    ensures Inv(Next(z, w, WriteLive(outcome)))
  {
    hide HistoryAgrees, SnapshotOf, LiveFileOf;
    var plan := w.phase.plan;
    var through := if w.phase.written && plan.history.Some? then Through(plan.history.value.through) else plan.through;
    if outcome.Landed() {
      LiveFileIsSnapshot(plan.live, w.phase.from, plan.through, through);
      LiveFileThrough(through, plan.live);
    }
  }

  lemma FinishKeepsInv(z: Zone, w: World)
    requires Inv(w) && w.phase.LiveEnded?
    ensures Inv(Next(z, w, Finish))
  {
    hide SnapshotOf, HistoryDays;
    var l := Next(z, w, Finish).l;
    assert l.entries == w.l.entries;
  }

  // Loading.

  lemma MergedOn(live: LiveFile, h: HistoryFile, id: string, d: int)
    requires live.through.AtMost(Through(h.through))
    requires d > h.through ==> HistoryDays(Some(h), id, d) == map[]
    ensures var keys := Merged(live, Some(h)).keys;
      ModelsOf((if id in keys then keys[id] else NO_USAGE).days, d) ==
        if d <= h.through then HistoryDays(Some(h), id, d) else LiveDays(live.keys, id, d)
  {
    var keys := Merged(live, Some(h)).keys;
    if id in keys && id in live.keys {
      var later := DaysAfterMark(live.keys[id].days, Through(h.through));
      assert d in later <==> d in live.keys[id].days && d > h.through;
    }
  }

  lemma MergedOnAlone(live: LiveFile, id: string, d: int)
    requires live.through == Never
    ensures var keys := Merged(live, None).keys;
      ModelsOf((if id in keys then keys[id] else NO_USAGE).days, d) == LiveDays(live.keys, id, d)
  {
    var keys := Merged(live, None).keys;
    if id in keys {
      assert keys[id].days == map[] + DaysAfterMark(live.keys[id].days, Never);
    }
  }

  lemma MergedPeriods(live: LiveFile, history: Option<HistoryFile>, id: string)
    requires Merged(live, history).Dataset?
    ensures var keys := Merged(live, history).keys;
      var u := if id in keys then keys[id] else NO_USAGE;
      u.cycles == (if id in live.keys then live.keys[id].cycles else None) && u.balance == if id in live.keys then live.keys[id].balance else None
  {
    hide DaysAfterMark;
  }

  lemma MergeSucceeds(w: World)
    requires Inv(w)
    ensures Merged(w.live, w.history).Dataset? && Merged(w.live, w.history).through == w.HistoryMark()
  {
    hide HistoryAgrees, SnapshotOf, MergedKey;
  }

  /** What the files hold of a day: closed days as in memory, later ones as in
      the last cut that landed. */
  lemma FilesOn(w: World, id: string, d: int)
    requires Inv(w) && d >= w.horizon
    ensures Merged(w.live, w.history).Dataset?
    ensures var keys := Merged(w.live, w.history).keys;
      ModelsOf((if id in keys then keys[id] else NO_USAGE).days, d) == (if w.HistoryMark().Covers(d) then w.l else w.cut).On(id, d)
  {
    hide Merged, LiveDays, HistoryDays, Ledger.On;
    MergeSucceeds(w);
    if w.history.None? {
      MergedOnAlone(w.live, id, d);
    } else {
      MergedOn(w.live, w.history.value, id, d);
    }
  }

  /** Loading at any crash point succeeds, and gives every retained day up to
      the history watermark as memory had it, every later day as the last
      landed live cut had it, and that cut's periods and balances. */
  lemma CrashRecovery(z: Zone, w: World, now: int)
    requires Inv(w)
    ensures Merged(w.live, w.history).Dataset?
    ensures var dataset := Merged(w.live, w.history);
      var l := Loaded(z, dataset.keys, dataset.through, now);
      && l.historyThrough == l.closedThrough == w.HistoryMark()
      && (forall id, d: int :: d >= Higher(w.horizon, Oldest(z, now)) ==>
            l.On(id, d) == (if w.HistoryMark().Covers(d) then w.l else w.cut).On(id, d))
      && (forall id :: l.Entry(id).cycles == w.cut.Entry(id).cycles)
      && (forall id :: l.Entry(id).cycles.Some? ==> l.Entry(id).balance == w.cut.Entry(id).balance)
  {
    hide Merged, Oldest, Evicted, Ledger.On, SnapshotOf, HistoryAgrees, MarksInOrder, PlanStands;
    MergeSucceeds(w);
    var dataset := Merged(w.live, w.history);
    var raw := Ledger(dataset.keys, false, 0, dataset.through, dataset.through, false, None);
    EvictedMarks(z, raw, now);
    forall id, d: int | d >= Higher(w.horizon, Oldest(z, now))
      ensures Evicted(z, raw, now).On(id, d) == (if w.HistoryMark().Covers(d) then w.l else w.cut).On(id, d)
    {
      EvictedOn(z, raw, now, id, d);
      FilesOn(w, id, d);
      RawOn(raw, id, d);
    }
    forall id
      ensures Evicted(z, raw, now).Entry(id).cycles == w.cut.Entry(id).cycles
      ensures Evicted(z, raw, now).Entry(id).cycles.Some? ==> Evicted(z, raw, now).Entry(id).balance == w.cut.Entry(id).balance
    {
      MergedPeriods(w.live, w.history, id);
      EvictedPeriods(z, raw, now, id);
      SnapshotPeriods(w.live.keys, w.cut, w.live.through, id);
    }
  }

  lemma RawOn(l: Ledger, id: string, d: int)
    ensures l.On(id, d) == ModelsOf((if id in l.entries then l.entries[id] else NO_USAGE).days, d)
  {}

  lemma EvictedPeriods(z: Zone, l: Ledger, now: int, id: string)
    ensures var e := Evicted(z, l, now);
      e.Entry(id).cycles == l.Entry(id).cycles && (e.Entry(id).cycles.Some? ==> e.Entry(id).balance == l.Entry(id).balance)
  {
    hide HistoryHolds, DayOf, KeptDays;
  }

  lemma SnapshotPeriods(keys: LiveKeys, l: Ledger, through: Mark, id: string)
    requires SnapshotOf(keys, l, through)
    ensures (if id in keys then keys[id].cycles else None) == l.Entry(id).cycles
    ensures (if id in keys then keys[id].balance else None) == l.Entry(id).balance
  {
    hide Ledger.On;
  }

  lemma RestartKeepsInv(z: Zone, w: World, now: int)
    requires Inv(w) && Enabled(z, w, Restart(now))
    ensures Inv(Next(z, w, Restart(now)))
  {
    hide Merged, Loaded, Oldest, SnapshotOf, Ledger.On, HistoryDays, Enabled;
    CrashRecovery(z, w, now);
    var u := Next(z, w, Restart(now));
    if w.history.Some? {
      var h := w.history.value;
      forall id, d: int | d <= h.through && d >= u.horizon ensures HistoryDays(Some(h), id, d) == u.l.On(id, d) {
        assert w.HistoryMark().Covers(d) && d >= w.horizon;
      }
    }
  }

  lemma StepKeepsInv(z: Zone, w: World, s: Step)
    requires Inv(w) && Enabled(z, w, s)
    ensures Inv(Next(z, w, s))
  {
    hide Inv, Persisted, PlanFlush, MarkFlushed, Loaded, Merged, Worked;
    match s
    case Reset(id, window, expected, now, outcome) =>
      AttemptDays(z, w.l, id, window, expected, now, outcome);
      PersistedKeepsInv(z, w, ResetWindow(z, w.l, id, window, expected, now), outcome);
    case Adjust(id, amount, request, outcome) =>
      AdjustDays(w.l, id, amount, request, outcome);
      PersistedKeepsInv(z, w, AdjustBalance(w.l, id, amount, request), outcome);
    case Begin(now) => BeginKeepsInv(z, w, now);
    case WriteHistory(outcome) => WriteHistoryKeepsInv(z, w, outcome);
    case WriteLive(outcome) => WriteLiveKeepsInv(z, w, outcome);
    case Finish => FinishKeepsInv(z, w);
    case Restart(now) => RestartKeepsInv(z, w, now);
    case _ => WorkKeepsInv(z, w, s);
  }

  lemma FirstBootInv(z: Zone, keys: seq<Key>, now: int)
    ensures Inv(FirstBoot(z, keys, now))
  {
    hide LiveSnapshot, LiveFileOf, SnapshotOf, WithAllCycles, OnlyKnown, Evicted;
    var raw := Ledger(map[], false, 0, Never, Never, false, None);
    var l := Synced(z, Loaded(z, map[], Never, now), keys, now);
    EvictedMarks(z, raw, now);
    SyncedDays(z, Evicted(z, raw, now), keys, now);
    LiveSnapshotIsSnapshot(l, Never);
    LiveFileIsSnapshot(LiveSnapshot(l, Never), l, Never, Never);
    LiveFileThrough(Never, LiveSnapshot(l, Never));
  }

  /** The worlds a run goes through, first to last. */
  ghost predicate IsRun(z: Zone, run: seq<World>, steps: seq<Step>) {
    && |run| == |steps| + 1
    && forall i :: 0 <= i < |steps| ==> Enabled(z, run[i], steps[i]) && run[i + 1] == Next(z, run[i], steps[i])
  }

  /** In every world of every run from a first boot the watermarks are in
      order and the files load to what the last cuts held. */
  lemma {:induction false} EveryRunIsSafe(z: Zone, keys: seq<Key>, at: int, run: seq<World>, steps: seq<Step>, i: nat)
    requires IsRun(z, run, steps) && run[0] == FirstBoot(z, keys, at) && i < |run|
    ensures Inv(run[i])
  {
    hide Inv, Next, FirstBoot, Enabled;
    if i == 0 {
      FirstBootInv(z, keys, at);
    } else {
      EveryRunIsSafe(z, keys, at, run, steps, i - 1);
      assert Enabled(z, run[i - 1], steps[i - 1]) && run[i - 1 + 1] == Next(z, run[i - 1], steps[i - 1]);
      StepKeepsInv(z, run[i - 1], steps[i - 1]);
    }
  }

  /** Wherever a run crashes, a restart is refused exactly when the history
      watermark is ahead of the clock, and otherwise recovers. */
  lemma EveryCrashRecovers(z: Zone, keys: seq<Key>, at: int, run: seq<World>, steps: seq<Step>, i: nat, now: int)
    requires IsRun(z, run, steps) && run[0] == FirstBoot(z, keys, at) && i < |run|
    ensures Enabled(z, run[i], Restart(now)) <==> run[i].HistoryMark().AtMost(Through(DayOf(z, now)))
    ensures Enabled(z, run[i], Restart(now)) ==> var w, l := run[i], Next(z, run[i], Restart(now)).l;
      && (forall id, d: int :: d >= Higher(w.horizon, Oldest(z, now)) ==>
            l.On(id, d) == (if w.HistoryMark().Covers(d) then w.l else w.cut).On(id, d))
      && (forall id :: l.Entry(id).cycles == w.cut.Entry(id).cycles)
      && (forall id :: l.Entry(id).cycles.Some? ==> l.Entry(id).balance == w.cut.Entry(id).balance)
  {
    hide Inv, FirstBoot, Loaded, Merged, Oldest, Ledger.On;
    EveryRunIsSafe(z, keys, at, run, steps, i);
    MergeSucceeds(run[i]);
    CrashRecovery(z, run[i], now);
  }

  /** A whole flush whose writes succeed. */
  function Flushed(z: Zone, w: World, now: int): World
    requires w.phase.Idle? && PlanFlush(z, w.l, now).plan.Some?
  {
    Next(z, Next(z, Next(z, Next(z, w, Begin(now)), WriteHistory(Written)), WriteLive(Written)), Finish)
  }

  lemma FlushedKeepsInv(z: Zone, w: World, now: int)
    requires Inv(w) && w.phase.Idle? && PlanFlush(z, w.l, now).plan.Some?
    ensures Inv(Flushed(z, w, now))
  {
    hide PlanFlush, Inv, LiveFileOf, MarkFlushed, Merged;
    var a := Next(z, w, Begin(now));
    StepKeepsInv(z, w, Begin(now));
    var b := Next(z, a, WriteHistory(Written));
    StepKeepsInv(z, a, WriteHistory(Written));
    var c := Next(z, b, WriteLive(Written));
    StepKeepsInv(z, b, WriteLive(Written));
    StepKeepsInv(z, c, Finish);
  }

  lemma FlushedIsClean(z: Zone, w: World, now: int)
    requires w.phase.Idle? && PlanFlush(z, w.l, now).plan.Some?
    ensures var f, p := Flushed(z, w, now), PlanFlush(z, w.l, now).ledger;
      !f.l.dirty && f.l.entries == p.entries && f.cut == p && f.horizon == Higher(w.horizon, Oldest(z, now))
  {
    hide PlanFlush, LiveFileOf, Oldest;
    PlanRevision(z, w.l, now);
  }

  /** A flush whose writes succeed saves everything it planned: loading gives
      the ledger back, and nothing is left to write. */
  lemma CleanFlushSavesAll(z: Zone, w: World, now: int, later: int)
    requires Inv(w) && w.phase.Idle? && PlanFlush(z, w.l, now).plan.Some? && Oldest(z, later) <= Oldest(z, now)
    ensures var p, f := PlanFlush(z, w.l, now).ledger, Flushed(z, w, now);
      var l := Loaded(z, Merged(f.live, f.history).keys, Merged(f.live, f.history).through, later);
      && !f.l.dirty && f.l.entries == p.entries && Merged(f.live, f.history).Dataset?
      && (forall id, d: int :: d >= f.horizon ==> l.On(id, d) == p.On(id, d))
      && (forall id :: l.Entry(id).cycles == p.Entry(id).cycles)
      && (forall id :: l.Entry(id).cycles.Some? ==> l.Entry(id).balance == p.Entry(id).balance)
  {
    hide PlanFlush, Inv, Loaded, Merged, Oldest, Ledger.On, Ledger.Entry, Flushed;
    var p, f := PlanFlush(z, w.l, now).ledger, Flushed(z, w, now);
    FlushedKeepsInv(z, w, now);
    FlushedIsClean(z, w, now);
    CrashRecovery(z, f, later);
    SameEntriesSameDays(f.l, p);
  }

  lemma PlanRevision(z: Zone, l: Ledger, now: int)
    ensures var p := PlanFlush(z, l, now); p.plan.Some? ==> p.plan.value.revision == p.ledger.revision
  {
    hide Evicted, RolledEntries, NeedsHistory, LiveSnapshot, HistorySnapshot, DayOf;
  }

  lemma SameEntriesSameDays(a: Ledger, b: Ledger)
    requires a.entries == b.entries
    ensures SameDays(a, b) && forall id :: a.Entry(id) == b.Entry(id)
  {}

  /** A dataset written from scratch, the days before today as history and the
      rest live, loads back as it was, for everything retention keeps. */
  lemma WrittenDatasetLoads(z: Zone, l: Ledger, now: int, later: int)
    ensures var through := DayOf(z, now) - 1;
      var live := LiveFileOf(Through(through), LiveSnapshot(l, Through(through)));
      var dataset := Merged(live, Some(HistoryFile(through, HistorySnapshot(l, through))));
      && dataset.Dataset? && dataset.through == Through(through)
      && var back := Loaded(z, dataset.keys, dataset.through, later);
         && (forall id, d: int :: d >= Oldest(z, later) ==> back.On(id, d) == l.On(id, d))
         && (forall id :: back.Entry(id).cycles == l.Entry(id).cycles)
         && (forall id :: back.Entry(id).cycles.Some? ==> back.Entry(id).balance == l.Entry(id).balance)
  {
    hide LiveSnapshot, HistorySnapshot, LiveFileOf, Loaded, Merged, Oldest, Ledger.On, DayOf;
    var through := DayOf(z, now) - 1;
    var live := LiveFileOf(Through(through), LiveSnapshot(l, Through(through)));
    var h := HistoryFile(through, HistorySnapshot(l, through));
    var horizon := Oldest(z, later);
    var w := World(l.(historyThrough := Through(through), closedThrough := Through(through)), live, Some(h), Idle, l, horizon);
    LiveSnapshotIsSnapshot(l, Through(through));
    LiveFileIsSnapshot(LiveSnapshot(l, Through(through)), l, Through(through), Through(through));
    LiveFileThrough(Through(through), LiveSnapshot(l, Through(through)));
    HistorySnapshotAgrees(l, through, horizon);
    SameEntriesSameDays(w.l, l);
    AgreesBySameDays(h, l, w.l, horizon);
    CrashRecovery(z, w, later);
    MergeSucceeds(w);
  }

  lemma AgreesBySameDays(h: HistoryFile, a: Ledger, b: Ledger, horizon: int)
    requires HistoryAgrees(h, a, horizon) && SameDays(b, a)
    ensures HistoryAgrees(h, b, horizon)
  {
    hide Ledger.On, HistoryDays;
  }
}
