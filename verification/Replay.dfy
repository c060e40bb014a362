/** Replaying the journal against booking directly: what the newer instance
    makes of the cut and the journal is what the older one kept in memory. */
module Replay {
  import opened Bytes
  import opened Calendar
  import opened Usage
  import opened Cycles
  import opened Ledger
  import opened Flush
  import opened FlushClean

  /** A call the older instance booked at `booked` and journaled as of `at`, and
      the newer one replayed at `replayed`. */
  datatype Call = Call(id: string, model: string, delta: Bucket, deduct: bool, booked: int, at: int, replayed: int)

  /** When a call counts as made, and when it is worked off: journaled says
      whether it reaches the ledger through the journal. */
  function TimeOf(c: Call, journaled: bool): int { if journaled then c.at else c.booked }

  function ClockOf(c: Call, journaled: bool): int { if journaled then c.replayed else c.booked }

  function OneBooked(z: Zone, l: Ledger, c: Call, journaled: bool): Ledger {
    if journaled then Replayed(z, l, c.id, c.model, c.delta, c.deduct, Some(c.at), c.replayed)
    else Recorded(z, l, c.id, c.model, c.delta, c.deduct, c.booked)
  }

  function AllBooked(z: Zone, l: Ledger, calls: seq<Call>, journaled: bool): Ledger {
    if calls == [] then l else OneBooked(z, AllBooked(z, l, calls[..|calls| - 1], journaled), calls[|calls| - 1], journaled)
  }

  /** What the older instance keeps in memory. */
  function Direct(z: Zone, l: Ledger, calls: seq<Call>): Ledger { AllBooked(z, l, calls, false) }

  /** What the newer one makes of the journal. */
  function Taken(z: Zone, l: Ledger, calls: seq<Call>): Ledger { AllBooked(z, l, calls, true) }

  /** The same periods once rolled to now, the same balance, and the same
      buckets on every day retention keeps. */
  ghost predicate SameUsage(z: Zone, u: KeyUsage, v: KeyUsage, now: int) {
    && (u.cycles.Some? <==> v.cycles.Some?)
    && (u.cycles.Some? ==> AllAdvanced(z, u.cycles.value, now) == AllAdvanced(z, v.cycles.value, now) && u.balance == v.balance)
    && forall d: int :: d >= Oldest(z, now) ==> ModelsOf(u.days, d) == ModelsOf(v.days, d)
  }

  ghost predicate Same(z: Zone, a: Ledger, b: Ledger, now: int) {
    forall id :: SameUsage(z, a.Entry(id), b.Entry(id), now)
  }

  /** Loadable periods, none of them in the future. */
  ghost predicate Started(z: Zone, u: KeyUsage, now: int) {
    u.cycles.Some? ==> AllValid(z, u.cycles.value) && forall w: Window :: u.cycles.value.Of(w).startedAt <= now
  }

  ghost predicate AllStarted(z: Zone, l: Ledger, now: int) { forall id :: Started(z, l.Entry(id), now) }

  lemma OldestRises(z: Zone, t: int, now: int)
    requires t <= now
    ensures Oldest(z, t) <= Oldest(z, now)
  {
    hide DayOf;
    DaysInOrder(z, t, now);
  }

  /** What agrees now agrees later. */
  lemma SameLater(z: Zone, u: KeyUsage, v: KeyUsage, t: int, now: int, su: int, sv: int)
    requires SameUsage(z, u, v, t) && t <= now && Started(z, u, su) && Started(z, v, sv)
    ensures SameUsage(z, u, v, now)
  {
    hide AllAdvanced, AllValid, Oldest, DayOf;
    OldestRises(z, t, now);
    if u.cycles.Some? {
      AllAdvancedInStops(z, u.cycles.value, t, now);
      AllAdvancedInStops(z, v.cycles.value, t, now);
    }
  }

  // One window: booking commutes with rolling forward.

  /** A period booked at t and rolled to now, against the same period rolled to
      now and booked as of at: alike exactly unless the period under way now
      began in between. */
  lemma BookThenRoll(z: Zone, w: Window, c: Cycle, model: string, delta: Bucket, t: int, at: int, now: int)
    requires Valid(z, w, c) && c.startedAt <= t <= at <= now
    ensures Advanced(z, w, BookedCycle(Advanced(z, w, c, t), model, delta), now) ==
            BookedSince(Advanced(z, w, c, now), model, delta, at)
            <==> !(t < Advanced(z, w, c, now).startedAt <= at)
  {
    hide Increasing, DayOf, Advanced, Valid;
    var r := Advanced(z, w, c, t);
    AdvancedIsValid(z, w, c, t);
    AdvanceInStops(z, w, c, t, now);
    RollIgnoresModels(z, w, r, Booked(r.byModel, model, delta), now);
    if now >= r.resetsAt {
      StartsAtDeadline(z, w, r, now);
      AdvancedShape(z, w, r, now);
      assert model in Booked(map[], model, delta);
    }
  }

  /** No period begins within a day once it has begun. */
  lemma NoneBeginsWithin(z: Zone, w: Window, c: Cycle, t: int, at: int, now: int)
    requires Valid(z, w, c) && c.startedAt <= t <= at <= now && DayOf(z, t) == DayOf(z, at)
    ensures !(t < Advanced(z, w, c, now).startedAt <= at)
  {
    hide Increasing, DayOf, Advanced, Valid;
    AdvancedShape(z, w, c, now);
    if now >= c.resetsAt {
      StartsAtDeadline(z, w, c, now);
      var d := DayOf(z, Advanced(z, w, c, now).startedAt);
      AfterStart(z, t, d);
      AfterStart(z, at, d);
    }
  }

  lemma RollIgnoresModels(z: Zone, w: Window, c: Cycle, models: Models, now: int)
    ensures now < c.resetsAt ==> Advanced(z, w, c.(byModel := models), now) == c.(byModel := models) && Advanced(z, w, c, now) == c
    ensures now >= c.resetsAt ==> Advanced(z, w, c.(byModel := models), now) == Advanced(z, w, c, now)
  {
    hide DayOf;
  }

  // One call.

  lemma BookedStarted(z: Zone, cs: CycleSet, model: string, delta: Bucket, at: int, since: int, now: int)
    requires AllValid(z, cs) && since <= now && forall w: Window :: cs.Of(w).startedAt <= since
    ensures var a, b := BookedAll(AllAdvanced(z, cs, now), model, delta), BookedAllSince(AllAdvanced(z, cs, now), model, delta, at);
      AllValid(z, a) && AllValid(z, b) && forall w: Window :: a.Of(w).startedAt <= now && b.Of(w).startedAt <= now
  {
    hide Advanced, Valid, Booked;
    var r := AllAdvanced(z, cs, now);
    var a, b := BookedAll(r, model, delta), BookedAllSince(r, model, delta, at);
    AllAdvancedIsValid(z, cs, now);
    forall w: Window ensures Valid(z, w, a.Of(w)) && Valid(z, w, b.Of(w)) && a.Of(w).startedAt <= now && b.Of(w).startedAt <= now {
      AdvancedIsValid(z, w, cs.Of(w), now);
      assert r.Of(w) == Advanced(z, w, cs.Of(w), now);
      ValidIgnoresModels(z, w, r.Of(w), a.Of(w).byModel);
      ValidIgnoresModels(z, w, r.Of(w), b.Of(w).byModel);
      assert a.Of(w) == r.Of(w).(byModel := a.Of(w).byModel);
      assert b.Of(w) == r.Of(w).(byModel := b.Of(w).byModel);
    }
  }

  /** What booking a call leaves of every key, eviction aside. */
  lemma EvictedUsage(z: Zone, l: Ledger, now: int, id: string)
    ensures var u, v := Evicted(z, l, now).Entry(id), l.Entry(id);
      && u.cycles == v.cycles && (u.cycles.Some? ==> u.balance == v.balance)
      && forall d: int :: d >= Oldest(z, now) ==> ModelsOf(u.days, d) == ModelsOf(v.days, d)
  {
    hide Evicted, Oldest;
    EvictedPeriods(z, l, now, id);
    EvictedKeeps(z, l, now);
    forall d: int | d >= Oldest(z, now) ensures ModelsOf(Evicted(z, l, now).Entry(id).days, d) == ModelsOf(l.Entry(id).days, d) {
      assert Evicted(z, l, now).On(id, d) == l.On(id, d);
    }
  }

  lemma StartedLater(z: Zone, u: KeyUsage, t: int, now: int)
    requires Started(z, u, t) && t <= now
    ensures Started(z, u, now)
  {}

  /** What a booking leaves of a key, as far as agreement looks. */
  lemma BookedUsage(z: Zone, l: Ledger, id: string, u: KeyUsage, now: int, key: string)
    ensures var v, e := Evicted(z, l.Put(id, u), now).Dirtied().Entry(key), if key == id then u else l.Entry(key);
      && v.cycles == e.cycles && (v.cycles.Some? ==> v.balance == e.balance)
      && forall d: int :: d >= Oldest(z, now) ==> ModelsOf(v.days, d) == ModelsOf(e.days, d)
  {
    hide Evicted, Oldest;
    EvictedUsage(z, l.Put(id, u), now, key);
  }

  lemma KeyStarts(z: Zone, u: KeyUsage, model: string, delta: Bucket, deduct: bool, at: int, since: int, now: int)
    requires Started(z, u, since) && since <= now
    ensures Started(z, Charged(z, u, model, delta, deduct, now), now) && Started(z, ChargedSince(z, u, model, delta, deduct, at, now), now)
  {
    hide AllAdvanced, BookedAll, BookedAllSince, AllValid;
    if u.cycles.Some? {
      BookedStarted(z, u.cycles.value, model, delta, at, since, now);
    }
  }

  // What a run of calls makes of a key, in closed form.

  /** What the calls of one key that count make of a bucket table. */
  function CountedWith(m: Models, calls: seq<Call>, id: string, counts: Call -> bool): Models {
    if calls == [] then m
    else
      var c, earlier := calls[|calls| - 1], CountedWith(m, calls[..|calls| - 1], id, counts);
      if c.id == id && counts(c) then Booked(earlier, c.model, c.delta) else earlier
  }

  /** The calls a period that started then counts. */
  function Since(start: int, journaled: bool): Call -> bool { (c: Call) => TimeOf(c, journaled) >= start }

  /** The calls that are booked on this date. */
  function Dated(z: Zone, closed: Mark, d: int, journaled: bool): Call -> bool {
    (c: Call) => FirstOpen(z, closed, TimeOf(c, journaled)) == d
  }

  function PeriodWith(c: Cycle, calls: seq<Call>, id: string, journaled: bool): Cycle {
    c.(byModel := CountedWith(c.byModel, calls, id, Since(c.startedAt, journaled)))
  }

  function BalanceWith(b: Option<Balance>, calls: seq<Call>, id: string): Option<Balance> {
    if calls == [] then b
    else
      var c, earlier := calls[|calls| - 1], BalanceWith(b, calls[..|calls| - 1], id);
      if c.id == id && c.deduct then Deducted(earlier, c.delta.charged) else earlier
  }

  /** The clock does not go back while the calls are worked off. */
  predicate Forward(calls: seq<Call>, start: int, journaled: bool) {
    calls == [] ||
    var c, earlier := calls[|calls| - 1], calls[..|calls| - 1];
    && Forward(earlier, start, journaled)
    && ClockAfter(earlier, start, journaled) <= ClockOf(c, journaled) && TimeOf(c, journaled) <= ClockOf(c, journaled)
  }

  function ClockAfter(calls: seq<Call>, start: int, journaled: bool): int {
    if calls == [] then start else ClockOf(calls[|calls| - 1], journaled)
  }

  /** Booking now is replaying an entry of now. */
  lemma RecordedIsReplayed(z: Zone, l: Ledger, c: Call)
    requires Started(z, l.Entry(c.id), c.booked)
    ensures OneBooked(z, l, c, false) == Replayed(z, l, c.id, c.model, c.delta, c.deduct, Some(c.booked), c.booked)
  {
    hide Advanced, Valid, OpenDate, BookedOn, Evicted;
    var u := l.Entry(c.id);
    if u.cycles.Some? {
      var r := AllAdvanced(z, u.cycles.value, c.booked);
      AllAdvancedIsValid(z, u.cycles.value, c.booked);
      forall w: Window ensures r.Of(w).startedAt <= c.booked {
        AdvancedIsValid(z, w, u.cycles.value.Of(w), c.booked);
      }
      assert r.Of(Daily).startedAt <= c.booked && r.Of(Weekly).startedAt <= c.booked && r.Of(Monthly).startedAt <= c.booked;
    }
  }

  /** An entry without a time, or ahead of the clock, is booked like a call made
      now. */
  lemma UntimedIsNow(z: Zone, l: Ledger, c: Call, at: Option<int>)
    requires Started(z, l.Entry(c.id), c.booked) && (at.None? || at.value > c.booked)
    ensures Replayed(z, l, c.id, c.model, c.delta, c.deduct, at, c.booked) == Recorded(z, l, c.id, c.model, c.delta, c.deduct, c.booked)
  {
    hide Started, ChargedSince, Charged, Evicted, OpenDate, OnDate;
    RecordedIsReplayed(z, l, c);
  }

  /** A period rolled, booked and rolled on is the period rolled at once and
      then booked. */
  lemma RollBooked(z: Zone, w: Window, c: Cycle, model: string, delta: Bucket, at: int, t: int, now: int)
    requires Valid(z, w, c) && at <= t <= now
    ensures Advanced(z, w, BookedSince(Advanced(z, w, c, t), model, delta, at), now) == BookedSince(Advanced(z, w, c, now), model, delta, at)
  {
    hide Increasing, DayOf, Advanced, Valid, Booked;
    var r := Advanced(z, w, c, t);
    AdvancedIsValid(z, w, c, t);
    AdvanceInStops(z, w, c, t, now);
    RollIgnoresModels(z, w, r, BookedSince(r, model, delta, at).byModel, now);
    assert BookedSince(r, model, delta, at) == r.(byModel := BookedSince(r, model, delta, at).byModel);
    if now >= r.resetsAt {
      StartsAtDeadline(z, w, r, now);
    }
  }

  lemma OfAll(z: Zone, cs: CycleSet, now: int, w: Window)
    ensures AllAdvanced(z, cs, now).Of(w) == Advanced(z, w, cs.Of(w), now)
  {
    hide Advanced;
  }

  lemma BookedOf(cs: CycleSet, model: string, delta: Bucket, at: int, w: Window)
    ensures BookedAllSince(cs, model, delta, at).Of(w) == BookedSince(cs.Of(w), model, delta, at)
  {
    hide BookedSince;
  }

  /** The key's periods, rolled to now, after one call. */
  lemma ChargedPeriods(z: Zone, u: KeyUsage, c: Call, at: int, t: int, now: int)
    requires u.cycles.Some? && AllValid(z, u.cycles.value) && at <= t <= now
    ensures var v := ChargedSince(z, u, c.model, c.delta, c.deduct, at, t);
      && v.cycles.Some? && v.balance == (if c.deduct then Deducted(u.balance, c.delta.charged) else u.balance)
      && forall w: Window :: Advanced(z, w, v.cycles.value.Of(w), now) == BookedSince(Advanced(z, w, u.cycles.value.Of(w), now), c.model, c.delta, at)
  {
    hide Advanced, Valid, BookedSince, AllAdvanced, BookedAllSince;
    var v := ChargedSince(z, u, c.model, c.delta, c.deduct, at, t);
    forall w: Window
      ensures Advanced(z, w, v.cycles.value.Of(w), now) == BookedSince(Advanced(z, w, u.cycles.value.Of(w), now), c.model, c.delta, at)
    {
      OfAll(z, u.cycles.value, t, w);
      BookedOf(AllAdvanced(z, u.cycles.value, t), c.model, c.delta, at, w);
      RollBooked(z, w, u.cycles.value.Of(w), c.model, c.delta, at, t, now);
    }
  }

  function BookedIf(m: Models, c: Call, counts: bool): Models { if counts then Booked(m, c.model, c.delta) else m }

  /** One call, seen from `now`: what its key's periods, balance and retained
      days become. */
  ghost predicate StepSeen(z: Zone, u: KeyUsage, v: KeyUsage, c: Call, id: string, at: int, date: int, now: int) {
    && (v.cycles.Some? <==> u.cycles.Some?)
    && (u.cycles.Some? ==>
         && v.balance == (if c.id == id && c.deduct then Deducted(u.balance, c.delta.charged) else u.balance)
         && forall w: Window :: Advanced(z, w, v.cycles.value.Of(w), now) ==
              (var r := Advanced(z, w, u.cycles.value.Of(w), now);
               if c.id == id then BookedSince(r, c.model, c.delta, at) else r))
    && forall d: int :: d >= Oldest(z, now) ==>
         ModelsOf(v.days, d) == BookedIf(ModelsOf(u.days, d), c, c.id == id && d == date)
  }

  lemma ReplaySeen(z: Zone, l: Ledger, c: Call, at: int, t: int, id: string, start: int, now: int)
    requires Started(z, l.Entry(id), start) && start <= t && at <= t <= now
    ensures var l' := Replayed(z, l, c.id, c.model, c.delta, c.deduct, Some(at), t);
      StepSeen(z, l.Entry(id), l'.Entry(id), c, id, at, OpenDate(z, l, at), now) && Started(z, l'.Entry(id), t)
  {
    hide ChargedSince, Evicted, OpenDate, AllValid, Advanced, Oldest, DayOf, BookedSince, Booked, Ledger.Put, Ledger.Entry, Ledger.Dirtied;
    var u, date := ChargedSince(z, l.Entry(c.id), c.model, c.delta, c.deduct, at, t), OpenDate(z, l, at);
    OldestRises(z, t, now);
    StartedLater(z, l.Entry(id), start, t);
    BookedUsage(z, l, c.id, OnDate(u, date, c.model, c.delta), t, id);
    if id == c.id {
      ChargedDays(z, l.Entry(id), c.model, c.delta, c.deduct, at, t);
      KeyStarts(z, l.Entry(id), c.model, c.delta, c.deduct, at, start, t);
      if l.Entry(id).cycles.Some? {
        ChargedPeriods(z, l.Entry(id), c, at, t, now);
      } else {
        NothingCharged(z, l.Entry(id), c, at, t);
      }
    }
  }

  lemma NothingCharged(z: Zone, u: KeyUsage, c: Call, at: int, t: int)
    requires u.cycles.None?
    ensures ChargedSince(z, u, c.model, c.delta, c.deduct, at, t) == u
  {}

  lemma BookedSeen(z: Zone, l: Ledger, c: Call, journaled: bool, id: string, start: int, now: int)
    requires Started(z, l.Entry(id), start) && Started(z, l.Entry(c.id), start) && start <= ClockOf(c, journaled) <= now
    requires TimeOf(c, journaled) <= ClockOf(c, journaled)
    ensures StepSeen(z, l.Entry(id), OneBooked(z, l, c, journaled).Entry(id), c, id, TimeOf(c, journaled), OpenDate(z, l, TimeOf(c, journaled)), now)
    ensures Started(z, OneBooked(z, l, c, journaled).Entry(id), ClockOf(c, journaled))
    ensures OneBooked(z, l, c, journaled).closedThrough == l.closedThrough
  {
    hide Recorded, Replayed, Started, StepSeen, OpenDate;
    if journaled {
      ReplaySeen(z, l, c, c.at, c.replayed, id, start, now);
      ReplayedKeeps(z, l, c.id, c.model, c.delta, c.deduct, Some(c.at), c.replayed);
    } else {
      StartedLater(z, l.Entry(c.id), start, c.booked);
      RecordedIsReplayed(z, l, c);
      ReplaySeen(z, l, c, c.booked, c.booked, id, start, now);
      RecordedKeeps(z, l, c.id, c.model, c.delta, c.deduct, c.booked);
    }
  }

  /** The whole run, seen from `now`: each period has the calls made since it
      started, each retained day the calls booked on it. */
  ghost predicate RunSeen(z: Zone, u: KeyUsage, v: KeyUsage, closed: Mark, calls: seq<Call>, id: string, journaled: bool, now: int) {
    && (v.cycles.Some? <==> u.cycles.Some?)
    && (u.cycles.Some? ==>
         && v.balance == BalanceWith(u.balance, calls, id)
         && forall w: Window :: Advanced(z, w, v.cycles.value.Of(w), now) == PeriodWith(Advanced(z, w, u.cycles.value.Of(w), now), calls, id, journaled))
    && forall d: int :: d >= Oldest(z, now) ==>
         ModelsOf(v.days, d) == CountedWith(ModelsOf(u.days, d), calls, id, Dated(z, closed, d, journaled))
  }

  lemma StepThenRun(
    z: Zone, u: KeyUsage, v: KeyUsage, v': KeyUsage, closed: Mark, calls: seq<Call>, id: string, journaled: bool, now: int)
    requires calls != [] && RunSeen(z, u, v, closed, calls[..|calls| - 1], id, journaled, now)
    requires var c := calls[|calls| - 1];
      StepSeen(z, v, v', c, id, TimeOf(c, journaled), FirstOpen(z, closed, TimeOf(c, journaled)), now)
    ensures RunSeen(z, u, v', closed, calls, id, journaled, now)
  {
    hide Advanced, Booked, FirstOpen, Oldest, TimeOf, Deducted;
    var c, earlier := calls[|calls| - 1], calls[..|calls| - 1];
    if u.cycles.Some? {
      forall w: Window
        ensures Advanced(z, w, v'.cycles.value.Of(w), now) == PeriodWith(Advanced(z, w, u.cycles.value.Of(w), now), calls, id, journaled)
      {
        assert Advanced(z, w, v.cycles.value.Of(w), now) == PeriodWith(Advanced(z, w, u.cycles.value.Of(w), now), earlier, id, journaled);
      }
    }
    forall d: int | d >= Oldest(z, now)
      ensures ModelsOf(v'.days, d) == CountedWith(ModelsOf(u.days, d), calls, id, Dated(z, closed, d, journaled))
    {
      assert ModelsOf(v.days, d) == CountedWith(ModelsOf(u.days, d), earlier, id, Dated(z, closed, d, journaled));
    }
  }

  lemma {:induction false} AllSeen(z: Zone, l: Ledger, calls: seq<Call>, journaled: bool, id: string, start: int, now: int)
    requires AllStarted(z, l, start) && Forward(calls, start, journaled) && ClockAfter(calls, start, journaled) <= now
    ensures RunSeen(z, l.Entry(id), AllBooked(z, l, calls, journaled).Entry(id), l.closedThrough, calls, id, journaled, now)
    ensures Started(z, AllBooked(z, l, calls, journaled).Entry(id), ClockAfter(calls, start, journaled))
    ensures AllBooked(z, l, calls, journaled).closedThrough == l.closedThrough
    decreases |calls|
  {
    hide OneBooked, Started, RunSeen, StepSeen, FirstOpen, TimeOf, ClockOf, Ledger.Entry;
    if calls == [] {
      NothingSeen(z, l.Entry(id), l.closedThrough, id, journaled, now);
      assert Started(z, l.Entry(id), start);
    } else {
      var c, earlier := calls[|calls| - 1], calls[..|calls| - 1];
      var part, clock := AllBooked(z, l, earlier, journaled), ClockAfter(earlier, start, journaled);
      AllSeen(z, l, earlier, journaled, id, start, now);
      AllSeen(z, l, earlier, journaled, c.id, start, now);
      BookedSeen(z, part, c, journaled, id, clock, now);
      StepThenRun(z, l.Entry(id), part.Entry(id), AllBooked(z, l, calls, journaled).Entry(id), l.closedThrough, calls, id, journaled, now);
    }
  }

  lemma NothingSeen(z: Zone, u: KeyUsage, closed: Mark, id: string, journaled: bool, now: int)
    ensures RunSeen(z, u, u, closed, [], id, journaled, now)
  {
    hide Advanced, FirstOpen, Oldest;
  }

  // The whole journal.

  /** A clock that never goes back: the calls in the order they were booked and
      replayed, each journaled after it was booked. */
  predicate InOrder(calls: seq<Call>, since: int, loaded: int) {
    calls == [] ||
    var c, earlier := calls[|calls| - 1], calls[..|calls| - 1];
    && InOrder(earlier, since, loaded)
    && LastBooked(earlier, since) <= c.booked <= c.at <= c.replayed && LastReplayed(earlier, loaded) <= c.replayed
  }

  function LastBooked(calls: seq<Call>, since: int): int { ClockAfter(calls, since, false) }

  function LastReplayed(calls: seq<Call>, loaded: int): int { ClockAfter(calls, loaded, true) }

  lemma {:induction false} OrderIsForward(calls: seq<Call>, since: int, loaded: int)
    requires InOrder(calls, since, loaded)
    ensures Forward(calls, since, false) && Forward(calls, loaded, true) && loaded <= LastReplayed(calls, loaded)
    ensures since <= loaded ==> LastBooked(calls, since) <= LastReplayed(calls, loaded)
    ensures forall c :: c in calls ==> since <= c.booked <= c.at && c.booked <= LastBooked(calls, since)
    ensures since <= LastBooked(calls, since)
  {
    if calls != [] {
      OrderIsForward(calls[..|calls| - 1], since, loaded);
    }
  }

  /** The line says what happened: its day, as far as it is open, is that of
      the call, and no period of the key under way now began in between. */
  predicate Faithful(z: Zone, a: Ledger, b: Ledger, c: Call, now: int) {
    && OpenDate(z, a, c.booked) == OpenDate(z, b, c.at)
    && (a.Entry(c.id).cycles.Some? ==> forall w: Window :: NoneBegan(z, w, a.Entry(c.id).cycles.value.Of(w), c, now))
  }

  predicate NoneBegan(z: Zone, w: Window, p: Cycle, c: Call, now: int) { !(c.booked < Advanced(z, w, p, now).startedAt <= c.at) }

  predicate AllFaithful(z: Zone, a: Ledger, b: Ledger, calls: seq<Call>, now: int) {
    forall c :: c in calls ==> Faithful(z, a, b, c, now)
  }

  /** Calls that count something, booked on days retention still keeps. */
  predicate Counting(z: Zone, calls: seq<Call>, now: int) {
    forall c :: c in calls ==> Sound(c.delta) && c.delta != NOTHING && DayOf(z, c.booked) >= Oldest(z, now)
  }

  lemma {:induction false} SameCounted(m: Models, calls: seq<Call>, id: string, f: Call -> bool, g: Call -> bool)
    requires forall c :: c in calls && c.id == id ==> f(c) == g(c)
    ensures CountedWith(m, calls, id, f) == CountedWith(m, calls, id, g)
  {
    hide Booked;
    if calls != [] {
      assert calls[|calls| - 1] in calls;
      SameCounted(m, calls[..|calls| - 1], id, f, g);
    }
  }

  /** All counters of a bucket together. */
  function Weight(b: Bucket): int {
    b.calls + b.unpriced + b.input + b.cacheRead + b.cacheWrite + b.output + b.charged + b.readCost + b.writeCost
  }

  lemma BookedWeighs(models: Models, model: string, delta: Bucket, m: string)
    ensures Weight(BucketOf(Booked(models, model, delta), m)) == Weight(BucketOf(models, m)) + if m == model then Weight(delta) else 0
  {}

  /** More calls that count weigh more. */
  lemma {:induction false} MoreCounted(m: Models, calls: seq<Call>, more: Call, f: Call -> bool, g: Call -> bool)
    requires forall c :: c in calls ==> Sound(c.delta) && c.delta != NOTHING && (f(c) ==> g(c))
    requires !f(more) && g(more)
    ensures var x, y := CountedWith(m, calls, more.id, f), CountedWith(m, calls, more.id, g);
      && Weight(BucketOf(x, more.model)) <= Weight(BucketOf(y, more.model))
      && (more in calls ==> Weight(BucketOf(x, more.model)) < Weight(BucketOf(y, more.model)))
  {
    hide Booked, BucketOf;
    if calls != [] {
      var last, earlier := calls[|calls| - 1], calls[..|calls| - 1];
      assert calls == earlier + [last];
      assert last in calls && Weight(last.delta) > 0;
      MoreCounted(m, earlier, more, f, g);
      BookedWeighs(CountedWith(m, earlier, more.id, f), last.model, last.delta, more.model);
      BookedWeighs(CountedWith(m, earlier, more.id, g), last.model, last.delta, more.model);
    }
  }

  /** Both runs seen from the same start. */
  ghost predicate BothSeen(z: Zone, a: Ledger, b: Ledger, calls: seq<Call>, id: string, now: int) {
    && SameUsage(z, a.Entry(id), b.Entry(id), now)
    && RunSeen(z, a.Entry(id), Direct(z, a, calls).Entry(id), a.closedThrough, calls, id, false, now)
    && RunSeen(z, b.Entry(id), Taken(z, b, calls).Entry(id), b.closedThrough, calls, id, true, now)
  }

  lemma RunsSeen(z: Zone, a: Ledger, b: Ledger, calls: seq<Call>, since: int, loaded: int, now: int, id: string)
    requires Same(z, a, b, loaded) && AllStarted(z, a, since) && AllStarted(z, b, loaded)
    requires InOrder(calls, since, loaded) && LastBooked(calls, since) <= now && LastReplayed(calls, loaded) <= now
    ensures BothSeen(z, a, b, calls, id, now)
  {
    hide SameUsage, RunSeen, Started, AllBooked, InOrder, Forward;
    OrderIsForward(calls, since, loaded);
    AllSeen(z, a, calls, false, id, since, now);
    AllSeen(z, b, calls, true, id, loaded, now);
    SameLater(z, a.Entry(id), b.Entry(id), loaded, now, since, loaded);
  }

  /** What two ledgers that agree have in common, window by window. */
  lemma AgreeingPeriods(z: Zone, u: KeyUsage, v: KeyUsage, now: int, w: Window)
    requires SameUsage(z, u, v, now) && u.cycles.Some?
    ensures Advanced(z, w, u.cycles.value.Of(w), now) == Advanced(z, w, v.cycles.value.Of(w), now)
  {
    hide Advanced, Oldest;
    OfAll(z, u.cycles.value, now, w);
    OfAll(z, v.cycles.value, now, w);
  }

  lemma PeriodsAgree(z: Zone, u: CycleSet, v: CycleSet, now: int)
    requires forall w: Window :: Advanced(z, w, u.Of(w), now) == Advanced(z, w, v.Of(w), now)
    ensures AllAdvanced(z, u, now) == AllAdvanced(z, v, now)
  {
    hide Advanced;
    assert u.Of(Daily) == u.daily && u.Of(Weekly) == u.weekly && u.Of(Monthly) == u.monthly;
    assert v.Of(Daily) == v.daily && v.Of(Weekly) == v.weekly && v.Of(Monthly) == v.monthly;
  }

  /** Faithful lines leave a key as it was. */
  lemma FaithfulKeyAgrees(z: Zone, a: Ledger, b: Ledger, calls: seq<Call>, now: int, id: string)
    requires BothSeen(z, a, b, calls, id, now) && AllFaithful(z, a, b, calls, now) && forall c :: c in calls ==> c.booked <= c.at
    ensures SameUsage(z, Direct(z, a, calls).Entry(id), Taken(z, b, calls).Entry(id), now)
  {
    hide Advanced, Oldest, FirstOpen, AllBooked, CountedWith, BalanceWith, AllAdvanced, Ledger.Entry;
    var u, v, x, y := a.Entry(id), b.Entry(id), Direct(z, a, calls).Entry(id), Taken(z, b, calls).Entry(id);
    if u.cycles.Some? {
      forall w: Window ensures Advanced(z, w, x.cycles.value.Of(w), now) == Advanced(z, w, y.cycles.value.Of(w), now) {
        AgreeingPeriods(z, u, v, now, w);
        var r := Advanced(z, w, u.cycles.value.Of(w), now);
        forall c | c in calls && c.id == id ensures Since(r.startedAt, false)(c) == Since(r.startedAt, true)(c) {
          assert Faithful(z, a, b, c, now) && NoneBegan(z, w, u.cycles.value.Of(w), c, now);
        }
        SameCounted(r.byModel, calls, id, Since(r.startedAt, false), Since(r.startedAt, true));
      }
      PeriodsAgree(z, x.cycles.value, y.cycles.value, now);
    }
    forall d: int | d >= Oldest(z, now) ensures ModelsOf(x.days, d) == ModelsOf(y.days, d) {
      forall c | c in calls && c.id == id ensures Dated(z, a.closedThrough, d, false)(c) == Dated(z, b.closedThrough, d, true)(c) {
        assert Faithful(z, a, b, c, now);
      }
      SameCounted(ModelsOf(u.days, d), calls, id, Dated(z, a.closedThrough, d, false), Dated(z, b.closedThrough, d, true));
    }
  }

  // A line that does not say what happened.

  /** A period that began in between counts the call on one side only. */
  lemma BegunPeriodDiffers(z: Zone, a: Ledger, b: Ledger, calls: seq<Call>, c: Call, now: int, w: Window)
    requires BothSeen(z, a, b, calls, c.id, now) && Counting(z, calls, now) && c in calls && forall e :: e in calls ==> e.booked <= e.at
    requires a.Entry(c.id).cycles.Some? && !NoneBegan(z, w, a.Entry(c.id).cycles.value.Of(w), c, now)
    ensures !SameUsage(z, Direct(z, a, calls).Entry(c.id), Taken(z, b, calls).Entry(c.id), now)
  {
    hide Advanced, Oldest, FirstOpen, AllBooked, CountedWith, BalanceWith, AllAdvanced, Ledger.Entry, Weight, Sound;
    var u, v, x, y := a.Entry(c.id), b.Entry(c.id), Direct(z, a, calls).Entry(c.id), Taken(z, b, calls).Entry(c.id);
    AgreeingPeriods(z, u, v, now, w);
    var r := Advanced(z, w, u.cycles.value.Of(w), now);
    MoreCounted(r.byModel, calls, c, Since(r.startedAt, false), Since(r.startedAt, true));
    assert Advanced(z, w, x.cycles.value.Of(w), now) == PeriodWith(r, calls, c.id, false);
    assert Advanced(z, w, y.cycles.value.Of(w), now) == PeriodWith(r, calls, c.id, true);
    if SameUsage(z, x, y, now) {
      AgreeingPeriods(z, x, y, now, w);
    }
  }

  /** A day on which one side books a call the other does not, and else no more
      than it. */
  lemma DayDiffers(z: Zone, a: Ledger, b: Ledger, calls: seq<Call>, c: Call, now: int, d: int, journaled: bool)
    requires BothSeen(z, a, b, calls, c.id, now) && Counting(z, calls, now) && c in calls && d >= Oldest(z, now)
    requires var f, g := Dated(z, a.closedThrough, d, false), Dated(z, b.closedThrough, d, true);
      && f(c) != g(c) && g(c) == journaled
      && forall e :: e in calls ==> if journaled then f(e) ==> g(e) else g(e) ==> f(e)
    ensures !SameUsage(z, Direct(z, a, calls).Entry(c.id), Taken(z, b, calls).Entry(c.id), now)
  {
    hide Advanced, Oldest, FirstOpen, AllBooked, CountedWith, BalanceWith, AllAdvanced, Ledger.Entry, Weight, Sound, PeriodWith, Dated;
    var f, g := Dated(z, a.closedThrough, d, false), Dated(z, b.closedThrough, d, true);
    var m := ModelsOf(a.Entry(c.id).days, d);
    assert m == ModelsOf(b.Entry(c.id).days, d);
    if journaled {
      MoreCounted(m, calls, c, f, g);
    } else {
      MoreCounted(m, calls, c, g, f);
    }
  }

  function DirectDate(z: Zone, a: Ledger, c: Call): int { OpenDate(z, a, c.booked) }

  function JournaledDate(z: Zone, b: Ledger, c: Call): int { OpenDate(z, b, c.at) }

  /** The call with the earliest date among those that moved. */
  lemma {:induction false} FirstMoved(z: Zone, a: Ledger, b: Ledger, calls: seq<Call>, some: Call) returns (first: Call)
    requires some in calls && DirectDate(z, a, some) != JournaledDate(z, b, some)
    ensures first in calls && DirectDate(z, a, first) != JournaledDate(z, b, first)
    ensures forall c :: c in calls && DirectDate(z, a, c) != JournaledDate(z, b, c) ==> DirectDate(z, a, first) <= DirectDate(z, a, c)
    decreases |calls|
  {
    hide OpenDate;
    var last, earlier := calls[|calls| - 1], calls[..|calls| - 1];
    assert calls == earlier + [last];
    if c :| c in earlier && DirectDate(z, a, c) != JournaledDate(z, b, c) {
      first := FirstMoved(z, a, b, earlier, c);
      if DirectDate(z, a, last) != JournaledDate(z, b, last) && DirectDate(z, a, last) < DirectDate(z, a, first) {
        first := last;
      }
    } else {
      first := last;
    }
  }

  lemma DateBounds(z: Zone, a: Ledger, b: Ledger, c: Call, now: int)
    requires c.booked <= c.at && DayOf(z, c.booked) >= Oldest(z, now)
    ensures DirectDate(z, a, c) >= Oldest(z, now) && JournaledDate(z, b, c) >= Oldest(z, now)
    ensures JournaledDate(z, b, c) < DirectDate(z, a, c) ==> a.closedThrough.Covers(JournaledDate(z, b, c))
  {
    hide DayOf, Oldest;
    DaysInOrder(z, c.booked, c.at);
  }

  /** Some call is booked on another date through the journal. */
  lemma MovedDiffers(z: Zone, a: Ledger, b: Ledger, calls: seq<Call>, some: Call, now: int) returns (id: string)
    requires (forall id :: BothSeen(z, a, b, calls, id, now)) && Counting(z, calls, now) && forall e :: e in calls ==> e.booked <= e.at
    requires some in calls && DirectDate(z, a, some) != JournaledDate(z, b, some)
    ensures !SameUsage(z, Direct(z, a, calls).Entry(id), Taken(z, b, calls).Entry(id), now)
  {
    hide BothSeen, Direct, Taken, Oldest, DayOf, FirstOpen, SameUsage, Sound;
    forall c | c in calls
      ensures DirectDate(z, a, c) >= Oldest(z, now) && JournaledDate(z, b, c) >= Oldest(z, now)
      ensures JournaledDate(z, b, c) < DirectDate(z, a, c) ==> a.closedThrough.Covers(JournaledDate(z, b, c))
    {
      DateBounds(z, a, b, c, now);
    }
    if c :| c in calls && JournaledDate(z, b, c) < DirectDate(z, a, c) {
      // Nothing is booked directly on that closed day.
      var d := JournaledDate(z, b, c);
      forall e | e in calls ensures !Dated(z, a.closedThrough, d, false)(e) {
        NeverClosed(z, a.closedThrough, e.booked);
      }
      DayDiffers(z, a, b, calls, c, now, d, true);
      id := c.id;
    } else {
      // Calls only move to later dates, none onto the first one's.
      var first := FirstMoved(z, a, b, calls, some);
      var d := DirectDate(z, a, first);
      forall e | e in calls && Dated(z, b.closedThrough, d, true)(e) ensures Dated(z, a.closedThrough, d, false)(e) {
        assert JournaledDate(z, b, e) == d;
      }
      DayDiffers(z, a, b, calls, first, now, d, false);
      id := first.id;
    }
  }

  lemma UnfaithfulDiffers(z: Zone, a: Ledger, b: Ledger, calls: seq<Call>, now: int)
    requires (forall id :: BothSeen(z, a, b, calls, id, now)) && Counting(z, calls, now) && forall e :: e in calls ==> e.booked <= e.at
    requires !AllFaithful(z, a, b, calls, now)
    ensures !Same(z, Direct(z, a, calls), Taken(z, b, calls), now)
  {
    hide BothSeen, Direct, Taken, OpenDate, SameUsage, NoneBegan, Counting;
    var c :| c in calls && !Faithful(z, a, b, c, now);
    if DirectDate(z, a, c) != JournaledDate(z, b, c) {
      var id := MovedDiffers(z, a, b, calls, c, now);
    } else {
      var w: Window :| !NoneBegan(z, w, a.Entry(c.id).cycles.value.Of(w), c, now);
      BegunPeriodDiffers(z, a, b, calls, c, now, w);
    }
  }

  /** At any later time the two ledgers, rolled forward, agree on every key's
      periods, balance and retained days if every line is faithful; and of
      calls that count on retained days, only then. Days closed on either side
      are covered. */
  lemma ReplayEqualsDirect(z: Zone, a: Ledger, b: Ledger, calls: seq<Call>, since: int, loaded: int, now: int)
    requires Same(z, a, b, loaded) && AllStarted(z, a, since) && AllStarted(z, b, loaded)
    requires InOrder(calls, since, loaded) && LastBooked(calls, since) <= now && LastReplayed(calls, loaded) <= now
    ensures AllFaithful(z, a, b, calls, now) ==> Same(z, Direct(z, a, calls), Taken(z, b, calls), now)
    ensures Counting(z, calls, now) ==> (Same(z, Direct(z, a, calls), Taken(z, b, calls), now) <==> AllFaithful(z, a, b, calls, now))
  {
    hide SameUsage, Started, Direct, Taken, InOrder, AllFaithful, Counting, BothSeen;
    OrderIsForward(calls, since, loaded);
    forall id ensures BothSeen(z, a, b, calls, id, now) {
      RunsSeen(z, a, b, calls, since, loaded, now, id);
    }
    if AllFaithful(z, a, b, calls, now) {
      forall id ensures SameUsage(z, Direct(z, a, calls).Entry(id), Taken(z, b, calls).Entry(id), now) {
        FaithfulKeyAgrees(z, a, b, calls, now, id);
      }
    } else if Counting(z, calls, now) {
      UnfaithfulDiffers(z, a, b, calls, now);
    }
  }

  /** One call. */
  lemma CallAgrees(z: Zone, a: Ledger, b: Ledger, c: Call, since: int, loaded: int)
    requires Same(z, a, b, loaded) && AllStarted(z, a, since) && AllStarted(z, b, loaded)
    requires since <= c.booked <= c.at <= c.replayed && loaded <= c.replayed
    ensures var x := Recorded(z, a, c.id, c.model, c.delta, c.deduct, c.booked);
      var y := Replayed(z, b, c.id, c.model, c.delta, c.deduct, Some(c.at), c.replayed);
      && (Faithful(z, a, b, c, c.replayed) ==> Same(z, x, y, c.replayed))
      && (Sound(c.delta) && c.delta != NOTHING && DayOf(z, c.booked) >= Oldest(z, c.replayed) ==>
            (Same(z, x, y, c.replayed) <==> Faithful(z, a, b, c, c.replayed)))
  {
    hide Same, AllStarted, Recorded, Replayed, DayOf, Oldest, Faithful;
    var calls := [c];
    assert calls[..0] == [];
    assert AllBooked(z, a, [], false) == a && AllBooked(z, b, [], true) == b && InOrder([], since, loaded);
    assert InOrder(calls, since, loaded);
    ReplayEqualsDirect(z, a, b, calls, since, loaded, c.replayed);
    assert AllFaithful(z, a, b, calls, c.replayed) <==> Faithful(z, a, b, c, c.replayed);
  }

  /** Of a call whose day is open on both sides, the line is faithful exactly
      when it was written on that day. */
  lemma FaithfulIffOnItsDay(z: Zone, a: Ledger, b: Ledger, c: Call, since: int, now: int)
    requires AllStarted(z, a, since) && since <= c.booked <= c.at <= now
    requires !a.closedThrough.Covers(DayOf(z, c.booked)) && !b.closedThrough.Covers(DayOf(z, c.booked))
    ensures Faithful(z, a, b, c, now) <==> DayOf(z, c.booked) == DayOf(z, c.at)
  {
    hide DayOf, Advanced, Valid, AllAdvanced;
    DaysInOrder(z, c.booked, c.at);
    if DayOf(z, c.booked) == DayOf(z, c.at) && a.Entry(c.id).cycles.Some? {
      var cs := a.Entry(c.id).cycles.value;
      assert Started(z, a.Entry(c.id), since);
      forall w: Window ensures NoneBegan(z, w, cs.Of(w), c, now) {
        NoneBeginsWithin(z, w, cs.Of(w), c.booked, c.at, now);
      }
    }
  }

  /** The case the journal misses: billed in the last second of a day, its line
      written in the first second of the next one. */
  lemma MidnightCallDiffers(a: Ledger)
    requires a == Ledger(map[], false, 0, Never, Never, false, None)
    ensures var z: Zone := (d: int) => 86400 * d;
      var one := NOTHING.(calls := 1);
      !Same(z, Recorded(z, a, "key", "model", one, false, 86399),
            Replayed(z, a, "key", "model", one, false, Some(86400), 86400), 86400)
  {
    hide Recorded, Replayed;
    var z: Zone := (d: int) => 86400 * d;
    DayIsUnique(z, 86399, 0);
    DayIsUnique(z, 86400, 1);
    CallAgrees(z, a, a, Call("key", "model", NOTHING.(calls := 1), false, 86399, 86400, 86400), 0, 0);
  }

  /** Loading what a clean ledger saved gives a ledger that agrees with it. */
  lemma SavedLoadsSame(z: Zone, w: World, loaded: int)
    requires Inv(w) && Saved(w) && w.horizon <= Oldest(z, loaded)
    ensures Merged(w.live, w.history).Dataset?
    ensures var dataset := Merged(w.live, w.history); Same(z, w.l, Loaded(z, dataset.keys, dataset.through, loaded), loaded)
    ensures var dataset := Merged(w.live, w.history); Loaded(z, dataset.keys, dataset.through, loaded).closedThrough == w.HistoryMark()
  {
    hide Inv, Merged, Loaded, AllAdvanced, Oldest, Ledger.On, Ledger.Entry;
    CrashRecovery(z, w, loaded);
    InvMarks(w);
    var dataset := Merged(w.live, w.history);
    var l := Loaded(z, dataset.keys, dataset.through, loaded);
    forall id ensures SameUsage(z, w.l.Entry(id), l.Entry(id), loaded) {
      assert SameKey(w.l.Entry(id), w.cut.Entry(id));
      forall d: int | d >= Oldest(z, loaded) ensures ModelsOf(w.l.Entry(id).days, d) == ModelsOf(l.Entry(id).days, d) {
        OnIs(w.l, id, d);
        OnIs(l, id, d);
        assert l.On(id, d) == (if w.HistoryMark().Covers(d) then w.l else w.cut).On(id, d);
      }
    }
  }

  lemma OnIs(l: Ledger, id: string, d: int)
    ensures l.On(id, d) == ModelsOf(l.Entry(id).days, d)
  {}

  /** A hot replacement: the older instance's saved cut is loaded, what it
      still booked is replayed, and the newer instance ends up with what the
      older one kept, whatever days and periods began in between, exactly
      when every line is faithful. */
  lemma HandoverEqualsDirect(z: Zone, w: World, calls: seq<Call>, since: int, loaded: int, now: int)
    requires Inv(w) && Saved(w) && w.horizon <= Oldest(z, loaded) && since <= loaded && AllStarted(z, w.l, since)
    requires InOrder(calls, since, loaded) && LastReplayed(calls, loaded) <= now
    ensures Merged(w.live, w.history).Dataset?
    ensures var dataset := Merged(w.live, w.history);
      var l := Loaded(z, dataset.keys, dataset.through, loaded);
      && l.closedThrough == w.HistoryMark()
      && (AllFaithful(z, w.l, l, calls, now) ==> Same(z, Direct(z, w.l, calls), Taken(z, l, calls), now))
      && (Counting(z, calls, now) ==> (Same(z, Direct(z, w.l, calls), Taken(z, l, calls), now) <==> AllFaithful(z, w.l, l, calls, now)))
  {
    hide Inv, Merged, Loaded, Same, Saved, InOrder, Direct, Taken, Started, Oldest, AllFaithful, Counting;
    SavedLoadsSame(z, w, loaded);
    OrderIsForward(calls, since, loaded);
    var dataset := Merged(w.live, w.history);
    var l := Loaded(z, dataset.keys, dataset.through, loaded);
    forall id ensures Started(z, l.Entry(id), loaded) {
      SameStarts(z, w, id, since, loaded);
    }
    ReplayEqualsDirect(z, w.l, l, calls, since, loaded, now);
  }

  lemma SameStarts(z: Zone, w: World, id: string, since: int, loaded: int)
    requires Inv(w) && Saved(w) && since <= loaded && Started(z, w.l.Entry(id), since)
    ensures var dataset := Merged(w.live, w.history);
      Merged(w.live, w.history).Dataset? && Started(z, Loaded(z, dataset.keys, dataset.through, loaded).Entry(id), loaded)
  {
    hide Inv, Merged, Loaded, AllValid, Oldest, Ledger.On, Ledger.Entry;
    CrashRecovery(z, w, loaded);
    assert SameKey(w.l.Entry(id), w.cut.Entry(id));
  }

  /** An entry whose day retention has passed stays after all when the pass of
      that day has already run, as loading runs it; otherwise it goes at once. */
  lemma PastRetention(z: Zone, l: Ledger, id: string, model: string, delta: Bucket, deduct: bool, at: int, now: int)
    requires at <= now && OpenDate(z, l, at) < Oldest(z, now)
    ensures Replayed(z, l, id, model, delta, deduct, Some(at), now).On(id, OpenDate(z, l, at)) ==
            if l.lastEvicted == Some(DayOf(z, now)) then Booked(l.On(id, OpenDate(z, l, at)), model, delta) else map[]
  {
    hide DayOf, ChargedSince, HistoryHolds, Booked;
    var v := ChargedSince(z, l.Entry(id), model, delta, deduct, at, now);
    ChargedDays(z, l.Entry(id), model, delta, deduct, at, now);
  }
}
