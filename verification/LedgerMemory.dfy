/** The ledger in memory. A day's models are kept in a table of their own, which
    a history write shares while it runs; closed tables are never written. */
module LedgerMemory {
  import opened Bytes
  import opened Calendar
  import opened Usage
  import opened Cycles
  import opened Ledger

  /** The models of one key on one day. */
  class Table {
    var models: Models

    constructor (models: Models)
      ensures this.models == models
    {
      this.models := models;
    }
  }

  type Tables = map<int, Table>

  datatype Slot = Slot(cycles: Option<CycleSet>, balance: Option<Balance>, days: Tables)

  type Slots = map<string, Slot>

  ghost function AllTables(slots: Slots): set<Table> {
    set id, d | id in slots && d in slots[id].days :: slots[id].days[d]
  }

  ghost function TablesOpen(slots: Slots, closed: Mark): set<Table> {
    set id, d | id in slots && d in slots[id].days && !closed.Covers(d) :: slots[id].days[d]
  }

  method Pick<T>(s: set<T>) returns (x: T)
    requires s != {}
    ensures x in s
  {
    x :| x in s;
  }

  lemma KeyOf<K, V>(m: map<K, V>, v: V) returns (k: K)
    requires v in m.Values
    ensures k in m && m[k] == v
  {
    k :| k in m && m[k] == v;
  }

  lemma InAll(slots: Slots, id: string)
    requires id in slots
    ensures slots[id].days.Values <= AllTables(slots)
  {
    forall t | t in slots[id].days.Values ensures t in AllTables(slots) {
      var d := KeyOf(slots[id].days, t);
    }
  }

  ghost function DaysView(days: Tables): Days
    reads days.Values
  {
    map d | d in days :: days[d].models
  }

  ghost function SlotView(s: Slot): KeyUsage
    reads s.days.Values
  {
    KeyUsage(s.cycles, s.balance, DaysView(s.days))
  }

  ghost function SlotsView(slots: Slots): Entries
    reads AllTables(slots)
  {
    map id | id in slots :: (InAll(slots, id); SlotView(slots[id]))
  }

  /** No table serves two days or two keys. */
  ghost predicate Apart(slots: Slots) {
    forall i, j, d: int, e: int ::
      (i in slots && j in slots && d in slots[i].days && e in slots[j].days && slots[i].days[d] == slots[j].days[e]) ==>
        i == j && d == e
  }

  /** What a history write is given: tables, not copies. */
  datatype SharedHistory = SharedHistory(through: int, days: map<string, Tables>)

  ghost function HistoryTables(h: SharedHistory): set<Table> {
    set id, d | id in h.days && d in h.days[id] :: h.days[id][d]
  }

  lemma InHistory(h: SharedHistory, id: string)
    requires id in h.days
    ensures h.days[id].Values <= HistoryTables(h)
  {
    forall t | t in h.days[id].Values ensures t in HistoryTables(h) {
      var d := KeyOf(h.days[id], t);
    }
  }

  ghost function HistoryView(h: SharedHistory): HistoryFile
    reads HistoryTables(h)
  {
    HistoryFile(h.through, map id | id in h.days :: (InHistory(h, id); DaysView(h.days[id])))
  }

  datatype SharedPlan = SharedPlan(revision: nat, through: Mark, history: Option<SharedHistory>, live: LiveKeys)

  ghost function PlanView(p: SharedPlan): Plan
    reads if p.history.Some? then HistoryTables(p.history.value) else {}
  {
    Plan(p.revision, p.through, if p.history.Some? then Some(HistoryView(p.history.value)) else None, p.live)
  }

  /** Drops the days before oldest; stale says the history file holds one. */
  method DropBefore<T>(days: map<int, T>, oldest: int, through: Mark) returns (kept: map<int, T>, stale: bool)
    ensures kept == map d | d in days && d >= oldest :: days[d]
    ensures stale <==> exists d :: d in days && d < oldest && through.Covers(d)
  {
    kept, stale := days, false;
    var left := days.Keys;
    while left != {}
      invariant left <= days.Keys
      invariant kept == map d | d in days && (d in left || d >= oldest) :: days[d]
      invariant stale <==> exists d :: d in days && d !in left && d < oldest && through.Covers(d)
      decreases |left|
    {
      var date := Pick(left);
      if date < oldest {
        kept := kept - {date};
        if through.Covers(date) {
          stale := true;
        }
      }
      left := left - {date};
    }
  }

  function KeptSlot(s: Slot, oldest: int): Slot { s.(days := map d | d in s.days && d >= oldest :: s.days[d]) }

  predicate Vacant(s: Slot) { s.cycles.None? && s.days == map[] }

  function KeptSlots(slots: Slots, oldest: int): Slots {
    map id | id in slots && !Vacant(KeptSlot(slots[id], oldest)) :: KeptSlot(slots[id], oldest)
  }

  ghost predicate StaleIn(slots: Slots, ids: set<string>, oldest: int, through: Mark) {
    exists id, d :: id in ids && id in slots && d in slots[id].days && d < oldest && through.Covers(d)
  }

  /** The keys outside left have been looked at. */
  ghost predicate LookedAt(slots: Slots, left: set<string>, oldest: int, kept: Slots) {
    && (forall id :: id in kept <==> id in slots && (id in left || !Vacant(KeptSlot(slots[id], oldest))))
    && (forall id :: id in kept ==> kept[id] == if id in left then slots[id] else KeptSlot(slots[id], oldest))
  }

  lemma LookedAtOne(slots: Slots, left: set<string>, oldest: int, kept: Slots, id: string)
    requires LookedAt(slots, left, oldest, kept) && id in left && id in slots
    ensures var s := KeptSlot(slots[id], oldest);
      LookedAt(slots, left - {id}, oldest, if Vacant(s) then kept - {id} else kept[id := s])
    ensures var s := KeptSlot(slots[id], oldest); (if Vacant(s) then kept - {id} else kept[id := s]) == kept <==> s == slots[id] && !Vacant(s)
  {
    hide KeptSlot, Vacant;
    var s := KeptSlot(slots[id], oldest);
    assert id in kept && kept[id] == slots[id];
    if Vacant(s) {
      assert id !in kept - {id};
    } else if s != slots[id] {
      assert kept[id := s][id] != kept[id];
    } else {
      assert kept[id := s] == kept;
    }
  }

  /** Once something has changed it stays changed. */
  lemma StillChanged(slots: Slots, left: set<string>, oldest: int, kept: Slots, id: string)
    requires LookedAt(slots, left, oldest, kept) && id in left && id in slots && kept != slots
    ensures var s := KeptSlot(slots[id], oldest); (if Vacant(s) then kept - {id} else kept[id := s]) != slots
  {
    hide KeptSlot, Vacant;
    var s := KeptSlot(slots[id], oldest);
    if (if Vacant(s) then kept - {id} else kept[id := s]) == slots {
      assert false;
    }
  }

  lemma StaleInOne(slots: Slots, left: set<string>, oldest: int, through: Mark, id: string)
    requires id in left && id in slots && left <= slots.Keys
    ensures StaleIn(slots, slots.Keys - (left - {id}), oldest, through) <==>
            StaleIn(slots, slots.Keys - left, oldest, through) ||
            exists d :: d in slots[id].days && d < oldest && through.Covers(d)
  {
    hide Mark.Covers;
    if StaleIn(slots, slots.Keys - left, oldest, through) {
      assert slots.Keys - left <= slots.Keys - (left - {id});
    }
  }

  method DropExpired(slots: Slots, oldest: int, through: Mark) returns (kept: Slots, stale: bool, changed: bool)
    ensures kept == KeptSlots(slots, oldest) && (changed <==> kept != slots)
    ensures stale <==> StaleIn(slots, slots.Keys, oldest, through)
  {
    hide StaleIn, KeptSlots, LookedAt;
    kept, stale, changed := slots, false, false;
    var left := slots.Keys;
    PassStarts(slots, oldest, through);
    while left != {}
      invariant left <= slots.Keys && LookedAt(slots, left, oldest, kept) && (changed <==> kept != slots)
      invariant stale <==> StaleIn(slots, slots.Keys - left, oldest, through)
      decreases |left|
    {
      var id := Pick(left);
      var days, held := DropBefore(slots[id].days, oldest, through);
      var s := slots[id].(days := days);
      LookedAtOne(slots, left, oldest, kept, id);
      StaleInOne(slots, left, oldest, through, id);
      if kept != slots {
        StillChanged(slots, left, oldest, kept, id);
      }
      stale := stale || held;
      if s.cycles.None? && days == map[] {
        kept := kept - {id};
        changed := true;
      } else {
        kept := kept[id := s];
        if days != slots[id].days {
          changed := true;
        }
      }
      left := left - {id};
    }
    PassEnds(slots, oldest, kept);
    assert slots.Keys - {} == slots.Keys;
  }

  lemma PassStarts(slots: Slots, oldest: int, through: Mark)
    ensures LookedAt(slots, slots.Keys, oldest, slots) && !StaleIn(slots, slots.Keys - slots.Keys, oldest, through)
  {}

  lemma PassEnds(slots: Slots, oldest: int, kept: Slots)
    requires LookedAt(slots, {}, oldest, kept)
    ensures kept == KeptSlots(slots, oldest)
  {
    hide KeptSlot, Vacant;
  }

  // The view of what eviction keeps.

  lemma SameKeys<K, V, W>(a: map<K, V>, b: map<K, W>)
    requires a.Keys == b.Keys
    ensures a == map[] <==> b == map[]
  {
    if a == map[] {
      assert b.Keys == {};
      assert b == map[];
    }
    if b == map[] {
      assert a.Keys == {};
      assert a == map[];
    }
  }

  lemma KeptSlotView(s: Slot, oldest: int)
    ensures SlotView(KeptSlot(s, oldest)) == Kept(SlotView(s), oldest)
    ensures Vacant(KeptSlot(s, oldest)) <==> Gone(Kept(SlotView(s), oldest))
    ensures KeptSlot(s, oldest) == s <==> Kept(SlotView(s), oldest) == SlotView(s)
  {
    var kept := KeptSlot(s, oldest);
    assert DaysView(kept.days) == KeptDays(DaysView(s.days), oldest);
    SameKeys(kept.days, DaysView(kept.days));
    if Kept(SlotView(s), oldest) == SlotView(s) {
      assert kept.days.Keys == DaysView(s.days).Keys == s.days.Keys;
      assert kept.days == s.days;
    }
  }

  lemma KeptSlotsView(slots: Slots, oldest: int)
    ensures SlotsView(KeptSlots(slots, oldest)) == KeptEntries(SlotsView(slots), oldest)
    ensures KeptSlots(slots, oldest) == slots <==> KeptEntries(SlotsView(slots), oldest) == SlotsView(slots)
    ensures AllTables(KeptSlots(slots, oldest)) <= AllTables(slots)
  {
    hide KeptSlot, Kept, Vacant, Gone, SlotView;
    var kept, view := KeptSlots(slots, oldest), SlotsView(slots);
    forall id | id in slots
      ensures SlotView(KeptSlot(slots[id], oldest)) == Kept(view[id], oldest)
      ensures Vacant(KeptSlot(slots[id], oldest)) <==> Gone(Kept(view[id], oldest))
      ensures KeptSlot(slots[id], oldest) == slots[id] <==> Kept(view[id], oldest) == view[id]
    {
      KeptSlotView(slots[id], oldest);
    }
    assert SlotsView(kept) == KeptEntries(view, oldest);
    if KeptEntries(view, oldest) == view {
      assert kept.Keys == KeptEntries(view, oldest).Keys;
      forall id | id in slots ensures id in kept && kept[id] == slots[id] {
        assert id in view;
        assert KeptEntries(view, oldest)[id] == view[id];
      }
      assert kept == slots;
    }
    KeptTables(slots, oldest);
  }

  lemma KeptTables(slots: Slots, oldest: int)
    ensures AllTables(KeptSlots(slots, oldest)) <= AllTables(slots)
  {}

  lemma StaleView(slots: Slots, oldest: int, l: Ledger)
    requires l.entries == SlotsView(slots)
    ensures StaleIn(slots, slots.Keys, oldest, l.historyThrough) <==> HistoryHolds(l, oldest)
  {
    if StaleIn(slots, slots.Keys, oldest, l.historyThrough) {
      var id, d :| id in slots && d in slots[id].days && d < oldest && l.historyThrough.Covers(d);
      assert id in l.entries && d in l.entries[id].days;
    }
    if HistoryHolds(l, oldest) {
      var id :| id in l.entries && exists d | d in l.entries[id].days :: d < oldest && l.historyThrough.Covers(d);
      var d :| d in l.entries[id].days && d < oldest && l.historyThrough.Covers(d);
      assert id in slots && d in slots[id].days;
    }
  }

  lemma KeptOpen(slots: Slots, oldest: int, closed: Mark)
    ensures (set id, d | id in KeptSlots(slots, oldest) && d in KeptSlots(slots, oldest)[id].days && !closed.Covers(d) ::
               KeptSlots(slots, oldest)[id].days[d]) <=
            (set id, d | id in slots && d in slots[id].days && !closed.Covers(d) :: slots[id].days[d])
  {}

  lemma KeptApart(slots: Slots, oldest: int)
    requires Apart(slots)
    ensures Apart(KeptSlots(slots, oldest))
  {
    hide Vacant;
  }

  class UsageLedger {
    const zone: Zone
    var entries: Slots
    var dirty: bool
    var revision: nat
    var historyThrough: Mark
    var closedThrough: Mark
    var historyStale: bool
    var lastEvicted: Option<int>

    ghost function View(): Ledger
      reads this, AllTables(entries)
    {
      Ledger(SlotsView(entries), dirty, revision, historyThrough, closedThrough, historyStale, lastEvicted)
    }

    ghost predicate Valid()
      reads this
    {
      Apart(entries)
    }

    /** The tables a booking may write. */
    ghost function OpenTables(): set<Table>
      reads this
    {
      TablesOpen(entries, closedThrough)
    }

    constructor (zone: Zone)
      ensures Valid() && this.zone == zone && View() == Ledger(map[], false, 0, Never, Never, false, None)
    {
      this.zone := zone;
      entries, dirty, revision := map[], false, 0;
      historyThrough, closedThrough, historyStale, lastEvicted := Never, Never, false, None;
    }

    method MarkDirty()
      modifies `dirty, `revision
      ensures dirty && revision == old(revision) + 1 && View() == old(View()).Dirtied()
    {
      dirty, revision := true, revision + 1;
    }

    /** One retention pass a day; no table is written. */
    method EvictExpired(now: int)
      requires Valid()
      modifies `entries, `lastEvicted, `historyStale, `dirty, `revision
      ensures Valid() && View() == Evicted(zone, old(View()), now)
      ensures AllTables(entries) <= old(AllTables(entries)) && OpenTables() <= old(OpenTables())
    {
      hide DayOf, SlotsView, KeptSlots, KeptEntries, StaleIn, HistoryHolds, Apart;
      var today := DayOf(zone, now);
      if lastEvicted == Some(today) {
        return;
      }
      ghost var before := View();
      lastEvicted := Some(today);
      var oldest := today - (RETENTION_DAYS - 1);
      var kept, stale, changed := DropExpired(entries, oldest, historyThrough);
      KeptSlotsView(entries, oldest);
      StaleView(entries, oldest, before);
      KeptApart(entries, oldest);
      KeptOpen(entries, oldest, closedThrough);
      entries := kept;
      if stale {
        historyStale := true;
      }
      if changed {
        MarkDirty();
      }
    }

    /** Books into one day's table, a new one when the key has none that day. */
    method BookDay(id: string, s: Slot, date: int, model: string, delta: Bucket)
      requires Valid() && !closedThrough.Covers(date)
      requires s.days == (if id in entries then entries[id].days else map[])
      modifies `entries, OpenTables()
      ensures Valid()
      ensures View() == old(View()).Put(id, OnDate(KeyUsage(s.cycles, s.balance, old(View()).Entry(id).days), date, model, delta))
      ensures forall t :: t in AllTables(entries) ==> t in old(AllTables(entries)) || fresh(t)
      ensures closedThrough == old(closedThrough) && forall t :: t in OpenTables() ==> t in old(OpenTables()) || fresh(t)
    {
      hide Mark.Covers, Booked, Apart, SlotsView, SlotView, DaysView, OnDate, ShowsBut, OnlyHere, TablesOpen;
      ghost var before, was := View(), entries;
      TableShown(was, id, date);
      var days := s.days;
      if date !in days {
        var t := new Table(map[]);
        days := days[date := t];
      }
      ghost var table := days[date];
      assert date !in s.days ==> table !in AllTables(was);
      OnlyOne(was, id, date, table);
      ViewShows(was, table);
      OneTableMore(was, closedThrough, id, s.(days := days), date, table);
      days[date].models := Booked(days[date].models, model, delta);
      entries := entries[id := s.(days := days)];
      TableWritten(was, before.entries, id, s, days, date, table, model, delta);
      StillApart(was, id, s.(days := days), date, table);
    }

    function SlotOf(id: string): Slot
      reads this
    {
      if id in entries then entries[id] else Slot(None, None, map[])
    }

    /** One billed call: into the periods, the balance and the day. */
    method Record(id: string, model: string, delta: Bucket, deduct: bool, now: int)
      requires Valid()
      modifies this, OpenTables()
      ensures Valid() && View() == Recorded(zone, old(View()), id, model, delta, deduct, now)
      ensures forall t :: t in AllTables(entries) ==> t in old(AllTables(entries)) || fresh(t)
      ensures closedThrough == old(closedThrough) && forall t :: t in OpenTables() ==> t in old(OpenTables()) || fresh(t)
    {
      hide DayOf, Apart, SlotsView, DaysView, Evicted, BookedAll, AllAdvanced, OnDate, Recorded, FirstOpen;
      ghost var before := View();
      var s := SlotOf(id);
      SlotShown(entries, id);
      if s.cycles.Some? {
        var cycles, changed := AdvanceCycles(zone, s.cycles.value, now);
        s := s.(cycles := Some(BookedAll(cycles, model, delta)));
        if deduct {
          s := s.(balance := Deducted(s.balance, delta.charged));
        }
      }
      RecordedIs(zone, before, id, KeyUsage(s.cycles, s.balance, before.Entry(id).days), model, delta, deduct, now);
      NeverClosed(zone, closedThrough, now);
      assert forall t :: t in AllTables(entries) ==> old(allocated(t));
      assert View() == before;
      BookDay(id, s, FirstOpen(zone, closedThrough, now), model, delta);
      EvictExpired(now);
      MarkDirty();
    }

    /** A journaled call, booked as of when it was billed. */
    method RecordJournaled(id: string, model: string, delta: Bucket, deduct: bool, at: Option<int>, now: int)
      requires Valid()
      modifies this, OpenTables()
      ensures Valid() && View() == Replayed(zone, old(View()), id, model, delta, deduct, at, now)
      ensures forall t :: t in AllTables(entries) ==> t in old(AllTables(entries)) || fresh(t)
      ensures closedThrough == old(closedThrough) && forall t :: t in OpenTables() ==> t in old(OpenTables()) || fresh(t)
    {
      hide DayOf, Apart, SlotsView, DaysView, Evicted, BookedAllSince, AllAdvanced, OnDate, Replayed, FirstOpen;
      ghost var before := View();
      var t := now;
      if at.Some? && at.value <= now {
        t := at.value;
      }
      var s := SlotOf(id);
      SlotShown(entries, id);
      if s.cycles.Some? {
        var cycles, changed := AdvanceCycles(zone, s.cycles.value, now);
        s := s.(cycles := Some(BookedAllSince(cycles, model, delta, t)));
        if deduct {
          s := s.(balance := Deducted(s.balance, delta.charged));
        }
      }
      ReplayedIs(zone, before, id, KeyUsage(s.cycles, s.balance, before.Entry(id).days), model, delta, deduct, at, now);
      NeverClosed(zone, closedThrough, t);
      assert forall t :: t in AllTables(entries) ==> old(allocated(t));
      assert View() == before;
      BookDay(id, s, FirstOpen(zone, closedThrough, t), model, delta);
      EvictExpired(now);
      MarkDirty();
    }

    /** Stores a key's periods and balance; its days stay the same tables. */
    method Store(id: string, s: Slot)
      requires Valid() && s.days == SlotOf(id).days
      modifies `entries
      ensures Valid() && View() == old(View()).Put(id, KeyUsage(s.cycles, s.balance, old(View()).Entry(id).days))
      ensures AllTables(entries) == old(AllTables(entries)) && entries == old(entries)[id := s]
    {
      hide SlotsView, Apart;
      SlotShown(entries, id);
      SlotPut(entries, id, s);
      entries := entries[id := s];
    }

    /** Opens a key's periods at its creation and rolls them forward. */
    method OpenCycles(id: string, createdAt: Option<int>, now: int)
      requires Valid()
      modifies this
      ensures Valid() && View() == WithCycles(zone, old(View()), id, createdAt, now)
      ensures AllTables(entries) == old(AllTables(entries))
    {
      hide Apart, SlotsView, DaysView, AllAdvanced, Opened, AnyExpired;
      ghost var before := View();
      var s := SlotOf(id);
      SlotShown(entries, id);
      if s.cycles.None? {
        s := s.(cycles := Some(Opened(zone, if createdAt.Some? then createdAt.value else now, Initial)));
        Store(id, s);
        MarkDirty();
      } else {
        Store(id, s);
      }
      var cycles, changed := AdvanceCycles(zone, s.cycles.value, now);
      if changed {
        Store(id, s.(cycles := Some(cycles)));
        MarkDirty();
      }
    }

    /** Looking at a key rolls its periods forward. */
    method CurrentCycles(id: string, now: int) returns (cycles: Option<CycleSet>)
      requires Valid()
      modifies this
      ensures Valid() && View() == Read(zone, old(View()), id, now)
      ensures cycles == View().Entry(id).cycles
      ensures AllTables(entries) == old(AllTables(entries)) && entries.Keys == old(entries.Keys)
    {
      hide Apart, SlotsView, DaysView, AllAdvanced, AnyExpired;
      ghost var before := View();
      SlotShown(entries, id);
      cycles := SlotOf(id).cycles;
      if id in entries && cycles.Some? {
        var rolled, changed := AdvanceCycles(zone, cycles.value, now);
        assert forall t :: t in AllTables(entries) ==> old(allocated(t));
        assert View() == before;
        if changed {
          cycles := Some(rolled);
          Store(id, entries[id].(cycles := cycles));
          MarkDirty();
        }
      }
    }

    /** Deletion of a key: only its days stay. */
    method ForgetKey(id: string)
      requires Valid()
      modifies this
      ensures Valid() && View() == Forgotten(old(View()), id)
      ensures AllTables(entries) <= old(AllTables(entries))
    {
      hide DaysView;
      SlotShown(entries, id);
      if id !in entries || (entries[id].cycles.None? && entries[id].balance.None?) {
        return;
      }
      EmptyShown(entries, id);
      if entries[id].days == map[] {
        entries := entries - {id};
      } else {
        Store(id, entries[id].(cycles := None, balance := None));
      }
      MarkDirty();
    }

    /** Rolls every key's expired periods forward. */
    method RollAll(now: int)
      requires Valid()
      modifies this
      ensures Valid() && View() == RolledEntries(zone, old(View()), now)
      ensures AllTables(entries) == old(AllTables(entries))
    {
      hide Apart, SlotsView, RolledIn, RolledEntries, Expired, RolledEntry;
      ghost var before := View();
      var left := entries.Keys;
      SlotShown(entries, "");
      NoneRolled(zone, before, now);
      while left != {}
        invariant Valid() && left <= entries.Keys && entries.Keys == before.entries.Keys
        invariant View() == RolledIn(zone, before, before.entries.Keys - left, now)
        invariant AllTables(entries) == old(AllTables(entries))
        decreases |left|
      {
        var id := Pick(left);
        ghost var ids := before.entries.Keys - left;
        RollOne(zone, before, ids, id, now);
        var cycles := CurrentCycles(id, now);
        assert before.entries.Keys - (left - {id}) == ids + {id};
        left := left - {id};
      }
      assert before.entries.Keys - {} == before.entries.Keys;
      AllRolled(zone, before, now);
    }

    /** Whether any key was billed on a day of the range. */
    method HasDays(after: Mark, through: int) returns (found: bool)
      requires Valid()
      ensures found <==> HasDaysIn(View(), after, through)
    {
      hide Apart, SlotsView;
      var left := entries.Keys;
      SlotShown(entries, "");
      while left != {}
        invariant left <= entries.Keys
        invariant forall id, d :: id in entries && id !in left && d in entries[id].days ==>
          after.Covers(d) || d > through || entries[id].days[d].models == map[]
        decreases |left|
      {
        var id := Pick(left);
        var dates := entries[id].days.Keys;
        SlotShown(entries, id);
        while dates != {}
          invariant dates <= entries[id].days.Keys
          invariant forall d :: d in entries[id].days && d !in dates ==>
            after.Covers(d) || d > through || entries[id].days[d].models == map[]
          decreases |dates|
        {
          var d := Pick(dates);
          if !after.Covers(d) && d <= through && entries[id].days[d].models != map[] {
            SlotShown(entries, id);
            assert id in View().entries && d in View().entries[id].days;
            return true;
          }
          dates := dates - {d};
        }
        left := left - {id};
      }
      forall id, d | id in View().entries && d in View().entries[id].days
        ensures after.Covers(d) || d > through || View().entries[id].days[d] == map[]
      {
        SlotShown(entries, id);
      }
      return false;
    }

    /** Copies the periods, balances and days after the watermark. */
    method LiveCopy(through: Mark) returns (keys: LiveKeys)
      requires Valid()
      ensures keys == LiveSnapshot(View(), through)
    {
      keys := map id | id in entries ::
        LiveKey(entries[id].cycles, entries[id].balance,
                map d | d in entries[id].days && !through.Covers(d) && entries[id].days[d].models != map[] :: entries[id].days[d].models);
      forall id | id in entries ensures keys[id].days == DaysAfter(View().entries[id].days, through) {
        SlotShown(entries, id);
      }
    }

    /** Copies each key's table of dates and shares the closed tables. */
    method ShareHistory(through: int) returns (h: SharedHistory)
      requires Valid()
      ensures HistoryView(h) == HistoryFile(through, HistorySnapshot(View(), through))
      ensures forall t :: t in HistoryTables(h) ==> exists id, d :: d <= through && id in entries && d in entries[id].days && entries[id].days[d] == t
    {
      hide Apart, SlotsView, Shared, HistorySnapshot, HistoryView, HistoryTables;
      assert forall id :: id in entries ==> entries[id].days.Values <= AllTables(entries) by {
        forall id | id in entries ensures entries[id].days.Values <= AllTables(entries) {
          InAll(entries, id);
        }
      }
      h := SharedHistory(through, map id | id in entries && Shared(entries[id], through) != map[] :: Shared(entries[id], through));
      SharedIs(entries, through, h, View());
      SharedTables(entries, through, h);
    }

    /** Evicts, rolls every period forward, and says whether the history file
        must be written. */
    method Tidy(now: int) returns (due: bool)
      requires Valid()
      modifies this
      ensures Valid() && View() == RolledEntries(zone, Evicted(zone, old(View()), now), now)
      ensures due <==> NeedsHistory(zone, View(), now)
      ensures AllTables(entries) <= old(AllTables(entries))
    {
      hide DayOf, Apart, SlotsView, Evicted, RolledEntries, HasDaysIn;
      EvictExpired(now);
      RollAll(now);
      ghost var l := View();
      var yesterday := DayOf(zone, now) - 1;
      due := historyStale;
      if !due && !historyThrough.Covers(yesterday) {
        due := HasDays(historyThrough, yesterday);
        assert forall t :: t in AllTables(entries) ==> old(allocated(t));
        assert View() == l;
      }
    }

    /** The content of both files of a flush. The history's tables are shared
        with it, and closed from here on. */
    method TakePlan(now: int) returns (plan: Option<SharedPlan>)
      requires Valid()
      modifies this
      ensures Valid() && View() == PlanFlush(zone, old(View()), now).ledger
      ensures var p := PlanFlush(zone, old(View()), now).plan;
        (plan.Some? <==> p.Some?) && (plan.Some? ==> PlanView(plan.value) == p.value)
      ensures plan.Some? && plan.value.history.Some? ==>
        HistoryTables(plan.value.history.value) <= AllTables(entries) && HistoryTables(plan.value.history.value) !! OpenTables()
      ensures AllTables(entries) <= old(AllTables(entries))
    {
      hide DayOf, Apart, SlotsView, Evicted, RolledEntries, HistoryTables, HistoryView, LiveSnapshot, HistorySnapshot,
        PlanFlush, NeedsHistory, DaysView;
      ghost var before := View();
      var due := Tidy(now);
      ghost var l := View();
      PlanCases(zone, before, now, l);
      if !dirty && !due {
        return None;
      }
      var live := LiveCopy(historyThrough);
      assert forall t :: t in AllTables(entries) ==> old(allocated(t));
      assert View() == l;
      if !due {
        return Some(SharedPlan(revision, historyThrough, None, live));
      }
      var h := CloseDays(historyThrough.Max(Through(DayOf(zone, now) - 1)).day);
      plan := Some(SharedPlan(revision, historyThrough, Some(h), live));
    }

    /** Closes the days up to a date and shares their tables. */
    method CloseDays(through: int) returns (h: SharedHistory)
      requires Valid()
      modifies `closedThrough, `historyStale
      ensures Valid() && View() == old(View()).(closedThrough := old(closedThrough).Max(Through(through)), historyStale := false)
      ensures HistoryView(h) == HistoryFile(through, HistorySnapshot(old(View()), through))
      ensures HistoryTables(h) <= AllTables(entries) && HistoryTables(h) !! OpenTables()
    {
      hide Apart, SlotsView, HistoryTables, HistoryView, HistorySnapshot, DaysView;
      ghost var before := View();
      h := ShareHistory(through);
      ghost var cut := HistoryView(h);
      assert forall t :: t in AllTables(entries) ==> old(allocated(t));
      assert View() == before;
      closedThrough := closedThrough.Max(Through(through));
      historyStale := false;
      ClosedAreApart(entries, through, closedThrough, HistoryTables(h), OpenTables());
      assert HistoryView(h) == cut;
    }

    /** What the files hold once the writes ended. */
    method NoteFlushed(plan: SharedPlan, historyWritten: bool, liveWritten: bool)
      requires Valid()
      modifies `historyThrough, `historyStale, `dirty
      ensures Valid() && View() == MarkFlushed(old(View()), PlanView(plan), historyWritten, liveWritten)
    {
      hide HistoryTables, DaysView, SlotsView;
      ghost var before := View();
      var reached, stale, unsaved := historyThrough, historyStale, dirty;
      if plan.history.Some? {
        if historyWritten {
          reached := Through(plan.history.value.through);
        } else {
          stale := true;
        }
      }
      if liveWritten && revision == plan.revision {
        unsaved := false;
      }
      historyThrough, historyStale, dirty := reached, stale, unsaved;
      PlanShown(plan);
      assert forall t :: t in AllTables(entries) ==> old(allocated(t));
      assert View() == before.(historyThrough := reached, historyStale := stale, dirty := unsaved);
    }

    /** Starts over from the content of the files, less what retention drops. */
    method Load(keys: Entries, through: Mark, now: int)
      requires revision == 0
      modifies this
      ensures Valid() && View() == Loaded(zone, keys, through, now)
    {
      hide SlotsView, Apart, Evicted;
      entries := CloneKeys(keys);
      historyThrough, closedThrough := through, through;
      historyStale, lastEvicted, dirty := false, None, false;
      EvictExpired(now);
    }

    /** Changes a key and writes the live file before answering; a failed
        write undoes the change. */
    method Persist(id: string, s: Slot, outcome: Outcome) returns (written: LiveFile)
      requires Valid() && id in entries && s.days == entries[id].days
      modifies this
      ensures Valid() && entries.Keys == old(entries.Keys)
      ensures var before := old(View());
        var after := before.Put(id, KeyUsage(s.cycles, s.balance, before.Entry(id).days)).Dirtied();
        && written == LiveFileOf(after.historyThrough, LiveSnapshot(after, after.historyThrough))
        && View() == if outcome.Written? then after.(dirty := false) else before
    {
      hide Apart, SlotsView, DaysView, LiveSnapshot, LiveFileOf;
      var previous, wasDirty, wasRevision := entries[id], dirty, revision;
      ghost var before := View();
      StoreDirty(id, s);
      ghost var after := View();
      written := LiveNow();
      assert forall t :: t in AllTables(entries) ==> old(allocated(t));
      assert View() == after;
      if outcome.Written? {
        dirty := false;
        assert View() == after.(dirty := false);
      } else {
        Restore(id, previous, wasDirty, wasRevision);
        assert entries == old(entries);
        assert forall t :: t in AllTables(entries) ==> old(allocated(t));
        assert View() == before;
      }
    }

    /** Puts a key back as it was, with the marks of that time. */
    method Restore(id: string, previous: Slot, wasDirty: bool, wasRevision: nat)
      modifies `entries, `dirty, `revision
      ensures entries == old(entries)[id := previous] && dirty == wasDirty && revision == wasRevision
    {
      entries := entries[id := previous];
      dirty, revision := wasDirty, wasRevision;
    }

    /** Stores a key's periods and balance as an unsaved change. */
    method StoreDirty(id: string, s: Slot)
      requires Valid() && id in entries && s.days == entries[id].days
      modifies `entries, `dirty, `revision
      ensures Valid() && View() == old(View()).Put(id, KeyUsage(s.cycles, s.balance, old(View()).Entry(id).days)).Dirtied()
      ensures entries == old(entries)[id := s]
    {
      Store(id, s);
      MarkDirty();
    }

    /** The live file as a write under the lock puts it. */
    method LiveNow() returns (file: LiveFile)
      requires Valid()
      ensures file == LiveFileOf(historyThrough, LiveSnapshot(View(), historyThrough))
    {
      hide LiveSnapshot, LiveFileOf, SlotsView;
      ghost var before := View();
      var live := LiveCopy(historyThrough);
      assert forall t :: t in AllTables(entries) ==> old(allocated(t));
      assert View() == before;
      file := LiveFileOf(historyThrough, live);
    }

    /** A reset by hand of one period. */
    method ResetWindowAndPersist(id: string, w: Window, expected: Option<Expected>, now: int, outcome: Outcome)
      returns (done: bool, ghost attempt: Attempt, written: Option<LiveFile>)
      requires Valid()
      modifies this
      ensures Valid() && attempt == ResetWindow(zone, old(View()), id, w, expected, now) && View() == attempt.Ended(outcome)
      ensures done <==> attempt.Persisting? && outcome.Written?
      ensures attempt.Persisting? ==>
        written == Some(LiveFileOf(attempt.after.historyThrough, LiveSnapshot(attempt.after, attempt.after.historyThrough)))
    {
      hide Apart, SlotsView, DaysView, Read, LiveSnapshot, LiveFileOf, DayStart;
      attempt := ResetWindow(zone, View(), id, w, expected, now);
      SlotShown(entries, id);
      if id !in entries || entries[id].cycles.None? {
        return false, attempt, None;
      }
      var cycles := CurrentCycles(id, now);
      SlotShown(entries, id);
      var reset := ResetByHand(zone, w, now);
      if cycles.None? {
        return false, attempt, None;
      }
      if expected.Some? && (cycles.value.Of(w).startedAt != expected.value.startedAt || reset.resetsAt != expected.value.resetAfter) {
        return false, attempt, None;
      }
      var file := Persist(id, entries[id].(cycles := Some(cycles.value.With(w, reset))), outcome);
      return outcome.Written?, attempt, Some(file);
    }

    /** A management adjustment of a key's balance. */
    method AdjustBalanceAndPersist(id: string, amount: int, request: string, outcome: Outcome)
      returns (reply: Reply, ghost attempt: Attempt, written: Option<LiveFile>)
      requires Valid()
      modifies this
      ensures Valid() && attempt == AdjustBalance(old(View()), id, amount, request) && View() == attempt.Ended(outcome)
      ensures reply == ReplyTo(old(View()), id, amount, request, outcome)
      ensures attempt.Persisting? ==>
        written == Some(LiveFileOf(attempt.after.historyThrough, LiveSnapshot(attempt.after, attempt.after.historyThrough)))
    {
      hide Apart, SlotsView, DaysView, LiveSnapshot, LiveFileOf, Latest, Earlier;
      attempt := AdjustBalance(View(), id, amount, request);
      SlotShown(entries, id);
      if id !in entries || entries[id].cycles.None? {
        return UnknownKey, attempt, None;
      }
      var b := if entries[id].balance.Some? then entries[id].balance.value else NO_BALANCE;
      if request != "" {
        var earlier := Earlier(b.requests, request);
        if earlier.Some? {
          if earlier.value.amount != amount {
            return Conflict, attempt, None;
          }
          return Adjustment(earlier.value.balance - amount, earlier.value.balance, b.netCredited, true), attempt, None;
        }
      }
      var nano, requests := b.nano + amount, b.requests;
      if request != "" {
        requests := Latest(requests + [Request(request, amount, nano)]);
      }
      var file := Persist(id, entries[id].(balance := Some(Balance(nano, b.netCredited + amount, requests))), outcome);
      reply := if outcome.Written? then Adjustment(b.nano, nano, b.netCredited + amount, false) else WriteFailed;
      return reply, attempt, Some(file);
    }

    /** From here on exactly the known keys have periods. */
    method SyncCycles(keys: seq<Key>, now: int)
      requires Valid()
      modifies this
      ensures Valid() && View() == Synced(zone, old(View()), keys, now)
    {
      hide Apart, SlotsView, DaysView, WithCycles, OnlyKnown, AllTables;
      ghost var before := View();
      var known: set<string> := {};
      for i := 0 to |keys|
        invariant Valid() && View() == WithAllCycles(zone, before, keys[..i], now)
        invariant known == set k | k in keys[..i] :: k.id
      {
        assert keys[..i + 1][..i] == keys[..i];
        OpenCycles(keys[i].id, keys[i].createdAt, now);
        assert (set k | k in keys[..i + 1] :: k.id) == (set k | k in keys[..i] :: k.id) + {keys[i].id};
        known := known + {keys[i].id};
      }
      assert keys[..|keys|] == keys;
      ForgetUnknown(known);
    }

    method ForgetUnknown(known: set<string>)
      requires Valid()
      modifies this
      ensures Valid() && View() == OnlyKnown(old(View()), known)
    {
      hide Apart, SlotsView, DaysView, OnlyKnown, Forgotten, AllTables;
      ghost var l := View();
      var left := entries.Keys;
      SlotShown(entries, "");
      NoneForgotten(l, known);
      while left != {}
        invariant Valid() && left <= l.entries.Keys
        invariant View() == OnlyKnown(l, known + left)
        decreases |left|
      {
        ghost var all := known + left;
        var id :| id in left;
        if id in known {
          assert known + (left - {id}) == all;
        } else {
          ForgetOne(l, all, id);
          assert all - {id} == known + (left - {id});
        }
        if id !in known {
          ForgetKey(id);
        }
        left := left - {id};
      }
      assert known + {} == known;
    }
  }

  lemma NoneForgotten(l: Ledger, known: set<string>)
    ensures OnlyKnown(l, known + l.entries.Keys) == l
  {
    var all := known + l.entries.Keys;
    assert (set id | id in l.entries && id !in all && Registered(l.entries[id])) == {};
  }

  lemma ForgetOne(l: Ledger, known: set<string>, id: string)
    requires id in known && id in l.entries
    ensures OnlyKnown(l, known - {id}) == Forgotten(OnlyKnown(l, known), id)
  {
    hide Registered, Unregistered;
    var dropped := set k | k in l.entries && k !in known && Registered(l.entries[k]);
    var more := set k | k in l.entries && k !in known - {id} && Registered(l.entries[k]);
    PartlyForgotten(l, known, id);
    if Registered(l.entries[id]) {
      assert more == dropped + {id};
      ForgetEntry(l, known, id);
    } else {
      assert more == dropped;
    }
  }

  lemma PartlyForgotten(l: Ledger, known: set<string>, id: string)
    requires id in known && id in l.entries
    ensures id in OnlyKnown(l, known).entries && OnlyKnown(l, known).entries[id] == l.entries[id]
  {
    hide Registered, Unregistered;
  }

  lemma ForgetEntry(l: Ledger, known: set<string>, id: string)
    requires id in known && id in l.entries && Registered(l.entries[id])
    ensures var entries := OnlyKnown(l, known).entries;
      OnlyKnown(l, known - {id}).entries ==
        if l.entries[id].days == map[] then entries - {id} else entries[id := Unregistered(l.entries[id])]
  {
    hide Registered, Unregistered;
  }

  /** A booking: a call billed now, or a journaled one. */
  datatype Booking =
    | Billed(id: string, model: string, delta: Bucket, deduct: bool, now: int)
    | Journaled(id: string, model: string, delta: Bucket, deduct: bool, at: Option<int>, now: int)

  function BookedOne(z: Zone, l: Ledger, b: Booking): Ledger {
    match b
    case Billed(id, model, delta, deduct, now) => Recorded(z, l, id, model, delta, deduct, now)
    case Journaled(id, model, delta, deduct, at, now) => Replayed(z, l, id, model, delta, deduct, at, now)
  }

  function BookedIn(z: Zone, l: Ledger, bookings: seq<Booking>): Ledger {
    if bookings == [] then l else BookedOne(z, BookedIn(z, l, bookings[..|bookings| - 1]), bookings[|bookings| - 1])
  }

  /** Billing while a history write runs: however many calls are booked, the
      tables it was given stay as they were planned, and stay out of every
      later booking's reach. */
  method BillDuringWrite(l: UsageLedger, h: SharedHistory, bookings: seq<Booking>)
    requires l.Valid() && HistoryTables(h) !! l.OpenTables()
    modifies l, l.OpenTables()
    ensures l.Valid() && l.View() == BookedIn(l.zone, old(l.View()), bookings)
    ensures HistoryView(h) == old(HistoryView(h)) && HistoryTables(h) !! l.OpenTables()
    ensures l.closedThrough == old(l.closedThrough) && forall t :: t in l.OpenTables() ==> t in old(l.OpenTables()) || fresh(t)
  {
    hide BookedOne, HistoryView, SlotsView, DaysView, Apart;
    ghost var tables := HistoryTables(h);
    for i := 0 to |bookings|
      invariant l.Valid() && l.View() == BookedIn(l.zone, old(l.View()), bookings[..i])
      invariant HistoryView(h) == old(HistoryView(h)) && tables !! l.OpenTables()
      invariant l.closedThrough == old(l.closedThrough) && forall t :: t in l.OpenTables() ==> t in old(l.OpenTables()) || fresh(t)
    {
      assert bookings[..i + 1][..i] == bookings[..i];
      BookOne(l, bookings[i]);
    }
    assert bookings[..|bookings|] == bookings;
  }

  method BookOne(l: UsageLedger, b: Booking)
    requires l.Valid()
    modifies l, l.OpenTables()
    ensures l.Valid() && l.View() == BookedOne(l.zone, old(l.View()), b)
    ensures l.closedThrough == old(l.closedThrough) && forall t :: t in l.OpenTables() ==> t in old(l.OpenTables()) || fresh(t)
  {
    hide Recorded, Replayed, SlotsView, Apart;
    match b
    case Billed(id, model, delta, deduct, now) => l.Record(id, model, delta, deduct, now);
    case Journaled(id, model, delta, deduct, at, now) => l.RecordJournaled(id, model, delta, deduct, at, now);
  }

  /** A whole flush with calls booked while its files are written: what is
      written is what was planned, and the calls are in the ledger. */
  method FlushWhileBilling(l: UsageLedger, now: int, bookings: seq<Booking>, historyWritten: bool, liveWritten: bool)
    returns (plan: Option<SharedPlan>)
    requires l.Valid()
    modifies l, AllTables(l.entries)
    ensures var p := PlanFlush(l.zone, old(l.View()), now);
      && (plan.Some? <==> p.plan.Some?) && (plan.Some? ==> PlanView(plan.value) == p.plan.value)
      && l.Valid()
      && l.View() ==
         if p.plan.None? then p.ledger
         else MarkFlushed(BookedIn(l.zone, p.ledger, bookings), p.plan.value, historyWritten, liveWritten)
  {
    hide PlanFlush, BookedIn, MarkFlushed, HistoryTables, HistoryView, SlotsView, DaysView, Apart;
    plan := l.TakePlan(now);
    if plan.Some? {
      OpenInAll(l);
      var h := if plan.value.history.Some? then plan.value.history.value else SharedHistory(0, map[]);
      assert plan.value.history.None? ==> HistoryTables(h) == {} by { NothingShared(); }
      BillDuringWrite(l, h, bookings);
      l.NoteFlushed(plan.value, historyWritten, liveWritten);
    }
  }

  lemma OpenInAll(l: UsageLedger)
    ensures l.OpenTables() <= AllTables(l.entries)
  {}

  lemma NothingShared()
    ensures HistoryTables(SharedHistory(0, map[])) == {}
  {}

  method CloneDays(days: Days) returns (tables: Tables)
    ensures DaysView(tables) == days && fresh(tables.Values)
    ensures forall d, e :: d in tables && e in tables && tables[d] == tables[e] ==> d == e
  {
    tables := map[];
    var left := days.Keys;
    while left != {}
      invariant left <= days.Keys && tables.Keys == days.Keys - left && fresh(tables.Values)
      invariant forall d :: d in tables ==> tables[d].models == days[d]
      invariant forall d, e :: d in tables && e in tables && tables[d] == tables[e] ==> d == e
      decreases |left|
    {
      var d := Pick(left);
      var t := new Table(days[d]);
      assert forall e :: e in tables ==> tables[e] in tables.Values;
      tables := tables[d := t];
      left := left - {d};
    }
    DaysViewIs(tables, days);
  }

  /** Tables of its own for every day of every key. */
  method CloneKeys(keys: Entries) returns (slots: Slots)
    ensures SlotsView(slots) == keys && Apart(slots) && fresh(AllTables(slots))
  {
    hide DaysView;
    slots := map[];
    var left := keys.Keys;
    while left != {}
      invariant left <= keys.Keys && slots.Keys == keys.Keys - left
      invariant Apart(slots) && fresh(AllTables(slots))
      invariant forall id :: id in slots ==> SlotView(slots[id]) == keys[id]
      decreases |left|
    {
      var id := Pick(left);
      ghost var was := slots;
      var tables := CloneDays(keys[id].days);
      AddedSlot(was, id, Slot(keys[id].cycles, keys[id].balance, tables));
      slots := slots[id := Slot(keys[id].cycles, keys[id].balance, tables)];
      left := left - {id};
    }
  }

  lemma AddedSlot(slots: Slots, id: string, s: Slot)
    requires Apart(slots) && id !in slots && s.days.Values !! AllTables(slots)
    requires forall d, e :: d in s.days && e in s.days && s.days[d] == s.days[e] ==> d == e
    ensures Apart(slots[id := s]) && AllTables(slots[id := s]) == AllTables(slots) + s.days.Values
  {
    var after := slots[id := s];
    forall i, j, d: int, e: int | i in after && j in after && d in after[i].days && e in after[j].days && after[i].days[d] == after[j].days[e]
      ensures i == j && d == e
    {
      assert i == id ==> after[i].days[d] in s.days.Values;
      assert j == id ==> after[j].days[e] in s.days.Values;
      assert i != id ==> after[i].days[d] in AllTables(slots);
      assert j != id ==> after[j].days[e] in AllTables(slots);
    }
    forall t | t in AllTables(after) ensures t in AllTables(slots) + s.days.Values {
      var k :| k in after && t in after[k].days.Values;
      var d := KeyOf(after[k].days, t);
      if k == id {
        assert s.days[d] in s.days.Values;
      } else {
        assert slots[k].days[d] in AllTables(slots);
      }
    }
    forall t | t in s.days.Values ensures t in AllTables(after) {
      var d := KeyOf(s.days, t);
      assert after[id].days[d] == t;
    }
    forall t | t in AllTables(slots) ensures t in AllTables(after) {
      var k :| k in slots && t in slots[k].days.Values;
      var d := KeyOf(slots[k].days, t);
      assert after[k].days[d] == t;
    }
  }

  lemma PlanShown(p: SharedPlan)
    ensures PlanView(p).revision == p.revision && (PlanView(p).history.Some? <==> p.history.Some?)
    ensures p.history.Some? ==> PlanView(p).history.value.through == p.history.value.through
  {
    if p.history.Some? {
      assert HistoryView(p.history.value).through == p.history.value.through;
    }
  }

  lemma PlanCases(z: Zone, before: Ledger, now: int, l: Ledger)
    requires l == RolledEntries(z, Evicted(z, before, now), now)
    ensures var yesterday, due := DayOf(z, now) - 1, NeedsHistory(z, l, now);
      var through := l.historyThrough.Max(Through(yesterday)).day;
      var plan := Plan(l.revision, l.historyThrough, None, LiveSnapshot(l, l.historyThrough));
      PlanFlush(z, before, now) ==
        if !l.dirty && !due then Planned(l, None)
        else if !due then Planned(l, Some(plan))
        else Planned(l.(closedThrough := l.closedThrough.Max(Through(through)), historyStale := false),
                     Some(plan.(history := Some(HistoryFile(through, HistorySnapshot(l, through))))))
  {
    hide Evicted, RolledEntries, HasDaysIn, LiveSnapshot, HistorySnapshot, DayOf;
  }

  lemma ClosedAreApart(slots: Slots, through: int, closed: Mark, shared: set<Table>, open: set<Table>)
    requires Apart(slots) && Through(through).AtMost(closed)
    requires forall t :: t in shared ==> exists id, d :: d <= through && id in slots && d in slots[id].days && slots[id].days[d] == t
    requires open == set id, d | id in slots && d in slots[id].days && !closed.Covers(d) :: slots[id].days[d]
    ensures shared <= AllTables(slots) && shared !! open
  {}

  lemma SharedIs(slots: Slots, through: int, h: SharedHistory, l: Ledger)
    requires h.through == through && l.entries == SlotsView(slots)
    requires h.days == map id | id in slots && Shared(slots[id], through) != map[] :: Shared(slots[id], through)
    ensures HistoryView(h) == HistoryFile(through, HistorySnapshot(l, through))
  {
    hide Shared, SlotView, DaysView, DaysUpTo, SlotsView;
    SlotShown(slots, "");
    forall id | id in slots
      ensures DaysView(Shared(slots[id], through)) == DaysUpTo(l.entries[id].days, through)
      ensures Shared(slots[id], through) == map[] <==> DaysUpTo(l.entries[id].days, through) == map[]
    {
      SlotShown(slots, id);
      SharedView(slots[id], through);
    }
    SameMap(HistoryView(h).days, HistorySnapshot(l, through));
  }

  /** The closed tables of one key that hold anything. */
  function Shared(s: Slot, through: int): Tables
    reads s.days.Values
  {
    map d | d in s.days && d <= through && s.days[d].models != map[] :: s.days[d]
  }

  lemma SharedView(s: Slot, through: int)
    ensures Shared(s, through).Values <= s.days.Values
    ensures DaysView(Shared(s, through)) == DaysUpTo(SlotView(s).days, through)
    ensures Shared(s, through) == map[] <==> DaysUpTo(SlotView(s).days, through) == map[]
  {
    var shared := Shared(s, through);
    forall t | t in shared.Values ensures t in s.days.Values {
      var d := KeyOf(shared, t);
    }
    DaysViewIs(shared, DaysUpTo(SlotView(s).days, through));
    SameKeys(shared, DaysView(shared));
  }

  /** Every shared table is the table of a closed day. */
  lemma SharedTables(slots: Slots, through: int, h: SharedHistory)
    requires h.days == map id | id in slots && Shared(slots[id], through) != map[] :: Shared(slots[id], through)
    ensures forall t :: t in HistoryTables(h) ==>
      exists id, d :: d <= through && id in slots && d in slots[id].days && slots[id].days[d] == t
  {
    forall t | t in HistoryTables(h)
      ensures exists id, d :: d <= through && id in slots && d in slots[id].days && slots[id].days[d] == t
    {
      var id :| id in h.days && t in h.days[id].Values;
      var d := KeyOf(h.days[id], t);
    }
  }

  /** The ledger with the expired periods of some keys rolled forward. */
  ghost function RolledIn(z: Zone, l: Ledger, ids: set<string>, now: int): Ledger {
    var expired := set id | id in l.entries && id in ids && Expired(l.entries[id], now);
    l.(entries := map id | id in l.entries :: if id in ids then RolledEntry(z, l.entries[id], now) else l.entries[id],
       dirty := l.dirty || expired != {}, revision := l.revision + |expired|)
  }

  lemma NoneRolled(z: Zone, l: Ledger, now: int)
    ensures RolledIn(z, l, l.entries.Keys - l.entries.Keys, now) == l
  {
    hide Expired, RolledEntry;
    var none := l.entries.Keys - l.entries.Keys;
    assert (set id | id in l.entries && id in none && Expired(l.entries[id], now)) == {};
  }

  lemma AllRolled(z: Zone, l: Ledger, now: int)
    ensures RolledIn(z, l, l.entries.Keys, now) == RolledEntries(z, l, now)
  {
    hide Expired, RolledEntry;
    assert (set id | id in l.entries && id in l.entries.Keys && Expired(l.entries[id], now)) ==
           (set id | id in l.entries && Expired(l.entries[id], now));
  }

  lemma RollOne(z: Zone, l: Ledger, ids: set<string>, id: string, now: int)
    requires id in l.entries && id !in ids
    ensures var part := RolledIn(z, l, ids, now);
      && part.entries.Keys == l.entries.Keys && part.entries[id] == l.entries[id]
      && RolledIn(z, l, ids + {id}, now) ==
           if Expired(l.entries[id], now) then part.Put(id, RolledEntry(z, l.entries[id], now)).Dirtied() else part
  {
    hide Expired, RolledEntry;
    var part, after := RolledIn(z, l, ids, now), RolledIn(z, l, ids + {id}, now);
    var expired := set k | k in l.entries && k in ids && Expired(l.entries[k], now);
    var more := set k | k in l.entries && k in ids + {id} && Expired(l.entries[k], now);
    if Expired(l.entries[id], now) {
      assert more == expired + {id};
      assert after.entries == part.entries[id := RolledEntry(z, l.entries[id], now)];
    } else {
      assert more == expired;
      NothingToRoll(z, l.entries[id], now);
      assert after.entries == part.entries;
    }
  }

  lemma SlotShown(slots: Slots, id: string)
    ensures SlotsView(slots).Keys == slots.Keys
    ensures id in slots ==> var u := SlotsView(slots)[id];
      u.cycles == slots[id].cycles && u.balance == slots[id].balance && u == SlotView(slots[id])
  {}

  lemma SlotPut(slots: Slots, id: string, s: Slot)
    requires s.days == if id in slots then slots[id].days else map[]
    ensures AllTables(slots[id := s]) == AllTables(slots) && (Apart(slots) ==> Apart(slots[id := s]))
    ensures var view := SlotsView(slots);
      SlotsView(slots[id := s]) == view[id := KeyUsage(s.cycles, s.balance, if id in slots then view[id].days else map[])]
  {
    var after := slots[id := s];
    assert forall k :: k in after ==> after[k].days == if k in slots then slots[k].days else map[];
    DaysViewIs(map[], map[]);
  }

  lemma EmptyShown(slots: Slots, id: string)
    requires id in slots
    ensures slots[id].days == map[] <==> SlotsView(slots)[id].days == map[]
  {
    SameKeys(slots[id].days, DaysView(slots[id].days));
  }

  lemma RecordedIs(z: Zone, l: Ledger, id: string, u: KeyUsage, model: string, delta: Bucket, deduct: bool, now: int)
    requires u.days == l.Entry(id).days
    requires var v := Charged(z, l.Entry(id), model, delta, deduct, now); u.cycles == v.cycles && u.balance == v.balance
    ensures Evicted(z, l.Put(id, OnDate(u, FirstOpen(z, l.closedThrough, now), model, delta)), now).Dirtied() ==
            Recorded(z, l, id, model, delta, deduct, now)
  {
    hide Evicted, OnDate, AllAdvanced, BookedAll, DayOf;
    assert u == Charged(z, l.Entry(id), model, delta, deduct, now);
  }

  lemma ReplayedIs(z: Zone, l: Ledger, id: string, u: KeyUsage, model: string, delta: Bucket, deduct: bool, at: Option<int>, now: int)
    requires u.days == l.Entry(id).days
    requires var v := ChargedSince(z, l.Entry(id), model, delta, deduct, BookedAt(at, now), now);
      u.cycles == v.cycles && u.balance == v.balance
    ensures Evicted(z, l.Put(id, OnDate(u, FirstOpen(z, l.closedThrough, BookedAt(at, now)), model, delta)), now).Dirtied() ==
            Replayed(z, l, id, model, delta, deduct, at, now)
  {
    hide Evicted, OnDate, AllAdvanced, BookedAllSince, DayOf;
    assert u == ChargedSince(z, l.Entry(id), model, delta, deduct, BookedAt(at, now), now);
  }

  /** The slots still show what they did, but for one table. */
  ghost predicate ShowsBut(slots: Slots, view: Entries, table: Table)
    reads AllTables(slots) - {table}
  {
    && view.Keys == slots.Keys
    && forall k :: k in slots ==>
         && view[k].cycles == slots[k].cycles && view[k].balance == slots[k].balance
         && view[k].days.Keys == slots[k].days.Keys
         && forall d :: d in slots[k].days && slots[k].days[d] != table ==> slots[k].days[d].models == view[k].days[d]
  }

  lemma TableShown(slots: Slots, id: string, date: int)
    ensures SlotsView(slots).Keys == slots.Keys
    ensures id in slots ==> SlotsView(slots)[id].days.Keys == slots[id].days.Keys
    ensures id in slots && date in slots[id].days ==>
      slots[id].days[date].models == SlotsView(slots)[id].days[date] && slots[id].days[date] in AllTables(slots)
  {}

  lemma ViewShows(slots: Slots, table: Table)
    ensures ShowsBut(slots, SlotsView(slots), table)
  {}

  lemma DaysViewIs(days: Tables, view: Days)
    requires days.Keys == view.Keys && forall d :: d in days ==> days[d].models == view[d]
    ensures DaysView(days) == view
  {
    var v := DaysView(days);
    assert v.Keys == view.Keys;
    forall d | d in v ensures v[d] == view[d] {
      assert d in days && v[d] == days[d].models;
    }
    SameMap(v, view);
  }

  lemma SameMap<K, V>(a: map<K, V>, b: map<K, V>)
    requires a.Keys == b.Keys && forall k :: k in a ==> a[k] == b[k]
    ensures a == b
  {}

  lemma SlotViewIs(s: Slot, u: KeyUsage)
    requires s.cycles == u.cycles && s.balance == u.balance
    requires s.days.Keys == u.days.Keys && forall d :: d in s.days ==> s.days[d].models == u.days[d]
    ensures SlotView(s) == u
  {
    hide DaysView;
    DaysViewIs(s.days, u.days);
  }

  lemma OtherSlotSame(was: Slots, view: Entries, k: string, table: Table)
    requires k in was && ShowsBut(was, view, table) && forall d :: d in was[k].days ==> was[k].days[d] != table
    ensures SlotView(was[k]) == view[k]
  {
    hide SlotView;
    SlotViewIs(was[k], view[k]);
  }

  lemma ThisSlotWritten(was: Slots, view: Entries, id: string, s: Slot, days: Tables, date: int, table: Table, model: string, delta: Bucket)
    requires s.days == (if id in was then was[id].days else map[]) && days == s.days[date := table]
    requires OnlyHere(was, id, date, table) && ShowsBut(was, view, table)
    requires table.models == Booked(if date in s.days then view[id].days[date] else map[], model, delta)
    ensures var known := if id in was then view[id].days else map[];
      SlotView(s.(days := days)) == OnDate(KeyUsage(s.cycles, s.balance, known), date, model, delta)
  {
    hide Booked, DaysView;
    var known := if id in was then view[id].days else map[];
    forall d | d in s.days && d != date ensures days[d].models == known[d] {
      assert was[id].days[d] != table;
    }
    DaysViewIs(days, BookedOn(known, date, model, delta));
  }

  /** What writing one table does to the view. */
  lemma TableWritten(was: Slots, view: Entries, id: string, s: Slot, days: Tables, date: int, table: Table, model: string, delta: Bucket)
    requires s.days == (if id in was then was[id].days else map[]) && days == s.days[date := table]
    requires OnlyHere(was, id, date, table) && ShowsBut(was, view, table)
    requires table.models == Booked(if date in s.days then view[id].days[date] else map[], model, delta)
    ensures var known := if id in was then view[id].days else map[];
      SlotsView(was[id := s.(days := days)]) == view[id := OnDate(KeyUsage(s.cycles, s.balance, known), date, model, delta)]
  {
    hide Booked, OnDate, SlotView;
    ThisSlotWritten(was, view, id, s, days, date, table, model, delta);
    forall k | k in was && k != id ensures SlotView(was[k]) == view[k] {
      OtherSlotSame(was, view, k, table);
    }
  }

  lemma OnlyOne(slots: Slots, id: string, date: int, table: Table)
    requires Apart(slots) && (table in AllTables(slots) ==> id in slots && date in slots[id].days && slots[id].days[date] == table)
    ensures OnlyHere(slots, id, date, table)
  {}

  /** Only the table booked into may be new. */
  lemma OneTableMore(was: Slots, closed: Mark, id: string, s: Slot, date: int, table: Table)
    requires date in s.days && s.days[date] == table && !closed.Covers(date)
    requires forall d :: d in s.days && d != date ==> id in was && d in was[id].days && was[id].days[d] == s.days[d]
    ensures forall t :: t in AllTables(was[id := s]) ==> t in AllTables(was) || t == table
    ensures forall t :: t in TablesOpen(was[id := s], closed) ==> t in TablesOpen(was, closed) || t == table
    ensures id in was && date in was[id].days && was[id].days[date] == table ==> table in TablesOpen(was, closed)
  {
    hide Mark.Covers;
  }

  lemma StillApart(slots: Slots, id: string, s: Slot, date: int, table: Table)
    requires Apart(slots) && OnlyHere(slots, id, date, table) && date in s.days && s.days[date] == table
    requires forall d :: d in s.days && d != date ==> id in slots && d in slots[id].days && slots[id].days[d] == s.days[d]
    ensures Apart(slots[id := s])
  {
    var after := slots[id := s];
    forall i, j, d: int, e: int | i in after && j in after && d in after[i].days && e in after[j].days && after[i].days[d] == after[j].days[e]
      ensures i == j && d == e
    {
      if after[i].days[d] != table {
        assert i in slots && slots[i].days[d] == after[i].days[d];
        assert j in slots && slots[j].days[e] == after[j].days[e];
      }
    }
  }

  /** No other key or day has this table. */
  ghost predicate OnlyHere(slots: Slots, id: string, date: int, table: Table) {
    forall k, d: int :: k in slots && d in slots[k].days && slots[k].days[d] == table ==> k == id && d == date
  }
}
