/** Keys coming and going: retention, registration, deletion, and confirmed
    resets. */
module Registration {
  import opened Bytes
  import opened Calendar
  import opened Usage
  import opened Cycles
  import opened Ledger

  /** A retention pass drops exactly the days before the last 90, and every key
      without periods whose days are gone; it says the history file is stale
      exactly when that file holds a dropped day. */
  lemma EvictedIsExact(z: Zone, l: Ledger, now: int, id: string, d: int)
    requires l.lastEvicted != Some(DayOf(z, now))
    ensures var e, oldest := Evicted(z, l, now), DayOf(z, now) - 89;
      && e.lastEvicted == Some(DayOf(z, now))
      && e.On(id, d) == (if d < oldest then map[] else l.On(id, d))
      && (id in e.entries ==> id in l.entries && !Gone(e.entries[id]) && forall k: int :: k in e.entries[id].days ==> k >= oldest)
      && (id in l.entries && l.entries[id].cycles.Some? ==> id in e.entries)
      && (e.historyStale <==> l.historyStale || exists key, k: int ::
            key in l.entries && k in l.entries[key].days && k < oldest && l.historyThrough.Covers(k))
  {
    hide DayOf;
  }

  /** The pass runs once a day. */
  lemma EvictedOnceADay(z: Zone, l: Ledger, now: int, later: int)
    requires DayOf(z, now) == DayOf(z, later)
    ensures Evicted(z, Evicted(z, l, now), later) == Evicted(z, l, now)
  {
    hide DayOf, HistoryHolds, KeptEntries;
  }

  /** Periods of a key just registered. */
  function Opening(z: Zone, k: Key, now: int): CycleSet {
    AllAdvanced(z, Opened(z, if k.createdAt.Some? then k.createdAt.value else now, Initial), now)
  }

  predicate IsOpening(z: Zone, keys: seq<Key>, id: string, now: int, cs: CycleSet) {
    exists k :: k in keys && k.id == id && cs == Opening(z, k, now)
  }

  /** What registering leaves of each key. */
  ghost predicate Settled(z: Zone, before: KeyUsage, after: KeyUsage, keys: seq<Key>, id: string, now: int) {
    && after.days == before.days && after.balance == before.balance && after.cycles.Some?
    && (before.cycles.Some? ==> after.cycles.value == AllAdvanced(z, before.cycles.value, now))
    && (before.cycles.None? ==> IsOpening(z, keys, id, now, after.cycles.value))
  }

  lemma OneRegistered(z: Zone, l: Ledger, k: Key, now: int)
    requires forall id :: l.Entry(id).cycles.Some? ==> AllValid(z, l.Entry(id).cycles.value)
    ensures var e := WithCycles(z, l, k.id, k.createdAt, now);
      && (forall id :: id != k.id ==> e.Entry(id) == l.Entry(id))
      && e.Entry(k.id).days == l.Entry(k.id).days && e.Entry(k.id).balance == l.Entry(k.id).balance
      && e.Entry(k.id).cycles == Some(
           if l.Entry(k.id).cycles.Some? then AllAdvanced(z, l.Entry(k.id).cycles.value, now) else Opening(z, k, now))
  {
    hide AllAdvanced, Opened, AnyExpired, AllValid;
    var u := l.Entry(k.id);
    if u.cycles.Some? {
      Rolled(z, u, now);
    } else {
      Rolled(z, u.(cycles := Some(Opened(z, if k.createdAt.Some? then k.createdAt.value else now, Initial))), now);
    }
  }

  lemma Rolled(z: Zone, u: KeyUsage, now: int)
    requires u.cycles.Some?
    ensures RolledEntry(z, u, now) == u.(cycles := Some(AllAdvanced(z, u.cycles.value, now)))
    ensures !Expired(u, now) ==> AllAdvanced(z, u.cycles.value, now) == u.cycles.value
  {
    hide DayOf;
  }

  lemma {:induction false} AllRegistered(z: Zone, l: Ledger, keys: seq<Key>, now: int, id: string)
    requires forall k :: l.Entry(k).cycles.Some? ==> AllValid(z, l.Entry(k).cycles.value)
    ensures var e := WithAllCycles(z, l, keys, now);
      && (forall k :: e.Entry(k).cycles.Some? ==> AllValid(z, e.Entry(k).cycles.value))
      && (if exists k :: k in keys && k.id == id then Settled(z, l.Entry(id), e.Entry(id), keys, id, now) else e.Entry(id) == l.Entry(id))
    decreases |keys|
  {
    hide WithCycles, AllAdvanced, AllValid, Opening;
    if keys != [] {
      var earlier, last := keys[..|keys| - 1], keys[|keys| - 1];
      AllRegistered(z, l, earlier, now, id);
      var part := WithAllCycles(z, l, earlier, now);
      OneRegistered(z, part, last, now);
      StillValid(z, part, last, now);
      if last.id == id {
        LastRegistered(z, l, part, keys, now, id);
      } else {
        EarlierRegistered(z, l, part, keys, now, id);
      }
    }
  }

  lemma StillValid(z: Zone, l: Ledger, k: Key, now: int)
    requires forall id :: l.Entry(id).cycles.Some? ==> AllValid(z, l.Entry(id).cycles.value)
    ensures var e := WithCycles(z, l, k.id, k.createdAt, now);
      forall id :: e.Entry(id).cycles.Some? ==> AllValid(z, e.Entry(id).cycles.value)
  {
    hide WithCycles, AllAdvanced, AllValid, Opened;
    OneRegistered(z, l, k, now);
    OpeningIsValid(z, k, now);
    if l.Entry(k.id).cycles.Some? {
      AllAdvancedIsValid(z, l.Entry(k.id).cycles.value, now);
    }
  }

  lemma OpeningIsValid(z: Zone, k: Key, now: int)
    ensures AllValid(z, Opening(z, k, now))
    ensures AllAdvanced(z, Opening(z, k, now), now) == Opening(z, k, now)
  {
    hide AllAdvanced, AllValid, Opened;
    var at := if k.createdAt.Some? then k.createdAt.value else now;
    OpenedIsValid(z, at, Initial);
    AllAdvancedIsValid(z, Opened(z, at, Initial), now);
    AllAdvancedInStops(z, Opened(z, at, Initial), now, now);
  }

  lemma LastRegistered(z: Zone, l: Ledger, part: Ledger, keys: seq<Key>, now: int, id: string)
    requires keys != [] && keys[|keys| - 1].id == id
    requires forall k :: l.Entry(k).cycles.Some? ==> AllValid(z, l.Entry(k).cycles.value)
    requires forall k :: part.Entry(k).cycles.Some? ==> AllValid(z, part.Entry(k).cycles.value)
    requires var earlier := keys[..|keys| - 1];
      if exists k :: k in earlier && k.id == id then Settled(z, l.Entry(id), part.Entry(id), earlier, id, now) else part.Entry(id) == l.Entry(id)
    ensures Settled(z, l.Entry(id), WithCycles(z, part, id, keys[|keys| - 1].createdAt, now).Entry(id), keys, id, now)
    ensures exists k :: k in keys && k.id == id
  {
    hide WithCycles, AllAdvanced, AllValid, Opened, Opening, Ledger.Entry;
    var earlier, last := keys[..|keys| - 1], keys[|keys| - 1];
    assert last in keys;
    OneRegistered(z, part, last, now);
    if exists k :: k in earlier && k.id == id {
      if l.Entry(id).cycles.Some? {
        AllAdvancedInStops(z, l.Entry(id).cycles.value, now, now);
      } else {
        var k :| k in earlier && k.id == id && part.Entry(id).cycles.value == Opening(z, k, now);
        OpeningIsValid(z, k, now);
        assert k in keys;
      }
    }
  }

  lemma EarlierRegistered(z: Zone, l: Ledger, part: Ledger, keys: seq<Key>, now: int, id: string)
    requires keys != [] && keys[|keys| - 1].id != id
    requires var earlier := keys[..|keys| - 1];
      if exists k :: k in earlier && k.id == id then Settled(z, l.Entry(id), part.Entry(id), earlier, id, now) else part.Entry(id) == l.Entry(id)
    ensures if exists k :: k in keys && k.id == id then Settled(z, l.Entry(id), part.Entry(id), keys, id, now) else part.Entry(id) == l.Entry(id)
  {
    hide AllAdvanced, Opening, Ledger.Entry;
    var earlier := keys[..|keys| - 1];
    assert forall k :: k in keys && k.id == id ==> k in earlier by {
      assert keys == earlier + [keys[|keys| - 1]];
    }
    assert forall k :: k in earlier ==> k in keys;
  }

  /** After a sync every known key has its periods: those it had, rolled
      forward, or new ones from its creation; no other key keeps periods or
      money, and no key's days change. */
  lemma SyncedIsExact(z: Zone, l: Ledger, keys: seq<Key>, now: int, id: string)
    requires forall k :: l.Entry(k).cycles.Some? ==> AllValid(z, l.Entry(k).cycles.value)
    ensures var e := Synced(z, l, keys, now);
      if exists k :: k in keys && k.id == id then Settled(z, l.Entry(id), e.Entry(id), keys, id, now)
      else
        && e.Entry(id).cycles.None? && e.Entry(id).balance.None? && e.Entry(id).days == l.Entry(id).days
        && (id in e.entries && Registered(l.Entry(id)) ==> l.Entry(id).days != map[])
  {
    hide AllAdvanced, Opening, AllValid, WithAllCycles, Settled;
    var part := WithAllCycles(z, l, keys, now);
    AllRegistered(z, l, keys, now, id);
    var known := set k | k in keys :: k.id;
    OnlyKnownKey(part, known, id);
    if exists k :: k in keys && k.id == id {
      var k :| k in keys && k.id == id;
      assert k.id in known;
    }
  }

  lemma OnlyKnownKey(l: Ledger, known: set<string>, id: string)
    ensures id in OnlyKnown(l, known).entries && id !in known && Registered(l.Entry(id)) ==> l.Entry(id).days != map[]
    ensures var e := OnlyKnown(l, known);
      e.Entry(id) == if id in known then l.Entry(id) else Unregistered(l.Entry(id))
  {}

  /** Deleting a key drops its periods and money and nothing else, and all of
      it when it has no days. */
  lemma ForgottenIsExact(l: Ledger, id: string, other: string)
    ensures Forgotten(l, id).Entry(id) == Unregistered(l.Entry(id))
    ensures id in Forgotten(l, id).entries && Registered(l.Entry(id)) ==> l.Entry(id).days != map[]
    ensures other != id ==> Forgotten(l, id).Entry(other) == l.Entry(other)
  {}

  /** A key recreated under a deleted id starts its own periods. */
  lemma RecreatedStartsOver(z: Zone, l: Ledger, k: Key, now: int)
    requires forall id :: l.Entry(id).cycles.Some? ==> AllValid(z, l.Entry(id).cycles.value)
    ensures var e := WithCycles(z, Forgotten(l, k.id), k.id, k.createdAt, now);
      e.Entry(k.id).cycles == Some(Opening(z, k, now)) && e.Entry(k.id).balance.None? && e.Entry(k.id).days == l.Entry(k.id).days
  {
    hide WithCycles, Opening, AllValid, Forgotten;
    var f := Forgotten(l, k.id);
    forall id ensures f.Entry(id).cycles.Some? ==> AllValid(z, f.Entry(id).cycles.value) {
      ForgottenIsExact(l, k.id, id);
    }
    ForgottenIsExact(l, k.id, k.id);
    OneRegistered(z, f, k, now);
  }

  lemma SameDeadlineSameDay(z: Zone, a: int, b: int, n: int)
    ensures DayStart(z, a, n) == DayStart(z, b, n) <==> DayOf(z, a) == DayOf(z, b)
  {
    hide DayOf, Increasing;
    if DayOf(z, a) < DayOf(z, b) {
      Later(z, DayOf(z, a) + n, DayOf(z, b) + n);
    } else if DayOf(z, a) > DayOf(z, b) {
      Later(z, DayOf(z, b) + n, DayOf(z, a) + n);
    }
  }

  /** A confirmed reset and the same confirmation repeated: it is accepted
      again exactly when the period was reset at the very instant it had
      started and the day is still the same, so that it describes the new
      period too. */
  lemma ConfirmedResetOnce(z: Zone, l: Ledger, id: string, w: Window, seen: Expected, now: int, again: int)
    requires ResetWindow(z, l, id, w, Some(seen), now).Persisting? && seen.startedAt <= now <= again
    ensures ResetWindow(z, ResetWindow(z, l, id, w, Some(seen), now).Ended(Written), id, w, Some(seen), again).Persisting?
      <==> seen.startedAt == now && DayOf(z, again) == DayOf(z, now)
  {
    hide Advanced, DayOf, Increasing;
    var after := ResetWindow(z, l, id, w, Some(seen), now).Ended(Written);
    var cs := after.Entry(id).cycles.value;
    ResetIsValid(z, w, now);
    var c := Advanced(z, w, cs.Of(w), again);
    AdvancedShape(z, w, cs.Of(w), again);
    SameDeadlineSameDay(z, again, now, w.Days());
    if again >= cs.Of(w).resetsAt {
      StartsAtDeadline(z, w, cs.Of(w), again);
      DaysInOrder(z, cs.Of(w).resetsAt, again);
      DeadlineIsDayStart(z, w, cs.Of(w));
    }
    Rolled(z, after.Entry(id), again);
  }

  /** A reset by hand goes through exactly for a key with periods whose period,
      rolled to now, is the one that was confirmed, if any was; then only that
      period changes: it starts now and is empty. */
  lemma ResetIff(z: Zone, l: Ledger, id: string, w: Window, expected: Option<Expected>, now: int, key: string)
    ensures var a, u := ResetWindow(z, l, id, w, expected, now), l.Entry(id);
      && (a.Persisting? <==> u.cycles.Some? && (expected.Some? ==>
            && AllAdvanced(z, u.cycles.value, now).Of(w).startedAt == expected.value.startedAt
            && DayStart(z, now, w.Days()) == expected.value.resetAfter))
      && (a.Persisting? ==> var v := a.after.Entry(id);
            && v.days == u.days && v.balance == u.balance && v.cycles.Some?
            && (forall x: Window :: v.cycles.value.Of(x) ==
                  if x == w then Cycle(now, DayStart(z, now, w.Days()), Manual, map[]) else AllAdvanced(z, u.cycles.value, now).Of(x))
            && (key != id ==> a.after.Entry(key) == l.Entry(key)))
      && (a.Persisting? ==> !a.Ended(Written).dirty)
      && (!a.Persisting? ==> a.Refused?)
  {
    hide AllAdvanced, DayStart, Read;
    if l.Entry(id).cycles.Some? {
      ReadRolls(z, l, id, now, key);
      var cs := AllAdvanced(z, l.Entry(id).cycles.value, now);
      assert forall x: Window :: cs.With(w, ResetByHand(z, w, now)).Of(x) == if x == w then ResetByHand(z, w, now) else cs.Of(x);
    }
  }

  lemma ReadRolls(z: Zone, l: Ledger, id: string, now: int, key: string)
    requires id in l.entries && l.entries[id].cycles.Some?
    ensures Read(z, l, id, now).Entry(id) == l.Entry(id).(cycles := Some(AllAdvanced(z, l.Entry(id).cycles.value, now)))
    ensures key != id ==> Read(z, l, id, now).Entry(key) == l.Entry(key)
  {
    hide AllAdvanced, AnyExpired;
    Rolled(z, l.Entry(id), now);
  }
}
