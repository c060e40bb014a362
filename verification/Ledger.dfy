/** The usage ledger as a value: what every operation makes of it, and the
    files it is written to and loaded from. */
module Ledger {
  import opened Bytes
  import opened Calendar
  import opened Usage
  import opened Cycles

  const RETENTION_DAYS := 90
  const REQUESTS_KEPT := 64

  /** A watermark: the last date covered, if any. */
  datatype Mark = Never | Through(day: int) {
    predicate Covers(date: int) { Through? && date <= day }

    predicate AtMost(m: Mark) { Never? || (m.Through? && day <= m.day) }

    function Max(m: Mark): Mark { if AtMost(m) then m else this }
  }

  datatype Request = Request(id: string, amount: int, balance: int)

  /** Prepaid money: what is left, what was credited in all, and the latest
      adjustments that carried a request id. */
  datatype Balance = Balance(nano: int, netCredited: int, requests: seq<Request>)

  const NO_BALANCE := Balance(0, 0, [])

  datatype KeyUsage = KeyUsage(cycles: Option<CycleSet>, balance: Option<Balance>, days: Days)

  const NO_USAGE := KeyUsage(None, None, map[])

  type Entries = map<string, KeyUsage>

  datatype Ledger = Ledger(
    entries: Entries, dirty: bool, revision: nat,
    historyThrough: Mark, closedThrough: Mark, historyStale: bool, lastEvicted: Option<int>)
  {
    function Entry(id: string): KeyUsage { if id in entries then entries[id] else NO_USAGE }

    /** One key's models on one date. */
    function On(id: string, date: int): Models { ModelsOf(Entry(id).days, date) }

    function Dirtied(): Ledger { this.(dirty := true, revision := revision + 1) }

    function Put(id: string, u: KeyUsage): Ledger { this.(entries := entries[id := u]) }
  }

  // Retention.

  function Oldest(z: Zone, now: int): int { DayOf(z, now) - (RETENTION_DAYS - 1) }

  function KeptDays(days: Days, oldest: int): Days { map d | d in days && d >= oldest :: days[d] }

  function Kept(u: KeyUsage, oldest: int): KeyUsage { u.(days := KeptDays(u.days, oldest)) }

  /** Neither periods nor days: nothing is left to keep. */
  predicate Gone(u: KeyUsage) { u.cycles.None? && u.days == map[] }

  function KeptEntries(entries: Entries, oldest: int): Entries {
    map id | id in entries && !Gone(Kept(entries[id], oldest)) :: Kept(entries[id], oldest)
  }

  predicate HistoryHolds(l: Ledger, oldest: int) {
    exists id | id in l.entries :: exists d | d in l.entries[id].days :: d < oldest && l.historyThrough.Covers(d)
  }

  /** One retention pass a day. */
  function Evicted(z: Zone, l: Ledger, now: int): Ledger {
    if l.lastEvicted == Some(DayOf(z, now)) then l
    else
      var oldest := Oldest(z, now);
      var kept := KeptEntries(l.entries, oldest);
      var passed := l.(entries := kept, lastEvicted := Some(DayOf(z, now)),
                       historyStale := l.historyStale || HistoryHolds(l, oldest));
      if kept == l.entries then passed else passed.Dirtied()
  }

  // Booking.

  /** The day a record made at this instant belongs to: its own, or the first
      open one when its own is closed. */
  function FirstOpen(z: Zone, closed: Mark, at: int): int {
    var day := DayOf(z, at);
    if closed.Covers(day) then closed.day + 1 else day
  }

  function OpenDate(z: Zone, l: Ledger, at: int): int { FirstOpen(z, l.closedThrough, at) }

  function BookedCycle(c: Cycle, model: string, delta: Bucket): Cycle { c.(byModel := Booked(c.byModel, model, delta)) }

  /** A period that began later does not get the call. */
  function BookedSince(c: Cycle, model: string, delta: Bucket, at: int): Cycle {
    if at < c.startedAt then c else BookedCycle(c, model, delta)
  }

  function BookedAll(cs: CycleSet, model: string, delta: Bucket): CycleSet {
    CycleSet(BookedCycle(cs.daily, model, delta), BookedCycle(cs.weekly, model, delta), BookedCycle(cs.monthly, model, delta))
  }

  function BookedAllSince(cs: CycleSet, model: string, delta: Bucket, at: int): CycleSet {
    CycleSet(BookedSince(cs.daily, model, delta, at), BookedSince(cs.weekly, model, delta, at),
           BookedSince(cs.monthly, model, delta, at))
  }

  function Deducted(balance: Option<Balance>, charge: int): Option<Balance> {
    var b := if balance.Some? then balance.value else NO_BALANCE;
    Some(b.(nano := b.nano - charge))
  }

  /** A key's periods and balance after a record; a key without periods only
      gets its day. */
  function Charged(z: Zone, u: KeyUsage, model: string, delta: Bucket, deduct: bool, now: int): KeyUsage {
    if u.cycles.None? then u
    else u.(cycles := Some(BookedAll(AllAdvanced(z, u.cycles.value, now), model, delta)),
            balance := if deduct then Deducted(u.balance, delta.charged) else u.balance)
  }

  function ChargedSince(z: Zone, u: KeyUsage, model: string, delta: Bucket, deduct: bool, at: int, now: int): KeyUsage {
    if u.cycles.None? then u
    else u.(cycles := Some(BookedAllSince(AllAdvanced(z, u.cycles.value, now), model, delta, at)),
            balance := if deduct then Deducted(u.balance, delta.charged) else u.balance)
  }

  function OnDate(u: KeyUsage, date: int, model: string, delta: Bucket): KeyUsage {
    u.(days := BookedOn(u.days, date, model, delta))
  }

  /** One billed call. */
  function Recorded(z: Zone, l: Ledger, id: string, model: string, delta: Bucket, deduct: bool, now: int): Ledger {
    var u := OnDate(Charged(z, l.Entry(id), model, delta, deduct, now), OpenDate(z, l, now), model, delta);
    Evicted(z, l.Put(id, u), now).Dirtied()
  }

  /** The instant a journaled call is booked at: never in the future, and now
      when the entry names none. */
  function BookedAt(at: Option<int>, now: int): int { if at.None? || at.value > now then now else at.value }

  function Replayed(z: Zone, l: Ledger, id: string, model: string, delta: Bucket, deduct: bool, at: Option<int>, now: int): Ledger {
    var t := BookedAt(at, now);
    var u := OnDate(ChargedSince(z, l.Entry(id), model, delta, deduct, t, now), OpenDate(z, l, t), model, delta);
    Evicted(z, l.Put(id, u), now).Dirtied()
  }

  // Registration.

  function RolledEntry(z: Zone, u: KeyUsage, now: int): KeyUsage {
    if u.cycles.None? then u else u.(cycles := Some(AllAdvanced(z, u.cycles.value, now)))
  }

  predicate Expired(u: KeyUsage, now: int) { u.cycles.Some? && AnyExpired(u.cycles.value, now) }

  /** Opens a key's periods at its creation when it has none, and rolls them
      forward. */
  function WithCycles(z: Zone, l: Ledger, id: string, createdAt: Option<int>, now: int): Ledger {
    var u := l.Entry(id);
    var started :=
      if u.cycles.Some? then l.Put(id, u)
      else l.Put(id, u.(cycles := Some(Opened(z, if createdAt.Some? then createdAt.value else now, Initial)))).Dirtied();
    var v := started.Entry(id);
    if Expired(v, now) then started.Put(id, RolledEntry(z, v, now)).Dirtied() else started
  }

  datatype Key = Key(id: string, createdAt: Option<int>)

  function WithAllCycles(z: Zone, l: Ledger, keys: seq<Key>, now: int): Ledger {
    if keys == [] then l
    else WithCycles(z, WithAllCycles(z, l, keys[..|keys| - 1], now), keys[|keys| - 1].id, keys[|keys| - 1].createdAt, now)
  }

  predicate Registered(u: KeyUsage) { u.cycles.Some? || u.balance.Some? }

  function Unregistered(u: KeyUsage): KeyUsage { u.(cycles := None, balance := None) }

  /** Drops the periods and balance of every key that is not known. */
  function OnlyKnown(l: Ledger, known: set<string>): Ledger {
    var dropped := set id | id in l.entries && id !in known && Registered(l.entries[id]);
    var entries := map id | id in l.entries && !(id in dropped && l.entries[id].days == map[]) ::
      if id in dropped then Unregistered(l.entries[id]) else l.entries[id];
    l.(entries := entries, dirty := l.dirty || dropped != {}, revision := l.revision + |dropped|)
  }

  function Synced(z: Zone, l: Ledger, keys: seq<Key>, now: int): Ledger {
    OnlyKnown(WithAllCycles(z, l, keys, now), set k | k in keys :: k.id)
  }

  function Forgotten(l: Ledger, id: string): Ledger {
    if id !in l.entries || !Registered(l.entries[id]) then l
    else if l.entries[id].days == map[] then l.(entries := l.entries - {id}).Dirtied()
    else l.Put(id, Unregistered(l.entries[id])).Dirtied()
  }

  /** Looking at a key rolls its periods forward. */
  function Read(z: Zone, l: Ledger, id: string, now: int): Ledger {
    if id in l.entries && Expired(l.entries[id], now) then l.Put(id, RolledEntry(z, l.entries[id], now)).Dirtied() else l
  }

  // Files.

  datatype LiveKey = LiveKey(cycles: Option<CycleSet>, balance: Option<Balance>, days: Days)

  type LiveKeys = map<string, LiveKey>

  datatype LiveFile = LiveFile(through: Mark, keys: LiveKeys)

  datatype HistoryFile = HistoryFile(through: int, days: map<string, Days>)

  datatype Plan = Plan(revision: nat, through: Mark, history: Option<HistoryFile>, live: LiveKeys)

  function DaysAfter(days: Days, through: Mark): Days { map d | d in days && !through.Covers(d) && days[d] != map[] :: days[d] }

  function DaysUpTo(days: Days, through: int): Days { map d | d in days && d <= through && days[d] != map[] :: days[d] }

  /** The periods, balances and days after the watermark. */
  function LiveSnapshot(l: Ledger, through: Mark): LiveKeys {
    map id | id in l.entries :: LiveKey(l.entries[id].cycles, l.entries[id].balance, DaysAfter(l.entries[id].days, through))
  }

  function HistorySnapshot(l: Ledger, through: int): map<string, Days> {
    map id | id in l.entries && DaysUpTo(l.entries[id].days, through) != map[] :: DaysUpTo(l.entries[id].days, through)
  }

  predicate HasDaysIn(l: Ledger, after: Mark, through: int) {
    exists id | id in l.entries :: exists d | d in l.entries[id].days ::
      !after.Covers(d) && d <= through && l.entries[id].days[d] != map[]
  }

  function RolledEntries(z: Zone, l: Ledger, now: int): Ledger {
    var expired := set id | id in l.entries && Expired(l.entries[id], now);
    l.(entries := map id | id in l.entries :: RolledEntry(z, l.entries[id], now),
       dirty := l.dirty || expired != {}, revision := l.revision + |expired|)
  }

  /** The next flush writes the history too: it holds a day retention dropped,
      or lacks a past day some key was billed on. */
  predicate NeedsHistory(z: Zone, l: Ledger, now: int) {
    var yesterday := DayOf(z, now) - 1;
    l.historyStale || (!l.historyThrough.Covers(yesterday) && HasDaysIn(l, l.historyThrough, yesterday))
  }

  datatype Planned = Planned(ledger: Ledger, plan: Option<Plan>)

  function PlanFlush(z: Zone, before: Ledger, now: int): Planned {
    var l := RolledEntries(z, Evicted(z, before, now), now);
    if !l.dirty && !NeedsHistory(z, l, now) then Planned(l, None)
    else
      var plan := Plan(l.revision, l.historyThrough, None, LiveSnapshot(l, l.historyThrough));
      if !NeedsHistory(z, l, now) then Planned(l, Some(plan))
      else
        var through := l.historyThrough.Max(Through(DayOf(z, now) - 1)).day;
        Planned(l.(closedThrough := l.closedThrough.Max(Through(through)), historyStale := false),
                Some(plan.(history := Some(HistoryFile(through, HistorySnapshot(l, through))))))
  }

  function MarkFlushed(l: Ledger, plan: Plan, historyWritten: bool, liveWritten: bool): Ledger {
    var marked :=
      if plan.history.None? then l
      else if historyWritten then l.(historyThrough := Through(plan.history.value.through))
      else l.(historyStale := true);
    if liveWritten && marked.revision == plan.revision then marked.(dirty := false) else marked
  }

  predicate Empty(k: LiveKey) { k.cycles.None? && k.balance.None? && k.days == map[] }

  function TrimmedKey(k: LiveKey, through: Mark): LiveKey { k.(days := DaysAfter(k.days, through)) }

  /** What writing a snapshot puts into the live file. */
  function LiveFileOf(through: Mark, keys: LiveKeys): LiveFile {
    LiveFile(through, map id | id in keys && !Empty(TrimmedKey(keys[id], through)) :: TrimmedKey(keys[id], through))
  }

  datatype Dataset = Dataset(through: Mark, keys: Entries) | HistoryMissing | HistoryBehind

  /** The watermark decides which of the two files a day is taken from. */
  function MergedKey(through: Mark, closed: Days, live: Option<LiveKey>): KeyUsage {
    if live.None? then KeyUsage(None, None, closed)
    else KeyUsage(live.value.cycles, live.value.balance, closed + DaysAfterMark(live.value.days, through))
  }

  function DaysAfterMark(days: Days, through: Mark): Days { map d | d in days && !through.Covers(d) :: days[d] }

  function Merged(live: LiveFile, history: Option<HistoryFile>): Dataset {
    if history.None? then
      if live.through != Never then HistoryMissing
      else Dataset(Never, map id | id in live.keys :: MergedKey(Never, map[], Some(live.keys[id])))
    else
      var h := history.value;
      if !live.through.AtMost(Through(h.through)) then HistoryBehind
      else
        Dataset(Through(h.through), map id | id in live.keys.Keys + h.days.Keys ::
          MergedKey(Through(h.through), if id in h.days then h.days[id] else map[],
                    if id in live.keys then Some(live.keys[id]) else None))
  }

  function Loaded(z: Zone, keys: Entries, through: Mark, now: int): Ledger {
    Evicted(z, Ledger(keys, false, 0, through, through, false, None), now)
  }

  // Changes that are written before they are answered.

  /** How a file write ended: an error may still have left the new content. */
  datatype Outcome = Written | Failed(landed: bool) {
    predicate Landed() { Written? || landed }
  }

  /** What the user saw of the period when confirming a reset. */
  datatype Expected = Expected(startedAt: int, resetAfter: int)

  datatype Attempt =
    | Refused(ledger: Ledger)
    | Answered(ledger: Ledger)
    | Persisting(before: Ledger, after: Ledger)
  {
    /** The ledger once the write ended. */
    function Ended(outcome: Outcome): Ledger {
      match this
      case Refused(l) => l
      case Answered(l) => l
      case Persisting(before, after) => if outcome.Written? then after.(dirty := false) else before
    }
  }

  /** A reset by hand of one period; refused for an unknown key or when the
      period is no longer the one that was confirmed. */
  function ResetWindow(z: Zone, l: Ledger, id: string, w: Window, expected: Option<Expected>, now: int): Attempt {
    if id !in l.entries || l.entries[id].cycles.None? then Refused(l)
    else
      var before := Read(z, l, id, now);
      var cs := before.Entry(id).cycles;
      var reset := ResetByHand(z, w, now);
      if cs.None? then Refused(before)
      else if expected.Some? && (cs.value.Of(w).startedAt != expected.value.startedAt || reset.resetsAt != expected.value.resetAfter) then
        Refused(before)
      else
        Persisting(before, before.Put(id, before.Entry(id).(cycles := Some(cs.value.With(w, reset)))).Dirtied())
  }

  /** The earlier application of a request id among the latest ones. */
  function Earlier(requests: seq<Request>, id: string): Option<Request> {
    if requests == [] then None
    else if requests[0].id == id then Some(requests[0])
    else Earlier(requests[1..], id)
  }

  function Latest(requests: seq<Request>): seq<Request> {
    if |requests| > REQUESTS_KEPT then requests[|requests| - REQUESTS_KEPT..] else requests
  }

  function Adjusted(b: Balance, amount: int, request: string): Balance {
    var nano := b.nano + amount;
    Balance(nano, b.netCredited + amount,
            if request == "" then b.requests else Latest(b.requests + [Request(request, amount, nano)]))
  }

  function BalanceOf(u: KeyUsage): Balance { if u.balance.Some? then u.balance.value else NO_BALANCE }

  /** A management adjustment: refused for an unknown key or a request id used
      for another amount, answered from memory for a repeated one. */
  function AdjustBalance(l: Ledger, id: string, amount: int, request: string): Attempt {
    if id !in l.entries || l.entries[id].cycles.None? then Refused(l)
    else
      var b := BalanceOf(l.entries[id]);
      var earlier := if request == "" then None else Earlier(b.requests, request);
      if earlier.Some? then if earlier.value.amount != amount then Refused(l) else Answered(l)
      else Persisting(l, l.Put(id, l.entries[id].(balance := Some(Adjusted(b, amount, request)))).Dirtied())
  }

  datatype Reply = UnknownKey | Conflict | WriteFailed | Adjustment(before: int, after: int, netCredited: int, duplicate: bool)

  /** The answer to an adjustment. A repeated request gets its first balances,
      but the sum of credits as it is now. */
  function ReplyTo(l: Ledger, id: string, amount: int, request: string, outcome: Outcome): Reply {
    if id !in l.entries || l.entries[id].cycles.None? then UnknownKey
    else
      var b := BalanceOf(l.entries[id]);
      var earlier := if request == "" then None else Earlier(b.requests, request);
      if earlier.Some? then
        if earlier.value.amount != amount then Conflict
        else Adjustment(earlier.value.balance - amount, earlier.value.balance, b.netCredited, true)
      else if !outcome.Written? then WriteFailed
      else Adjustment(b.nano, b.nano + amount, b.netCredited + amount, false)
  }

  // Facts the proofs share.

  /** No booking goes to a closed day. */
  lemma NeverClosed(z: Zone, closed: Mark, at: int)
    ensures !closed.Covers(FirstOpen(z, closed, at))
  {
    hide DayOf;
  }

  /** A record made on a closed day goes to the first day that is not. */
  lemma FirstOpenIsLeast(z: Zone, closed: Mark, at: int, d: int)
    requires d >= DayOf(z, at) && !closed.Covers(d)
    ensures DayOf(z, at) <= FirstOpen(z, closed, at) <= d
    ensures FirstOpen(z, closed, at) > DayOf(z, at) ==> closed.Covers(FirstOpen(z, closed, at) - 1)
  {
    hide DayOf;
  }

  /** The files are loaded exactly when no day is missing between them: without
      a history file none was ever left to it, and otherwise it reaches as far
      as the live file says. */
  lemma LoadsIff(live: LiveFile, history: Option<HistoryFile>)
    ensures Merged(live, history).Dataset? <==>
      forall d: int :: live.through.Covers(d) ==> history.Some? && d <= history.value.through
    ensures Merged(live, history).HistoryMissing? ==> history.None?
    ensures Merged(live, history).HistoryBehind? ==> history.Some?
  {
    if live.through.Through? {
      assert live.through.Covers(live.through.day);
    }
  }

  lemma NothingToRoll(z: Zone, u: KeyUsage, now: int)
    requires !Expired(u, now)
    ensures RolledEntry(z, u, now) == u
  {
    hide DayOf;
  }
}
