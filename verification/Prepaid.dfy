/** Prepaid money over whole runs: what was credited, what was deducted, and
    adjustments that carry a request id. */
module Prepaid {
  import opened Bytes
  import opened Calendar
  import opened Usage
  import opened Cycles
  import opened Ledger
  import opened Flush

  /** What moved a key's balance: an adjustment answered as written, with the
      balance it led to, or a billed call. */
  datatype Move = Credit(request: string, amount: int, after: int) | Charge(amount: int)

  function Credits(log: seq<Move>): int {
    if log == [] then 0
    else Credits(log[..|log| - 1]) + if log[|log| - 1].Credit? then log[|log| - 1].amount else 0
  }

  function Charges(log: seq<Move>): int {
    if log == [] then 0
    else Charges(log[..|log| - 1]) + if log[|log| - 1].Charge? then log[|log| - 1].amount else 0
  }

  /** The adjustments that carried a request id, in order. */
  function Requests(log: seq<Move>): seq<Request> {
    if log == [] then []
    else
      var earlier := Requests(log[..|log| - 1]);
      match log[|log| - 1]
      case Credit(request, amount, after) => if request == "" then earlier else earlier + [Request(request, amount, after)]
      case Charge(_) => earlier
  }

  /** A key without periods has no money either. */
  predicate Proper(u: KeyUsage) { u.cycles.None? ==> u.balance.None? }

  /** The key's balance is the given one. */
  predicate Keeps(l: Ledger, key: string, b: Balance) { Proper(l.Entry(key)) && BalanceOf(l.Entry(key)) == b }

  predicate Applied(w: World, s: Step, key: string) {
    s.Adjust? && s.id == key && s.outcome.Written? && AdjustBalance(w.l, s.id, s.amount, s.request).Persisting?
  }

  /** The key is deleted, or no longer among the known ones. */
  predicate Dropped(s: Step, key: string) {
    (s.Forget? && s.id == key) || (s.Sync? && forall k :: k in s.keys ==> k.id != key)
  }

  predicate Deducts(w: World, s: Step, key: string) {
    (s.Bill? || s.Replay?) && s.id == key && s.deduct && w.l.Entry(key).cycles.Some?
  }

  function CreditOf(l: Ledger, s: Step): Move
    requires s.Adjust?
  {
    Credit(s.request, s.amount, BalanceOf(l.Entry(s.id)).nano + s.amount)
  }

  function BalanceAfter(w: World, s: Step, key: string, u: KeyUsage): Balance {
    if Dropped(s, key) then NO_BALANCE
    else if Deducts(w, s, key) then Deducted(u.balance, s.delta.charged).value
    else if Applied(w, s, key) then Adjusted(BalanceOf(u), s.amount, s.request)
    else BalanceOf(u)
  }

  function LogAfter(w: World, s: Step, key: string, log: seq<Move>): seq<Move> {
    if Dropped(s, key) then []
    else if Deducts(w, s, key) then log + [Charge(s.delta.charged)]
    else if Applied(w, s, key) then log + [CreditOf(w.l, s)]
    else log
  }

  lemma EvictedBalance(z: Zone, l: Ledger, now: int, key: string)
    requires Proper(l.Entry(key))
    ensures Keeps(Evicted(z, l, now), key, BalanceOf(l.Entry(key)))
  {
    hide HistoryHolds, DayOf, KeptDays;
  }

  lemma BillBalance(z: Zone, w: World, s: Step, key: string)
    requires (s.Bill? || s.Replay?) && Proper(w.l.Entry(key))
    ensures Keeps(Worked(z, w.l, s), key, BalanceAfter(w, s, key, w.l.Entry(key)))
  {
    hide AllAdvanced, BookedAll, BookedAllSince, Evicted, OpenDate, BookedOn;
    if s.Bill? {
      var u := OnDate(Charged(z, w.l.Entry(s.id), s.model, s.delta, s.deduct, s.now), OpenDate(z, w.l, s.now), s.model, s.delta);
      EvictedBalance(z, w.l.Put(s.id, u), s.now, key);
    } else {
      var t := BookedAt(s.at, s.now);
      var u := OnDate(ChargedSince(z, w.l.Entry(s.id), s.model, s.delta, s.deduct, t, s.now), OpenDate(z, w.l, t), s.model, s.delta);
      EvictedBalance(z, w.l.Put(s.id, u), s.now, key);
    }
  }

  lemma ReadBalance(z: Zone, l: Ledger, id: string, now: int, key: string)
    requires Proper(l.Entry(key))
    ensures Keeps(Read(z, l, id, now), key, BalanceOf(l.Entry(key)))
  {
    hide AllAdvanced, AnyExpired;
  }

  lemma RolledBalance(z: Zone, l: Ledger, now: int, key: string)
    requires Proper(l.Entry(key))
    ensures Keeps(RolledEntries(z, l, now), key, BalanceOf(l.Entry(key)))
  {
    hide AllAdvanced, AnyExpired;
  }

  lemma WithCyclesBalance(z: Zone, l: Ledger, id: string, createdAt: Option<int>, now: int, key: string)
    requires Proper(l.Entry(key))
    ensures Keeps(WithCycles(z, l, id, createdAt, now), key, BalanceOf(l.Entry(key)))
  {
    hide AllAdvanced, Opened, AnyExpired;
  }

  lemma {:induction false} WithAllCyclesBalance(z: Zone, l: Ledger, keys: seq<Key>, now: int, key: string)
    requires Proper(l.Entry(key))
    ensures Keeps(WithAllCycles(z, l, keys, now), key, BalanceOf(l.Entry(key)))
  {
    hide WithCycles;
    if keys != [] {
      WithAllCyclesBalance(z, l, keys[..|keys| - 1], now, key);
      WithCyclesBalance(z, WithAllCycles(z, l, keys[..|keys| - 1], now), keys[|keys| - 1].id, keys[|keys| - 1].createdAt, now, key);
    }
  }

  lemma OnlyKnownBalance(l: Ledger, known: set<string>, key: string)
    requires Proper(l.Entry(key))
    ensures Keeps(OnlyKnown(l, known), key, if key in known then BalanceOf(l.Entry(key)) else NO_BALANCE)
  {}

  lemma SyncedBalance(z: Zone, l: Ledger, keys: seq<Key>, now: int, key: string)
    requires Proper(l.Entry(key))
    ensures Keeps(Synced(z, l, keys, now), key, if forall k :: k in keys ==> k.id != key then NO_BALANCE else BalanceOf(l.Entry(key)))
  {
    hide WithAllCycles, OnlyKnown;
    WithAllCyclesBalance(z, l, keys, now, key);
    OnlyKnownBalance(WithAllCycles(z, l, keys, now), set k | k in keys :: k.id, key);
  }

  lemma ForgottenBalance(l: Ledger, id: string, key: string)
    requires Proper(l.Entry(key))
    ensures Keeps(Forgotten(l, id), key, if id == key then NO_BALANCE else BalanceOf(l.Entry(key)))
  {}

  /** What a reset writes has the balance it found, and so has what is left. */
  lemma ResetBalance(z: Zone, l: Ledger, s: Step, key: string)
    requires s.Reset? && Proper(l.Entry(key))
    ensures var a := ResetWindow(z, l, s.id, s.window, s.expected, s.now);
      Keeps(a.Ended(s.outcome), key, BalanceOf(l.Entry(key))) && (a.Persisting? ==> Keeps(a.after, key, BalanceOf(l.Entry(key))))
  {
    hide Read, ResetByHand;
    ReadBalance(z, l, s.id, s.now, key);
  }

  lemma AdjustedBalance(l: Ledger, s: Step, key: string)
    requires s.Adjust? && Proper(l.Entry(key))
    ensures var a, b := AdjustBalance(l, s.id, s.amount, s.request), BalanceOf(l.Entry(key));
      && Keeps(a.Ended(s.outcome), key, if a.Persisting? && s.outcome.Written? && s.id == key then Adjusted(b, s.amount, s.request) else b)
      && (a.Persisting? ==> Keeps(a.after, key, if s.id == key then Adjusted(b, s.amount, s.request) else b))
  {
    hide Adjusted, Earlier;
  }

  lemma BeginBalance(z: Zone, l: Ledger, now: int, key: string)
    requires Proper(l.Entry(key))
    ensures Keeps(PlanFlush(z, l, now).ledger, key, BalanceOf(l.Entry(key)))
  {
    hide Evicted, RolledEntries, NeedsHistory, LiveSnapshot, HistorySnapshot, DayOf;
    EvictedBalance(z, l, now, key);
    RolledBalance(z, Evicted(z, l, now), now, key);
    PlannedShape(z, l, now, RolledEntries(z, Evicted(z, l, now), now));
    SameEntriesSameDays(PlanFlush(z, l, now).ledger, RolledEntries(z, Evicted(z, l, now), now));
  }

  /** In a running instance only billed calls, written adjustments and deletion
      move a balance. */
  lemma StepBalance(z: Zone, w: World, s: Step, key: string)
    requires Enabled(z, w, s) && !s.Restart? && Proper(w.l.Entry(key))
    ensures Keeps(Next(z, w, s).l, key, BalanceAfter(w, s, key, w.l.Entry(key)))
  {
    hide Recorded, Replayed, Evicted, Read, Synced, Forgotten, ResetWindow, AdjustBalance, PlanFlush, LiveFileOf, LiveSnapshot, Adjusted;
    match s
    case Bill(_, _, _, _, _) => BillBalance(z, w, s, key);
    case Replay(_, _, _, _, _, _) => BillBalance(z, w, s, key);
    case Tidy(now) => EvictedBalance(z, w.l, now, key);
    case Look(id, now) => ReadBalance(z, w.l, id, now, key);
    case Sync(keys, now) => SyncedBalance(z, w.l, keys, now, key);
    case Forget(id) => ForgottenBalance(w.l, id, key);
    case Reset(_, _, _, _, _) => ResetBalance(z, w.l, s, key);
    case Adjust(_, _, _, _) => AdjustedBalance(w.l, s, key);
    case Begin(now) => BeginBalance(z, w.l, now, key);
    case Finish => SameEntriesSameDays(Next(z, w, s).l, w.l);
    case WriteHistory(_) =>
    case WriteLive(_) =>
  }

  /** What a balance says about everything that moved it. */
  ghost predicate Accounted(b: Balance, log: seq<Move>) {
    && b.netCredited == Credits(log) && b.nano == Credits(log) - Charges(log)
    && b.requests == Latest(Requests(log)) && Distinct(b.requests)
  }

  predicate Distinct(requests: seq<Request>) {
    forall i, j :: 0 <= i < j < |requests| ==> requests[i].id != requests[j].id
  }

  lemma {:induction false} EarlierIsAmong(requests: seq<Request>, id: string)
    ensures Earlier(requests, id).Some? <==> exists i :: 0 <= i < |requests| && requests[i].id == id
    ensures Earlier(requests, id).Some? ==> Earlier(requests, id).value in requests && Earlier(requests, id).value.id == id
  {
    if requests != [] {
      EarlierIsAmong(requests[1..], id);
      if requests[0].id != id && (exists i :: 0 <= i < |requests| && requests[i].id == id) {
        var i :| 0 <= i < |requests| && requests[i].id == id;
        assert requests[1..][i - 1].id == id;
      }
      if Earlier(requests[1..], id).Some? {
        assert Earlier(requests[1..], id).value in requests[1..];
      }
    }
  }

  lemma LatestAppend(all: seq<Request>, r: Request)
    ensures Latest(Latest(all) + [r]) == Latest(all + [r])
  {}

  lemma DistinctAppend(requests: seq<Request>, r: Request)
    requires Distinct(requests) && Earlier(requests, r.id).None?
    ensures Distinct(Latest(requests + [r]))
  {
    EarlierIsAmong(requests, r.id);
    var longer := requests + [r];
    forall i, j | 0 <= i < j < |longer| ensures longer[i].id != longer[j].id {
      if j == |requests| {
        assert requests[i].id != r.id;
      }
    }
  }

  lemma CreditAccounted(b: Balance, log: seq<Move>, amount: int, request: string)
    requires Accounted(b, log) && (request != "" ==> Earlier(b.requests, request).None?)
    ensures Accounted(Adjusted(b, amount, request), log + [Credit(request, amount, b.nano + amount)])
  {
    hide Latest, Distinct, Earlier;
    var longer := log + [Credit(request, amount, b.nano + amount)];
    assert longer[..|longer| - 1] == log;
    if request != "" {
      var r := Request(request, amount, b.nano + amount);
      LatestAppend(Requests(log), r);
      DistinctAppend(b.requests, r);
    }
  }

  lemma ChargeAccounted(b: Balance, log: seq<Move>, charge: int)
    requires Accounted(b, log)
    ensures Accounted(b.(nano := b.nano - charge), log + [Charge(charge)])
  {
    hide Latest, Distinct;
    var longer := log + [Charge(charge)];
    assert longer[..|longer| - 1] == log;
  }

  lemma StepAccounted(z: Zone, w: World, s: Step, key: string, log: seq<Move>)
    requires Accounted(BalanceOf(w.l.Entry(key)), log)
    ensures Accounted(BalanceAfter(w, s, key, w.l.Entry(key)), LogAfter(w, s, key, log))
  {
    hide Accounted, Adjusted, Earlier;
    var b := BalanceOf(w.l.Entry(key));
    if Dropped(s, key) {
      NothingMoved();
    } else if Deducts(w, s, key) {
      ChargeAccounted(b, log, s.delta.charged);
    } else if Applied(w, s, key) {
      CreditAccounted(b, log, s.amount, s.request);
    }
  }

  /** What moved the balance in memory, in the ledger a flush under way was
      planned of, and in the last cut that landed. */
  datatype Books = Books(now: seq<Move>, planned: seq<Move>, saved: seq<Move>)

  function BooksAfter(z: Zone, w: World, s: Step, key: string, books: Books): Books {
    match s
    case Restart(_) => books.(now := books.saved)
    case Begin(_) => books.(planned := books.now)
    case WriteLive(outcome) => if outcome.Landed() then books.(saved := books.planned) else books
    case Reset(id, window, expected, now, outcome) =>
      if ResetWindow(z, w.l, id, window, expected, now).Persisting? && outcome.Landed() then books.(saved := books.now) else books
    case Adjust(id, amount, request, outcome) =>
      // A failed write that landed is in the file, and not in memory.
      var b := books.(now := LogAfter(w, s, key, books.now));
      if AdjustBalance(w.l, id, amount, request).Persisting? && outcome.Landed() then
        b.(saved := if id == key then books.now + [CreditOf(w.l, s)] else books.now)
      else b
    case _ => books.(now := LogAfter(w, s, key, books.now))
  }

  ghost predicate LedgerAccounted(l: Ledger, key: string, log: seq<Move>) {
    Proper(l.Entry(key)) && Accounted(BalanceOf(l.Entry(key)), log)
  }

  ghost predicate BooksHold(w: World, key: string, books: Books) {
    && LedgerAccounted(w.l, key, books.now) && LedgerAccounted(w.cut, key, books.saved)
    && (!w.phase.Idle? ==> LedgerAccounted(w.phase.from, key, books.planned))
  }

  lemma MemoryHolds(z: Zone, w: World, s: Step, key: string, log: seq<Move>)
    requires Enabled(z, w, s) && !s.Restart? && LedgerAccounted(w.l, key, log)
    ensures LedgerAccounted(Next(z, w, s).l, key, LogAfter(w, s, key, log))
  {
    hide Next, Enabled, Accounted, BalanceAfter, LogAfter;
    StepBalance(z, w, s, key);
    StepAccounted(z, w, s, key, log);
  }

  /** A change that was persisted leaves its ledger in the file. */
  lemma PersistedHolds(z: Zone, w: World, s: Step, key: string, books: Books)
    requires (s.Reset? || s.Adjust?) && Enabled(z, w, s) && BooksHold(w, key, books)
    ensures LedgerAccounted(Next(z, w, s).cut, key, BooksAfter(z, w, s, key, books).saved)
  {
    hide Accounted, ResetWindow, AdjustBalance, LiveFileOf, LiveSnapshot, LogAfter, Adjusted, Proper;
    if s.Reset? {
      ResetBalance(z, w.l, s, key);
    } else {
      AdjustedBalance(w.l, s, key);
      var a := AdjustBalance(w.l, s.id, s.amount, s.request);
      if a.Persisting? && s.id == key {
        NewRequest(w.l, s);
        CreditAccounted(BalanceOf(w.l.Entry(key)), books.now, s.amount, s.request);
      }
    }
  }

  lemma NewRequest(l: Ledger, s: Step)
    requires s.Adjust? && AdjustBalance(l, s.id, s.amount, s.request).Persisting?
    ensures s.request != "" ==> Earlier(BalanceOf(l.Entry(s.id)).requests, s.request).None?
  {
    hide Adjusted;
  }

  /** A restart finds the balance of the last cut that landed. */
  lemma RestartHolds(z: Zone, w: World, now: int, key: string, log: seq<Move>)
    requires Inv(w) && Enabled(z, w, Restart(now)) && LedgerAccounted(w.cut, key, log)
    ensures LedgerAccounted(Next(z, w, Restart(now)).l, key, log)
  {
    hide Merged, Evicted, SnapshotOf, HistoryAgrees, Accounted, DayOf;
    var dataset := Merged(w.live, w.history);
    var raw := Ledger(dataset.keys, false, 0, dataset.through, dataset.through, false, None);
    MergeSucceeds(w);
    MergedPeriods(w.live, w.history, key);
    SnapshotPeriods(w.live.keys, w.cut, w.live.through, key);
    assert raw.Entry(key).cycles == w.cut.Entry(key).cycles && raw.Entry(key).balance == w.cut.Entry(key).balance;
    EvictedBalance(z, raw, now, key);
  }

  lemma StepKeepsBooks(z: Zone, w: World, s: Step, key: string, books: Books)
    requires Inv(w) && Enabled(z, w, s) && BooksHold(w, key, books)
    ensures BooksHold(Next(z, w, s), key, BooksAfter(z, w, s, key, books))
  {
    hide Inv, LedgerAccounted, LogAfter, ResetWindow, AdjustBalance, PlanFlush, LiveFileOf, LiveSnapshot, MarkFlushed, Worked, Merged, Loaded;
    if s.Restart? {
      RestartHolds(z, w, s.now, key, books.saved);
    } else {
      MemoryHolds(z, w, s, key, books.now);
      NothingLogged(w, s, key, books.now);
      if s.Reset? || s.Adjust? {
        PersistedHolds(z, w, s, key, books);
      }
    }
  }

  lemma NothingLogged(w: World, s: Step, key: string, log: seq<Move>)
    ensures s.Begin? || s.WriteHistory? || s.WriteLive? || s.Finish? || s.Reset? ==> LogAfter(w, s, key, log) == log
  {}

  ghost predicate IsBookedRun(z: Zone, run: seq<World>, steps: seq<Step>, key: string, books: seq<Books>) {
    && |run| == |steps| + 1 == |books|
    && forall i :: 0 <= i < |steps| ==>
         && Enabled(z, run[i], steps[i]) && run[i + 1] == Next(z, run[i], steps[i])
         && books[i + 1] == BooksAfter(z, run[i], steps[i], key, books[i])
  }

  lemma FirstBootBooks(z: Zone, keys: seq<Key>, at: int, key: string)
    ensures BooksHold(FirstBoot(z, keys, at), key, Books([], [], []))
  {
    hide Synced, Evicted, LiveFileOf, LiveSnapshot, Accounted;
    var raw := Ledger(map[], false, 0, Never, Never, false, None);
    EvictedBalance(z, raw, at, key);
    SyncedBalance(z, Evicted(z, raw, at), keys, at, key);
    NothingMoved();
  }

  /** At every point of every run from a first boot, with any write failing
      any way, restarts at any point and keys deleted and known again: what was
      credited minus what is left is what was deducted, and the latest request
      ids kept are those applied last, each once. A restart goes back to the
      moves the last cut held. */
  lemma {:induction false} EveryRunIsAccounted(z: Zone, keys: seq<Key>, at: int, run: seq<World>, steps: seq<Step>, key: string, books: seq<Books>, i: nat)
    requires IsBookedRun(z, run, steps, key, books) && i < |run| && run[0] == FirstBoot(z, keys, at) && books[0] == Books([], [], [])
    ensures Inv(run[i]) && BooksHold(run[i], key, books[i]) && Accounted(BalanceOf(run[i].l.Entry(key)), books[i].now)
    ensures var b := BalanceOf(run[i].l.Entry(key)); b.netCredited - b.nano == Charges(books[i].now)
  {
    hide Inv, Next, Enabled, BooksAfter, FirstBoot, Distinct, Latest;
    if i == 0 {
      FirstBootBooks(z, keys, at, key);
      FirstBootInv(z, keys, at);
    } else {
      EveryRunIsAccounted(z, keys, at, run, steps, key, books, i - 1);
      var k := i - 1;
      assert Enabled(z, run[k], steps[k]) && run[k + 1] == Next(z, run[k], steps[k]);
      StepKeepsInv(z, run[k], steps[k]);
      StepKeepsBooks(z, run[k], steps[k], key, books[k]);
    }
  }

  lemma NothingMoved()
    ensures Accounted(NO_BALANCE, [])
  {}

  // Request ids.

  /** An adjustment with a request id is applied exactly when the id is not
      among the latest ones kept; a kept one with the same amount is answered,
      with another amount refused, and neither changes anything. */
  lemma AppliedIffNew(l: Ledger, id: string, amount: int, request: string, outcome: Outcome)
    requires l.Entry(id).cycles.Some? && request != ""
    ensures var a, kept := AdjustBalance(l, id, amount, request), BalanceOf(l.Entry(id)).requests;
      && (a.Persisting? <==> forall i :: 0 <= i < |kept| ==> kept[i].id != request)
      && (!a.Persisting? ==> a.Ended(outcome) == l)
      && (a.Answered? ==> exists r :: r in kept && r.id == request && r.amount == amount)
  {
    hide Adjusted, Latest, Earlier;
    EarlierIsAmong(BalanceOf(l.Entry(id)).requests, request);
  }

  /** The answer tells the balance before and after, and the sum of credits, as
      the ledger has them; a failed write is told, and so is a refusal. */
  lemma ReplyIsTrue(l: Ledger, id: string, amount: int, request: string, outcome: Outcome)
    ensures var a, r := AdjustBalance(l, id, amount, request), ReplyTo(l, id, amount, request, outcome);
      && (r.UnknownKey? <==> l.Entry(id).cycles.None?)
      && (r.Conflict? || r.UnknownKey? <==> a.Refused?)
      && (r.Adjustment? && r.duplicate <==> a.Answered?)
      && (r.WriteFailed? <==> a.Persisting? && outcome.Failed?)
      && (a.Persisting? && outcome.Written? ==> var after := BalanceOf(a.Ended(outcome).Entry(id));
            && r == Adjustment(BalanceOf(l.Entry(id)).nano, after.nano, after.netCredited, false) && after.nano == r.before + amount
            && !a.Ended(outcome).dirty)
  {
    hide Earlier, Latest;
  }

  /** A write that fails leaves the balance, the dirty flag and the revision as
      they were. */
  lemma FailedLeavesNoTrace(l: Ledger, id: string, amount: int, request: string, landed: bool)
    ensures AdjustBalance(l, id, amount, request).Ended(Failed(landed)) == l
  {
    hide Adjusted, Earlier;
  }

  /** A retry while the id is kept is answered with the first balances. */
  lemma RetryAnswersAlike(first: Ledger, later: Ledger, id: string, amount: int, request: string, outcome: Outcome)
    requires request != "" && id in first.entries && id in later.entries && later.entries[id].cycles.Some?
    requires AdjustBalance(first, id, amount, request).Persisting?
    requires var b := BalanceOf(first.Entry(id)); Request(request, amount, b.nano + amount) in BalanceOf(later.Entry(id)).requests
    requires Distinct(BalanceOf(later.Entry(id)).requests)
    ensures var reply, again := ReplyTo(first, id, amount, request, Written), ReplyTo(later, id, amount, request, outcome);
      && reply.Adjustment? && !reply.duplicate && again.Adjustment? && again.duplicate
      && again.before == reply.before && again.after == reply.after
      && again.netCredited == BalanceOf(later.Entry(id)).netCredited
    ensures AdjustBalance(later, id, amount, request).Ended(outcome) == later
  {
    hide Adjusted, Latest;
    var kept := BalanceOf(later.Entry(id)).requests;
    EarlierIsAmong(kept, request);
    EarlierIs(kept, Request(request, amount, BalanceOf(first.Entry(id)).nano + amount));
  }

  lemma {:induction false} EarlierIs(requests: seq<Request>, r: Request)
    requires r in requests && Distinct(requests)
    ensures Earlier(requests, r.id) == Some(r)
  {
    if requests[0] != r {
      assert r in requests[1..];
      var i :| 0 <= i < |requests[1..]| && requests[1..][i] == r;
      assert requests[0].id != requests[i + 1].id;
      EarlierIs(requests[1..], r);
    }
  }

  /** An applied id is kept while fewer than 64 later ones were applied. */
  lemma KeptAmongLatest(all: seq<Request>, i: nat)
    requires i < |all|
    ensures i >= |all| - 64 ==> all[i] in Latest(all)
    ensures |Latest(all)| <= 64
  {
    if |all| > REQUESTS_KEPT && i >= |all| - REQUESTS_KEPT {
      assert Latest(all)[i - (|all| - REQUESTS_KEPT)] == all[i];
    }
  }

  lemma {:induction false} RequestsPrefix(log: seq<Move>, longer: seq<Move>)
    requires log <= longer
    ensures Requests(log) <= Requests(longer)
  {
    if log != longer {
      RequestsPrefix(log, longer[..|longer| - 1]);
    }
  }

  /** A credit that carried an id is the last of the requests once logged. */
  lemma CreditIsRequest(log: seq<Move>, l: Ledger, s: Step)
    requires s.Adjust? && s.request != ""
    ensures Requests(log + [CreditOf(l, s)]) == Requests(log) + [Request(s.request, s.amount, BalanceOf(l.Entry(s.id)).nano + s.amount)]
  {
    assert (log + [CreditOf(l, s)])[..|log|] == log;
  }

  lemma AppliedIsLogged(z: Zone, w: World, s: Step, key: string, books: Books)
    requires Applied(w, s, key)
    ensures BooksAfter(z, w, s, key, books).now == books.now + [CreditOf(w.l, s)]
  {
    hide AdjustBalance, CreditOf;
  }

  /** The key has requests, so it has periods. */
  lemma KeptMeansKnown(l: Ledger, key: string, log: seq<Move>, r: Request)
    requires LedgerAccounted(l, key, log) && r in Latest(Requests(log))
    ensures key in l.entries && l.entries[key].cycles.Some? && r in BalanceOf(l.entries[key]).requests
    ensures Distinct(BalanceOf(l.entries[key]).requests)
  {
    hide Latest, Requests, Distinct, Credits, Charges;
  }

  /** The later books go on from the first ones, with fewer than 64 requests
      in between. */
  predicate StillKept(first: seq<Move>, later: seq<Move>) {
    first <= later && |Requests(later)| - |Requests(first)| < REQUESTS_KEPT
  }

  lemma LoggedIsKept(log: seq<Move>, l: Ledger, s: Step, later: seq<Move>)
    requires s.Adjust? && s.request != "" && StillKept(log + [CreditOf(l, s)], later)
    ensures Request(s.request, s.amount, BalanceOf(l.Entry(s.id)).nano + s.amount) in Latest(Requests(later))
  {
    hide Latest, Requests, CreditOf;
    RequestsPrefix(log + [CreditOf(l, s)], later);
    CreditIsRequest(log, l, s);
    KeptAmongLatest(Requests(later), |Requests(log)|);
  }

  /** Retrying an applied adjustment at any later point of a run, while it is
      neither lost to a crash nor followed by 64 further requests: it is
      answered with its first balances, changes nothing, and reports the sum of
      credits it first reported exactly when the credits since sum to zero. */
  lemma RetryOverRun(
    z: Zone, keys: seq<Key>, at: int, run: seq<World>, steps: seq<Step>, key: string, books: seq<Books>,
    k: nat, j: nat, outcome: Outcome)
    requires IsBookedRun(z, run, steps, key, books) && run[0] == FirstBoot(z, keys, at) && books[0] == Books([], [], [])
    requires k < j <= |steps| && Applied(run[k], steps[k], key) && steps[k].request != ""
    requires StillKept(books[k + 1].now, books[j].now)
    ensures var s := steps[k];
      var reply, again := ReplyTo(run[k].l, key, s.amount, s.request, Written), ReplyTo(run[j].l, key, s.amount, s.request, outcome);
      && reply.Adjustment? && !reply.duplicate && again.Adjustment? && again.duplicate
      && again.before == reply.before && again.after == reply.after
      && (again.netCredited == reply.netCredited <==> Credits(books[j].now) == Credits(books[k + 1].now))
      && AdjustBalance(run[j].l, key, s.amount, s.request).Ended(outcome) == run[j].l
  {
    hide Enabled, Next, FirstBoot, Inv, BooksAfter, StillKept, Latest, Distinct, Requests, AdjustBalance, ReplyTo;
    var s := steps[k];
    EveryRunIsAccounted(z, keys, at, run, steps, key, books, k);
    EveryRunIsAccounted(z, keys, at, run, steps, key, books, j);
    assert books[k + 1] == BooksAfter(z, run[k], s, key, books[k]);
    AppliedIsLogged(z, run[k], s, key, books[k]);
    LoggedIsKept(books[k].now, run[k].l, s, books[j].now);
    KeptMeansKnown(run[j].l, key, books[j].now, Request(s.request, s.amount, BalanceOf(run[k].l.Entry(key)).nano + s.amount));
    FirstReply(run[k], s, key, books[k].now);
    RetryAnswersAlike(run[k].l, run[j].l, key, s.amount, s.request, outcome);
  }

  lemma FirstReply(w: World, s: Step, key: string, log: seq<Move>)
    requires Applied(w, s, key) && LedgerAccounted(w.l, key, log)
    ensures key in w.l.entries
    ensures var reply := ReplyTo(w.l, key, s.amount, s.request, Written);
      reply.Adjustment? && reply.netCredited == Credits(log + [CreditOf(w.l, s)])
  {
    hide Adjusted, Earlier, Latest, Requests, Distinct, Charges;
    assert (log + [CreditOf(w.l, s)])[..|log|] == log;
  }

  /** An adjustment under a new id, once written. */
  lemma AdjustedEntry(l: Ledger, id: string, amount: int, request: string)
    requires id in l.entries && l.entries[id].cycles.Some? && request != ""
    requires Earlier(BalanceOf(l.entries[id]).requests, request).None?
    ensures var l' := AdjustBalance(l, id, amount, request).Ended(Written);
      id in l'.entries && l'.entries[id].cycles.Some? && BalanceOf(l'.entries[id]) == Adjusted(BalanceOf(l.entries[id]), amount, request)
  {
    hide Adjusted, Earlier;
  }

  /** An applied credit of 5 reports 5 credited in all; its retry after a
      credit of 7 under another id reports 12. */
  lemma RetryReportsLaterCredits(l: Ledger, id: string, first: string, second: string)
    requires id in l.entries && l.entries[id].cycles.Some? && l.entries[id].balance.None?
    requires first != "" && second != "" && first != second
    ensures var l' := AdjustBalance(l, id, 5, first).Ended(Written);
      var l'' := AdjustBalance(l', id, 7, second).Ended(Written);
      && ReplyTo(l, id, 5, first, Written) == Adjustment(0, 5, 5, false)
      && ReplyTo(l'', id, 5, first, Written) == Adjustment(0, 5, 12, true)
  {
    hide AdjustBalance;
    AdjustedEntry(l, id, 5, first);
    var l' := AdjustBalance(l, id, 5, first).Ended(Written);
    assert BalanceOf(l'.Entry(id)) == Balance(5, 5, [Request(first, 5, 5)]);
    AdjustedEntry(l', id, 7, second);
    var l'' := AdjustBalance(l', id, 7, second).Ended(Written);
    assert BalanceOf(l''.Entry(id)) == Balance(12, 12, [Request(first, 5, 5), Request(second, 7, 12)]);
  }
}
