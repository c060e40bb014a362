/** Ids of media generations between admission and billing: a queue ordered
    by admission time and an index over it, shown to be an expiring map. */
module MediaTraces {
  const CAPACITY: nat := 4096
  /** One hour, in seconds. */
  const TTL: int := 3600

  datatype Trace = Trace(id: string, at: int)

  /** The admissions still fresh at an instant. */
  function Fresh(index: map<string, int>, now: int): map<string, int> {
    map id | id in index && index[id] >= now - TTL :: index[id]
  }

  ghost predicate SortedByTime(order: seq<Trace>) {
    forall i, j :: 0 <= i <= j < |order| ==> order[i].at <= order[j].at
  }

  /** Every index entry has its queue entry. */
  ghost predicate Queued(index: map<string, int>, order: seq<Trace>) {
    forall id :: id in index ==> Trace(id, index[id]) in order
  }

  ghost predicate Consistent(index: map<string, int>, order: seq<Trace>) {
    SortedByTime(order) && Queued(index, order)
  }

  /** The index without its oldest queue entry, unless that one is stale. */
  function WithoutOldest(index: map<string, int>, e: Trace): map<string, int> {
    if e.id in index && index[e.id] == e.at then index - {e.id} else index
  }

  /** The index after the entries before cutoff left the queue. */
  function Trimmed(index: map<string, int>, order: seq<Trace>, cutoff: int): (map<string, int>, seq<Trace>) {
    if order != [] && order[0].at < cutoff then Trimmed(WithoutOldest(index, order[0]), order[1..], cutoff)
    else (index, order)
  }

  /** The index after the oldest admissions made room for one. */
  function Evicted(index: map<string, int>, order: seq<Trace>): (map<string, int>, seq<Trace>) {
    if |index| >= CAPACITY && order != [] then Evicted(WithoutOldest(index, order[0]), order[1..])
    else (index, order)
  }

  lemma OldestIsFirst(index: map<string, int>, order: seq<Trace>)
    requires order != [] && Consistent(index, order)
    ensures forall id :: id in index ==> order[0].at <= index[id]
  {
    forall id | id in index ensures order[0].at <= index[id] {
      var i :| 0 <= i < |order| && order[i] == Trace(id, index[id]);
    }
  }

  lemma RestQueued(index: map<string, int>, order: seq<Trace>)
    requires order != [] && Consistent(index, order)
    ensures Consistent(WithoutOldest(index, order[0]), order[1..])
  {
    assert order == [order[0]] + order[1..];
  }

  lemma OldestLeaves(index: map<string, int>, order: seq<Trace>)
    requires order != [] && Consistent(index, order)
    ensures Consistent(WithoutOldest(index, order[0]), order[1..])
    ensures |WithoutOldest(index, order[0])| >= |index| - 1
    ensures OldestForgotten(index, WithoutOldest(index, order[0]))
  {
    hide Consistent, SortedByTime, Queued;
    OldestIsFirst(index, order);
    RestQueued(index, order);
    WithoutOne(index, order[0].id);
  }

  lemma ExpiredWasNotFresh(index: map<string, int>, e: Trace, now: int)
    requires e.at < now - TTL
    ensures Fresh(WithoutOldest(index, e), now) == Fresh(index, now)
  {}

  lemma AllFresh(index: map<string, int>, order: seq<Trace>, now: int)
    requires Consistent(index, order) && (order == [] || order[0].at >= now - TTL)
    ensures Fresh(index, now) == index
  {
    forall id | id in index ensures index[id] >= now - TTL {
      var i :| 0 <= i < |order| && order[i] == Trace(id, index[id]);
    }
  }

  lemma {:induction false} TrimmedIsFresh(index: map<string, int>, order: seq<Trace>, now: int)
    requires Consistent(index, order)
    ensures var (live, queue) := Trimmed(index, order, now - TTL);
            live == Fresh(index, now) && Consistent(live, queue) && forall t :: t in queue ==> t in order
    decreases |order|
  {
    if order != [] && order[0].at < now - TTL {
      OldestLeaves(index, order);
      ExpiredWasNotFresh(index, order[0], now);
      TrimmedIsFresh(WithoutOldest(index, order[0]), order[1..], now);
    } else {
      AllFresh(index, order, now);
    }
  }

  lemma {:induction false} EvictedMakesRoom(index: map<string, int>, order: seq<Trace>)
    requires Consistent(index, order)
    ensures var (kept, queue) := Evicted(index, order);
      && Consistent(kept, queue) && (forall t :: t in queue ==> t in order)
      && |kept| < CAPACITY && (|index| < CAPACITY ==> kept == index) && (|index| >= CAPACITY ==> |kept| == CAPACITY - 1)
      && OldestForgotten(index, kept)
    decreases |order|
  {
    if |index| >= CAPACITY {
      assert order != [] by {
        var id :| id in index;
        assert Trace(id, index[id]) in order;
      }
      OldestLeaves(index, order);
      EvictedMakesRoom(WithoutOldest(index, order[0]), order[1..]);
    }
  }

  /** What is gone was at least as old as what stays. */
  ghost predicate OldestForgotten(before: map<string, int>, after: map<string, int>) {
    && (forall id :: id in after ==> id in before && after[id] == before[id])
    && forall gone, kept :: gone in before && gone !in after && kept in after ==> before[gone] <= before[kept]
  }

  lemma QueuedLonger(index: map<string, int>, order: seq<Trace>, t: Trace, p: nat)
    requires p <= |order| && SortedByTime(order) && Queued(index, order)
    requires forall i :: 0 <= i < p ==> order[i].at <= t.at
    requires forall i :: p <= i < |order| ==> order[i].at >= t.at
    ensures SortedByTime(order[..p] + [t] + order[p..])
    ensures Queued(index[t.id := t.at], order[..p] + [t] + order[p..])
  {
    var after := order[..p] + [t] + order[p..];
    assert after[p] == t;
    forall id | id in index && id != t.id ensures Trace(id, index[id]) in after {
      var i :| 0 <= i < |order| && order[i] == Trace(id, index[id]);
      assert after[if i < p then i else i + 1] == order[i];
    }
  }

  // What is listed.

  predicate Held(index: map<string, int>, t: Trace) { t.id in index && index[t.id] == t.at }

  /** The queue entries the index still holds, in the order of the queue. */
  function Awaiting(order: seq<Trace>, index: map<string, int>): seq<Trace> {
    if order == [] then []
    else
      var earlier, last := Awaiting(order[..|order| - 1], index), order[|order| - 1];
      if Held(index, last) then earlier + [last] else earlier
  }

  ghost predicate EachOnce(s: seq<Trace>) { forall t :: t in s ==> multiset(s)[t] == 1 }

  lemma InitSorted(order: seq<Trace>)
    requires SortedByTime(order) && order != []
    ensures SortedByTime(order[..|order| - 1]) && forall t :: t in order[..|order| - 1] ==> t.at <= order[|order| - 1].at
  {
    var init := order[..|order| - 1];
    forall t | t in init ensures t.at <= order[|order| - 1].at {
      var i :| 0 <= i < |init| && init[i] == t;
      assert order[i].at <= order[|order| - 1].at;
    }
  }

  lemma LaterSorted(order: seq<Trace>, t: Trace)
    requires SortedByTime(order) && forall u :: u in order ==> u.at <= t.at
    ensures SortedByTime(order + [t])
  {}

  lemma CountLast(order: seq<Trace>, last: Trace, t: Trace)
    ensures multiset(order + [last])[t] == multiset(order)[t] + if t == last then 1 else 0
    ensures t in order + [last] <==> t in order || t == last
  {}

  /** Oldest first, and each entry as often as it is queued. */
  lemma {:induction false} AwaitingIs(order: seq<Trace>, index: map<string, int>)
    requires SortedByTime(order)
    ensures SortedByTime(Awaiting(order, index))
    ensures forall t :: t in Awaiting(order, index) <==> t in order && Held(index, t)
    ensures forall t :: multiset(Awaiting(order, index))[t] == if Held(index, t) then multiset(order)[t] else 0
    decreases |order|
  {
    hide SortedByTime, Held;
    if order != [] {
      var init, last := order[..|order| - 1], order[|order| - 1];
      assert order == init + [last];
      InitSorted(order);
      AwaitingIs(init, index);
      var earlier := Awaiting(init, index);
      forall t
        ensures t in Awaiting(order, index) <==> t in order && Held(index, t)
        ensures multiset(Awaiting(order, index))[t] == if Held(index, t) then multiset(order)[t] else 0
      {
        CountLast(init, last, t);
        CountLast(earlier, last, t);
      }
      LaterSorted(earlier, last);
    }
  }

  /** What trimming leaves is the end of the queue, with every entry that is
      still fresh. */
  lemma {:induction false} TrimmedIsSuffix(index: map<string, int>, order: seq<Trace>, cutoff: int)
    ensures var queue := Trimmed(index, order, cutoff).1;
      |queue| <= |order| && queue == order[|order| - |queue|..] && forall t :: t in order && t.at >= cutoff ==> t in queue
    decreases |order|
  {
    if order != [] && order[0].at < cutoff {
      assert order == [order[0]] + order[1..];
      TrimmedIsSuffix(WithoutOldest(index, order[0]), order[1..], cutoff);
    }
  }

  lemma SuffixOnce(order: seq<Trace>, n: nat)
    requires n <= |order| && EachOnce(order)
    ensures EachOnce(order[n..])
  {
    assert order == order[..n] + order[n..];
    forall t | t in order[n..] ensures multiset(order[n..])[t] == 1 {
      assert t in order && multiset(order)[t] == multiset(order[..n])[t] + multiset(order[n..])[t];
    }
  }

  /** A further entry is a twin exactly when it is queued already. */
  lemma OnceMore(order: seq<Trace>, p: nat, t: Trace)
    requires p <= |order| && EachOnce(order)
    ensures EachOnce(order[..p] + [t] + order[p..]) <==> t !in order
  {
    var after := order[..p] + [t] + order[p..];
    assert order[..p] + order[p..] == order;
    assert multiset(after) == multiset(order) + multiset{t};
    forall u ensures u in after <==> u in order || u == t {
      assert u in multiset(after) <==> u in multiset(order) || u == t;
    }
    if t in order {
      assert multiset(after)[t] == 2;
    }
  }

  lemma TrimmedOnce(index: map<string, int>, order: seq<Trace>, cutoff: int)
    requires EachOnce(order)
    ensures EachOnce(Trimmed(index, order, cutoff).1)
  {
    hide EachOnce, Trimmed;
    TrimmedIsSuffix(index, order, cutoff);
    SuffixOnce(order, |order| - |Trimmed(index, order, cutoff).1|);
  }

  /** The queue after trimming and one more entry, when there is room. */
  lemma TwinIff(index: map<string, int>, order: seq<Trace>, cutoff: int, p: nat, t: Trace)
    requires EachOnce(order) && t.at >= cutoff
    requires var queue := Trimmed(index, order, cutoff).1; p <= |queue|
    ensures var queue := Trimmed(index, order, cutoff).1;
      EachOnce(queue[..p] + [t] + queue[p..]) <==> t !in order
  {
    hide EachOnce, Trimmed;
    var queue := Trimmed(index, order, cutoff).1;
    TrimmedIsSuffix(index, order, cutoff);
    TrimmedOnce(index, order, cutoff);
    OnceMore(queue, p, t);
    if t in queue {
      assert t in order;
    }
  }

  lemma ListedOnce(index: map<string, int>, order: seq<Trace>)
    requires Consistent(index, order)
    ensures var listed := Awaiting(order, index);
      && SortedByTime(listed) && (forall t :: t in listed <==> t.id in index && index[t.id] == t.at)
      && (EachOnce(listed) <==> forall t :: t in order && Held(index, t) ==> multiset(order)[t] == 1)
      && (EachOnce(order) ==> EachOnce(listed))
  {
    hide SortedByTime, Awaiting;
    AwaitingIs(order, index);
    forall t | Held(index, t) ensures t in order {
      assert Trace(t.id, index[t.id]) == t;
    }
  }

  method PlaceOf(order: seq<Trace>, at: int) returns (p: nat)
    requires SortedByTime(order)
    ensures p <= |order| && (forall i :: 0 <= i < p ==> order[i].at <= at) && forall i :: p <= i < |order| ==> order[i].at > at
  {
    p := |order|;
    while p > 0 && order[p - 1].at > at
      invariant 0 <= p <= |order|
      invariant forall i :: p <= i < |order| ==> order[i].at > at
    {
      p := p - 1;
    }
  }

  lemma QueueSorted(index: map<string, int>, order: seq<Trace>)
    requires Consistent(index, order)
    ensures SortedByTime(order)
  {}

  lemma Placed(index: map<string, int>, order: seq<Trace>, t: Trace, p: nat)
    requires Consistent(index, order) && p <= |order|
    requires (forall i :: 0 <= i < p ==> order[i].at <= t.at) && forall i :: p <= i < |order| ==> order[i].at > t.at
    ensures var after := order[..p] + [t] + order[p..];
      Consistent(index[t.id := t.at], after) && forall u :: u in after ==> u in order || u == t
  {
    QueuedLonger(index, order, t, p);
  }

  lemma NewestLast(index: map<string, int>, order: seq<Trace>, t: Trace)
    requires Consistent(index, order) && forall u :: u in order ==> u.at <= t.at
    ensures Consistent(index[t.id := t.at], order + [t])
  {
    QueuedLonger(index, order, t, |order|);
    assert order[..|order|] + [t] + order[|order|..] == order + [t];
  }

  class MediaTraceSet {
    var order: seq<Trace>
    var index: map<string, int>
    /** The latest time the clock showed; the clock never goes back. */
    ghost var clock: int
    ghost predicate Valid()
      reads this
    {
      Consistent(index, order) && (forall t :: t in order ==> t.at <= clock)
    }

    constructor ()
      ensures Valid() && index == map[] && order == [] && clock == 0
    {
      order, index, clock := [], map[], 0;
    }

    method Trim(now: int)
      requires Valid() && now >= clock
      modifies this`order, this`index, this`clock
      ensures Valid() && clock == now && index == Fresh(old(index), now)
      ensures order == Trimmed(old(index), old(order), now - TTL).1
    {
      var cutoff := now - TTL;
      TrimmedIsFresh(index, order, now);
      while |order| > 0 && order[0].at < cutoff
        invariant Trimmed(index, order, cutoff) == Trimmed(old(index), old(order), cutoff)
        decreases |order|
      {
        var expired := order[0];
        if expired.id in index && index[expired.id] == expired.at {
          index := index - {expired.id};
        }
        order := order[1..];
      }
      clock := now;
    }

    /** Forgets the oldest admissions until there is room for one. */
    method MakeRoom()
      requires Valid()
      modifies this`order, this`index
      ensures Valid() && (index, order) == Evicted(old(index), old(order))
    {
      EvictedMakesRoom(index, order);
      while |index| >= CAPACITY && |order| > 0
        invariant Evicted(index, order) == Evicted(old(index), old(order))
        decreases |order|
      {
        var oldest := order[0];
        order := order[1..];
        if oldest.id in index && index[oldest.id] == oldest.at {
          index := index - {oldest.id};
        }
      }
    }

    /** No two queue entries are alike. */
    ghost predicate NoTwins()
      reads this
    {
      EachOnce(order)
    }

    /** Admits an id. A full set first forgets its oldest admissions, never
        more than it must. With room, a queue without twins gets one exactly
        when the id was admitted at this very clock reading and taken since. */
    method Remember(id: string, now: int) returns (ghost kept: map<string, int>)
      requires Valid() && now >= clock
      modifies this
      ensures Valid() && clock == now
      ensures id in Fresh(old(index), now) ==> index == Fresh(old(index), now)
      ensures id !in Fresh(old(index), now) ==>
        && index == kept[id := now] && OldestForgotten(Fresh(old(index), now), kept)
        && (if |Fresh(old(index), now)| < 4096 then kept == Fresh(old(index), now) else |kept| == 4095)
      ensures |old(index)| <= 4096 ==> |index| <= 4096
      ensures id !in Fresh(old(index), now) && |Fresh(old(index), now)| < 4096 ==>
        order == Trimmed(old(index), old(order), now - TTL).1 + [Trace(id, now)]
      ensures old(NoTwins()) && |Fresh(old(index), now)| < 4096 ==>
        (NoTwins() <==> id in Fresh(old(index), now) || Trace(id, now) !in old(order))
    {
      hide EachOnce, Trimmed, Evicted, Consistent, OldestForgotten, Fresh;
      kept := map[];
      ghost var before, queued := index, order;
      FreshIsSmaller(index, now);
      Trim(now);
      ghost var live, queue := index, order;
      if old(NoTwins()) {
        TrimmedOnce(before, queued, now - TTL);
      }
      if id in index {
        return;
      }
      EvictedMakesRoom(index, order);
      MakeRoom();
      NewestLast(index, order, Trace(id, now));
      WithOne(index, id, now);
      kept := index;
      index := index[id := now];
      order := order + [Trace(id, now)];
      if |live| < CAPACITY {
        RoomKeeps(live, queue);
      }
      if old(NoTwins()) && |live| < CAPACITY {
        assert queue[..|queue|] + [Trace(id, now)] + queue[|queue|..] == order;
        TwinIff(before, queued, now - TTL, |queue|, Trace(id, now));
      }
    }

    /** Admits an id another instance admitted at an earlier time. */
    method RememberAt(id: string, at: int, now: int)
      requires Valid() && now >= clock && at <= now
      modifies this
      ensures Valid() && clock == now
      ensures var live := Fresh(old(index), now);
        index == if id in live || at < now - TTL then live else live[id := at]
      ensures old(NoTwins()) ==>
        (NoTwins() <==> id in Fresh(old(index), now) || at < now - TTL || Trace(id, at) !in old(order))
    {
      hide EachOnce, Trimmed, Fresh, Consistent;
      ghost var before, queued := index, order;
      Trim(now);
      if old(NoTwins()) {
        TrimmedOnce(before, queued, now - TTL);
      }
      if id in index || at < now - TTL {
        return;
      }
      // The queue was sorted, so sorting it again puts the new entry behind
      // the last one that is not younger.
      var p := PlaceOf(order, at) by { QueueSorted(index, order); }
      Placed(index, order, Trace(id, at), p);
      if old(NoTwins()) {
        TwinIff(before, queued, now - TTL, p, Trace(id, at));
      }
      index := index[id := at];
      order := order[..p] + [Trace(id, at)] + order[p..];
    }

    /** The live ids, oldest first, each once exactly when none is queued
        twice. */
    method Live(now: int) returns (traces: seq<Trace>)
      requires Valid() && now >= clock
      modifies this`order, this`index, this`clock
      ensures Valid() && clock == now && index == Fresh(old(index), now)
      ensures order == Trimmed(old(index), old(order), now - TTL).1
      ensures traces == Awaiting(order, index) && SortedByTime(traces)
      ensures forall t :: t in traces <==> t.id in index && index[t.id] == t.at
      ensures EachOnce(traces) <==> forall t :: t in order && Held(index, t) ==> multiset(order)[t] == 1
      ensures old(NoTwins()) ==> NoTwins() && EachOnce(traces)
    {
      hide EachOnce, Trimmed, Fresh, Consistent;
      ghost var before, queued := index, order;
      Trim(now);
      if old(NoTwins()) {
        TrimmedOnce(before, queued, now - TTL);
      }
      ListedOnce(index, order);
      traces := [];
      for i := 0 to |order|
        invariant traces == Awaiting(order[..i], index)
      {
        assert order[..i + 1][..i] == order[..i];
        if order[i].id in index && index[order[i].id] == order[i].at {
          traces := traces + [order[i]];
        }
      }
      assert order[..|order|] == order;
    }

    method Contains(id: string, now: int) returns (known: bool)
      requires Valid() && now >= clock
      modifies this`order, this`index, this`clock
      ensures Valid() && clock == now && index == Fresh(old(index), now)
      ensures known <==> id in old(index) && now - old(index)[id] <= 3600
    {
      Trim(now);
      known := id in index;
    }

    /** Consumes an id: the one charge its admission allows. */
    method Take(id: string, now: int) returns (taken: bool)
      requires Valid() && now >= clock
      modifies this
      ensures Valid() && clock == now
      ensures taken <==> id in old(index) && now - old(index)[id] <= 3600
      ensures index == Fresh(old(index), now) - {id}
      ensures order == Trimmed(old(index), old(order), now - TTL).1
      ensures old(NoTwins()) ==> NoTwins()
    {
      hide EachOnce, Trimmed, Fresh, Consistent;
      if old(NoTwins()) {
        TrimmedOnce(index, order, now - TTL);
      }
      FreshIs(index, id, now);
      Trim(now);
      FewerConsistent(index, order, id);
      if id !in index {
        return false;
      }
      index := index - {id};
      return true;
    }
  }

  lemma FreshIs(index: map<string, int>, id: string, now: int)
    ensures id in Fresh(index, now) <==> id in index && now - index[id] <= 3600
  {}

  lemma FewerConsistent(index: map<string, int>, order: seq<Trace>, id: string)
    requires Consistent(index, order)
    ensures Consistent(index - {id}, order)
  {}

  lemma WithOne(index: map<string, int>, id: string, at: int)
    ensures |index[id := at]| <= |index| + 1
  {
    assert index[id := at].Keys == index.Keys + {id};
    assert |index[id := at].Keys| == |index[id := at]| && |index.Keys| == |index|;
  }

  lemma RoomKeeps(index: map<string, int>, order: seq<Trace>)
    requires |index| < CAPACITY
    ensures Evicted(index, order) == (index, order)
  {}

  /** A set one id was admitted to and taken from: its queue entry stays. */
  method AdmittedAndTaken(id: string, now: int) returns (m: MediaTraceSet)
    requires now >= 0
    ensures fresh(m) && m.Valid() && m.clock == now && m.index == map[] && m.order == [Trace(id, now)]
  {
    hide OldestForgotten, Consistent, SortedByTime, EachOnce, Trimmed, Evicted, Fresh;
    OneFresh(id, now);
    NothingTrimmed(map[], [], now - TTL);
    NothingTrimmed(map[id := now], [Trace(id, now)], now - TTL);
    m := new MediaTraceSet();
    ghost var kept := m.Remember(id, now);
    assert [] + [Trace(id, now)] == [Trace(id, now)] && m.index == map[id := now];
    var taken := m.Take(id, now);
    assert map[id := now] - {id} == map[];
  }

  lemma OneFresh(id: string, now: int)
    ensures Fresh(map[], now) == map[] && Fresh(map[id := now], now) == map[id := now] && |Fresh(map[], now)| == 0
  {}

  /** Admitted, taken and admitted again at one clock reading, an id is listed
      twice. */
  method ListedTwice(id: string, now: int) returns (traces: seq<Trace>)
    requires now >= 0
    ensures |traces| == 2 && traces[0] == traces[1] == Trace(id, now)
  {
    hide OldestForgotten, Consistent, SortedByTime, EachOnce, Trimmed, Evicted, Awaiting, Fresh;
    ghost var t := Trace(id, now);
    OneFresh(id, now);
    NothingTrimmed(map[], [t], now - TTL);
    NothingTrimmed(map[id := now], [t, t], now - TTL);
    BothAwait(t);
    var m := AdmittedAndTaken(id, now);
    ghost var kept := m.Remember(id, now);
    assert [t] + [t] == [t, t] && m.index == map[id := now];
    traces := m.Live(now);
  }

  lemma BothAwait(t: Trace)
    ensures Awaiting([t, t], map[t.id := t.at]) == [t, t]
  {
    assert [t, t][..1] == [t] && [t][..0] == [];
    assert Awaiting([t], map[t.id := t.at]) == [t];
  }

  lemma NothingTrimmed(index: map<string, int>, order: seq<Trace>, cutoff: int)
    requires order == [] || order[0].at >= cutoff
    ensures Trimmed(index, order, cutoff) == (index, order)
  {}

  /** What happens to the set: an admission, one journaled by another
      instance, or a record that may charge it. */
  datatype Call = Admit(id: string, at: int) | Adopt(id: string, at: int, admittedAt: int) | Bill(id: string, at: int)

  function Charged(calls: seq<Call>, outcome: seq<bool>, id: string): nat
    requires |calls| == |outcome|
  {
    if calls == [] then 0
    else
      var n := |calls| - 1;
      Charged(calls[..n], outcome[..n], id) + (if calls[n].Bill? && calls[n].id == id && outcome[n] then 1 else 0)
  }

  function Admitted(calls: seq<Call>, id: string): nat {
    if calls == [] then 0
    else
      var n := |calls| - 1;
      Admitted(calls[..n], id) + (if !calls[n].Bill? && calls[n].id == id then 1 else 0)
  }

  /** One call on an expiring map without a capacity. */
  function After(index: map<string, int>, call: Call): map<string, int> {
    var live := Fresh(index, call.at);
    match call
    case Admit(id, at) => if id in live then live else live[id := at]
    case Adopt(id, at, admittedAt) => if id in live || admittedAt < at - TTL then live else live[id := admittedAt]
    case Bill(id, at) => live - {id}
  }

  function Expected(calls: seq<Call>): map<string, int> {
    if calls == [] then map[] else After(Expected(calls[..|calls| - 1]), calls[|calls| - 1])
  }

  /** The set never had to forget an admission. */
  ghost predicate Roomy(calls: seq<Call>) {
    forall n :: 0 <= n < |calls| ==> |Expected(calls[..n])| < CAPACITY
  }

  /** A clock that never goes back, and journaled times it showed before. */
  ghost predicate Clocked(calls: seq<Call>) {
    && (calls != [] ==> calls[0].at >= 0)
    && (forall i, j :: 0 <= i <= j < |calls| ==> calls[i].at <= calls[j].at)
    && forall i :: 0 <= i < |calls| && calls[i].Adopt? ==> calls[i].admittedAt <= calls[i].at
  }

  /** No id is charged more often than it was admitted; one still in the index
      has a charge left. */
  ghost predicate Accounted(calls: seq<Call>, charged: seq<bool>, index: map<string, int>)
    requires |calls| == |charged|
  {
    forall id :: Charged(calls, charged, id) + (if id in index then 1 else 0) <= Admitted(calls, id)
  }

  lemma AccountedStep(calls: seq<Call>, charged: seq<bool>, index: map<string, int>, call: Call, taken: bool, after: map<string, int>)
    requires |calls| == |charged| && Accounted(calls, charged, index)
    requires forall id :: id in after ==> id in index || (!call.Bill? && id == call.id)
    requires call.Bill? && taken ==> call.id in index && call.id !in after
    ensures Accounted(calls + [call], charged + [taken], after)
  {
    assert (calls + [call])[..|calls|] == calls && (charged + [taken])[..|calls|] == charged;
  }

  ghost predicate ExpectedCharge(calls: seq<Call>, i: nat)
    requires i < |calls|
  {
    calls[i].Bill? && calls[i].id in Fresh(Expected(calls[..i]), calls[i].at)
  }

  /** The run so far charged what the expiring map says. */
  ghost predicate Faithful(calls: seq<Call>, charged: seq<bool>, index: map<string, int>) {
    && |charged| == |calls| && index == Expected(calls)
    && forall i :: 0 <= i < |calls| ==> (charged[i] <==> ExpectedCharge(calls, i))
  }

  lemma FaithfulStep(calls: seq<Call>, charged: seq<bool>, index: map<string, int>, call: Call, taken: bool)
    requires Faithful(calls, charged, index) && (taken <==> call.Bill? && call.id in Fresh(index, call.at))
    ensures Faithful(calls + [call], charged + [taken], After(index, call))
  {
    var longer := calls + [call];
    assert longer[..|calls|] == calls;
    forall i | 0 <= i < |calls| ensures longer[..i] == calls[..i] {}
  }

  /** A whole run: no id is charged more often than it was admitted, and while
      there is room a call is charged exactly when its id is in the expiring
      map. Without adopted ids the set never grows beyond its capacity. */
  method Run(calls: seq<Call>) returns (charged: seq<bool>, ghost live: map<string, int>)
    requires Clocked(calls)
    ensures |charged| == |calls|
    ensures (forall call :: call in calls ==> !call.Adopt?) ==> |live| <= CAPACITY
    ensures forall id :: Charged(calls, charged, id) <= Admitted(calls, id)
    ensures Roomy(calls) ==> forall i :: 0 <= i < |calls| ==> (charged[i] <==> ExpectedCharge(calls, i))
  {
    hide Clocked, Fresh, After, RunHolds, Consistent;
    var traces := new MediaTraceSet();
    charged := [];
    RunStarts(calls);
    for n := 0 to |calls|
      invariant fresh(traces) && traces.Valid() && (n < |calls| ==> traces.clock <= calls[n].at)
      invariant RunHolds(calls[..n], charged, traces.index, Roomy(calls))
      invariant (forall call :: call in calls ==> !call.Adopt?) ==> |traces.index| <= CAPACITY
    {
      ghost var index := traces.index;
      InClock(calls, n);
      assert Roomy(calls) ==> |Expected(calls[..n])| < CAPACITY;
      RunSays(calls[..n], charged, index, Roomy(calls));
      var taken := Play(traces, calls[n]);
      assert calls[..n + 1] == calls[..n] + [calls[n]];
      RunStep(calls[..n], charged, index, Roomy(calls), calls[n], taken, traces.index);
      charged := charged + [taken];
    }
    assert calls[..|calls|] == calls;
    RunSays(calls, charged, traces.index, Roomy(calls));
    live := traces.index;
  }

  lemma RunStarts(calls: seq<Call>)
    requires Clocked(calls)
    ensures RunHolds(calls[..0], [], map[], Roomy(calls)) && (calls != [] ==> 0 <= calls[0].at)
  {
    assert calls[..0] == [];
  }

  lemma RunSays(calls: seq<Call>, charged: seq<bool>, index: map<string, int>, roomy: bool)
    requires RunHolds(calls, charged, index, roomy)
    ensures |charged| == |calls| && forall id :: Charged(calls, charged, id) <= Admitted(calls, id)
    ensures roomy ==> index == Expected(calls) && forall i :: 0 <= i < |calls| ==> (charged[i] <==> ExpectedCharge(calls, i))
  {
    hide ExpectedCharge, Expected;
  }

  lemma InClock(calls: seq<Call>, n: nat)
    requires Clocked(calls) && n < |calls|
    ensures (calls[n].Adopt? ==> calls[n].admittedAt <= calls[n].at) && (n + 1 < |calls| ==> calls[n].at <= calls[n + 1].at)
  {}

  ghost predicate RunHolds(calls: seq<Call>, charged: seq<bool>, index: map<string, int>, roomy: bool) {
    |charged| == |calls| && Accounted(calls, charged, index) && (roomy ==> Faithful(calls, charged, index))
  }

  lemma RunStep(calls: seq<Call>, charged: seq<bool>, index: map<string, int>, roomy: bool,
                call: Call, taken: bool, after: map<string, int>)
    requires RunHolds(calls, charged, index, roomy)
    requires forall id :: id in after ==> id in index || (!call.Bill? && id == call.id)
    requires call.Bill? && taken ==> call.id in index && call.id !in after
    requires taken <==> call.Bill? && call.id in Fresh(index, call.at)
    requires roomy ==> after == After(index, call)
    ensures RunHolds(calls + [call], charged + [taken], after, roomy)
  {
    AccountedStep(calls, charged, index, call, taken, after);
    if roomy {
      FaithfulStep(calls, charged, index, call, taken);
    }
  }

  method Play(traces: MediaTraceSet, call: Call) returns (taken: bool)
    requires traces.Valid() && traces.clock <= call.at && (call.Adopt? ==> call.admittedAt <= call.at)
    modifies traces
    ensures traces.Valid() && traces.clock == call.at
    ensures forall id :: id in traces.index ==> id in old(traces.index) || (!call.Bill? && id == call.id)
    ensures call.Bill? && taken ==> call.id in old(traces.index) && call.id !in traces.index
    ensures taken <==> call.Bill? && call.id in Fresh(old(traces.index), call.at)
    ensures |old(traces.index)| < CAPACITY ==> traces.index == After(old(traces.index), call)
    ensures !call.Adopt? && |old(traces.index)| <= CAPACITY ==> |traces.index| <= CAPACITY
  {
    taken := false;
    FreshIsSmaller(traces.index, call.at);
    match call {
      case Admit(id, at) =>
        ghost var _ := traces.Remember(id, at);
      case Adopt(id, at, admittedAt) =>
        traces.RememberAt(id, admittedAt, at);
      case Bill(id, at) =>
        WithoutOne(Fresh(traces.index, at), id);
        taken := traces.Take(id, at);
    }
  }

  lemma WithoutOne(index: map<string, int>, id: string)
    ensures |index - {id}| == if id in index then |index| - 1 else |index|
  {
    assert (index - {id}).Keys == index.Keys - {id};
    assert |index.Keys| == |index| && |(index - {id}).Keys| == |index - {id}|;
  }

  lemma FreshIsSmaller(index: map<string, int>, now: int)
    ensures |Fresh(index, now)| <= |index|
  {
    var young := Fresh(index, now).Keys;
    assert index.Keys == young + (index.Keys - young);
    assert |index.Keys| == |index| && |young| == |Fresh(index, now)|;
  }
}
