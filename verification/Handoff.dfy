/** Handing the ledger from one instance to the next: the lock on the data
    directory, the cut, the journal and its reader, for any number of
    instances and any number of hand-overs. Writes, reads, renames and removals
    may fail, and an instance may crash at any point. */
module Handoff {
  import opened Bytes

  /** One billed call. */
  datatype Billing = Billing(serial: int, key: string, model: string, charge: int)

  /** Calls, each as often as it is counted. */
  type Calls = multiset<Billing>

  /** The journal an instance appends to once it has given the files up. */
  datatype Writer = NoWriter | Appending(file: int) | Shut

  /** How appending a line ended: written, cut short, or nothing written. */
  datatype Append = Whole | Torn | Refused

  /** Where an owner stands with the journal it took over. Once it reads no
      more, known are the lines at the path its memory holds already. */
  datatype Reader = NotAdopted | Following(file: int, read: nat, closed: bool) | Done(known: Calls)

  datatype Instance = Instance(owns: bool, memory: Calls, writer: Writer, reader: Reader)

  /** files are the whole lines of the journals ever written, torn those that
      end in a line cut short, path the one new instances look for; billed is everything any instance ever billed. Of it the ledger
      counts doubled once too often and lost not at all. holder is an instance
      that gave the files up with everything billed in its memory, and no
      other has billed since. */
  datatype System = System(
    instances: map<int, Instance>, disk: Calls, files: map<int, seq<Billing>>, torn: set<int>, path: Option<int>,
    billed: Calls, lost: Calls, doubled: Calls, holder: Option<int>)
  {
    function With(i: int, x: Instance): System { this.(instances := instances[i := x]) }

    predicate Owner(i: int) { i in instances && instances[i].owns }

    ghost predicate Owned() { exists i :: Owner(i) }

    function File(f: int): seq<Billing> { if f in files then files[f] else [] }

    /** What lies at the path. */
    function Journal(): seq<Billing> { if path.Some? then File(path.value) else [] }
  }

  /** saved is what the files hold once a cut has ended: all of memory when it
      was written, and otherwise some of it. */
  datatype Step =
    | Bill(i: int, e: Billing, how: Append)
    | Flush(i: int, saved: Calls)
    | Quiesce(i: int, file: int)
    | QuiesceFails(i: int, saved: Calls, journal: Option<int>, removed: bool)
    | Load(i: int)
    | Adopt(i: int, read: bool)
    | Close(i: int, renamed: bool)
    | Follow(i: int)
    | Leave(i: int)
    | Rollback(i: int, removed: bool)
    | Shutdown(i: int, saved: Calls)
    | Stop(i: int)
    | Crash(i: int)

  /** The lines at the path that the owner's memory holds. */
  function Known(s: System, r: Reader): Calls {
    match r
    case NotAdopted => multiset{}
    case Following(f, n, _) => if s.path == Some(f) && n <= |s.File(f)| then multiset(s.File(f)[..n]) else multiset{}
    case Done(known) => known
  }

  /** The journal lines that are in no memory yet: those the owner still reads
      and those it leaves at the path for the next instance. */
  function Pending(s: System, r: Reader): Calls {
    match r
    case NotAdopted => multiset(s.Journal())
    case Following(f, n, _) => if n <= |s.File(f)| then multiset(s.File(f)[n..]) else multiset{}
    case Done(known) => multiset(s.Journal()) - known
  }

  /** A line appended here is read by someone, now or later. */
  ghost predicate Heard(s: System, f: int) {
    s.path == Some(f) || exists j :: s.Owner(j) && s.instances[j].reader.Following? && s.instances[j].reader.file == f
  }

  /** The line is appended whole, and not to one cut short: those two would be
      read as one line, which is malformed. */
  predicate Lands(s: System, x: Instance, how: Append) { x.writer.Appending? && how.Whole? && x.writer.file !in s.torn }

  ghost predicate HeardFrom(s: System, x: Instance, how: Append) { x.owns || (Lands(s, x, how) && Heard(s, x.writer.file)) }

  /** Of a cut that failed, each call is in the files as in memory or as
      before. */
  ghost predicate Cut(s: System, i: int, saved: Calls)
    requires i in s.instances
  {
    forall e :: saved[e] == s.disk[e] || saved[e] == s.instances[i].memory[e]
  }

  ghost predicate Enabled(s: System, step: Step) {
    match step
    case Bill(i, _, _) => i in s.instances
    case Flush(i, saved) => s.Owner(i) && Cut(s, i, saved)
    case Quiesce(i, file) => s.Owner(i) && s.instances[i].reader.Done? && (s.path.Some? || file !in s.files)
    case QuiesceFails(i, saved, journal, _) =>
      s.Owner(i) && s.instances[i].reader.Done? && Cut(s, i, saved) &&
      (journal.Some? ==> if s.path.Some? then journal == s.path else journal.value !in s.files)
    case Load(i) => !s.Owned()
    case Adopt(i, _) => s.Owner(i) && s.instances[i].reader.NotAdopted?
    case Close(i, _) => s.Owner(i) && s.instances[i].reader.Following? && !s.instances[i].reader.closed
    case Follow(i) => s.Owner(i) && s.instances[i].reader.Following?
    case Leave(i) => s.Owner(i) && s.instances[i].reader.Following?
    case Rollback(i, _) => i in s.instances && !s.Owned()
    case Shutdown(i, saved) => s.Owner(i) && s.instances[i].reader.Done? && Cut(s, i, saved)
    case Stop(i) => i in s.instances && !s.instances[i].owns
    case Crash(i) => i in s.instances
  }

  function Appended(s: System, x: Instance, e: Billing, how: Append): map<int, seq<Billing>> {
    if Lands(s, x, how) then s.files[x.writer.file := s.File(x.writer.file) + [e]] else s.files
  }

  /** A line break ends what was cut short. */
  function TornAfter(s: System, x: Instance, how: Append): set<int> {
    if !x.writer.Appending? || how.Refused? then s.torn
    else if how.Whole? then s.torn - {x.writer.file}
    else s.torn + {x.writer.file}
  }

  /** What the owner accounts for: its memory and what is still to be read. */
  function Accounted(s: System, i: int): Calls
    requires i in s.instances
  {
    s.instances[i].memory + Pending(s, s.instances[i].reader)
  }

  /** The files are the ledger now: what the owner accounted for beyond them is
      lost, and what they hold beyond it is counted again. */
  function GivenUp(s: System, i: int, saved: Calls): System
    requires i in s.instances
  {
    var found := saved + multiset(s.Journal());
    s.With(i, s.instances[i].(owns := false)).(
      disk := saved, lost := s.lost + (Accounted(s, i) - found), doubled := s.doubled + (found - Accounted(s, i)))
  }

  /** What an older instance accounts for once it has the files back: its
      memory, and the lines left at the path that its memory lacks. */
  function Regained(s: System, i: int, removed: bool): Calls
    requires i in s.instances
  {
    var x, lines := s.instances[i], multiset(s.Journal());
    if removed then x.memory else x.memory + (lines - lines * x.memory)
  }

  ghost function Next(s: System, step: Step): System
    requires Enabled(s, step)
  {
    match step
    case Bill(i, e, how) =>
      var x := s.instances[i];
      s.With(i, x.(memory := x.memory + multiset{e})).(
        files := Appended(s, x, e, how), torn := TornAfter(s, x, how), billed := s.billed + multiset{e},
        lost := if HeardFrom(s, x, how) then s.lost else s.lost + multiset{e},
        holder := if s.holder == Some(i) then s.holder else None)
    case Flush(i, saved) => s.(disk := saved)
    case Quiesce(i, file) =>
      // The cut is written, the journal opened for appending, the lock released.
      var x := s.instances[i];
      var f := if s.path.Some? then s.path.value else file;
      var t := GivenUp(s, i, x.memory);
      t.With(i, t.instances[i].(writer := Appending(f))).(
        files := s.files[f := s.File(f)], path := Some(f), holder := if x.memory == s.billed then Some(i) else None)
    case QuiesceFails(i, saved, journal, removed) =>
      // The files are kept. Resuming removes the journal if it was opened.
      var x := s.instances[i];
      if journal.None? then s.(disk := saved)
      else if removed then
        s.With(i, x.(reader := Done(multiset{}))).(disk := saved, path := None, lost := s.lost + Pending(s, x.reader))
      else s.(disk := saved, files := s.files[journal.value := s.File(journal.value)], path := journal)
    case Load(i) =>
      s.With(i, Instance(true, s.disk, NoWriter, NotAdopted)).(holder := if s.holder == Some(i) then None else s.holder)
    case Adopt(i, read) =>
      // A journal that cannot be read stays where it is.
      var x := s.instances[i];
      if s.path.None? || !read then s.With(i, x.(reader := Done(multiset{})))
      else s.With(i, x.(memory := x.memory + multiset(s.Journal()), reader := Following(s.path.value, |s.Journal()|, false)))
    case Close(i, renamed) =>
      // The cut holds the memory; whether the rename worked is not acted on.
      s.With(i, s.instances[i].(reader := s.instances[i].reader.(closed := true))).(
        disk := s.instances[i].memory, path := if renamed then None else s.path)
    case Follow(i) =>
      var x := s.instances[i];
      s.With(i, x.(memory := x.memory + Pending(s, x.reader), reader := x.reader.(read := |s.File(x.reader.file)|)))
    case Leave(i) =>
      // Told to stop, quiet for long enough, or the journal cannot be read.
      var x := s.instances[i];
      s.With(i, x.(reader := Done(Known(s, x.reader)))).(lost := if s.path.Some? then s.lost else s.lost + Pending(s, x.reader))
    case Rollback(i, removed) =>
      // The memory of this instance is the ledger again.
      var x, found := s.instances[i], Regained(s, i, removed);
      var known := if removed then multiset{} else multiset(s.Journal()) * x.memory;
      s.With(i, Instance(true, x.memory, NoWriter, Done(known))).(
        path := if removed then None else s.path, lost := s.billed - found, doubled := found - s.billed, holder := None)
    case Shutdown(i, saved) => GivenUp(s, i, saved)
    case Stop(i) => s.With(i, s.instances[i].(writer := Shut))
    case Crash(i) =>
      var t := if s.instances[i].owns then GivenUp(s, i, s.disk) else s;
      t.(instances := t.instances - {i}, holder := if s.holder == Some(i) then None else s.holder)
  }

  ghost predicate OneOwner(s: System) { forall i, j :: s.Owner(i) && s.Owner(j) ==> i == j }

  /** What the owner accounts for, or the files and the journal hold without
      one, is everything billed but for what is known to be lost or doubled. */
  ghost predicate Balanced(s: System) {
    && (forall i :: s.Owner(i) ==> Accounted(s, i) + s.lost == s.billed + s.doubled)
    && (!s.Owned() ==> s.disk + multiset(s.Journal()) + s.lost == s.billed + s.doubled)
  }

  /** Where a reader stands fits what lies at the path. */
  predicate Placed(s: System, r: Reader) {
    match r
    case NotAdopted => true
    case Following(f, n, closed) => n <= |s.File(f)| && (s.path == Some(f) || (closed && s.path.None?))
    case Done(known) => known <= multiset(s.Journal())
  }

  /** The owner appends to no journal, and stands where it can. */
  ghost predicate OwnersPlaced(s: System) {
    forall i :: s.Owner(i) ==> !s.instances[i].writer.Appending? && Placed(s, s.instances[i].reader)
  }

  predicate LinesBilled(s: System) { forall f :: f in s.files ==> multiset(s.files[f]) <= s.billed }

  predicate HolderHasAll(s: System) {
    s.holder.Some? ==>
      s.holder.value in s.instances && !s.instances[s.holder.value].owns && s.instances[s.holder.value].memory == s.billed
  }

  ghost predicate Shape(s: System) { OneOwner(s) && OwnersPlaced(s) && LinesBilled(s) && HolderHasAll(s) }

  ghost predicate Inv(s: System) { Shape(s) && Balanced(s) }

  // Lines and calls.

  lemma SplitAt(a: seq<Billing>, n: nat)
    requires n <= |a|
    ensures multiset(a[..n]) + multiset(a[n..]) == multiset(a)
  {
    assert a[..n] + a[n..] == a;
  }

  lemma TailAppend(a: seq<Billing>, n: nat, e: Billing)
    requires n <= |a|
    ensures multiset((a + [e])[n..]) == multiset(a[n..]) + multiset{e}
  {
    assert (a + [e])[n..] == a[n..] + [e];
  }

  lemma WholeAppend(a: seq<Billing>, e: Billing)
    ensures multiset(a + [e]) == multiset(a) + multiset{e}
  {}

  /** While the journal is at the path, its lines are those known and those
      pending. */
  lemma KnownAndPending(s: System, r: Reader)
    requires Placed(s, r) && (r.Following? ==> s.path.Some?)
    ensures Known(s, r) + Pending(s, r) == multiset(s.Journal())
  {
    if r.Following? {
      SplitAt(s.File(r.file), r.read);
    }
  }

  lemma OwnerIs(s: System, i: int)
    requires OneOwner(s) && s.Owner(i)
    ensures s.Owned() && forall j :: s.Owner(j) ==> j == i
  {}

  /** Only this instance can own the files after a step of its own. */
  lemma OneLeft(s: System, t: System, i: int)
    requires OneOwner(s) && (s.Owner(i) || !s.Owned())
    requires forall j :: j != i && j in t.instances ==> j in s.instances && t.instances[j] == s.instances[j]
    ensures forall j :: t.Owner(j) ==> j == i
    ensures !t.Owner(i) ==> !t.Owned()
  {
    forall j | t.Owner(j) ensures j == i {
      if j != i {
        assert s.Owner(j);
      }
    }
  }

  lemma TheOwner(s: System) returns (i: int)
    requires s.Owned()
    ensures s.Owner(i)
  {
    i :| s.Owner(i);
  }

  lemma OwnerPlaced(s: System, i: int)
    requires Shape(s) && s.Owner(i)
    ensures !s.instances[i].writer.Appending? && Placed(s, s.instances[i].reader)
  {}

  lemma ShapeParts(s: System)
    requires Inv(s)
    ensures OneOwner(s) && OwnersPlaced(s) && LinesBilled(s) && HolderHasAll(s) && Shape(s) && Balanced(s)
  {}

  /** One instance owns the files, and its accounts balance. */
  lemma OwnerInv(s: System, i: int)
    requires (forall j :: s.Owner(j) ==> j == i) && s.Owner(i) && LinesBilled(s) && HolderHasAll(s)
    requires !s.instances[i].writer.Appending? && Placed(s, s.instances[i].reader)
    requires Accounted(s, i) + s.lost == s.billed + s.doubled
    ensures Inv(s)
  {
    hide Placed, Accounted, LinesBilled, HolderHasAll;
  }

  lemma NobodyInv(s: System)
    requires !s.Owned() && LinesBilled(s) && HolderHasAll(s)
    requires s.disk + multiset(s.Journal()) + s.lost == s.billed + s.doubled
    ensures Inv(s)
  {}

  lemma LineBilled(s: System, f: int)
    requires LinesBilled(s)
    ensures multiset(s.File(f)) <= s.billed
  {}

  lemma NewFile(s: System, t: System, f: int)
    requires LinesBilled(s) && t.files == s.files[f := s.File(f)] && t.billed == s.billed
    ensures LinesBilled(t) && forall g :: t.File(g) == s.File(g)
  {
    LineBilled(s, f);
  }

  // Multisets.

  lemma Nothing(a: Calls)
    ensures a + multiset{} == a && multiset{} + a == a
  {}

  lemma Added(a: Calls, b: Calls)
    ensures a + b == a <==> b == multiset{}
  {
    if b != multiset{} {
      var e :| e in b;
      assert (a + b)[e] > a[e];
    }
  }

  lemma Differences(a: Calls, b: Calls)
    ensures b + (a - b) == a + (b - a)
  {
    forall e ensures (b + (a - b))[e] == (a + (b - a))[e] {}
  }

  /** One more call on both sides. */
  lemma OneMore(a: Calls, lost: Calls, billed: Calls, doubled: Calls, e: Billing)
    requires a + lost == billed + doubled
    ensures (a + multiset{e}) + lost == (billed + multiset{e}) + doubled && a + (lost + multiset{e}) == (billed + multiset{e}) + doubled
  {
    assert (a + multiset{e}) + lost == (a + lost) + multiset{e} && a + (lost + multiset{e}) == (a + lost) + multiset{e};
    assert (billed + multiset{e}) + doubled == (billed + doubled) + multiset{e};
  }

  /** The difference between what is found and what was accounted for moves
      into what is lost and what is doubled. */
  lemma Moved(a: Calls, found: Calls, lost: Calls, billed: Calls, doubled: Calls)
    requires a + lost == billed + doubled
    ensures found + (lost + (a - found)) == billed + (doubled + (found - a))
  {
    Differences(a, found);
    assert found + (lost + (a - found)) == (found + (a - found)) + lost;
    assert (a + (found - a)) + lost == (a + lost) + (found - a);
    assert billed + (doubled + (found - a)) == (billed + doubled) + (found - a);
  }

  /** What is found beyond what was accounted for, and the other way round. */
  lemma Surplus(memory: Calls, saved: Calls, known: Calls, pending: Calls)
    ensures (saved + (known + pending)) - (memory + pending) == (saved + known) - memory
    ensures (memory + pending) - (saved + (known + pending)) == memory - (saved + known)
  {}

  lemma NoDifference(a: Calls, b: Calls)
    ensures a - b == multiset{} && b - a == multiset{} <==> a == b
  {
    if a - b == multiset{} && b - a == multiset{} {
      forall e ensures a[e] == b[e] {
        assert (a - b)[e] == 0 && (b - a)[e] == 0;
      }
    }
  }

  // Every step keeps the accounts.

  /** What a line appended to one journal adds to what is pending. */
  lemma LinePends(s: System, t: System, r: Reader, f: int, e: Billing)
    requires Placed(s, r) && t.path == s.path && t.files == s.files[f := s.File(f) + [e]]
    ensures Placed(t, r) && Known(t, r) == Known(s, r)
    ensures Pending(t, r) == Pending(s, r) + if s.path == Some(f) || (r.Following? && r.file == f) then multiset{e} else multiset{}
  {
    hide System.File, System.Journal;
    PathAppended(s, t, f, e);
    match r
    case NotAdopted => Nothing(multiset(s.Journal()));
    case Following(g, n, closed) =>
      FileAppended(s, t, f, e, g, n);
      Nothing(Pending(s, r));
    case Done(known) =>
      LaterLess(multiset(s.Journal()), known, e);
      Nothing(multiset(s.Journal()) - known);
  }

  lemma FileAppended(s: System, t: System, f: int, e: Billing, g: int, n: nat)
    requires n <= |s.File(g)| && t.files == s.files[f := s.File(f) + [e]]
    ensures n <= |t.File(g)| && t.File(g)[..n] == s.File(g)[..n]
    ensures multiset(t.File(g)[n..]) == multiset(s.File(g)[n..]) + if f == g then multiset{e} else multiset{}
  {
    if f == g {
      TailAppend(s.File(f), n, e);
    }
  }

  lemma PathAppended(s: System, t: System, f: int, e: Billing)
    requires t.path == s.path && t.files == s.files[f := s.File(f) + [e]]
    ensures multiset(t.Journal()) == multiset(s.Journal()) + if s.path == Some(f) then multiset{e} else multiset{}
  {
    WholeAppend(s.File(f), e);
  }

  lemma LaterLess(a: Calls, b: Calls, e: Billing)
    requires b <= a
    ensures (a + multiset{e}) - b == (a - b) + multiset{e} && b <= a + multiset{e}
  {
    forall x ensures ((a + multiset{e}) - b)[x] == ((a - b) + multiset{e})[x] {
      assert b[x] <= a[x];
    }
  }

  lemma JournalSame(s: System, t: System)
    requires t.path == s.path && t.files == s.files
    ensures t.Journal() == s.Journal() && forall f :: t.File(f) == s.File(f)
  {}

  lemma NoJournal(s: System)
    requires s.path.None?
    ensures s.Journal() == [] && multiset(s.Journal()) == multiset{}
  {}

  lemma PendingSame(s: System, t: System, r: Reader)
    requires t.path == s.path && t.files == s.files
    ensures Pending(t, r) == Pending(s, r) && t.Journal() == s.Journal() && Known(t, r) == Known(s, r) && (Placed(t, r) <==> Placed(s, r))
  {
    hide System.File, System.Journal;
    JournalSame(s, t);
  }

  lemma BillParts(s: System, i: int, e: Billing, how: Append)
    requires Shape(s) && i in s.instances
    ensures var t := Next(s, Bill(i, e, how)); LinesBilled(t) && HolderHasAll(t) && forall j :: t.Owner(j) <==> s.Owner(j)
  {
    hide OneOwner, OwnersPlaced, HeardFrom;
    var t, x := Next(s, Bill(i, e, how)), s.instances[i];
    forall f | f in t.files ensures multiset(t.files[f]) <= t.billed {
      LineBilled(s, f);
      WholeAppend(s.File(f), e);
    }
  }

  lemma BillByOwner(s: System, i: int, e: Billing, how: Append)
    requires Inv(s) && s.Owner(i)
    ensures Inv(Next(s, Bill(i, e, how)))
  {
    hide LinesBilled, HolderHasAll, Pending, Placed;
    BillParts(s, i, e, how);
    OwnerIs(s, i);
    OwnerPlaced(s, i);
    var t := Next(s, Bill(i, e, how));
    PendingSame(s, t, s.instances[i].reader);
    assert Accounted(t, i) == Accounted(s, i) + multiset{e};
    OneMore(Accounted(s, i), s.lost, s.billed, s.doubled, e);
    assert forall j :: t.Owner(j) ==> s.Owner(j);
    OwnerInv(t, i);
  }

  /** A late call of an instance that gave the files up reaches the owner, or
      the next instance, exactly when its line lands in a journal that is
      heard. */
  lemma BillByOther(s: System, i: int, e: Billing, how: Append)
    requires Inv(s) && i in s.instances && !s.instances[i].owns
    ensures Inv(Next(s, Bill(i, e, how)))
    ensures Next(s, Bill(i, e, how)).lost == s.lost <==> HeardFrom(s, s.instances[i], how)
  {
    hide *;
    Added(s.lost, multiset{e});
    if s.Owned() {
      var j := TheOwner(s);
      LateToOwner(s, i, e, how, j);
    } else {
      LateToPath(s, i, e, how);
    }
    LateLost(s, i, e, how);
  }

  lemma LateLost(s: System, i: int, e: Billing, how: Append)
    requires i in s.instances
    ensures Next(s, Bill(i, e, how)).lost == if HeardFrom(s, s.instances[i], how) then s.lost else s.lost + multiset{e}
  {
    hide Heard;
  }

  lemma LateToOwner(s: System, i: int, e: Billing, how: Append, j: int)
    requires Inv(s) && i in s.instances && !s.instances[i].owns && s.Owner(j)
    ensures Inv(Next(s, Bill(i, e, how)))
  {
    hide LinesBilled, HolderHasAll, Pending, Placed, Known, OwnersPlaced;
    var t, x, r := Next(s, Bill(i, e, how)), s.instances[i], s.instances[j].reader;
    OwnerIs(s, j);
    OwnerPlaced(s, j);
    BillParts(s, i, e, how);
    HeardByOwner(s, j);
    if Lands(s, x, how) {
      LinePends(s, t, r, x.writer.file, e);
    } else {
      PendingSame(s, t, r);
      Nothing(Pending(s, r));
    }
    assert Pending(t, r) == Pending(s, r) + if HeardFrom(s, x, how) then multiset{e} else multiset{};
    assert Accounted(t, j) == Accounted(s, j) + if HeardFrom(s, x, how) then multiset{e} else multiset{};
    OneMore(Accounted(s, j), s.lost, s.billed, s.doubled, e);
    Nothing(Accounted(s, j));
    assert forall k :: t.Owner(k) ==> s.Owner(k);
    OwnerInv(t, j);
  }

  lemma HeardByOwner(s: System, j: int)
    requires OneOwner(s) && s.Owner(j)
    ensures var r := s.instances[j].reader;
      forall f :: Heard(s, f) <==> s.path == Some(f) || (r.Following? && r.file == f)
  {}

  lemma LateToPath(s: System, i: int, e: Billing, how: Append)
    requires Inv(s) && i in s.instances && !s.instances[i].owns && !s.Owned()
    ensures Inv(Next(s, Bill(i, e, how)))
  {
    hide LinesBilled, HolderHasAll, OwnersPlaced, OneOwner, HeardFrom, Accounted;
    var t, x, lines := Next(s, Bill(i, e, how)), s.instances[i], multiset(s.Journal());
    BillParts(s, i, e, how);
    assert forall j :: !s.Owner(j);
    PathHears(s, t, x, e, how);
    OneMore(s.disk + lines, s.lost, s.billed, s.doubled, e);
    assert (s.disk + lines) + multiset{e} == s.disk + (lines + multiset{e});
    Nothing(lines);
    NobodyInv(t);
  }

  lemma PathHears(s: System, t: System, x: Instance, e: Billing, how: Append)
    requires !s.Owned() && !x.owns && t.path == s.path && t.files == Appended(s, x, e, how)
    ensures multiset(t.Journal()) == multiset(s.Journal()) + if HeardFrom(s, x, how) then multiset{e} else multiset{}
  {
    if Lands(s, x, how) {
      PathAppended(s, t, x.writer.file, e);
    }
    Nothing(multiset(s.Journal()));
  }

  /** A line cut short loses its own call and, merged with it, the next one. */
  lemma TornLineLosesBoth(s: System, i: int, first: Billing, second: Billing)
    requires i in s.instances && !s.instances[i].owns && s.instances[i].writer.Appending?
    ensures var t := Next(Next(s, Bill(i, first, Torn)), Bill(i, second, Whole));
      t.files == s.files && t.lost == s.lost + multiset{first} + multiset{second} && s.instances[i].writer.file !in t.torn
  {
    hide Heard, System.File;
    var u := Next(s, Bill(i, first, Torn));
    assert u.instances[i].writer == s.instances[i].writer && !u.instances[i].owns && s.instances[i].writer.file in u.torn;
    LateLost(s, i, first, Torn);
    LateLost(u, i, second, Whole);
  }

  /** Giving the files up moves every difference into the accounts. */
  lemma GivenUpBalances(s: System, i: int, saved: Calls)
    requires Inv(s) && s.Owner(i)
    ensures var t := GivenUp(s, i, saved);
      !t.Owned() && HolderHasAll(t) && t.disk + multiset(t.Journal()) + t.lost == t.billed + t.doubled && t.Journal() == s.Journal()
  {
    hide Pending, LinesBilled, OwnersPlaced;
    OneLeft(s, GivenUp(s, i, saved), i);
    Moved(Accounted(s, i), saved + multiset(s.Journal()), s.lost, s.billed, s.doubled);
  }

  lemma QuiesceKeeps(s: System, i: int, file: int)
    requires Inv(s) && Enabled(s, Quiesce(i, file))
    ensures Inv(Next(s, Quiesce(i, file)))
  {
    hide *;
    var u := Next(s, Quiesce(i, file));
    OwnerEnabled(s, Quiesce(i, file), i);
    ShapeParts(s);
    GivenUpBalances(s, i, s.instances[i].memory);
    QuiesceGives(s, i, file);
    NobodyInv(u);
  }

  lemma OwnerEnabled(s: System, step: Step, i: int)
    requires Enabled(s, step) && step.i == i && (step.Quiesce? || step.QuiesceFails? || step.Shutdown?)
    ensures i in s.instances && s.Owner(i) && s.instances[i].reader.Done?
  {
    hide Cut;
  }

  lemma QuiesceGives(s: System, i: int, file: int)
    requires OneOwner(s) && LinesBilled(s) && Enabled(s, Quiesce(i, file))
    ensures var t, u := GivenUp(s, i, s.instances[i].memory), Next(s, Quiesce(i, file));
      && !u.Owned() && LinesBilled(u) && HolderHasAll(u) && u.Journal() == s.Journal()
      && u.disk == t.disk && u.lost == t.lost && u.billed == t.billed && u.doubled == t.doubled
  {
    hide LinesBilled, Accounted, System.Journal, System.File;
    var f := if s.path.Some? then s.path.value else file;
    var u := Next(s, Quiesce(i, file));
    OneLeft(s, u, i);
    NewFile(s, u, f);
    OpenedJournal(s, u, f);
  }

  /** Opening the journal for appending leaves what lies there. */
  lemma OpenedJournal(s: System, t: System, f: int)
    requires t.files == s.files[f := s.File(f)] && t.path == Some(f) && (if s.path.Some? then s.path == Some(f) else f !in s.files)
    ensures t.Journal() == s.Journal()
  {}

  /** A quiesce that fails before the journal is opened leaves the path alone,
      and so does one whose journal cannot be removed. */
  lemma KeptPathKeeps(s: System, i: int, saved: Calls, journal: Option<int>)
    requires Inv(s) && Enabled(s, QuiesceFails(i, saved, journal, false))
    ensures Inv(Next(s, QuiesceFails(i, saved, journal, false)))
  {
    hide OwnersPlaced, LinesBilled, HolderHasAll, Pending, Placed, Cut, System.File, System.Journal;
    ShapeParts(s);
    OneLeft(s, Next(s, QuiesceFails(i, saved, journal, false)), i);
    OwnerPlaced(s, i);
    var t, r := Next(s, QuiesceFails(i, saved, journal, false)), s.instances[i].reader;
    SameLines(s, t, journal);
    SameHolder(s, t);
    if journal.Some? {
      OpenedJournal(s, t, journal.value);
    } else {
      JournalSame(s, t);
    }
    DonePends(s, r.known);
    DonePends(t, r.known);
    OwnerInv(t, i);
  }

  lemma RemovedKeeps(s: System, i: int, saved: Calls, journal: Option<int>)
    requires Inv(s) && Enabled(s, QuiesceFails(i, saved, journal, true)) && journal.Some?
    ensures Inv(Next(s, QuiesceFails(i, saved, journal, true)))
  {
    hide OwnersPlaced, LinesBilled, Pending, Placed, Cut, System.File, System.Journal;
    ShapeParts(s);
    OneLeft(s, Next(s, QuiesceFails(i, saved, journal, true)), i);
    OwnerPlaced(s, i);
    var t, x := Next(s, QuiesceFails(i, saved, journal, true)), s.instances[i];
    SameLines(s, t, None);
    NoJournal(t);
    DonePends(t, multiset{});
    Nothing(x.memory);
    assert x.memory + (s.lost + Pending(s, x.reader)) == Accounted(s, i) + s.lost;
    OwnerInv(t, i);
  }

  lemma QuiesceFailsKeeps(s: System, i: int, saved: Calls, journal: Option<int>, removed: bool)
    requires Inv(s) && Enabled(s, QuiesceFails(i, saved, journal, removed))
    ensures Inv(Next(s, QuiesceFails(i, saved, journal, removed)))
  {
    hide Inv;
    if journal.Some? && removed {
      RemovedKeeps(s, i, saved, journal);
    } else {
      KeptPathKeeps(s, i, saved, journal);
    }
  }

  lemma SameLines(s: System, t: System, f: Option<int>)
    requires LinesBilled(s) && t.billed == s.billed && (t.files == s.files || (f.Some? && t.files == s.files[f.value := s.File(f.value)]))
    ensures LinesBilled(t)
  {
    if f.Some? {
      LineBilled(s, f.value);
    }
  }

  lemma LoadKeeps(s: System, i: int)
    requires Inv(s) && Enabled(s, Load(i))
    ensures Inv(Next(s, Load(i)))
  {
    hide OwnersPlaced, LinesBilled;
    ShapeParts(s);
    var t := Next(s, Load(i));
    SameLines(s, t, None);
    OneLeft(s, t, i);
    OwnerInv(t, i);
  }

  lemma AdoptKeeps(s: System, i: int, read: bool)
    requires Inv(s) && Enabled(s, Adopt(i, read))
    ensures Inv(Next(s, Adopt(i, read)))
  {
    hide OwnersPlaced, LinesBilled, Pending, Placed, System.File, System.Journal;
    ShapeParts(s);
    OneLeft(s, Next(s, Adopt(i, read)), i);
    var t, x := Next(s, Adopt(i, read)), s.instances[i];
    SameLines(s, t, None);
    JournalSame(s, t);
    NewPends(s, i);
    if s.path.None? || !read {
      DonePends(t, multiset{});
    } else {
      AllRead(t, s.path.value);
      Nothing(t.instances[i].memory);
    }
    OwnerInv(t, i);
  }

  lemma NewPends(s: System, i: int)
    requires Inv(s) && s.Owner(i) && s.instances[i].reader.NotAdopted?
    ensures Pending(s, s.instances[i].reader) == multiset(s.Journal()) && !s.instances[i].writer.Appending?
  {}

  /** A journal at the path read to its end. */
  lemma AllRead(s: System, f: int)
    requires s.path == Some(f)
    ensures var r := Following(f, |s.Journal()|, false); Placed(s, r) && Pending(s, r) == multiset{} && Known(s, r) == multiset(s.Journal())
  {
    var a := s.File(f);
    assert a[|a|..] == [] && a[..|a|] == a;
  }

  lemma CloseKeeps(s: System, i: int, renamed: bool)
    requires Inv(s) && Enabled(s, Close(i, renamed))
    ensures Inv(Next(s, Close(i, renamed)))
  {
    hide OwnersPlaced, LinesBilled;
    ShapeParts(s);
    OneLeft(s, Next(s, Close(i, renamed)), i);
    OwnerPlaced(s, i);
    SameLines(s, Next(s, Close(i, renamed)), None);
    OwnerInv(Next(s, Close(i, renamed)), i);
  }

  lemma FollowKeeps(s: System, i: int)
    requires Inv(s) && Enabled(s, Follow(i))
    ensures Inv(Next(s, Follow(i)))
  {
    hide OwnersPlaced, LinesBilled, Pending, Known, Placed, System.File, System.Journal;
    ShapeParts(s);
    OneLeft(s, Next(s, Follow(i)), i);
    OwnerPlaced(s, i);
    var t, r := Next(s, Follow(i)), s.instances[i].reader;
    SameLines(s, t, None);
    JournalSame(s, t);
    ReadOn(s, r);
    PendingSame(s, t, r.(read := |s.File(r.file)|));
    Nothing(t.instances[i].memory);
    OwnerInv(t, i);
  }

  /** Reading to the end knows what was pending. */
  lemma ReadOn(s: System, r: Reader)
    requires Placed(s, r) && r.Following?
    ensures var u := r.(read := |s.File(r.file)|);
      Placed(s, u) && Pending(s, u) == multiset{} && (s.path.Some? ==> Known(s, u) == Known(s, r) + Pending(s, r))
  {
    hide System.File, System.Journal;
    var a := s.File(r.file);
    SplitAt(a, r.read);
    assert a[..|a|] == a && a[|a|..] == [];
  }

  lemma LeaveKeeps(s: System, i: int)
    requires Inv(s) && Enabled(s, Leave(i))
    ensures Inv(Next(s, Leave(i)))
  {
    hide OwnersPlaced, LinesBilled, Known, Pending;
    ShapeParts(s);
    OneLeft(s, Next(s, Leave(i)), i);
    OwnerPlaced(s, i);
    var t, r := Next(s, Leave(i)), s.instances[i].reader;
    SameLines(s, t, None);
    LeavePends(s, t, r);
    OwnerInv(t, i);
  }

  lemma LeavePends(s: System, t: System, r: Reader)
    requires Placed(s, r) && r.Following? && t.files == s.files && t.path == s.path
    ensures Pending(t, Done(Known(s, r))) == if s.path.Some? then Pending(s, r) else multiset{}
    ensures Placed(t, Done(Known(s, r)))
  {
    hide Known, Pending;
    DonePends(t, Known(s, r));
    if s.path.Some? {
      KnownAndPending(s, r);
      assert (Known(s, r) + Pending(s, r)) - Known(s, r) == Pending(s, r);
    } else {
      assert Known(s, r) == multiset{} by { NothingKnown(s, r); }
    }
  }

  lemma DonePends(s: System, known: Calls)
    ensures Pending(s, Done(known)) == multiset(s.Journal()) - known && (Placed(s, Done(known)) <==> known <= multiset(s.Journal()))
    ensures known == multiset{} ==> Pending(s, Done(known)) == multiset(s.Journal()) && Placed(s, Done(known))
  {}

  lemma NothingKnown(s: System, r: Reader)
    requires Placed(s, r) && s.path.None?
    ensures Known(s, r) == multiset{}
  {}

  lemma RollbackKeeps(s: System, i: int, removed: bool)
    requires Inv(s) && Enabled(s, Rollback(i, removed))
    ensures Inv(Next(s, Rollback(i, removed)))
  {
    hide OwnersPlaced, LinesBilled, Pending, Placed, HolderHasAll, Balanced, System.File, System.Journal;
    ShapeParts(s);
    var t, memory, lines := Next(s, Rollback(i, removed)), s.instances[i].memory, multiset(s.Journal());
    SameLines(s, t, None);
    OneLeft(s, t, i);
    DonePends(t, t.instances[i].reader.known);
    if removed {
      NoJournal(t);
    } else {
      JournalSame(s, t);
      assert lines * memory <= lines;
    }
    Differences(s.billed, Accounted(t, i));
    assert HolderHasAll(t) by { NoHolder(t); }
    OwnerInv(t, i);
  }

  lemma NoHolder(s: System)
    requires s.holder.None?
    ensures HolderHasAll(s)
  {}

  lemma StopKeeps(s: System, i: int)
    requires Inv(s) && Enabled(s, Stop(i))
    ensures Inv(Next(s, Stop(i)))
  {
    StopLeaves(s, i);
    SameOwner(s, Next(s, Stop(i)));
  }

  /** The owner and the accounts are as they were. */
  ghost predicate SameOwners(s: System, t: System) {
    && t.files == s.files && t.path == s.path && t.disk == s.disk && t.billed == s.billed && t.lost == s.lost && t.doubled == s.doubled
    && HolderHasAll(t) && (forall j :: t.Owner(j) <==> s.Owner(j))
    && forall j :: s.Owner(j) ==> j in t.instances && t.instances[j] == s.instances[j]
  }

  lemma StopLeaves(s: System, i: int)
    requires HolderHasAll(s) && i in s.instances && !s.instances[i].owns
    ensures SameOwners(s, Next(s, Stop(i)))
  {}

  lemma CrashLeaves(s: System, i: int)
    requires HolderHasAll(s) && i in s.instances && !s.instances[i].owns
    ensures SameOwners(s, Next(s, Crash(i)))
  {}

  /** Stopping without owning the files changes nothing. */
  lemma SameOwner(s: System, t: System)
    requires Inv(s) && SameOwners(s, t)
    ensures Inv(t)
  {
    hide OwnersPlaced, LinesBilled, HolderHasAll, Pending, Placed, Known;
    ShapeParts(s);
    SameLines(s, t, None);
    if s.Owned() {
      var j := TheOwner(s);
      OwnerIs(s, j);
      OwnerPlaced(s, j);
      PendingSame(s, t, s.instances[j].reader);
      OwnerInv(t, j);
    } else {
      assert forall j :: !t.Owner(j);
      NobodyInv(t);
    }
  }

  lemma CrashKeeps(s: System, i: int)
    requires Inv(s) && Enabled(s, Crash(i))
    ensures Inv(Next(s, Crash(i)))
  {
    hide OwnersPlaced, LinesBilled, Pending, Accounted, Balanced, System.File, System.Journal;
    ShapeParts(s);
    var u := Next(s, Crash(i));
    if s.instances[i].owns {
      GivenUpBalances(s, i, s.disk);
      var t := GivenUp(s, i, s.disk);
      SameLines(s, u, None);
      OneLeft(s, u, i);
      JournalSame(t, u);
      NobodyInv(u);
    } else {
      CrashLeaves(s, i);
      SameOwner(s, u);
    }
  }

  lemma FlushKeeps(s: System, i: int, saved: Calls)
    requires Inv(s) && Enabled(s, Flush(i, saved))
    ensures Inv(Next(s, Flush(i, saved)))
  {
    hide OwnersPlaced, LinesBilled, HolderHasAll, Pending, Placed, Known;
    ShapeParts(s);
    OneLeft(s, Next(s, Flush(i, saved)), i);
    OwnerPlaced(s, i);
    var t := Next(s, Flush(i, saved));
    SameLines(s, t, None);
    PendingSame(s, t, s.instances[i].reader);
    assert HolderHasAll(t) by { SameHolder(s, t); }
    OwnerInv(t, i);
  }

  lemma SameHolder(s: System, t: System)
    requires HolderHasAll(s) && t.holder == s.holder && t.instances == s.instances && t.billed == s.billed
    ensures HolderHasAll(t)
  {}

  lemma ShutdownKeeps(s: System, i: int, saved: Calls)
    requires Inv(s) && Enabled(s, Shutdown(i, saved))
    ensures Inv(Next(s, Shutdown(i, saved)))
  {
    hide OwnersPlaced, LinesBilled, Pending;
    ShapeParts(s);
    GivenUpBalances(s, i, saved);
    SameLines(s, Next(s, Shutdown(i, saved)), None);
    NobodyInv(Next(s, Shutdown(i, saved)));
  }

  /** Every step, whatever of it fails, keeps one owner at most and the
      accounts balanced. */
  lemma StepKeepsInv(s: System, step: Step)
    requires Inv(s) && Enabled(s, step)
    ensures Inv(Next(s, step))
  {
    hide Inv, Next;
    match step
    case Bill(i, e, how) =>
      if s.instances[i].owns {
        BillByOwner(s, i, e, how);
      } else {
        BillByOther(s, i, e, how);
      }
    case Flush(i, saved) => FlushKeeps(s, i, saved);
    case Quiesce(i, file) => QuiesceKeeps(s, i, file);
    case QuiesceFails(i, saved, journal, removed) => QuiesceFailsKeeps(s, i, saved, journal, removed);
    case Load(i) => LoadKeeps(s, i);
    case Adopt(i, read) => AdoptKeeps(s, i, read);
    case Close(i, renamed) => CloseKeeps(s, i, renamed);
    case Follow(i) => FollowKeeps(s, i);
    case Leave(i) => LeaveKeeps(s, i);
    case Rollback(i, removed) => RollbackKeeps(s, i, removed);
    case Shutdown(i, saved) => ShutdownKeeps(s, i, saved);
    case Stop(i) => StopKeeps(s, i);
    case Crash(i) => CrashKeeps(s, i);
  }

  ghost predicate IsRun(run: seq<System>, steps: seq<Step>) {
    && |run| == |steps| + 1
    && forall k :: 0 <= k < |steps| ==> Enabled(run[k], steps[k]) && run[k + 1] == Next(run[k], steps[k])
  }

  /** A data directory no instance has open, with nothing to hand over. */
  predicate Start(s: System) {
    s.instances == map[] && s.files == map[] && s.torn == {} && s.path.None? && s.disk == s.billed && s.holder.None? && s.lost == s.doubled == multiset{}
  }

  /** In every run, whatever fails and wherever instances crash, at most one
      owns the files and the accounts balance. Where the files change hands
      the accounts take up the difference by definition; what the difference
      is, and when there is none, is said below for each step. */
  lemma {:induction false} EveryRunIsAccounted(run: seq<System>, steps: seq<Step>, k: nat)
    requires IsRun(run, steps) && Start(run[0]) && k < |run|
    ensures OneOwner(run[k]) && Balanced(run[k]) && Inv(run[k])
  {
    hide Next, Enabled;
    if k > 0 {
      EveryRunIsAccounted(run, steps, k - 1);
      var n := k - 1;
      assert Enabled(run[n], steps[n]) && run[n + 1] == Next(run[n], steps[n]);
      StepKeepsInv(run[n], steps[n]);
    }
  }

  // When a call is lost or counted again.

  /** Nothing is lost or doubled by this step. */
  ghost predicate Exact(s: System, step: Step)
    requires Enabled(s, step)
  {
    Next(s, step).lost == s.lost && Next(s, step).doubled == s.doubled
  }

  /** Giving the files up counts again exactly the lines at the path that the
      cut holds, and loses nothing: what an unfinished hand-over left there is
      read again by the next instance. */
  lemma QuiesceIsExactIff(s: System, i: int, file: int)
    requires Inv(s) && Enabled(s, Quiesce(i, file))
    ensures var t, known := Next(s, Quiesce(i, file)), s.instances[i].reader.known;
      t.lost == s.lost && t.doubled == s.doubled + known && (Exact(s, Quiesce(i, file)) <==> known == multiset{})
  {
    hide Next, Pending, LinesBilled, HolderHasAll, OwnersPlaced, Balanced, OneOwner, System.Journal;
    OwnerPlaced(s, i);
    QuiesceGives(s, i, file);
    var x := s.instances[i];
    KnownAndPending(s, x.reader);
    Surplus(x.memory, x.memory, x.reader.known, Pending(s, x.reader));
    assert (x.memory + x.reader.known) - x.memory == x.reader.known && x.memory - (x.memory + x.reader.known) == multiset{};
    Nothing(s.lost);
    Added(s.doubled, x.reader.known);
  }

  /** A shutdown gives the files up even when its last cut fails. Written, it
      counts again the lines at the path that it holds; failed, it is exact
      only if the files lack nothing but those. */
  lemma ShutdownIsExactIff(s: System, i: int, saved: Calls)
    requires Inv(s) && Enabled(s, Shutdown(i, saved))
    ensures Next(s, Shutdown(i, saved)).lost == s.lost + (s.instances[i].memory - (saved + s.instances[i].reader.known))
    ensures Next(s, Shutdown(i, saved)).doubled == s.doubled + ((saved + s.instances[i].reader.known) - s.instances[i].memory)
    ensures Exact(s, Shutdown(i, saved)) <==> saved + s.instances[i].reader.known == s.instances[i].memory
    ensures saved == s.instances[i].memory ==> (Exact(s, Shutdown(i, saved)) <==> s.instances[i].reader.known == multiset{})
  {
    hide Pending, LinesBilled, HolderHasAll, OwnersPlaced, Balanced, OneOwner, Cut, System.Journal, System.File;
    OwnerPlaced(s, i);
    var x := s.instances[i];
    KnownAndPending(s, x.reader);
    Surplus(x.memory, saved, x.reader.known, Pending(s, x.reader));
    Added(s.lost, x.memory - (saved + x.reader.known));
    Added(s.doubled, (saved + x.reader.known) - x.memory);
    NoDifference(x.memory, saved + x.reader.known);
    Added(x.memory, x.reader.known);
  }

  /** The files hold no line that still lies at the path, and no call the
      memory does not. */
  predicate Within(s: System, i: int)
    requires i in s.instances
  {
    s.disk + Known(s, s.instances[i].reader) <= s.instances[i].memory
  }

  /** Otherwise a crash now counts some calls again. */
  ghost predicate InWindow(s: System) { exists i :: s.Owner(i) && !Within(s, i) }

  /** Outside that window a crash counts nothing twice, and loses exactly what
      was billed and not saved, and the unread end of a renamed journal. */
  lemma CrashOutsideWindow(s: System, i: int)
    requires Inv(s) && s.Owner(i) && !InWindow(s)
    ensures var t, x := Next(s, Crash(i)), s.instances[i];
      && t.doubled == s.doubled
      && t.lost == s.lost + (x.memory - (s.disk + Known(s, x.reader))) + if s.path.Some? then multiset{} else Pending(s, x.reader)
  {
    hide Known, Pending, LinesBilled, HolderHasAll, Balanced;
    OwnerIs(s, i);
    OwnerPlaced(s, i);
    var x := s.instances[i];
    var known, pending := Known(s, x.reader), Pending(s, x.reader);
    assert Within(s, i);
    if s.path.Some? {
      KnownAndPending(s, x.reader);
      Surplus(x.memory, s.disk, known, pending);
      NoMore(s.disk + known, x.memory);
      Nothing(s.doubled);
      Nothing(s.lost + (x.memory - (s.disk + known)));
    } else {
      NothingKnown(s, x.reader);
      Unfollowed(x.memory, s.disk, pending);
      Nothing(s.disk);
      Nothing(s.doubled);
      assert s.lost + ((x.memory - s.disk) + pending) == s.lost + (x.memory - s.disk) + pending;
    }
  }

  lemma NoMore(a: Calls, b: Calls)
    requires a <= b
    ensures a - b == multiset{}
  {}

  lemma Unfollowed(memory: Calls, disk: Calls, pending: Calls)
    requires disk <= memory
    ensures (memory + pending) - disk == (memory - disk) + pending && disk - (memory + pending) == multiset{}
  {
    forall e ensures ((memory + pending) - disk)[e] == ((memory - disk) + pending)[e] && (disk - (memory + pending))[e] == 0 {
      assert disk[e] <= memory[e];
    }
  }

  /** A cut that may save lines of a journal which then still lies at the path,
      or an older instance taking over files that a newer one wrote. */
  predicate Opens(s: System, step: Step) {
    match step
    case Flush(i, _) => s.Owner(i) && Known(s, s.instances[i].reader) != multiset{}
    case Close(i, renamed) => s.Owner(i) && !renamed && Known(s, s.instances[i].reader) != multiset{}
    case QuiesceFails(i, _, journal, removed) =>
      s.Owner(i) && !(journal.Some? && removed) && Known(s, s.instances[i].reader) != multiset{}
    case Rollback(_, _) => true
    case _ => false
  }

  /** Nothing else opens the window. */
  lemma WindowOpens(s: System, step: Step)
    requires Inv(s) && Enabled(s, step) && !InWindow(s)
    ensures InWindow(Next(s, step)) ==> Opens(s, step)
  {
    hide Next, Balanced, Known, InWindow, Cut, OwnersPlaced, HolderHasAll, LinesBilled;
    match step
    case Bill(i, e, how) => BillStaysOut(s, i, e, how);
    case Flush(i, saved) =>
      if Known(s, s.instances[i].reader) == multiset{} {
        FlushStaysOut(s, i, saved);
      }
    case QuiesceFails(i, saved, journal, removed) =>
      if (journal.Some? && removed) || Known(s, s.instances[i].reader) == multiset{} {
        ResumeStaysOut(s, i, saved, journal, removed);
      }
    case Close(i, renamed) =>
      if renamed || Known(s, s.instances[i].reader) == multiset{} {
        CloseStaysOut(s, i, renamed);
      }
    case Quiesce(i, file) => NobodyLeft(s, step);
    case Load(i) => LoadStaysOut(s, i);
    case Adopt(i, read) => AdoptStaysOut(s, i, read);
    case Follow(i) => FollowStaysOut(s, i);
    case Leave(i) => LeaveStaysOut(s, i);
    case Rollback(i, removed) =>
    case Shutdown(i, saved) => NobodyLeft(s, step);
    case Stop(i) =>
      StopLeaves(s, i);
      StopStaysOut(s, Next(s, step));
    case Crash(i) =>
      if s.instances[i].owns {
        NobodyLeft(s, step);
      } else {
        CrashLeaves(s, i);
        StopStaysOut(s, Next(s, step));
      }
  }

  lemma OnlyOwnerOut(s: System, i: int)
    requires (forall j :: s.Owner(j) ==> j == i) && (s.Owner(i) ==> Within(s, i))
    ensures !InWindow(s)
  {
    hide Within;
  }

  lemma IsWithin(s: System, i: int)
    requires s.Owner(i) && !InWindow(s)
    ensures Within(s, i) && s.disk <= s.instances[i].memory
  {
    hide Known;
    assert Within(s, i);
    assert s.disk <= s.disk + Known(s, s.instances[i].reader);
  }

  lemma NobodyLeft(s: System, step: Step)
    requires OneOwner(s) && Enabled(s, step) && (step.Quiesce? || step.Shutdown? || (step.Crash? && s.Owner(step.i)))
    ensures !InWindow(Next(s, step))
  {
    hide Within, Pending;
    OneLeft(s, Next(s, step), step.i);
  }

  lemma BillStaysOut(s: System, i: int, e: Billing, how: Append)
    requires Shape(s) && Enabled(s, Bill(i, e, how)) && !InWindow(s)
    ensures !InWindow(Next(s, Bill(i, e, how)))
  {
    hide HeardFrom, LinesBilled, OwnersPlaced, HolderHasAll, Placed, Known;
    var t := Next(s, Bill(i, e, how));
    assert forall j :: t.Owner(j) <==> s.Owner(j);
    if s.Owned() {
      var j := TheOwner(s);
      OwnerIs(s, j);
      OwnerPlaced(s, j);
      IsWithin(s, j);
      if Lands(s, s.instances[i], how) {
        LinePends(s, t, s.instances[j].reader, s.instances[i].writer.file, e);
      } else {
        PendingSame(s, t, s.instances[j].reader);
      }
      assert s.instances[j].memory <= t.instances[j].memory;
      OnlyOwnerOut(t, j);
    } else {
      assert !t.Owner(i);
      OnlyOwnerOut(t, i);
    }
  }

  lemma CutWithin(s: System, i: int, saved: Calls)
    requires s.Owner(i) && Cut(s, i, saved) && !InWindow(s)
    ensures saved <= s.instances[i].memory
  {
    hide Within, InWindow;
    IsWithin(s, i);
    forall e ensures saved[e] <= s.instances[i].memory[e] {
      assert s.disk[e] <= s.instances[i].memory[e];
    }
  }

  lemma FlushStaysOut(s: System, i: int, saved: Calls)
    requires OneOwner(s) && Enabled(s, Flush(i, saved)) && !InWindow(s) && Known(s, s.instances[i].reader) == multiset{}
    ensures !InWindow(Next(s, Flush(i, saved)))
  {
    hide Known, InWindow, Cut;
    OneLeft(s, Next(s, Flush(i, saved)), i);
    CutWithin(s, i, saved);
    PendingSame(s, Next(s, Flush(i, saved)), s.instances[i].reader);
    Nothing(saved);
    OnlyOwnerOut(Next(s, Flush(i, saved)), i);
  }

  lemma ResumeStaysOut(s: System, i: int, saved: Calls, journal: Option<int>, removed: bool)
    requires OneOwner(s) && Enabled(s, QuiesceFails(i, saved, journal, removed)) && !InWindow(s)
    requires (journal.Some? && removed) || Known(s, s.instances[i].reader) == multiset{}
    ensures !InWindow(Next(s, QuiesceFails(i, saved, journal, removed)))
  {
    hide InWindow, Cut;
    OneLeft(s, Next(s, QuiesceFails(i, saved, journal, removed)), i);
    CutWithin(s, i, saved);
    Nothing(saved);
    OnlyOwnerOut(Next(s, QuiesceFails(i, saved, journal, removed)), i);
  }

  /** Closing the journal ends the window. */
  lemma CloseStaysOut(s: System, i: int, renamed: bool)
    requires OneOwner(s) && Enabled(s, Close(i, renamed)) && (renamed || Known(s, s.instances[i].reader) == multiset{})
    ensures !InWindow(Next(s, Close(i, renamed)))
  {
    hide InWindow;
    OneLeft(s, Next(s, Close(i, renamed)), i);
    Nothing(s.instances[i].memory);
    OnlyOwnerOut(Next(s, Close(i, renamed)), i);
  }

  lemma LoadStaysOut(s: System, i: int)
    requires OneOwner(s) && Enabled(s, Load(i))
    ensures !InWindow(Next(s, Load(i)))
  {
    Nothing(s.disk);
    OneLeft(s, Next(s, Load(i)), i);
    OnlyOwnerOut(Next(s, Load(i)), i);
  }

  lemma AdoptStaysOut(s: System, i: int, read: bool)
    requires OneOwner(s) && Enabled(s, Adopt(i, read)) && !InWindow(s)
    ensures !InWindow(Next(s, Adopt(i, read)))
  {
    hide InWindow;
    OneLeft(s, Next(s, Adopt(i, read)), i);
    IsWithin(s, i);
    Nothing(s.disk);
    assert s.Journal()[..|s.Journal()|] == s.Journal();
    OnlyOwnerOut(Next(s, Adopt(i, read)), i);
  }

  lemma FollowStaysOut(s: System, i: int)
    requires Shape(s) && Enabled(s, Follow(i)) && !InWindow(s)
    ensures !InWindow(Next(s, Follow(i)))
  {
    hide InWindow, OwnersPlaced, LinesBilled, HolderHasAll, Known, Pending, Placed, System.File, System.Journal;
    OneLeft(s, Next(s, Follow(i)), i);
    OwnerPlaced(s, i);
    IsWithin(s, i);
    var t, x := Next(s, Follow(i)), s.instances[i];
    var u := x.reader.(read := |s.File(x.reader.file)|);
    ReadOn(s, x.reader);
    PendingSame(s, t, u);
    if s.path.Some? {
      assert s.disk + (Known(s, x.reader) + Pending(s, x.reader)) == (s.disk + Known(s, x.reader)) + Pending(s, x.reader);
    } else {
      NothingKnown(s, u);
      Nothing(s.disk);
      assert x.memory <= t.instances[i].memory;
    }
    OnlyOwnerOut(t, i);
  }

  lemma LeaveStaysOut(s: System, i: int)
    requires OneOwner(s) && Enabled(s, Leave(i)) && !InWindow(s)
    ensures !InWindow(Next(s, Leave(i)))
  {
    hide InWindow, Pending;
    OneLeft(s, Next(s, Leave(i)), i);
    IsWithin(s, i);
    OnlyOwnerOut(Next(s, Leave(i)), i);
  }

  lemma StopStaysOut(s: System, t: System)
    requires OneOwner(s) && SameOwners(s, t) && !InWindow(s)
    ensures !InWindow(t)
  {
    hide InWindow, Known, Pending, HolderHasAll;
    if s.Owned() {
      var j := TheOwner(s);
      OwnerIs(s, j);
      IsWithin(s, j);
      PendingSame(s, t, s.instances[j].reader);
      OnlyOwnerOut(t, j);
    } else {
      assert !s.Owner(0);
      assert forall j :: !t.Owner(j);
      OnlyOwnerOut(t, 0);
    }
  }

  /** An instance that had everything when it gave the files up, and was the
      only one to bill since, has everything when it takes them back, whether
      or not its journal can be removed. */
  lemma RollbackRestores(s: System, i: int, removed: bool)
    requires Inv(s) && Enabled(s, Rollback(i, removed)) && s.holder == Some(i)
    ensures var t := Next(s, Rollback(i, removed));
      t.lost == t.doubled == multiset{} && t.instances[i].memory == t.billed && Pending(t, t.instances[i].reader) == multiset{}
  {
    hide OneOwner, OwnersPlaced, LinesBilled, Balanced, Known, Pending, Placed, System.File, System.Journal;
    ShapeParts(s);
    var t, memory, lines := Next(s, Rollback(i, removed)), s.instances[i].memory, multiset(s.Journal());
    JournalBilled(s);
    assert lines * memory == lines && lines - lines == multiset{};
    Nothing(memory);
    NoDifference(memory, memory);
    DonePends(t, t.instances[i].reader.known);
    if removed {
      NoJournal(t);
    } else {
      JournalSame(s, t);
    }
  }

  lemma JournalBilled(s: System)
    requires LinesBilled(s)
    ensures multiset(s.Journal()) <= s.billed
  {
    if s.path.Some? {
      LineBilled(s, s.path.value);
    }
  }

  // Runs that count every call once.

  /** What a step needs to be exact, as it can be seen beforehand. */
  ghost predicate Clean(s: System, step: Step)
    requires Enabled(s, step)
  {
    match step
    case Bill(i, e, how) => HeardFrom(s, s.instances[i], how)
    case Quiesce(i, _) => s.instances[i].reader.known == multiset{}
    case QuiesceFails(i, _, journal, removed) => journal.Some? && removed ==> Pending(s, s.instances[i].reader) == multiset{}
    case Leave(i) => s.path.None? ==> Pending(s, s.instances[i].reader) == multiset{}
    case Shutdown(i, saved) => saved + s.instances[i].reader.known == s.instances[i].memory
    case Rollback(i, removed) => Regained(s, i, removed) == s.billed
    case Crash(i) => s.instances[i].owns ==> var x := s.instances[i];
      if s.path.Some? then s.disk + Known(s, x.reader) == x.memory else s.disk == x.memory + Pending(s, x.reader)
    case _ => true
  }

  /** Exactly those steps neither lose a call nor count one again. A rollback
      starts the accounts anew: exactly those leave nothing lost or doubled. */
  lemma StepIsExactIff(s: System, step: Step)
    requires Inv(s) && Enabled(s, step)
    ensures !step.Rollback? ==> (Exact(s, step) <==> Clean(s, step))
    ensures step.Rollback? ==> (Next(s, step).lost == Next(s, step).doubled == multiset{} <==> Clean(s, step))
  {
    hide Shape, Inv, Balanced, Pending, Known, Cut, Accounted, HeardFrom, Appended, System.File, System.Journal;
    match step
    case Bill(i, e, how) => Added(s.lost, multiset{e});
    case Quiesce(i, file) => QuiesceIsExactIff(s, i, file);
    case QuiesceFails(i, saved, journal, removed) =>
      QuiesceFailsGives(s, i, saved, journal, removed);
      Added(s.lost, Pending(s, s.instances[i].reader));
    case Leave(i) => Added(s.lost, Pending(s, s.instances[i].reader));
    case Shutdown(i, saved) => ShutdownIsExactIff(s, i, saved);
    case Rollback(i, removed) => RollbackIsExactIff(s, i, removed);
    case Crash(i) =>
      if s.instances[i].owns {
        CrashIsExactIff(s, i);
      }
    case _ => PlainIsExact(s, step);
  }

  /** A rollback leaves nothing lost or doubled exactly when the memory of the
      older instance and what it still finds at the path are all that was
      billed. */
  lemma RollbackIsExactIff(s: System, i: int, removed: bool)
    requires Enabled(s, Rollback(i, removed))
    ensures var t := Next(s, Rollback(i, removed));
      t.lost == t.doubled == multiset{} <==> Regained(s, i, removed) == s.billed
  {
    hide Regained, System.Journal, System.File;
    NoDifference(s.billed, Regained(s, i, removed));
  }

  lemma PlainIsExact(s: System, step: Step)
    requires Enabled(s, step)
    requires step.Flush? || step.Load? || step.Adopt? || step.Close? || step.Follow? || step.Stop?
    ensures Exact(s, step) && Clean(s, step)
  {
    hide Pending, Known, Cut, System.File, System.Journal;
  }

  lemma QuiesceFailsGives(s: System, i: int, saved: Calls, journal: Option<int>, removed: bool)
    requires Enabled(s, QuiesceFails(i, saved, journal, removed))
    ensures var t := Next(s, QuiesceFails(i, saved, journal, removed));
      t.doubled == s.doubled && t.lost == if journal.Some? && removed then s.lost + Pending(s, s.instances[i].reader) else s.lost
  {
    hide Cut, Pending, System.File, System.Journal;
  }

  lemma CrashIsExactIff(s: System, i: int)
    requires Inv(s) && s.Owner(i)
    ensures Exact(s, Crash(i)) <==> Clean(s, Crash(i))
  {
    hide Pending, Known, Balanced, OwnersPlaced, LinesBilled, HolderHasAll, Placed, System.File, System.Journal;
    OwnerPlaced(s, i);
    var x := s.instances[i];
    var known, pending, found := Known(s, x.reader), Pending(s, x.reader), s.disk + multiset(s.Journal());
    Added(s.lost, Accounted(s, i) - found);
    Added(s.doubled, found - Accounted(s, i));
    if s.path.Some? {
      KnownAndPending(s, x.reader);
      Surplus(x.memory, s.disk, known, pending);
      NoDifference(x.memory, s.disk + known);
    } else {
      NoJournal(s);
      Nothing(s.disk);
      NoDifference(x.memory + pending, s.disk);
    }
  }

  /** In every run of such steps, however many instances follow one another
      and whatever else fails, the owner's memory and the journal lines still
      to be read hold every billed call exactly once; without an owner the
      files and the journal do. */
  lemma {:induction false} EveryHandoverIsExact(run: seq<System>, steps: seq<Step>, k: nat)
    requires IsRun(run, steps) && Start(run[0]) && k < |run|
    requires forall n :: 0 <= n < |steps| ==> Clean(run[n], steps[n])
    ensures OneOwner(run[k]) && run[k].lost == run[k].doubled == multiset{}
    ensures forall i :: run[k].Owner(i) ==> Accounted(run[k], i) == run[k].billed
    ensures !run[k].Owned() ==> run[k].disk + multiset(run[k].Journal()) == run[k].billed
  {
    hide Next, Enabled, Clean, Accounted;
    EveryRunIsAccounted(run, steps, k);
    forall i | run[k].Owner(i) ensures Accounted(run[k], i) + multiset{} == Accounted(run[k], i) {
      Nothing(Accounted(run[k], i));
    }
    Nothing(run[k].billed);
    Nothing(run[k].disk + multiset(run[k].Journal()));
    if k > 0 {
      var n := k - 1;
      EveryHandoverIsExact(run, steps, n);
      EveryRunIsAccounted(run, steps, n);
      assert Enabled(run[n], steps[n]) && run[n + 1] == Next(run[n], steps[n]) && Clean(run[n], steps[n]);
      StepIsExactIff(run[n], steps[n]);
    }
  }

  /** Once nothing is left to read, memory is all that was billed. */
  lemma ReadToTheEnd(s: System, i: int)
    requires Inv(s) && s.lost == s.doubled == multiset{} && s.Owner(i) && Pending(s, s.instances[i].reader) == multiset{}
    ensures s.instances[i].memory == s.billed
  {
    hide Pending;
    Nothing(s.instances[i].memory);
    Nothing(s.billed);
  }

  // A journal that could not be closed.

  /** Instance i gives the files up, and instance j, which loads next, holds
      these calls once it has replayed the journal. */
  ghost predicate NextHolds(s: System, i: int, file: int, j: int, calls: Calls) {
    Enabled(s, Quiesce(i, file)) && var t := Next(s, Quiesce(i, file));
    Enabled(t, Load(j)) && var u := Next(t, Load(j));
    Enabled(u, Adopt(j, true)) && var v := Next(u, Adopt(j, true));
    j in v.instances && v.instances[j].memory == calls
  }

  /** Its cut or its rename failed, the owner's own quiesce writes a cut all
      the same, and the next instance counts every line of that journal a
      second time. */
  lemma UnclosedJournalDoubles(s: System, i: int, file: int, j: int)
    requires Inv(s) && Enabled(s, Quiesce(i, file)) && s.instances[i].reader.known == multiset(s.Journal()) && j !in s.instances
    ensures NextHolds(s, i, file, j, s.instances[i].memory + multiset(s.Journal()))
  {
    var t := Next(s, Quiesce(i, file));
    OneLeft(s, t, i);
    assert t.path.Some? && t.Journal() == s.Journal();
    assert Enabled(t, Load(j));
  }

  /** A replacement whose rename fails, state by state: the older instance
      loads, adopts nothing, quiesces and bills a late call; the newer one
      loads, replays it, writes its cut and stops following. */
  function Replaced(e: Billing, k: nat): System {
    var none, one: Calls := multiset{}, multiset{e};
    var older := Instance(false, one, Appending(0), Done(none));
    var newer := Instance(true, one, NoWriter, Following(0, 1, false));
    var empty := System(map[], none, map[], {}, None, none, none, none, None);
    var handed := System(map[0 := older], none, map[0 := [e]], {}, Some(0), one, none, none, Some(0));
    if k == 0 then empty
    else if k == 1 then empty.(instances := map[0 := Instance(true, none, NoWriter, NotAdopted)])
    else if k == 2 then empty.(instances := map[0 := Instance(true, none, NoWriter, Done(none))])
    else if k == 3 then handed.(instances := map[0 := older.(memory := none)], files := map[0 := []], billed := none)
    else if k == 4 then handed
    else if k == 5 then handed.(instances := map[0 := older, 1 := Instance(true, none, NoWriter, NotAdopted)])
    else if k == 6 then handed.(instances := map[0 := older, 1 := newer])
    else if k == 7 then handed.(instances := map[0 := older, 1 := newer.(reader := Following(0, 1, true))], disk := one)
    else handed.(instances := map[0 := older, 1 := newer.(reader := Done(one))], disk := one)
  }

  lemma FirstLoads(e: Billing)
    ensures Enabled(Replaced(e, 0), Load(0)) && Next(Replaced(e, 0), Load(0)) == Replaced(e, 1)
    ensures Enabled(Replaced(e, 1), Adopt(0, true)) && Next(Replaced(e, 1), Adopt(0, true)) == Replaced(e, 2)
  {
    assert forall i :: !Replaced(e, 0).Owner(i);
  }

  lemma FirstQuiesces(e: Billing)
    ensures Enabled(Replaced(e, 2), Quiesce(0, 0)) && Next(Replaced(e, 2), Quiesce(0, 0)) == Replaced(e, 3)
  {
    Nothing(multiset{});
  }

  lemma LateStep(e: Billing)
    ensures Enabled(Replaced(e, 3), Bill(0, e, Whole)) && Next(Replaced(e, 3), Bill(0, e, Whole)) == Replaced(e, 4)
  {
    var s, t := Replaced(e, 3), Next(Replaced(e, 3), Bill(0, e, Whole));
    assert HeardFrom(s, s.instances[0], Whole);
    Nothing(multiset{e});
    assert t.files == map[0 := [] + [e]] && [] + [e] == [e];
    assert t.instances == map[0 := Instance(false, multiset{e}, Appending(0), Done(multiset{}))];
  }

  lemma SecondLoads(e: Billing)
    ensures Enabled(Replaced(e, 4), Load(1)) && Next(Replaced(e, 4), Load(1)) == Replaced(e, 5)
  {
    assert forall i :: !Replaced(e, 4).Owner(i);
    assert Next(Replaced(e, 4), Load(1)).instances == Replaced(e, 5).instances;
  }

  lemma SecondAdopts(e: Billing)
    ensures Enabled(Replaced(e, 5), Adopt(1, true)) && Next(Replaced(e, 5), Adopt(1, true)) == Replaced(e, 6)
  {
    Nothing(multiset{e});
    assert multiset([e]) == multiset{e};
    assert Next(Replaced(e, 5), Adopt(1, true)).instances == Replaced(e, 6).instances;
  }

  lemma SecondCloses(e: Billing)
    ensures Enabled(Replaced(e, 6), Close(1, false)) && Next(Replaced(e, 6), Close(1, false)) == Replaced(e, 7)
  {
    assert Next(Replaced(e, 6), Close(1, false)).instances == Replaced(e, 7).instances;
  }

  lemma SecondLeaves(e: Billing)
    ensures Enabled(Replaced(e, 7), Leave(1)) && Next(Replaced(e, 7), Leave(1)) == Replaced(e, 8)
  {
    assert [e][..1] == [e];
    assert Known(Replaced(e, 7), Following(0, 1, true)) == multiset{e};
    assert Next(Replaced(e, 7), Leave(1)).instances == Replaced(e, 8).instances;
  }

  /** This happens, and when the newer instance is replaced in turn, the third
      one holds the call twice. */
  lemma UnclosedJournalHappens(e: Billing) returns (run: seq<System>, steps: seq<Step>)
    ensures IsRun(run, steps) && |steps| == 8 && Start(run[0])
    ensures var s := run[8];
      && Inv(s) && s.billed == multiset{e} && 1 in s.instances && s.instances[1].memory == s.billed && s.Journal() == [e]
      && 2 !in s.instances && NextHolds(s, 1, 1, 2, multiset{e, e})
  {
    hide *;
    run, steps := [Replaced(e, 0)], [];
    ARun(run);
    FirstLoads(e);
    FirstQuiesces(e);
    run, steps := Longer(run, steps, Load(0), Replaced(e, 1));
    run, steps := Longer(run, steps, Adopt(0, true), Replaced(e, 2));
    run, steps := Longer(run, steps, Quiesce(0, 0), Replaced(e, 3));
    LateStep(e);
    run, steps := Longer(run, steps, Bill(0, e, Whole), Replaced(e, 4));
    SecondLoads(e);
    run, steps := Longer(run, steps, Load(1), Replaced(e, 5));
    SecondAdopts(e);
    run, steps := Longer(run, steps, Adopt(1, true), Replaced(e, 6));
    SecondCloses(e);
    run, steps := Longer(run, steps, Close(1, false), Replaced(e, 7));
    SecondLeaves(e);
    run, steps := Longer(run, steps, Leave(1), Replaced(e, 8));
    EmptyStarts(e);
    EveryRunIsAccounted(run, steps, 8);
    LastOfThem(e);
    UnclosedJournalDoubles(run[8], 1, 1, 2);
  }

  lemma ARun(run: seq<System>)
    requires |run| == 1
    ensures IsRun(run, [])
  {}

  lemma Longer(run: seq<System>, steps: seq<Step>, step: Step, next: System) returns (longer: seq<System>, taken: seq<Step>)
    requires IsRun(run, steps) && |run| == |steps| + 1 && Enabled(run[|steps|], step) && Next(run[|steps|], step) == next
    ensures IsRun(longer, taken) && |longer| == |run| + 1 == |taken| + 1 && longer[0] == run[0] && longer[|taken|] == next
  {
    hide Next, Enabled;
    longer, taken := run + [next], steps + [step];
  }

  lemma EmptyStarts(e: Billing)
    ensures Start(Replaced(e, 0))
  {}

  lemma LastOfThem(e: Billing)
    ensures var s := Replaced(e, 8);
      && s.billed == multiset{e} && 1 in s.instances && s.instances[1].memory == s.billed && s.Journal() == [e] && 2 !in s.instances
      && Enabled(s, Quiesce(1, 1)) && s.instances[1].reader.known == multiset(s.Journal())
      && s.instances[1].memory + multiset(s.Journal()) == multiset{e, e}
  {}

  // A rollback that comes too late.

  /** The older instance quiesces; the newer one takes over, bills a call and
      shuts down. */
  function Superseded(e: Billing, k: nat): System {
    var none, one: Calls := multiset{}, multiset{e};
    var quiesced := Replaced(e, 3);
    var older := Instance(false, none, Appending(0), Done(none));
    if k <= 3 then Replaced(e, k)
    else if k == 4 then quiesced.(instances := map[0 := older, 1 := Instance(true, none, NoWriter, NotAdopted)])
    else if k == 5 then quiesced.(instances := map[0 := older, 1 := Instance(true, none, NoWriter, Following(0, 0, false))])
    else
      var billed := quiesced.(billed := one, holder := None);
      if k == 6 then billed.(instances := map[0 := older, 1 := Instance(true, one, NoWriter, Following(0, 0, false))])
      else if k == 7 then billed.(instances := map[0 := older, 1 := Instance(true, one, NoWriter, Done(none))])
      else billed.(instances := map[0 := older, 1 := Instance(false, one, NoWriter, Done(none))], disk := one)
  }

  lemma NewerTakesOver(e: Billing)
    ensures Enabled(Superseded(e, 3), Load(1)) && Next(Superseded(e, 3), Load(1)) == Superseded(e, 4)
    ensures Enabled(Superseded(e, 4), Adopt(1, true)) && Next(Superseded(e, 4), Adopt(1, true)) == Superseded(e, 5)
  {
    assert forall i :: !Superseded(e, 3).Owner(i);
    assert Next(Superseded(e, 3), Load(1)).instances == Superseded(e, 4).instances;
    Nothing(multiset{});
    assert Next(Superseded(e, 4), Adopt(1, true)).instances == Superseded(e, 5).instances;
  }

  lemma NewerBills(e: Billing)
    ensures Enabled(Superseded(e, 5), Bill(1, e, Refused)) && Next(Superseded(e, 5), Bill(1, e, Refused)) == Superseded(e, 6)
  {
    Nothing(multiset{e});
    assert Next(Superseded(e, 5), Bill(1, e, Refused)).instances == Superseded(e, 6).instances;
  }

  lemma NewerLeaves(e: Billing)
    ensures Enabled(Superseded(e, 6), Leave(1)) && Next(Superseded(e, 6), Leave(1)) == Superseded(e, 7)
  {
    assert Known(Superseded(e, 6), Following(0, 0, false)) == multiset{};
    assert Next(Superseded(e, 6), Leave(1)).instances == Superseded(e, 7).instances;
  }

  lemma GivenUpWhole(s: System, i: int, saved: Calls)
    requires i in s.instances && Accounted(s, i) == saved + multiset(s.Journal())
    ensures GivenUp(s, i, saved) == s.With(i, s.instances[i].(owns := false)).(disk := saved)
  {
    hide System.Journal, Accounted;
    NoDifference(Accounted(s, i), saved + multiset(s.Journal()));
  }

  lemma NewerIsDone(e: Billing)
    ensures var s := Superseded(e, 7);
      && 1 in s.instances && Accounted(s, 1) == multiset{e} == multiset{e} + multiset(s.Journal())
      && Enabled(s, Shutdown(1, multiset{e}))
  {
    var s := Superseded(e, 7);
    assert s.Journal() == [];
    Nothing(multiset{e});
  }

  lemma NewerLetsGo(e: Billing)
    ensures var s := Superseded(e, 7);
      1 in s.instances && s.With(1, s.instances[1].(owns := false)).(disk := multiset{e}) == Superseded(e, 8)
  {
    var s := Superseded(e, 7);
    assert s.instances[1 := s.instances[1].(owns := false)] == Superseded(e, 8).instances;
  }

  lemma NewerShutsDown(e: Billing)
    ensures Enabled(Superseded(e, 7), Shutdown(1, multiset{e})) && Next(Superseded(e, 7), Shutdown(1, multiset{e})) == Superseded(e, 8)
  {
    hide Enabled, GivenUp, Superseded, System.Journal, Accounted;
    NewerIsDone(e);
    GivenUpWhole(Superseded(e, 7), 1, multiset{e});
    NewerLetsGo(e);
  }

  /** Rolled back after a newer instance billed and shut down, an older one
      loses what that billed, although every step before was exact. */
  lemma LateRollbackLoses(e: Billing, removed: bool) returns (run: seq<System>, steps: seq<Step>)
    ensures IsRun(run, steps) && |steps| == 8 && Start(run[0]) && Inv(run[8])
    ensures run[8].lost == run[8].doubled == multiset{} && run[8].billed == multiset{e} && run[8].disk == run[8].billed
    ensures Enabled(run[8], Rollback(0, removed)) && Next(run[8], Rollback(0, removed)).lost == multiset{e}
  {
    hide *;
    run, steps := [Replaced(e, 0)], [];
    ARun(run);
    FirstLoads(e);
    FirstQuiesces(e);
    SameStart(e);
    run, steps := Longer(run, steps, Load(0), Replaced(e, 1));
    run, steps := Longer(run, steps, Adopt(0, true), Replaced(e, 2));
    run, steps := Longer(run, steps, Quiesce(0, 0), Superseded(e, 3));
    NewerTakesOver(e);
    run, steps := Longer(run, steps, Load(1), Superseded(e, 4));
    run, steps := Longer(run, steps, Adopt(1, true), Superseded(e, 5));
    NewerBills(e);
    run, steps := Longer(run, steps, Bill(1, e, Refused), Superseded(e, 6));
    NewerLeaves(e);
    run, steps := Longer(run, steps, Leave(1), Superseded(e, 7));
    NewerShutsDown(e);
    run, steps := Longer(run, steps, Shutdown(1, multiset{e}), Superseded(e, 8));
    EmptyStarts(e);
    EveryRunIsAccounted(run, steps, 8);
    TooLate(e, removed);
  }

  lemma SameStart(e: Billing)
    ensures Superseded(e, 3) == Replaced(e, 3)
  {}

  lemma LateState(e: Billing)
    ensures var s := Superseded(e, 8);
      && s.lost == s.doubled == multiset{} && s.billed == multiset{e} == s.disk && s.Journal() == []
      && 0 in s.instances && s.instances[0].memory == multiset{} && forall i :: !s.Owner(i)
  {}

  lemma TooLate(e: Billing, removed: bool)
    ensures var s := Superseded(e, 8);
      && s.lost == s.doubled == multiset{} && s.billed == multiset{e} == s.disk
      && Enabled(s, Rollback(0, removed)) && Next(s, Rollback(0, removed)).lost == multiset{e}
  {
    hide Superseded, Replaced, System.Journal, System.File;
    var s := Superseded(e, 8);
    LateState(e);
    assert multiset(s.Journal()) == multiset{} && multiset{} * s.instances[0].memory == multiset{};
    assert Regained(s, 0, removed) == multiset{};
    assert multiset{e} - multiset{} == multiset{e};
  }

  // What is saved stays saved.

  /** Closing a journal saves what was replayed: a crash right after it loses
      only what is still unread, counts nothing twice, and the next instance
      finds all of it. */
  lemma CloseSaves(s: System, i: int, j: int)
    requires Inv(s) && Enabled(s, Close(i, true))
    ensures var x, t := s.instances[i], Next(s, Close(i, true));
      && Enabled(t, Crash(i))
      && var c := Next(t, Crash(i));
         && c.lost == s.lost + Pending(s, x.reader) && c.doubled == s.doubled
         && Enabled(c, Load(j)) && Next(c, Load(j)).instances[j].memory == x.memory
  {
    hide Next, Balanced, Known, Pending, OwnersPlaced, GivenUp, OneOwner;
    var x, t := s.instances[i], Next(s, Close(i, true));
    ClosedPending(s, i);
    CloseThenCrash(s, i);
    GivenUpPending(t, i, x.memory, Pending(s, x.reader));
    LoadsDisk(Next(t, Crash(i)), j);
  }

  /** Giving the files up with all of memory in them loses what is unread. */
  lemma GivenUpPending(t: System, i: int, memory: Calls, pending: Calls)
    requires i in t.instances && t.path.None? && t.disk == memory && Accounted(t, i) == memory + pending
    ensures GivenUp(t, i, t.disk).lost == t.lost + pending && GivenUp(t, i, t.disk).doubled == t.doubled
  {
    hide Pending, System.Journal;
    NoJournal(t);
    Nothing(memory);
    Nothing(t.doubled);
    Unfollowed(memory, memory, pending);
    NoDifference(memory, memory);
    assert memory + pending - memory == pending && memory - (memory + pending) == multiset{};
  }

  lemma LoadsDisk(c: System, j: int)
    requires !c.Owned()
    ensures Enabled(c, Load(j)) && Next(c, Load(j)).instances[j].memory == c.disk
  {}

  lemma OnlyOwner(s: System, i: int)
    requires Inv(s) && s.Owner(i)
    ensures forall j :: s.Owner(j) ==> j == i
  {
    hide Balanced, OwnersPlaced;
  }

  lemma ClosedPending(s: System, i: int)
    requires i in s.instances && Enabled(s, Close(i, true))
    ensures var t := Next(s, Close(i, true));
      i in t.instances && Accounted(t, i) == s.instances[i].memory + Pending(s, s.instances[i].reader) && t.disk == s.instances[i].memory
      && t.lost == s.lost && t.doubled == s.doubled && t.path.None? && t.instances[i].owns
  {}

  lemma CloseThenCrash(s: System, i: int)
    requires OneOwner(s) && Enabled(s, Close(i, true))
    ensures var t := Next(s, Close(i, true)); var c := Next(t, Crash(i));
      !c.Owned() && c.disk == t.disk && c.lost == GivenUp(t, i, t.disk).lost && c.doubled == GivenUp(t, i, t.disk).doubled
  {
    hide OneOwner, Accounted, System.File, System.Journal;
    OneLeft(s, Next(Next(s, Close(i, true)), Crash(i)), i);
  }

  /** These calls are in the files, and in the memory of the owner. */
  ghost predicate Has(s: System, calls: Calls) { calls <= s.disk && forall i :: s.Owner(i) ==> calls <= s.instances[i].memory }

  lemma CutHas(calls: Calls, disk: Calls, memory: Calls, saved: Calls)
    requires calls <= disk && calls <= memory && forall e :: saved[e] == disk[e] || saved[e] == memory[e]
    ensures calls <= saved
  {
    forall e ensures calls[e] <= saved[e] {
      assert calls[e] <= disk[e] && calls[e] <= memory[e];
    }
  }

  lemma MoreHas(calls: Calls, memory: Calls, more: Calls)
    ensures calls <= memory ==> calls <= memory + more
  {}

  /** What a step writes to the files. */
  lemma FilesKeepSaved(s: System, step: Step, calls: Calls)
    requires Has(s, calls) && Enabled(s, step) && !step.Rollback?
    ensures calls <= Next(s, step).disk
  {
    hide Pending, Known, HeardFrom, Appended, TornAfter, Accounted, System.File, System.Journal;
    match step
    case Flush(i, saved) => CutHas(calls, s.disk, s.instances[i].memory, saved);
    case QuiesceFails(i, saved, _, _) => CutHas(calls, s.disk, s.instances[i].memory, saved);
    case Shutdown(i, saved) => CutHas(calls, s.disk, s.instances[i].memory, saved);
    case _ =>
  }

  /** The steps after which an owner remembers what it did. */
  lemma MemoryStays(s: System, step: Step, j: int)
    requires Enabled(s, step) && !step.Rollback? && !step.Bill? && !step.Load? && !step.Adopt? && !step.Follow?
    ensures Next(s, step).Owner(j) ==> s.Owner(j) && Next(s, step).instances[j].memory == s.instances[j].memory
  {
    hide Pending, Known, Accounted, Cut, System.File, System.Journal, System.Owned;
  }

  /** The others add to it, or take it from the files. */
  lemma MemoryGrows(s: System, step: Step, calls: Calls, j: int)
    requires Has(s, calls) && Enabled(s, step) && (step.Bill? || step.Load? || step.Adopt? || step.Follow?) && Next(s, step).Owner(j)
    ensures calls <= Next(s, step).instances[j].memory
  {
    hide Pending, HeardFrom, Appended, TornAfter, System.File, System.Journal, System.Owned;
    match step
    case Bill(i, e, how) => MoreHas(calls, s.instances[i].memory, multiset{e});
    case Adopt(i, read) => MoreHas(calls, s.instances[i].memory, multiset(s.Journal()));
    case Follow(i) => MoreHas(calls, s.instances[i].memory, Pending(s, s.instances[i].reader));
    case _ =>
  }

  lemma StepKeepsSaved(s: System, step: Step, calls: Calls)
    requires Has(s, calls) && Enabled(s, step) && !step.Rollback?
    ensures Has(Next(s, step), calls)
  {
    hide Next, Enabled;
    FilesKeepSaved(s, step, calls);
    forall j | Next(s, step).Owner(j) ensures calls <= Next(s, step).instances[j].memory {
      if step.Bill? || step.Load? || step.Adopt? || step.Follow? {
        MemoryGrows(s, step, calls, j);
      } else {
        MemoryStays(s, step, j);
      }
    }
  }

  /** The step writes all of this instance's memory. */
  predicate Saves(s: System, step: Step, i: int) {
    i in s.instances &&
    match step
    case Close(j, _) => i == j
    case Quiesce(j, _) => i == j
    case Flush(j, saved) => i == j && saved == s.instances[i].memory
    case QuiesceFails(j, saved, _, _) => i == j && saved == s.instances[i].memory
    case Shutdown(j, saved) => i == j && saved == s.instances[i].memory
    case _ => false
  }

  /** What a cut writes stays: at every later point of every run without a
      rollback, whatever fails and wherever an instance crashes, the files and
      the memory of the owner hold it. */
  lemma {:induction false} SavedStays(run: seq<System>, steps: seq<Step>, i: int, n: nat, k: nat)
    requires IsRun(run, steps) && n < k <= |steps| && Inv(run[n]) && Saves(run[n], steps[n], i)
    requires forall m :: n < m < k ==> !steps[m].Rollback?
    ensures Has(run[k], run[n].instances[i].memory)
  {
    hide Next, Enabled, Has, Inv;
    if k == n + 1 {
      assert Enabled(run[n], steps[n]) && run[n + 1] == Next(run[n], steps[n]);
      CutSaves(run[n], steps[n], i);
    } else {
      SavedStays(run, steps, i, n, k - 1);
      var m := k - 1;
      assert Enabled(run[m], steps[m]) && run[m + 1] == Next(run[m], steps[m]);
      StepKeepsSaved(run[m], steps[m], run[n].instances[i].memory);
    }
  }

  lemma CutSaves(s: System, step: Step, i: int)
    requires Inv(s) && Enabled(s, step) && Saves(s, step, i)
    ensures Has(Next(s, step), s.instances[i].memory)
  {
    hide Inv, Next, Enabled;
    CutWrites(s, step, i);
    forall j | Next(s, step).Owner(j) ensures Next(s, step).instances[j].memory == s.instances[i].memory {
      MemoryStays(s, step, j);
      OnlyOwner(s, i);
    }
  }

  lemma CutWrites(s: System, step: Step, i: int)
    requires Enabled(s, step) && Saves(s, step, i)
    ensures Next(s, step).disk == s.instances[i].memory && s.Owner(i)
  {
    hide Pending, Known, Accounted, Cut, System.File, System.Journal;
  }

  /** An instance that stopped journals nothing more, and one that crashed bills
      nothing more. */
  lemma GoneAreSilent(s: System, i: int, e: Billing, how: Append)
    requires i in s.instances
    ensures !s.instances[i].owns ==>
      var t := Next(s, Stop(i)); var u := Next(t, Bill(i, e, how));
      u.files == s.files && u.lost == s.lost + multiset{e} && u.billed == s.billed + multiset{e}
    ensures var t := Next(s, Crash(i)); !Enabled(t, Bill(i, e, how)) && forall j :: j != i && j in s.instances ==> Enabled(t, Bill(j, e, how))
  {
    hide Accounted, Heard, System.File, System.Journal;
  }
}
