/** A table of eight upstream statuses and their failures: what it shows after
    any run of failures, and which codes it can no longer show. */
module StatusCodes {
  const SIZE: nat := 8

  datatype StatusCount = StatusCount(code: int, count: nat)

  const FREE: StatusCount := StatusCount(0, 0)

  type Table = t: seq<StatusCount> | |t| == SIZE witness [FREE, FREE, FREE, FREE, FREE, FREE, FREE, FREE]

  const EMPTY: Table := [FREE, FREE, FREE, FREE, FREE, FREE, FREE, FREE]

  /** The first entry in use for code, or -1. */
  function OfCode(t: seq<StatusCount>, code: int, i: nat): (r: int)
    requires i <= |t|
    ensures r < 0 ==> forall j :: i <= j < |t| ==> !(t[j].count > 0 && t[j].code == code)
    ensures r >= 0 ==> i <= r < |t| && t[r].count > 0 && t[r].code == code
    ensures r >= 0 ==> forall j :: i <= j < r ==> !(t[j].count > 0 && t[j].code == code)
    decreases |t| - i
  {
    if i == |t| then -1 else if t[i].count > 0 && t[i].code == code then i else OfCode(t, code, i + 1)
  }

  /** The first entry with this count, or -1. */
  function WithCount(t: seq<StatusCount>, count: nat, i: nat): (r: int)
    requires i <= |t|
    ensures r < 0 ==> forall j :: i <= j < |t| ==> t[j].count != count
    ensures r >= 0 ==> i <= r < |t| && t[r].count == count && forall j :: i <= j < r ==> t[j].count != count
    decreases |t| - i
  {
    if i == |t| then -1 else if t[i].count == count then i else WithCount(t, count, i + 1)
  }

  /** Where a failure under code is counted; -1 when it is dropped. */
  function Place(t: Table, code: int): int {
    var own := OfCode(t, code, 0);
    var free := WithCount(t, 0, 0);
    if own >= 0 then own
    else if free >= 0 then free
    else WithCount(t, 1, 0)
  }

  function Counted(t: Table, code: int): Table {
    var i := Place(t, code);
    if i < 0 then t
    else if t[i].count > 0 && t[i].code == code then t[i := StatusCount(code, t[i].count + 1)]
    else t[i := StatusCount(code, 1)]
  }

  /** One pass over the table, as the statistics do it. */
  method Count(t: array<StatusCount>, code: int)
    requires t.Length == SIZE
    modifies t
    ensures t[..] == Counted(old(t[..]), code)
  {
    var free, single := -1, -1;
    for i := 0 to t.Length
      invariant t[..] == old(t[..])
      invariant forall j :: 0 <= j < i ==> !(t[j].count > 0 && t[j].code == code)
      invariant free < 0 ==> forall j :: 0 <= j < i ==> t[j].count != 0
      invariant free >= 0 ==> free < i && t[free].count == 0 && forall j :: 0 <= j < free ==> t[j].count != 0
      invariant single < 0 ==> forall j :: 0 <= j < i ==> t[j].count != 1
      invariant single >= 0 ==> single < i && t[single].count == 1 && forall j :: 0 <= j < single ==> t[j].count != 1
    {
      if t[i].count == 0 {
        if free < 0 {
          free := i;
        }
      } else if t[i].code == code {
        assert OfCode(t[..], code, 0) == i;
        t[i] := StatusCount(code, t[i].count + 1);
        return;
      } else if t[i].count == 1 && single < 0 {
        single := i;
      }
    }
    assert OfCode(t[..], code, 0) < 0;
    if free < 0 {
      free := single;
    }
    if free >= 0 {
      t[free] := StatusCount(code, 1);
    }
  }

  function CountAll(codes: seq<int>): Table {
    if codes == [] then EMPTY else Counted(CountAll(codes[..|codes| - 1]), codes[|codes| - 1])
  }

  function Occurrences(codes: seq<int>, code: int): nat {
    if codes == [] then 0
    else Occurrences(codes[..|codes| - 1], code) + (if codes[|codes| - 1] == code then 1 else 0)
  }

  /** The count the table shows for a code. */
  function Shown(t: Table, code: int): nat {
    var own := OfCode(t, code, 0);
    if own < 0 then 0 else t[own].count
  }

  ghost predicate DistinctCodes(t: Table) {
    forall i, j :: 0 <= i < j < SIZE && t[i].count > 0 && t[j].count > 0 ==> t[i].code != t[j].code
  }

  lemma DistinctCodesKept(t: Table, code: int)
    requires DistinctCodes(t)
    ensures DistinctCodes(Counted(t, code))
  {}

  lemma ShownAt(t: Table, i: nat)
    requires DistinctCodes(t) && i < SIZE && t[i].count > 0
    ensures Shown(t, t[i].code) == t[i].count
  {}

  /** What one more failure does to every code's count. */
  lemma CountedShows(t: Table, code: int, other: int)
    requires DistinctCodes(t)
    ensures Shown(Counted(t, code), other) <= Shown(t, other) + (if other == code then 1 else 0)
    ensures Shown(t, other) >= 2 ==> Shown(Counted(t, code), other) == Shown(t, other) + (if other == code then 1 else 0)
    ensures WithCount(t, 0, 0) >= 0 ==> Shown(Counted(t, code), other) == Shown(t, other) + (if other == code then 1 else 0)
    ensures Shown(t, code) > 0 ==> Shown(Counted(t, code), other) == Shown(t, other) + (if other == code then 1 else 0)
  {
    DistinctCodesKept(t, code);
    var after, place := Counted(t, code), Place(t, code);
    if place >= 0 {
      ShownAt(after, place);
    }
    var i := OfCode(after, other, 0);
    if i >= 0 && t[i] == after[i] {
      ShownAt(t, i);
    }
    var k := OfCode(t, other, 0);
    if k >= 0 && after[k].count > 0 {
      ShownAt(after, k);
    }
  }

  /** No run of failures makes the table overstate a code. */
  lemma {:induction false} NeverOverstated(codes: seq<int>, code: int)
    ensures DistinctCodes(CountAll(codes))
    ensures Shown(CountAll(codes), code) <= Occurrences(codes, code)
  {
    if codes != [] {
      var before := codes[..|codes| - 1];
      NeverOverstated(before, code);
      DistinctCodesKept(CountAll(before), codes[|codes| - 1]);
      CountedShows(CountAll(before), codes[|codes| - 1], code);
    }
  }

  function Codes(codes: seq<int>): set<int> { set c | c in codes }

  function Used(t: Table): set<int> { set i | 0 <= i < SIZE && t[i].count > 0 :: t[i].code }

  /** A full table holds eight codes. */
  lemma FullTableCodes(t: Table)
    requires DistinctCodes(t) && forall i :: 0 <= i < SIZE ==> t[i].count > 0
    ensures |Used(t)| == SIZE
  {
    var codes := seq(SIZE, i requires 0 <= i < SIZE => t[i].code);
    DistinctCount(codes);
    assert Used(t) == Codes(codes) by {
      forall c | c in Used(t) ensures c in codes {
        var i :| 0 <= i < SIZE && t[i].count > 0 && t[i].code == c;
        assert codes[i] == c;
      }
      forall c | c in codes ensures c in Used(t) {
        var i :| 0 <= i < |codes| && codes[i] == c;
        assert t[i].code == c;
      }
    }
  }

  lemma {:induction false} DistinctCount(codes: seq<int>)
    requires forall i, j :: 0 <= i < j < |codes| ==> codes[i] != codes[j]
    ensures |Codes(codes)| == |codes|
  {
    if codes != [] {
      var n := |codes| - 1;
      DistinctCount(codes[..n]);
      assert Codes(codes) == Codes(codes[..n]) + {codes[n]};
    }
  }

  lemma SmallerSet(a: set<int>, b: set<int>)
    requires a <= b
    ensures |a| <= |b|
  {
    assert b == a + (b - a);
  }

  lemma UsedCounts(t: Table, code: int)
    ensures Used(Counted(t, code)) <= Used(t) + {code}
  {
    var after := Counted(t, code);
    forall c | c in Used(after) ensures c in Used(t) + {code} {
      var i :| 0 <= i < SIZE && after[i].count > 0 && after[i].code == c;
      if after[i] == t[i] {
        assert c in Used(t);
      }
    }
  }

  lemma CodesOf(codes: seq<int>)
    requires codes != []
    ensures Codes(codes) == Codes(codes[..|codes| - 1]) + {codes[|codes| - 1]}
  {}

  lemma NotUsed(t: Table, code: int)
    requires DistinctCodes(t) && Shown(t, code) == 0
    ensures code !in Used(t)
  {}

  /** With at most eight different codes every count is exact. */
  lemma {:induction false} ExactForFewCodes(codes: seq<int>, code: int)
    requires |Codes(codes)| <= SIZE
    ensures Shown(CountAll(codes), code) == Occurrences(codes, code)
    ensures Used(CountAll(codes)) <= Codes(codes)
    decreases |codes|
  {
    hide Counted, Shown, Used, Codes, DistinctCodes;
    if codes == [] {
      NothingCounted(code);
    } else {
      var before, last := codes[..|codes| - 1], codes[|codes| - 1];
      var t := CountAll(before);
      CodesOf(codes);
      UsedCounts(t, last);
      SmallerSet(Codes(before), Codes(codes));
      NeverOverstated(before, code);
      ExactForFewCodes(before, code);
      if WithCount(t, 0, 0) < 0 && Shown(t, last) == 0 {
        FullTableCodes(t);
        NotUsed(t, last);
        SmallerSet(Used(t) + {last}, Codes(codes));
        assert false;
      }
      CountedShows(t, last, code);
    }
  }

  lemma NothingCounted(code: int)
    ensures Shown(EMPTY, code) == 0 && Used(EMPTY) == {}
  {}

  // What a full table keeps.

  lemma OneMore(codes: seq<int>, more: seq<int>)
    requires more != []
    ensures var n := |more| - 1; codes + more == codes + more[..n] + [more[n]] && CountAll(codes + more) == Counted(CountAll(codes + more[..n]), more[n])
  {
    hide Counted;
    var n := |more| - 1;
    assert (codes + more)[..|codes + more| - 1] == codes + more[..n];
  }

  /** A code shown twice stays, and every further failure of it is counted. */
  lemma {:induction false} ShownTwiceStays(codes: seq<int>, more: seq<int>, code: int)
    requires Shown(CountAll(codes), code) >= 2
    ensures Shown(CountAll(codes + more), code) == Shown(CountAll(codes), code) + Occurrences(more, code)
    decreases |more|
  {
    hide Counted, Shown, DistinctCodes, CountAll;
    if more == [] {
      assert codes + more == codes;
    } else {
      var before := codes + more[..|more| - 1];
      ShownTwiceStays(codes, more[..|more| - 1], code);
      OneMore(codes, more);
      NeverOverstated(before, code);
      CountedShows(CountAll(before), more[|more| - 1], code);
    }
  }

  /** Every entry has been seen twice. */
  predicate Settled(t: Table) { forall i :: 0 <= i < SIZE ==> t[i].count >= 2 }

  lemma SettledStays(t: Table, next: int, code: int)
    requires DistinctCodes(t) && Settled(t) && Shown(t, code) == 0
    ensures Settled(Counted(t, next)) && Shown(Counted(t, next), code) == 0
  {}

  lemma {:induction false} SettledShuts(codes: seq<int>, more: seq<int>, code: int)
    requires Settled(CountAll(codes)) && Shown(CountAll(codes), code) == 0
    ensures Settled(CountAll(codes + more)) && Shown(CountAll(codes + more), code) == 0
    decreases |more|
  {
    hide Counted, Shown, DistinctCodes, CountAll, Settled;
    if more == [] {
      assert codes + more == codes;
    } else {
      var before := codes + more[..|more| - 1];
      SettledShuts(codes, more[..|more| - 1], code);
      OneMore(codes, more);
      NeverOverstated(before, code);
      SettledStays(CountAll(before), more[|more| - 1], code);
    }
  }

  /** A code not in the table is shown by its next failure unless every entry
      has been seen twice. */
  lemma AdmittedIff(t: Table, code: int)
    requires DistinctCodes(t) && Shown(t, code) == 0
    ensures Shown(Counted(t, code), code) == if Settled(t) then 0 else 1
  {
    DistinctCodesKept(t, code);
    var place := Place(t, code);
    if place >= 0 {
      ShownAt(Counted(t, code), place);
    }
  }

  /** A code is never shown again, however often it fails, exactly when it is
      not shown and every entry has been seen twice. */
  lemma NeverShownIff(codes: seq<int>, code: int)
    ensures (forall more: seq<int> :: Shown(CountAll(codes + more), code) == 0) <==>
            Shown(CountAll(codes), code) == 0 && Settled(CountAll(codes))
  {
    hide Counted, Shown, DistinctCodes, CountAll, Settled;
    NeverOverstated(codes, code);
    if Shown(CountAll(codes), code) == 0 && Settled(CountAll(codes)) {
      forall more: seq<int> ensures Shown(CountAll(codes + more), code) == 0 {
        SettledShuts(codes, more, code);
      }
    } else if Shown(CountAll(codes), code) == 0 {
      AdmittedIff(CountAll(codes), code);
      OneMore(codes, [code]);
      assert codes + [code][..0] == codes;
      assert Shown(CountAll(codes + [code]), code) != 0;
    } else {
      assert codes + [] == codes;
      assert Shown(CountAll(codes + []), code) != 0;
    }
  }

  /** No more codes than entries. */
  lemma {:induction false} CodesBound(t: seq<StatusCount>)
    ensures |set e | e in t :: e.code| <= |t|
  {
    if t != [] {
      var n := |t| - 1;
      CodesBound(t[..n]);
      assert (set e | e in t :: e.code) == (set e | e in t[..n] :: e.code) + {t[n].code} by {
        assert t == t[..n] + [t[n]];
      }
    }
  }

  lemma FreeEntryBound(t: Table, i: nat)
    requires i < SIZE && t[i].count == 0
    ensures |Used(t)| < SIZE
  {
    var others := t[..i] + t[i + 1..];
    CodesBound(others);
    var codes := set e | e in others :: e.code;
    forall c | c in Used(t) ensures c in codes {
      var j :| 0 <= j < SIZE && t[j].count > 0 && t[j].code == c;
      assert t[j] == others[if j < i then j else j - 1];
    }
    SmallerSet(Used(t), codes);
  }

  lemma UsedIffShown(t: Table, code: int)
    ensures code in Used(t) <==> Shown(t, code) > 0
  {}

  /** Eight codes, each seen twice in any order, shut the table. */
  lemma EightTwiceSettle(codes: seq<int>)
    requires |Codes(codes)| == SIZE && forall c :: c in codes ==> Occurrences(codes, c) >= 2
    ensures Settled(CountAll(codes))
  {
    hide Counted, Shown, CountAll, Used, Occurrences;
    var t := CountAll(codes);
    forall c | c in codes ensures c in Used(t) {
      ExactForFewCodes(codes, c);
      UsedIffShown(t, c);
    }
    SmallerSet(Codes(codes), Used(t));
    forall i | 0 <= i < SIZE ensures t[i].count >= 2 {
      if t[i].count == 0 {
        FreeEntryBound(t, i);
      }
      NeverOverstated(codes, t[i].code);
      ShownAt(t, i);
      UsedIffShown(t, t[i].code);
      ExactForFewCodes(codes, t[i].code);
    }
  }

  /** After them a ninth code is never shown, however often it fails. */
  lemma NinthIsNeverShown(codes: seq<int>, ninth: int, more: seq<int>)
    requires |Codes(codes)| == SIZE && forall c :: c in codes ==> Occurrences(codes, c) >= 2
    requires ninth !in codes
    ensures Shown(CountAll(codes + more), ninth) == 0
  {
    hide Counted, Shown, CountAll, Settled;
    EightTwiceSettle(codes);
    ExactForFewCodes(codes, ninth);
    NoOccurrence(codes, ninth);
    SettledShuts(codes, more, ninth);
  }

  lemma {:induction false} NoOccurrence(codes: seq<int>, code: int)
    requires code !in codes
    ensures Occurrences(codes, code) == 0
  {
    if codes != [] {
      NoOccurrence(codes[..|codes| - 1], code);
    }
  }
}
