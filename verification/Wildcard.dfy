/** Excluded-models patterns: "*" stands for any run of characters, every other
    character for itself. The matcher fixes the text before the first and after
    the last star, then places the segments between at their leftmost
    occurrence; this is shown never to miss a match. */
module Wildcard {

  /** What a pattern means, one character at a time. */
  ghost predicate Matches(pattern: string, value: string) {
    if pattern == "" then value == ""
    else if pattern[0] == '*' then exists k :: 0 <= k <= |value| && Matches(pattern[1..], value[k..])
    else value != "" && value[0] == pattern[0] && Matches(pattern[1..], value[1..])
  }

  /** The pattern's text between its stars. */
  function Split(pattern: string): (parts: seq<string>)
    ensures |parts| >= 1
  {
    if pattern == "" then [""]
    else
      var rest := Split(pattern[1..]);
      if pattern[0] == '*' then [""] + rest
      else [[pattern[0]] + rest[0]] + rest[1..]
  }

  predicate OccursAt(segment: string, value: string, i: int) {
    0 <= i <= |value| - |segment| && value[i..i + |segment|] == segment
  }

  /** The leftmost occurrence of segment, or -1. */
  method Index(value: string, segment: string) returns (i: int)
    ensures i >= 0 ==> OccursAt(segment, value, i)
    ensures forall j :: 0 <= j && (i < 0 || j < i) ==> !OccursAt(segment, value, j)
  {
    i := 0;
    while i + |segment| <= |value|
      invariant 0 <= i
      invariant forall j :: 0 <= j < i ==> !OccursAt(segment, value, j)
    {
      if value[i..i + |segment|] == segment {
        return;
      }
      i := i + 1;
    }
    i := -1;
  }

  /** value ends with "*" followed by the last part, every earlier part lying
      before it in order. */
  ghost predicate StarMatches(parts: seq<string>, value: string)
    requires |parts| >= 1
  {
    if |parts| == 1 then OccursAt(parts[0], value, |value| - |parts[0]|)
    else exists i :: OccursAt(parts[0], value, i) && StarMatches(parts[1..], value[i + |parts[0]|..])
  }

  ghost predicate PartsMatch(parts: seq<string>, value: string)
    requires |parts| >= 1
  {
    if |parts| == 1 then value == parts[0]
    else OccursAt(parts[0], value, 0) && StarMatches(parts[1..], value[|parts[0]|..])
  }

  lemma {:induction false} StarMatchesIffSomeSuffix(parts: seq<string>, value: string)
    requires |parts| >= 1
    ensures StarMatches(parts, value) <==> exists k :: 0 <= k <= |value| && PartsMatch(parts, value[k..])
  {
    if |parts| == 1 {
      if StarMatches(parts, value) {
        assert PartsMatch(parts, value[|value| - |parts[0]|..]);
      }
    } else {
      forall i | OccursAt(parts[0], value, i) ensures OccursAt(parts[0], value[i..], 0)
                                              ensures value[i..][|parts[0]|..] == value[i + |parts[0]|..]
      {
        assert value[i..][0..|parts[0]|] == value[i..i + |parts[0]|];
      }
      forall k | 0 <= k <= |value| && OccursAt(parts[0], value[k..], 0) ensures OccursAt(parts[0], value, k)
      {
        assert value[k..][0..|parts[0]|] == value[k..k + |parts[0]|];
      }
      if i :| OccursAt(parts[0], value, i) && StarMatches(parts[1..], value[i + |parts[0]|..]) {
        assert PartsMatch(parts, value[i..]);
      }
      if k :| 0 <= k <= |value| && PartsMatch(parts, value[k..]) {
        assert OccursAt(parts[0], value, k);
        assert value[k..][|parts[0]|..] == value[k + |parts[0]|..];
      }
    }
  }

  lemma {:induction false} MatchesIffPartsMatch(pattern: string, value: string)
    ensures Matches(pattern, value) <==> PartsMatch(Split(pattern), value)
    decreases |pattern|
  {
    if pattern == "" {
    } else {
      var rest := Split(pattern[1..]);
      if pattern[0] == '*' {
        forall k | 0 <= k <= |value| ensures Matches(pattern[1..], value[k..]) <==> PartsMatch(rest, value[k..]) {
          MatchesIffPartsMatch(pattern[1..], value[k..]);
        }
        StarMatchesIffSomeSuffix(rest, value);
        assert Split(pattern)[1..] == rest;
        assert value[|""|..] == value;
        assert OccursAt("", value, 0);
        assert PartsMatch(Split(pattern), value) <==> StarMatches(rest, value);
      } else if value != "" && value[0] == pattern[0] {
        MatchesIffPartsMatch(pattern[1..], value[1..]);
        var parts := Split(pattern);
        assert parts[1..] == rest[1..];
        if |rest| == 1 {
          assert value == [value[0]] + value[1..];
        } else {
          ShiftPrefix(pattern[0], rest[0], value);
        }
      } else {
        assert !OccursAt(Split(pattern)[0], value, 0);
      }
    }
  }

  lemma ShiftPrefix(c: char, text: string, value: string)
    requires value != "" && value[0] == c
    ensures OccursAt([c] + text, value, 0) <==> OccursAt(text, value[1..], 0)
    ensures |text| < |value| ==> value[|[c] + text|..] == value[1..][|text|..]
  {
    if |text| < |value| {
      assert value[0..|text| + 1] == [c] + value[1..][0..|text|];
      if OccursAt([c] + text, value, 0) {
        assert value[1..][0..|text|] == ([c] + text)[1..];
      }
    }
  }

  /** The segments occur in value in order without overlapping. */
  ghost predicate Placeable(segments: seq<string>, value: string) {
    segments == [] ||
    exists i :: OccursAt(segments[0], value, i) && Placeable(segments[1..], value[i + |segments[0]|..])
  }

  /** More room in front keeps a placement. */
  lemma PlaceableWithMoreRoom(segments: seq<string>, value: string, a: nat, b: nat)
    requires a <= b <= |value| && Placeable(segments, value[b..])
    ensures Placeable(segments, value[a..])
  {
    if segments != [] {
      var i :| OccursAt(segments[0], value[b..], i) && Placeable(segments[1..], value[b..][i + |segments[0]|..]);
      var n := |segments[0]|;
      assert value[b..][i..i + n] == value[a..][b - a + i..b - a + i + n];
      assert value[b..][i + n..] == value[a..][b - a + i + n..];
      assert OccursAt(segments[0], value[a..], b - a + i);
    }
  }

  /** Taking the leftmost place for the first segment loses nothing. */
  lemma LeftmostPlaceLosesNothing(segments: seq<string>, value: string, first: int)
    requires segments != [] && OccursAt(segments[0], value, first)
    requires forall j :: 0 <= j < first ==> !OccursAt(segments[0], value, j)
    ensures Placeable(segments, value) <==> Placeable(segments[1..], value[first + |segments[0]|..])
  {
    if Placeable(segments, value) {
      var i :| OccursAt(segments[0], value, i) && Placeable(segments[1..], value[i + |segments[0]|..]);
      PlaceableWithMoreRoom(segments[1..], value, first + |segments[0]|, i + |segments[0]|);
    }
  }

  /** Cutting the tail before or after placing one segment is the same. */
  lemma TailAfterSegment(segment: string, tail: string, value: string, i: nat)
    requires OccursAt(segment, value, i)
    ensures var rest, m := value[i + |segment|..], |value| - |tail|;
      && (OccursAt(tail, rest, |rest| - |tail|) <==> i + |segment| <= m && OccursAt(tail, value, m))
      && (0 <= m && i + |segment| <= m ==>
        OccursAt(segment, value[..m], i) && rest[..|rest| - |tail|] == value[..m][i + |segment|..])
  {
    var rest, m := value[i + |segment|..], |value| - |tail|;
    if i + |segment| <= m {
      var k := |rest| - |tail|;
      assert rest[k..k + |tail|] == value[m..m + |tail|];
      assert value[..m][i..i + |segment|] == value[i..i + |segment|];
    }
  }

  lemma {:induction false} TailThenSegments(segments: seq<string>, tail: string, value: string)
    requires StarMatches(segments + [tail], value)
    ensures OccursAt(tail, value, |value| - |tail|) && Placeable(segments, value[..|value| - |tail|])
    decreases |segments|
  {
    var parts, m := segments + [tail], |value| - |tail|;
    assert segments == [] ==> parts == [tail];
    if segments != [] {
      var segment, n := segments[0], |segments[0]|;
      assert parts[0] == segment && parts[1..] == segments[1..] + [tail];
      var i :| OccursAt(segment, value, i) && StarMatches(parts[1..], value[i + n..]);
      TailThenSegments(segments[1..], tail, value[i + n..]);
      TailAfterSegment(segment, tail, value, i);
      assert OccursAt(segment, value[..m], i) && Placeable(segments[1..], value[..m][i + n..]);
    }
  }

  lemma {:induction false} SegmentsThenTail(segments: seq<string>, tail: string, value: string)
    requires OccursAt(tail, value, |value| - |tail|) && Placeable(segments, value[..|value| - |tail|])
    ensures StarMatches(segments + [tail], value)
    decreases |segments|
  {
    var parts, m := segments + [tail], |value| - |tail|;
    assert segments == [] ==> parts == [tail];
    if segments != [] {
      var segment, n := segments[0], |segments[0]|;
      assert parts[0] == segment && parts[1..] == segments[1..] + [tail];
      var i :| OccursAt(segment, value[..m], i) && Placeable(segments[1..], value[..m][i + n..]);
      assert value[..m][i..i + n] == value[i..i + n];
      TailAfterSegment(segment, tail, value, i);
      SegmentsThenTail(segments[1..], tail, value[i + n..]);
      assert OccursAt(segment, value, i) && StarMatches(parts[1..], value[i + n..]);
    }
  }

  /** Reserving the tail first does not change what can be placed before it. */
  lemma ReserveTail(segments: seq<string>, tail: string, value: string)
    ensures StarMatches(segments + [tail], value) <==>
            OccursAt(tail, value, |value| - |tail|) && Placeable(segments, value[..|value| - |tail|])
  {
    if StarMatches(segments + [tail], value) {
      TailThenSegments(segments, tail, value);
    }
    if OccursAt(tail, value, |value| - |tail|) && Placeable(segments, value[..|value| - |tail|]) {
      SegmentsThenTail(segments, tail, value);
    }
  }

  function LowerChar(c: char): char {
    if 'A' <= c <= 'Z' then (c as int + 32) as char else c
  }

  function Lower(s: string): string { seq(|s|, i requires 0 <= i < |s| => LowerChar(s[i])) }

  /** Unicode white space. */
  predicate IsSpace(c: char) {
    || '\t' <= c <= '\r' || c in {' ', '\U{85}', '\U{A0}', '\U{1680}', '\U{2028}', '\U{2029}', '\U{202F}', '\U{205F}', '\U{3000}'}
    || '\U{2000}' <= c <= '\U{200A}'
  }

  function TrimLeft(s: string): string {
    if s != "" && IsSpace(s[0]) then TrimLeft(s[1..]) else s
  }

  function TrimRight(s: string): string {
    if s != "" && IsSpace(s[|s| - 1]) then TrimRight(s[..|s| - 1]) else s
  }

  function Normalize(s: string): string { Lower(TrimRight(TrimLeft(s))) }

  predicate Spaces(s: string) { forall c :: c in s ==> IsSpace(c) }

  predicate SameLetter(c: char, d: char) {
    c == d || ('A' <= c <= 'Z' && d as int == c as int + 32) || ('A' <= d <= 'Z' && c as int == d as int + 32)
  }

  /** Alike but for the case of letters. */
  predicate SameLetters(s: string, t: string) { |s| == |t| && forall i :: 0 <= i < |s| ==> SameLetter(s[i], t[i]) }

  lemma {:induction false} TrimLeftDrops(before: string, s: string)
    requires Spaces(before)
    ensures TrimLeft(before + s) == TrimLeft(s)
  {
    if before == [] {
      assert before + s == s;
    } else {
      assert (before + s)[1..] == before[1..] + s;
      TrimLeftDrops(before[1..], s);
    }
  }

  lemma {:induction false} TrimRightDrops(s: string, after: string)
    requires Spaces(after)
    ensures TrimRight(s + after) == TrimRight(s)
    decreases |after|
  {
    if after == [] {
      assert s + after == s;
    } else {
      var n := |after| - 1;
      assert (s + after)[..|s + after| - 1] == s + after[..n] && (s + after)[|s + after| - 1] == after[n];
      TrimRightDrops(s, after[..n]);
    }
  }

  /** Text between the first and the last character that is no space. */
  predicate Tight(s: string) { s == "" || (!IsSpace(s[0]) && !IsSpace(s[|s| - 1])) }

  lemma TrimIs(before: string, s: string, after: string)
    requires Spaces(before) && Spaces(after) && Tight(s)
    ensures TrimRight(TrimLeft(before + s + after)) == s
  {
    assert before + s + after == before + (s + after);
    TrimLeftDrops(before, s + after);
    if s == "" {
      assert s + after == after && after + "" == after;
      TrimLeftDrops(after, "");
    } else {
      assert TrimLeft(s + after) == s + after;
      TrimRightDrops(s, after);
    }
  }

  lemma {:induction false} TrimSplits(s: string) returns (before: string, after: string)
    ensures Spaces(before) && Spaces(after) && Tight(TrimRight(TrimLeft(s))) && s == before + TrimRight(TrimLeft(s)) + after
  {
    var left := TrimLeft(s);
    before := LeftSplits(s);
    after := RightSplits(left);
  }

  lemma {:induction false} LeftSplits(s: string) returns (before: string)
    ensures Spaces(before) && s == before + TrimLeft(s) && (TrimLeft(s) != "" ==> !IsSpace(TrimLeft(s)[0]))
  {
    if s != "" && IsSpace(s[0]) {
      var rest := LeftSplits(s[1..]);
      before := [s[0]] + rest;
    } else {
      before := "";
    }
  }

  lemma {:induction false} RightSplits(s: string) returns (after: string)
    ensures Spaces(after) && s == TrimRight(s) + after && (TrimRight(s) != "" ==> TrimRight(s)[0] == s[0] && !IsSpace(TrimRight(s)[|TrimRight(s)| - 1]))
  {
    if s != "" && IsSpace(s[|s| - 1]) {
      var rest := RightSplits(s[..|s| - 1]);
      after := rest + [s[|s| - 1]];
    } else {
      after := "";
    }
  }

  /** Two texts are the same to the matcher exactly when they differ in letter
      case and surrounding space only. */
  lemma NormalizeIff(s: string, t: string)
    ensures Normalize(s) == Normalize(t) <==> SameLetters(TrimRight(TrimLeft(s)), TrimRight(TrimLeft(t)))
  {
    var a, b := TrimRight(TrimLeft(s)), TrimRight(TrimLeft(t));
    if Normalize(s) == Normalize(t) {
      forall i | 0 <= i < |a| ensures SameLetter(a[i], b[i]) {
        assert Lower(a)[i] == Lower(b)[i];
      }
    }
  }

  /** Places the segments one after another, each at its leftmost place. */
  method PlaceAll(segments: seq<string>, room: string) returns (placed: bool)
    ensures placed <==> Placeable(segments, room)
  {
    hide Placeable;
    var value := room;
    assert segments[0..] == segments;
    for k := 0 to |segments|
      invariant Placeable(segments, room) <==> Placeable(segments[k..], value)
    {
      var left := segments[k..];
      assert left[0] == segments[k] && left[1..] == segments[k + 1..];
      var i := Index(value, segments[k]);
      if i < 0 {
        Unplaceable(left, value);
        return false;
      }
      LeftmostPlaceLosesNothing(left, value, i);
      value := value[i + |segments[k]|..];
    }
    assert segments[|segments|..] == [];
    NothingToPlace(value);
    return true;
  }

  lemma NothingToPlace(value: string)
    ensures Placeable([], value)
  {}

  lemma Unplaceable(segments: seq<string>, value: string)
    requires segments != [] && forall j :: 0 <= j ==> !OccursAt(segments[0], value, j)
    ensures !Placeable(segments, value)
  {}

  lemma StartsWith(head: string, value: string)
    ensures OccursAt(head, value, 0) <==> |head| <= |value| && value[..|head|] == head
  {
    if |head| <= |value| {
      assert value[0..|head|] == value[..|head|];
    }
  }

  lemma EndsWith(tail: string, value: string)
    ensures OccursAt(tail, value, |value| - |tail|) <==> |tail| <= |value| && value[|value| - |tail|..] == tail
  {
    if |tail| <= |value| {
      assert value[|value| - |tail|..|value| - |tail| + |tail|] == value[|value| - |tail|..];
    }
  }

  lemma PartsAre(parts: seq<string>, value: string)
    requires |parts| >= 2
    ensures var head, tail, segments := parts[0], parts[|parts| - 1], parts[1..|parts| - 1];
      PartsMatch(parts, value) <==> OccursAt(head, value, 0) && var rest := value[|head|..];
        OccursAt(tail, rest, |rest| - |tail|) && Placeable(segments, rest[..|rest| - |tail|])
  {
    hide StarMatches, Placeable;
    var head, tail, segments := parts[0], parts[|parts| - 1], parts[1..|parts| - 1];
    assert parts[1..] == segments + [tail];
    if OccursAt(head, value, 0) {
      ReserveTail(segments, tail, value[|head|..]);
    }
  }

  /** The greedy matcher accepts exactly what the pattern means. */
  method ModelExcluded(rawPattern: string, model: string) returns (excluded: bool)
    ensures excluded <==> Normalize(rawPattern) != "" && Matches(Normalize(rawPattern), Normalize(model))
  {
    hide Matches, PartsMatch, OccursAt, Placeable, Normalize;
    var pattern := Normalize(rawPattern);
    if pattern == "" {
      return false;
    }
    var value := Normalize(model);
    var parts := Split(pattern);
    MatchesIffPartsMatch(pattern, value);
    if |parts| == 1 {
      SplitWithoutStar(pattern);
      OnePart(parts, value);
      return pattern == value;
    }
    var head, tail := parts[0], parts[|parts| - 1];
    PartsAre(parts, value);
    StartsWith(head, value);
    if !(|head| <= |value| && value[..|head|] == head) {
      return false;
    }
    value := value[|head|..];
    EndsWith(tail, value);
    if !(|tail| <= |value| && value[|value| - |tail|..] == tail) {
      return false;
    }
    excluded := PlaceAll(parts[1..|parts| - 1], value[..|value| - |tail|]);
  }

  lemma OnePart(parts: seq<string>, value: string)
    requires |parts| == 1
    ensures PartsMatch(parts, value) <==> value == parts[0]
  {}

  lemma SplitWithoutStar(pattern: string)
    requires |Split(pattern)| == 1
    ensures Split(pattern) == [pattern]
  {
    if pattern != "" {
      SplitWithoutStar(pattern[1..]);
      assert pattern == [pattern[0]] + pattern[1..];
    }
  }
}
