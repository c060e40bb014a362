/** Cutting the Body member out of a host request without decoding it. */
module Envelope {
  import opened Bytes
  import opened JsonScan
  import opened JsonWalk
  import JsonText

  /** The key's four letters: B, o, d, y. */
  const BODY: Bytes := [66, 111, 100, 121]

  datatype Split = Malformed | Split(rest: Bytes, body: Option<Bytes>)

  function TrimSpaceRight(s: Bytes): Bytes {
    if s != [] && IsSpace(s[|s| - 1]) then TrimSpaceRight(s[..|s| - 1]) else s
  }

  function TrimComma(s: Bytes): Bytes {
    if s != [] && s[|s| - 1] == COMMA then s[..|s| - 1] else s
  }

  /** The cut of the member read at start, whose value ends before next. */
  function CutAt(raw: Bytes, start: nat, v: Visit, next: nat): Split
    requires start <= |raw| && v.start <= v.end <= |raw| && next < |raw|
  {
    var body := Some(raw[v.start..v.end]);
    if raw[next] == COMMA then Split(raw[..start] + raw[next + 1..], body)
    else if raw[next] == RBRACE then Split(TrimComma(TrimSpaceRight(raw[..start])) + raw[next..], body)
    else Malformed
  }

  function SplitFrom(raw: Bytes, i: nat): Split
    requires i <= |raw|
    decreases |raw| - i
  {
    var start := SpaceAt(raw, i);
    if start >= |raw| then Malformed
    else if raw[start] == RBRACE then Split(raw, None)
    else
      var v := ReadMember(raw, start);
      if v.None? then Malformed
      else
        var next := SpaceAt(raw, v.value.end);
        if next >= |raw| then Malformed
        else if v.value.key == BODY then CutAt(raw, start, v.value, next)
        else if raw[next] == COMMA then SplitFrom(raw, next + 1)
        else if raw[next] == RBRACE then Split(raw, None)
        else Malformed
  }

  function SplitOf(raw: Bytes): Split {
    var open := SpaceAt(raw, 0);
    if open >= |raw| || raw[open] != LBRACE then Malformed else SplitFrom(raw, open + 1)
  }

  method TrimHead(head: Bytes) returns (trimmed: Bytes)
    ensures trimmed == TrimComma(TrimSpaceRight(head))
  {
    var n := |head|;
    assert head[..n] == head;
    while n > 0 && IsSpace(head[n - 1])
      invariant 0 <= n <= |head| && TrimSpaceRight(head) == TrimSpaceRight(head[..n])
    {
      assert head[..n][..n - 1] == head[..n - 1];
      n := n - 1;
    }
    trimmed := head[..n];
    if n > 0 && head[n - 1] == COMMA {
      trimmed := head[..n - 1];
    }
  }

  method SplitBody(raw: Bytes) returns (split: Split)
    ensures split == SplitOf(raw)
  {
    hide SpaceAt, ReadMember, TrimComma, TrimSpaceRight;
    var i := SkipSpace(raw, 0);
    if i >= |raw| || raw[i] != LBRACE {
      return Malformed;
    }
    i := i + 1;
    while true
      invariant i <= |raw| && SplitOf(raw) == SplitFrom(raw, i)
      decreases |raw| - i
    {
      var start := SkipSpace(raw, i);
      if start >= |raw| {
        return Malformed;
      }
      if raw[start] == RBRACE {
        return Split(raw, None);
      }
      var v := ScanMember(raw, start);
      if v.None? {
        return Malformed;
      }
      var next := SkipSpace(raw, v.value.end);
      if next >= |raw| {
        return Malformed;
      }
      if v.value.key == BODY {
        var body := Some(raw[v.value.start..v.value.end]);
        if raw[next] == COMMA {
          return Split(raw[..start] + raw[next + 1..], body);
        }
        if raw[next] != RBRACE {
          return Malformed;
        }
        var head := TrimHead(raw[..start]);
        return Split(head + raw[next..], body);
      }
      if raw[next] == RBRACE {
        return Split(raw, None);
      }
      if raw[next] != COMMA {
        return Malformed;
      }
      i := next + 1;
    }
  }

  /** Which member is the first Body; the count of members when none is. */
  function FirstBody(members: seq<Member>): (k: nat)
    ensures k <= |members| && (k < |members| ==> members[k].key == BODY)
    ensures forall j :: 0 <= j < k ==> members[j].key != BODY
  {
    if members == [] || members[0].key == BODY then 0 else 1 + FirstBody(members[1..])
  }

  /** The members without the k-th; the space before it goes to the next. */
  function Without(members: seq<Member>, k: nat): seq<Member>
    requires k < |members|
  {
    if k > 0 then [members[0]] + Without(members[1..], k - 1)
    else if |members| == 1 then []
    else [members[1].(before := members[0].before + members[1].before)] + members[2..]
  }

  lemma {:induction false} WithoutAt(members: seq<Member>, k: nat, j: nat)
    requires k < |members| && j < |members| - 1
    ensures |Without(members, k)| == |members| - 1
    ensures var kept, m := Without(members, k)[j], members[if j < k then j else j + 1]; kept.key == m.key && kept.value == m.value
    decreases |members|
  {
    WithoutLength(members, k);
    if k > 0 && j > 0 {
      WithoutAt(members[1..], k - 1, j - 1);
    }
  }

  lemma {:induction false} WithoutLength(members: seq<Member>, k: nat)
    requires k < |members|
    ensures |Without(members, k)| == |members| - 1
    decreases |members|
  {
    if k > 0 {
      WithoutLength(members[1..], k - 1);
    }
  }

  lemma {:induction false} WithoutValid(members: seq<Member>, k: nat)
    requires k < |members| && forall m :: m in members ==> m.Valid()
    ensures forall m :: m in Without(members, k) ==> m.Valid()
    decreases |members|
  {
    hide Member.Valid;
    if k > 0 {
      WithoutValid(members[1..], k - 1);
    } else if |members| > 1 {
      MovedIsValid(members[0], members[1]);
    }
  }

  /** Leaving out one member leaves every other key and value, in order. */
  lemma WithoutKeepsTheRest(members: seq<Member>, k: nat)
    requires k < |members| && forall m :: m in members ==> m.Valid()
    ensures |Without(members, k)| == |members| - 1 && forall m :: m in Without(members, k) ==> m.Valid()
    ensures forall j :: 0 <= j < |members| - 1 ==> var kept, m := Without(members, k)[j], members[if j < k then j else j + 1];
            kept.key == m.key && kept.value == m.value
  {
    hide Member.Valid, Without;
    WithoutLength(members, k);
    WithoutValid(members, k);
    forall j | 0 <= j < |members| - 1
      ensures var kept, m := Without(members, k)[j], members[if j < k then j else j + 1]; kept.key == m.key && kept.value == m.value
    {
      WithoutAt(members, k, j);
    }
  }

  lemma MovedIsValid(gone: Member, m: Member)
    requires gone.Valid() && m.Valid()
    ensures m.(before := gone.before + m.before).Valid()
  {}

  /** The text p ends where a member may start. */
  predicate BeforeMember(p: Bytes) { p != [] && (p[|p| - 1] == COMMA || p[|p| - 1] == LBRACE) }

  /** What is left of an object, given the text before these members. */
  function Remaining(p: Bytes, left: seq<Member>): Bytes {
    if left == [] then TrimComma(p) + [RBRACE] else p + Closed(left)
  }

  lemma {:induction false} SpacesTrimmed(p: Bytes, space: Bytes)
    requires BeforeMember(p) && Spaces(space)
    ensures TrimSpaceRight(p + space) == p
    decreases |space|
  {
    if space == [] {
      assert p + space == p;
    } else {
      assert (p + space)[..|p + space| - 1] == p + space[..|space| - 1];
      assert space[|space| - 1] in space;
      SpacesTrimmed(p, space[..|space| - 1]);
    }
  }

  lemma PartAt(raw: Bytes, p: Bytes, part: Bytes, rest: Bytes)
    requires raw == p + part + rest
    ensures At(raw, |p|, part) && raw[..|p|] == p && raw[|p| + |part|..] == rest
  {}

  /** The first of the members is the Body and more follow. */
  lemma CutFirst(raw: Bytes, p: Bytes, members: seq<Member>, trail: Bytes)
    requires |members| > 1 && raw == p + Closed(members) + trail
    ensures var m, n := members[0], |p| + |members[0].Text()|;
      && |p| + |m.before| <= n < |raw|
      && raw[..|p| + |m.before|] + raw[n + 1..] == Remaining(p, Without(members, 0)) + trail
  {
    hide Member.Quoted, Member.FromColon, Closed;
    ClosedMany(members);
    var m, next := members[0], members[1];
    var moved := next.(before := m.before + next.before);
    assert raw == p + (m.Text() + ([COMMA] + Closed(members[1..]))) + trail;
    assert raw[|p| + |m.Text()| + 1..] == Closed(members[1..]) + trail;
    assert raw[..|p| + |m.before|] == p + m.before;
    MovedText(m.before, members[1..]);
    assert Without(members, 0) == [moved] + members[2..];
    assert members[1..][1..] == members[2..];
  }

  lemma ClosedMany(members: seq<Member>)
    requires |members| > 1
    ensures Closed(members) == members[0].Text() + ([COMMA] + Closed(members[1..]))
  {}

  /** What follows the first member. */
  function AfterFirst(rest: seq<Member>): Bytes { if rest == [] then [RBRACE] else [COMMA] + Closed(rest) }

  lemma ClosedParts(m: Member, rest: seq<Member>)
    ensures Closed([m] + rest) == m.Text() + AfterFirst(rest)
  {
    hide Member.Text;
    assert ([m] + rest)[1..] == rest;
  }

  lemma MovedText(space: Bytes, members: seq<Member>)
    requires members != []
    ensures space + Closed(members) == Closed([members[0].(before := space + members[0].before)] + members[1..])
  {
    hide Member.Text, Closed, AfterFirst;
    var m, rest := members[0], members[1..];
    assert members == [m] + rest;
    SpacedText(m, space);
    ClosedParts(m, rest);
    ClosedParts(m.(before := space + m.before), rest);
    assert space + (m.Text() + AfterFirst(rest)) == (space + m.Text()) + AfterFirst(rest);
  }

  lemma SpacedText(m: Member, space: Bytes)
    ensures m.(before := space + m.before).Text() == space + m.Text()
  {
    hide Member.Quoted, Member.FromColon;
    SameParts(m, space + m.before);
    var rest := m.Quoted() + (m.mid + m.FromColon());
    assert (space + m.before) + rest == space + (m.before + rest);
  }

  lemma SameParts(m: Member, before: Bytes)
    ensures m.(before := before).Quoted() == m.Quoted() && m.(before := before).FromColon() == m.FromColon()
  {}

  /** The only member left is the Body. */
  lemma CutLast(raw: Bytes, p: Bytes, m: Member, trail: Bytes)
    requires BeforeMember(p) && Spaces(m.before) && raw == p + Closed([m]) + trail
    ensures var n := |p| + |m.Text()|;
      && |p| + |m.before| <= n < |raw|
      && TrimComma(TrimSpaceRight(raw[..|p| + |m.before|])) + raw[n..] == Remaining(p, []) + trail
  {
    hide Member.Quoted, Member.FromColon, TrimComma, TrimSpaceRight, Spaces, BeforeMember;
    SpacesTrimmed(p, m.before);
    assert raw == p + (m.Text() + [RBRACE]) + trail;
    assert raw[|p| + |m.Text()|..] == [RBRACE] + trail;
    assert raw[..|p| + |m.before|] == p + m.before;
  }

  /** One member on: it moves to the text before. */
  lemma Onward(raw: Bytes, p: Bytes, members: seq<Member>, trail: Bytes)
    requires |members| > 1 && raw == p + Closed(members) + trail
    ensures var q := p + members[0].Text() + [COMMA];
      BeforeMember(q) && |q| == |p| + |members[0].Text()| + 1 && raw == q + Closed(members[1..]) + trail
  {
    hide Member.Text;
    var rest := Closed(members[1..]);
    assert p + (members[0].Text() + ([COMMA] + rest)) == p + members[0].Text() + [COMMA] + rest;
  }

  lemma OnwardRemaining(p: Bytes, m: Member, left: seq<Member>)
    ensures Remaining(p + m.Text() + [COMMA], left) == Remaining(p, [m] + left)
  {
    hide Member.Text;
    var q := p + m.Text() + [COMMA];
    assert ([m] + left)[1..] == left;
    if left == [] {
      assert TrimComma(q) == p + m.Text();
    }
  }

  /** What the cut must leave, given the text before and after the members. */
  function Expected(raw: Bytes, p: Bytes, members: seq<Member>, trail: Bytes): Split {
    var k := FirstBody(members);
    if k == |members| then Split(raw, None)
    else Split(Remaining(p, Without(members, k)) + trail, Some(members[k].value))
  }

  /** One member read: the cut is made here, or further on, or not at all. */
  lemma SplitOne(raw: Bytes, i: nat, v: Visit, next: nat)
    requires i <= |raw| && SpaceAt(raw, i) < |raw| && raw[SpaceAt(raw, i)] == QUOTE
    requires ReadMember(raw, SpaceAt(raw, i)) == Some(v) && v.start <= v.end <= |raw| && next == SpaceAt(raw, v.end) < |raw|
    ensures v.key == BODY ==> SplitFrom(raw, i) == CutAt(raw, SpaceAt(raw, i), v, next)
    ensures v.key != BODY && raw[next] == COMMA ==> SplitFrom(raw, i) == SplitFrom(raw, next + 1)
    ensures v.key != BODY && raw[next] == RBRACE ==> SplitFrom(raw, i) == Split(raw, None)
  {
    hide SpaceAt, ReadMember;
  }

  /** The Body is the first member: it is cut out here. */
  lemma CutHere(raw: Bytes, p: Bytes, members: seq<Member>, trail: Bytes)
    requires BeforeMember(p) && members != [] && members[0].Valid() && raw == p + Closed(members) + trail && members[0].key == BODY
    ensures var m, n := members[0], |p| + |members[0].Text()|;
      var v := m.SeenAt(|p|);
      && v.start <= v.end <= |raw| && n < |raw| && |p| + |m.before| <= |raw|
      && raw[v.start..v.end] == m.value
      && (raw[n] == (if |members| == 1 then RBRACE else COMMA) ==> CutAt(raw, |p| + |m.before|, v, n) == Expected(raw, p, members, trail))
  {
    hide At, Closed, Member.Text, Member.SeenAt, TrimComma, TrimSpaceRight, Remaining, Without, BeforeMember, Crossable, Quotable, Spaces;
    var m := members[0];
    PartAt(raw, p, Closed(members), trail);
    ClosedAt(raw, |p|, members);
    ValueSeen(raw, |p|, m);
    if |members| == 1 {
      assert members == [m];
      WithoutOnly(m);
      CutLast(raw, p, m, trail);
    } else {
      CutFirst(raw, p, members, trail);
    }
  }

  /** Another member is first: what is expected is expected further on. */
  lemma CutLater(raw: Bytes, p: Bytes, members: seq<Member>, trail: Bytes)
    requires |members| > 1 && members[0].key != BODY
    ensures Expected(raw, p, members, trail) == Expected(raw, p + members[0].Text() + [COMMA], members[1..], trail)
  {
    hide Member.Text, Remaining, Without;
    var k := FirstBody(members);
    assert k == 1 + FirstBody(members[1..]);
    if k < |members| {
      WithoutLater(members, k);
      OnwardRemaining(p, members[0], Without(members[1..], k - 1));
    }
  }

  lemma {:induction false} SplitFromIsExact(raw: Bytes, p: Bytes, members: seq<Member>, trail: Bytes)
    requires BeforeMember(p) && members != [] && forall m :: m in members ==> m.Valid()
    requires raw == p + Closed(members) + trail
    ensures SplitFrom(raw, |p|) == Expected(raw, p, members, trail)
    decreases |members|
  {
    hide SpaceAt, ReadMember, At, Closed, Member.Text, Member.SeenAt, Member.Valid, Expected, SplitFrom, CutAt, BeforeMember;
    var m := members[0];
    var v, n := m.SeenAt(|p|), |p| + |m.Text()|;
    PartAt(raw, p, Closed(members), trail);
    FirstRead(raw, |p|, members);
    ValueSeen(raw, |p|, m) by { ClosedAt(raw, |p|, members); }
    SeenKey(m, |p|);
    SplitOne(raw, |p|, v, n);
    if m.key == BODY {
      CutHere(raw, p, members, trail);
    } else if |members| > 1 {
      Onward(raw, p, members, trail);
      SplitFromIsExact(raw, p + m.Text() + [COMMA], members[1..], trail);
      CutLater(raw, p, members, trail);
    } else {
      NoBody(raw, p, members, trail);
    }
  }

  lemma NoBody(raw: Bytes, p: Bytes, members: seq<Member>, trail: Bytes)
    requires |members| == 1 && members[0].key != BODY
    ensures Expected(raw, p, members, trail) == Split(raw, None)
  {}

  lemma SeenKey(m: Member, i: nat)
    ensures m.SeenAt(i).key == m.key
  {}

  lemma WithoutOnly(m: Member)
    ensures Without([m], 0) == []
  {}

  lemma WithoutLater(members: seq<Member>, k: nat)
    requires 0 < k < |members|
    ensures Without(members, k) == [members[0]] + Without(members[1..], k - 1)
  {}

  /** Of any request object, with any space around it and any text after it,
      the first Body's exact value is returned and the rest is the object of
      the other members; without a Body the rest is the request itself. */
  lemma SplitRemovesTheBody(lead: Bytes, pad: Bytes, members: seq<Member>, trail: Bytes)
    requires Spaces(lead) && Spaces(pad) && forall m :: m in members ==> m.Valid()
    ensures var raw, k := lead + ObjectText(pad, members) + trail, FirstBody(members);
      SplitOf(raw) ==
        if k == |members| then Split(raw, None)
        else Split(lead + ObjectText([], Without(members, k)) + trail, Some(members[k].value))
  {
    hide SpaceAt, ReadMember, At, ObjectText, Inner, Closed, Member.Valid, FirstBody, Without, SplitFrom, Remaining, Spaces;
    var raw := lead + ObjectText(pad, members) + trail;
    PartAt(raw, lead, ObjectText(pad, members), trail);
    ObjectStands(raw, |lead|, pad, members);
    if members == [] {
      SplitEmpty(raw, |lead|, pad);
    } else {
      var p := lead + [LBRACE];
      OpenBrace(lead, pad, members, trail);
      SplitFromIsExact(raw, p, members, trail);
      if FirstBody(members) < |members| {
        RemainingObject(lead, Without(members, FirstBody(members)));
      }
    }
  }

  lemma OpenBrace(lead: Bytes, pad: Bytes, members: seq<Member>, trail: Bytes)
    requires members != []
    ensures lead + ObjectText(pad, members) + trail == lead + [LBRACE] + Closed(members) + trail
    ensures BeforeMember(lead + [LBRACE]) && |lead + [LBRACE]| == |lead| + 1
  {
    hide Closed;
  }

  lemma RemainingObject(lead: Bytes, left: seq<Member>)
    ensures Remaining(lead + [LBRACE], left) == lead + ObjectText([], left)
  {
    hide Closed;
    assert [] + [RBRACE] == [RBRACE];
  }

  lemma SplitEmpty(raw: Bytes, i: nat, pad: Bytes)
    requires i < |raw| && Spaces(pad) && At(raw, i + 1, Inner(pad, []))
    ensures SplitFrom(raw, i + 1) == Split(raw, None) && FirstBody([]) == 0
  {
    hide SpaceAt, ReadMember, At, Spaces;
    PaddedEnd(raw, i + 1, pad, RBRACE);
  }

  /** The same for any object of the grammar. */
  lemma SplitOfAnyObject(lead: Bytes, pad: Bytes, fields: seq<JsonText.Field>, trail: Bytes)
    requires Spaces(lead) && JsonText.WellFormed(JsonText.Object(pad, fields))
    ensures var members := JsonText.Written(fields);
      var raw, k := lead + JsonText.Text(JsonText.Object(pad, fields)) + trail, FirstBody(members);
      && SplitOf(raw) == (if k == |fields| then Split(raw, None)
         else Split(lead + ObjectText([], Without(members, k)) + trail, Some(JsonText.Text(fields[k].value))))
      && (k < |fields| ==> JsonText.Content(fields[k].key) == BODY)
  {
    JsonText.FieldsAreValid(fields);
    JsonText.AllWritten(fields);
    SplitRemovesTheBody(lead, pad, JsonText.Written(fields), trail);
  }
}
