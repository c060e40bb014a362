/** Visiting the members of an object and the elements of an array in place,
    without decoding them, compared with the text they were written as. */
module JsonWalk {
  import opened Bytes
  import opened JsonScan

  /** A member as a visitor sees it: its key as written, and where its value
      starts and ends. For an element the key is empty. */
  datatype Visit = Visit(key: Bytes, start: nat, end: nat)

  /** What was visited, and whether the text could be read so far. */
  datatype Walk = Walk(visits: seq<Visit>, ok: bool) {
    function After(earlier: seq<Visit>): Walk { Walk(earlier + visits, ok) }
  }

  /** The member whose key starts at i. */
  function ReadMember(raw: Bytes, i: nat): (v: Option<Visit>)
    ensures v.Some? ==> i < v.value.start < v.value.end <= |raw|
  {
    var keyEnd := StringAt(raw, i);
    if keyEnd.None? then None
    else
      var colon := SpaceAt(raw, keyEnd.value);
      if colon >= |raw| || raw[colon] != COLON then None
      else
        var start := SpaceAt(raw, colon + 1);
        var end := ValueAt(raw, start);
        if end.None? then None else Some(Visit(raw[i + 1..keyEnd.value - 1], start, end.value))
  }

  method ScanMember(raw: Bytes, i: nat) returns (v: Option<Visit>)
    requires i <= |raw|
    ensures v == ReadMember(raw, i)
  {
    var keyEnd;
    ghost var searched;
    keyEnd, searched := SkipString(raw, i);
    if keyEnd.None? {
      return None;
    }
    var colon := SkipSpace(raw, keyEnd.value);
    if colon >= |raw| || raw[colon] != COLON {
      return None;
    }
    var start := SkipSpace(raw, colon + 1);
    var end := SkipValue(raw, start);
    if end.None? {
      return None;
    }
    return Some(Visit(raw[i + 1..keyEnd.value - 1], start, end.value));
  }

  /** The walk from the key at i on; it ends early when the visitor refuses. */
  function MembersFrom(raw: Bytes, i: nat, visit: Visit -> bool): Walk
    decreases |raw| - i
  {
    var v := ReadMember(raw, i);
    if v.None? then Walk([], false)
    else
      var next := SpaceAt(raw, v.value.end);
      if !visit(v.value) then Walk([v.value], true)
      else if next >= |raw| then Walk([v.value], false)
      else if raw[next] == COMMA then MembersFrom(raw, SpaceAt(raw, next + 1), visit).After([v.value])
      else Walk([v.value], raw[next] == RBRACE)
  }

  function Members(raw: Bytes, visit: Visit -> bool): Walk {
    var open := SpaceAt(raw, 0);
    if open >= |raw| || raw[open] != LBRACE then Walk([], false)
    else
      var i := SpaceAt(raw, open + 1);
      if i < |raw| && raw[i] == RBRACE then Walk([], true) else MembersFrom(raw, i, visit)
  }

  lemma NextMember(raw: Bytes, i: nat, visit: Visit -> bool, v: Visit, next: nat)
    requires ReadMember(raw, i) == Some(v) && visit(v)
    requires v.end <= |raw| && SpaceAt(raw, v.end) == next < |raw| && raw[next] == COMMA
    ensures MembersFrom(raw, i, visit) == MembersFrom(raw, SpaceAt(raw, next + 1), visit).After([v])
  {
    hide ReadMember, SpaceAt;
  }

  lemma LastMember(raw: Bytes, i: nat, visit: Visit -> bool, v: Visit)
    requires ReadMember(raw, i) == Some(v) && v.end <= |raw|
    requires !visit(v) || (SpaceAt(raw, v.end) < |raw| && raw[SpaceAt(raw, v.end)] == RBRACE)
    ensures MembersFrom(raw, i, visit) == Walk([v], true)
  {
    hide ReadMember, SpaceAt;
  }

  lemma AfterTwice(w: Walk, a: seq<Visit>, b: seq<Visit>)
    ensures w.After(b).After(a) == w.After(a + b)
  {
    assert a + (b + w.visits) == (a + b) + w.visits;
  }

  method VisitMembers(raw: Bytes, visit: Visit -> bool) returns (walk: Walk)
    ensures walk == Members(raw, visit)
  {
    hide SpaceAt, ReadMember;
    var i := SkipSpace(raw, 0);
    if i >= |raw| || raw[i] != LBRACE {
      return Walk([], false);
    }
    i := SkipSpace(raw, i + 1);
    if i < |raw| && raw[i] == RBRACE {
      return Walk([], true);
    }
    var visits := [];
    ghost var first := i;
    while true
      invariant i <= |raw| && MembersFrom(raw, first, visit) == MembersFrom(raw, i, visit).After(visits)
      decreases |raw| - i
    {
      var v := ScanMember(raw, i);
      if v.None? {
        return Walk(visits, false);
      }
      ghost var before := visits;
      visits := visits + [v.value];
      if !visit(v.value) {
        return Walk(visits, true);
      }
      var next := SkipSpace(raw, v.value.end);
      if next >= |raw| {
        return Walk(visits, false);
      }
      if raw[next] != COMMA {
        return Walk(visits, raw[next] == RBRACE);
      }
      NextMember(raw, i, visit, v.value, next);
      i := SkipSpace(raw, next + 1);
      AfterTwice(MembersFrom(raw, i, visit), before, [v.value]);
    }
  }

  function ElementsFrom(raw: Bytes, i: nat, visit: Visit -> bool): Walk
    decreases |raw| - i
  {
    var end := ValueAt(raw, i);
    if end.None? then Walk([], false)
    else
      var v := Visit([], i, end.value);
      var next := SpaceAt(raw, end.value);
      if !visit(v) then Walk([v], true)
      else if next >= |raw| then Walk([v], false)
      else if raw[next] == COMMA then ElementsFrom(raw, SpaceAt(raw, next + 1), visit).After([v])
      else Walk([v], raw[next] == RBRACKET)
  }

  function Elements(raw: Bytes, visit: Visit -> bool): Walk {
    var open := SpaceAt(raw, 0);
    if open >= |raw| || raw[open] != LBRACKET then Walk([], false)
    else
      var i := SpaceAt(raw, open + 1);
      if i < |raw| && raw[i] == RBRACKET then Walk([], true) else ElementsFrom(raw, i, visit)
  }

  method VisitElements(raw: Bytes, visit: Visit -> bool) returns (walk: Walk)
    ensures walk == Elements(raw, visit)
  {
    hide SpaceAt, ValueAt;
    var i := SkipSpace(raw, 0);
    if i >= |raw| || raw[i] != LBRACKET {
      return Walk([], false);
    }
    i := SkipSpace(raw, i + 1);
    if i < |raw| && raw[i] == RBRACKET {
      return Walk([], true);
    }
    var visits := [];
    ghost var first := i;
    while true
      invariant i <= |raw| && ElementsFrom(raw, first, visit) == ElementsFrom(raw, i, visit).After(visits)
      decreases |raw| - i
    {
      var end := SkipValue(raw, i);
      if end.None? {
        return Walk(visits, false);
      }
      var v := Visit([], i, end.value);
      ghost var before := visits;
      visits := visits + [v];
      if !visit(v) {
        return Walk(visits, true);
      }
      var next := SkipSpace(raw, end.value);
      if next >= |raw| {
        return Walk(visits, false);
      }
      if raw[next] != COMMA {
        return Walk(visits, raw[next] == RBRACKET);
      }
      i := SkipSpace(raw, next + 1);
      AfterTwice(ElementsFrom(raw, i, visit), before, [v]);
    }
  }

  /** A member as it is written, with the space around its parts. */
  datatype Member = Member(before: Bytes, key: Bytes, mid: Bytes, after: Bytes, value: Bytes, tail: Bytes) {
    ghost predicate Valid() {
      Spaces(before) && Quotable(key) && Spaces(mid) && Spaces(after) && Crossable(value) && Spaces(tail)
    }

    function Quoted(): Bytes { [QUOTE] + key + [QUOTE] }

    function FromColon(): Bytes { [COLON] + (after + (value + tail)) }

    function Text(): Bytes { before + (Quoted() + (mid + FromColon())) }

    /** Where the value starts in the text. */
    function Offset(): nat { |before| + |key| + 2 + |mid| + 1 + |after| }

    /** How a visitor sees it when its text starts at i. */
    function SeenAt(i: nat): Visit { Visit(key, i + Offset(), i + Offset() + |value|) }
  }

  lemma AtFirst(raw: Bytes, i: nat, t: Bytes)
    requires At(raw, i, t) && t != []
    ensures i < |raw| && raw[i] == t[0]
  {
    assert raw[i..i + |t|][0] == raw[i];
  }

  lemma ValueStands(raw: Bytes, i: nat, m: Member)
    requires m.Valid() && At(raw, i, m.value + m.tail)
    requires i + |m.value + m.tail| < |raw| && IsDelimiter(raw[i + |m.value + m.tail|]) && !IsSpace(raw[i + |m.value + m.tail|])
    ensures !IsSpace(raw[i]) && ValueAt(raw, i) == Some(i + |m.value|)
    ensures SpaceAt(raw, i + |m.value|) == i + |m.value + m.tail|
  {
    hide SpaceAt, ValueAt, At, Crossable, Quotable, Member.Text;
    AtParts(raw, i, m.value, m.tail);
    CrossableStart(m.value);
    AtFirst(raw, i, m.value);
    SpacesAt(raw, i + |m.value|, m.tail);
    if m.tail != [] {
      AtFirst(raw, i + |m.value|, m.tail);
    }
    CrossableAt(raw, i, m.value);
  }

  lemma ColonStands(raw: Bytes, i: nat, m: Member)
    requires m.Valid() && At(raw, i, m.mid + m.FromColon())
    requires var n := i + |m.mid + m.FromColon()|; n < |raw| && IsDelimiter(raw[n]) && !IsSpace(raw[n])
    ensures var c := i + |m.mid|;
      && SpaceAt(raw, i) == c && c < |raw| && raw[c] == COLON && SpaceAt(raw, c + 1) == c + 1 + |m.after|
      && ValueAt(raw, c + 1 + |m.after|) == Some(c + 1 + |m.after| + |m.value|)
      && SpaceAt(raw, c + 1 + |m.after| + |m.value|) == i + |m.mid + m.FromColon()|
  {
    hide SpaceAt, ValueAt, At, Crossable, Spaces, Quotable, IsDelimiter, Member.Text;
    var c := i + |m.mid|;
    AtParts(raw, i, m.mid, m.FromColon());
    AtFirst(raw, c, m.FromColon());
    SpacesAt(raw, i, m.mid);
    AtParts(raw, c, [COLON], m.after + (m.value + m.tail));
    AtParts(raw, c + 1, m.after, m.value + m.tail);
    ValueStands(raw, c + 1 + |m.after|, m);
    SpacesAt(raw, c + 1, m.after);
  }

  lemma KeyStands(raw: Bytes, k: nat, m: Member)
    requires m.Valid() && At(raw, k, m.Quoted())
    ensures k < |raw| && raw[k] == QUOTE && StringAt(raw, k) == Some(k + |m.Quoted()|)
    ensures raw[k + 1..k + |m.Quoted()| - 1] == m.key
  {
    hide StringAt, Spaces, Crossable, Quotable;
    AtFirst(raw, k, m.Quoted());
    QuotedAt(raw, k, m.key);
    AtParts(raw, k, [QUOTE] + m.key, [QUOTE]);
    AtParts(raw, k, [QUOTE], m.key);
  }

  /** Where the parts of a member stand. */
  lemma MemberParts(raw: Bytes, i: nat, m: Member)
    requires At(raw, i, m.Text())
    ensures At(raw, i, m.before) && At(raw, i + |m.before|, m.Quoted())
    ensures At(raw, i + |m.before| + |m.Quoted()|, m.mid + m.FromColon())
    ensures |m.Text()| == |m.before| + |m.Quoted()| + |m.mid + m.FromColon()|
  {
    hide At, Member.Quoted, Member.FromColon;
    AtParts(raw, i, m.before, m.Quoted() + (m.mid + m.FromColon()));
    AtParts(raw, i + |m.before|, m.Quoted(), m.mid + m.FromColon());
  }

  /** Reading one member where it stands. */
  lemma MemberStands(raw: Bytes, i: nat, m: Member)
    requires m.Valid() && At(raw, i, m.Text())
    requires i + |m.Text()| < |raw| && IsDelimiter(raw[i + |m.Text()|]) && !IsSpace(raw[i + |m.Text()|])
    ensures var k := i + |m.before|;
      && SpaceAt(raw, i) == k && k < |raw| && raw[k] == QUOTE
      && ReadMember(raw, k) == Some(m.SeenAt(i))
      && SpaceAt(raw, m.SeenAt(i).end) == i + |m.Text()|
  {
    hide SpaceAt, ValueAt, StringAt, Crossable, Spaces, Quotable, At, Member.Text, Member.FromColon, IsDelimiter;
    var k := i + |m.before|;
    MemberParts(raw, i, m);
    KeyStands(raw, k, m);
    SpacesAt(raw, i, m.before);
    ColonStands(raw, k + |m.Quoted()|, m);
  }

  /** The members and the brace that closes them. */
  function Closed(members: seq<Member>): Bytes
    requires members != []
  {
    members[0].Text() + (if |members| == 1 then [RBRACE] else [COMMA] + Closed(members[1..]))
  }

  /** What follows the opening brace: pad is the space inside an empty object. */
  function Inner(pad: Bytes, members: seq<Member>): Bytes {
    if members == [] then pad + [RBRACE] else Closed(members)
  }

  function ObjectText(pad: Bytes, members: seq<Member>): Bytes { [LBRACE] + Inner(pad, members) }

  lemma Marks()
    ensures !IsSpace(COMMA) && !IsSpace(LBRACE) && !IsSpace(RBRACE) && IsDelimiter(COMMA) && IsDelimiter(RBRACE)
  {}

  function SeenFrom(members: seq<Member>, i: nat): seq<Visit> {
    if members == [] then [] else [members[0].SeenAt(i)] + SeenFrom(members[1..], i + |members[0].Text()| + 1)
  }

  /** Everything up to and with the first visit the visitor refuses. */
  function UntilRefused(visits: seq<Visit>, visit: Visit -> bool): seq<Visit> {
    if visits == [] then [] else if !visit(visits[0]) then [visits[0]] else [visits[0]] + UntilRefused(visits[1..], visit)
  }

  lemma UntilRefusedCons(v: Visit, rest: seq<Visit>, visit: Visit -> bool)
    ensures UntilRefused([v] + rest, visit) == if !visit(v) then [v] else [v] + UntilRefused(rest, visit)
  {
    assert ([v] + rest)[1..] == rest;
  }

  /** The members at i, seen as the first and what follows it. */
  lemma ClosedAt(raw: Bytes, i: nat, members: seq<Member>)
    requires members != [] && At(raw, i, Closed(members))
    ensures var n := i + |members[0].Text()|;
      && At(raw, i, members[0].Text()) && n < |raw|
      && raw[n] == (if |members| == 1 then RBRACE else COMMA)
      && (|members| > 1 ==> At(raw, n + 1, Closed(members[1..])))
  {
    hide At, Member.Text;
    var text := members[0].Text();
    var rest := if |members| == 1 then [RBRACE] else [COMMA] + Closed(members[1..]);
    AtParts(raw, i, text, rest);
    AtFirst(raw, i + |text|, rest);
    if |members| > 1 {
      AtParts(raw, i + |text|, [COMMA], Closed(members[1..]));
    }
  }

  /** Reading the first of the members at i. */
  lemma FirstRead(raw: Bytes, i: nat, members: seq<Member>)
    requires members != [] && members[0].Valid() && At(raw, i, Closed(members))
    ensures var k, v, n := i + |members[0].before|, members[0].SeenAt(i), i + |members[0].Text()|;
      && SpaceAt(raw, i) == k < |raw| && raw[k] == QUOTE && ReadMember(raw, k) == Some(v) && v.end <= |raw|
      && SpaceAt(raw, v.end) == n < |raw| && raw[n] == (if |members| == 1 then RBRACE else COMMA)
      && (|members| > 1 ==> At(raw, n + 1, Closed(members[1..])))
  {
    hide *;
    Marks();
    ClosedAt(raw, i, members);
    MemberStands(raw, i, members[0]);
  }

  lemma {:induction false} MembersFromIsExact(raw: Bytes, i: nat, members: seq<Member>, visit: Visit -> bool)
    requires members != [] && forall m :: m in members ==> m.Valid()
    requires At(raw, i, Closed(members))
    ensures SpaceAt(raw, i) == i + |members[0].before| < |raw| && raw[i + |members[0].before|] == QUOTE
    ensures MembersFrom(raw, i + |members[0].before|, visit) == Walk(UntilRefused(SeenFrom(members, i), visit), true)
    decreases |members|
  {
    hide SpaceAt, ReadMember, MembersFrom, At, Member.Text, Member.Valid, Member.SeenAt, Closed, UntilRefused;
    var k, v, n := i + |members[0].before|, members[0].SeenAt(i), i + |members[0].Text()|;
    var rest := SeenFrom(members[1..], n + 1);
    UntilRefusedCons(v, rest, visit);
    FirstRead(raw, i, members);
    if !visit(v) {
      LastMember(raw, k, visit, v);
    } else if |members| == 1 {
      LastMember(raw, k, visit, v);
      assert members[1..] == [];
      SeenNone(n + 1, visit);
    } else {
      NextMember(raw, k, visit, v, n);
      MembersFromIsExact(raw, n + 1, members[1..], visit);
    }
  }

  lemma SeenNone(i: nat, visit: Visit -> bool)
    ensures SeenFrom([], i) == [] && UntilRefused([], visit) == []
  {}

  lemma PrefixAt(raw: Bytes, i: nat)
    requires i <= |raw|
    ensures At(raw, 0, raw[..i])
  {}

  /** An object that stands after nothing but space. */
  lemma ObjectStands(raw: Bytes, i: nat, pad: Bytes, members: seq<Member>)
    requires i <= |raw| && At(raw, i, ObjectText(pad, members)) && Spaces(raw[..i])
    ensures SpaceAt(raw, 0) == i < |raw| && raw[i] == LBRACE
    ensures At(raw, i + 1, Inner(pad, members))
  {
    hide At, SpaceAt, Spaces, Inner, IsSpace, IsDelimiter;
    Marks();
    PrefixAt(raw, i);
    AtParts(raw, i, [LBRACE], Inner(pad, members));
    AtFirst(raw, i, [LBRACE]);
    SpacesAt(raw, 0, raw[..i]);
  }

  lemma PaddedEnd(raw: Bytes, i: nat, pad: Bytes, close: byte)
    requires Spaces(pad) && !IsSpace(close) && At(raw, i, pad + [close])
    ensures i + |pad| < |raw| && SpaceAt(raw, i) == i + |pad| && raw[i + |pad|] == close
  {
    hide SpaceAt, At, Spaces, IsSpace;
    AtParts(raw, i, pad, [close]);
    AtFirst(raw, i + |pad|, [close]);
    SpacesAt(raw, i, pad);
  }

  /** Every member of an object is visited once, in order, with its exact
      key and span, until the visitor refuses one. */
  lemma MembersAreExact(raw: Bytes, i: nat, pad: Bytes, members: seq<Member>, visit: Visit -> bool)
    requires i <= |raw| && At(raw, i, ObjectText(pad, members)) && Spaces(raw[..i])
    requires Spaces(pad) && forall m :: m in members ==> m.Valid()
    ensures Members(raw, visit) == Walk(UntilRefused(SeenFrom(members, i + 1), visit), true)
  {
    hide SpaceAt, ObjectText, At, MembersFrom, Closed, Spaces, Member.Valid, IsSpace, IsDelimiter;
    Marks();
    ObjectStands(raw, i, pad, members);
    if members == [] {
      PaddedEnd(raw, i + 1, pad, RBRACE);
    } else {
      MembersFromIsExact(raw, i + 1, members, visit);
    }
  }

  lemma ValueStandsAt(raw: Bytes, i: nat, m: Member)
    requires At(raw, i, m.Text())
    ensures At(raw, i + m.Offset(), m.value)
  {
    hide At, Member.Text;
    var q := i + |m.before| + |m.Quoted()|;
    MemberParts(raw, i, m);
    AtParts(raw, q, m.mid, m.FromColon());
    AtParts(raw, q + |m.mid|, [COLON], m.after + (m.value + m.tail));
    AtParts(raw, q + |m.mid| + 1, m.after, m.value + m.tail);
    AtParts(raw, i + m.Offset(), m.value, m.tail);
  }

  lemma ValueSeen(raw: Bytes, i: nat, m: Member)
    requires At(raw, i, m.Text())
    ensures var v := m.SeenAt(i); v.start <= v.end <= |raw| && raw[v.start..v.end] == m.value
  {
    hide Member.Text, Member.Offset;
    ValueStandsAt(raw, i, m);
  }

  /** The visited span of each member is its value. */
  lemma {:induction false} SeenValues(raw: Bytes, i: nat, members: seq<Member>)
    requires members != [] ==> At(raw, i, Closed(members))
    ensures |SeenFrom(members, i)| == |members|
    ensures forall k :: 0 <= k < |members| ==> var v := SeenFrom(members, i)[k];
            v.key == members[k].key && v.start <= v.end <= |raw| && raw[v.start..v.end] == members[k].value
    decreases |members|
  {
    hide At, Closed, Member.Text, Member.Offset;
    if members != [] {
      ClosedAt(raw, i, members);
      ValueSeen(raw, i, members[0]);
      SeenValues(raw, i + |members[0].Text()| + 1, members[1..]);
    }
  }

  /** An array element as it is written. */
  datatype Piece = Piece(before: Bytes, value: Bytes, tail: Bytes) {
    ghost predicate Valid() { Spaces(before) && Crossable(value) && Spaces(tail) }

    function Text(): Bytes { before + (value + tail) }

    function SeenAt(i: nat): Visit { Visit([], i + |before|, i + |before| + |value|) }
  }

  /** The elements and the bracket that closes them. */
  function ClosedArray(pieces: seq<Piece>): Bytes
    requires pieces != []
  {
    pieces[0].Text() + (if |pieces| == 1 then [RBRACKET] else [COMMA] + ClosedArray(pieces[1..]))
  }

  function InnerArray(pad: Bytes, pieces: seq<Piece>): Bytes {
    if pieces == [] then pad + [RBRACKET] else ClosedArray(pieces)
  }

  function ArrayText(pad: Bytes, pieces: seq<Piece>): Bytes { [LBRACKET] + InnerArray(pad, pieces) }

  function PiecesSeen(pieces: seq<Piece>, i: nat): seq<Visit> {
    if pieces == [] then [] else [pieces[0].SeenAt(i)] + PiecesSeen(pieces[1..], i + |pieces[0].Text()| + 1)
  }

  lemma NextElement(raw: Bytes, i: nat, visit: Visit -> bool, end: nat, next: nat)
    requires ValueAt(raw, i) == Some(end) && visit(Visit([], i, end))
    requires SpaceAt(raw, end) == next < |raw| && raw[next] == COMMA
    ensures ElementsFrom(raw, i, visit) == ElementsFrom(raw, SpaceAt(raw, next + 1), visit).After([Visit([], i, end)])
  {
    hide ValueAt, SpaceAt;
  }

  lemma LastElement(raw: Bytes, i: nat, visit: Visit -> bool, end: nat)
    requires ValueAt(raw, i) == Some(end)
    requires !visit(Visit([], i, end)) || (SpaceAt(raw, end) < |raw| && raw[SpaceAt(raw, end)] == RBRACKET)
    ensures ElementsFrom(raw, i, visit) == Walk([Visit([], i, end)], true)
  {
    hide ValueAt, SpaceAt;
  }

  lemma ClosedArrayAt(raw: Bytes, i: nat, pieces: seq<Piece>)
    requires pieces != [] && At(raw, i, ClosedArray(pieces))
    ensures var n := i + |pieces[0].Text()|;
      && At(raw, i, pieces[0].Text()) && n < |raw|
      && raw[n] == (if |pieces| == 1 then RBRACKET else COMMA)
      && (|pieces| > 1 ==> At(raw, n + 1, ClosedArray(pieces[1..])))
  {
    hide At, Piece.Text;
    var text := pieces[0].Text();
    var rest := if |pieces| == 1 then [RBRACKET] else [COMMA] + ClosedArray(pieces[1..]);
    AtParts(raw, i, text, rest);
    AtFirst(raw, i + |text|, rest);
    if |pieces| > 1 {
      AtParts(raw, i + |text|, [COMMA], ClosedArray(pieces[1..]));
    }
  }

  lemma EmptyKey()
    ensures Quotable([]) && Spaces([])
  {
    assert [QUOTE] + [] + [QUOTE] == [QUOTE, QUOTE];
    assert [QUOTE, QUOTE][1..] == [QUOTE];
  }

  lemma PieceStands(raw: Bytes, i: nat, p: Piece)
    requires p.Valid() && At(raw, i, p.Text())
    requires var n := i + |p.Text()|; n < |raw| && IsDelimiter(raw[n]) && !IsSpace(raw[n])
    ensures var k := i + |p.before|;
      && SpaceAt(raw, i) == k && k < |raw| && At(raw, k, p.value)
      && ValueAt(raw, k) == Some(k + |p.value|) && SpaceAt(raw, k + |p.value|) == i + |p.Text()|
      && p.value != [] && raw[k] == p.value[0]
  {
    hide SpaceAt, ValueAt, At, Crossable, Spaces, Quotable, IsDelimiter;
    var k, m := i + |p.before|, Member(p.before, [], [], [], p.value, p.tail);
    EmptyKey();
    AtParts(raw, i, p.before, p.value + p.tail);
    AtParts(raw, k, p.value, p.tail);
    ValueStands(raw, k, m);
    SpacesAt(raw, i, p.before);
    CrossableStart(p.value);
    AtFirst(raw, k, p.value);
  }

  lemma FirstElement(raw: Bytes, i: nat, pieces: seq<Piece>)
    requires pieces != [] && pieces[0].Valid() && At(raw, i, ClosedArray(pieces))
    ensures var v, n := pieces[0].SeenAt(i), i + |pieces[0].Text()|;
      && SpaceAt(raw, i) == v.start < |raw| && ValueAt(raw, v.start) == Some(v.end) && v.end <= |raw|
      && pieces[0].value != [] && raw[v.start] == pieces[0].value[0] && At(raw, v.start, pieces[0].value)
      && SpaceAt(raw, v.end) == n < |raw| && raw[n] == (if |pieces| == 1 then RBRACKET else COMMA)
      && (|pieces| > 1 ==> At(raw, n + 1, ClosedArray(pieces[1..])))
  {
    hide At, SpaceAt, ValueAt, ClosedArray, Piece.Text, Piece.Valid, IsSpace, IsDelimiter;
    BracketMarks();
    ClosedArrayAt(raw, i, pieces);
    PieceStands(raw, i, pieces[0]);
  }

  lemma BracketMarks()
    ensures !IsSpace(COMMA) && !IsSpace(LBRACKET) && !IsSpace(RBRACKET) && IsDelimiter(COMMA) && IsDelimiter(RBRACKET)
  {}

  lemma {:induction false} ElementsFromIsExact(raw: Bytes, i: nat, pieces: seq<Piece>, visit: Visit -> bool)
    requires pieces != [] && forall p :: p in pieces ==> p.Valid()
    requires At(raw, i, ClosedArray(pieces))
    ensures SpaceAt(raw, i) == i + |pieces[0].before| < |raw|
    ensures pieces[0].value != [] && raw[i + |pieces[0].before|] == pieces[0].value[0]
    ensures ElementsFrom(raw, i + |pieces[0].before|, visit) == Walk(UntilRefused(PiecesSeen(pieces, i), visit), true)
    decreases |pieces|
  {
    hide SpaceAt, ValueAt, ElementsFrom, At, Piece.Text, Piece.Valid, ClosedArray, UntilRefused, PiecesSeen;
    var v, n := pieces[0].SeenAt(i), i + |pieces[0].Text()|;
    var rest := PiecesSeen(pieces[1..], n + 1);
    PiecesCons(pieces, i);
    UntilRefusedCons(v, rest, visit);
    FirstElement(raw, i, pieces);
    if !visit(v) {
      LastElement(raw, v.start, visit, v.end);
    } else if |pieces| == 1 {
      LastElement(raw, v.start, visit, v.end);
      assert pieces[1..] == [];
      PiecesNone(n + 1, visit);
    } else {
      NextElement(raw, v.start, visit, v.end, n);
      ElementsFromIsExact(raw, n + 1, pieces[1..], visit);
    }
  }

  lemma PiecesCons(pieces: seq<Piece>, i: nat)
    requires pieces != []
    ensures PiecesSeen(pieces, i) == [pieces[0].SeenAt(i)] + PiecesSeen(pieces[1..], i + |pieces[0].Text()| + 1)
  {}

  lemma PiecesNone(i: nat, visit: Visit -> bool)
    ensures PiecesSeen([], i) == [] && UntilRefused([], visit) == []
  {}

  lemma PieceStart(p: Piece)
    requires p.Valid()
    ensures p.value != [] && p.value[0] != RBRACKET
  {
    hide Crossable;
    CrossableStart(p.value);
  }

  /** Every element of an array is visited once, in order, with its exact
      span, until the visitor refuses one. */
  lemma ElementsAreExact(raw: Bytes, i: nat, pad: Bytes, pieces: seq<Piece>, visit: Visit -> bool)
    requires i <= |raw| && At(raw, i, ArrayText(pad, pieces)) && Spaces(raw[..i])
    requires Spaces(pad) && forall p :: p in pieces ==> p.Valid()
    ensures Elements(raw, visit) == Walk(UntilRefused(PiecesSeen(pieces, i + 1), visit), true)
  {
    hide SpaceAt, At, ElementsFrom, ClosedArray, Spaces, Piece.Valid, IsSpace, IsDelimiter;
    BracketMarks();
    PrefixAt(raw, i);
    AtParts(raw, i, [LBRACKET], InnerArray(pad, pieces));
    AtFirst(raw, i, [LBRACKET]);
    SpacesAt(raw, 0, raw[..i]);
    if pieces == [] {
      PaddedEnd(raw, i + 1, pad, RBRACKET);
    } else {
      PieceStart(pieces[0]);
      ElementsFromIsExact(raw, i + 1, pieces, visit);
    }
  }

  lemma PieceSeen(raw: Bytes, i: nat, p: Piece)
    requires At(raw, i, p.Text())
    ensures var v := p.SeenAt(i); v.start <= v.end <= |raw| && raw[v.start..v.end] == p.value
  {
    AtParts(raw, i, p.before, p.value + p.tail);
    AtParts(raw, i + |p.before|, p.value, p.tail);
  }

  /** The visited span of each element is its value. */
  lemma {:induction false} PieceValues(raw: Bytes, i: nat, pieces: seq<Piece>)
    requires pieces != [] ==> At(raw, i, ClosedArray(pieces))
    ensures |PiecesSeen(pieces, i)| == |pieces|
    ensures forall k :: 0 <= k < |pieces| ==> var v := PiecesSeen(pieces, i)[k];
            v.start <= v.end <= |raw| && raw[v.start..v.end] == pieces[k].value
    decreases |pieces|
  {
    hide At, ClosedArray, Piece.Text;
    if pieces != [] {
      ClosedArrayAt(raw, i, pieces);
      PieceSeen(raw, i, pieces[0]);
      PieceValues(raw, i + |pieces[0].Text()| + 1, pieces[1..]);
    }
  }
}
