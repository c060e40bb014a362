/** Reading a model's event stream. Chunks come cut anywhere and may
    leave out a line break between fields; the buffer joins them and keeps only
    the lines the parser reads. Keeping fewer lines is shown not to
    change what the parser returns. */
module EventStream {
  import opened Bytes
  import opened TextLines

  /** The event types the parser looks at. */
  datatype Kind = ItemDone | Final | ErrorEvent | Other

  datatype Event<+Raw> = Event(kind: Kind, response: Raw, item: Raw)

  /** What decoding a JSON text gives; the decoder itself is a parameter. A
      final response is decoded over the fields an earlier one set. */
  datatype Codec<!Raw, !Item, !Body> = Codec(
    event: Bytes -> Option<Event<Raw>>,
    item: Raw -> Option<Item>,
    body: (Body, Raw) -> (Body, bool),
    empty: Body,
    hasOutput: Body -> bool,
    withOutput: (Body, seq<Item>) -> Body)

  /** The UTF-8 encodings of white space. */
  predicate IsBlank(s: Bytes) {
    match |s|
    case 1 => s[0] == SPACE || 9 <= s[0] <= 13
    case 2 => s[0] == 0xC2 && s[1] in {0x85, 0xA0}
    case 3 =>
      || s == [0xE1, 0x9A, 0x80] || s == [0xE3, 0x80, 0x80] || s == [0xE2, 0x81, 0x9F]
      || (s[0] == 0xE2 && s[1] == 0x80 && (0x80 <= s[2] <= 0x8A || s[2] in {0xA8, 0xA9, 0xAF}))
    case _ => false
  }

  /** How many bytes of white space the text begins with, one character's. */
  function BlankBefore(s: Bytes): (n: nat)
    ensures n <= |s| && n <= 3
  {
    if |s| >= 1 && IsBlank(s[..1]) then 1 else if |s| >= 2 && IsBlank(s[..2]) then 2 else if |s| >= 3 && IsBlank(s[..3]) then 3 else 0
  }

  function BlankAfter(s: Bytes): (n: nat)
    ensures n <= |s| && n <= 3
  {
    if |s| >= 1 && IsBlank(s[|s| - 1..]) then 1
    else if |s| >= 2 && IsBlank(s[|s| - 2..]) then 2
    else if |s| >= 3 && IsBlank(s[|s| - 3..]) then 3
    else 0
  }

  function TrimFront(s: Bytes): Bytes { if BlankBefore(s) > 0 then TrimFront(s[BlankBefore(s)..]) else s }

  function TrimEnd(s: Bytes): Bytes { if BlankAfter(s) > 0 then TrimEnd(s[..|s| - BlankAfter(s)]) else s }

  function TrimSpace(s: Bytes): Bytes { TrimEnd(TrimFront(s)) }

  function TrimLeft(s: Bytes, blank: byte -> bool): Bytes {
    if s != [] && blank(s[0]) then TrimLeft(s[1..], blank) else s
  }

  /** Characters one after another. */
  function Flat(chars: seq<Bytes>): Bytes { if chars == [] then [] else Flat(chars[..|chars| - 1]) + chars[|chars| - 1] }

  predicate Blank(chars: seq<Bytes>) { forall c :: c in chars ==> IsBlank(c) }

  lemma {:induction false} FlatFirst(c: Bytes, chars: seq<Bytes>)
    ensures Flat([c] + chars) == c + Flat(chars)
    decreases |chars|
  {
    var all := [c] + chars;
    if chars == [] {
      assert all[..0] == [];
    } else {
      var n := |chars| - 1;
      FlatFirst(c, chars[..n]);
      assert all[..|all| - 1] == [c] + chars[..n];
      assert c + Flat(chars[..n]) + chars[n] == c + (Flat(chars[..n]) + chars[n]);
    }
  }

  /** Trimming takes away the white space at both ends and nothing else. */
  lemma TrimSplits(s: Bytes) returns (before: seq<Bytes>, after: seq<Bytes>)
    ensures s == Flat(before) + TrimSpace(s) + Flat(after) && Blank(before) && Blank(after)
    ensures BlankAfter(TrimSpace(s)) == 0 && BlankBefore(TrimFront(s)) == 0
    ensures TrimSpace(s) != [] ==> TrimSpace(s)[0] == TrimFront(s)[0]
  {
    hide TrimFront, TrimEnd, BlankBefore, BlankAfter, Flat;
    before := FrontSplits(s);
    after := EndSplits(TrimFront(s));
    assert s == Flat(before) + (TrimSpace(s) + Flat(after));
  }

  lemma {:induction false} FrontSplits(s: Bytes) returns (before: seq<Bytes>)
    ensures s == Flat(before) + TrimFront(s) && Blank(before) && BlankBefore(TrimFront(s)) == 0
  {
    hide Flat, IsBlank, BlankBefore, TrimFront;
    FrontStep(s);
    var n := BlankBefore(s);
    if n > 0 {
      var rest := FrontSplits(s[n..]);
      before := [s[..n]] + rest;
      FlatFirst(s[..n], rest);
      assert s == s[..n] + s[n..] == s[..n] + (Flat(rest) + TrimFront(s));
    } else {
      before := [];
      NothingFlat(s);
    }
  }

  lemma FrontStep(s: Bytes)
    ensures var n := BlankBefore(s);
      if n > 0 then IsBlank(s[..n]) && TrimFront(s) == TrimFront(s[n..]) else TrimFront(s) == s
  {
    hide IsBlank;
  }

  lemma EndStep(s: Bytes)
    ensures var n := BlankAfter(s);
      if n > 0 then IsBlank(s[|s| - n..]) && TrimEnd(s) == TrimEnd(s[..|s| - n]) else TrimEnd(s) == s
  {
    hide IsBlank;
  }

  lemma NothingFlat(s: Bytes)
    ensures Flat([]) + s == s && s + Flat([]) == s
  {}

  lemma {:induction false} EndSplits(s: Bytes) returns (after: seq<Bytes>)
    ensures s == TrimEnd(s) + Flat(after) && Blank(after) && BlankAfter(TrimEnd(s)) == 0
    ensures TrimEnd(s) != [] ==> TrimEnd(s)[0] == s[0]
  {
    hide Flat, IsBlank, BlankAfter, TrimEnd;
    EndStep(s);
    var n := BlankAfter(s);
    if n > 0 {
      var m := |s| - n;
      var rest := EndSplits(s[..m]);
      after := rest + [s[m..]];
      FlatLast(rest, s[m..]);
      assert s == s[..m] + s[m..] == TrimEnd(s) + Flat(rest) + s[m..];
    } else {
      after := [];
      NothingFlat(s);
    }
  }

  lemma FlatLast(chars: seq<Bytes>, c: Bytes)
    ensures Flat(chars + [c]) == Flat(chars) + c
  {
    assert (chars + [c])[..|chars|] == chars;
  }

  predicate HasPrefix(s: Bytes, prefix: Bytes) { prefix <= s }

  const FIELDS: set<Bytes> := {Ascii("data:"), Ascii("event:"), Ascii("id:"), Ascii("retry:"), Ascii(":")}

  predicate StartsField(chunk: Bytes) {
    var text := TrimLeft(chunk, c => c == SPACE || c == TAB);
    || HasPrefix(text, Ascii("data:"))
    || HasPrefix(text, Ascii("event:"))
    || HasPrefix(text, Ascii("id:"))
    || HasPrefix(text, Ascii("retry:"))
    || HasPrefix(text, Ascii(":"))
  }

  /** Spaces and tabs, then the name of a field. */
  ghost predicate FieldAt(chunk: Bytes, n: nat)
    requires n <= |chunk|
  {
    && (forall i :: 0 <= i < n ==> chunk[i] == SPACE || chunk[i] == TAB)
    && exists name :: name in FIELDS && name <= chunk[n..]
  }

  function Indent(s: Bytes): (n: nat)
    ensures n <= |s| && forall i :: 0 <= i < n ==> s[i] == SPACE || s[i] == TAB
    ensures n < |s| ==> s[n] != SPACE && s[n] != TAB
    ensures TrimLeft(s, c => c == SPACE || c == TAB) == s[n..]
  {
    if s != [] && (s[0] == SPACE || s[0] == TAB) then 1 + Indent(s[1..]) else 0
  }

  lemma StartsFieldIff(chunk: Bytes)
    ensures StartsField(chunk) <==> exists n | 0 <= n <= |chunk| :: FieldAt(chunk, n)
  {
    hide StartsField, FieldAt;
    FieldAtIndent(chunk);
    if m :| 0 <= m <= |chunk| && FieldAt(chunk, m) {
      IndentIs(chunk, m);
    }
  }

  lemma FieldAtIndent(chunk: Bytes)
    ensures StartsField(chunk) <==> FieldAt(chunk, Indent(chunk))
  {
    hide TrimLeft, Indent;
    NamesAField(chunk[Indent(chunk)..]);
  }

  lemma NamesAField(text: Bytes)
    ensures (exists name :: name in FIELDS && name <= text) <==>
      || HasPrefix(text, Ascii("data:"))
      || HasPrefix(text, Ascii("event:"))
      || HasPrefix(text, Ascii("id:"))
      || HasPrefix(text, Ascii("retry:"))
      || HasPrefix(text, Ascii(":"))
  {
    hide Ascii;
    assert Ascii("data:") in FIELDS && Ascii("event:") in FIELDS && Ascii("id:") in FIELDS && Ascii("retry:") in FIELDS && Ascii(":") in FIELDS;
  }

  lemma IndentIs(chunk: Bytes, n: nat)
    requires n <= |chunk| && FieldAt(chunk, n)
    ensures n == Indent(chunk)
  {
    hide TrimLeft, Indent, FIELDS;
    var name :| name in FIELDS && name <= chunk[n..];
    FieldLetter(name);
    Starts(chunk, n, name);
    FirstLetter(chunk, n);
  }

  lemma Starts(chunk: Bytes, n: nat, name: Bytes)
    requires n <= |chunk| && name <= chunk[n..] && name != []
    ensures n < |chunk| && chunk[n] == name[0]
  {}

  lemma FirstLetter(chunk: Bytes, n: nat)
    requires n < |chunk| && chunk[n] != SPACE && chunk[n] != TAB && forall i :: 0 <= i < n ==> chunk[i] == SPACE || chunk[i] == TAB
    ensures n == Indent(chunk)
  {}

  lemma FieldLetter(name: Bytes)
    requires name in FIELDS
    ensures name != [] && name[0] != SPACE && name[0] != TAB
  {}

  /** The payload of a data line. */
  function Data(line: Bytes): Option<Bytes> {
    var text := TrimSpace(line);
    if HasPrefix(text, Ascii("data:")) then Some(text[5..]) else None
  }

  /** The payload is what follows the field's name on the trimmed line. */
  lemma DataIs(line: Bytes, payload: Bytes)
    ensures Data(line) == Some(payload) <==> TrimSpace(line) == Ascii("data:") + payload
  {
    hide TrimSpace;
    var text := TrimSpace(line);
    if HasPrefix(text, Ascii("data:")) {
      assert text == Ascii("data:") + text[5..];
    }
  }

  predicate Relevant<Raw, Item, Body>(codec: Codec<Raw, Item, Body>, line: Bytes) {
    var data := Data(line);
    data.Some? && codec.event(data.value).Some? && !codec.event(data.value).value.kind.Other?
  }

  /** The stream so far with one more chunk: on a line of its own when it
      starts a field in the middle of a line. */
  function Join(stream: Bytes, chunk: Bytes): Bytes {
    if stream != [] && stream[|stream| - 1] != LF && StartsField(chunk) then stream + [LF] + chunk
    else stream + chunk
  }

  /** Chunks with a field at the front start a line; any other goes on with the
      open one. */
  lemma FieldStartsLine(stream: Bytes, chunk: Bytes)
    ensures var a, b, joined := Lines(stream), Lines(chunk), Lines(Join(stream, chunk));
      if StartsField(chunk) && a[|a| - 1] != [] then joined == a + b else joined == a[..|a| - 1] + [a[|a| - 1] + b[0]] + b[1..]
  {
    hide StartsField, Lines, Glue;
    OpenLine(stream);
    var a, b := Lines(stream), Lines(chunk);
    if StartsField(chunk) && a[|a| - 1] != [] {
      LinesBreak(stream);
      LinesAppend(stream + [LF], chunk);
      GlueFresh(a, b);
    } else {
      LinesAppend(stream, chunk);
      GlueParts(a, b);
    }
  }

  lemma GlueFresh(a: seq<Bytes>, b: seq<Bytes>)
    requires b != []
    ensures Glue(a + [[]], b) == a + b
  {
    assert (a + [[]])[..|a|] == a && [] + b[0] == b[0];
  }

  lemma GlueParts(a: seq<Bytes>, b: seq<Bytes>)
    requires a != [] && b != []
    ensures Glue(a, b) == a[..|a| - 1] + [a[|a| - 1] + b[0]] + b[1..]
  {}

  function JoinAll(chunks: seq<Bytes>): Bytes {
    if chunks == [] then []
    else Join(JoinAll(chunks[..|chunks| - 1]), chunks[|chunks| - 1])
  }

  /** The relevant lines, each closed by a line break. */
  function Kept<Raw, Item, Body>(codec: Codec<Raw, Item, Body>, lines: seq<Bytes>): Bytes {
    if lines == [] then []
    else (if Relevant(codec, lines[0]) then lines[0] + [LF] else []) + Kept(codec, lines[1..])
  }

  function Select<Raw, Item, Body>(codec: Codec<Raw, Item, Body>, lines: seq<Bytes>): seq<Bytes> {
    if lines == [] then []
    else (if Relevant(codec, lines[0]) then [lines[0]] else []) + Select(codec, lines[1..])
  }

  lemma {:induction false} KeptAppend<Raw, Item, Body>(codec: Codec<Raw, Item, Body>, a: seq<Bytes>, b: seq<Bytes>)
    ensures Kept(codec, a + b) == Kept(codec, a) + Kept(codec, b)
  {
    hide Relevant;
    if a == [] {
      assert a + b == b;
    } else {
      KeptAppend(codec, a[1..], b);
      assert (a + b)[1..] == a[1..] + b && (a + b)[0] == a[0];
    }
  }

  lemma ClosedLineFirst(line: Bytes, rest: Bytes)
    requires LF !in line
    ensures Lines(line + [LF] + rest) == [line] + Lines(rest)
  {
    hide Lines, Glue;
    LinesAppend(line + [LF], rest);
    LinesBreak(line);
    SingleLine(line);
    GlueFresh([line], Lines(rest));
  }

  lemma NoLines()
    ensures Lines([]) == [[]]
  {}

  /** Reading the kept text by lines gives back the relevant lines, and an
      empty one at the end. */
  lemma {:induction false} LinesOfKept<Raw, Item, Body>(codec: Codec<Raw, Item, Body>, lines: seq<Bytes>)
    requires forall line :: line in lines ==> LF !in line
    ensures Lines(Kept(codec, lines)) == Select(codec, lines) + [[]]
  {
    hide Relevant, Lines;
    NoLines();
    if lines != [] {
      LinesOfKept(codec, lines[1..]);
      if Relevant(codec, lines[0]) {
        ClosedLineFirst(lines[0], Kept(codec, lines[1..]));
      } else {
        assert Kept(codec, lines) == Kept(codec, lines[1..]);
      }
    }
  }

  datatype Failure = BadResponse | ModelError(text: Bytes) | Interrupted

  datatype Outcome<+Body> = Parsed(out: Body) | Failed(out: Body, failure: Failure)

  datatype Progress<+Item, +Body> = Reading(out: Body, items: seq<Item>, final: bool) | Stopped(outcome: Outcome<Body>)

  function Step<Raw, Item, Body>(codec: Codec<Raw, Item, Body>, p: Progress<Item, Body>, line: Bytes): Progress<Item, Body> {
    var data := Data(line);
    if p.Stopped? || data.None? || codec.event(data.value).None? then p
    else
      var event := codec.event(data.value).value;
      match event.kind
      case Other => p
      case ItemDone => (match codec.item(event.item) case Some(item) => p.(items := p.items + [item]) case None => p)
      case Final =>
        var (out, ok) := codec.body(p.out, event.response);
        if ok then p.(out := out, final := true) else Stopped(Failed(out, BadResponse))
      case ErrorEvent => Stopped(Failed(p.out, ModelError(TrimSpace(data.value))))
  }

  function Steps<Raw, Item, Body>(codec: Codec<Raw, Item, Body>, p: Progress<Item, Body>, lines: seq<Bytes>): Progress<Item, Body>
    decreases |lines|
  {
    if lines == [] then p else Steps(codec, Step(codec, p, lines[0]), lines[1..])
  }

  function Finish<Raw, Item, Body>(codec: Codec<Raw, Item, Body>, p: Progress<Item, Body>): Outcome<Body> {
    match p
    case Stopped(outcome) => outcome
    case Reading(out, items, final) =>
      if !final then Failed(out, Interrupted)
      else if codec.hasOutput(out) then Parsed(out)
      else Parsed(codec.withOutput(out, items))
  }

  /** What the parser returns for a whole stream. */
  function Parse<Raw, Item, Body>(codec: Codec<Raw, Item, Body>, stream: Bytes): Outcome<Body> {
    Finish(codec, Steps(codec, Reading(codec.empty, [], false), Lines(stream)))
  }

  method ParseResponseEvents<Raw, Item, Body>(codec: Codec<Raw, Item, Body>, stream: Bytes) returns (r: Outcome<Body>)
    ensures r == Parse(codec, stream)
  {
    var out, items, final := codec.empty, [], false;
    var lines := Lines(stream);
    for i := 0 to |lines|
      invariant Parse(codec, stream) == Finish(codec, Steps(codec, Reading(out, items, final), lines[i..]))
    {
      ghost var before := Reading(out, items, final);
      assert lines[i..][0] == lines[i] && lines[i..][1..] == lines[i + 1..];
      var data := Data(lines[i]);
      if data.None? {
        continue;
      }
      var event := codec.event(data.value);
      if event.None? {
        continue;
      }
      match event.value.kind {
        case ItemDone =>
          var item := codec.item(event.value.item);
          if item.Some? {
            items := items + [item.value];
          }
        case Final =>
          var (body, ok) := codec.body(out, event.value.response);
          if !ok {
            StoppedStays(codec, Failed(body, BadResponse), lines[i + 1..]);
            return Failed(body, BadResponse);
          }
          out, final := body, true;
        case ErrorEvent =>
          StoppedStays(codec, Failed(out, ModelError(TrimSpace(data.value))), lines[i + 1..]);
          return Failed(out, ModelError(TrimSpace(data.value)));
        case Other =>
      }
    }
    assert lines[|lines|..] == [];
    if !final {
      return Failed(out, Interrupted);
    }
    if !codec.hasOutput(out) {
      out := codec.withOutput(out, items);
    }
    return Parsed(out);
  }

  lemma {:induction false} StoppedStays<Raw, Item, Body>(codec: Codec<Raw, Item, Body>, outcome: Outcome<Body>, lines: seq<Bytes>)
    ensures Steps<Raw, Item, Body>(codec, Stopped(outcome), lines) == Stopped(outcome)
  {
    if lines != [] {
      StoppedStays(codec, outcome, lines[1..]);
    }
  }

  // What the parser returns, said of the lines alone.

  predicate IsKind<Raw, Item, Body>(codec: Codec<Raw, Item, Body>, line: Bytes, kind: Kind) {
    var data := Data(line);
    data.Some? && codec.event(data.value).Some? && codec.event(data.value).value.kind == kind
  }

  function EventOf<Raw, Item, Body>(codec: Codec<Raw, Item, Body>, line: Bytes): Event<Raw>
    requires Relevant(codec, line)
  {
    codec.event(Data(line).value).value
  }

  /** The final responses, in order. */
  function Finals<Raw, Item, Body>(codec: Codec<Raw, Item, Body>, lines: seq<Bytes>): seq<Raw> {
    if lines == [] then []
    else
      var line, earlier := lines[|lines| - 1], Finals(codec, lines[..|lines| - 1]);
      if IsKind(codec, line, Final) then earlier + [EventOf(codec, line).response] else earlier
  }

  /** The items that decode, in order. */
  function Items<Raw, Item, Body>(codec: Codec<Raw, Item, Body>, lines: seq<Bytes>): seq<Item> {
    if lines == [] then []
    else
      var line, earlier := lines[|lines| - 1], Items(codec, lines[..|lines| - 1]);
      if IsKind(codec, line, ItemDone) && codec.item(EventOf(codec, line).item).Some?
      then earlier + [codec.item(EventOf(codec, line).item).value]
      else earlier
  }

  /** The responses decoded one over the other. */
  function Folded<Raw, Item, Body>(codec: Codec<Raw, Item, Body>, finals: seq<Raw>): Body {
    if finals == [] then codec.empty
    else codec.body(Folded(codec, finals[..|finals| - 1]), finals[|finals| - 1]).0
  }

  /** Line i is a final response that does not decode over those before it. */
  predicate Garbled<Raw, Item, Body>(codec: Codec<Raw, Item, Body>, lines: seq<Bytes>, i: nat)
    requires i < |lines|
  {
    IsKind(codec, lines[i], Final) && !codec.body(Folded(codec, Finals(codec, lines[..i])), EventOf(codec, lines[i]).response).1
  }

  /** What such a response leaves behind. */
  function HalfDecoded<Raw, Item, Body>(codec: Codec<Raw, Item, Body>, lines: seq<Bytes>, i: nat): Body
    requires i < |lines| && IsKind(codec, lines[i], Final)
  {
    codec.body(Folded(codec, Finals(codec, lines[..i])), EventOf(codec, lines[i]).response).0
  }

  /** None of the first n lines is an error or a garbled response. */
  ghost predicate Calm<Raw, Item, Body>(codec: Codec<Raw, Item, Body>, lines: seq<Bytes>, n: nat)
    requires n <= |lines|
  {
    forall i :: 0 <= i < n ==> !IsKind(codec, lines[i], ErrorEvent) && !Garbled(codec, lines, i)
  }

  lemma {:induction false} StepsSplit<Raw, Item, Body>(
    codec: Codec<Raw, Item, Body>, p: Progress<Item, Body>, a: seq<Bytes>, b: seq<Bytes>)
    ensures Steps(codec, p, a + b) == Steps(codec, Steps(codec, p, a), b)
    decreases |a|
  {
    hide Step;
    if a == [] {
      assert a + b == b;
    } else {
      StepsSplit(codec, Step(codec, p, a[0]), a[1..], b);
      assert (a + b)[0] == a[0] && (a + b)[1..] == a[1..] + b;
    }
  }

  function ReadSoFar<Raw, Item, Body>(codec: Codec<Raw, Item, Body>, lines: seq<Bytes>): Progress<Item, Body> {
    Reading(Folded(codec, Finals(codec, lines)), Items(codec, lines), Finals(codec, lines) != [])
  }

  lemma CalmStep<Raw, Item, Body>(codec: Codec<Raw, Item, Body>, lines: seq<Bytes>, i: nat)
    requires i < |lines| && !IsKind(codec, lines[i], ErrorEvent) && !Garbled(codec, lines, i)
    ensures Step(codec, ReadSoFar(codec, lines[..i]), lines[i]) == ReadSoFar(codec, lines[..i + 1])
  {
    hide Data;
    assert lines[..i + 1][..i] == lines[..i];
    var finals := Finals(codec, lines[..i]);
    if IsKind(codec, lines[i], Final) {
      assert Finals(codec, lines[..i + 1])[..|finals|] == finals;
    }
  }

  lemma {:induction false} CalmSteps<Raw, Item, Body>(codec: Codec<Raw, Item, Body>, lines: seq<Bytes>, n: nat)
    requires n <= |lines| && Calm(codec, lines, n)
    ensures Steps(codec, Reading(codec.empty, [], false), lines[..n]) == ReadSoFar(codec, lines[..n])
  {
    hide Step, IsKind, Garbled;
    if n > 0 {
      CalmSteps(codec, lines, n - 1);
      CalmStep(codec, lines, n - 1);
      assert lines[..n] == lines[..n - 1] + [lines[n - 1]];
      StepsSplit(codec, Reading(codec.empty, [], false), lines[..n - 1], [lines[n - 1]]);
    }
  }

  /** The first error or garbled response ends the parse. */
  lemma StopsThere<Raw, Item, Body>(codec: Codec<Raw, Item, Body>, lines: seq<Bytes>, i: nat)
    requires i < |lines| && Calm(codec, lines, i)
    ensures var p := Steps(codec, Reading(codec.empty, [], false), lines);
      && (IsKind(codec, lines[i], ErrorEvent) ==>
            p == Stopped(Failed(Folded(codec, Finals(codec, lines[..i])), ModelError(TrimSpace(Data(lines[i]).value)))))
      && (Garbled(codec, lines, i) ==> p == Stopped(Failed(HalfDecoded(codec, lines, i), BadResponse)))
  {
    hide Data, TrimSpace, Calm;
    CalmSteps(codec, lines, i);
    var start, rest := Reading(codec.empty, [], false), lines[i + 1..];
    assert lines == lines[..i] + ([lines[i]] + rest);
    StepsSplit(codec, start, lines[..i], [lines[i]] + rest);
    assert ([lines[i]] + rest)[1..] == rest;
    var p := Step(codec, ReadSoFar(codec, lines[..i]), lines[i]);
    if p.Stopped? {
      StoppedStays(codec, p.outcome, rest);
    }
  }

  /** Either all lines are calm, or there is a first that is not. */
  lemma {:induction false} FirstTrouble<Raw, Item, Body>(codec: Codec<Raw, Item, Body>, lines: seq<Bytes>, n: nat) returns (i: nat)
    requires n <= |lines|
    ensures i <= n && Calm(codec, lines, i)
    ensures i < n ==> IsKind(codec, lines[i], ErrorEvent) || Garbled(codec, lines, i)
  {
    hide IsKind, Garbled;
    if n == 0 {
      i := 0;
    } else {
      i := FirstTrouble(codec, lines, n - 1);
    }
    if i < n && !IsKind(codec, lines[i], ErrorEvent) && !Garbled(codec, lines, i) {
      i := i + 1;
    }
  }

  /** The model's error, when a line is an error event before any garbled
      response; then the text is that of the first such line. */
  ghost predicate EndsInError<Raw, Item, Body>(codec: Codec<Raw, Item, Body>, lines: seq<Bytes>, text: Bytes) {
    exists i | 0 <= i < |lines| :: Calm(codec, lines, i) && IsKind(codec, lines[i], ErrorEvent) && text == TrimSpace(Data(lines[i]).value)
  }

  ghost predicate EndsGarbled<Raw, Item, Body>(codec: Codec<Raw, Item, Body>, lines: seq<Bytes>) {
    exists i | 0 <= i < |lines| :: Calm(codec, lines, i) && Garbled(codec, lines, i)
  }

  /** The answer of a stream without trouble: the responses decoded in order,
      with the streamed items where they carry no output. */
  function Answer<Raw, Item, Body>(codec: Codec<Raw, Item, Body>, lines: seq<Bytes>): Body {
    var out := Folded(codec, Finals(codec, lines));
    if codec.hasOutput(out) then out else codec.withOutput(out, Items(codec, lines))
  }

  predicate FailedWith<Body>(r: Outcome<Body>, failure: Failure) { r.Failed? && r.failure == failure }

  /** What the parser returns, for every stream. */
  lemma ParseIs<Raw, Item, Body>(codec: Codec<Raw, Item, Body>, stream: Bytes)
    ensures var lines, r := Lines(stream), Parse(codec, stream);
      && (forall text :: FailedWith(r, ModelError(text)) <==> EndsInError(codec, lines, text))
      && (FailedWith(r, BadResponse) <==> EndsGarbled(codec, lines))
      && (FailedWith(r, Interrupted) <==> Calm(codec, lines, |lines|) && Finals(codec, lines) == [])
      && (r.Parsed? <==> Calm(codec, lines, |lines|) && Finals(codec, lines) != [])
      && (r.Parsed? ==> r.out == Answer(codec, lines))
      && (FailedWith(r, Interrupted) ==> r.out == codec.empty)
      && (forall i | 0 <= i < |lines| :: Calm(codec, lines, i) && IsKind(codec, lines[i], ErrorEvent) ==> r.out == Folded(codec, Finals(codec, lines[..i])))
      && (forall i | 0 <= i < |lines| :: Calm(codec, lines, i) && Garbled(codec, lines, i) ==> r.out == HalfDecoded(codec, lines, i))
  {
    hide Lines, Data, TrimSpace, Garbled, IsKind, Finals, Items;
    var lines := Lines(stream);
    var n := FirstTrouble(codec, lines, |lines|);
    if n == |lines| {
      assert lines[..n] == lines;
      CalmSteps(codec, lines, n);
    } else {
      StopsThere(codec, lines, n);
      Exclusive(codec, lines, n);
      forall i | 0 <= i < |lines| && Calm(codec, lines, i) && Troubled(codec, lines, i) ensures i == n {
        OneTrouble(codec, lines, i, n);
      }
    }
  }

  predicate Troubled<Raw, Item, Body>(codec: Codec<Raw, Item, Body>, lines: seq<Bytes>, i: nat)
    requires i < |lines|
  {
    IsKind(codec, lines[i], ErrorEvent) || Garbled(codec, lines, i)
  }

  lemma OneTrouble<Raw, Item, Body>(codec: Codec<Raw, Item, Body>, lines: seq<Bytes>, i: nat, j: nat)
    requires i < |lines| && Calm(codec, lines, i) && Troubled(codec, lines, i)
    requires j < |lines| && Calm(codec, lines, j) && Troubled(codec, lines, j)
    ensures i == j
  {
    hide IsKind, Garbled;
  }

  lemma Exclusive<Raw, Item, Body>(codec: Codec<Raw, Item, Body>, lines: seq<Bytes>, i: nat)
    requires i < |lines|
    ensures !(IsKind(codec, lines[i], ErrorEvent) && Garbled(codec, lines, i))
  {
    hide Data;
  }

  lemma SkipIrrelevant<Raw, Item, Body>(codec: Codec<Raw, Item, Body>, p: Progress<Item, Body>, line: Bytes)
    ensures !Relevant(codec, line) ==> Step(codec, p, line) == p
    ensures !Relevant(codec, [])
  {}

  lemma {:induction false} SkippingIrrelevantLines<Raw, Item, Body>(codec: Codec<Raw, Item, Body>, p: Progress<Item, Body>, lines: seq<Bytes>)
    ensures Steps(codec, p, Select(codec, lines) + [[]]) == Steps(codec, p, lines)
    decreases |lines|
  {
    hide Step, Relevant;
    if lines == [] {
      SkipIrrelevant(codec, p, []);
      assert Select(codec, lines) + [[]] == [[]];
    } else {
      var tail := Select(codec, lines[1..]) + [[]];
      SkipIrrelevant(codec, p, lines[0]);
      SkippingIrrelevantLines(codec, Step(codec, p, lines[0]), lines[1..]);
      if Relevant(codec, lines[0]) {
        assert (Select(codec, lines) + [[]])[1..] == tail;
      } else {
        assert Select(codec, lines) + [[]] == tail;
      }
    }
  }

  /** The filtered stream parses to the same result or error as the whole. */
  lemma FilteringKeepsTheResult<Raw, Item, Body>(codec: Codec<Raw, Item, Body>, stream: Bytes)
    ensures Parse(codec, Kept(codec, Lines(stream))) == Parse(codec, stream)
  {
    LinesHaveNoBreak(stream);
    LinesOfKept(codec, Lines(stream));
    SkippingIrrelevantLines(codec, Reading(codec.empty, [], false), Lines(stream));
  }

  /** The open line and what is kept of the lines before it. */
  ghost predicate Buffers<Raw(!new), Item(!new), Body(!new)>(codec: Codec<Raw, Item, Body>, kept: Bytes, line: Bytes, stream: Bytes) {
    var lines := Lines(stream);
    line == lines[|lines| - 1] && kept == Kept(codec, lines[..|lines| - 1])
  }

  lemma Flushed<Raw(!new), Item(!new), Body(!new)>(codec: Codec<Raw, Item, Body>, kept: Bytes, line: Bytes, stream: Bytes)
    requires Buffers(codec, kept, line, stream)
    ensures Buffers(codec, if Relevant(codec, line) then kept + line + [LF] else kept, [], stream + [LF])
  {
    hide Lines, Relevant;
    var lines := Lines(stream);
    var earlier := lines[..|lines| - 1];
    LinesBreak(stream);
    assert Lines(stream + [LF])[..|lines|] == earlier + [line];
    KeptAppend(codec, earlier, [line]);
    assert Kept(codec, [line]) == (if Relevant(codec, line) then line + [LF] else []) + Kept(codec, [line][1..]);
    assert kept + (line + [LF]) == kept + line + [LF] && kept + [] == kept;
  }

  lemma Appended<Raw(!new), Item(!new), Body(!new)>(codec: Codec<Raw, Item, Body>, kept: Bytes, line: Bytes, stream: Bytes, text: Bytes)
    requires Buffers(codec, kept, line, stream) && LF !in text
    ensures Buffers(codec, kept, line + text, stream + text)
  {
    hide Lines, Kept;
    var lines := Lines(stream);
    LinesAppend(stream, text);
    SingleLine(text);
    assert Lines(stream + text)[..|lines| - 1] == lines[..|lines| - 1];
  }

  lemma OpenIs<Raw(!new), Item(!new), Body(!new)>(codec: Codec<Raw, Item, Body>, kept: Bytes, line: Bytes, stream: Bytes)
    requires Buffers(codec, kept, line, stream)
    ensures line != [] <==> stream != [] && stream[|stream| - 1] != LF
  {
    hide Lines, Kept;
    OpenLine(stream);
  }

  /** The next line break of a chunk, or its end. */
  method LineEnd(rest: Bytes) returns (i: nat)
    ensures i <= |rest| && LF !in rest[..i] && (i < |rest| ==> rest[i] == LF)
  {
    i := 0;
    while i < |rest| && rest[i] != LF
      invariant i <= |rest| && LF !in rest[..i]
    {
      assert rest[..i + 1] == rest[..i] + [rest[i]];
      i := i + 1;
    }
  }

  class EventBuffer<Raw(!new), Item(!new), Body(!new)> {
    const codec: Codec<Raw, Item, Body>
    var kept: Bytes
    var line: Bytes
    /** The joined stream read so far. */
    ghost var stream: Bytes

    ghost predicate Valid()
      reads this
    {
      Buffers(codec, kept, line, stream)
    }

    constructor (codec: Codec<Raw, Item, Body>)
      ensures Valid() && stream == [] && this.codec == codec
    {
      this.codec := codec;
      kept, line, stream := [], [], [];
      new;
      assert Lines([])[..0] == [];
    }

    /** Ends the open line. */
    method Flush()
      requires Valid()
      modifies this
      ensures Valid() && stream == old(stream) + [LF] && line == []
    {
      hide Buffers, Relevant, Kept;
      Flushed(codec, kept, line, stream);
      if Relevant(codec, line) {
        kept := kept + line + [LF];
      }
      stream := stream + [LF];
      line := [];
    }

    method Append(text: Bytes)
      requires Valid() && LF !in text
      modifies this
      ensures Valid() && stream == old(stream) + text
    {
      hide Buffers;
      Appended(codec, kept, line, stream, text);
      line := line + text;
      stream := stream + text;
    }

    method Add(chunk: Bytes)
      requires Valid()
      modifies this
      ensures Valid() && stream == Join(old(stream), chunk)
    {
      hide Buffers, Lines, StartsField;
      OpenIs(codec, kept, line, stream);
      if line != [] && StartsField(chunk) {
        Flush();
      }
      ghost var before := stream;
      var rest := chunk;
      while true
        invariant Valid() && stream + rest == before + chunk
        decreases |rest|
      {
        var i := LineEnd(rest);
        if i == |rest| {
          assert rest[..i] == rest;
          Append(rest);
          return;
        }
        assert stream + rest == stream + rest[..i] + [LF] + rest[i + 1..];
        Append(rest[..i]);
        Flush();
        rest := rest[i + 1..];
      }
    }

    method Events() returns (events: Bytes)
      requires Valid()
      modifies this
      ensures events == Kept(codec, Lines(old(stream)))
    {
      ghost var lines := Lines(stream);
      Flush();
      LinesBreak(old(stream));
      assert Lines(stream)[..|lines|] == lines;
      return kept;
    }
  }

  /** Reading a whole run of chunks: the buffer yields exactly the relevant
      lines of the joined stream, and parsing them gives what parsing the
      joined stream gives. */
  method ReadStream<Raw(!new), Item(!new), Body(!new)>(codec: Codec<Raw, Item, Body>, chunks: seq<Bytes>)
    returns (events: Bytes, r: Outcome<Body>)
    ensures events == Kept(codec, Lines(JoinAll(chunks)))
    ensures r == Parse(codec, JoinAll(chunks))
  {
    hide Join, Lines, Kept, Parse;
    var buffer := new EventBuffer(codec);
    for i := 0 to |chunks|
      invariant buffer.Valid() && fresh(buffer) && buffer.codec == codec
      invariant buffer.stream == JoinAll(chunks[..i])
    {
      buffer.Add(chunks[i]);
      assert chunks[..i + 1][..i] == chunks[..i];
    }
    assert chunks[..|chunks|] == chunks;
    events := buffer.Events();
    r := ParseResponseEvents(codec, events);
    FilteringKeepsTheResult(codec, JoinAll(chunks));
  }
}
