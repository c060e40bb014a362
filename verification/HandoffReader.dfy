/** Reading a journal that is still being written: whole lines only, each once
    and in order, however the appended bytes arrive. */
module HandoffReader {
  import opened Bytes
  import opened TextLines

  /** A line of this length or more does not fit the line buffer. */
  const LINE_LIMIT: nat := 0x10_0000

  datatype Batch<+E> = Batch(entries: seq<E>, tooLong: bool)

  /** A line without the carriage return before its break. */
  function Stripped(line: Bytes): Bytes { if line != [] && line[|line| - 1] == CR then line[..|line| - 1] else line }

  /** What the decoder makes of one line; a malformed one is skipped. */
  function EntriesOf<E>(decode: Bytes -> Option<E>, line: Bytes): seq<E> {
    var entry := decode(Stripped(line));
    if entry.Some? then [entry.value] else []
  }

  /** A line break may be written with a carriage return. */
  lemma ReturnIsIgnored<E>(decode: Bytes -> Option<E>, line: Bytes)
    ensures EntriesOf(decode, line + [CR]) == if decode(line).Some? then [decode(line).value] else []
    ensures line == [] || line[|line| - 1] != CR ==> EntriesOf(decode, line) == EntriesOf(decode, line + [CR])
  {
    assert (line + [CR])[..|line + [CR]| - 1] == line;
  }

  function Parsed<E>(decode: Bytes -> Option<E>, lines: seq<Bytes>): seq<E> {
    if lines == [] then [] else EntriesOf(decode, lines[0]) + Parsed(decode, lines[1..])
  }

  predicate Fits(line: Bytes) { |line| < LINE_LIMIT }

  /** The lines before the first that does not fit. */
  function UpToLong(lines: seq<Bytes>): seq<Bytes> {
    if lines == [] || !Fits(lines[0]) then [] else [lines[0]] + UpToLong(lines[1..])
  }

  predicate AllFit(lines: seq<Bytes>) { forall line :: line in lines ==> Fits(line) }

  /** The lines that have been ended, and the one still open. */
  function Whole(text: Bytes): seq<Bytes> { Lines(text)[..|Lines(text)| - 1] }

  function Open(text: Bytes): Bytes { Lines(text)[|Lines(text)| - 1] }

  method LastBreak(raw: Bytes) returns (cut: int)
    ensures -1 <= cut < |raw| && (cut >= 0 ==> raw[cut] == LF && LF !in raw[cut + 1..])
    ensures cut < 0 ==> LF !in raw
  {
    cut := |raw| - 1;
    while cut >= 0 && raw[cut] != LF
      invariant -1 <= cut < |raw| && forall k :: cut < k < |raw| ==> raw[k] != LF
    {
      cut := cut - 1;
    }
  }

  /** Reads the next line of a text of ended lines. */
  method NextLine(text: Bytes, from: nat) returns (end: nat)
    requires from < |text| && text[|text| - 1] == LF
    ensures from <= end < |text| && text[end] == LF && LF !in text[from..end]
  {
    end := from;
    while text[end] != LF
      invariant from <= end < |text| && LF !in text[from..end]
      decreases |text| - end
    {
      assert text[from..end + 1] == text[from..end] + [text[end]];
      end := end + 1;
    }
  }

  /** Splits ended lines and decodes them, up to one that does not fit. */
  method Scan<E>(decode: Bytes -> Option<E>, text: Bytes) returns (batch: Batch<E>)
    requires text == [] || text[|text| - 1] == LF
    ensures batch.tooLong <==> !AllFit(Whole(text))
    ensures batch.entries == Parsed(decode, UpToLong(Whole(text)))
  {
    hide Lines, Open, Whole, Parsed, UpToLong, AllFit, Remains;
    var entries: seq<E> := [];
    var i := 0;
    NothingScanned(decode, text);
    while i < |text|
      invariant i <= |text| && Remains(decode, text, i, entries)
      decreases |text| - i
    {
      var end := NextLine(text, i);
      OneScanned(decode, text, i, end, entries);
      var line := text[i..end];
      if |line| >= LINE_LIMIT {
        return Batch(entries, true);
      }
      var entry := decode(Stripped(line));
      Associate(entries, [], []);
      if entry.Some? {
        entries := entries + [entry.value];
      }
      i := end + 1;
    }
    AllScanned(decode, text, entries);
    return Batch(entries, false);
  }

  /** The entries so far and those of the rest are the entries of the text. */
  ghost predicate Remains<E>(decode: Bytes -> Option<E>, text: Bytes, i: nat, entries: seq<E>)
    requires i <= |text|
  {
    && (AllFit(Whole(text)) <==> AllFit(Whole(text[i..])))
    && entries + Parsed(decode, UpToLong(Whole(text[i..]))) == Parsed(decode, UpToLong(Whole(text)))
  }

  lemma OneScanned<E>(decode: Bytes -> Option<E>, text: Bytes, i: nat, end: nat, entries: seq<E>)
    requires i <= end < |text| && text[end] == LF && LF !in text[i..end] && Remains(decode, text, i, entries)
    ensures !Fits(text[i..end]) ==> !AllFit(Whole(text)) && entries == Parsed(decode, UpToLong(Whole(text)))
    ensures Fits(text[i..end]) ==> Remains(decode, text, end + 1, entries + EntriesOf(decode, text[i..end]))
  {
    hide Lines, Whole, Parsed, UpToLong, AllFit, Fits, EntriesOf;
    var line, rest := text[i..end], Whole(text[end + 1..]);
    FirstLine(text, i, end);
    if Fits(line) {
      FittingFirst(decode, line, rest);
      Associate(entries, EntriesOf(decode, line), Parsed(decode, UpToLong(rest)));
    } else {
      LongFirst(line, rest);
      NothingParsed(decode);
      Associate(entries, [], []);
    }
  }

  lemma Associate<E>(a: seq<E>, b: seq<E>, c: seq<E>)
    ensures a + (b + c) == a + b + c && a + [] == a
  {}

  lemma AllScanned<E>(decode: Bytes -> Option<E>, text: Bytes, entries: seq<E>)
    requires Remains(decode, text, |text|, entries)
    ensures AllFit(Whole(text)) && entries == Parsed(decode, UpToLong(Whole(text)))
  {
    assert text[|text|..] == [];
    EmptyText();
    NothingParsed(decode);
    Associate(entries, [], []);
  }

  lemma NothingScanned<E>(decode: Bytes -> Option<E>, text: Bytes)
    ensures Remains(decode, text, 0, [])
  {
    assert text[0..] == text;
  }

  lemma EmptyText()
    ensures Whole([]) == [] && Open([]) == []
  {}

  lemma GlueEnded(line: Bytes, lines: seq<Bytes>)
    requires |lines| >= 1
    ensures Glue([line, []], lines) == [line] + lines
  {
    assert [] + lines[0] == lines[0];
  }

  lemma EndedLine(line: Bytes, rest: Bytes)
    requires LF !in line
    ensures Lines(line + [LF] + rest) == [line] + Lines(rest)
  {
    hide Lines, Glue;
    LinesAppend(line + [LF], rest);
    LinesBreak(line);
    SingleLine(line);
    assert [line] + [[]] == [line, []];
    GlueEnded(line, Lines(rest));
  }

  lemma FirstLine(text: Bytes, i: nat, end: nat)
    requires i <= end < |text| && text[end] == LF && LF !in text[i..end]
    ensures Whole(text[i..]) == [text[i..end]] + Whole(text[end + 1..])
  {
    hide Lines;
    var line, rest := text[i..end], text[end + 1..];
    assert text[i..] == line + [LF] + rest;
    EndedLine(line, rest);
  }

  lemma LongFirst(line: Bytes, rest: seq<Bytes>)
    requires !Fits(line)
    ensures !AllFit([line] + rest) && UpToLong([line] + rest) == []
  {
    assert ([line] + rest)[0] == line;
  }

  lemma FittingFirst<E>(decode: Bytes -> Option<E>, line: Bytes, rest: seq<Bytes>)
    requires Fits(line)
    ensures AllFit([line] + rest) <==> AllFit(rest)
    ensures Parsed(decode, UpToLong([line] + rest)) == EntriesOf(decode, line) + Parsed(decode, UpToLong(rest))
  {
    hide Fits, EntriesOf;
    var all := [line] + rest;
    assert all[0] == line && all[1..] == rest;
    assert ([line] + UpToLong(rest))[1..] == UpToLong(rest);
    forall l | l in rest ensures l in all {}
  }

  /** Keeps what is not yet a whole line between reads. */
  class Reader<!E> {
    const decode: Bytes -> Option<E>
    var partial: Bytes
    ghost var seen: Bytes

    ghost predicate Valid()
      reads this
    {
      partial == Open(seen)
    }

    constructor (decode: Bytes -> Option<E>)
      ensures Valid() && seen == [] && this.decode == decode
    {
      this.decode := decode;
      partial, seen := [], [];
    }

    /** Takes the bytes appended since the last read. */
    method Next(raw: Bytes) returns (batch: Batch<E>)
      requires Valid()
      modifies this
      ensures Valid() && seen == old(seen) + raw
      ensures Whole(old(seen)) <= Whole(seen)
      ensures batch.entries == Parsed(decode, UpToLong(Further(old(seen), raw))) && (batch.tooLong <==> !AllFit(Further(old(seen), raw)))
    {
      hide Parsed, UpToLong, AllFit, Whole, Open, Further;
      ghost var before := seen;
      var text := partial + raw;
      var cut := LastBreak(text);
      seen := seen + raw;
      Grows(before, raw);
      if cut < 0 {
        StillOpen(before, raw, text);
        NothingParsed(decode);
        partial := text;
        return Batch([], false);
      }
      LinesEnded(before, raw, text, cut);
      partial := text[cut + 1..];
      batch := Scan(decode, text[..cut + 1]);
    }
  }

  /** The whole lines the bytes read now end. */
  function Further(seen: Bytes, raw: Bytes): seq<Bytes> {
    var all, earlier := Whole(seen + raw), Whole(seen);
    if |earlier| <= |all| then all[|earlier|..] else []
  }

  lemma Grows(seen: Bytes, raw: Bytes)
    ensures Whole(seen) <= Whole(seen + raw) && Whole(seen + raw) == Whole(seen) + Further(seen, raw)
  {
    hide Whole, Open;
    Continued(seen, raw);
  }

  /** No line has ended. */
  lemma StillOpen(seen: Bytes, raw: Bytes, text: Bytes)
    requires text == Open(seen) + raw && LF !in text
    ensures Open(seen + raw) == text && Further(seen, raw) == []
  {
    hide Whole, Open;
    Continued(seen, raw);
    OpenText(text);
  }

  /** The lines up to the last break have ended. */
  lemma LinesEnded(seen: Bytes, raw: Bytes, text: Bytes, cut: nat)
    requires text == Open(seen) + raw && cut < |text| && text[cut] == LF && LF !in text[cut + 1..]
    ensures Open(seen + raw) == text[cut + 1..] && Further(seen, raw) == Whole(text[..cut + 1])
    ensures text[..cut + 1][cut] == LF
  {
    hide Whole, Open;
    Continued(seen, raw);
    LastWhole(text, cut);
  }

  lemma NothingParsed<E>(decode: Bytes -> Option<E>)
    ensures UpToLong([]) == [] && Parsed(decode, []) == [] && AllFit([])
  {}

  lemma OpenText(text: Bytes)
    requires LF !in text
    ensures Whole(text) == [] && Open(text) == text
  {
    SingleLine(text);
  }

  /** The open line and what follows it give the further lines. */
  lemma Continued(seen: Bytes, raw: Bytes)
    ensures Whole(seen + raw) == Whole(seen) + Whole(Open(seen) + raw)
    ensures Open(seen + raw) == Open(Open(seen) + raw)
    ensures Whole(seen) <= Whole(seen + raw) && Whole(seen + raw)[|Whole(seen)|..] == Whole(Open(seen) + raw)
  {
    hide Lines;
    LinesAppend(seen, raw);
    LinesAppend(Open(seen), raw);
    LinesHaveNoBreak(seen);
    assert Open(seen) in Lines(seen);
    SingleLine(Open(seen));
    GluedWhole(Lines(seen), Lines(raw));
  }

  lemma GluedWhole(la: seq<Bytes>, lb: seq<Bytes>)
    requires |la| >= 1 && |lb| >= 1
    ensures var own := Glue([la[|la| - 1]], lb);
      && Glue(la, lb) == la[..|la| - 1] + own
      && Glue(la, lb)[..|la| + |lb| - 2] == la[..|la| - 1] + own[..|own| - 1]
      && Glue(la, lb)[|la| + |lb| - 2] == own[|own| - 1]
  {
    var last := la[|la| - 1];
    assert [last][..0] == [];
    assert Glue([last], lb) == [last + lb[0]] + lb[1..];
  }

  /** Up to the last break all lines are whole. */
  lemma LastWhole(text: Bytes, cut: nat)
    requires cut < |text| && text[cut] == LF && LF !in text[cut + 1..]
    ensures Whole(text) == Whole(text[..cut + 1]) && Open(text) == text[cut + 1..]
  {
    var head, tail := text[..cut + 1], text[cut + 1..];
    assert text == head + tail;
    LinesAppend(head, tail);
    SingleLine(tail);
    OpenLine(head);
    var la := Lines(head);
    assert la[|la| - 1] == [];
    assert [] + tail == tail;
    assert Lines(text) == la[..|la| - 1] + [tail];
  }

  // A line cut short.

  lemma BreakOpen(text: Bytes)
    requires text == [] || text[|text| - 1] == LF
    ensures Open(text) == []
  {
    OpenLine(text);
  }

  /** What was cut short and the line appended next are read as one line; the
      calls of both are lost exactly when the decoder makes nothing of it. */
  lemma TornLineMerges<E>(decode: Bytes -> Option<E>, text: Bytes, torn: Bytes, line: Bytes)
    requires (text == [] || text[|text| - 1] == LF) && LF !in torn && LF !in line
    ensures Whole(text + torn) == Whole(text)
    ensures Whole(text + (torn + line + [LF])) == Whole(text) + [torn + line]
    ensures Parsed(decode, Whole(text + (torn + line + [LF]))) == Parsed(decode, Whole(text)) + EntriesOf(decode, torn + line)
    ensures EntriesOf(decode, torn + line) == [] <==> decode(Stripped(torn + line)).None?
  {
    hide Whole, Open, Parsed, Stripped;
    BreakOpen(text);
    assert Open(text) + torn == torn && Open(text) + (torn + line + [LF]) == torn + line + [LF];
    Continued(text, torn);
    Continued(text, torn + line + [LF]);
    OpenText(torn);
    assert LF !in torn + line;
    OneLine(torn + line);
    Associate(Whole(text), [], []);
    ParsedBoth(decode, Whole(text), [torn + line]);
    OneParsed(decode, torn + line);
  }

  lemma OneLine(line: Bytes)
    requires LF !in line
    ensures Whole(line + [LF]) == [line]
  {
    SingleLine(line);
    LinesBreak(line);
    assert ([line] + [[]])[..1] == [line];
  }

  lemma OneParsed<E>(decode: Bytes -> Option<E>, line: Bytes)
    ensures Parsed(decode, [line]) == EntriesOf(decode, line)
  {
    assert [line][1..] == [];
    Associate(EntriesOf(decode, line), [], []);
  }

  // Any chunking.

  function JoinedChunks(chunks: seq<Bytes>): Bytes {
    if chunks == [] then [] else JoinedChunks(chunks[..|chunks| - 1]) + chunks[|chunks| - 1]
  }

  /** Reads chunk after chunk, stopping at the first error. */
  method ReadAll<E>(decode: Bytes -> Option<E>, chunks: seq<Bytes>) returns (entries: seq<E>, failed: bool)
    ensures failed <==> exists line :: line in Whole(JoinedChunks(chunks)) && |line| >= 0x10_0000
    ensures !failed ==> entries == Parsed(decode, Whole(JoinedChunks(chunks)))
  {
    hide Whole, Parsed, AllFit, UpToLong, Further;
    var reader := new Reader(decode);
    entries, failed := [], false;
    EmptyText();
    NothingParsed(decode);
    AllOfThem([]);
    for i := 0 to |chunks|
      invariant reader.Valid() && reader.decode == decode && reader.seen == JoinedChunks(chunks[..i])
      invariant AllFit(Whole(reader.seen)) && entries == Parsed(decode, Whole(reader.seen))
    {
      ghost var before := reader.seen;
      assert chunks[..i + 1][..i] == chunks[..i];
      var batch := reader.Next(chunks[i]);
      ghost var more := Further(before, chunks[i]);
      Grows(before, chunks[i]);
      FitsBoth(Whole(before), more);
      if batch.tooLong {
        LaterLong(chunks, i + 1);
        SomeLong(Whole(JoinedChunks(chunks)));
        return entries, true;
      }
      AllOfThem(more);
      ParsedBoth(decode, Whole(before), more);
      entries := entries + batch.entries;
    }
    assert chunks[..|chunks|] == chunks;
    SomeLong(Whole(JoinedChunks(chunks)));
  }

  lemma SomeLong(lines: seq<Bytes>)
    ensures !AllFit(lines) <==> exists line :: line in lines && |line| >= 0x10_0000
  {}

  lemma {:induction false} AllOfThem(lines: seq<Bytes>)
    requires AllFit(lines)
    ensures UpToLong(lines) == lines
  {
    if lines != [] {
      assert Fits(lines[0]);
      AllOfThem(lines[1..]);
    }
  }

  lemma FitsBoth(a: seq<Bytes>, b: seq<Bytes>)
    ensures AllFit(a + b) <==> AllFit(a) && AllFit(b)
  {
    hide Fits;
    forall l | l in a ensures l in a + b {}
    forall l | l in b ensures l in a + b {}
  }

  lemma {:induction false} ParsedBoth<E>(decode: Bytes -> Option<E>, a: seq<Bytes>, b: seq<Bytes>)
    ensures Parsed(decode, a + b) == Parsed(decode, a) + Parsed(decode, b)
  {
    hide EntriesOf;
    if a == [] {
      assert a + b == b;
    } else {
      ParsedBoth(decode, a[1..], b);
      assert (a + b)[1..] == a[1..] + b && (a + b)[0] == a[0];
    }
  }

  /** A line that does not fit stays a line of every longer text. */
  lemma {:induction false} LaterLong(chunks: seq<Bytes>, i: nat)
    requires i <= |chunks| && !AllFit(Whole(JoinedChunks(chunks[..i])))
    ensures !AllFit(Whole(JoinedChunks(chunks)))
    decreases |chunks| - i
  {
    hide Whole, AllFit;
    if i == |chunks| {
      assert chunks[..i] == chunks;
    } else {
      var now, next := JoinedChunks(chunks[..i]), chunks[i];
      assert chunks[..i + 1][..i] == chunks[..i];
      Continued(now, next);
      FitsBoth(Whole(now), Whole(Open(now) + next));
      LaterLong(chunks, i + 1);
    }
  }
}
