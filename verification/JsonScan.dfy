/** Crossing JSON values without decoding them. The scanner jumps from quote to
    quote; it is compared with a reader that takes one byte at a time. Lengths
    count from the start of the given text; None is malformed JSON. */
module JsonScan {
  import opened Bytes

  predicate IsSpace(c: byte) { c == SPACE || c == TAB || c == CR || c == LF }

  predicate IsOpen(c: byte) { c == LBRACE || c == LBRACKET }

  predicate IsClose(c: byte) { c == RBRACE || c == RBRACKET }

  /** What ends a number or literal. */
  predicate IsDelimiter(c: byte) { c == COMMA || IsClose(c) || IsSpace(c) }

  function Shift(n: nat, length: Option<nat>): Option<nat> {
    if length.Some? then Some(n + length.value) else None
  }

  /** The rest of a string literal, one byte or escape at a time. */
  function InString(s: Bytes): (length: Option<nat>)
    ensures length.Some? ==> 1 <= length.value <= |s|
  {
    if s == [] then None
    else if s[0] == QUOTE then Some(1)
    else if s[0] == BACKSLASH then if |s| < 2 then None else Shift(2, InString(s[2..]))
    else Shift(1, InString(s[1..]))
  }

  function StringLen(s: Bytes): (length: Option<nat>)
    ensures length.Some? ==> 2 <= length.value <= |s|
  {
    if s == [] || s[0] != QUOTE then None else Shift(1, InString(s[1..]))
  }

  /** Up to the bracket that closes depth open ones. */
  function Nest(s: Bytes, depth: int): (length: Option<nat>)
    ensures length.Some? ==> 1 <= length.value <= |s|
    decreases |s|
  {
    if s == [] then None
    else if s[0] == QUOTE then
      var text := StringLen(s);
      if text.None? then None else Shift(text.value, Nest(s[text.value..], depth))
    else if IsOpen(s[0]) then Shift(1, Nest(s[1..], depth + 1))
    else if IsClose(s[0]) then if depth == 1 then Some(1) else Shift(1, Nest(s[1..], depth - 1))
    else Shift(1, Nest(s[1..], depth))
  }

  /** Up to the delimiter that must follow a scalar. */
  function ScalarLen(s: Bytes): (length: Option<nat>)
    ensures length.Some? ==> length.value < |s|
  {
    if s == [] then None else if IsDelimiter(s[0]) then Some(0) else Shift(1, ScalarLen(s[1..]))
  }

  function ValueLen(s: Bytes): (length: Option<nat>)
    ensures length.Some? ==> 1 <= length.value <= |s|
  {
    if s == [] then None
    else if s[0] == QUOTE then StringLen(s)
    else if IsOpen(s[0]) then Nest(s, 0)
    else
      var scalar := ScalarLen(s);
      if scalar.None? || scalar.value == 0 then None else scalar
  }

  /** The same readers at a position of a text, giving positions. */
  function InStringAt(raw: Bytes, j: nat): (end: Option<nat>)
    ensures end.Some? ==> j < end.value <= |raw|
    decreases |raw| - j
  {
    if j >= |raw| then None
    else if raw[j] == QUOTE then Some(j + 1)
    else if raw[j] == BACKSLASH then if j + 1 >= |raw| then None else InStringAt(raw, j + 2)
    else InStringAt(raw, j + 1)
  }

  function StringAt(raw: Bytes, i: nat): (end: Option<nat>)
    ensures end.Some? ==> i + 2 <= end.value <= |raw|
  {
    if i >= |raw| || raw[i] != QUOTE then None else InStringAt(raw, i + 1)
  }

  function NestAt(raw: Bytes, j: nat, depth: int): (end: Option<nat>)
    ensures end.Some? ==> j < end.value <= |raw|
    decreases |raw| - j
  {
    if j >= |raw| then None
    else if raw[j] == QUOTE then
      var text := StringAt(raw, j);
      if text.None? then None else NestAt(raw, text.value, depth)
    else if IsOpen(raw[j]) then NestAt(raw, j + 1, depth + 1)
    else if IsClose(raw[j]) then if depth == 1 then Some(j + 1) else NestAt(raw, j + 1, depth - 1)
    else NestAt(raw, j + 1, depth)
  }

  function ScalarAt(raw: Bytes, j: nat): (end: Option<nat>)
    ensures end.Some? ==> j <= end.value < |raw|
    decreases |raw| - j
  {
    if j >= |raw| then None else if IsDelimiter(raw[j]) then Some(j) else ScalarAt(raw, j + 1)
  }

  function ValueAt(raw: Bytes, i: nat): (end: Option<nat>)
    ensures end.Some? ==> i < end.value <= |raw|
  {
    if i >= |raw| then None
    else if raw[i] == QUOTE then StringAt(raw, i)
    else if IsOpen(raw[i]) then NestAt(raw, i, 0)
    else
      var scalar := ScalarAt(raw, i);
      if scalar.None? || scalar.value == i then None else scalar
  }

  lemma {:induction false} InStringAtIsLen(raw: Bytes, j: nat)
    requires j <= |raw|
    ensures InStringAt(raw, j) == Shift(j, InString(raw[j..]))
    decreases |raw| - j
  {
    if j < |raw| {
      assert raw[j..][1..] == raw[j + 1..];
      if raw[j] == BACKSLASH {
        if j + 1 < |raw| {
          assert raw[j..][2..] == raw[j + 2..];
          InStringAtIsLen(raw, j + 2);
        }
      } else if raw[j] != QUOTE {
        InStringAtIsLen(raw, j + 1);
      }
    }
  }

  lemma StringAtIsLen(raw: Bytes, i: nat)
    requires i <= |raw|
    ensures StringAt(raw, i) == Shift(i, StringLen(raw[i..]))
  {
    if i < |raw| {
      assert raw[i..][1..] == raw[i + 1..];
      InStringAtIsLen(raw, i + 1);
    }
  }

  lemma {:induction false} NestAtIsLen(raw: Bytes, j: nat, depth: int)
    requires j <= |raw|
    ensures NestAt(raw, j, depth) == Shift(j, Nest(raw[j..], depth))
    decreases |raw| - j
  {
    if j < |raw| {
      assert raw[j..][1..] == raw[j + 1..];
      if raw[j] == QUOTE {
        StringAtIsLen(raw, j);
        var text := StringLen(raw[j..]);
        if text.Some? {
          assert raw[j..][text.value..] == raw[j + text.value..];
          NestAtIsLen(raw, j + text.value, depth);
        }
      } else {
        NestAtIsLen(raw, j + 1, if IsOpen(raw[j]) then depth + 1 else if IsClose(raw[j]) then depth - 1 else depth);
      }
    }
  }

  lemma {:induction false} ScalarAtIsLen(raw: Bytes, j: nat)
    requires j <= |raw|
    ensures ScalarAt(raw, j) == Shift(j, ScalarLen(raw[j..]))
    decreases |raw| - j
  {
    if j < |raw| {
      assert raw[j..][1..] == raw[j + 1..];
      ScalarAtIsLen(raw, j + 1);
    }
  }

  lemma ValueAtIsLen(raw: Bytes, i: nat)
    requires i <= |raw|
    ensures ValueAt(raw, i) == Shift(i, ValueLen(raw[i..]))
  {
    StringAtIsLen(raw, i);
    NestAtIsLen(raw, i, 0);
    ScalarAtIsLen(raw, i);
  }

  /** The first position from i on that holds no space. */
  function SpaceAt(raw: Bytes, i: nat): (j: nat)
    requires i <= |raw|
    ensures i <= j <= |raw|
    decreases |raw| - i
  {
    if i < |raw| && IsSpace(raw[i]) then SpaceAt(raw, i + 1) else i
  }

  lemma {:induction false} SpaceAtIsFirst(raw: Bytes, i: nat)
    requires i <= |raw|
    ensures var j := SpaceAt(raw, i);
      (j < |raw| ==> !IsSpace(raw[j])) && forall k :: i <= k < j ==> IsSpace(raw[k])
    decreases |raw| - i
  {
    if i < |raw| && IsSpace(raw[i]) {
      SpaceAtIsFirst(raw, i + 1);
    }
  }

  method SkipSpace(raw: Bytes, i: nat) returns (j: nat)
    requires i <= |raw|
    ensures j == SpaceAt(raw, i)
  {
    j := i;
    while j < |raw| && IsSpace(raw[j])
      invariant i <= j <= |raw| && SpaceAt(raw, i) == SpaceAt(raw, j)
    {
      j := j + 1;
    }
  }

  /** The first c in raw[from..to] as an offset, or -1; searched is how many
      bytes were looked at. */
  method IndexByte(raw: Bytes, from: nat, to: nat, c: byte) returns (offset: int, ghost searched: nat)
    requires from <= to <= |raw|
    ensures offset < 0 ==> offset == -1 && c !in raw[from..to] && searched == to - from
    ensures offset >= 0 ==> offset < to - from && raw[from + offset] == c && c !in raw[from..from + offset] && searched == offset + 1
  {
    offset, searched := 0, 0;
    while from + offset < to
      invariant 0 <= offset <= to - from && searched == offset && c !in raw[from..from + offset]
    {
      searched := searched + 1;
      if raw[from + offset] == c {
        return;
      }
      offset := offset + 1;
    }
    offset := -1;
  }

  /** Bytes that are neither a quote nor a backslash are crossed as they are. */
  lemma {:induction false} CrossPlain(raw: Bytes, j: nat, k: nat)
    requires j <= k <= |raw| && QUOTE !in raw[j..k] && BACKSLASH !in raw[j..k]
    ensures InStringAt(raw, j) == InStringAt(raw, k)
    decreases k - j
  {
    if j < k {
      assert raw[j] == raw[j..k][0];
      assert raw[j + 1..k] == raw[j..k][1..];
      CrossPlain(raw, j + 1, k);
    }
  }

  /** Without a quote no string ends. */
  lemma {:induction false} NoQuoteNoEnd(raw: Bytes, j: nat)
    requires j <= |raw| && QUOTE !in raw[j..]
    ensures InStringAt(raw, j).None?
    decreases |raw| - j
  {
    if j < |raw| {
      assert raw[j] == raw[j..][0];
      assert raw[j + 1..] == raw[j..][1..];
      NoQuoteNoEnd(raw, j + 1);
      if j + 2 <= |raw| {
        assert raw[j + 2..] == raw[j..][2..];
        NoQuoteNoEnd(raw, j + 2);
      }
    }
  }

  lemma LaterPart(raw: Bytes, j: nat, k: nat, stop: nat, c: byte)
    requires j <= k <= stop <= |raw| && c !in raw[j..stop]
    ensures c !in raw[k..stop] && c !in raw[j..k]
  {
    assert raw[k..stop] == raw[j..stop][k - j..];
    assert raw[j..k] == raw[j..stop][..k - j];
  }

  lemma StringParts(raw: Bytes, j: nat)
    requires j < |raw|
    ensures raw[j] == QUOTE ==> StringAt(raw, j) == InStringAt(raw, j + 1) && InStringAt(raw, j) == Some(j + 1)
    ensures raw[j] == BACKSLASH && j + 1 < |raw| ==> InStringAt(raw, j) == InStringAt(raw, j + 2)
  {}

  /** The quote-to-quote scanner returns what the byte-at-a-time one returns,
      and searches at most twice the bytes it crosses. */
  method SkipString(raw: Bytes, i: nat) returns (end: Option<nat>, ghost searched: nat)
    requires i <= |raw|
    ensures end == StringAt(raw, i)
    ensures end.Some? ==> i + 2 <= end.value <= |raw|
    ensures searched <= 2 * ((if end.Some? then end.value else |raw|) - i)
  {
    hide InStringAt;
    searched := 0;
    if i >= |raw| || raw[i] != QUOTE {
      return None, 0;
    }
    StringParts(raw, i);
    var j := i + 1;
    while true
      invariant i < j <= |raw| && searched <= 2 * (j - i)
      invariant StringAt(raw, i) == InStringAt(raw, j)
      decreases |raw| - j
    {
      var quote;
      ghost var cost;
      quote, cost := IndexByte(raw, j, |raw|, QUOTE);
      searched := searched + cost;
      if quote < 0 {
        assert raw[j..|raw|] == raw[j..];
        NoQuoteNoEnd(raw, j);
        return None, searched;
      }
      var stop := j + quote;
      ghost var from, before := j, searched;
      while true
        invariant from <= j <= stop && QUOTE !in raw[j..stop]
        invariant searched <= before + (j - from)
        invariant StringAt(raw, i) == InStringAt(raw, j)
        decreases stop - j
      {
        var backslash;
        backslash, cost := IndexByte(raw, j, stop, BACKSLASH);
        searched := searched + cost;
        if backslash < 0 {
          CrossPlain(raw, j, stop);
          StringParts(raw, stop);
          return Some(stop + 1), searched;
        }
        LaterPart(raw, j, j + backslash, stop, QUOTE);
        CrossPlain(raw, j, j + backslash);
        StringParts(raw, j + backslash);
        if j + backslash + 2 <= stop {
          LaterPart(raw, j, j + backslash + 2, stop, QUOTE);
        }
        j := j + backslash + 2;
        if j > stop {
          break; // the quote at stop was escaped
        }
      }
    }
  }

  method SkipValue(raw: Bytes, i: nat) returns (end: Option<nat>)
    requires i <= |raw|
    ensures end == ValueAt(raw, i)
  {
    if i >= |raw| {
      return None;
    }
    if raw[i] == QUOTE {
      ghost var searched;
      end, searched := SkipString(raw, i);
      return;
    }
    if IsOpen(raw[i]) {
      var depth, j := 0, i;
      while j < |raw|
        invariant i <= j <= |raw| && depth >= 0 && (j == i <==> depth == 0)
        invariant NestAt(raw, i, 0) == NestAt(raw, j, depth)
      {
        if raw[j] == QUOTE {
          ghost var searched;
          var text;
          text, searched := SkipString(raw, j);
          if text.None? {
            return None;
          }
          j := text.value;
        } else if IsOpen(raw[j]) {
          depth, j := depth + 1, j + 1;
        } else if IsClose(raw[j]) {
          depth := depth - 1;
          if depth == 0 {
            return Some(j + 1);
          }
          j := j + 1;
        } else {
          j := j + 1;
        }
      }
      return None;
    }
    var j := i;
    while j < |raw|
      invariant i <= j <= |raw| && ScalarAt(raw, i) == ScalarAt(raw, j)
    {
      if IsDelimiter(raw[j]) {
        return if j == i then None else Some(j);
      }
      j := j + 1;
    }
    return None;
  }

  /** What follows a value inside an object or array. */
  predicate Delimited(rest: Bytes) { rest != [] && IsDelimiter(rest[0]) }

  /** The value is crossed to its exact end wherever it stands. */
  ghost predicate Crossable(value: Bytes) {
    forall rest :: Delimited(rest) ==> ValueLen(value + rest) == Some(|value|)
  }

  lemma {:induction false} InStringIsLocal(s: Bytes, rest: Bytes)
    requires InString(s).Some?
    ensures InString(s[..InString(s).value] + rest) == InString(s)
    decreases |s|
  {
    var n := InString(s).value;
    var t := s[..n] + rest;
    assert t[0] == s[0];
    if s[0] == BACKSLASH {
      InStringIsLocal(s[2..], rest);
      assert t[2..] == s[2..][..n - 2] + rest;
    } else if s[0] != QUOTE {
      InStringIsLocal(s[1..], rest);
      assert t[1..] == s[1..][..n - 1] + rest;
    }
  }

  lemma StringIsLocal(s: Bytes, rest: Bytes)
    requires StringLen(s).Some?
    ensures StringLen(s[..StringLen(s).value] + rest) == StringLen(s)
  {
    var n := StringLen(s).value;
    InStringIsLocal(s[1..], rest);
    assert (s[..n] + rest)[1..] == s[1..][..n - 1] + rest;
  }

  lemma CutAfter(s: Bytes, m: nat, n: nat, rest: Bytes)
    requires m <= n <= |s|
    ensures (s[..n] + rest)[m..] == s[m..][..n - m] + rest
  {}

  lemma {:induction false} NestIsLocal(s: Bytes, depth: int, rest: Bytes)
    requires Nest(s, depth).Some?
    ensures Nest(s[..Nest(s, depth).value] + rest, depth) == Nest(s, depth)
    decreases |s|
  {
    var n := Nest(s, depth).value;
    var t := s[..n] + rest;
    assert t[0] == s[0];
    if s[0] == QUOTE {
      var m := StringLen(s).value;
      StringIsLocal(s, s[m..n] + rest);
      assert t == s[..m] + (s[m..n] + rest);
      NestIsLocal(s[m..], depth, rest);
      CutAfter(s, m, n, rest);
    } else {
      CutAfter(s, 1, n, rest);
      if IsOpen(s[0]) {
        NestIsLocal(s[1..], depth + 1, rest);
      } else if IsClose(s[0]) {
        if depth != 1 {
          NestIsLocal(s[1..], depth - 1, rest);
        }
      } else {
        NestIsLocal(s[1..], depth, rest);
      }
    }
  }

  lemma {:induction false} ScalarIsLocal(s: Bytes, rest: Bytes)
    requires ScalarLen(s).Some? && Delimited(rest)
    ensures ScalarLen(s[..ScalarLen(s).value] + rest) == ScalarLen(s)
    decreases |s|
  {
    var n := ScalarLen(s).value;
    if n == 0 {
      assert s[..n] + rest == rest;
    } else {
      ScalarIsLocal(s[1..], rest);
      assert (s[..n] + rest)[1..] == s[1..][..n - 1] + rest;
    }
  }

  /** A crossed value is crossed to the same end anywhere else. */
  lemma CrossedIsCrossable(s: Bytes)
    requires ValueLen(s).Some?
    ensures Crossable(s[..ValueLen(s).value])
  {
    var n := ValueLen(s).value;
    forall rest | Delimited(rest) ensures ValueLen(s[..n] + rest) == Some(n) {
      assert (s[..n] + rest)[0] == s[0];
      if s[0] == QUOTE {
        StringIsLocal(s, rest);
      } else if IsOpen(s[0]) {
        NestIsLocal(s, 0, rest);
      } else {
        ScalarIsLocal(s, rest);
      }
    }
  }

  /** Text t stands at position i. */
  predicate At(raw: Bytes, i: nat, t: Bytes) { i + |t| <= |raw| && raw[i..i + |t|] == t }

  lemma AtParts(raw: Bytes, i: nat, a: Bytes, b: Bytes)
    ensures At(raw, i, a + b) <==> At(raw, i, a) && At(raw, i + |a|, b)
  {
    if i + |a| + |b| <= |raw| {
      assert raw[i..i + |a + b|] == raw[i..i + |a|] + raw[i + |a|..i + |a| + |b|];
      assert (a + b)[..|a|] == a && (a + b)[|a|..] == b;
      var t := raw[i..i + |a + b|];
      assert t[..|a|] == raw[i..i + |a|] && t[|a|..] == raw[i + |a|..i + |a| + |b|];
    }
  }

  /** A key's text between its quotes: the closing quote is the first one that
      is not escaped. */
  predicate Quotable(key: Bytes) { StringLen([QUOTE] + key + [QUOTE]) == Some(|key| + 2) }

  lemma QuotedAt(raw: Bytes, i: nat, key: Bytes)
    requires Quotable(key) && At(raw, i, [QUOTE] + key + [QUOTE])
    ensures StringAt(raw, i) == Some(i + |key| + 2)
  {
    var text := [QUOTE] + key + [QUOTE];
    StringIsLocal(text, raw[i + |text|..]);
    assert text[..|text|] + raw[i + |text|..] == raw[i..];
    StringAtIsLen(raw, i);
  }

  lemma CrossableAt(raw: Bytes, i: nat, value: Bytes)
    requires Crossable(value) && At(raw, i, value)
    requires i + |value| < |raw| && IsDelimiter(raw[i + |value|])
    ensures ValueAt(raw, i) == Some(i + |value|)
  {
    var rest := raw[i + |value|..];
    assert Delimited(rest);
    assert raw[i..] == value + rest;
    ValueAtIsLen(raw, i);
  }

  lemma CrossableStart(value: Bytes)
    requires Crossable(value)
    ensures value != [] && !IsDelimiter(value[0])
  {
    var rest := [COMMA];
    assert Delimited(rest) && ValueLen(value + rest) == Some(|value|);
    if value != [] {
      assert (value + rest)[0] == value[0];
    }
  }

  predicate Spaces(space: Bytes) { forall c :: c in space ==> IsSpace(c) }

  lemma {:induction false} SpacesAt(raw: Bytes, i: nat, space: Bytes)
    requires Spaces(space) && At(raw, i, space) && (i + |space| < |raw| ==> !IsSpace(raw[i + |space|]))
    ensures SpaceAt(raw, i) == i + |space|
    decreases |space|
  {
    if space != [] {
      assert space[0] == raw[i..i + |space|][0];
      assert raw[i + 1..i + |space|] == raw[i..i + |space|][1..];
      SpacesAt(raw, i + 1, space[1..]);
    }
  }
}
