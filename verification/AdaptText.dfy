/** Object keys as JSON strings: written with the escapes JSON requires, read
    back with every escape JSON has. */
module AdaptText {
  import opened Bytes
  import opened JsonScan
  import opened JsonText
  import opened Runes

  function HexDigit(n: int): byte
    requires 0 <= n < 16
  {
    (if n < 10 then 48 + n else 87 + n) as byte
  }

  function HexValue(c: byte): (n: int)
    requires IsHex(c)
    ensures 0 <= n < 16
  {
    if IsDigit(c) then c as int - 48 else if c >= 97 then c as int - 87 else c as int - 55
  }

  /** How one byte of a key is written. */
  function Escaped(c: byte): Bytes {
    if c == QUOTE || c == BACKSLASH then [BACKSLASH, c]
    else if c < SPACE then [BACKSLASH, LOWER_U, ZERO, ZERO, HexDigit(c as int / 16), HexDigit(c as int % 16)]
    else [c]
  }

  function EscapedKey(key: Bytes): Bytes {
    if key == [] then [] else Escaped(key[0]) + EscapedKey(key[1..])
  }

  /** Appends a key as a JSON string. */
  method AppendString(dst: Bytes, key: Bytes) returns (out: Bytes)
    ensures out == dst + ([QUOTE] + EscapedKey(key) + [QUOTE])
  {
    out := dst + [QUOTE];
    for i := 0 to |key|
      invariant out + EscapedKey(key[i..]) == dst + [QUOTE] + EscapedKey(key)
    {
      assert key[i..][1..] == key[i + 1..];
      assert out + (Escaped(key[i]) + EscapedKey(key[i + 1..])) == out + Escaped(key[i]) + EscapedKey(key[i + 1..]);
      if key[i] == QUOTE || key[i] == BACKSLASH {
        out := out + [BACKSLASH, key[i]];
      } else if key[i] < SPACE {
        var c := key[i] as int;
        out := out + [BACKSLASH, LOWER_U, ZERO, ZERO, HexDigit(c / 16), HexDigit(c % 16)];
      } else {
        out := out + [key[i]];
      }
    }
    assert key[|key|..] == [] && out + [] == out;
    out := out + [QUOTE];
    assert dst + [QUOTE] + EscapedKey(key) + [QUOTE] == dst + ([QUOTE] + EscapedKey(key) + [QUOTE]);
  }

  /** The four hex digits at the start of s. */
  function CodeUnit(s: Bytes): Option<int> {
    if |s| < 4 || !(forall h | h in s[..4] :: IsHex(h)) then None
    else
      assert s[0] in s[..4] && s[1] in s[..4] && s[2] in s[..4] && s[3] in s[..4];
      Some(HexValue(s[0]) * 4096 + HexValue(s[1]) * 256 + HexValue(s[2]) * 16 + HexValue(s[3]))
  }

  /** What a one-letter escape stands for. */
  function Letter(c: byte): Option<byte> {
    if c == QUOTE || c == BACKSLASH || c == 47 then Some(c)
    else if c == 98 then Some(8)
    else if c == 102 then Some(12)
    else if c == 110 then Some(LF)
    else if c == 114 then Some(CR)
    else if c == 116 then Some(TAB)
    else None
  }

  function Prepend(head: Bytes, tail: Option<Bytes>): Option<Bytes> {
    if tail.Some? then Some(head + tail.value) else None
  }

  /** The text a string's content stands for, every escape decoded and bytes
      that are not UTF-8 replaced; None for text JSON does not allow between
      quotes. */
  function Decoded(raw: Bytes): Option<Bytes>
    decreases |raw|
  {
    if raw == [] then Some([])
    else if raw[0] < SPACE || raw[0] == QUOTE then None
    else if IsHigh(raw[0]) then
      if RuneLen(raw) > 0 then Prepend(raw[..RuneLen(raw)], Decoded(raw[RuneLen(raw)..]))
      else Prepend(Utf8(REPLACEMENT), Decoded(raw[1..]))
    else if raw[0] != BACKSLASH then Prepend([raw[0]], Decoded(raw[1..]))
    else if |raw| < 2 then None
    else if raw[1] != LOWER_U then
      var letter := Letter(raw[1]);
      if letter.None? then None else Prepend([letter.value], Decoded(raw[2..]))
    else
      var unit := CodeUnit(raw[2..]);
      if unit.None? then None
      else if 0xD800 <= unit.value < 0xDC00 && |raw| >= 12 && raw[6] == BACKSLASH && raw[7] == LOWER_U then
        var second := CodeUnit(raw[8..]);
        if second.Some? && 0xDC00 <= second.value < 0xE000 then
          Prepend(Utf8((unit.value - 0xD800) * 1024 + (second.value - 0xDC00) + 0x10000), Decoded(raw[12..]))
        else Prepend(Utf8(REPLACEMENT), Decoded(raw[6..]))
      else if 0xD800 <= unit.value < 0xE000 then Prepend(Utf8(REPLACEMENT), Decoded(raw[6..]))
      else Prepend(Utf8(unit.value), Decoded(raw[6..]))
  }

  /** A key without escapes is taken as it is, unless a control character
      stands in it. */
  function Unquote(raw: Bytes): Option<Bytes> {
    if BACKSLASH !in raw then if exists c | c in raw :: c < SPACE then None else Some(raw)
    else Decoded(raw)
  }

  method UnquoteKey(raw: Bytes) returns (key: Option<Bytes>)
    ensures key == Unquote(raw)
  {
    ghost var searched;
    var backslash;
    backslash, searched := IndexByte(raw, 0, |raw|, BACKSLASH);
    assert raw[0..|raw|] == raw;
    hide Decoded;
    if backslash >= 0 {
      return Decoded(raw);
    }
    for i := 0 to |raw|
      invariant forall k :: 0 <= k < i ==> raw[k] >= SPACE
    {
      if raw[i] < SPACE {
        assert raw[i] in raw;
        return None;
      }
    }
    return Some(raw);
  }

  /** Between quotes, and neither escaped nor in need of it. */
  predicate IsPlain(raw: Bytes) { forall c :: c in raw ==> c >= SPACE && c != QUOTE && c != BACKSLASH }

  /** Text without escapes is only repaired by the decoder. */
  lemma {:induction false} PlainRepaired(raw: Bytes)
    requires IsPlain(raw)
    ensures Decoded(raw) == Some(Repaired(raw))
    decreases |raw|
  {
    hide RuneLen, Utf8;
    if raw != [] {
      assert raw[0] in raw;
      var n := if IsHigh(raw[0]) && RuneLen(raw) > 0 then RuneLen(raw) else 1;
      assert forall c :: c in raw[n..] ==> c in raw;
      PlainRepaired(raw[n..]);
    }
  }

  /** The short way and the decoder agree on text without escapes exactly when
      it is UTF-8. */
  lemma PlainDecoded(raw: Bytes)
    requires IsPlain(raw)
    ensures Unquote(raw) == Some(raw)
    ensures Unquote(raw) == Decoded(raw) <==> ValidUtf8(raw)
  {
    hide Decoded;
    PlainRepaired(raw);
    RepairedIsLonger(raw);
  }

  lemma HexRoundTrip(n: int)
    requires 0 <= n < 16
    ensures IsHex(HexDigit(n)) && HexValue(HexDigit(n)) == n
  {}

  lemma ControlDecoded(c: byte, rest: Bytes)
    requires c < SPACE
    ensures Decoded(Escaped(c) + rest) == Prepend([c], Decoded(rest))
  {
    var s := Escaped(c) + rest;
    var high, low := c as int / 16, c as int % 16;
    HexRoundTrip(0);
    HexRoundTrip(high);
    HexRoundTrip(low);
    var hex := [ZERO, ZERO, HexDigit(high), HexDigit(low)];
    assert s == [BACKSLASH, LOWER_U] + hex + rest;
    assert s[2..] == hex + rest;
    assert (hex + rest)[..4] == hex;
    assert s[6..] == rest;
    assert CodeUnit(s[2..]) == Some(c as int);
  }

  lemma EscapedDecoded(c: byte, rest: Bytes)
    requires !IsHigh(c)
    ensures Decoded(Escaped(c) + rest) == Prepend([c], Decoded(rest))
  {
    hide CodeUnit, Utf8, HexDigit, RuneLen;
    var s := Escaped(c) + rest;
    if c == QUOTE || c == BACKSLASH {
      assert s[2..] == rest;
    } else if c < SPACE {
      ControlDecoded(c, rest);
    } else {
      assert s[1..] == rest;
    }
  }

  lemma {:induction false} HighEscaped(key: Bytes)
    ensures High(EscapedKey(key)) == High(key)
  {
    if key != [] && IsHigh(key[0]) {
      HighEscaped(key[1..]);
      assert EscapedKey(key)[1..] == EscapedKey(key[1..]);
    }
  }

  /** High bytes are written as they are. */
  lemma {:induction false} HighWritten(key: Bytes, n: nat)
    requires n <= |key| && forall i :: 0 <= i < n ==> IsHigh(key[i])
    ensures EscapedKey(key) == key[..n] + EscapedKey(key[n..])
    decreases n
  {
    hide EscapedKey;
    if n > 0 {
      var rest := key[1..];
      HighWritten(rest, n - 1);
      HighFirst(key);
      assert rest[n - 1..] == key[n..] && [key[0]] + rest[..n - 1] == key[..n];
      assert [key[0]] + (rest[..n - 1] + EscapedKey(key[n..])) == ([key[0]] + rest[..n - 1]) + EscapedKey(key[n..]);
    } else {
      assert key[0..] == key && key[..0] == [];
    }
  }

  lemma HighFirst(key: Bytes)
    requires key != [] && IsHigh(key[0])
    ensures EscapedKey(key) == [key[0]] + EscapedKey(key[1..])
  {}

  /** What decoding a written key does to its first character. */
  lemma HighDecoded(key: Bytes)
    requires key != [] && IsHigh(key[0])
    ensures Decoded(EscapedKey(key)) ==
      if RuneLen(key) > 0 then Prepend(key[..RuneLen(key)], Decoded(EscapedKey(key[RuneLen(key)..])))
      else Prepend(Utf8(REPLACEMENT), Decoded(EscapedKey(key[1..])))
  {
    hide RuneLen, Utf8, CodeUnit;
    var raw, n := EscapedKey(key), RuneLen(key);
    HighEscaped(key);
    SameHigh(raw, key);
    HighWritten(key, n);
    HighWritten(key, 1);
    assert raw[..n] == key[..n] && raw[n..] == EscapedKey(key[n..]) && raw[1..] == EscapedKey(key[1..]);
  }

  lemma {:induction false} KeyDecoded(key: Bytes)
    ensures Decoded(EscapedKey(key)) == Some(Repaired(key))
    decreases |key|
  {
    hide RuneLen, Utf8, Escaped;
    if key != [] {
      if IsHigh(key[0]) {
        HighDecoded(key);
        KeyDecoded(key[if RuneLen(key) > 0 then RuneLen(key) else 1..]);
      } else {
        EscapedDecoded(key[0], EscapedKey(key[1..]));
        KeyDecoded(key[1..]);
      }
    }
  }

  /** A written byte as a character of the grammar. */
  function KeyItem(c: byte): Item {
    if c == QUOTE || c == BACKSLASH then Escape(c)
    else if c < SPACE then Unicode([ZERO, ZERO, HexDigit(c as int / 16), HexDigit(c as int % 16)])
    else Plain(c)
  }

  lemma KeyItemIsText(c: byte)
    ensures KeyItem(c).Valid() && KeyItem(c).Text() == Escaped(c)
  {
    var letters := Ascii("\"\\/bfnrt");
    assert letters[0] == QUOTE && letters[1] == BACKSLASH;
    HexRoundTrip(0);
    HexRoundTrip(c as int / 16);
    HexRoundTrip(c as int % 16);
  }

  function KeyItems(key: Bytes): seq<Item> {
    if key == [] then [] else [KeyItem(key[0])] + KeyItems(key[1..])
  }

  lemma {:induction false} KeyIsText(key: Bytes)
    ensures ValidText(KeyItems(key)) && Content(KeyItems(key)) == EscapedKey(key)
  {
    hide KeyItem, Escaped, Item.Valid, Item.Text;
    if key != [] {
      KeyItemIsText(key[0]);
      KeyIsText(key[1..]);
    }
  }

  predicate NeedsEscape(key: Bytes) { exists c :: c in key && (c == QUOTE || c == BACKSLASH || c < SPACE) }

  /** UTF-8, or never given to the decoder. */
  predicate Returnable(key: Bytes) { ValidUtf8(key) || !NeedsEscape(key) }

  lemma {:induction false} EscapesShow(key: Bytes)
    ensures NeedsEscape(key) <==> BACKSLASH in EscapedKey(key)
    ensures !NeedsEscape(key) ==> EscapedKey(key) == key && IsPlain(key)
  {
    if key != [] {
      EscapesShow(key[1..]);
      assert key == [key[0]] + key[1..];
      assert forall c :: c in key <==> c == key[0] || c in key[1..];
      assert forall c :: c in EscapedKey(key) <==> c in Escaped(key[0]) || c in EscapedKey(key[1..]);
      var c := key[0];
      if c == QUOTE || c == BACKSLASH || c < SPACE {
        assert Escaped(c)[0] == BACKSLASH && Escaped(c)[0] in Escaped(c);
        assert c in key && NeedsEscape(key);
      } else {
        assert Escaped(c) == [c];
      }
    }
  }

  lemma KeyIsUnquoted(key: Bytes)
    ensures Unquote(EscapedKey(key)) == Some(if NeedsEscape(key) then Repaired(key) else key)
  {
    hide Decoded, NeedsEscape;
    EscapesShow(key);
    KeyDecoded(key);
    if !NeedsEscape(key) {
      PlainDecoded(key);
    }
  }

  /** A written key can always be read, and reads back as itself exactly when
      it is UTF-8 or needs no escape. */
  lemma KeyRoundTrip(key: Bytes)
    ensures Unquote(EscapedKey(key)).Some? && Quotable(EscapedKey(key))
    ensures Unquote(EscapedKey(key)) == Some(key) <==> Returnable(key)
  {
    hide Unquote, NeedsEscape;
    KeyIsUnquoted(key);
    RepairedIsLonger(key);
    KeyIsText(key);
    ContentIsQuotable(KeyItems(key));
  }

  // What a string of the grammar says.

  predicate HighSurrogate(unit: int) { 0xD800 <= unit < 0xDC00 }

  predicate LowSurrogate(unit: int) { 0xDC00 <= unit < 0xE000 }

  /** The number four hex digits stand for. */
  function UnitOf(hex: Bytes): (unit: int)
    ensures 0 <= unit < 0x10000
  {
    if !Unicode(hex).Valid() then 0
    else
      assert hex[0] in hex && hex[1] in hex && hex[2] in hex && hex[3] in hex;
      HexValue(hex[0]) * 4096 + HexValue(hex[1]) * 256 + HexValue(hex[2]) * 16 + HexValue(hex[3])
  }

  /** A high surrogate and the low one right after it are one code point. */
  predicate IsPair(items: seq<Item>) {
    && |items| >= 2 && items[0].Unicode? && items[1].Unicode?
    && HighSurrogate(UnitOf(items[0].hex)) && LowSurrogate(UnitOf(items[1].hex))
  }

  function LetterOf(c: byte): byte
    requires Escape(c).Valid()
  {
    LetterIs(c);
    Letter(c).value
  }

  lemma {:induction false} PlainRun(items: seq<Item>, n: nat)
    requires n <= |Content(items)| && forall i :: 0 <= i < n ==> IsHigh(Content(items)[i])
    ensures n <= |items| && Content(items)[n..] == Content(items[n..]) && forall i :: 0 <= i < n ==> items[i].Plain?
    decreases n
  {
    if n > 0 {
      assert items[0].Text()[0] == Content(items)[0];
      assert items[0].Plain?;
      var rest := items[1..];
      assert Content(items)[1..] == Content(rest);
      forall i | 0 <= i < n - 1 ensures IsHigh(Content(rest)[i]) {
        assert Content(rest)[i] == Content(items)[i + 1];
      }
      PlainRun(rest, n - 1);
      assert rest[n - 1..] == items[n..] && Content(items)[n..] == Content(items)[1..][n - 1..];
    }
  }

  lemma SomeItems(items: seq<Item>, n: nat)
    requires ValidText(items) && n <= |items|
    ensures ValidText(items[n..])
  {
    hide Item.Valid;
  }

  /** The text a string stands for (RFC 8259 section 7); a surrogate that is
      not one of a pair is replaced, and so is a byte that is not UTF-8. */
  function Meaning(items: seq<Item>): Bytes
    requires ValidText(items)
    decreases |items|
  {
    if items == [] then []
    else if items[0].Plain? && RuneLen(Content(items)) > 0 then
      var n := RuneLen(Content(items));
      PlainRun(items, n);
      SomeItems(items, n);
      Content(items)[..n] + Meaning(items[n..])
    else if IsPair(items) then
      Utf8((UnitOf(items[0].hex) - 0xD800) * 1024 + (UnitOf(items[1].hex) - 0xDC00) + 0x10000) + Meaning(items[2..])
    else
      assert items[0] in items;
      (match items[0]
       case Plain(c) => if IsHigh(c) then Utf8(REPLACEMENT) else [c]
       case Escape(c) => [LetterOf(c)]
       case Unicode(hex) =>
         var unit := UnitOf(hex);
         Utf8(if HighSurrogate(unit) || LowSurrogate(unit) then REPLACEMENT else unit))
      + Meaning(items[1..])
  }

  lemma LetterIs(c: byte)
    requires Escape(c).Valid()
    ensures Letter(c).Some? && c != LOWER_U
  {
    var letters := Ascii("\"\\/bfnrt");
    assert letters == [34, 92, 47, 98, 102, 110, 114, 116];
  }

  lemma UnitRead(hex: Bytes, rest: Bytes)
    requires Unicode(hex).Valid()
    ensures CodeUnit(hex + rest) == Some(UnitOf(hex))
  {
    assert (hex + rest)[..4] == hex;
  }

  /** Only another such escape follows like one. */
  lemma StartsUnicode(items: seq<Item>)
    requires ValidText(items)
    ensures var raw := Content(items);
      |raw| >= 6 && raw[0] == BACKSLASH && raw[1] == LOWER_U <==> items != [] && items[0].Unicode?
  {
    if items != [] {
      assert items[0] in items;
      if items[0].Escape? {
        LetterIs(items[0].c);
      }
    }
  }

  lemma UnicodeDecoded(hex: Bytes, rest: seq<Item>)
    requires Unicode(hex).Valid() && ValidText(rest) && !IsPair([Unicode(hex)] + rest)
    ensures var unit := UnitOf(hex);
      Decoded(Unicode(hex).Text() + Content(rest)) ==
      Prepend(Utf8(if HighSurrogate(unit) || LowSurrogate(unit) then REPLACEMENT else unit), Decoded(Content(rest)))
  {
    hide Content, UnitOf, CodeUnit, Utf8, IsHex;
    var raw, all := Unicode(hex).Text() + Content(rest), [Unicode(hex)] + rest;
    assert raw[2..] == hex + Content(rest) && raw[6..] == Content(rest);
    UnitRead(hex, Content(rest));
    StartsUnicode(rest);
    if |raw| >= 12 && raw[6] == BACKSLASH && raw[7] == LOWER_U {
      SecondUnit(raw, rest);
      assert all[1] == rest[0];
    }
  }

  lemma SecondUnit(raw: Bytes, rest: seq<Item>)
    requires ValidText(rest) && rest != [] && rest[0].Unicode? && |raw| >= 6 && raw[6..] == Content(rest)
    ensures |raw| >= 12 && rest[0].Valid() && CodeUnit(raw[8..]) == Some(UnitOf(rest[0].hex)) && raw[12..] == Content(rest[1..])
    ensures raw[6] == BACKSLASH && raw[7] == LOWER_U
  {
    assert rest[0] in rest;
    var more := Content(rest[1..]);
    assert raw[6..] == [BACKSLASH, LOWER_U] + rest[0].hex + more;
    assert raw[8..] == raw[6..][2..] == rest[0].hex + more;
    assert raw[12..] == raw[6..][6..] == more;
    assert raw[6] == raw[6..][0] && raw[7] == raw[6..][1];
    UnitRead(rest[0].hex, more);
  }

  lemma PairDecoded(items: seq<Item>)
    requires ValidText(items) && IsPair(items)
    ensures Decoded(Content(items)) ==
      Prepend(Utf8((UnitOf(items[0].hex) - 0xD800) * 1024 + (UnitOf(items[1].hex) - 0xDC00) + 0x10000), Decoded(Content(items[2..])))
  {
    hide Content, UnitOf, CodeUnit, Utf8, Item.Valid;
    var rest, raw := items[1..], Content(items);
    assert items[0] in items && items[1] in items;
    UnicodeFirst(items);
    assert Unicode(items[0].hex) == items[0];
    UnitRead(items[0].hex, Content(rest));
    SecondUnit(raw, rest);
    assert rest[1..] == items[2..];
  }

  lemma UnicodeFirst(items: seq<Item>)
    requires ValidText(items) && items != [] && items[0].Unicode?
    ensures var raw := Content(items);
      |raw| >= 6 && raw[0] == BACKSLASH && raw[1] == LOWER_U && raw[2..] == items[0].hex + Content(items[1..]) && raw[6..] == Content(items[1..])
  {
    assert items[0] in items;
    var more := Content(items[1..]);
    assert Content(items) == [BACKSLASH, LOWER_U] + items[0].hex + more;
  }

  lemma OneItemDecoded(item: Item, rest: Bytes)
    requires item.Valid() && !item.Unicode? && (item.Plain? ==> RuneLen([item.c] + rest) == 0)
    ensures Decoded(item.Text() + rest) ==
      Prepend(if item.Escape? then [LetterOf(item.c)] else if IsHigh(item.c) then Utf8(REPLACEMENT) else [item.c], Decoded(rest))
  {
    hide RuneLen, Utf8;
    var raw := item.Text() + rest;
    if item.Plain? {
      assert raw[1..] == rest;
    } else {
      LetterIs(item.c);
      assert raw[2..] == rest;
    }
  }

  lemma RuneDecoded(raw: Bytes)
    requires RuneLen(raw) > 0
    ensures Decoded(raw) == Prepend(raw[..RuneLen(raw)], Decoded(raw[RuneLen(raw)..]))
  {
    hide RuneLen, Utf8;
    assert IsHigh(raw[0]);
  }

  /** The decoder reads every string of the grammar as what it stands for. */
  lemma {:induction false} TextDecoded(items: seq<Item>)
    requires ValidText(items)
    ensures Decoded(Content(items)) == Some(Meaning(items))
    decreases |items|
  {
    hide Decoded, Utf8, UnitOf, Item.Text, LetterOf, Item.Valid, RuneLen;
    if items == [] {
      NothingDecoded();
    } else {
      assert items[0] in items;
      var n := RuneLen(Content(items));
      if items[0].Plain? && n > 0 {
        RuneDecoded(Content(items));
        PlainRun(items, n);
        SomeItems(items, n);
        TextDecoded(items[n..]);
      } else if IsPair(items) {
        PairDecoded(items);
        TextDecoded(items[2..]);
      } else {
        var rest := items[1..];
        assert items == [items[0]] + rest && Content(items) == items[0].Text() + Content(rest);
        TextDecoded(rest);
        if items[0].Unicode? {
          UnicodeDecoded(items[0].hex, rest);
        } else {
          PlainText(items[0]);
          OneItemDecoded(items[0], Content(rest));
        }
      }
    }
  }

  lemma NothingDecoded()
    ensures Decoded([]) == Some([])
  {}

  lemma PlainText(item: Item)
    ensures item.Plain? ==> item.Text() == [item.c]
  {}

  lemma {:induction false} UnescapedIsPlain(items: seq<Item>)
    requires ValidText(items) && BACKSLASH !in Content(items)
    ensures IsPlain(Content(items))
  {
    if items != [] {
      assert items[0] in items && items[0].Text()[0] in Content(items);
      assert forall c :: c in Content(items[1..]) ==> c in Content(items);
      UnescapedIsPlain(items[1..]);
    }
  }

  /** What a key is read as: itself without escapes, else what it stands for. */
  function KeyText(items: seq<Item>): Bytes
    requires ValidText(items)
  {
    if BACKSLASH in Content(items) then Meaning(items) else Content(items)
  }

  /** Every key of the grammar is read. As UTF-8, which JSON is, it is read as
      what it stands for. */
  lemma KeyIsRead(items: seq<Item>)
    requires ValidText(items)
    ensures Unquote(Content(items)) == Some(KeyText(items))
    ensures ValidUtf8(Content(items)) ==> KeyText(items) == Meaning(items)
    ensures Returnable(KeyText(items))
  {
    hide Content, Meaning, Decoded, Unquote, IsPlain, ValidUtf8, Repaired;
    var raw := Content(items);
    TextDecoded(items);
    if BACKSLASH !in raw {
      UnescapedIsPlain(items);
      PlainRepaired(raw);
      PlainDecoded(raw);
      PlainNeedsNone(raw);
    } else {
      EscapedIsDecoded(raw);
      DecodedIsUtf8(raw);
    }
  }

  lemma PlainNeedsNone(raw: Bytes)
    requires IsPlain(raw)
    ensures !NeedsEscape(raw)
  {}

  lemma EscapedIsDecoded(raw: Bytes)
    requires BACKSLASH in raw
    ensures Unquote(raw) == Decoded(raw)
  {}

  lemma UnitBound(s: Bytes)
    ensures CodeUnit(s).Some? ==> 0 <= CodeUnit(s).value < 0x10000
  {}

  /** Whatever the decoder yields is UTF-8. */
  lemma {:induction false} DecodedIsUtf8(raw: Bytes)
    ensures Decoded(raw).Some? ==> ValidUtf8(Decoded(raw).value)
    decreases |raw|
  {
    if Decoded(raw).Some? && raw != [] {
      var (head, rest) := FirstDecoded(raw);
      HeadIsUtf8(raw);
      DecodedIsUtf8(rest);
      ValidJoin(head, Decoded(rest).value);
    }
  }

  /** The first character decoded, and the text after it. */
  function FirstDecoded(raw: Bytes): (r: (Bytes, Bytes))
    requires raw != [] && Decoded(raw).Some?
    ensures |r.1| < |raw| && Decoded(raw) == Prepend(r.0, Decoded(r.1)) && Decoded(r.1).Some?
  {
    if IsHigh(raw[0]) then
      if RuneLen(raw) > 0 then (raw[..RuneLen(raw)], raw[RuneLen(raw)..]) else (Utf8(REPLACEMENT), raw[1..])
    else if raw[0] != BACKSLASH then ([raw[0]], raw[1..])
    else if raw[1] != LOWER_U then ([Letter(raw[1]).value], raw[2..])
    else
      var unit := CodeUnit(raw[2..]).value;
      if 0xD800 <= unit < 0xDC00 && |raw| >= 12 && raw[6] == BACKSLASH && raw[7] == LOWER_U
         && CodeUnit(raw[8..]).Some? && 0xDC00 <= CodeUnit(raw[8..]).value < 0xE000 then
        (Utf8((unit - 0xD800) * 1024 + (CodeUnit(raw[8..]).value - 0xDC00) + 0x10000), raw[12..])
      else (Utf8(if 0xD800 <= unit < 0xE000 then REPLACEMENT else unit), raw[6..])
  }

  lemma HeadIsUtf8(raw: Bytes)
    requires raw != [] && Decoded(raw).Some?
    ensures ValidUtf8(FirstDecoded(raw).0)
  {
    hide Utf8, RuneLen, ValidUtf8;
    CodeIsValid(REPLACEMENT);
    if IsHigh(raw[0]) {
      if RuneLen(raw) > 0 {
        RuneIsValid(raw);
      }
    } else if raw[0] != BACKSLASH {
      OneLow(raw[0]);
    } else if raw[1] != LOWER_U {
      OneLow(Letter(raw[1]).value);
    } else {
      EscapeIsUtf8(raw);
    }
  }

  lemma EscapeIsUtf8(raw: Bytes)
    requires Decoded(raw).Some? && |raw| >= 2 && raw[0] == BACKSLASH && raw[1] == LOWER_U
    ensures ValidUtf8(FirstDecoded(raw).0)
  {
    hide Utf8, RuneLen, ValidUtf8, CodeUnit, Letter;
    CodeIsValid(REPLACEMENT);
    UnitBound(raw[2..]);
    var unit := CodeUnit(raw[2..]).value;
    if !(0xD800 <= unit < 0xE000) {
      CodeIsValid(unit);
    } else if |raw| >= 12 && CodeUnit(raw[8..]).Some? && unit < 0xDC00 && 0xDC00 <= CodeUnit(raw[8..]).value < 0xE000 {
      CodeIsValid((unit - 0xD800) * 1024 + (CodeUnit(raw[8..]).value - 0xDC00) + 0x10000);
    }
  }
}
