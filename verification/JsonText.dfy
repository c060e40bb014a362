/** Well-formed JSON as RFC 8259 sections 2 to 7 write it. The scanner checks
    only what crossing needs; every value of the grammar is crossed exactly. */
module JsonText {
  import opened Bytes
  import opened JsonScan
  import opened JsonWalk

  /** One character of a string: as it is, or escaped. */
  datatype Item = Plain(c: byte) | Escape(c: byte) | Unicode(hex: Bytes) {
    predicate Valid() {
      match this
      case Plain(c) => c >= SPACE && c != QUOTE && c != BACKSLASH
      case Escape(c) => c in Ascii("\"\\/bfnrt")
      case Unicode(hex) => |hex| == 4 && forall h :: h in hex ==> IsHex(h)
    }

    function Text(): Bytes {
      match this
      case Plain(c) => [c]
      case Escape(c) => [BACKSLASH, c]
      case Unicode(hex) => [BACKSLASH, LOWER_U] + hex
    }
  }

  const LOWER_U: byte := 117
  const MINUS: byte := 45
  const PLUS: byte := 43
  const DOT: byte := 46
  const LOWER_E: byte := 101
  const UPPER_E: byte := 69
  const ZERO: byte := 48

  predicate IsDigit(c: byte) { 48 <= c <= 57 }

  predicate IsHex(c: byte) { IsDigit(c) || 65 <= c <= 70 || 97 <= c <= 102 }

  function Content(items: seq<Item>): Bytes {
    if items == [] then [] else items[0].Text() + Content(items[1..])
  }

  predicate ValidText(items: seq<Item>) { forall item :: item in items ==> item.Valid() }

  predicate IsDigits(s: Bytes) { s != [] && forall c :: c in s ==> IsDigit(c) }

  datatype Exponent = Exponent(mark: byte, sign: Bytes, digits: Bytes) {
    predicate Valid() { mark in {LOWER_E, UPPER_E} && sign in {[], [PLUS], [MINUS]} && IsDigits(digits) }

    function Text(): Bytes { [mark] + sign + digits }
  }

  datatype Scalar =
    | Number(negative: bool, whole: Bytes, fraction: Option<Bytes>, exponent: Option<Exponent>)
    | Literal(word: Bytes)
  {
    predicate Valid() {
      match this
      case Number(_, whole, fraction, exponent) =>
        && IsDigits(whole) && (whole[0] == ZERO ==> |whole| == 1)
        && (fraction.Some? ==> IsDigits(fraction.value))
        && (exponent.Some? ==> exponent.value.Valid())
      case Literal(word) => word == Ascii("true") || word == Ascii("false") || word == Ascii("null")
    }

    function Text(): Bytes {
      match this
      case Number(negative, whole, fraction, exponent) =>
        (if negative then [MINUS] else []) + whole
        + (if fraction.Some? then [DOT] + fraction.value else [])
        + (if exponent.Some? then exponent.value.Text() else [])
      case Literal(word) => word
    }
  }

  datatype Json =
    | Str(items: seq<Item>)
    | Atom(scalar: Scalar)
    | Array(pad: Bytes, elements: seq<Element>)
    | Object(pad: Bytes, fields: seq<Field>)

  datatype Element = Element(before: Bytes, value: Json, tail: Bytes)

  datatype Field = Field(before: Bytes, key: seq<Item>, mid: Bytes, after: Bytes, value: Json, tail: Bytes)

  predicate WellFormed(v: Json)
    decreases v
  {
    match v
    case Str(items) => ValidText(items)
    case Atom(scalar) => scalar.Valid()
    case Array(pad, elements) =>
      Spaces(pad) && forall e | e in elements :: Spaces(e.before) && WellFormed(e.value) && Spaces(e.tail)
    case Object(pad, fields) =>
      Spaces(pad) && forall f | f in fields ::
        Spaces(f.before) && ValidText(f.key) && Spaces(f.mid) && Spaces(f.after) && WellFormed(f.value) && Spaces(f.tail)
  }

  function Text(v: Json): Bytes
    decreases v, 0
  {
    match v
    case Str(items) => [QUOTE] + Content(items) + [QUOTE]
    case Atom(scalar) => scalar.Text()
    case Array(pad, elements) => ArrayText(pad, Pieces(elements))
    case Object(pad, fields) => ObjectText(pad, Written(fields))
  }

  /** The elements as the pieces they are written as. */
  function Pieces(elements: seq<Element>): (pieces: seq<Piece>)
    ensures |pieces| == |elements|
    decreases elements, 1
  {
    if elements == [] then []
    else [Piece(elements[0].before, Text(elements[0].value), elements[0].tail)] + Pieces(elements[1..])
  }

  /** The fields as the members they are written as. */
  function Written(fields: seq<Field>): (members: seq<Member>)
    ensures |members| == |fields|
    decreases fields, 1
  {
    if fields == [] then []
    else
      var f := fields[0];
      [Member(f.before, Content(f.key), f.mid, f.after, Text(f.value), f.tail)] + Written(fields[1..])
  }

  // Strings.

  /** Whatever the string says, its content is crossed up to what follows. */
  lemma {:induction false} ContentIsCrossed(items: seq<Item>, rest: Bytes)
    requires ValidText(items)
    ensures InString(Content(items) + rest) == Shift(|Content(items)|, InString(rest))
    decreases |items|
  {
    if items == [] {
      assert Content(items) + rest == rest;
    } else {
      var more := Content(items[1..]) + rest;
      assert Content(items) + rest == items[0].Text() + more;
      ItemIsCrossed(items[0], more);
      ContentIsCrossed(items[1..], rest);
    }
  }

  lemma ItemIsCrossed(item: Item, rest: Bytes)
    requires item.Valid()
    ensures InString(item.Text() + rest) == Shift(|item.Text()|, InString(rest))
  {
    var s := item.Text() + rest;
    match item
    case Plain(c) => assert s[1..] == rest;
    case Escape(c) => assert s[2..] == rest;
    case Unicode(hex) =>
      assert s[2..] == hex + rest;
      HexIsCrossed(hex, rest);
  }

  lemma {:induction false} HexIsCrossed(hex: Bytes, rest: Bytes)
    requires forall h :: h in hex ==> IsHex(h)
    ensures InString(hex + rest) == Shift(|hex|, InString(rest))
  {
    if hex == [] {
      assert hex + rest == rest;
    } else {
      assert (hex + rest)[1..] == hex[1..] + rest && hex[0] in hex;
      HexIsCrossed(hex[1..], rest);
    }
  }

  lemma ContentIsQuotable(items: seq<Item>)
    requires ValidText(items)
    ensures Quotable(Content(items))
  {
    hide Content, ValidText;
    ContentIsCrossed(items, [QUOTE]);
    var s := [QUOTE] + Content(items) + [QUOTE];
    assert s[1..] == Content(items) + [QUOTE];
  }

  // Values inside brackets.

  /** Text t is crossed inside brackets at any depth, whatever follows. */
  ghost predicate Over(t: Bytes) {
    forall rest, depth: int :: depth >= 1 ==> Nest(t + rest, depth) == Shift(|t|, Nest(rest, depth))
  }

  lemma OverBoth(a: Bytes, b: Bytes)
    requires Over(a) && Over(b)
    ensures Over(a + b)
  {
    hide Nest;
    forall rest, depth: int | depth >= 1 ensures Nest(a + b + rest, depth) == Shift(|a + b|, Nest(rest, depth)) {
      assert a + b + rest == a + (b + rest);
      assert Nest(a + (b + rest), depth) == Shift(|a|, Nest(b + rest, depth));
    }
  }

  predicate Inert(c: byte) { c != QUOTE && !IsOpen(c) && !IsClose(c) }

  lemma {:induction false} InertIsCrossed(s: Bytes, rest: Bytes, depth: int)
    requires (forall c :: c in s ==> Inert(c)) && depth >= 1
    ensures Nest(s + rest, depth) == Shift(|s|, Nest(rest, depth))
  {
    if s == [] {
      assert s + rest == rest;
    } else {
      assert (s + rest)[0] == s[0] && s[0] in s && (s + rest)[1..] == s[1..] + rest;
      InertIsCrossed(s[1..], rest, depth);
    }
  }

  lemma InertIsOver(s: Bytes)
    requires forall c :: c in s ==> Inert(c)
    ensures Over(s)
  {
    hide Nest, Inert;
    forall rest, depth: int | depth >= 1 ensures Nest(s + rest, depth) == Shift(|s|, Nest(rest, depth)) {
      InertIsCrossed(s, rest, depth);
    }
  }

  lemma SpacesAreOver(s: Bytes)
    requires Spaces(s)
    ensures Over(s)
  {
    InertIsOver(s);
  }

  lemma QuotedIsOver(key: Bytes)
    requires Quotable(key)
    ensures Over([QUOTE] + key + [QUOTE]) && Crossable([QUOTE] + key + [QUOTE])
  {
    var t := [QUOTE] + key + [QUOTE];
    forall rest: Bytes ensures StringLen(t + rest) == Some(|t|) && (t + rest)[|t|..] == rest {
      StringIsLocal(t, rest);
      assert t[..|t|] == t;
    }
    forall rest, depth: int | depth >= 1 ensures Nest(t + rest, depth) == Shift(|t|, Nest(rest, depth)) {
      assert StringLen(t + rest) == Some(|t|);
    }
    forall rest | Delimited(rest) ensures ValueLen(t + rest) == Some(|t|) {
      assert StringLen(t + rest) == Some(|t|);
    }
  }

  lemma BracketNest(open: byte, body: Bytes, close: byte, rest: Bytes, depth: int)
    requires IsOpen(open) && IsClose(close) && depth >= 0
    requires Nest(body + ([close] + rest), depth + 1) == Shift(|body|, Nest([close] + rest, depth + 1))
    ensures var t := [open] + (body + [close]);
      Nest(t + rest, depth) == if depth == 0 then Some(|t|) else Shift(|t|, Nest(rest, depth))
  {
    assert ([open] + (body + [close]) + rest)[1..] == body + ([close] + rest);
    assert ([close] + rest)[1..] == rest;
  }

  lemma BracketsCross(open: byte, body: Bytes, close: byte)
    requires IsOpen(open) && IsClose(close) && Over(body)
    ensures Over([open] + (body + [close])) && Crossable([open] + (body + [close]))
  {
    hide Nest;
    var t := [open] + (body + [close]);
    forall rest, depth: int | depth >= 0
      ensures Nest(t + rest, depth) == if depth == 0 then Some(|t|) else Shift(|t|, Nest(rest, depth))
    {
      BracketNest(open, body, close, rest, depth);
    }
  }

  // Scalars.

  predicate IsWordByte(c: byte) { Inert(c) && !IsDelimiter(c) }

  predicate IsWord(s: Bytes) { forall c :: c in s ==> IsWordByte(c) }

  lemma WordsJoin(a: Bytes, b: Bytes)
    requires IsWord(a) && IsWord(b)
    ensures IsWord(a + b)
  {
    hide IsWordByte;
  }

  lemma ExponentIsWord(e: Exponent)
    requires e.Valid()
    ensures IsWord(e.Text())
  {
    DigitsAreWord(e.digits);
    WordsJoin([e.mark], e.sign);
    WordsJoin([e.mark] + e.sign, e.digits);
  }

  lemma ScalarIsWord(scalar: Scalar)
    requires scalar.Valid()
    ensures scalar.Text() != [] && IsWord(scalar.Text())
  {
    match scalar
    case Literal(word) =>
    case Number(negative, whole, fraction, exponent) => NumberIsWord(scalar);
  }

  lemma NumberIsWord(n: Scalar)
    requires n.Number? && n.Valid()
    ensures n.Text() != [] && IsWord(n.Text())
  {
    hide IsWord, Exponent.Valid, Exponent.Text;
    var sign := if n.negative then [MINUS] else [];
    var fraction := if n.fraction.Some? then [DOT] + n.fraction.value else [];
    var exponent := if n.exponent.Some? then n.exponent.value.Text() else [];
    SignIsWord(n.negative);
    DigitsAreWord(n.whole);
    if n.fraction.Some? {
      DigitsAreWord(n.fraction.value);
      SignIsWord(true);
      WordsJoin([DOT], n.fraction.value);
    }
    if n.exponent.Some? {
      ExponentIsWord(n.exponent.value);
    }
    WordsJoin(sign, n.whole);
    WordsJoin(sign + n.whole, fraction);
    WordsJoin(sign + n.whole + fraction, exponent);
  }

  lemma SignIsWord(negative: bool)
    ensures IsWord(if negative then [MINUS] else []) && IsWord([DOT]) && IsWord([])
  {}

  lemma DigitsAreWord(s: Bytes)
    requires IsDigits(s)
    ensures IsWord(s)
  {}

  lemma {:induction false} WordLen(word: Bytes, rest: Bytes)
    requires IsWord(word) && Delimited(rest)
    ensures ScalarLen(word + rest) == Some(|word|)
  {
    if word == [] {
      assert word + rest == rest;
    } else {
      assert (word + rest)[1..] == word[1..] + rest && word[0] in word;
      WordLen(word[1..], rest);
    }
  }

  lemma WordCrosses(word: Bytes)
    requires word != [] && IsWord(word)
    ensures Over(word) && Crossable(word)
  {
    InertIsOver(word);
    forall rest | Delimited(rest) ensures ValueLen(word + rest) == Some(|word|) {
      WordLen(word, rest);
      assert word[0] in word;
    }
  }

  // Every value.

  /** Every value of the grammar is crossed to its exact end, both on its own
      and inside brackets. */
  lemma {:induction false} EveryValueIsCrossed(v: Json)
    requires WellFormed(v)
    ensures Crossable(Text(v)) && Over(Text(v))
    decreases v, 0
  {
    match v
    case Str(items) =>
      ContentIsQuotable(items);
      QuotedIsOver(Content(items));
    case Atom(scalar) =>
      ScalarIsWord(scalar);
      WordCrosses(scalar.Text());
    case Array(pad, elements) =>
      ElementsAreValid(elements);
      ArrayCrosses(pad, Pieces(elements));
    case Object(pad, fields) =>
      FieldsAreValid(fields);
      ObjectCrosses(pad, Written(fields));
  }

  lemma {:induction false} ElementsAreValid(elements: seq<Element>)
    requires forall e :: e in elements ==> Spaces(e.before) && WellFormed(e.value) && Spaces(e.tail)
    ensures forall p :: p in Pieces(elements) ==> p.Valid() && Over(p.value)
    decreases elements, 1
  {
    hide Over, Crossable, Spaces;
    if elements != [] {
      EveryValueIsCrossed(elements[0].value);
      ElementsAreValid(elements[1..]);
    }
  }

  lemma PieceIsOver(p: Piece)
    requires p.Valid() && Over(p.value)
    ensures Over(p.Text())
  {
    hide Over, Spaces, Crossable;
    SpacesAreOver(p.before);
    SpacesAreOver(p.tail);
    OverBoth(p.value, p.tail);
    OverBoth(p.before, p.value + p.tail);
  }

  lemma {:induction false} ClosedArrayIsOver(pieces: seq<Piece>) returns (body: Bytes)
    requires pieces != [] && forall p :: p in pieces ==> p.Valid() && Over(p.value)
    ensures ClosedArray(pieces) == body + [RBRACKET] && Over(body)
    decreases |pieces|
  {
    PieceIsOver(pieces[0]);
    body := pieces[0].Text();
    if |pieces| > 1 {
      var rest := ClosedArrayIsOver(pieces[1..]);
      InertIsOver([COMMA]);
      OverBoth([COMMA], rest);
      OverBoth(pieces[0].Text(), [COMMA] + rest);
      body := pieces[0].Text() + ([COMMA] + rest);
    }
  }

  /** An array of crossable values is crossable itself. */
  lemma ArrayCrosses(pad: Bytes, pieces: seq<Piece>)
    requires Spaces(pad) && forall p :: p in pieces ==> p.Valid() && Over(p.value)
    ensures Crossable(ArrayText(pad, pieces)) && Over(ArrayText(pad, pieces))
  {
    hide Over, Crossable, Spaces, ClosedArray, Piece.Valid;
    if pieces == [] {
      SpacesAreOver(pad);
      BracketsCross(LBRACKET, pad, RBRACKET);
    } else {
      var body := ClosedArrayIsOver(pieces);
      BracketsCross(LBRACKET, body, RBRACKET);
    }
  }

  predicate ValidFields(fields: seq<Field>) {
    forall f :: f in fields ==>
      Spaces(f.before) && ValidText(f.key) && Spaces(f.mid) && Spaces(f.after) && WellFormed(f.value) && Spaces(f.tail)
  }

  lemma {:induction false} FieldsAreValid(fields: seq<Field>)
    requires ValidFields(fields)
    ensures forall m :: m in Written(fields) ==> m.Valid() && Over(m.value)
    decreases fields, 1
  {
    if fields != [] {
      var f := fields[0];
      ContentIsQuotable(f.key);
      EveryValueIsCrossed(f.value);
      FieldsAreValid(fields[1..]);
    }
  }

  lemma MemberIsOver(m: Member)
    requires m.Valid() && Over(m.value)
    ensures Over(m.Text())
  {
    hide Over, Spaces, Quotable, Crossable;
    SpacesAreOver(m.before);
    QuotedIsOver(m.key);
    SpacesAreOver(m.mid);
    SpacesAreOver(m.after);
    SpacesAreOver(m.tail);
    InertIsOver([COLON]);
    OverBoth(m.value, m.tail);
    OverBoth(m.after, m.value + m.tail);
    OverBoth([COLON], m.after + (m.value + m.tail));
    OverBoth(m.mid, m.FromColon());
    OverBoth(m.Quoted(), m.mid + m.FromColon());
    OverBoth(m.before, m.Quoted() + (m.mid + m.FromColon()));
  }

  /** The members without the closing brace. */
  lemma {:induction false} ClosedIsOver(members: seq<Member>) returns (body: Bytes)
    requires members != [] && forall m :: m in members ==> m.Valid() && Over(m.value)
    ensures Closed(members) == body + [RBRACE] && Over(body)
    decreases |members|
  {
    MemberIsOver(members[0]);
    body := members[0].Text();
    if |members| > 1 {
      var rest := ClosedIsOver(members[1..]);
      InertIsOver([COMMA]);
      OverBoth([COMMA], rest);
      OverBoth(members[0].Text(), [COMMA] + rest);
      body := members[0].Text() + ([COMMA] + rest);
    }
  }

  /** An object of crossable members is crossable itself. */
  lemma ObjectCrosses(pad: Bytes, members: seq<Member>)
    requires Spaces(pad) && forall m :: m in members ==> m.Valid() && Over(m.value)
    ensures Crossable(ObjectText(pad, members)) && Over(ObjectText(pad, members))
  {
    if members == [] {
      SpacesAreOver(pad);
      BracketsCross(LBRACE, pad, RBRACE);
    } else {
      var body := ClosedIsOver(members);
      BracketsCross(LBRACE, body, RBRACE);
    }
  }

  /** Every well-formed object is walked exactly: each member once, in order,
      with its key and its value. */
  lemma EveryObjectIsWalked(raw: Bytes, i: nat, pad: Bytes, fields: seq<Field>, visit: Visit -> bool)
    requires i <= |raw| && Spaces(raw[..i]) && WellFormed(Object(pad, fields)) && At(raw, i, Text(Object(pad, fields)))
    ensures var seen := SeenFrom(Written(fields), i + 1);
      && Members(raw, visit) == Walk(UntilRefused(seen, visit), true)
      && |seen| == |fields|
      && forall k :: 0 <= k < |fields| ==>
           && seen[k].key == Content(fields[k].key) && seen[k].start <= seen[k].end <= |raw|
           && raw[seen[k].start..seen[k].end] == Text(fields[k].value)
  {
    hide At, Spaces, Closed, Member.Valid, Content, SeenFrom, Members, MembersFrom, UntilRefused, Written;
    FieldsAreValid(fields);
    MembersAreExact(raw, i, pad, Written(fields), visit);
    AtParts(raw, i, [LBRACE], Inner(pad, Written(fields)));
    SeenValues(raw, i + 1, Written(fields));
    AllWritten(fields);
  }

  lemma AllWritten(fields: seq<Field>)
    ensures forall k :: 0 <= k < |fields| ==>
      Written(fields)[k].key == Content(fields[k].key) && Written(fields)[k].value == Text(fields[k].value)
  {
    forall k | 0 <= k < |fields|
      ensures Written(fields)[k].key == Content(fields[k].key) && Written(fields)[k].value == Text(fields[k].value)
    {
      WrittenAt(fields, k);
    }
  }

  lemma {:induction false} WrittenAt(fields: seq<Field>, k: nat)
    requires k < |fields|
    ensures Written(fields)[k].key == Content(fields[k].key) && Written(fields)[k].value == Text(fields[k].value)
    decreases |fields|
  {
    if k > 0 {
      WrittenAt(fields[1..], k - 1);
    }
  }
}
