/** Rewriting a JSON object body by its top-level members: decoded into a map
    of raw values, changed by rules, and printed with sorted keys. */
module AdaptDoc {
  import opened Bytes
  import opened JsonScan
  import opened JsonWalk
  import opened JsonText
  import opened AdaptText
  import opened Runes

  type Doc = map<Bytes, Bytes>

  // Sorted keys.

  /** Byte-wise order of keys. */
  predicate Before(a: Bytes, b: Bytes) {
    b != [] && (a == [] || a[0] < b[0] || (a[0] == b[0] && Before(a[1..], b[1..])))
  }

  lemma {:induction false} BeforeIsTotal(a: Bytes, b: Bytes)
    ensures a == b || Before(a, b) || Before(b, a)
    ensures !(Before(a, b) && Before(b, a)) && !Before(a, a)
  {
    if a != [] && b != [] {
      BeforeIsTotal(a[1..], b[1..]);
      assert a == [a[0]] + a[1..] && b == [b[0]] + b[1..];
    }
    if a != [] {
      BeforeIsTotal(a[1..], a[1..]);
    }
  }

  lemma {:induction false} BeforeIsTransitive(a: Bytes, b: Bytes, c: Bytes)
    requires Before(a, b) && Before(b, c)
    ensures Before(a, c)
  {
    if a != [] && a[0] == b[0] && b[0] == c[0] {
      BeforeIsTransitive(a[1..], b[1..], c[1..]);
    }
  }

  predicate IsLeast(k: Bytes, keys: set<Bytes>) {
    k in keys && forall j :: j in keys ==> j == k || Before(k, j)
  }

  lemma {:induction false} LeastExists(keys: set<Bytes>)
    requires keys != {}
    ensures exists k :: IsLeast(k, keys)
    decreases |keys|
  {
    var k :| k in keys;
    var rest := keys - {k};
    if rest == {} {
      forall j | j in keys ensures j == k {
        assert j == k || j in rest;
      }
      assert IsLeast(k, keys);
    } else {
      LeastExists(rest);
      var l :| IsLeast(l, rest);
      BeforeIsTotal(k, l);
      if Before(k, l) {
        forall j | j in keys ensures j == k || Before(k, j) {
          if j != k && j != l {
            BeforeIsTransitive(k, l, j);
          }
        }
        assert IsLeast(k, keys);
      } else {
        assert IsLeast(l, keys);
      }
    }
  }

  function Least(keys: set<Bytes>): (k: Bytes)
    requires keys != {}
    ensures IsLeast(k, keys)
  {
    LeastExists(keys);
    assert forall a, b :: IsLeast(a, keys) && IsLeast(b, keys) ==> a == b by {
      forall a, b | IsLeast(a, keys) && IsLeast(b, keys) ensures a == b {
        BeforeIsTotal(a, b);
      }
    }
    var k :| k in keys && IsLeast(k, keys);
    k
  }

  function SortedKeys(keys: set<Bytes>): (sorted: seq<Bytes>)
    decreases |keys|
  {
    if keys == {} then [] else [Least(keys)] + SortedKeys(keys - {Least(keys)})
  }

  /** Every key once, in increasing order. */
  lemma {:induction false} KeysAreSorted(keys: set<Bytes>)
    ensures forall k :: k in SortedKeys(keys) <==> k in keys
    ensures forall i, j :: 0 <= i < j < |SortedKeys(keys)| ==> Before(SortedKeys(keys)[i], SortedKeys(keys)[j])
    decreases |keys|
  {
    if keys != {} {
      KeysAreSorted(keys - {Least(keys)});
    }
  }

  lemma SortedKeysDiffer(keys: set<Bytes>)
    ensures forall i, j :: 0 <= i < j < |SortedKeys(keys)| ==> SortedKeys(keys)[i] != SortedKeys(keys)[j]
  {
    KeysAreSorted(keys);
    forall i, j | 0 <= i < j < |SortedKeys(keys)| ensures SortedKeys(keys)[i] != SortedKeys(keys)[j] {
      BeforeIsTotal(SortedKeys(keys)[i], SortedKeys(keys)[i]);
    }
  }

  // Printing.

  function MemberOf(key: Bytes, value: Bytes): Member { Member([], EscapedKey(key), [], [], value, []) }

  function MembersOf(doc: Doc, keys: seq<Bytes>): (members: seq<Member>)
    requires forall k :: k in keys ==> k in doc
    ensures |members| == |keys|
  {
    seq(|keys|, i requires 0 <= i < |keys| => MemberOf(keys[i], doc[keys[i]]))
  }

  function Encoded(doc: Doc): Bytes {
    KeysAreSorted(doc.Keys);
    ObjectText([], MembersOf(doc, SortedKeys(doc.Keys)))
  }

  /** What is still to be written before the i-th member. */
  function StillToWrite(members: seq<Member>, i: nat): Bytes
    requires i <= |members|
  {
    if i == |members| then [RBRACE] else if i == 0 then Closed(members) else [COMMA] + Closed(members[i..])
  }

  lemma WriteOne(members: seq<Member>, i: nat)
    requires i < |members|
    ensures StillToWrite(members, i) == (if i > 0 then [COMMA] else []) + members[i].Text() + StillToWrite(members, i + 1)
  {
    hide Member.Text;
    assert members[0..] == members && members[i..][0] == members[i] && members[i..][1..] == members[i + 1..];
    assert Closed(members[i..]) == members[i].Text() + StillToWrite(members, i + 1);
  }

  lemma MemberText(key: Bytes, value: Bytes)
    ensures MemberOf(key, value).Text() == [QUOTE] + EscapedKey(key) + [QUOTE] + [COLON] + value
  {
    var m := MemberOf(key, value);
    assert value + [] == value && [] + value == value;
    assert [] + (m.Quoted() + ([] + m.FromColon())) == m.Quoted() + m.FromColon();
  }

  method EncodeObject(doc: Doc) returns (out: Bytes)
    ensures out == Encoded(doc)
  {
    hide Closed, Member.Text, MemberOf, EscapedKey, SortedKeys;
    KeysAreSorted(doc.Keys);
    var keys := SortedKeys(doc.Keys);
    ghost var members := MembersOf(doc, keys);
    out := [LBRACE];
    for i := 0 to |keys|
      invariant out + StillToWrite(members, i) == Encoded(doc)
    {
      ghost var before := out;
      if i > 0 {
        out := out + [COMMA];
      }
      out := AppendString(out, keys[i]);
      out := out + [COLON];
      out := out + doc[keys[i]];
      WriteOne(members, i);
      MemberText(keys[i], doc[keys[i]]);
      assert out == before + ((if i > 0 then [COMMA] else []) + members[i].Text());
    }
    out := out + [RBRACE];
  }

  // Reading.

  datatype Entry = Entry(key: Option<Bytes>, value: Bytes)

  function Slice(raw: Bytes, start: nat, end: nat): Bytes {
    if start <= end <= |raw| then raw[start..end] else []
  }

  function EntryAt(raw: Bytes, v: Visit): Entry { Entry(Unquote(v.key), Slice(raw, v.start, v.end)) }

  /** A later member replaces an earlier one with the same key. */
  function Gathered(raw: Bytes, visits: seq<Visit>): Doc {
    if visits == [] then map[]
    else
      var e := EntryAt(raw, visits[|visits| - 1]);
      var earlier := Gathered(raw, visits[..|visits| - 1]);
      if e.key.Some? then earlier[e.key.value := e.value] else earlier
  }

  function Readable(v: Visit): bool { Unquote(v.key).Some? }

  /** Every unquoted key with its raw value; None when one cannot be read. */
  function EachMember(obj: Bytes): Option<Doc> {
    var walk := Members(obj, Readable);
    if walk.ok && (forall v | v in walk.visits :: Readable(v)) then Some(Gathered(obj, walk.visits)) else None
  }

  /** The body is one object and nothing but space around it. */
  predicate IsOneObject(body: Bytes) {
    var start := SpaceAt(body, 0);
    var end := ValueAt(body, start);
    end.Some? && body[start] == LBRACE && SpaceAt(body, end.value) == |body|
  }

  function DecodedObject(body: Bytes): Option<Doc> {
    if IsOneObject(body) then EachMember(body) else None
  }

  method ReadMembers(obj: Bytes) returns (doc: Option<Doc>)
    ensures doc == EachMember(obj)
  {
    hide Members, Unquote;
    var walk := VisitMembers(obj, Readable);
    if !walk.ok {
      return None;
    }
    var read: Doc := map[];
    for i := 0 to |walk.visits|
      invariant read == Gathered(obj, walk.visits[..i]) && forall v :: v in walk.visits[..i] ==> Readable(v)
    {
      var v := walk.visits[i];
      var key := UnquoteKey(v.key);
      assert walk.visits[..i + 1][..i] == walk.visits[..i] && v in walk.visits;
      if key.None? {
        return None;
      }
      read := read[key.value := Slice(obj, v.start, v.end)];
    }
    assert walk.visits[..|walk.visits|] == walk.visits;
    return Some(read);
  }

  method DecodeObject(body: Bytes) returns (doc: Option<Doc>)
    ensures doc == DecodedObject(body)
  {
    hide SpaceAt, ValueAt, EachMember;
    var start := SkipSpace(body, 0);
    var end := SkipValue(body, start);
    if end.None? || body[start] != LBRACE {
      return None;
    }
    var rest := SkipSpace(body, end.value);
    if rest != |body| {
      return None;
    }
    doc := ReadMembers(body);
  }

  /** What reading members gives: for every key its last value. */
  function LastValues(members: seq<Member>): Doc {
    if members == [] then map[]
    else
      var m := members[|members| - 1];
      var earlier := LastValues(members[..|members| - 1]);
      if Unquote(m.key).Some? then earlier[Unquote(m.key).value := m.value] else earlier
  }

  lemma {:induction false} NoneRefused(visits: seq<Visit>, visit: Visit -> bool)
    requires forall v :: v in visits ==> visit(v)
    ensures UntilRefused(visits, visit) == visits
  {
    if visits != [] {
      NoneRefused(visits[1..], visit);
    }
  }

  lemma {:induction false} GatheredIsLast(raw: Bytes, visits: seq<Visit>, members: seq<Member>)
    requires |visits| == |members|
    requires forall k :: 0 <= k < |members| ==>
      visits[k].key == members[k].key && Slice(raw, visits[k].start, visits[k].end) == members[k].value
    ensures Gathered(raw, visits) == LastValues(members)
    decreases |members|
  {
    hide Unquote, Slice;
    if members != [] {
      GatheredIsLast(raw, visits[..|visits| - 1], members[..|members| - 1]);
    }
  }

  predicate ReadableKeys(members: seq<Member>) { forall m :: m in members ==> Unquote(m.key).Some? }

  lemma EachMemberIsExact(raw: Bytes, i: nat, pad: Bytes, members: seq<Member>)
    requires i <= |raw| && At(raw, i, ObjectText(pad, members)) && Spaces(raw[..i])
    requires Spaces(pad) && (forall m :: m in members ==> m.Valid()) && ReadableKeys(members)
    ensures EachMember(raw) == Some(LastValues(members))
  {
    hide At, Spaces, Member.Valid, Members, UntilRefused, SeenFrom, Unquote, LastValues, Gathered, Closed;
    var seen := SeenFrom(members, i + 1);
    MembersAreExact(raw, i, pad, members, Readable);
    AtParts(raw, i, [LBRACE], Inner(pad, members));
    SeenValues(raw, i + 1, members);
    forall v | v in seen ensures Readable(v) {
      var k :| 0 <= k < |seen| && v == seen[k];
      assert members[k] in members;
    }
    NoneRefused(seen, Readable);
    GatheredIsLast(raw, seen, members);
  }

  /** A value that can be written into an object anywhere and read back. */
  ghost predicate Portable(value: Bytes) { Crossable(value) && Over(value) }

  lemma ObjectIsOne(lead: Bytes, pad: Bytes, members: seq<Member>, trail: Bytes)
    requires Spaces(lead) && Spaces(pad) && Spaces(trail) && forall m :: m in members ==> m.Valid() && Portable(m.value)
    ensures IsOneObject(lead + ObjectText(pad, members) + trail)
  {
    hide Over, SpaceAt, ValueAt, Member.Valid, Inner, Crossable, Spaces;
    var text, raw := ObjectText(pad, members), lead + ObjectText(pad, members) + trail;
    ObjectAlone(lead, text, trail);
    ObjectStands(raw, |lead|, pad, members);
    ObjectCrosses(pad, members);
    ObjectEnds(raw, |lead|, text, trail);
  }

  lemma ObjectAlone(lead: Bytes, text: Bytes, trail: Bytes)
    ensures var raw := lead + text + trail; At(raw, |lead|, text) && raw[..|lead|] == lead && raw[|lead| + |text|..] == trail
  {}

  /** A bracketed value is crossed even when nothing follows it. */
  lemma ObjectEnds(raw: Bytes, i: nat, text: Bytes, trail: Bytes)
    requires At(raw, i, text) && raw[i + |text|..] == trail && Spaces(trail)
    requires Crossable(text) && text != [] && text[0] == LBRACE
    ensures ValueAt(raw, i) == Some(i + |text|) && SpaceAt(raw, i + |text|) == |raw|
  {
    hide Crossable, Spaces, ValueAt, ValueLen, SpaceAt;
    WholeSpace(raw, i + |text|);
    assert raw[i..] == text + trail;
    BracketThen(text, trail);
    ValueAtIsLen(raw, i);
  }

  lemma BracketThen(text: Bytes, trail: Bytes)
    requires Crossable(text) && text != [] && text[0] == LBRACE
    ensures ValueLen(text + trail) == Some(|text|)
  {
    hide Crossable, Nest, StringLen, ScalarLen;
    BracketAlone(text);
    assert text[..|text|] == text;
    NestIsLocal(text, 0, trail);
    assert (text + trail)[0] == LBRACE;
  }

  lemma BracketAlone(text: Bytes)
    requires Crossable(text) && text != [] && text[0] == LBRACE
    ensures Nest(text, 0) == Some(|text|)
  {
    var s := text + [COMMA];
    assert Delimited([COMMA]) && s[0] == LBRACE;
    assert Nest(s, 0) == Some(|text|);
    NestIsLocal(s, 0, []);
    assert s[..|text|] + [] == text;
  }

  lemma WholeSpace(raw: Bytes, i: nat)
    requires i <= |raw| && Spaces(raw[i..])
    ensures SpaceAt(raw, i) == |raw|
  {
    hide SpaceAt, Spaces;
    RestAt(raw, i);
    SpacesAt(raw, i, raw[i..]);
  }

  lemma RestAt(raw: Bytes, i: nat)
    requires i <= |raw|
    ensures At(raw, i, raw[i..])
  {}

  /** Any object of crossable values decodes to the last value of every key. */
  lemma MembersDecode(lead: Bytes, pad: Bytes, members: seq<Member>, trail: Bytes)
    requires Spaces(lead) && Spaces(pad) && Spaces(trail)
    requires (forall m :: m in members ==> m.Valid() && Portable(m.value)) && ReadableKeys(members)
    ensures DecodedObject(lead + ObjectText(pad, members) + trail) == Some(LastValues(members))
  {
    hide SpaceAt, ValueAt, At, ObjectText, Member.Valid, Over, Crossable, Spaces, EachMember, IsOneObject, ReadableKeys;
    ObjectIsOne(lead, pad, members, trail);
    ObjectAlone(lead, ObjectText(pad, members), trail);
    EachMemberIsExact(lead + ObjectText(pad, members) + trail, |lead|, pad, members);
  }

  // Any object of the grammar.

  /** Every key as it is read, with the exact bytes of the last value given
      for it. */
  function ReadFields(fields: seq<Field>): Doc
    requires ValidFields(fields)
  {
    if fields == [] then map[]
    else
      var f := fields[|fields| - 1];
      assert f in fields;
      ReadFields(fields[..|fields| - 1])[KeyText(f.key) := Text(f.value)]
  }

  function MemberFor(f: Field): Member { Member(f.before, Content(f.key), f.mid, f.after, Text(f.value), f.tail) }

  lemma {:induction false} WrittenIs(fields: seq<Field>, k: nat)
    requires k < |fields|
    ensures Written(fields)[k] == MemberFor(fields[k])
    decreases |fields|
  {
    hide MemberFor;
    if k > 0 {
      WrittenIs(fields[1..], k - 1);
    } else {
      FirstWritten(fields);
    }
  }

  lemma FirstWritten(fields: seq<Field>)
    requires fields != []
    ensures Written(fields)[0] == MemberFor(fields[0])
  {}

  lemma WrittenInit(fields: seq<Field>)
    requires fields != []
    ensures Written(fields)[..|fields| - 1] == Written(fields[..|fields| - 1])
    ensures Written(fields)[|fields| - 1] == MemberFor(fields[|fields| - 1])
  {
    hide MemberFor, Written;
    var init := fields[..|fields| - 1];
    WrittenLength(fields);
    WrittenLength(init);
    forall k | 0 <= k < |init| ensures Written(fields)[k] == Written(init)[k] {
      WrittenIs(fields, k);
      WrittenIs(init, k);
    }
    WrittenIs(fields, |fields| - 1);
  }

  lemma WrittenLength(fields: seq<Field>)
    ensures |Written(fields)| == |fields|
  {}

  lemma {:induction false} FieldsAreRead(fields: seq<Field>)
    requires ValidFields(fields)
    ensures LastValues(Written(fields)) == ReadFields(fields) && ReadableKeys(Written(fields))
  {
    hide Written, Content, KeyText, Unquote, ValidText, WellFormed;
    WrittenLength(fields);
    if fields != [] {
      var init, f := fields[..|fields| - 1], fields[|fields| - 1];
      assert f in fields;
      WrittenInit(fields);
      KeyIsRead(f.key);
      FieldsAreRead(init);
      var members := Written(fields);
      assert members == members[..|fields| - 1] + [members[|fields| - 1]];
    }
  }

  lemma FieldsArePortable(fields: seq<Field>)
    requires ValidFields(fields)
    ensures forall m :: m in Written(fields) ==> m.Valid() && Portable(m.value)
  {
    hide Over, Crossable, Member.Valid;
    FieldsAreValid(fields);
    MembersCross(Written(fields));
  }

  lemma MembersCross(members: seq<Member>)
    requires forall m :: m in members ==> m.Valid() && Over(m.value)
    ensures forall m :: m in members ==> Portable(m.value)
  {
    hide Over, Crossable, Quotable, Spaces;
  }

  lemma {:induction false} ReadKeysReturn(fields: seq<Field>)
    requires ValidFields(fields)
    ensures forall k :: k in ReadFields(fields) ==> Returnable(k)
  {
    hide Returnable, KeyText, Text, ValidText, WellFormed;
    if fields != [] {
      assert fields[|fields| - 1] in fields;
      KeyIsRead(fields[|fields| - 1].key);
      ReadKeysReturn(fields[..|fields| - 1]);
    }
  }

  /** Any object of the grammar, with any space around it, decodes to the last
      value of every key. */
  lemma DecodedIsLast(lead: Bytes, pad: Bytes, fields: seq<Field>, trail: Bytes)
    requires Spaces(lead) && Spaces(trail) && WellFormed(Object(pad, fields))
    ensures ValidFields(fields)
    ensures DecodedObject(lead + Text(Object(pad, fields)) + trail) == Some(ReadFields(fields))
  {
    hide DecodedObject, LastValues, ReadFields, ReadableKeys, Member.Valid, Portable, ObjectText;
    FieldsAreRead(fields);
    FieldsArePortable(fields);
    MembersDecode(lead, pad, Written(fields), trail);
  }

  // Round trip.

  lemma WrittenMember(key: Bytes, value: Bytes)
    requires Portable(value)
    ensures MemberOf(key, value).Valid() && Unquote(MemberOf(key, value).key) == Unquote(EscapedKey(key)) && Unquote(EscapedKey(key)).Some?
  {
    hide Quotable, Crossable, Over;
    KeyRoundTrip(key);
  }

  ghost predicate PortableValues(doc: Doc) { forall k :: k in doc ==> Portable(doc[k]) }

  ghost predicate ReturnableKeys(doc: Doc) { forall k :: k in doc ==> Returnable(k) }

  /** Keys that read back as themselves are read with their values. */
  lemma {:induction false} LastOfDistinct(doc: Doc, keys: seq<Bytes>)
    requires forall k :: k in keys ==> k in doc && Returnable(k)
    requires PortableValues(doc) && forall i, j :: 0 <= i < j < |keys| ==> keys[i] != keys[j]
    ensures LastValues(MembersOf(doc, keys)).Keys == (set k | k in keys)
    ensures forall k :: k in keys ==> k in LastValues(MembersOf(doc, keys)) && LastValues(MembersOf(doc, keys))[k] == doc[k]
    decreases |keys|
  {
    hide Portable, MemberOf, Unquote, Returnable;
    if keys != [] {
      var last, earlier := keys[|keys| - 1], keys[..|keys| - 1];
      LastOfDistinct(doc, earlier);
      WrittenMember(last, doc[last]);
      KeyRoundTrip(last);
      MemberValue(last, doc[last]);
      assert MembersOf(doc, keys)[..|keys| - 1] == MembersOf(doc, earlier);
    }
  }

  /** A key that does not read back as itself is read from no other either. */
  lemma {:induction false} LostKey(doc: Doc, keys: seq<Bytes>, lost: Bytes)
    requires (forall k :: k in keys ==> k in doc) && PortableValues(doc) && !Returnable(lost)
    ensures lost !in LastValues(MembersOf(doc, keys))
    decreases |keys|
  {
    hide Portable, MemberOf, Unquote, Returnable;
    if keys != [] {
      var last, earlier := keys[|keys| - 1], keys[..|keys| - 1];
      LostKey(doc, earlier, lost);
      WrittenMember(last, doc[last]);
      ReadsReturnable(last);
      assert MembersOf(doc, keys)[..|keys| - 1] == MembersOf(doc, earlier);
    }
  }

  lemma ReadsReturnable(key: Bytes)
    ensures Unquote(EscapedKey(key)).Some? && Returnable(Unquote(EscapedKey(key)).value)
  {
    hide Unquote, NeedsEscape;
    KeyIsUnquoted(key);
    RepairedIsValid(key);
  }

  lemma MemberValue(key: Bytes, value: Bytes)
    ensures MemberOf(key, value).value == value
  {}

  lemma EncodedMembers(doc: Doc, keys: seq<Bytes>)
    requires (forall k :: k in keys ==> k in doc) && PortableValues(doc)
    ensures forall m :: m in MembersOf(doc, keys) ==> m.Valid() && Portable(m.value)
    ensures ReadableKeys(MembersOf(doc, keys))
  {
    hide Portable, MemberOf, Unquote, Member.Valid;
    forall m | m in MembersOf(doc, keys) ensures m.Valid() && Portable(m.value) && Unquote(m.key).Some? {
      var i :| 0 <= i < |keys| && m == MembersOf(doc, keys)[i];
      WrittenMember(keys[i], doc[keys[i]]);
      MemberValue(keys[i], doc[keys[i]]);
    }
  }

  /** What is printed is read back, key by key. */
  lemma EncodedIsRead(doc: Doc)
    requires PortableValues(doc)
    ensures (forall k :: k in SortedKeys(doc.Keys) ==> k in doc)
    ensures DecodedObject(Encoded(doc)) == Some(LastValues(MembersOf(doc, SortedKeys(doc.Keys))))
  {
    hide PortableValues, Portable, Member.Valid, LastValues, DecodedObject, ReadableKeys, SortedKeys, Spaces, ObjectText;
    KeysAreSorted(doc.Keys);
    var members := MembersOf(doc, SortedKeys(doc.Keys));
    EncodedMembers(doc, SortedKeys(doc.Keys));
    NoSpace();
    MembersDecode([], [], members, []);
    assert [] + ObjectText([], members) + [] == ObjectText([], members);
  }

  lemma AllKeysRead(doc: Doc, keys: seq<Bytes>)
    requires PortableValues(doc) && ReturnableKeys(doc) && forall k :: k in keys <==> k in doc
    requires forall i, j :: 0 <= i < j < |keys| ==> keys[i] != keys[j]
    ensures LastValues(MembersOf(doc, keys)) == doc
  {
    hide PortableValues, Returnable, LastValues, MembersOf;
    LastOfDistinct(doc, keys);
    assert LastValues(MembersOf(doc, keys)).Keys == doc.Keys;
  }

  /** Reading undoes printing exactly when every key is UTF-8 or needs no
      escape. */
  lemma RoundTrip(doc: Doc)
    requires PortableValues(doc)
    ensures DecodedObject(Encoded(doc)) == Some(doc) <==> ReturnableKeys(doc)
  {
    hide PortableValues, LastValues, DecodedObject, Encoded, SortedKeys, Returnable, MembersOf;
    var keys := SortedKeys(doc.Keys);
    KeysAreSorted(doc.Keys);
    EncodedIsRead(doc);
    if ReturnableKeys(doc) {
      SortedKeysDiffer(doc.Keys);
      AllKeysRead(doc, keys);
    } else {
      var lost :| lost in doc && !Returnable(lost);
      LostKey(doc, keys, lost);
    }
  }

  lemma NoSpace()
    ensures Spaces([])
  {}
}
