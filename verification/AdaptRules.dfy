/** Rewrite rules on a request body: set or delete a field, or move the URLs of
    images[] to image. */
module AdaptRules {
  import opened Bytes
  import opened JsonScan
  import opened JsonWalk
  import opened JsonText
  import opened AdaptText
  import opened AdaptDoc
  import opened Runes

  const IMAGE: Bytes := [105, 109, 97, 103, 101]
  const IMAGES: Bytes := [105, 109, 97, 103, 101, 115]
  const IMAGE_URL: Bytes := [105, 109, 97, 103, 101, 95, 117, 114, 108]
  const URL: Bytes := [117, 114, 108]

  datatype Action = EditsImageField | SetField(field: Bytes, value: Bytes, overwrite: bool) | DeleteField(field: Bytes)

  datatype Change = Change(doc: Doc, changed: bool)

  /** What one image element yields; Unreadable leaves the body as it is. */
  datatype ImageUrl = Unreadable | Readable(url: Option<Bytes>)

  predicate IsString(raw: Bytes) { raw != [] && raw[0] == QUOTE }

  predicate IsObject(raw: Bytes) { raw != [] && raw[0] == LBRACE }

  function NonEmptyString(raw: Bytes): Option<Bytes> {
    if |raw| > 2 && raw[0] == QUOTE then Some(raw) else None
  }

  function Lookup(doc: Doc, key: Bytes): Bytes { if key in doc then doc[key] else [] }

  /** The first choice, if it is a non-empty string, else the second. */
  function Preferred(primary: Bytes, fallback: Bytes): Option<Bytes> {
    if NonEmptyString(primary).Some? then Some(primary) else NonEmptyString(fallback)
  }

  function UrlOf(element: Bytes): ImageUrl {
    if IsString(element) then Readable(NonEmptyString(element))
    else if !IsObject(element) then Readable(None)
    else
      var members := EachMember(element);
      if members.None? then Unreadable
      else
        var primary, fallback := Lookup(members.value, IMAGE_URL), Lookup(members.value, URL);
        if !IsObject(primary) then Readable(Preferred(primary, fallback))
        else
          var nested := EachMember(primary);
          if nested.None? then Unreadable else Readable(Preferred(Lookup(nested.value, URL), fallback))
  }

  method ImageUrlOf(element: Bytes) returns (r: ImageUrl)
    ensures r == UrlOf(element)
  {
    hide EachMember;
    if IsString(element) {
      return Readable(NonEmptyString(element));
    }
    if !IsObject(element) {
      return Readable(None);
    }
    var members := ReadMembers(element);
    if members.None? {
      return Unreadable;
    }
    var primary := Lookup(members.value, IMAGE_URL);
    if IsObject(primary) {
      var nested := ReadMembers(primary);
      if nested.None? {
        return Unreadable;
      }
      primary := Lookup(nested.value, URL);
    }
    var found := NonEmptyString(primary);
    if found.Some? {
      return Readable(found);
    }
    return Readable(NonEmptyString(Lookup(members.value, URL)));
  }

  function Urls(images: Bytes, visits: seq<Visit>): seq<Bytes> {
    if visits == [] then []
    else
      var last := visits[|visits| - 1];
      var earlier := Urls(images, visits[..|visits| - 1]);
      match UrlOf(Slice(images, last.start, last.end))
      case Readable(Some(url)) => earlier + [url]
      case _ => earlier
  }

  function Legible(images: Bytes): Visit -> bool { (v: Visit) => UrlOf(Slice(images, v.start, v.end)).Readable? }

  /** The URLs of all elements, in order; None when one cannot be read. */
  function ImageUrls(images: Bytes): Option<seq<Bytes>> {
    var walk := Elements(images, Legible(images));
    if walk.ok && (forall v | v in walk.visits :: Legible(images)(v)) then Some(Urls(images, walk.visits)) else None
  }

  function UrlPieces(urls: seq<Bytes>): (pieces: seq<Piece>)
    ensures |pieces| == |urls|
  {
    if urls == [] then [] else [Piece([], urls[0], [])] + UrlPieces(urls[1..])
  }

  /** One URL as it is, several as an array. */
  function ImageValue(urls: seq<Bytes>): Bytes
    requires urls != []
  {
    if |urls| == 1 then urls[0] else ArrayText([], UrlPieces(urls))
  }

  function Moved(doc: Doc): Change {
    if IMAGE in doc then Change(doc, false)
    else
      var images := Lookup(doc, IMAGES);
      if images == [] || images[0] != LBRACKET then Change(doc, false)
      else
        var urls := ImageUrls(images);
        if urls.None? || urls.value == [] then Change(doc, false)
        else Change(doc[IMAGE := ImageValue(urls.value)] - {IMAGES}, true)
  }

  function Acted(act: Action, doc: Doc): Change {
    match act
    case EditsImageField => Moved(doc)
    case SetField(field, value, overwrite) =>
      if field in doc && (!overwrite || doc[field] == value) then Change(doc, false)
      else Change(doc[field := value], true)
    case DeleteField(field) => if field in doc then Change(doc - {field}, true) else Change(doc, false)
  }

  /** What is still to be written of a joined array. */
  function StillToJoin(urls: seq<Bytes>, i: nat): Bytes
    requires i <= |urls|
  {
    if i == |urls| then [RBRACKET]
    else if i == 0 then ClosedArray(UrlPieces(urls))
    else [COMMA] + ClosedArray(UrlPieces(urls[i..]))
  }

  lemma JoinOne(urls: seq<Bytes>, i: nat)
    requires i < |urls|
    ensures StillToJoin(urls, i) == (if i > 0 then [COMMA] else []) + urls[i] + StillToJoin(urls, i + 1)
  {
    assert urls[0..] == urls && urls[i..][0] == urls[i] && urls[i..][1..] == urls[i + 1..];
    var pieces := UrlPieces(urls[i..]);
    assert pieces[1..] == UrlPieces(urls[i + 1..]);
    assert [] + (urls[i] + []) == urls[i];
    assert ClosedArray(pieces) == urls[i] + StillToJoin(urls, i + 1);
  }

  lemma JoinEnds(urls: seq<Bytes>)
    requires urls != []
    ensures [LBRACKET] + StillToJoin(urls, 0) == ArrayText([], UrlPieces(urls)) && StillToJoin(urls, |urls|) == [RBRACKET]
  {
    hide ClosedArray;
  }

  method JoinArray(urls: seq<Bytes>) returns (out: Bytes)
    requires urls != []
    ensures out == ArrayText([], UrlPieces(urls))
  {
    hide ClosedArray, UrlPieces, StillToJoin;
    JoinEnds(urls);
    out := [LBRACKET];
    for i := 0 to |urls|
      invariant out + StillToJoin(urls, i) == ArrayText([], UrlPieces(urls))
    {
      ghost var before := out;
      if i > 0 {
        out := out + [COMMA];
      }
      out := out + urls[i];
      JoinOne(urls, i);
      assert out == before + ((if i > 0 then [COMMA] else []) + urls[i]);
    }
    out := out + [RBRACKET];
  }

  /** The decoded body a rule rewrites in place. */
  class Document {
    var members: Doc

    constructor (doc: Doc)
      ensures members == doc
    {
      members := doc;
    }

    method MoveEditImages() returns (changed: bool)
      modifies this
      ensures Change(members, changed) == Moved(old(members))
    {
      hide UrlOf, Elements;
      if IMAGE in members {
        return false;
      }
      var images := Lookup(members, IMAGES);
      if images == [] || images[0] != LBRACKET {
        return false;
      }
      var walk := VisitElements(images, Legible(images));
      var urls: seq<Bytes> := [];
      for i := 0 to |walk.visits|
        invariant urls == Urls(images, walk.visits[..i]) && members == old(members)
        invariant forall v :: v in walk.visits[..i] ==> Legible(images)(v)
      {
        var v := walk.visits[i];
        var url := ImageUrlOf(Slice(images, v.start, v.end));
        assert walk.visits[..i + 1][..i] == walk.visits[..i] && v in walk.visits;
        if url.Unreadable? {
          assert !Legible(images)(v);
          return false;
        }
        if url.url.Some? {
          urls := urls + [url.url.value];
        }
      }
      assert walk.visits[..|walk.visits|] == walk.visits;
      if !walk.ok || urls == [] {
        return false;
      }
      var image := urls[0];
      if |urls| > 1 {
        image := JoinArray(urls);
      }
      members := members[IMAGE := image];
      members := members - {IMAGES};
      return true;
    }

    method ApplyAction(act: Action) returns (changed: bool)
      modifies this
      ensures Change(members, changed) == Acted(act, old(members))
    {
      match act
      case EditsImageField =>
        changed := MoveEditImages();
      case SetField(field, value, overwrite) =>
        if field in members && (!overwrite || members[field] == value) {
          return false;
        }
        members := members[field := value];
        return true;
      case DeleteField(field) =>
        if field !in members {
          return false;
        }
        members := members - {field};
        return true;
    }
  }

  datatype BookRule = BookRule(id: string, paths: seq<string>, act: Action)

  datatype Outcome = Outcome(out: Option<Bytes>, applied: seq<string>)

  datatype Rewrite = Rewrite(doc: Doc, applied: seq<string>)

  /** The rules that name the path run in order on the decoded body. */
  function RunRules(rules: seq<BookRule>, path: string, doc: Doc): Rewrite {
    if rules == [] then Rewrite(doc, [])
    else
      var earlier := RunRules(rules[..|rules| - 1], path, doc);
      var rule := rules[|rules| - 1];
      if path !in rule.paths then earlier
      else
        var r := Acted(rule.act, earlier.doc);
        Rewrite(r.doc, if r.changed then earlier.applied + [rule.id] else earlier.applied)
  }

  /** Rules run one after another, each on what the ones before made of the
      body, and are told in that order. */
  lemma {:induction false} RulesRunInOrder(first: seq<BookRule>, later: seq<BookRule>, path: string, doc: Doc)
    ensures var x := RunRules(first, path, doc);
      var y := RunRules(later, path, x.doc);
      RunRules(first + later, path, doc) == Rewrite(y.doc, x.applied + y.applied)
    decreases |later|
  {
    hide Acted;
    var x := RunRules(first, path, doc);
    if later == [] {
      assert first + later == first && x.applied + [] == x.applied;
    } else {
      var n := |later| - 1;
      RulesRunInOrder(first, later[..n], path, doc);
      assert (first + later)[..|first + later| - 1] == first + later[..n];
      var y := RunRules(later[..n], path, x.doc);
      assert x.applied + (y.applied + [later[n].id]) == x.applied + y.applied + [later[n].id];
    }
  }

  /** A rule runs exactly on the paths it names, and is told exactly when it
      changed the body. */
  lemma OneRuleRuns(rule: BookRule, path: string, doc: Doc)
    ensures var r := RunRules([rule], path, doc);
      && r.doc == (if path in rule.paths then Acted(rule.act, doc).doc else doc)
      && r.applied == (if path in rule.paths && Acted(rule.act, doc).changed then [rule.id] else [])
  {
    hide Acted;
    assert [rule][..0] == [];
  }

  /** The enabled rules by channel; immutable. */
  class Book {
    const channels: map<string, seq<BookRule>>

    constructor (channels: map<string, seq<BookRule>>)
      ensures this.channels == channels
    {
      this.channels := channels;
    }

    function Rules(channel: string): seq<BookRule> { if channel in channels then channels[channel] else [] }

    method Match(channel: string, path: string) returns (found: bool)
      ensures found <==> exists rule :: rule in Rules(channel) && path in rule.paths
    {
      var rules := Rules(channel);
      for i := 0 to |rules|
        invariant forall k :: 0 <= k < i ==> path !in rules[k].paths
      {
        if path in rules[i].paths {
          return true;
        }
      }
      return false;
    }

    function Applied(channel: string, path: string, body: Bytes): Outcome {
      var doc := DecodedObject(body);
      if doc.None? then Outcome(None, [])
      else
        var r := RunRules(Rules(channel), path, doc.value);
        Outcome(if r.applied == [] then None else Some(Encoded(r.doc)), r.applied)
    }

    method Apply(channel: string, path: string, body: Bytes) returns (r: Outcome)
      ensures r == Applied(channel, path, body)
    {
      hide DecodedObject, Encoded, Acted;
      var found := Match(channel, path);
      var rules := Rules(channel);
      if !found {
        if DecodedObject(body).Some? {
          NoRuleNoChange(rules, path, DecodedObject(body).value);
        }
        return Outcome(None, []);
      }
      var decoded := DecodeObject(body);
      if decoded.None? {
        return Outcome(None, []);
      }
      var doc := new Document(decoded.value);
      var ids: seq<string> := [];
      for i := 0 to |rules|
        invariant Rewrite(doc.members, ids) == RunRules(rules[..i], path, decoded.value)
      {
        assert rules[..i + 1][..i] == rules[..i];
        if path in rules[i].paths {
          var changed := doc.ApplyAction(rules[i].act);
          if changed {
            ids := ids + [rules[i].id];
          }
        }
      }
      assert rules[..|rules|] == rules;
      if ids == [] {
        return Outcome(None, []);
      }
      var out := EncodeObject(doc.members);
      return Outcome(Some(out), ids);
    }
  }

  lemma {:induction false} NoRuleNoChange(rules: seq<BookRule>, path: string, doc: Doc)
    requires forall rule :: rule in rules ==> path !in rule.paths
    ensures RunRules(rules, path, doc) == Rewrite(doc, [])
  {
    hide Acted;
    if rules != [] {
      NoRuleNoChange(rules[..|rules| - 1], path, doc);
    }
  }

  // What a rule touches.

  function Touches(act: Action): set<Bytes> {
    match act
    case EditsImageField => {IMAGE, IMAGES}
    case SetField(field, _, _) => {field}
    case DeleteField(field) => {field}
  }

  predicate SameAt(a: Doc, b: Doc, key: Bytes) {
    (key in a <==> key in b) && (key in a ==> a[key] == b[key])
  }

  /** A rule changes nothing but what it names, and reports a change exactly
      when there is one. */
  lemma ApplyTouchesItsFields(act: Action, doc: Doc)
    ensures forall key :: key !in Touches(act) ==> SameAt(doc, Acted(act, doc).doc, key)
    ensures Acted(act, doc).changed <==> Acted(act, doc).doc != doc
    ensures act.SetField? ==> act.field in Acted(act, doc).doc
    ensures act.SetField? ==> Acted(act, doc).doc[act.field] == if act.field in doc && !act.overwrite then doc[act.field] else act.value
    ensures act.DeleteField? ==> act.field !in Acted(act, doc).doc
  {
    hide ImageUrls, ImageValue;
    if act.EditsImageField? {
      assert IMAGE !in doc && Acted(act, doc).changed ==> IMAGE in Acted(act, doc).doc;
    }
  }

  function AllTouched(rules: seq<BookRule>, path: string): set<Bytes> {
    if rules == [] then {}
    else
      var rule := rules[|rules| - 1];
      AllTouched(rules[..|rules| - 1], path) + if path in rule.paths then Touches(rule.act) else {}
  }

  lemma {:induction false} RulesTouchTheirFields(rules: seq<BookRule>, path: string, doc: Doc)
    ensures forall key :: key !in AllTouched(rules, path) ==> SameAt(doc, RunRules(rules, path, doc).doc, key)
    ensures RunRules(rules, path, doc).applied == [] ==> RunRules(rules, path, doc).doc == doc
  {
    hide Acted, Touches;
    if rules != [] {
      var earlier, rule := RunRules(rules[..|rules| - 1], path, doc).doc, rules[|rules| - 1];
      RulesTouchTheirFields(rules[..|rules| - 1], path, doc);
      ApplyTouchesItsFields(rule.act, earlier);
    }
  }

  // Everything a rule writes can be read back.

  lemma StringIsPortable(value: Bytes)
    requires Crossable(value) && IsString(value)
    ensures Portable(value)
  {
    assert Delimited([COMMA]) && ValueLen(value + [COMMA]) == Some(|value|);
    StringIsLocal(value + [COMMA], []);
    assert (value + [COMMA])[..|value|] + [] == value;
    assert StringLen(value) == Some(|value|);
    forall rest, depth: int | depth >= 1 ensures Nest(value + rest, depth) == Shift(|value|, Nest(rest, depth)) {
      StringIsLocal(value, rest);
      assert value[..|value|] + rest == value + rest && (value + rest)[|value|..] == rest;
    }
  }

  lemma SpanIsCrossable(raw: Bytes, start: nat, end: nat)
    requires ValueAt(raw, start) == Some(end)
    ensures Crossable(Slice(raw, start, end))
  {
    hide Crossable, ValueLen;
    ValueAtIsLen(raw, start);
    CrossedIsCrossable(raw[start..]);
    assert raw[start..][..end - start] == raw[start..end];
  }

  lemma {:induction false} VisitedSpans(raw: Bytes, i: nat, visit: Visit -> bool)
    ensures forall v :: v in MembersFrom(raw, i, visit).visits ==> ValueAt(raw, v.start) == Some(v.end)
    decreases |raw| - i
  {
    hide ValueAt, SpaceAt, StringAt;
    var v := ReadMember(raw, i);
    if v.Some? {
      var next := SpaceAt(raw, v.value.end);
      if next < |raw| {
        VisitedSpans(raw, SpaceAt(raw, next + 1), visit);
      }
    }
  }

  lemma {:induction false} GatheredCrossable(raw: Bytes, visits: seq<Visit>)
    requires forall v :: v in visits ==> ValueAt(raw, v.start) == Some(v.end)
    ensures forall key :: key in Gathered(raw, visits) ==> Crossable(Gathered(raw, visits)[key])
  {
    hide ValueAt, Crossable, Slice;
    if visits != [] {
      var last := visits[|visits| - 1];
      GatheredCrossable(raw, visits[..|visits| - 1]);
      SpanIsCrossable(raw, last.start, last.end);
    }
  }

  lemma MembersCrossable(element: Bytes)
    ensures EachMember(element).Some? ==>
      forall key :: key in EachMember(element).value ==> Crossable(EachMember(element).value[key])
  {
    hide MembersFrom, Gathered, Crossable, ValueAt, SpaceAt;
    var open := SpaceAt(element, 0);
    if open < |element| {
      VisitedSpans(element, SpaceAt(element, open + 1), AdaptDoc.Readable);
    }
    if EachMember(element).Some? {
      GatheredCrossable(element, Members(element, AdaptDoc.Readable).visits);
    }
  }

  lemma UrlIsPortable(element: Bytes)
    requires Crossable(element)
    ensures UrlOf(element).Readable? && UrlOf(element).url.Some? ==>
      Portable(UrlOf(element).url.value) && IsString(UrlOf(element).url.value)
  {
    hide EachMember, Crossable, Over;
    MembersCrossable(element);
    if EachMember(element).Some? {
      MembersCrossable(Lookup(EachMember(element).value, IMAGE_URL));
    }
    var r := UrlOf(element);
    if r.Readable? && r.url.Some? {
      StringIsPortable(r.url.value);
    }
  }

  lemma {:induction false} ElementSpans(raw: Bytes, i: nat, visit: Visit -> bool)
    ensures forall v :: v in ElementsFrom(raw, i, visit).visits ==> ValueAt(raw, v.start) == Some(v.end)
    decreases |raw| - i
  {
    hide ValueAt, SpaceAt;
    var end := ValueAt(raw, i);
    if end.Some? {
      var next := SpaceAt(raw, end.value);
      if next < |raw| {
        ElementSpans(raw, SpaceAt(raw, next + 1), visit);
      }
    }
  }

  lemma {:induction false} UrlsPortable(images: Bytes, visits: seq<Visit>)
    requires forall v :: v in visits ==> ValueAt(images, v.start) == Some(v.end)
    ensures forall url :: url in Urls(images, visits) ==> Portable(url) && IsString(url)
  {
    hide ValueAt, Portable, Slice, UrlOf;
    if visits != [] {
      var last := visits[|visits| - 1];
      UrlsPortable(images, visits[..|visits| - 1]);
      SpanIsCrossable(images, last.start, last.end);
      UrlIsPortable(Slice(images, last.start, last.end));
    }
  }

  lemma ImageUrlsPortable(images: Bytes)
    ensures ImageUrls(images).Some? ==> forall url :: url in ImageUrls(images).value ==> Portable(url)
  {
    hide ElementsFrom, Portable, UrlOf, Urls, ValueAt, SpaceAt;
    var open := SpaceAt(images, 0);
    if open < |images| {
      ElementSpans(images, SpaceAt(images, open + 1), Legible(images));
    }
    if ImageUrls(images).Some? {
      UrlsPortable(images, Elements(images, Legible(images)).visits);
    }
  }

  lemma {:induction false} UrlPiecesValid(urls: seq<Bytes>)
    requires forall url :: url in urls ==> Portable(url)
    ensures forall p :: p in UrlPieces(urls) ==> p.Valid() && Over(p.value)
  {
    hide Crossable, Over;
    if urls != [] {
      UrlPiecesValid(urls[1..]);
      assert urls[0] in urls;
      NoSpace();
    }
  }

  lemma ImageValuePortable(urls: seq<Bytes>)
    requires urls != [] && forall url :: url in urls ==> Portable(url)
    ensures Portable(ImageValue(urls))
  {
    hide Crossable, Over, ArrayText, Piece.Valid;
    if |urls| > 1 {
      UrlPiecesValid(urls);
      NoSpace();
      ArrayCrosses([], UrlPieces(urls));
    }
  }

  ghost predicate PortableAction(act: Action) { act.SetField? ==> Portable(act.value) && Returnable(act.field) }

  lemma ApplyKeepsPortable(act: Action, doc: Doc)
    requires PortableValues(doc) && PortableAction(act)
    ensures PortableValues(Acted(act, doc).doc)
  {
    hide Portable, ImageUrls, ImageValue;
    if act.EditsImageField? && Acted(act, doc).changed {
      var urls := ImageUrls(Lookup(doc, IMAGES)).value;
      ImageUrlsPortable(Lookup(doc, IMAGES));
      ImageValuePortable(urls);
    }
  }

  lemma {:induction false} RulesKeepPortable(rules: seq<BookRule>, path: string, doc: Doc)
    requires PortableValues(doc) && forall rule :: rule in rules ==> PortableAction(rule.act)
    ensures PortableValues(RunRules(rules, path, doc).doc)
  {
    hide PortableAction, Acted, PortableValues;
    if rules != [] {
      RulesKeepPortable(rules[..|rules| - 1], path, doc);
      ApplyKeepsPortable(rules[|rules| - 1].act, RunRules(rules[..|rules| - 1], path, doc).doc);
    }
  }

  lemma ImageReturns()
    ensures Returnable(IMAGE)
  {
    LowIsValid(IMAGE);
  }

  lemma ApplyKeepsReturnable(act: Action, doc: Doc)
    requires ReturnableKeys(doc) && PortableAction(act)
    ensures ReturnableKeys(Acted(act, doc).doc)
  {
    hide Portable, ImageUrls, ImageValue, Returnable;
    ImageReturns();
  }

  lemma {:induction false} RulesKeepReturnable(rules: seq<BookRule>, path: string, doc: Doc)
    requires ReturnableKeys(doc) && forall rule :: rule in rules ==> PortableAction(rule.act)
    ensures ReturnableKeys(RunRules(rules, path, doc).doc)
  {
    hide PortableAction, Acted, ReturnableKeys;
    if rules != [] {
      RulesKeepReturnable(rules[..|rules| - 1], path, doc);
      ApplyKeepsReturnable(rules[|rules| - 1].act, RunRules(rules[..|rules| - 1], path, doc).doc);
    }
  }

  lemma {:induction false} LastValuesPortable(members: seq<Member>)
    requires forall m :: m in members ==> Portable(m.value)
    ensures PortableValues(LastValues(members))
  {
    hide Portable;
    if members != [] {
      LastValuesPortable(members[..|members| - 1]);
    }
  }

  /** On any object of the grammar the rewritten body reads back as what the
      rules made of the original, and every member no rule named keeps its
      exact bytes. A body no rule changes is not rewritten. */
  lemma ApplyIsFaithful(book: Book, channel: string, path: string, lead: Bytes, pad: Bytes, fields: seq<Field>, trail: Bytes)
    requires Spaces(lead) && Spaces(trail) && WellFormed(Object(pad, fields))
    requires forall rule :: rule in book.Rules(channel) ==> PortableAction(rule.act)
    ensures ValidFields(fields)
    ensures var doc, r := ReadFields(fields), book.Applied(channel, path, lead + Text(Object(pad, fields)) + trail);
      var run := RunRules(book.Rules(channel), path, doc);
      && (r.out.None? <==> r.applied == []) && (r.out.None? ==> run.doc == doc)
      && (r.out.Some? ==> DecodedObject(r.out.value) == Some(run.doc))
      && forall key :: key !in AllTouched(book.Rules(channel), path) ==> SameAt(doc, run.doc, key)
  {
    hide Spaces, WellFormed, Text, Portable, Member.Valid, ReadableKeys, PortableAction, PortableValues, DecodedObject, Encoded,
      RunRules, AllTouched, SameAt, LastValues, ReadFields, Written, ValidFields, ReturnableKeys;
    DecodedIsLast(lead, pad, fields, trail);
    var rules, doc := book.Rules(channel), ReadFields(fields);
    RulesTouchTheirFields(rules, path, doc);
    FieldsAreRead(fields);
    FieldsArePortable(fields);
    LastValuesPortable(Written(fields));
    RulesKeepPortable(rules, path, doc);
    ReadKeysReturn(fields);
    assert ReturnableKeys(doc) by { KeysReturn(doc); }
    RulesKeepReturnable(rules, path, doc);
    RoundTrip(RunRules(rules, path, doc).doc);
  }

  lemma KeysReturn(doc: Doc)
    requires forall k :: k in doc ==> Returnable(k)
    ensures ReturnableKeys(doc)
  {}

  // What moving the images means, by the grammar.

  /** The value given last for this key. */
  function LastField(fields: seq<Field>, name: Bytes): (v: Option<Json>)
    requires ValidFields(fields)
    ensures v.Some? ==> WellFormed(v.value)
  {
    if fields == [] then None
    else
      var f := fields[|fields| - 1];
      assert f in fields;
      if KeyText(f.key) == name then Some(f.value) else LastField(fields[..|fields| - 1], name)
  }

  /** A string that is not empty, as it is written. */
  function Token(v: Option<Json>): Option<Bytes> {
    if v.Some? && v.value.Str? && v.value.items != [] then Some(Text(v.value)) else None
  }

  /** The URL of one image. In an object image_url is looked at first, which
      may nest the URL once more under url, and a bare url last. */
  function UrlIn(image: Json): Option<Bytes>
    requires WellFormed(image)
  {
    match image
    case Str(_) => Token(Some(image))
    case Object(_, fields) =>
      assert ValidFields(fields);
      var primary := LastField(fields, IMAGE_URL);
      var chosen :=
        if primary.Some? && primary.value.Object? then
          assert ValidFields(primary.value.fields);
          LastField(primary.value.fields, URL)
        else primary;
      if Token(chosen).Some? then Token(chosen) else Token(LastField(fields, URL))
    case _ => None
  }

  predicate ValidElements(elements: seq<Element>) {
    forall e :: e in elements ==> Spaces(e.before) && WellFormed(e.value) && Spaces(e.tail)
  }

  function UrlsIn(elements: seq<Element>): seq<Bytes>
    requires ValidElements(elements)
  {
    if elements == [] then []
    else
      assert elements[|elements| - 1] in elements;
      var earlier, url := UrlsIn(elements[..|elements| - 1]), UrlIn(elements[|elements| - 1].value);
      if url.Some? then earlier + [url.value] else earlier
  }

  lemma TextStarts(v: Json)
    requires WellFormed(v)
    ensures Text(v) != []
    ensures Text(v)[0] == QUOTE <==> v.Str?
    ensures Text(v)[0] == LBRACE <==> v.Object?
    ensures Text(v)[0] == LBRACKET <==> v.Array?
  {
    hide Content, Inner, InnerArray, Scalar.Text, Scalar.Valid;
    if v.Atom? {
      ScalarIsWord(v.scalar);
      assert v.scalar.Text()[0] in v.scalar.Text();
    }
  }

  lemma TokenIs(v: Json)
    requires WellFormed(v)
    ensures NonEmptyString(Text(v)) == Token(Some(v))
  {
    hide Text;
    TextStarts(v);
    if v.Str? {
      StringText(v);
    }
  }

  lemma StringText(v: Json)
    requires v.Str?
    ensures |Text(v)| > 2 <==> v.items != []
  {}

  lemma {:induction false} LookupField(fields: seq<Field>, name: Bytes)
    requires ValidFields(fields)
    ensures var v := LastField(fields, name);
      Lookup(ReadFields(fields), name) == if v.Some? then Text(v.value) else []
  {
    hide Text, KeyText, WellFormed, ValidText;
    if fields != [] {
      assert fields[|fields| - 1] in fields;
      LookupField(fields[..|fields| - 1], name);
    }
  }

  lemma TokenLooked(fields: seq<Field>, name: Bytes)
    requires ValidFields(fields)
    ensures NonEmptyString(Lookup(ReadFields(fields), name)) == Token(LastField(fields, name))
    ensures IsObject(Lookup(ReadFields(fields), name)) <==> LastField(fields, name).Some? && LastField(fields, name).value.Object?
  {
    hide ReadFields, LastField, Text, WellFormed, ValidFields;
    LookupField(fields, name);
    var v := LastField(fields, name);
    if v.Some? {
      TextStarts(v.value);
      TokenIs(v.value);
    }
  }

  lemma ObjectRead(v: Json)
    requires WellFormed(v) && v.Object?
    ensures ValidFields(v.fields) && EachMember(Text(v)) == Some(ReadFields(v.fields))
  {
    hide At, Member.Valid, EachMember, LastValues, ReadFields, ReadableKeys, Inner, Spaces, Written, Portable;
    var members := Written(v.fields);
    FieldsAreRead(v.fields);
    FieldsArePortable(v.fields);
    WholeAt(Text(v));
    NoSpace();
    EachMemberIsExact(Text(v), 0, v.pad, members);
  }

  lemma WholeAt(raw: Bytes)
    ensures At(raw, 0, raw) && raw[..0] == []
  {}

  /** Of any value of the grammar the scanner yields the URL it holds. */
  lemma UrlIs(image: Json)
    requires WellFormed(image)
    ensures UrlOf(Text(image)) == Readable(UrlIn(image))
  {
    hide Text, WellFormed, EachMember, ReadFields, NonEmptyString, Preferred, Lookup, IsObject, ValidFields;
    TextStarts(image);
    TokenIs(image);
    ObjectStart(image);
    if image.Object? {
      ObjectRead(image);
      TokenLooked(image.fields, IMAGE_URL);
      TokenLooked(image.fields, URL);
      LookupField(image.fields, IMAGE_URL);
      var d := ReadFields(image.fields);
      var primary := LastField(image.fields, IMAGE_URL);
      PreferredIs(Lookup(d, IMAGE_URL), Lookup(d, URL));
      if primary.Some? && primary.value.Object? {
        ObjectRead(primary.value);
        TokenLooked(primary.value.fields, URL);
        PreferredIs(Lookup(ReadFields(primary.value.fields), URL), Lookup(d, URL));
      }
    }
  }

  lemma PreferredIs(primary: Bytes, fallback: Bytes)
    ensures Preferred(primary, fallback) ==
      if NonEmptyString(primary).Some? then NonEmptyString(primary) else NonEmptyString(fallback)
  {}

  lemma ObjectStart(v: Json)
    requires WellFormed(v)
    ensures IsObject(Text(v)) <==> v.Object?
  {
    hide Text;
    TextStarts(v);
  }

  lemma {:induction false} PieceIs(elements: seq<Element>, k: nat)
    requires k < |elements|
    ensures Pieces(elements)[k].value == Text(elements[k].value)
    decreases |elements|
  {
    if k > 0 {
      PieceIs(elements[1..], k - 1);
    }
  }

  lemma {:induction false} UrlsAre(images: Bytes, visits: seq<Visit>, elements: seq<Element>)
    requires |visits| == |elements| && ValidElements(elements)
    requires forall k :: 0 <= k < |visits| ==> Slice(images, visits[k].start, visits[k].end) == Text(elements[k].value)
    ensures Urls(images, visits) == UrlsIn(elements)
    ensures forall v :: v in visits ==> Legible(images)(v)
    decreases |visits|
  {
    hide Slice, UrlOf, UrlIn, Text, WellFormed, Spaces;
    if visits != [] {
      var last := elements[|elements| - 1];
      assert last in elements;
      UrlsAre(images, visits[..|visits| - 1], elements[..|elements| - 1]);
      UrlIs(last.value);
      assert visits == visits[..|visits| - 1] + [visits[|visits| - 1]];
    }
  }

  lemma SeenElements(pad: Bytes, elements: seq<Element>)
    ensures var images, seen := Text(Array(pad, elements)), PiecesSeen(Pieces(elements), 1);
      |seen| == |elements| && forall k :: 0 <= k < |seen| ==> Slice(images, seen[k].start, seen[k].end) == Text(elements[k].value)
  {
    hide At, ClosedArray, PiecesSeen, Pieces;
    var images, pieces := Text(Array(pad, elements)), Pieces(elements);
    PieceCount(elements);
    WholeAt(images);
    AtParts(images, 0, [LBRACKET], InnerArray(pad, pieces));
    PieceValues(images, 1, pieces);
    forall k | 0 <= k < |pieces| ensures pieces[k].value == Text(elements[k].value) {
      PieceIs(elements, k);
    }
  }

  lemma PieceCount(elements: seq<Element>)
    ensures |Pieces(elements)| == |elements|
  {}

  /** The URLs of any array of the grammar, in order. */
  lemma ImageUrlsAre(pad: Bytes, elements: seq<Element>)
    requires WellFormed(Array(pad, elements))
    ensures ValidElements(elements) && ImageUrls(Text(Array(pad, elements))) == Some(UrlsIn(elements))
  {
    hide At, Piece.Valid, InnerArray, Elements, Urls, UrlsIn, UrlOf, Spaces, PiecesSeen, UntilRefused, Over, Crossable, Pieces;
    var images, pieces := Text(Array(pad, elements)), Pieces(elements);
    var seen := PiecesSeen(pieces, 1);
    assert ValidElements(elements);
    ElementsAreValid(elements);
    WholeAt(images);
    NoSpace();
    ElementsAreExact(images, 0, pad, pieces, Legible(images));
    SeenElements(pad, elements);
    UrlsAre(images, seen, elements);
    NoneRefused(seen, Legible(images));
  }

  /** Texts with a comma between them. */
  function Listed(texts: seq<Bytes>): Bytes {
    if texts == [] then [] else if |texts| == 1 then texts[0] else texts[0] + [COMMA] + Listed(texts[1..])
  }

  lemma {:induction false} ClosedIsListed(texts: seq<Bytes>)
    requires texts != []
    ensures ClosedArray(UrlPieces(texts)) == Listed(texts) + [RBRACKET]
  {
    hide Listed, ClosedArray, UrlPieces;
    OneListed(texts);
    if |texts| > 1 {
      var rest := Listed(texts[1..]);
      ClosedIsListed(texts[1..]);
      assert texts[0] + ([COMMA] + (rest + [RBRACKET])) == texts[0] + [COMMA] + rest + [RBRACKET];
    }
  }

  lemma OneListed(texts: seq<Bytes>)
    requires texts != []
    ensures |texts| == 1 ==> Listed(texts) == texts[0] && ClosedArray(UrlPieces(texts)) == texts[0] + [RBRACKET]
    ensures |texts| > 1 ==>
      && Listed(texts) == texts[0] + [COMMA] + Listed(texts[1..])
      && ClosedArray(UrlPieces(texts)) == texts[0] + ([COMMA] + ClosedArray(UrlPieces(texts[1..])))
  {
    hide ClosedArray, Piece.Text;
    OnePiece(texts[0]);
    FirstPiece(texts);
    ClosedFirst(UrlPieces(texts));
  }

  lemma OnePiece(url: Bytes)
    ensures Piece([], url, []).Text() == url
  {
    assert [] + (url + []) == url;
  }

  lemma FirstPiece(urls: seq<Bytes>)
    requires urls != []
    ensures UrlPieces(urls)[0] == Piece([], urls[0], []) && UrlPieces(urls)[1..] == UrlPieces(urls[1..])
  {}

  lemma ClosedFirst(pieces: seq<Piece>)
    requires pieces != []
    ensures ClosedArray(pieces) == pieces[0].Text() + (if |pieces| == 1 then [RBRACKET] else [COMMA] + ClosedArray(pieces[1..]))
  {}

  /** Moving the images: if image is not given and images is an array that
      holds URLs, image becomes the one URL or the array of all of them in
      order, and images goes. Otherwise nothing changes. */
  lemma ImagesMove(doc: Doc, images: Json)
    requires WellFormed(images) && IMAGES in doc && doc[IMAGES] == Text(images)
    ensures images.Array? ==> ValidElements(images.elements)
    ensures Moved(doc) ==
      if IMAGE in doc || !images.Array? || UrlsIn(images.elements) == [] then Change(doc, false)
      else
        var urls := UrlsIn(images.elements);
        Change(doc[IMAGE := if |urls| == 1 then urls[0] else [LBRACKET] + Listed(urls) + [RBRACKET]] - {IMAGES}, true)
  {
    hide Text, WellFormed, ImageUrls, ImageValue, UrlsIn, ValidElements;
    TextStarts(images);
    if images.Array? {
      ImageUrlsAre(images.pad, images.elements);
      if UrlsIn(images.elements) != [] {
        ValueIsListed(UrlsIn(images.elements));
      }
    }
  }

  lemma ValueIsListed(urls: seq<Bytes>)
    requires urls != []
    ensures ImageValue(urls) == if |urls| == 1 then urls[0] else [LBRACKET] + Listed(urls) + [RBRACKET]
  {
    ClosedIsListed(urls);
    assert [LBRACKET] + (Listed(urls) + [RBRACKET]) == [LBRACKET] + Listed(urls) + [RBRACKET];
  }
}
