/** UTF-8 (RFC 3629 sections 3 and 4): code points as bytes, and what decoding
    makes of bytes that are not UTF-8. */
module Runes {
  import opened Bytes

  const REPLACEMENT: int := 0xFFFD

  predicate IsCode(code: int) { 0 <= code < 0x110000 && !(0xD800 <= code < 0xE000) }

  /** The bytes of a code point. */
  function Utf8(code: int): (s: Bytes)
    requires 0 <= code < 0x110000
    ensures 1 <= |s| <= 4
  {
    if code < 0x80 then [code as byte]
    else if code < 0x800 then [(0xC0 + code / 64) as byte, (0x80 + code % 64) as byte]
    else if code < 0x10000 then
      [(0xE0 + code / 4096) as byte, (0x80 + code / 64 % 64) as byte, (0x80 + code % 64) as byte]
    else
      [(0xF0 + code / 262144) as byte, (0x80 + code / 4096 % 64) as byte, (0x80 + code / 64 % 64) as byte, (0x80 + code % 64) as byte]
  }

  predicate IsHigh(c: byte) { c >= 0x80 }

  predicate Continues(c: byte) { 0x80 <= c <= 0xBF }

  /** The second byte, which rules out overlong forms, surrogates and numbers
      above 0x10FFFF. */
  predicate Second(first: byte, c: byte) {
    (if first == 0xE0 then 0xA0 else if first == 0xF0 then 0x90 else 0x80) <= c <=
    (if first == 0xED then 0x9F else if first == 0xF4 then 0x8F else 0xBF)
  }

  /** The length of the sequence of high bytes at the start of s, 0 if they are
      not a code point. */
  function RuneLen(s: Bytes): (n: nat)
    ensures n <= |s| && n <= 4 && forall i :: 0 <= i < n ==> IsHigh(s[i])
  {
    if |s| >= 2 && 0xC2 <= s[0] <= 0xDF && Continues(s[1]) then 2
    else if |s| >= 3 && 0xE0 <= s[0] <= 0xEF && Second(s[0], s[1]) && Continues(s[2]) then 3
    else if |s| >= 4 && 0xF0 <= s[0] <= 0xF4 && Second(s[0], s[1]) && Continues(s[2]) && Continues(s[3]) then 4
    else 0
  }

  predicate ValidUtf8(s: Bytes)
    decreases |s|
  {
    if s == [] then true
    else if !IsHigh(s[0]) then ValidUtf8(s[1..])
    else RuneLen(s) > 0 && ValidUtf8(s[RuneLen(s)..])
  }

  /** Decoding replaces every byte that is not part of a code point. */
  function Repaired(s: Bytes): Bytes
    decreases |s|
  {
    if s == [] then []
    else if !IsHigh(s[0]) then [s[0]] + Repaired(s[1..])
    else if RuneLen(s) > 0 then s[..RuneLen(s)] + Repaired(s[RuneLen(s)..])
    else Utf8(REPLACEMENT) + Repaired(s[1..])
  }

  lemma {:induction false} RepairedIsLonger(s: Bytes)
    ensures if ValidUtf8(s) then Repaired(s) == s else |Repaired(s)| > |s|
    decreases |s|
  {
    if s != [] {
      var n := if IsHigh(s[0]) && RuneLen(s) > 0 then RuneLen(s) else 1;
      RepairedIsLonger(s[n..]);
      assert s == s[..n] + s[n..];
    }
  }

  /** The bytes before the first that is not high. */
  function High(s: Bytes): (h: Bytes)
    ensures |h| <= |s| && h == s[..|h|] && (forall c :: c in h ==> IsHigh(c)) && (|h| < |s| ==> !IsHigh(s[|h|]))
  {
    if s != [] && IsHigh(s[0]) then [s[0]] + High(s[1..]) else []
  }

  /** Only the high bytes at the start matter. */
  lemma RuneOfHigh(s: Bytes)
    ensures RuneLen(s) == RuneLen(High(s))
  {
    var h := High(s);
    assert forall i :: 0 <= i < |h| ==> h[i] == s[i];
    assert |h| < |s| ==> !IsHigh(s[|h|]);
  }

  lemma SameHigh(s: Bytes, t: Bytes)
    requires High(s) == High(t)
    ensures RuneLen(s) == RuneLen(t)
  {
    RuneOfHigh(s);
    RuneOfHigh(t);
  }

  lemma RuneStays(s: Bytes, rest: Bytes)
    requires RuneLen(s) > 0
    ensures RuneLen(s + rest) == RuneLen(s)
  {}

  lemma {:induction false} ValidJoin(s: Bytes, t: Bytes)
    requires ValidUtf8(s) && ValidUtf8(t)
    ensures ValidUtf8(s + t)
    decreases |s|
  {
    hide RuneLen;
    if s == [] {
      assert s + t == t;
    } else if !IsHigh(s[0]) {
      assert (s + t)[1..] == s[1..] + t;
      ValidJoin(s[1..], t);
    } else {
      var n := RuneLen(s);
      RuneStays(s, t);
      assert (s + t)[n..] == s[n..] + t;
      ValidJoin(s[n..], t);
    }
  }

  lemma CodeIsValid(code: int)
    requires IsCode(code)
    ensures ValidUtf8(Utf8(code))
  {
    var s := Utf8(code);
    if code >= 0x80 {
      assert RuneLen(s) == |s|;
      assert s[|s|..] == [];
    } else {
      assert s[1..] == [];
    }
  }

  lemma RuneIsValid(s: Bytes)
    requires RuneLen(s) > 0
    ensures ValidUtf8(s[..RuneLen(s)])
  {
    var r := s[..RuneLen(s)];
    assert RuneLen(r) == |r| && r[|r|..] == [];
  }

  /** Whatever is decoded is UTF-8. */
  lemma {:induction false} RepairedIsValid(s: Bytes)
    ensures ValidUtf8(Repaired(s))
    decreases |s|
  {
    hide RuneLen, Utf8;
    if s != [] {
      if !IsHigh(s[0]) {
        RepairedIsValid(s[1..]);
        OneLow(s[0]);
        ValidJoin([s[0]], Repaired(s[1..]));
      } else if RuneLen(s) > 0 {
        RepairedIsValid(s[RuneLen(s)..]);
        RuneIsValid(s);
        ValidJoin(s[..RuneLen(s)], Repaired(s[RuneLen(s)..]));
      } else {
        RepairedIsValid(s[1..]);
        CodeIsValid(REPLACEMENT);
        ValidJoin(Utf8(REPLACEMENT), Repaired(s[1..]));
      }
    }
  }

  lemma OneLow(c: byte)
    requires !IsHigh(c)
    ensures ValidUtf8([c])
  {
    assert [c][1..] == [];
  }

  lemma {:induction false} LowIsValid(s: Bytes)
    requires forall c :: c in s ==> !IsHigh(c)
    ensures ValidUtf8(s)
  {
    if s != [] {
      LowIsValid(s[1..]);
    }
  }
}
