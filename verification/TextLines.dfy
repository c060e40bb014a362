/** Text as lines: what lies between line breaks. */
module TextLines {
  import opened Bytes

  /** The text between line breaks. */
  function Lines(s: Bytes): (lines: seq<Bytes>)
    ensures |lines| >= 1
  {
    if s == [] then [[]]
    else
      var rest := Lines(s[1..]);
      if s[0] == LF then [[]] + rest else [[s[0]] + rest[0]] + rest[1..]
  }

  /** Two texts' lines when the second continues the first. */
  function Glue(la: seq<Bytes>, lb: seq<Bytes>): (lines: seq<Bytes>)
    requires |la| >= 1 && |lb| >= 1
    ensures |lines| == |la| + |lb| - 1
  {
    la[..|la| - 1] + [la[|la| - 1] + lb[0]] + lb[1..]
  }

  lemma GlueAfterBreak(la: seq<Bytes>, lb: seq<Bytes>)
    requires |la| >= 1 && |lb| >= 1
    ensures Glue([[]] + la, lb) == [[]] + Glue(la, lb)
  {
    assert ([[]] + la)[..|la|] == [[]] + la[..|la| - 1];
  }

  lemma GlueAfterByte(c: byte, la: seq<Bytes>, lb: seq<Bytes>)
    requires |la| >= 1 && |lb| >= 1
    ensures Glue([[c] + la[0]] + la[1..], lb) == [[c] + Glue(la, lb)[0]] + Glue(la, lb)[1..]
  {
    if |la| == 1 {
      assert [c] + la[0] + lb[0] == [c] + (la[0] + lb[0]);
    } else {
      assert ([[c] + la[0]] + la[1..])[..|la| - 1] == [[c] + la[0]] + la[1..|la| - 1];
    }
  }

  lemma GlueNothing(lines: seq<Bytes>)
    requires |lines| >= 1
    ensures Glue([[]], lines) == lines
  {
    assert [] + lines[0] == lines[0];
  }

  lemma {:induction false} LinesAppend(a: Bytes, b: Bytes)
    ensures Lines(a + b) == Glue(Lines(a), Lines(b))
  {
    hide Glue;
    if a == [] {
      assert a + b == b;
      GlueNothing(Lines(b));
    } else {
      LinesAppend(a[1..], b);
      assert (a + b)[1..] == a[1..] + b;
      GlueAfterBreak(Lines(a[1..]), Lines(b));
      GlueAfterByte(a[0], Lines(a[1..]), Lines(b));
    }
  }

  /** Ending the open line only adds an empty one after it. */
  lemma LinesBreak(s: Bytes)
    ensures Lines(s + [LF]) == Lines(s) + [[]]
  {
    LinesAppend(s, [LF]);
    assert Lines([]) == [[]];
    assert Lines([LF]) == [[], []];
    var lines := Lines(s);
    assert lines[|lines| - 1] + [] == lines[|lines| - 1];
  }

  lemma {:induction false} LinesHaveNoBreak(s: Bytes)
    ensures forall line :: line in Lines(s) ==> LF !in line
  {
    if s != [] {
      LinesHaveNoBreak(s[1..]);
      assert Lines(s[1..])[0] in Lines(s[1..]);
    }
  }

  /** The line still open at the end is empty exactly at the start of a line. */
  lemma {:induction false} OpenLine(s: Bytes)
    ensures var lines := Lines(s); lines[|lines| - 1] != [] <==> s != [] && s[|s| - 1] != LF
  {
    if |s| > 1 {
      OpenLine(s[1..]);
    }
  }

  lemma {:induction false} SingleLine(s: Bytes)
    requires LF !in s
    ensures Lines(s) == [s]
  {
    if s != [] {
      SingleLine(s[1..]);
      assert s == [s[0]] + s[1..];
    }
  }
}
