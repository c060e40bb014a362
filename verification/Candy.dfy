/** The candy question of the model inspection: how many candies of each of two
    shapes must be drawn so that a matching pair is certain. The answer is
    computed from four inequalities; here it is compared with every possible
    draw. */
module Candy {

  /** One shape's counts: the two flavours asked for (k0, k1) and the third. */
  datatype Row = Row(k0: nat, k1: nat, k2: nat) {
    function Sum(): nat { k0 + k1 + k2 }

    predicate Within(limit: Row) {
      k0 <= limit.k0 && k1 <= limit.k1 && k2 <= limit.k2
    }
  }

  datatype Counts = Counts(first: Row, second: Row)

  /** The hand holds the first shape of one wanted flavour with the second
      shape of the other. */
  predicate HasPair(a: Row, b: Row) {
    (a.k0 > 0 && b.k1 > 0) || (a.k1 > 0 && b.k0 > 0)
  }

  /** A hand that can be drawn: r candies of the first shape, s of the second. */
  predicate IsDraw(c: Counts, r: nat, s: nat, a: Row, b: Row) {
    a.Within(c.first) && b.Within(c.second) && a.Sum() == r && b.Sum() == s
  }

  /** Drawing r and s candies is possible and always yields a pair. */
  ghost predicate Guarantees(c: Counts, r: nat, s: nat) {
    && r <= c.first.Sum() && s <= c.second.Sum()
    && forall a, b :: IsDraw(c, r, s, a, b) ==> HasPair(a, b)
  }

  /** The four inequalities the code tests. */
  predicate Inequalities(c: Counts, r: nat, s: nat) {
    && r > c.first.k2
    && s > c.second.k2
    && (r > c.first.k1 + c.first.k2 || s > c.second.k1 + c.second.k2)
    && (r > c.first.k0 + c.first.k2 || s > c.second.k0 + c.second.k2)
  }

  function Least(x: nat, y: nat): nat { if x <= y then x else y }

  /** n candies, taken from the third flavour first, then from k1, then k0. */
  function TakeAvoiding0(limit: Row, n: nat): Row
    requires n <= limit.Sum()
  {
    var third := Least(n, limit.k2);
    var one := Least(n - third, limit.k1);
    Row(n - third - one, one, third)
  }

  function TakeAvoiding1(limit: Row, n: nat): Row
    requires n <= limit.Sum()
  {
    var third := Least(n, limit.k2);
    var zero := Least(n - third, limit.k0);
    Row(zero, n - third - zero, third)
  }

  /** A draw is safe exactly when the four inequalities hold. */
  lemma GuaranteesIffInequalities(c: Counts, r: nat, s: nat)
    requires r <= c.first.Sum() && s <= c.second.Sum()
    ensures Guarantees(c, r, s) <==> Inequalities(c, r, s)
  {
    if !Inequalities(c, r, s) {
      var a0, a1 := TakeAvoiding0(c.first, r), TakeAvoiding1(c.first, r);
      var b0, b1 := TakeAvoiding0(c.second, s), TakeAvoiding1(c.second, s);
      assert IsDraw(c, r, s, a0, b0) && IsDraw(c, r, s, a1, b1);
      assert !HasPair(a0, b0) || !HasPair(a1, b1);
    }
  }

  /** The bag can yield a pair at all. */
  predicate Solvable(c: Counts) { HasPair(c.first, c.second) }

  ghost predicate IsOptimum(c: Counts, n: nat) {
    && (exists r: nat, s: nat :: Guarantees(c, r, s) && r + s == n)
    && forall r: nat, s: nat :: Guarantees(c, r, s) ==> n <= r + s
  }

  lemma DrawingAllGuaranteesIffSolvable(c: Counts)
    ensures Guarantees(c, c.first.Sum(), c.second.Sum()) <==> Solvable(c)
  {
    GuaranteesIffInequalities(c, c.first.Sum(), c.second.Sum());
  }

  lemma UnsolvableHasNoGuarantee(c: Counts, r: nat, s: nat)
    requires Guarantees(c, r, s)
    ensures Solvable(c)
  {
    GuaranteesIffInequalities(c, r, s);
  }

  /** Scans every (r, s). The result is the optimum exactly for the tables
      that hold a wanted pair; for any other it is the whole bag, although no
      draw helps. */
  method CandyAnswer(c: Counts) returns (best: nat)
    ensures IsOptimum(c, best) <==> Solvable(c)
    ensures !Solvable(c) ==> best == c.first.Sum() + c.second.Sum()
  {
    var first, second := c.first.Sum(), c.second.Sum();
    best := first + second;
    ghost var found: (nat, nat) := (first, second);
    for r := 0 to first + 1
      invariant best == found.0 + found.1 && found.0 <= first && found.1 <= second
      invariant found == (first, second) || Inequalities(c, found.0, found.1)
      invariant forall i, j :: 0 <= i < r && 0 <= j <= second && Inequalities(c, i, j) ==> best <= i + j
    {
      for s := 0 to second + 1
        invariant best == found.0 + found.1 && found.0 <= first && found.1 <= second
        invariant found == (first, second) || Inequalities(c, found.0, found.1)
        invariant forall i, j :: 0 <= i < r && 0 <= j <= second && Inequalities(c, i, j) ==> best <= i + j
        invariant forall j :: 0 <= j < s && Inequalities(c, r, j) ==> best <= r + j
      {
        if r > c.first.k2 && s > c.second.k2 &&
           (r > c.first.k1 + c.first.k2 || s > c.second.k1 + c.second.k2) &&
           (r > c.first.k0 + c.first.k2 || s > c.second.k0 + c.second.k2) {
          if r + s < best {
            best, found := r + s, (r, s);
          }
        }
      }
    }
    ConcludeOptimum(c, best, found.0, found.1);
  }

  lemma ConcludeOptimum(c: Counts, best: nat, fr: nat, fs: nat)
    requires best == fr + fs && fr <= c.first.Sum() && fs <= c.second.Sum()
    requires (fr == c.first.Sum() && fs == c.second.Sum()) || Inequalities(c, fr, fs)
    requires forall i: nat, j: nat :: i <= c.first.Sum() && j <= c.second.Sum() && Inequalities(c, i, j) ==> best <= i + j
    ensures IsOptimum(c, best) <==> Solvable(c)
    ensures !Solvable(c) ==> best == c.first.Sum() + c.second.Sum()
  {
    DrawingAllGuaranteesIffSolvable(c);
    GuaranteesIffInequalities(c, fr, fs);
    forall r: nat, s: nat | Guarantees(c, r, s) ensures Solvable(c) && best <= r + s {
      UnsolvableHasNoGuarantee(c, r, s);
      GuaranteesIffInequalities(c, r, s);
    }
    if Solvable(c) {
      assert Guarantees(c, fr, fs);
    }
  }

  datatype Traps = Traps(blind: nat, pair01: nat, pair10: nat)

  function Most(x: nat, y: nat): nat { if x >= y then x else y }

  function CandyTraps(c: Counts): (t: Traps)
    ensures forall a: Row, b: Row :: a.Within(c.first) && b.Within(c.second) && !HasPair(a, b) ==> a.Sum() + b.Sum() < t.blind
    ensures exists a: Row, b: Row :: a.Within(c.first) && b.Within(c.second) && !HasPair(a, b) && a.Sum() + b.Sum() + 1 == t.blind
  {
    var first, second := c.first.Sum(), c.second.Sum();
    var thirdOnly := c.first.k2 + second;
    var no0 := c.first.k1 + c.first.k2 + c.second.k1 + c.second.k2;
    var no1 := c.first.k0 + c.first.k2 + c.second.k0 + c.second.k2;
    var otherThird := first + c.second.k2;
    var blind := Most(Most(thirdOnly, no0), Most(no1, otherThird)) + 1;
    assert exists a: Row, b: Row :: a.Within(c.first) && b.Within(c.second) && !HasPair(a, b) && a.Sum() + b.Sum() + 1 == blind by {
      var pick :=
        if blind == thirdOnly + 1 then (Row(0, 0, c.first.k2), c.second)
        else if blind == no0 + 1 then (Row(0, c.first.k1, c.first.k2), Row(0, c.second.k1, c.second.k2))
        else if blind == no1 + 1 then (Row(c.first.k0, 0, c.first.k2), Row(c.second.k0, 0, c.second.k2))
        else (c.first, Row(0, 0, c.second.k2));
      assert pick.0.Within(c.first) && pick.1.Within(c.second) && !HasPair(pick.0, pick.1);
      assert pick.0.Sum() + pick.1.Sum() + 1 == blind;
    }
    Traps(
      blind,
      (c.first.k1 + c.first.k2 + 1) + (c.second.k0 + c.second.k2 + 1),
      (c.first.k0 + c.first.k2 + 1) + (c.second.k1 + c.second.k2 + 1))
  }

  /** The optimum never exceeds a trap: not the blind draw, and not the draw
      that secures one of the pairs outright, where that pair exists. */
  lemma AnswerBelowTraps(c: Counts, answer: nat)
    requires Solvable(c) && IsOptimum(c, answer)
    ensures answer <= CandyTraps(c).blind
    ensures c.first.k0 > 0 && c.second.k1 > 0 ==> answer <= CandyTraps(c).pair01
    ensures c.first.k1 > 0 && c.second.k0 > 0 ==> answer <= CandyTraps(c).pair10
  {
    var t := CandyTraps(c);
    assert t.blind <= c.first.Sum() + c.second.Sum();
    var r := Least(t.blind, c.first.Sum());
    assert Guarantees(c, r, t.blind - r);
    if c.first.k0 > 0 && c.second.k1 > 0 {
      GuaranteesIffInequalities(c, c.first.k1 + c.first.k2 + 1, c.second.k0 + c.second.k2 + 1);
    }
    if c.first.k1 > 0 && c.second.k0 > 0 {
      GuaranteesIffInequalities(c, c.first.k0 + c.first.k2 + 1, c.second.k1 + c.second.k2 + 1);
    }
  }
}
