/** Calendar days of a time zone. A zone gives the first instant of every day;
    days follow one another, so the instants strictly increase. */
module Calendar {
  ghost predicate Increasing(s: int -> int) { forall a, b :: a < b ==> s(a) < s(b) }

  type Zone = s: int -> int | Increasing(s) witness ((d: int) => d)

  lemma Later(z: Zone, a: int, b: int)
    requires a < b
    ensures z(a) < z(b)
  {}

  /** The day of an instant, looked for from day d on. */
  function DayFrom(z: Zone, d: int, at: int): (day: int)
    decreases if at < z(d) then 1 else 0, if at < z(d) then z(d) - at else at - z(d)
  {
    hide Increasing;
    Later(z, d - 1, d);
    Later(z, d, d + 1);
    if at < z(d) then DayFrom(z, d - 1, at)
    else if at >= z(d + 1) then DayFrom(z, d + 1, at)
    else d
  }

  function DayOf(z: Zone, at: int): (day: int) { DayFrom(z, 0, at) }

  /** The first instant of the day `days` after that of at. */
  function DayStart(z: Zone, at: int, days: int): int { z(DayOf(z, at) + days) }

  lemma {:induction false} DayFromBounds(z: Zone, d: int, at: int)
    ensures z(DayFrom(z, d, at)) <= at < z(DayFrom(z, d, at) + 1)
    decreases if at < z(d) then 1 else 0, if at < z(d) then z(d) - at else at - z(d)
  {
    hide Increasing;
    Later(z, d - 1, d);
    Later(z, d, d + 1);
    if at < z(d) {
      DayFromBounds(z, d - 1, at);
    } else if at >= z(d + 1) {
      DayFromBounds(z, d + 1, at);
    }
  }

  lemma DayBounds(z: Zone, at: int)
    ensures z(DayOf(z, at)) <= at < z(DayOf(z, at) + 1)
  {
    DayFromBounds(z, 0, at);
  }

  lemma NoEarlier(z: Zone, a: int, b: int)
    requires a <= b
    ensures z(a) <= z(b)
  {
    hide Increasing;
    if a < b {
      Later(z, a, b);
    }
  }

  /** The day of an instant is the only one that holds it. */
  lemma DayIsUnique(z: Zone, at: int, day: int)
    ensures z(day) <= at < z(day + 1) <==> DayOf(z, at) == day
  {
    hide Increasing, DayOf;
    DayBounds(z, at);
    var other := DayOf(z, at);
    if other < day {
      NoEarlier(z, other + 1, day);
    } else if other > day {
      NoEarlier(z, day + 1, other);
    }
  }

  lemma DayOfStart(z: Zone, day: int)
    ensures DayOf(z, z(day)) == day
  {
    hide Increasing, DayOf;
    Later(z, day, day + 1);
    DayIsUnique(z, z(day), day);
  }

  /** An instant is at or after a day's start exactly when its day is. */
  lemma AfterStart(z: Zone, at: int, day: int)
    ensures at >= z(day) <==> DayOf(z, at) >= day
  {
    hide Increasing, DayOf;
    DayBounds(z, at);
    if DayOf(z, at) >= day {
      NoEarlier(z, day, DayOf(z, at));
    } else {
      NoEarlier(z, DayOf(z, at) + 1, day);
    }
  }

  lemma DaysInOrder(z: Zone, a: int, b: int)
    requires a <= b
    ensures DayOf(z, a) <= DayOf(z, b)
  {
    hide Increasing, DayOf;
    DayBounds(z, a);
    AfterStart(z, b, DayOf(z, a));
  }
}
