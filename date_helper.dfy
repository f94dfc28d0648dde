/**
 The `Date` helpers: where a moment lies between two others, and whether an
 hour of the day is night. `Double` is modelled as `real`; the hour that
 `Calendar.current` extracts from a date is a parameter.
 */
module DateHelper {

  /**
   `percentInBeforeAfter(before:after:)` for the moment `cur` (seconds since
   1970): the fraction of the way from `before` to `after`, clamped to
   [0, 1]. It traps unless `before < after`.
   */
  function PercentInBeforeAfter(cur: real, before: real, after: real): (r: real)
    requires before < after
    ensures 0.0 <= r <= 1.0
    ensures cur > after ==> r == 1.0
    ensures cur < before ==> r == 0.0
    ensures before <= cur <= after ==> before + r * (after - before) == cur
  {
    if cur > after then 1.0
    else if cur < before then 0.0
    else
      var r := (cur - before) / (after - before);
      FractionBounds(cur - before, after - before);
      r
  }

  /** A part of a positive whole is a fraction in [0, 1] that scales back to the part. */
  lemma FractionBounds(part: real, whole: real)
    requires 0.0 <= part <= whole && whole > 0.0
    ensures 0.0 <= part / whole <= 1.0
    ensures part / whole * whole == part
  {
    assert part / whole * whole == part;
  }

  /** The fraction is 0 at `before` and 1 at `after`. */
  lemma PercentAtEnds(before: real, after: real)
    requires before < after
    ensures PercentInBeforeAfter(before, before, after) == 0.0
    ensures PercentInBeforeAfter(after, before, after) == 1.0
  {
    var d := after - before;
    assert (after - before) / d == 1.0;
    assert (before - before) / d == 0.0;
  }

  lemma NonNegativeFactor(x: real, y: real)
    requires y > 0.0 && x * y >= 0.0
    ensures x >= 0.0
  {
  }

  lemma Distribute(a: real, b: real, d: real)
    ensures (a - b) * d == a * d - b * d
  {
  }

  /** A later moment never lies less far along. */
  lemma PercentMonotonic(c1: real, c2: real, before: real, after: real)
    requires before < after && c1 <= c2
    ensures PercentInBeforeAfter(c1, before, after) <= PercentInBeforeAfter(c2, before, after)
  {
    if before <= c1 && c2 <= after {
      var d := after - before;
      var q1, q2 := (c1 - before) / d, (c2 - before) / d;
      FractionBounds(c1 - before, d);
      FractionBounds(c2 - before, d);
      Distribute(q2, q1, d);
      NonNegativeFactor(q2 - q1, d);
    }
  }

  /** `isNight` for the hour of the day: before 6 in the morning or from 6 in
      the evening on, so the day hours are exactly 6 through 17. */
  function IsNight(hour: int): (night: bool)
    ensures !night <==> 6 <= hour <= 17
  {
    hour < 6 || hour >= 18
  }
}
