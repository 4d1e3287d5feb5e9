/** The two divisions the modelled code reports: a percentage and a mean.
    Both are exact rationals here; Python's float division and `round(.., 2)`
    are not modelled. */
module Ratio {

  /** `part / whole * 100`, or 0 for an empty whole */
  function Percentage(part: nat, whole: nat): (p: real)
    ensures whole == 0 ==> p == 0.0
    ensures whole > 0 ==> p * (whole as real) == (part as real) * 100.0
    ensures part <= whole ==> 0.0 <= p <= 100.0
  {
    if whole == 0 then 0.0
    else
      var p := (part as real) * 100.0 / (whole as real);
      assert part <= whole ==> 0.0 <= p <= 100.0 by {
        if part <= whole { PercentageBounds(part, whole); }
      }
      DivTimes((part as real) * 100.0, whole as real);
      p
  }

  /** `sum / count`, or 0 for no items */
  function Mean(sum: nat, count: nat): (m: real)
    ensures count == 0 ==> m == 0.0
    ensures count > 0 ==> m * (count as real) == sum as real
  {
    if count == 0 then 0.0
    else
      DivTimes(sum as real, count as real);
      (sum as real) / (count as real)
  }

  /** A percentage of a part of a whole lies between 0 and 100 */
  lemma PercentageBounds(part: nat, whole: nat)
    requires 0 < whole && part <= whole
    ensures 0.0 <= (part as real) * 100.0 / (whole as real) <= 100.0
  {
    assert (part as real) * 100.0 <= (whole as real) * 100.0;
  }

  lemma DivTimes(x: real, y: real)
    requires y != 0.0
    ensures (x / y) * y == x
  {}
}
