/** The largest of some numbers, as `max` finds it. */
module Extremes {
  function Largest(values: seq<real>): (m: real)
    requires values != []
    ensures m in values && forall i :: 0 <= i < |values| ==> values[i] <= m
  {
    if |values| == 1 then values[0]
    else
      var rest := Largest(values[..|values| - 1]);
      if values[|values| - 1] > rest then values[|values| - 1] else rest
  }

  /** The value with these two properties is the largest. */
  lemma LargestIs(values: seq<real>, m: real)
    requires m in values && forall i :: 0 <= i < |values| ==> values[i] <= m
    ensures Largest(values) == m
  {
  }

  /** `max(values, default=0)`. */
  function LargestOrZero(values: seq<real>): real {
    if values == [] then 0.0 else Largest(values)
  }
}
