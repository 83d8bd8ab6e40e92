/**
 * The statistics the client report and the number store take over a
 * non-empty list of values: sum, minimum, maximum and arithmetic mean
 * (Python's `sum`, `min`, `max` and `statistics.mean`), over exact reals.
 */
module Stats {

  /** The sum of the values, left to right. */
  function Sum(s: seq<real>): real
  {
    if s == [] then 0.0 else s[0] + Sum(s[1..])
  }

  /** The smallest value: it occurs in the list and no value is smaller. */
  function Min(s: seq<real>): (m: real)
    requires s != []
    ensures m in s
    ensures forall i :: 0 <= i < |s| ==> m <= s[i]
  {
    if |s| == 1 then s[0]
    else
      var rest := Min(s[1..]);
      if s[0] <= rest then s[0] else rest
  }

  /** The largest value: it occurs in the list and no value is larger. */
  function Max(s: seq<real>): (m: real)
    requires s != []
    ensures m in s
    ensures forall i :: 0 <= i < |s| ==> s[i] <= m
  {
    if |s| == 1 then s[0]
    else
      var rest := Max(s[1..]);
      if rest <= s[0] then s[0] else rest
  }

  /** The arithmetic mean. */
  function Mean(s: seq<real>): real
    requires s != []
  {
    Sum(s) / (|s| as real)
  }

  /** A lower bound of every value bounds the sum from below, times the count. */
  lemma {:induction false} SumAtLeast(s: seq<real>, lo: real)
    requires forall i :: 0 <= i < |s| ==> lo <= s[i]
    ensures (|s| as real) * lo <= Sum(s)
  {
    if s != [] {
      SumAtLeast(s[1..], lo);
      assert (|s| as real) * lo == lo + ((|s| - 1) as real) * lo;
    }
  }

  /** An upper bound of every value bounds the sum from above, times the count. */
  lemma {:induction false} SumAtMost(s: seq<real>, hi: real)
    requires forall i :: 0 <= i < |s| ==> s[i] <= hi
    ensures Sum(s) <= (|s| as real) * hi
  {
    if s != [] {
      SumAtMost(s[1..], hi);
      assert (|s| as real) * hi == hi + ((|s| - 1) as real) * hi;
    }
  }

  /** Dividing both sides of `n * lo <= x` by a positive `n`. */
  lemma DivideBound(x: real, n: real, lo: real, hi: real)
    requires 0.0 < n
    requires n * lo <= x <= n * hi
    ensures lo <= x / n <= hi
  {
  }

  /** The mean lies between the smallest and the largest value. */
  lemma MeanBetweenMinMax(s: seq<real>)
    requires s != []
    ensures Min(s) <= Mean(s) <= Max(s)
  {
    SumAtLeast(s, Min(s));
    SumAtMost(s, Max(s));
    DivideBound(Sum(s), |s| as real, Min(s), Max(s));
  }
}
