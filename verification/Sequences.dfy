/** Consumer sequences and their minimum (src/disruptor/sequence.rs). */
module Sequences {

  const INITIAL_CURSOR_VALUE := -1

  const I64_MAX := 0x7FFF_FFFF_FFFF_FFFF

  /** The least element of a vector of sequence values, or `i64::MAX` if there is none. */
  function Min(v: seq<int>): (m: int)
    ensures v == [] ==> m == I64_MAX
    ensures v != [] ==> m in v
    ensures forall i :: 0 <= i < |v| ==> m <= v[i]
  {
    if v == [] then I64_MAX
    else
      var last := v[|v| - 1];
      if |v| == 1 then last
      else
        var rest := Min(v[..|v| - 1]);
        if last < rest then last else rest
  }

  /** The sequences 0, 1, ..., n - 1. */
  function Upto(n: int): (r: set<int>)
    ensures forall s :: s in r <==> 0 <= s < n
    decreases if n < 0 then 0 else n
  {
    if n <= 0 then {} else Upto(n - 1) + {n - 1}
  }

  lemma {:induction false} UptoSize(n: nat)
    ensures |Upto(n)| == n
  {
    if n == 0 {
    } else {
      UptoSize(n - 1);
    }
  }

  lemma {:induction false} SubsetSize<T>(a: set<T>, b: set<T>)
    requires a <= b
    ensures |a| <= |b|
    decreases a
  {
    if a == {} {
    } else {
      var x :| x in a;
      SubsetSize(a - {x}, b - {x});
    }
  }

  // ---------------------------------------------------------------- scanning moving sequences

  /** `h[t][i]` is the value of sequence i at time t; sequences never go back. */
  ghost predicate Rising(h: seq<seq<int>>) {
    forall t, t' :: 0 <= t <= t' < |h| ==> Below(h[t], h[t'])
  }

  ghost predicate Below(u: seq<int>, v: seq<int>) {
    |u| == |v| && forall i :: 0 <= i < |u| ==> u[i] <= v[i]
  }

  /** The times at which a scan loads sequences 0, 1, 2, ... one after the other, with the
      sequences moving in between. */
  ghost predicate ScanTimes(h: seq<seq<int>>, times: seq<nat>) {
    && (forall i :: 0 <= i < |times| ==> times[i] < |h| && |h[times[i]]| == |times|)
    && (forall i, j :: 0 <= i <= j < |times| ==> times[i] <= times[j])
  }

  function Least(a: int, b: int): int {
    if b < a then b else a
  }

  /** `get_minimum_sequence`: one load per sequence, while the others keep moving. The result
      lies between the true minimum when the scan starts and the true minimum when it ends. */
  method GetMinimumSequence(h: seq<seq<int>>, times: seq<nat>) returns (minimum: int)
    requires Rising(h) && ScanTimes(h, times)
    ensures times == [] ==> minimum == I64_MAX
    ensures times != [] ==> Min(h[times[0]]) <= minimum <= Min(h[times[|times| - 1]])
  {
    if times == [] {
      return I64_MAX;
    }
    ghost var first, last := times[0], times[|times| - 1];
    minimum := h[times[0]][0];
    for i := 1 to |times|
      invariant Min(h[first]) <= minimum
      invariant forall j :: 0 <= j < i ==> minimum <= h[last][j]
    {
      assert Below(h[first], h[times[i]]) && Below(h[times[i]], h[last]);
      var value := h[times[i]][i];
      if value < minimum {
        minimum := value;
      }
    }
  }

  /** `get_minimum_sequence_with_default`: the same scan clamped to the producer's position. */
  method GetMinimumSequenceWithDefault(h: seq<seq<int>>, times: seq<nat>, default: int) returns (minimum: int)
    requires Rising(h) && ScanTimes(h, times)
    ensures times == [] ==> minimum == default
    ensures times != [] ==>
              Least(default, Min(h[times[0]])) <= minimum <= Least(default, Min(h[times[|times| - 1]]))
  {
    minimum := default;
    ghost var last := if times == [] then [] else h[times[|times| - 1]];
    for i := 0 to |times|
      invariant minimum <= default
      invariant times != [] ==> Least(default, Min(h[times[0]])) <= minimum
      invariant i == 0 ==> minimum == default
      invariant forall j :: 0 <= j < i ==> minimum <= last[j]
    {
      assert Below(h[times[0]], h[times[i]]) && Below(h[times[i]], last);
      var value := h[times[i]][i];
      if value < minimum {
        minimum := value;
      }
    }
  }
}
