/** Exact-arithmetic helpers over `real` used by both fitting pipelines. */
module Numeric {

  /** Python's builtin `max` over a non-empty list: the largest element. */
  function Max(s: seq<real>): (m: real)
    requires |s| > 0
    ensures forall i :: 0 <= i < |s| ==> s[i] <= m
    ensures exists i :: 0 <= i < |s| && s[i] == m
  {
    if |s| == 1 then s[0]
    else
      var rest := Max(s[1..]);
      assert forall i :: 1 <= i < |s| ==> s[i] == s[1..][i - 1];
      if s[0] >= rest then s[0] else rest
  }

  /** Inner product of two equally long vectors, summed from the front. */
  function Dot(a: seq<real>, b: seq<real>): real
    requires |a| == |b|
  {
    if |a| == 0 then 0.0 else Dot(a[..|a| - 1], b[..|b| - 1]) + a[|a| - 1] * b[|b| - 1]
  }

  /** `np.dot(M, v)` for a matrix given as its rows. */
  function MatVec(m: seq<seq<real>>, v: seq<real>): (r: seq<real>)
    requires forall j :: 0 <= j < |m| ==> |m[j]| == |v|
    ensures |r| == |m|
    ensures forall j :: 0 <= j < |m| ==> r[j] == Dot(m[j], v)
  {
    seq(|m|, j requires 0 <= j < |m| => Dot(m[j], v))
  }
}
