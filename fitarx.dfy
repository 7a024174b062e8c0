/**
 * First-order ARX identification of a multi-input single-output system:
 * construction of the regression matrix, the least-squares solve through a
 * pseudo-inverse, and the forward simulation of the fitted recurrence.
 *
 * Parameter layout: `[b00, b01, b10, b11, ..., bN0, bN1, a1]` - channel `n`
 * owns `p[2n]` (weight of `u[n][k]`) and `p[2n+1]` (weight of `u[n][k-1]`),
 * and `a1` is the last entry.
 */
module FitArx {
  import opened Outcomes
  import opened Numeric

  /** `range(N - 1)` has `N - 1` elements, and none when `N == 0`. */
  function RowCount(n: nat): nat {
    if n == 0 then 0 else n - 1
  }

  /** Every input channel is at least as long as the first one. */
  predicate ChannelsCover(u: seq<seq<real>>)
    requires |u| > 0
  {
    forall n :: 0 <= n < |u| ==> |u[n]| >= |u[0]|
  }

  /**
   * What indexing in `arxfit` demands: `u[0]` exists, and once the regressor
   * loop runs at all (two samples or more) every channel and `y` are long
   * enough for it.
   */
  predicate RegressorShape(u: seq<seq<real>>, y: seq<real>) {
    |u| > 0 && (|u[0]| >= 2 ==> ChannelsCover(u) && |y| >= |u[0]| - 1)
  }

  /** The channel pairs `(u[n][k+1], u[n][k])` of the first `m` channels, in channel order. */
  function ChannelPairs(u: seq<seq<real>>, k: nat, m: nat): (r: seq<real>)
    requires m <= |u|
    requires forall n :: 0 <= n < m ==> k + 1 < |u[n]|
    ensures |r| == 2 * m
    ensures forall n :: 0 <= n < m ==> r[2 * n] == u[n][k + 1] && r[2 * n + 1] == u[n][k]
    decreases m
  {
    if m == 0 then []
    else ChannelPairs(u, k, m - 1) + [u[m - 1][k + 1], u[m - 1][k]]
  }

  /** Regression row `k`: the channel pairs followed by the autoregressive regressor `y[k]`. */
  function RegressionRow(u: seq<seq<real>>, y: seq<real>, k: nat): (r: seq<real>)
    requires forall n :: 0 <= n < |u| ==> k + 1 < |u[n]|
    requires k < |y|
    ensures |r| == 2 * |u| + 1
    ensures forall n :: 0 <= n < |u| ==> r[2 * n] == u[n][k + 1] && r[2 * n + 1] == u[n][k]
    ensures r[2 * |u|] == y[k]
  {
    ChannelPairs(u, k, |u|) + [y[k]]
  }

  /**
   * The nested loops of `arxfit` that build the regression matrix `X`,
   * one row per `k` in `range(len(u[0]) - 1)`.
   */
  method BuildRegressors(u: seq<seq<real>>, y: seq<real>) returns (x: seq<seq<real>>)
    requires RegressorShape(u, y)
    ensures |x| == RowCount(|u[0]|)
    ensures forall k :: 0 <= k < |x| ==> |x[k]| == 2 * |u| + 1
    ensures forall k :: 0 <= k < |x| ==> x[k] == RegressionRow(u, y, k)
  {
    x := [];
    var k := 0;
    while k < RowCount(|u[0]|)
      invariant 0 <= k <= RowCount(|u[0]|)
      invariant |x| == k
      invariant forall j :: 0 <= j < k ==> x[j] == RegressionRow(u, y, j)
    {
      var row: seq<real> := [];
      var n := 0;
      while n < |u|
        invariant 0 <= n <= |u|
        invariant row == ChannelPairs(u, k, n)
      {
        row := row + [u[n][k + 1]];
        row := row + [u[n][k]];
        n := n + 1;
      }
      row := row + [y[k]];
      x := x + [row];
      k := k + 1;
    }
  }

  /** Why `arxfit` produces no parameters. */
  datatype ArxError =
    | EmptyRegression     // `np.linalg.pinv` of an empty matrix (fewer than two samples)
    | DimensionMismatch   // `np.dot` of a pseudo-inverse and a target of another length

  /**
   * What `np.linalg.pinv` returns for a non-empty matrix of `r` rows and `c`
   * columns: a `c` by `r` matrix. Nothing else about the solver is assumed.
   */
  ghost predicate PseudoInverseShape(pinv: seq<seq<real>> -> seq<seq<real>>) {
    forall m: seq<seq<real>> {:trigger pinv(m)} :: |m| > 0 ==>
      |pinv(m)| == |m[0]| && forall j :: 0 <= j < |pinv(m)| ==> |pinv(m)[j]| == |m|
  }

  /**
   * `arxfit`: builds the regression matrix, then returns `pinv(X) . y[1:]`.
   * The result has one entry per unknown, `2 * len(u) + 1`, in the layout above.
   */
  method ArxFit(u: seq<seq<real>>, y: seq<real>, pinv: seq<seq<real>> -> seq<seq<real>>)
    returns (r: Result<seq<real>, ArxError>)
    requires RegressorShape(u, y)
    requires PseudoInverseShape(pinv)
    ensures r.Failure? <==> |u[0]| < 2 || |y| != |u[0]|
    ensures |u[0]| < 2 ==> r == Failure(EmptyRegression)
    ensures r.Success? ==> |r.value| == 2 * |u| + 1
    ensures r.Success? ==> exists x: seq<seq<real>> ::
      |x| == |u[0]| - 1 == |y[1..]| &&
      (forall k :: 0 <= k < |x| ==> x[k] == RegressionRow(u, y, k)) &&
      r.value == MatVec(pinv(x), y[1..])
  {
    var x := BuildRegressors(u, y);
    if |x| == 0 {
      return Failure(EmptyRegression);
    }
    var inv := pinv(x);
    var target := y[1..];
    if |target| != |x| {
      return Failure(DimensionMismatch);
    }
    assert |x[0]| == 2 * |u| + 1;
    r := Success(MatVec(inv, target));
  }

  /**
   * What indexing in `arxgen` demands: `u[0]` exists, and once the simulation
   * loop runs at all (two samples or more) every channel and `p` are long
   * enough for it.
   */
  predicate SimulatorShape(u: seq<seq<real>>, p: seq<real>) {
    |u| > 0 && (|u[0]| >= 2 ==> ChannelsCover(u) && |p| >= 2 * |u|)
  }

  /** The feedback coefficient `a1 = p[len(p) - 1]`. */
  function A1(p: seq<real>): real
    requires |p| > 0
  {
    p[|p| - 1]
  }

  /** `sum over n < m of p[2n] * u[n][k] + p[2n+1] * u[n][k-1]`, accumulated in channel order. */
  function InputSum(u: seq<seq<real>>, p: seq<real>, k: nat, m: nat): real
    requires 1 <= k && m <= |u| && |p| >= 2 * m
    requires forall n :: 0 <= n < m ==> k < |u[n]|
    decreases m
  {
    if m == 0 then 0.0
    else InputSum(u, p, k, m - 1) + (p[2 * (m - 1)] * u[m - 1][k] + p[2 * (m - 1) + 1] * u[m - 1][k - 1])
  }

  /** One more channel in the input sum, kept apart so that the simulator loop does not unfold it itself. */
  lemma InputSumStep(u: seq<seq<real>>, p: seq<real>, k: nat, n: nat, before: real, after: real)
    requires 1 <= k && n < |u| && |p| >= 2 * (n + 1)
    requires forall j :: 0 <= j <= n ==> k < |u[j]|
    requires after == before + (p[n * 2] * u[n][k] + p[n * 2 + 1] * u[n][k - 1])
    ensures after - InputSum(u, p, k, n + 1) == before - InputSum(u, p, k, n)
  {
  }

  /**
   * Reference definition of the simulated output at step `k`:
   * `y[0] = y0` and `y[k] = a1 * y[k-1] + y0 + sum of the channel terms`.
   */
  function Simulated(u: seq<seq<real>>, p: seq<real>, y0: real, k: nat): real
    requires SimulatorShape(u, p) && k < |u[0]|
    decreases k
  {
    if k == 0 then y0
    else A1(p) * Simulated(u, p, y0, k - 1) + y0 + InputSum(u, p, k, |u|)
  }

  /** One unfolding of the recurrence, kept apart so that the simulator loop does not unfold it itself. */
  lemma SimulatedStep(u: seq<seq<real>>, p: seq<real>, y0: real, k: nat, prev: real, v: real)
    requires SimulatorShape(u, p) && 1 <= k < |u[0]|
    requires prev == Simulated(u, p, y0, k - 1)
    ensures v == Simulated(u, p, y0, k) <==> v == A1(p) * prev + y0 + InputSum(u, p, k, |u|)
  {
  }

  /**
   * The inner loop of `arxgen`: `y[k] += p[2n] * u[n][k] + p[2n+1] * u[n][k-1]`
   * for every channel `n` in order; no other slot of the buffer changes.
   */
  method AddChannelTerms(buf: array<real>, u: seq<seq<real>>, p: seq<real>, k: nat)
    requires SimulatorShape(u, p) && 1 <= k < |u[0]| && k < buf.Length
    modifies buf
    ensures buf[k] == old(buf[k]) + InputSum(u, p, k, |u|)
    ensures forall j :: 0 <= j < buf.Length && j != k ==> buf[j] == old(buf[j])
  {
    var n := 0;
    while n < |u|
      invariant 0 <= n <= |u|
      invariant forall j :: 0 <= j < buf.Length && j != k ==> buf[j] == old(buf[j])
      invariant buf[k] == old(buf[k]) + InputSum(u, p, k, n)
    {
      var i := n * 2;
      ghost var before := buf[k];
      buf[k] := buf[k] + (p[i] * u[n][k] + p[i + 1] * u[n][k - 1]);
      InputSumStep(u, p, k, n, before, buf[k]);
      n := n + 1;
    }
  }

  /**
   * One step of `arxgen`'s outer loop: `y[k] = a1 * y[k-1] + y[0]`, then the
   * channel terms; with the earlier slots already simulated, slot `k` then
   * holds the simulated output and no other slot changes.
   */
  method StepSimulation(buf: array<real>, u: seq<seq<real>>, p: seq<real>, y0: real, k: nat)
    requires SimulatorShape(u, p) && 1 <= k < |u[0]| && k < buf.Length
    requires buf[0] == y0 && buf[k - 1] == Simulated(u, p, y0, k - 1)
    modifies buf
    ensures buf[k] == Simulated(u, p, y0, k)
    ensures forall j :: 0 <= j < buf.Length && j != k ==> buf[j] == old(buf[j])
  {
    var prev := buf[k - 1];
    buf[k] := A1(p) * prev + buf[0];
    AddChannelTerms(buf, u, p, k);
    SimulatedStep(u, p, y0, k, prev, buf[k]);
  }

  /** A sequence that agrees with `Simulated` everywhere starts at `y0` and follows the recurrence. */
  lemma SimulatedRecurrence(u: seq<seq<real>>, p: seq<real>, y0: real, out: seq<real>)
    requires SimulatorShape(u, p) && |out| == |u[0]|
    requires forall k :: 0 <= k < |out| ==> out[k] == Simulated(u, p, y0, k)
    ensures |out| > 0 ==> out[0] == y0
    ensures forall k :: 1 <= k < |out| ==>
      out[k] == A1(p) * out[k - 1] + y0 + InputSum(u, p, k, |u|)
  {
    forall k | 1 <= k < |out|
      ensures out[k] == A1(p) * out[k - 1] + y0 + InputSum(u, p, k, |u|)
    {
      SimulatedStep(u, p, y0, k, out[k - 1], out[k]);
    }
  }

  /**
   * The outer loop of `arxgen` over a buffer of `N + 1` slots whose slot 0
   * holds `y0`: afterwards slots `0 .. N-1` hold the simulated outputs.
   */
  method Simulate(buf: array<real>, u: seq<seq<real>>, p: seq<real>, y0: real)
    requires SimulatorShape(u, p) && buf.Length == |u[0]| + 1 && buf[0] == y0
    modifies buf
    ensures forall j :: 0 <= j < |u[0]| ==> buf[j] == Simulated(u, p, y0, j)
  {
    var len := |u[0]|;
    var k := 1;
    while k < len
      invariant 1 <= k && (len > 0 ==> k <= len)
      invariant buf[0] == y0
      invariant forall j :: 0 <= j < k && j < len ==> buf[j] == Simulated(u, p, y0, j)
    {
      StepSimulation(buf, u, p, y0, k);
      k := k + 1;
    }
  }

  /**
   * `arxgen`: runs the recurrence into a preallocated buffer of `N + 1`
   * slots and returns all but the last, never-written slot, so the output
   * has exactly `N = len(u[0])` samples.
   */
  method ArxGen(u: seq<seq<real>>, p: seq<real>, y0: real) returns (out: seq<real>)
    requires SimulatorShape(u, p)
    ensures |out| == |u[0]|
    ensures |out| > 0 ==> out[0] == y0
    ensures forall k :: 1 <= k < |out| ==>
      out[k] == A1(p) * out[k - 1] + y0 + InputSum(u, p, k, |u|)
    ensures forall k :: 0 <= k < |out| ==> out[k] == Simulated(u, p, y0, k)
  {
    var len := |u[0]|;
    var buf := new real[len + 1];
    buf[0] := y0;
    Simulate(buf, u, p, y0);
    out := buf[..len];
    SimulatedRecurrence(u, p, y0, out);
  }

  /** `Dot` splits over a concatenation of equally split vectors. */
  lemma {:induction false} DotAppend(a: seq<real>, b: seq<real>, c: seq<real>, d: seq<real>)
    requires |a| == |c| && |b| == |d|
    ensures Dot(a + b, c + d) == Dot(a, c) + Dot(b, d)
    decreases |b|
  {
    if |b| == 0 {
      assert a + b == a && c + d == c;
    } else {
      var b', d' := b[..|b| - 1], d[..|d| - 1];
      assert (a + b)[..|a + b| - 1] == a + b';
      assert (c + d)[..|c + d| - 1] == c + d';
      DotAppend(a, b', c, d');
    }
  }

  /** `Dot` of two-element vectors. */
  lemma DotPair(a: real, b: real, c: real, d: real)
    ensures Dot([a, b], [c, d]) == a * c + b * d
  {
    assert [a, b][..1] == [a] && [c, d][..1] == [c];
    assert [a][..0] == [] && [c][..0] == [];
    assert Dot([a], [c]) == a * c;
  }

  /** The channel part of a regression row, weighted by the `b` coefficients, is the simulator's input sum. */
  lemma {:induction false} PairsWeightedByB(u: seq<seq<real>>, p: seq<real>, k: nat, m: nat)
    requires 1 <= k && m <= |u| && |p| >= 2 * m
    requires forall n :: 0 <= n < m ==> k < |u[n]|
    ensures Dot(p[..2 * m], ChannelPairs(u, k - 1, m)) == InputSum(u, p, k, m)
    decreases m
  {
    if m > 0 {
      var n := m - 1;
      PairsWeightedByB(u, p, k, n);
      var b0, b1 := p[2 * n], p[2 * n + 1];
      var cur, last := u[n][k], u[n][k - 1];
      assert p[..2 * m] == p[..2 * n] + [b0, b1];
      DotAppend(p[..2 * n], [b0, b1], ChannelPairs(u, k - 1, n), [cur, last]);
      DotPair(b0, b1, cur, last);
    }
  }

  /**
   * The simulator and the regression agree: with a full parameter vector,
   * every simulated step `k >= 1` is the inner product of the parameters
   * with regression row `k - 1` built over the simulated output, plus the
   * offset `y0` that `arxgen` adds at every step (and `arxfit` does not fit).
   */
  lemma SimulatorStepIsRegressionRow(u: seq<seq<real>>, p: seq<real>, y0: real, out: seq<real>, k: nat)
    requires SimulatorShape(u, p) && |p| == 2 * |u| + 1
    requires |out| == |u[0]| && forall j :: 0 <= j < |out| ==> out[j] == Simulated(u, p, y0, j)
    requires 1 <= k < |out|
    ensures out[k] == Dot(p, RegressionRow(u, out, k - 1)) + y0
  {
    var m := |u|;
    assert p == p[..2 * m] + [p[2 * m]];
    DotAppend(p[..2 * m], [p[2 * m]], ChannelPairs(u, k - 1, m), [out[k - 1]]);
    PairsWeightedByB(u, p, k, m);
    assert [p[2 * m]][..0] == [] && [out[k - 1]][..0] == [];
  }
}
