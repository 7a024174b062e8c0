/**
 * PT1 / PT2 step-response identification: the closed-form model responses,
 * their sampled generators, the offset-removal / max-normalisation skeleton
 * around the nonlinear least-squares solver, and the segmenter that cuts the
 * data table into the index ranges of an events table.
 *
 * `exp` stands for `np.exp` and `curveFit` for `scipy.optimize.curve_fit`;
 * both are parameters, and nothing is assumed about them beyond what a lemma
 * states in its own `requires`.
 */
module FitPt {
  import opened Outcomes
  import opened Numeric
  import opened CsvUtil

  // ---------------------------------------------------------------- models

  /** The two step-response models the solver can be handed. */
  datatype PtModel = PT1 | PT2

  /** `pt1(t, K, T) = K * (1 - exp(-t / T))`. */
  function Pt1(exp: real -> real, t: real, gain: real, tc: real): real
    requires tc != 0.0
  {
    gain * (1.0 - exp(-t / tc))
  }

  /** `pt2(t, K, T) = K * (1 - exp(-t / T) - (t / T) * exp(-t / T))`, critically damped. */
  function Pt2(exp: real -> real, t: real, gain: real, tc: real): real
    requires tc != 0.0
  {
    gain * (1.0 - exp(-t / tc) - (t / tc) * exp(-t / tc))
  }

  /** The response of the chosen model. */
  function Response(model: PtModel, exp: real -> real, t: real, gain: real, tc: real): real
    requires tc != 0.0
  {
    match model
    case PT1 => Pt1(exp, t, gain, tc)
    case PT2 => Pt2(exp, t, gain, tc)
  }

  /** `pt1gen` / `pt2gen`: the model sampled at every time of `ts`, plus the offset `y0`. */
  function PtGen(model: PtModel, exp: real -> real, ts: seq<real>, gain: real, tc: real, y0: real): (r: seq<real>)
    requires tc != 0.0
  {
    seq(|ts|, i requires 0 <= i < |ts| => Response(model, exp, ts[i], gain, tc) + y0)
  }

  /**
   * Both responses start from rest: wherever a sample time is 0 the generated
   * value is the offset `y0` (given `exp(0) = 1`).
   */
  lemma PtGenStartsAtOffset(model: PtModel, exp: real -> real, ts: seq<real>, gain: real, tc: real, y0: real, i: nat)
    requires tc != 0.0 && exp(0.0) == 1.0
    requires i < |ts| && ts[i] == 0.0
    ensures |PtGen(model, exp, ts, gain, tc, y0)| == |ts|
    ensures PtGen(model, exp, ts, gain, tc, y0)[i] == y0
  {
    assert -ts[i] / tc == 0.0;
  }

  /** The unit-gain response as a function of the normalised time `q = t / T`. */
  function Shape(model: PtModel, exp: real -> real, q: real): real {
    match model
    case PT1 => 1.0 - exp(-q)
    case PT2 => 1.0 - exp(-q) - q * exp(-q)
  }

  /** Both responses are the gain times a shape that depends on `t` and `T` only through `t / T`. */
  lemma ResponseByShape(model: PtModel, exp: real -> real, t: real, gain: real, tc: real)
    requires tc != 0.0
    ensures Response(model, exp, t, gain, tc) == gain * Shape(model, exp, t / tc)
  {
    assert -t / tc == -(t / tc);
  }

  /** Scaling a time and a time-constant by the same non-zero factor keeps their quotient. */
  lemma QuotientScales(t: real, tn: real, tc: real, tScale: real)
    requires tc != 0.0 && tScale != 0.0 && t == tScale * tn
    ensures tScale * tc != 0.0
    ensures t / (tScale * tc) == tn / tc
  {
    assert t == (tn / tc) * (tScale * tc);
  }

  /**
   * Scaling time and time-constant by the same factor leaves the response
   * unchanged, and the gain scales the response linearly. This is why
   * denormalising the solver's result is exact.
   */
  lemma ResponseScales(model: PtModel, exp: real -> real, t: real, tn: real, gain: real, tc: real, tScale: real, yScale: real)
    requires tc != 0.0 && tScale != 0.0 && t == tScale * tn
    ensures tScale * tc != 0.0
    ensures Response(model, exp, t, yScale * gain, tScale * tc) == yScale * Response(model, exp, tn, gain, tc)
  {
    QuotientScales(t, tn, tc, tScale);
    ResponseByShape(model, exp, tn, gain, tc);
    ResponseByShape(model, exp, t, yScale * gain, tScale * tc);
  }

  // ---------------------------------------------------------------- fit skeleton

  /** A fitted gain `K` and time-constant `T`. */
  datatype PtParams = PtParams(gain: real, tc: real)

  /** Why `pt1fit` / `pt2fit` produce no parameters. */
  datatype FitError =
    | LengthMismatch   // `len(t) != len(y)`: the function returns `None`
    | NoSamples        // empty arrays: the solver rejects them, and `max` of an empty list raises
    | ZeroRange        // a zero maximum: the normalisation divides by zero

  /** `[n - c for n in s]`. */
  function Shift(s: seq<real>, c: real): (r: seq<real>)
    ensures |r| == |s|
    ensures forall i :: 0 <= i < |s| ==> r[i] + c == s[i]
  {
    seq(|s|, i requires 0 <= i < |s| => s[i] - c)
  }

  /** `[n - s[0] for n in s]`; the comprehension never reads `s[0]` of an empty list. */
  function ShiftByFirst(s: seq<real>): (r: seq<real>)
    ensures |r| == |s|
    ensures |s| > 0 ==> r[0] == 0.0 && forall i :: 0 <= i < |s| ==> r[i] + s[0] == s[i]
  {
    if |s| == 0 then [] else Shift(s, s[0])
  }

  /** `[n / m for n in s]`. */
  function Scale(s: seq<real>, m: real): (r: seq<real>)
    requires m != 0.0
    ensures |r| == |s|
  {
    seq(|s|, i requires 0 <= i < |s| => s[i] / m)
  }

  /** The arrays around the solver call: shifted data, their maxima and the normalised data. */
  datatype Normalised = Normalised(
    tShift: seq<real>, yShift: seq<real>,
    tMax: real, yMax: real,
    tNorm: seq<real>, yNorm: seq<real>)

  /** `t_norm = [n / max(t) for n in t]`, then the same for `y`, on already shifted arrays. */
  function Normalise(ts: seq<real>, ys: seq<real>): (r: Result<Normalised, FitError>)
    requires |ts| == |ys|
    ensures r.Success? <==> |ts| > 0 && Max(ts) != 0.0 && Max(ys) != 0.0
    ensures |ts| == 0 ==> r == Failure(NoSamples)
    ensures r.Success? ==>
      r.value.tShift == ts && r.value.yShift == ys &&
      r.value.tMax == Max(ts) && r.value.yMax == Max(ys) &&
      r.value.tNorm == Scale(ts, Max(ts)) && r.value.yNorm == Scale(ys, Max(ys))
  {
    if |ts| == 0 then Failure(NoSamples)
    else
      var tMax := Max(ts);
      if tMax == 0.0 then Failure(ZeroRange)
      else
        var yMax := Max(ys);
        if yMax == 0.0 then Failure(ZeroRange)
        else Success(Normalised(ts, ys, tMax, yMax, Scale(ts, tMax), Scale(ys, yMax)))
  }

  /** The length guard, then both offsets removed: what `pt1fit` does before solving. */
  function PrepareShifted(t: seq<real>, y: seq<real>): (r: Result<Normalised, FitError>)
    ensures r == Failure(LengthMismatch) <==> |t| != |y|
  {
    if |t| != |y| then Failure(LengthMismatch)
    else Normalise(ShiftByFirst(t), ShiftByFirst(y))
  }

  /**
   * What `pt2fit` does before solving: the length guard, the time shift, and
   * then `y = [n - t[0] for n in y]` with the already shifted `t`.
   */
  function PreparePt2AsWritten(t: seq<real>, y: seq<real>): (r: Result<Normalised, FitError>)
    ensures r == Failure(LengthMismatch) <==> |t| != |y|
  {
    if |t| != |y| then Failure(LengthMismatch)
    else
      var ts := ShiftByFirst(t);
      var ys := if |y| == 0 then [] else Shift(y, ts[0]);
      Normalise(ts, ys)
  }

  /** `K_opt = max(y) * popt[0]`, `T_opt = max(t) * popt[1]`, with the shifted arrays' maxima. */
  function Denormalise(n: Normalised, popt: PtParams): PtParams {
    PtParams(n.yMax * popt.gain, n.tMax * popt.tc)
  }

  /** Hands the normalised arrays to the solver, starting from `(Kg, Tg)`, and denormalises its answer. */
  function Solve(
    prepared: Result<Normalised, FitError>, model: PtModel,
    curveFit: (PtModel, seq<real>, seq<real>, real, real) -> PtParams,
    kGuess: real, tGuess: real): (r: Result<PtParams, FitError>)
    ensures r.Failure? <==> prepared.Failure?
    ensures r.Failure? ==> r.error == prepared.error
  {
    match prepared
    case Failure(e) => Failure(e)
    case Success(n) => Success(Denormalise(n, curveFit(model, n.tNorm, n.yNorm, kGuess, tGuess)))
  }

  /** `pt1fit`. */
  function Pt1Fit(
    curveFit: (PtModel, seq<real>, seq<real>, real, real) -> PtParams,
    t: seq<real>, y: seq<real>, kGuess: real, tGuess: real): (r: Result<PtParams, FitError>)
    ensures r == Failure(LengthMismatch) <==> |t| != |y|
    ensures |t| == |y| == 0 ==> r == Failure(NoSamples)
    ensures r.Success? <==>
      |t| == |y| > 0 && Max(ShiftByFirst(t)) != 0.0 && Max(ShiftByFirst(y)) != 0.0
  {
    Solve(PrepareShifted(t, y), PT1, curveFit, kGuess, tGuess)
  }

  /**
   * `pt2fit` as written: the output offset is never removed, so it is the
   * maximum of `y` itself, not of the shifted `y`, that must be non-zero.
   */
  function Pt2Fit(
    curveFit: (PtModel, seq<real>, seq<real>, real, real) -> PtParams,
    t: seq<real>, y: seq<real>, kGuess: real, tGuess: real): (r: Result<PtParams, FitError>)
    ensures r == Failure(LengthMismatch) <==> |t| != |y|
    ensures |t| == |y| == 0 ==> r == Failure(NoSamples)
    ensures r.Success? <==> |t| == |y| > 0 && Max(ShiftByFirst(t)) != 0.0 && Max(y) != 0.0
  {
    Solve(PreparePt2AsWritten(t, y), PT2, curveFit, kGuess, tGuess)
  }

  /** `pt2fit` with the output shifted by its own first sample, as `pt1fit` does. */
  function Pt2FitCorrected(
    curveFit: (PtModel, seq<real>, seq<real>, real, real) -> PtParams,
    t: seq<real>, y: seq<real>, kGuess: real, tGuess: real): (r: Result<PtParams, FitError>)
    ensures r == Failure(LengthMismatch) <==> |t| != |y|
    ensures |t| == |y| == 0 ==> r == Failure(NoSamples)
    ensures r.Success? <==>
      |t| == |y| > 0 && Max(ShiftByFirst(t)) != 0.0 && Max(ShiftByFirst(y)) != 0.0
  {
    Solve(PrepareShifted(t, y), PT2, curveFit, kGuess, tGuess)
  }

  /** Dividing by a non-zero `m` and multiplying back restores the value. */
  lemma DivRestores(v: real, m: real)
    requires m != 0.0
    ensures m * (v / m) == v
  {
  }

  /** `v / m` for the maximum `m > 0` of a sequence is at most 1, and exactly 1 at the maximum. */
  lemma ScaledByPositiveMax(v: real, m: real)
    requires m > 0.0 && v <= m
    ensures v / m <= 1.0
    ensures v == m ==> v / m == 1.0
  {
  }

  /** A value that bounds a sequence and occurs in it is its maximum. */
  lemma MaxIs(s: seq<real>, v: real, k: nat)
    requires k < |s| && s[k] == v
    requires forall i :: 0 <= i < |s| ==> s[i] <= v
    ensures Max(s) == v
  {
  }

  /** Dividing a sequence bounded by `m > 0` by `m` bounds it by 1. */
  lemma ScaledBounded(s: seq<real>, m: real)
    requires m > 0.0 && forall i :: 0 <= i < |s| ==> s[i] <= m
    ensures forall i :: 0 <= i < |s| ==> Scale(s, m)[i] <= 1.0
  {
    forall i | 0 <= i < |s| ensures Scale(s, m)[i] <= 1.0 {
      ScaledByPositiveMax(s[i], m);
    }
  }

  /** A sequence that starts at 0 and whose maximum is not 0 is normalised into a peak of exactly 1. */
  lemma NormalisedPeak(s: seq<real>, m: real)
    requires |s| > 0 && s[0] == 0.0 && m == Max(s) && m != 0.0
    ensures m > 0.0
    ensures Scale(s, m)[0] == 0.0 && Max(Scale(s, m)) == 1.0
  {
    assert s[0] <= m;
    ScaledFirst(s, m);
    ScaledBounded(s, m);
    var k :| 0 <= k < |s| && s[k] == m;
    assert Scale(s, m)[k] == 1.0 by {
      ScaledByPositiveMax(s[k], m);
    }
    MaxIs(Scale(s, m), 1.0, k);
  }

  /**
   * Whenever `pt1fit` reaches the solver, it hands over time and output arrays
   * that both start at 0 and peak at exactly 1, and both maxima are positive.
   */
  lemma PreparedIsUnitRange(t: seq<real>, y: seq<real>)
    requires PrepareShifted(t, y).Success?
    ensures var n := PrepareShifted(t, y).value;
      n.tMax > 0.0 && n.yMax > 0.0 &&
      n.tNorm[0] == 0.0 && n.yNorm[0] == 0.0 &&
      Max(n.tNorm) == 1.0 && Max(n.yNorm) == 1.0
  {
    var n := PrepareShifted(t, y).value;
    NormalisedPeak(n.tShift, n.tMax);
    NormalisedPeak(n.yShift, n.yMax);
  }

  /**
   * Multiplying equal values by the same factor gives equal products. A proof
   * step only: the solver does not always carry an equality into a product.
   */
  lemma MulLeft(a: real, b: real, c: real)
    requires b == c
    ensures a * b == a * c
  {
  }

  /** Entry `i` of `Scale(s, m)`, multiplied back by `m`, is `s[i]`. */
  lemma ScaledEntry(s: seq<real>, m: real, i: nat)
    requires m != 0.0 && i < |s|
    ensures m * Scale(s, m)[i] == s[i]
  {
    DivRestores(s[i], m);
  }

  /**
   * A sample that the solver's parameters reproduce after normalisation is
   * reproduced, before normalisation, by the parameters scaled back.
   */
  lemma ScaledSampleFits(model: PtModel, exp: real -> real, t: real, tn: real, y: real, yn: real,
                         tMax: real, yMax: real, popt: PtParams)
    requires tMax != 0.0 && popt.tc != 0.0
    requires t == tMax * tn && y == yMax * yn
    requires Response(model, exp, tn, popt.gain, popt.tc) == yn
    ensures tMax * popt.tc != 0.0
    ensures Response(model, exp, t, yMax * popt.gain, tMax * popt.tc) == y
  {
    ResponseScales(model, exp, t, tn, popt.gain, popt.tc, tMax, yMax);
    MulLeft(yMax, Response(model, exp, tn, popt.gain, popt.tc), yn);
  }

  /**
   * `Denormalise` with its maxima bound to plain names. A proof step only:
   * it lets the callers reason about products of plain reals.
   */
  lemma DenormaliseIs(n: Normalised, popt: PtParams, tMax: real, yMax: real)
    requires tMax == n.tMax && yMax == n.yMax
    ensures Denormalise(n, popt) == PtParams(yMax * popt.gain, tMax * popt.tc)
  {
  }

  /** `ScaledSampleFits` for one sample of a normalisation `n`. */
  lemma DenormalisedSample(model: PtModel, exp: real -> real, t: real, tn: real, y: real, yn: real,
                           n: Normalised, popt: PtParams)
    requires n.tMax != 0.0 && popt.tc != 0.0
    requires t == n.tMax * tn && y == n.yMax * yn
    requires Response(model, exp, tn, popt.gain, popt.tc) == yn
    ensures Denormalise(n, popt).tc != 0.0
    ensures Response(model, exp, t, Denormalise(n, popt).gain, Denormalise(n, popt).tc) == y
  {
    var tMax, yMax := n.tMax, n.yMax;
    ScaledSampleFits(model, exp, t, tn, y, yn, tMax, yMax, popt);
    DenormaliseIs(n, popt, tMax, yMax);
  }

  /**
   * The denormalised parameters reproduce the shifted data exactly whenever
   * the solver's parameters reproduce the normalised data exactly.
   */
  lemma DenormaliseReproduces(model: PtModel, exp: real -> real, n: Normalised, popt: PtParams)
    requires n.tMax != 0.0 && n.yMax != 0.0 && popt.tc != 0.0
    requires |n.tShift| == |n.yShift|
    requires n.tNorm == Scale(n.tShift, n.tMax) && n.yNorm == Scale(n.yShift, n.yMax)
    requires PtGen(model, exp, n.tNorm, popt.gain, popt.tc, 0.0) == n.yNorm
    ensures Denormalise(n, popt).tc != 0.0
    ensures PtGen(model, exp, n.tShift, Denormalise(n, popt).gain, Denormalise(n, popt).tc, 0.0) == n.yShift
  {
    var fitted := Denormalise(n, popt);
    ResponseScales(model, exp, 0.0, 0.0, popt.gain, popt.tc, n.tMax, n.yMax);
    var gen := PtGen(model, exp, n.tShift, fitted.gain, fitted.tc, 0.0);
    forall i | 0 <= i < |n.tShift| ensures gen[i] == n.yShift[i] {
      assert PtGen(model, exp, n.tNorm, popt.gain, popt.tc, 0.0)[i] == n.yNorm[i];
      ScaledEntry(n.tShift, n.tMax, i);
      ScaledEntry(n.yShift, n.yMax, i);
      DenormalisedSample(model, exp, n.tShift[i], n.tNorm[i], n.yShift[i], n.yNorm[i], n, popt);
    }
  }

  /**
   * Round trip of `pt1fit` on exact data: if the solver's answer reproduces the
   * normalised samples, then `pt1gen` with the fitted `(K_opt, T_opt)`, sampled
   * at the shifted times and offset by `y[0]`, gives back `y` itself.
   */
  lemma Pt1FitReproducesExactData(
    exp: real -> real, curveFit: (PtModel, seq<real>, seq<real>, real, real) -> PtParams,
    t: seq<real>, y: seq<real>, kGuess: real, tGuess: real)
    requires PrepareShifted(t, y).Success?
    requires var n := PrepareShifted(t, y).value;
      var popt := curveFit(PT1, n.tNorm, n.yNorm, kGuess, tGuess);
      popt.tc != 0.0 && PtGen(PT1, exp, n.tNorm, popt.gain, popt.tc, 0.0) == n.yNorm
    ensures Pt1Fit(curveFit, t, y, kGuess, tGuess).Success?
    ensures var r := Pt1Fit(curveFit, t, y, kGuess, tGuess).value;
      r.tc != 0.0 && PtGen(PT1, exp, ShiftByFirst(t), r.gain, r.tc, y[0]) == y
  {
    var n := PrepareShifted(t, y).value;
    DenormaliseReproduces(PT1, exp, n, curveFit(PT1, n.tNorm, n.yNorm, kGuess, tGuess));
    assert n.tShift == ShiftByFirst(t) && n.yShift == ShiftByFirst(y);
    OffsetRestores(PT1, exp, t, y, Pt1Fit(curveFit, t, y, kGuess, tGuess).value);
  }

  /** The corrected `pt2fit` satisfies the same round trip as `pt1fit`. */
  lemma Pt2FitCorrectedReproducesExactData(
    exp: real -> real, curveFit: (PtModel, seq<real>, seq<real>, real, real) -> PtParams,
    t: seq<real>, y: seq<real>, kGuess: real, tGuess: real)
    requires PrepareShifted(t, y).Success?
    requires var n := PrepareShifted(t, y).value;
      var popt := curveFit(PT2, n.tNorm, n.yNorm, kGuess, tGuess);
      popt.tc != 0.0 && PtGen(PT2, exp, n.tNorm, popt.gain, popt.tc, 0.0) == n.yNorm
    ensures Pt2FitCorrected(curveFit, t, y, kGuess, tGuess).Success?
    ensures var r := Pt2FitCorrected(curveFit, t, y, kGuess, tGuess).value;
      r.tc != 0.0 && PtGen(PT2, exp, ShiftByFirst(t), r.gain, r.tc, y[0]) == y
  {
    var n := PrepareShifted(t, y).value;
    DenormaliseReproduces(PT2, exp, n, curveFit(PT2, n.tNorm, n.yNorm, kGuess, tGuess));
    assert n.tShift == ShiftByFirst(t) && n.yShift == ShiftByFirst(y);
    OffsetRestores(PT2, exp, t, y, Pt2FitCorrected(curveFit, t, y, kGuess, tGuess).value);
  }

  /** Adding back `y[0]` to a reproduction of the shifted output gives the original output. */
  lemma OffsetRestores(model: PtModel, exp: real -> real, t: seq<real>, y: seq<real>, fitted: PtParams)
    requires |t| == |y| > 0 && fitted.tc != 0.0
    requires PtGen(model, exp, ShiftByFirst(t), fitted.gain, fitted.tc, 0.0) == ShiftByFirst(y)
    ensures PtGen(model, exp, ShiftByFirst(t), fitted.gain, fitted.tc, y[0]) == y
  {
    var ts, ys := ShiftByFirst(t), ShiftByFirst(y);
    var gen := PtGen(model, exp, ts, fitted.gain, fitted.tc, y[0]);
    forall i | 0 <= i < |y| ensures gen[i] == y[i] {
      assert PtGen(model, exp, ts, fitted.gain, fitted.tc, 0.0)[i] == ys[i];
    }
  }

  /**
   * One sample of exact PT data, divided by the maxima: the normalised sample
   * is fitted by the gain divided by the output maximum and the
   * time-constant divided by the time maximum.
   */
  lemma NormalisedSampleFits(model: PtModel, exp: real -> real, t: real, tn: real, y: real, yn: real,
                             gain: real, tc: real, tMax: real, yMax: real)
    requires tc != 0.0 && tMax != 0.0 && yMax != 0.0
    requires t == tMax * tn && y == yMax * yn
    requires Response(model, exp, t, gain, tc) == y
    ensures tc / tMax != 0.0
    ensures Response(model, exp, tn, gain / yMax, tc / tMax) == yn
  {
    var g, tcn := gain / yMax, tc / tMax;
    assert yMax * g == gain && tMax * tcn == tc;
    ResponseScales(model, exp, t, tn, g, tcn, tMax, yMax);
    var r := Response(model, exp, tn, g, tcn);
    assert yMax * r == yMax * yn;
    assert r == (yMax * r) / yMax && yn == (yMax * yn) / yMax;
  }

  /** Removing the first output of exact PT data removes its offset `y0`. */
  lemma ExactDataShifts(model: PtModel, exp: real -> real, t: seq<real>, y: seq<real>,
                        gain: real, tc: real, y0: real)
    requires tc != 0.0 && exp(0.0) == 1.0 && |t| > 0
    requires y == PtGen(model, exp, ShiftByFirst(t), gain, tc, y0)
    ensures ShiftByFirst(y) == PtGen(model, exp, ShiftByFirst(t), gain, tc, 0.0)
  {
    var ts := ShiftByFirst(t);
    PtGenStartsAtOffset(model, exp, ts, gain, tc, y0, 0);
    var ys, gen := ShiftByFirst(y), PtGen(model, exp, ts, gain, tc, 0.0);
    forall i | 0 <= i < |ts| ensures ys[i] == gen[i] {
      assert ys[i] + y[0] == y[i];
    }
  }

  /**
   * Exact PT data of the shifted arrays stay exact after the division by the
   * maxima, with gain `K / max(y')` and time-constant `T / max(t')`.
   */
  lemma NormaliseKeepsExact(model: PtModel, exp: real -> real, n: Normalised, gain: real, tc: real)
    requires n.tMax != 0.0 && n.yMax != 0.0 && tc != 0.0
    requires |n.tShift| == |n.yShift|
    requires n.tNorm == Scale(n.tShift, n.tMax) && n.yNorm == Scale(n.yShift, n.yMax)
    requires n.yShift == PtGen(model, exp, n.tShift, gain, tc, 0.0)
    ensures tc / n.tMax != 0.0
    ensures PtGen(model, exp, n.tNorm, gain / n.yMax, tc / n.tMax, 0.0) == n.yNorm
  {
    var tMax, yMax := n.tMax, n.yMax;
    DivRestores(tc, tMax);
    var gen := PtGen(model, exp, n.tNorm, gain / yMax, tc / tMax, 0.0);
    forall i | 0 <= i < |n.tNorm| ensures gen[i] == n.yNorm[i] {
      ScaledEntry(n.tShift, tMax, i);
      ScaledEntry(n.yShift, yMax, i);
      NormalisedSampleFits(model, exp, n.tShift[i], n.tNorm[i], n.yShift[i], n.yNorm[i], gain, tc, tMax, yMax);
    }
  }

  /** Denormalising the scaled-down parameters gives back the parameters. */
  lemma DenormaliseUndoesScale(n: Normalised, gain: real, tc: real)
    requires n.tMax != 0.0 && n.yMax != 0.0
    ensures Denormalise(n, PtParams(gain / n.yMax, tc / n.tMax)) == PtParams(gain, tc)
  {
    var tMax, yMax := n.tMax, n.yMax;
    DenormaliseIs(n, PtParams(gain / yMax, tc / tMax), tMax, yMax);
    DivRestores(gain, yMax);
    DivRestores(tc, tMax);
  }

  /**
   * Exact PT data stay exact PT data through the preparation of `pt1fit`:
   * samples `y = ptgen(t - t[0], K, T) + y0` normalise to samples of the same
   * model with gain `K / max(y')` and time-constant `T / max(t')`, and
   * denormalising those gives back `(K, T)`.
   */
  lemma ExactDataNormalises(model: PtModel, exp: real -> real, t: seq<real>, y: seq<real>,
                            gain: real, tc: real, y0: real)
    requires tc != 0.0 && exp(0.0) == 1.0
    requires y == PtGen(model, exp, ShiftByFirst(t), gain, tc, y0)
    requires PrepareShifted(t, y).Success?
    ensures var n := PrepareShifted(t, y).value;
      tc / n.tMax != 0.0 &&
      PtGen(model, exp, n.tNorm, gain / n.yMax, tc / n.tMax, 0.0) == n.yNorm &&
      Denormalise(n, PtParams(gain / n.yMax, tc / n.tMax)) == PtParams(gain, tc)
  {
    var n := PrepareShifted(t, y).value;
    ExactDataShifts(model, exp, t, y, gain, tc, y0);
    NormaliseKeepsExact(model, exp, n, gain, tc);
    DenormaliseUndoesScale(n, gain, tc);
  }

  /**
   * Fitting exact PT data recovers the parameters: when the solver finds the
   * exact fit of the normalised samples, `pt1fit` (and the corrected
   * `pt2fit`) return the `(K, T)` the data were generated with.
   */
  lemma ExactDataRecoversParameters(
    model: PtModel, exp: real -> real, curveFit: (PtModel, seq<real>, seq<real>, real, real) -> PtParams,
    t: seq<real>, y: seq<real>, gain: real, tc: real, y0: real, kGuess: real, tGuess: real)
    requires tc != 0.0 && exp(0.0) == 1.0
    requires y == PtGen(model, exp, ShiftByFirst(t), gain, tc, y0)
    requires PrepareShifted(t, y).Success?
    requires var n := PrepareShifted(t, y).value;
      curveFit(model, n.tNorm, n.yNorm, kGuess, tGuess) == PtParams(gain / n.yMax, tc / n.tMax)
    ensures Solve(PrepareShifted(t, y), model, curveFit, kGuess, tGuess) == Success(PtParams(gain, tc))
    ensures model == PT1 ==> Pt1Fit(curveFit, t, y, kGuess, tGuess) == Success(PtParams(gain, tc))
    ensures model == PT2 ==> Pt2FitCorrected(curveFit, t, y, kGuess, tGuess) == Success(PtParams(gain, tc))
  {
    ExactDataNormalises(model, exp, t, y, gain, tc, y0);
  }

  /** As written, `pt2fit` subtracts the already-zeroed `t[0]`, so the output reaches the solver unshifted. */
  lemma Pt2AsWrittenKeepsOutputOffset(t: seq<real>, y: seq<real>)
    requires PreparePt2AsWritten(t, y).Success?
    ensures PreparePt2AsWritten(t, y).value.yShift == y
  {
  }

  /**
   * Consequence: when `y[0] != 0` the normalised output handed to the solver
   * starts away from 0, while the PT2 model is 0 at time 0, so no parameters
   * whatsoever reproduce the first sample.
   */
  lemma Pt2AsWrittenMissesFirstSample(exp: real -> real, t: seq<real>, y: seq<real>)
    requires exp(0.0) == 1.0
    requires PreparePt2AsWritten(t, y).Success? && y[0] != 0.0
    ensures var n := PreparePt2AsWritten(t, y).value;
      n.tNorm[0] == 0.0 && n.yNorm[0] != 0.0 &&
      forall gain: real, tc: real :: tc != 0.0 ==> Pt2(exp, n.tNorm[0], gain, tc) != n.yNorm[0]
  {
    var n := PreparePt2AsWritten(t, y).value;
    Pt2AsWrittenKeepsOutputOffset(t, y);
    assert n.tNorm[0] == 0.0 by {
      ScaledFirst(n.tShift, n.tMax);
    }
    assert n.yNorm[0] != 0.0 by {
      ScaledFirst(n.yShift, n.yMax);
    }
    forall gain: real, tc: real | tc != 0.0 ensures Pt2(exp, n.tNorm[0], gain, tc) != n.yNorm[0] {
      Pt2AtRest(exp, gain, tc);
    }
  }

  /** The first entry of `Scale(s, m)` is zero exactly when the first entry of `s` is. */
  lemma ScaledFirst(s: seq<real>, m: real)
    requires m != 0.0 && |s| > 0
    ensures Scale(s, m)[0] == 0.0 <==> s[0] == 0.0
  {
    DivRestores(s[0], m);
  }

  /** The PT2 response is 0 at time 0, whatever the parameters (given `exp(0) = 1`). */
  lemma Pt2AtRest(exp: real -> real, gain: real, tc: real)
    requires exp(0.0) == 1.0 && tc != 0.0
    ensures Pt2(exp, 0.0, gain, tc) == 0.0
  {
    assert -0.0 / tc == 0.0 && 0.0 / tc == 0.0;
  }

  /** A concrete input: `t = [0, 1]`, `y = [1, 2]` is prepared by `pt2fit`, yet its first normalised output is 1/2, not 0. */
  lemma Pt2AsWrittenExample()
    ensures PreparePt2AsWritten([0.0, 1.0], [1.0, 2.0]).Success?
    ensures PreparePt2AsWritten([0.0, 1.0], [1.0, 2.0]).value.yNorm[0] == 0.5
  {
    var ts, ys := ShiftByFirst([0.0, 1.0]), Shift([1.0, 2.0], 0.0);
    assert ts == [0.0, 1.0] && ys == [1.0, 2.0];
    MaxIs(ts, 1.0, 1);
    MaxIs(ys, 2.0, 1);
  }

  /** The same input prepared with both offsets removed, as `pt1fit` does, starts the normalised output at 0. */
  lemma PreparedExample()
    ensures PrepareShifted([0.0, 1.0], [1.0, 2.0]).Success?
    ensures PrepareShifted([0.0, 1.0], [1.0, 2.0]).value.yNorm[0] == 0.0
  {
    var ts, ys := ShiftByFirst([0.0, 1.0]), ShiftByFirst([1.0, 2.0]);
    assert ts == [0.0, 1.0] && ys == [0.0, 1.0];
    MaxIs(ts, 1.0, 1);
  }

  // ---------------------------------------------------------------- segmenter

  /** Python's `range(start, stop)` with step 1. */
  datatype Range = Range(start: int, stop: int)

  /** `len(range(start, stop))`. */
  function RangeLength(r: Range): nat {
    if r.start < r.stop then r.stop - r.start else 0
  }

  /** How a slice bound is resolved against a list of length `n`: negatives count from the end, then clamp. */
  function SliceBound(i: int, n: nat): (b: nat)
    ensures b <= n
    ensures 0 <= i <= n ==> b == i
  {
    if i < 0 then (if i + n < 0 then 0 else i + n)
    else if i > n then n
    else i
  }

  /** `s[from:to]`. */
  function PySlice<D>(s: seq<D>, from: int, to: int): (r: seq<D>)
    ensures 0 <= from <= to <= |s| ==> r == s[from..to]
  {
    var lo, hi := SliceBound(from, |s|), SliceBound(to, |s|);
    if lo < hi then s[lo..hi] else []
  }

  /** The label column of an events table, skipped by the segmenter. */
  const EventLabel: string := "<event-name>"

  /** Why the segmenter stops. */
  datatype SegmentError =
    | NoEventRows               // `events[0]` of an empty table
    | NotAnInteger(key: string) // `int(...)` rejects a cell of that column
    | NoSecondRow               // `events[1]` of a one-row table
    | MissingField(key: string) // the second row has no cell for that column
    | OverlongRow               // `int()` of the list `DictReader` keeps under its `None` key

  /**
   * `time_slots` and `data_per_event`; the dictionary is a map plus its
   * insertion order, which the later loops rely on.
   */
  datatype Segments<D> = Segments(timeSlots: seq<Range>, order: seq<string>, perEvent: map<string, seq<D>>)

  /** `int(cell)`: `parseInt` on text; `int(None)` raises like unparsable text. */
  function CellInt(cell: CellText, parseInt: string -> Option<int>): Option<int> {
    match cell
    case RestVal => None
    case Text(text) => parseInt(text)
  }

  /** `range(int(events[0][key]), int(events[1][key]))` for one non-label field `(key, first)` of the first row. */
  function EventRange(field: (string, CellText), events: seq<Row>, parseInt: string -> Option<int>): Result<Range, SegmentError> {
    match CellInt(field.1, parseInt)
    case None => Failure(NotAnInteger(field.0))
    case Some(from) =>
      if |events| < 2 then Failure(NoSecondRow)
      else
        match Lookup(events[1].cells, field.0)
        case None => Failure(MissingField(field.0))
        case Some(cell) =>
          match CellInt(cell, parseInt)
          case None => Failure(NotAnInteger(field.0))
          case Some(to) => Success(Range(from, to))
  }

  /** One iteration of the segmenter loop. */
  function SegmentField<D>(acc: Segments<D>, field: (string, CellText), events: seq<Row>, data: seq<D>,
                           parseInt: string -> Option<int>): Result<Segments<D>, SegmentError> {
    if field.0 == EventLabel then Success(acc)
    else
      match EventRange(field, events, parseInt)
      case Failure(e) => Failure(e)
      case Success(r) =>
        Success(Segments(
          acc.timeSlots + [r],
          if field.0 in acc.perEvent then acc.order else acc.order + [field.0],
          acc.perEvent[field.0 := PySlice(data, r.start, r.stop)]))
  }

  /** The segmenter run over the given fields of the first events row, in order. */
  function SegmentFields<D>(fields: seq<(string, CellText)>, events: seq<Row>, data: seq<D>,
                            parseInt: string -> Option<int>): Result<Segments<D>, SegmentError>
    decreases |fields|
  {
    if |fields| == 0 then Success(Segments([], [], map[]))
    else
      match SegmentFields(fields[..|fields| - 1], events, data, parseInt)
      case Failure(e) => Failure(e)
      case Success(acc) => SegmentField(acc, fields[|fields| - 1], events, data, parseInt)
  }

  /**
   * Reference definition of the segmenter over a whole events table: the
   * named columns of the first row, then, last in the row's key order, the
   * `None` key of an over-long first row, whose list no `int()` accepts.
   */
  function SegmentEvents<D>(events: seq<Row>, data: seq<D>, parseInt: string -> Option<int>): Result<Segments<D>, SegmentError> {
    if |events| == 0 then Failure(NoEventRows)
    else
      match SegmentFields(events[0].cells, events, data, parseInt)
      case Failure(e) => Failure(e)
      case Success(s) => if |events[0].restKey| > 0 then Failure(OverlongRow) else Success(s)
  }

  /** Once a prefix of the fields fails, the whole run fails with the same error. */
  lemma {:induction false} FailureSticks<D>(fields: seq<(string, CellText)>, i: nat, events: seq<Row>, data: seq<D>,
                                            parseInt: string -> Option<int>)
    requires i <= |fields|
    requires SegmentFields(fields[..i], events, data, parseInt).Failure?
    ensures SegmentFields(fields, events, data, parseInt) == SegmentFields(fields[..i], events, data, parseInt)
    decreases |fields| - i
  {
    if i < |fields| {
      assert fields[..|fields| - 1][..i] == fields[..i];
      FailureSticks(fields[..|fields| - 1], i, events, data, parseInt);
    } else {
      assert fields[..i] == fields;
    }
  }

  /**
   * The segmenter block of `do_fit`: for every column of the first events row
   * except the label, in column order, append the column's index range to
   * `time_slots` and store the matching slice of `data` under the column name.
   */
  method Segment<D>(events: seq<Row>, data: seq<D>, parseInt: string -> Option<int>)
    returns (r: Result<Segments<D>, SegmentError>)
    ensures r == SegmentEvents(events, data, parseInt)
  {
    if |events| == 0 {
      return Failure(NoEventRows);
    }
    var fields := events[0].cells;
    var dataPerEvent: map<string, seq<D>> := map[];
    var order: seq<string> := [];
    var timeSlots: seq<Range> := [];
    var i := 0;
    while i < |fields|
      invariant 0 <= i <= |fields|
      invariant SegmentFields(fields[..i], events, data, parseInt) == Success(Segments(timeSlots, order, dataPerEvent))
    {
      assert fields[..i + 1][..i] == fields[..i];
      var key := fields[i].0;
      if key != EventLabel {
        var slot := EventRange(fields[i], events, parseInt);
        if slot.Failure? {
          FailureSticks(fields, i + 1, events, data, parseInt);
          return Failure(slot.error);
        }
        var fromIndex, toIndex := slot.value.start, slot.value.stop;
        timeSlots := timeSlots + [Range(fromIndex, toIndex)];
        if key !in dataPerEvent {
          order := order + [key];
        }
        dataPerEvent := dataPerEvent[key := PySlice(data, fromIndex, toIndex)];
      }
      i := i + 1;
    }
    assert fields[..i] == fields;
    if |events[0].restKey| > 0 {
      return Failure(OverlongRow);
    }
    r := Success(Segments(timeSlots, order, dataPerEvent));
  }

  /**
   * The non-label fields of an events row, in column order: no label field
   * is kept, every kept field is a field of the row, and every other field
   * is kept. The body is the definition of order and multiplicity: an
   * ordered filter that keeps each non-label field once, where it stood.
   */
  function NonLabel(fields: seq<(string, CellText)>): (r: seq<(string, CellText)>)
    ensures |r| <= |fields|
    ensures forall i :: 0 <= i < |r| ==> r[i].0 != EventLabel && r[i] in fields
    ensures forall j :: 0 <= j < |fields| && fields[j].0 != EventLabel ==> fields[j] in r
  {
    if |fields| == 0 then []
    else
      var prefix, last := fields[..|fields| - 1], fields[|fields| - 1];
      assert fields == prefix + [last];
      var init := NonLabel(prefix);
      if last.0 == EventLabel then init else init + [last]
  }

  /** Column names of a row are pairwise different, as in a dictionary. */
  predicate DistinctNames(fields: seq<(string, CellText)>) {
    forall i, j :: 0 <= i < j < |fields| ==> fields[i].0 != fields[j].0
  }

  /** The segmenter succeeds exactly when every non-label column yields an index range. */
  lemma {:induction false} SegmentSucceedsIff<D>(fields: seq<(string, CellText)>, events: seq<Row>, data: seq<D>,
                                                 parseInt: string -> Option<int>)
    ensures SegmentFields(fields, events, data, parseInt).Success? <==>
      forall j :: 0 <= j < |fields| && fields[j].0 != EventLabel ==> EventRange(fields[j], events, parseInt).Success?
    decreases |fields|
  {
    if |fields| > 0 {
      var init := fields[..|fields| - 1];
      SegmentSucceedsIff(init, events, data, parseInt);
      assert forall j :: 0 <= j < |init| ==> init[j] == fields[j];
    }
  }

  /**
   * A first events row that `DictReader` padded with `None` in a non-label
   * column, or that is longer than the header, makes the segmenter raise.
   */
  lemma PaddedOrOverlongFirstRowFails<D>(events: seq<Row>, data: seq<D>, parseInt: string -> Option<int>)
    requires |events| > 0
    requires (exists j :: 0 <= j < |events[0].cells| &&
               events[0].cells[j].0 != EventLabel && events[0].cells[j].1 == RestVal) ||
             |events[0].restKey| > 0
    ensures SegmentEvents(events, data, parseInt).Failure?
  {
    SegmentSucceedsIff(events[0].cells, events, data, parseInt);
  }

  /**
   * `time_slots` and the dictionary have one entry per field of `keep`, in the
   * same order: entry `i` is that field's range, the dictionary's keys are
   * exactly the names in `order`, and the data stored under a name is
   * `data[from:to]` of its range.
   */
  ghost predicate Aligned<D>(s: Segments<D>, keep: seq<(string, CellText)>, events: seq<Row>, data: seq<D>,
                             parseInt: string -> Option<int>) {
    |s.timeSlots| == |s.order| == |keep| &&
    s.perEvent.Keys == Listed(s.order) &&
    forall i :: 0 <= i < |keep| ==>
      s.order[i] == keep[i].0 &&
      EventRange(keep[i], events, parseInt) == Success(s.timeSlots[i]) &&
      s.perEvent[s.order[i]] == PySlice(data, s.timeSlots[i].start, s.timeSlots[i].stop)
  }

  /** One loop iteration on a new, non-label column keeps the segments aligned with the columns seen so far. */
  lemma AlignedStep<D>(acc: Segments<D>, keep: seq<(string, CellText)>, last: (string, CellText),
                       events: seq<Row>, data: seq<D>, parseInt: string -> Option<int>)
    requires Aligned(acc, keep, events, data, parseInt)
    requires last.0 != EventLabel && EventRange(last, events, parseInt).Success?
    requires forall i :: 0 <= i < |keep| ==> keep[i].0 != last.0
    ensures SegmentField(acc, last, events, data, parseInt).Success?
    ensures Aligned(SegmentField(acc, last, events, data, parseInt).value, keep + [last], events, data, parseInt)
  {
    var r := EventRange(last, events, parseInt).value;
    assert last.0 !in acc.perEvent;
    var s := Segments(acc.timeSlots + [r], acc.order + [last.0],
                      acc.perEvent[last.0 := PySlice(data, r.start, r.stop)]);
    assert SegmentField(acc, last, events, data, parseInt) == Success(s);
    OrderedKeysStep(acc.perEvent, acc.order, last.0, PySlice(data, r.start, r.stop));
    var keep' := keep + [last];
    forall i | 0 <= i < |keep'|
      ensures s.order[i] == keep'[i].0
      ensures EventRange(keep'[i], events, parseInt) == Success(s.timeSlots[i])
      ensures s.perEvent[s.order[i]] == PySlice(data, s.timeSlots[i].start, s.timeSlots[i].stop)
    {
      if i < |keep| {
        assert keep'[i] == keep[i] && s.order[i] == acc.order[i] && s.timeSlots[i] == acc.timeSlots[i];
        assert s.order[i] != last.0;
      }
    }
  }

  /** The names listed in `order`, as a set. */
  function Listed(order: seq<string>): (r: set<string>)
    ensures forall i :: 0 <= i < |order| ==> order[i] in r
    ensures forall k :: k in r ==> exists i :: 0 <= i < |order| && order[i] == k
  {
    set i | 0 <= i < |order| :: order[i]
  }

  /** Inserting a new key into a dictionary whose keys are listed in `order` appends it to the listing. */
  lemma OrderedKeysStep<V>(m: map<string, V>, order: seq<string>, key: string, v: V)
    requires m.Keys == Listed(order) && key !in m
    ensures m[key := v].Keys == Listed(order + [key])
  {
    var m', order' := m[key := v], order + [key];
    forall k | k in m'.Keys ensures k in Listed(order') {
      if k != key {
        var i :| 0 <= i < |order| && order[i] == k;
        assert order'[i] == k;
      } else {
        assert order'[|order|] == k;
      }
    }
    forall k | k in Listed(order') ensures k in m'.Keys {
      var i :| 0 <= i < |order'| && order'[i] == k;
      if i < |order| {
        assert order'[i] == order[i];
      }
    }
  }

  /**
   * On success `time_slots` and the dictionary have one entry per non-label
   * column, in column order (as long as column names are distinct, as they
   * are in a parsed header).
   */
  lemma {:induction false} SegmentsAligned<D>(fields: seq<(string, CellText)>, events: seq<Row>, data: seq<D>,
                                              parseInt: string -> Option<int>)
    requires DistinctNames(fields)
    requires SegmentFields(fields, events, data, parseInt).Success?
    ensures Aligned(SegmentFields(fields, events, data, parseInt).value, NonLabel(fields), events, data, parseInt)
    decreases |fields|
  {
    if |fields| > 0 {
      var init := fields[..|fields| - 1];
      var last := fields[|fields| - 1];
      assert DistinctNames(init);
      SegmentsAligned(init, events, data, parseInt);
      var acc := SegmentFields(init, events, data, parseInt).value;
      if last.0 != EventLabel {
        forall i | 0 <= i < |NonLabel(init)| ensures NonLabel(init)[i].0 != last.0 {
          var j := NonLabelIndex(init, i);
          assert init[j] == fields[j];
        }
        AlignedStep(acc, NonLabel(init), last, events, data, parseInt);
        assert NonLabel(fields) == NonLabel(init) + [last];
      } else {
        assert NonLabel(fields) == NonLabel(init);
      }
    } else {
      assert NonLabel(fields) == [];
    }
  }

  /**
   * The segments are consumed positionally: the data under the `i`-th name
   * has the length of the `i`-th range whenever `0 <= from <= to <= len(data)`.
   */
  lemma SegmentSliceLengths<D>(events: seq<Row>, data: seq<D>, parseInt: string -> Option<int>)
    requires SegmentEvents(events, data, parseInt).Success? && DistinctNames(events[0].cells)
    ensures var s := SegmentEvents(events, data, parseInt).value;
      |s.timeSlots| == |s.order| == |NonLabel(events[0].cells)| &&
      forall i :: 0 <= i < |s.order| && 0 <= s.timeSlots[i].start <= s.timeSlots[i].stop <= |data| ==>
        s.order[i] in s.perEvent && |s.perEvent[s.order[i]]| == RangeLength(s.timeSlots[i])
  {
    SegmentsAligned(events[0].cells, events, data, parseInt);
  }

  /** The position in the row of the `i`-th non-label field. */
  lemma NonLabelIndex(fields: seq<(string, CellText)>, i: nat) returns (j: nat)
    requires i < |NonLabel(fields)|
    ensures j < |fields| && NonLabel(fields)[i] == fields[j]
  {
    j :| 0 <= j < |fields| && NonLabel(fields)[i] == fields[j];
  }
}
