/**
 * The interactive Gaussian peak component (IGaussianModel): how a scroll event
 * rescales a peak, how a peak's parameters are projected onto the two-vertex
 * poly-selector shape drawn over the data, and how such a shape is turned back
 * into parameters.
 *
 * Floating-point values are modelled as exact reals. The Gaussian line shape is
 * evaluated by the fitting library, whose code is not part of this model: it
 * enters as a `Lineshape` value, and the only fact about it the model relies on
 * is its value at the center of the peak (`Lineshape.Valid`).
 */
module Gaussian {
  import opened Wrappers

  /** The arguments of the Gaussian line shape, as the model's parameter set holds them. */
  datatype Params = Params(amplitude: real, center: real, sigma: real)

  /** The names of the line shape's arguments: the keys of the `vals` dictionary. */
  datatype Arg = Amplitude | Center | Sigma

  /**
   * The line shape as the fitting library evaluates it: `rootTwoPi` is the
   * constant sqrt(2*pi) and `eval(x, p)` is the Gaussian with parameters `p` at `x`.
   */
  datatype Lineshape = Lineshape(rootTwoPi: real, eval: (real, Params) -> real)
  {
    /**
     * The normalisation constant is positive and, because exp(0) == 1, a peak of
     * positive width takes the value amplitude / (sqrt(2*pi) * sigma) at its center.
     */
    ghost predicate Valid() {
      && rootTwoPi > 0.0
      && forall p: Params :: p.sigma > 0.0 ==> eval(p.center, p) == p.amplitude / (rootTwoPi * p.sigma)
    }
  }

  /** The height of a peak of positive width: its value at its center. */
  function PeakHeight(rootTwoPi: real, p: Params): (h: real)
    requires rootTwoPi > 0.0 && p.sigma > 0.0
    ensures h * rootTwoPi * p.sigma == p.amplitude
    ensures h > 0.0 <==> p.amplitude > 0.0
  {
    p.amplitude / (rootTwoPi * p.sigma)
  }

  // ---------------------------------------------------------------------------
  // Parameter values with keyword overrides

  /**
   * The current parameter values as a dictionary keyed by argument name, every
   * explicit override taking precedence over the value in `p`.
   */
  function FuncArgs(p: Params, overrides: map<Arg, real>): (vals: map<Arg, real>)
    ensures Amplitude in vals && Center in vals && Sigma in vals
    ensures forall a :: a in overrides ==> a in vals && vals[a] == overrides[a]
    ensures Amplitude !in overrides ==> vals[Amplitude] == p.amplitude
    ensures Center !in overrides ==> vals[Center] == p.center
    ensures Sigma !in overrides ==> vals[Sigma] == p.sigma
  {
    map[Amplitude := p.amplitude, Center := p.center, Sigma := p.sigma] + overrides
  }

  /** A parameter set built from a dictionary holding every argument. */
  function MakeParams(vals: map<Arg, real>): Params
    requires Amplitude in vals && Center in vals && Sigma in vals
  {
    Params(vals[Amplitude], vals[Center], vals[Sigma])
  }

  /** The parameters a call works with: `p`, with the explicit overrides applied. */
  function WithOverrides(p: Params, overrides: map<Arg, real>): (q: Params)
    ensures q.amplitude == if Amplitude in overrides then overrides[Amplitude] else p.amplitude
    ensures q.center == if Center in overrides then overrides[Center] else p.center
    ensures q.sigma == if Sigma in overrides then overrides[Sigma] else p.sigma
    ensures overrides == map[] ==> q == p
  {
    MakeParams(FuncArgs(p, overrides))
  }

  // ---------------------------------------------------------------------------
  // Scroll rescale

  /** Scroll-wheel ticks that scale a peak by one whole unit. */
  const TicksPerUnit: real := 700.0
  /** The bounds the scroll scale factor is clipped to. */
  const MinScale: real := 0.5
  const MaxScale: real := 2.0

  /** numpy's clip of a value into [lo, hi]. */
  function Clip(v: real, lo: real, hi: real): (r: real)
    requires lo <= hi
    ensures lo <= r <= hi
    ensures lo <= v <= hi ==> r == v
    ensures v <= lo ==> r == lo
    ensures hi <= v ==> r == hi
  {
    if v < lo then lo else if v > hi then hi else v
  }

  /** The factor a scroll of `ticks` ticks scales a peak's width and amplitude by. */
  function ScrollScale(ticks: int): (scale: real)
    ensures MinScale <= scale <= MaxScale
    ensures ticks >= 700 ==> scale == MaxScale
    ensures ticks <= -350 ==> scale == MinScale
    ensures ticks == 0 ==> scale == 1.0
    ensures -350 <= ticks <= 700 ==> scale == ticks as real / TicksPerUnit + 1.0
  {
    Clip(ticks as real / TicksPerUnit + 1.0, MinScale, MaxScale)
  }

  /** More ticks never give a smaller scale factor. */
  lemma ScrollScaleMonotone(t1: int, t2: int)
    requires t1 <= t2
    ensures ScrollScale(t1) <= ScrollScale(t2)
  {
    assert t1 as real / TicksPerUnit <= t2 as real / TicksPerUnit;
  }

  /** Width and amplitude multiplied by one factor, the center left where it is. */
  function Rescaled(p: Params, scale: real): (q: Params)
    ensures q.center == p.center
    ensures q.sigma * p.amplitude == q.amplitude * p.sigma
    ensures scale > 0.0 ==> (q.sigma > 0.0 <==> p.sigma > 0.0)
    ensures scale == 1.0 ==> q == p
  {
    p.(sigma := p.sigma * scale, amplitude := p.amplitude * scale)
  }

  /**
   * update_params_from_scroll: takes the parameter values (with overrides) as a
   * dictionary and scales its sigma and amplitude entries in place by the
   * scroll factor, then builds the new parameter set from it.
   */
  method UpdateParamsFromScroll(ticks: int, params: Params, overrides: map<Arg, real>) returns (r: Params)
    ensures r == Rescaled(WithOverrides(params, overrides), ScrollScale(ticks))
  {
    var vals := FuncArgs(params, overrides);
    var scale := ScrollScale(ticks);
    vals := vals[Sigma := vals[Sigma] * scale];
    vals := vals[Amplitude := vals[Amplitude] * scale];
    r := MakeParams(vals);
  }

  /**
   * Scaling width and amplitude together keeps the peak height: the peak of the
   * rescaled Gaussian, still at the same center, has the same value as before.
   */
  lemma RescaleKeepsPeak(ls: Lineshape, p: Params, scale: real)
    requires ls.Valid() && p.sigma > 0.0 && scale > 0.0
    ensures Rescaled(p, scale).sigma > 0.0
    ensures PeakHeight(ls.rootTwoPi, Rescaled(p, scale)) == PeakHeight(ls.rootTwoPi, p)
    ensures ls.eval(Rescaled(p, scale).center, Rescaled(p, scale)) == ls.eval(p.center, p)
  {
    var q := Rescaled(p, scale);
    var k := ls.rootTwoPi;
    assert q.sigma > 0.0 by {
      assert q.sigma == p.sigma * scale;
    }
    calc {
      PeakHeight(k, q);
      (p.amplitude * scale) / (k * (p.sigma * scale));
      { assert k * (p.sigma * scale) == (k * p.sigma) * scale; }
      (p.amplitude * scale) / ((k * p.sigma) * scale);
      p.amplitude / (k * p.sigma);
    }
  }

  /** A scroll event never changes the value at the peak, whatever its tick count. */
  lemma ScrollKeepsPeak(ls: Lineshape, p: Params, ticks: int)
    requires ls.Valid() && p.sigma > 0.0
    ensures Rescaled(p, ScrollScale(ticks)).sigma > 0.0
    ensures Rescaled(p, ScrollScale(ticks)).center == p.center
    ensures ls.eval(p.center, Rescaled(p, ScrollScale(ticks))) == ls.eval(p.center, p)
  {
    RescaleKeepsPeak(ls, p, ScrollScale(ticks));
  }

  /** 700 ticks double width and amplitude, -700 halve them, zero ticks change nothing. */
  lemma ScrollExamples(p: Params)
    ensures Rescaled(p, ScrollScale(700)) == Params(2.0 * p.amplitude, p.center, 2.0 * p.sigma)
    ensures Rescaled(p, ScrollScale(-700)) == Params(0.5 * p.amplitude, p.center, 0.5 * p.sigma)
    ensures Rescaled(p, ScrollScale(0)) == p
  {
  }

  // ---------------------------------------------------------------------------
  // Poly-selector shape

  /** The vertices of a poly-selector overlay. */
  datatype Shape = Shape(xs: seq<real>, ys: seq<real>)

  /**
   * to_poly_selector_shape: two vertices, one sigma to the left of the peak and
   * the peak itself, each at the height of the Gaussian there.
   */
  function ToShape(ls: Lineshape, params: Params, overrides: map<Arg, real>): (s: Shape)
    ensures |s.xs| == |s.ys| == 2
    ensures s.xs[1] == WithOverrides(params, overrides).center
    ensures s.xs[1] - s.xs[0] == WithOverrides(params, overrides).sigma
    ensures s.ys[0] == ls.eval(s.xs[0], WithOverrides(params, overrides))
    ensures s.ys[1] == ls.eval(s.xs[1], WithOverrides(params, overrides))
    ensures ls.Valid() && WithOverrides(params, overrides).sigma > 0.0 ==>
              s.ys[1] == PeakHeight(ls.rootTwoPi, WithOverrides(params, overrides))
  {
    var vals := FuncArgs(params, overrides);
    var p := MakeParams(vals);
    var c := vals[Center];
    var sd := vals[Sigma];
    var xs := [c - sd, c];
    assert p == WithOverrides(params, overrides) && xs[1] == p.center;
    Shape(xs, [ls.eval(xs[0], p), ls.eval(xs[1], p)])
  }

  /** Reading the last vertex of an empty coordinate list fails. */
  datatype ShapeError = MissingVertex

  /**
   * from_poly_selector_shape: the center is the last vertex, the width the
   * distance between the first and the last vertex, and the amplitude is
   * back-solved so that the peak height equals the last vertex's y.
   */
  function FromShape(ls: Lineshape, xs: seq<real>, ys: seq<real>): (r: Result<Params, ShapeError>)
    ensures r.Success? <==> |xs| > 0 && |ys| > 0
    ensures r.Success? ==> r.value.center == xs[|xs| - 1]
    ensures r.Success? ==> r.value.sigma >= 0.0
    ensures r.Success? ==> r.value.sigma == xs[|xs| - 1] - xs[0] || r.value.sigma == xs[0] - xs[|xs| - 1]
    ensures r.Success? ==> (r.value.sigma == 0.0 <==> xs[0] == xs[|xs| - 1])
    ensures r.Success? && xs[0] == xs[|xs| - 1] ==> r.value.amplitude == 0.0
    ensures r.Success? && ls.rootTwoPi > 0.0 && r.value.sigma > 0.0 ==>
              PeakHeight(ls.rootTwoPi, r.value) == ys[|ys| - 1]
  {
    if |xs| == 0 || |ys| == 0 then
      Failure(MissingVertex)
    else
      var center := xs[|xs| - 1];
      var sigma := Abs(xs[|xs| - 1] - xs[0]);
      var amplitude := ys[|ys| - 1] * ls.rootTwoPi * sigma;
      BackSolved(ys[|ys| - 1], ls.rootTwoPi, sigma);
      Success(Params(amplitude, center, sigma))
  }

  /** Multiplying a height by k * sigma and dividing it again gives the height back. */
  lemma BackSolved(y: real, k: real, sigma: real)
    ensures k > 0.0 && sigma > 0.0 ==> (y * k * sigma) / (k * sigma) == y
  {
    if k > 0.0 && sigma > 0.0 {
      assert y * k * sigma == y * (k * sigma);
    }
  }

  function Abs(v: real): (r: real)
    ensures r >= 0.0 && (r == v || r == -v)
  {
    if v < 0.0 then -v else v
  }

  /**
   * Round trip: turning a peak of positive width into its shape and the shape
   * back into parameters gives the peak's parameters back.
   */
  lemma RoundTrip(ls: Lineshape, params: Params, overrides: map<Arg, real>)
    requires ls.Valid() && WithOverrides(params, overrides).sigma > 0.0
    ensures FromShape(ls, ToShape(ls, params, overrides).xs, ToShape(ls, params, overrides).ys)
            == Success(WithOverrides(params, overrides))
  {
    var p := WithOverrides(params, overrides);
    var s := ToShape(ls, params, overrides);
    var r := FromShape(ls, s.xs, s.ys);
    assert r.value.sigma == p.sigma;
    calc {
      r.value.amplitude;
      s.ys[1] * ls.rootTwoPi * r.value.sigma;
      PeakHeight(ls.rootTwoPi, p) * ls.rootTwoPi * p.sigma;
      p.amplitude;
    }
  }

  /**
   * After a vertex drag the shape is re-exported from the new parameters: the
   * peak vertex stays where it was dragged, and the width vertex is put back on
   * the left of the peak at the dragged distance (mirrored when it was dragged
   * to the right).
   */
  lemma ReexportAfterDrag(ls: Lineshape, xs: seq<real>, ys: seq<real>)
    requires ls.Valid() && |xs| == 2 && |ys| == 2 && xs[0] != xs[1]
    ensures FromShape(ls, xs, ys).Success?
    ensures ToShape(ls, FromShape(ls, xs, ys).value, map[]).xs[1] == xs[1]
    ensures ToShape(ls, FromShape(ls, xs, ys).value, map[]).ys[1] == ys[1]
    ensures xs[0] < xs[1] ==> ToShape(ls, FromShape(ls, xs, ys).value, map[]).xs == xs
    ensures xs[0] > xs[1] ==> ToShape(ls, FromShape(ls, xs, ys).value, map[]).xs == [2.0 * xs[1] - xs[0], xs[1]]
  {
    var p := FromShape(ls, xs, ys).value;
    var s := ToShape(ls, p, map[]);
    assert WithOverrides(p, map[]) == p;
    assert p.sigma > 0.0;
    assert s.ys[1] == PeakHeight(ls.rootTwoPi, p);
  }

  /** The peak {center 0, sigma 1, amplitude 1} is drawn at x = [-1, 0] and read back unchanged. */
  lemma UnitPeakScenario(ls: Lineshape)
    requires ls.Valid()
    ensures ToShape(ls, Params(1.0, 0.0, 1.0), map[]).xs == [-1.0, 0.0]
    ensures FromShape(ls, ToShape(ls, Params(1.0, 0.0, 1.0), map[]).xs, ToShape(ls, Params(1.0, 0.0, 1.0), map[]).ys)
            == Success(Params(1.0, 0.0, 1.0))
  {
    RoundTrip(ls, Params(1.0, 0.0, 1.0), map[]);
  }
}
