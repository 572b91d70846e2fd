/** The stateless wrappers of `dsfaker/generators/utils.py`: the constant
    generator, and the operators that transform the values of one inner
    generator (`ApplyFunctionOperator`, `AbsoluteOperator`,
    `BoundingOperator`, `ScalingOperator`). A wrapper keeps no state of its
    own, so its state is the inner generator's, and each one is a map over
    the inner generator's values. */
module Utils {
  import opened Base
  import Affine

  /** `ConstantValueGenerator`: its only state is the value. */
  datatype Constant<T> = Constant(value: T)

  /** `get_single`: the value, with nothing advanced. */
  function ConstSingle<T>(c: Constant<T>): (r: Result<(T, Constant<T>)>)
    ensures r.Ok? && r.value.0 == c.value && r.value.1 == c
  {
    Ok((c.value, c))
  }

  /** `get_batch(n)`: `n` copies of the value. */
  function ConstBatch<T>(c: Constant<T>, n: nat): (r: Result<(seq<T>, Constant<T>)>)
    ensures r.Ok? && |r.value.0| == n && r.value.1 == c
    ensures forall j :: 0 <= j < n ==> r.value.0[j] == c.value
  {
    Ok((seq(n, _ => c.value), c))
  }

  /** A constant batch of `n` equals `n` singles. */
  lemma {:induction false} ConstBatchIsSingles<T>(c: Constant<T>, n: nat)
    ensures ConstBatch(c, n) == Singles(ConstSingle, c, n)
    decreases n
  {
    if n > 0 {
      ConstBatchIsSingles(c, n - 1);
      assert ConstBatch(c, n).value.0 == [c.value] + ConstBatch(c, n - 1).value.0;
    }
  }

  /** `ApplyFunctionOperator.get_single`: the function applied to one
      single of the inner generator; it raises exactly when the inner
      generator does. */
  function MapSingle<S, T, U>(f: T -> U, single: S -> Result<(T, S)>, s: S): (r: Result<(U, S)>)
    ensures r.Ok? <==> single(s).Ok?
    ensures r.Ok? ==> r.value.0 == f(single(s).value.0) && r.value.1 == single(s).value.1
  {
    var x :- single(s);
    Ok((f(x.0), x.1))
  }

  /** `ApplyFunctionOperator.get_batch(n)`: the function applied to each
      value of one batch of the inner generator, keeping the order. */
  function MapBatch<S, T, U>(f: T -> U, batch: (S, nat) -> Result<(seq<T>, S)>, s: S, n: nat)
    : (r: Result<(seq<U>, S)>)
    ensures r.Ok? <==> batch(s, n).Ok?
    ensures r.Ok? ==> |r.value.0| == |batch(s, n).value.0| && r.value.1 == batch(s, n).value.1
    ensures r.Ok? ==> forall j :: 0 <= j < |r.value.0| ==> r.value.0[j] == f(batch(s, n).value.0[j])
  {
    var xs :- batch(s, n);
    Ok((seq(|xs.0|, j requires 0 <= j < |xs.0| => f(xs.0[j])), xs.1))
  }

  /** Mapping keeps the batch/single promise: over an inner generator whose
      batches equal its singles, the mapped batch equals the mapped
      singles. */
  lemma {:induction false} MapBatchIsSingles<S, T, U>(
    f: T -> U, single: S -> Result<(T, S)>, batch: (S, nat) -> Result<(seq<T>, S)>, s: S, n: nat)
    requires forall t, m :: batch(t, m) == Singles(single, t, m)
    ensures MapBatch(f, batch, s, n) == Singles((t: S) => MapSingle(f, single, t), s, n)
    decreases n
  {
    var mapped := (t: S) => MapSingle(f, single, t);
    if n > 0 && single(s).Ok? {
      var (x, s1) := single(s).value;
      MapBatchIsSingles(f, single, batch, s1, n - 1);
      assert Singles(single, s, n) == Prepend([x], Singles(single, s1, n - 1));
      var rest := MapBatch(f, batch, s1, n - 1);
      if rest.Ok? {
        assert MapBatch(f, batch, s, n).value.0 == [f(x)] + rest.value.0;
      }
      assert Singles(mapped, s, n) == Prepend([f(x)], Singles(mapped, s1, n - 1));
    }
  }

  /** `numpy.absolute` on a real. */
  function Abs(x: real): (r: real)
    ensures r >= 0.0 && (r == x || r == -x)
  {
    if x < 0.0 then -x else x
  }

  /** `AbsoluteOperator.get_single`: an `ApplyFunctionOperator` with
      `numpy.absolute`; the value is never negative. */
  function AbsSingle<S>(single: S -> Result<(real, S)>, s: S): (r: Result<(real, S)>)
    ensures r.Ok? <==> single(s).Ok?
    ensures r.Ok? ==> r.value.0 >= 0.0 && (r.value.0 == single(s).value.0 || r.value.0 == -single(s).value.0)
  {
    MapSingle(Abs, single, s)
  }

  /** `AbsoluteOperator.get_batch(n)`: no value of the batch is negative. */
  function AbsBatch<S>(batch: (S, nat) -> Result<(seq<real>, S)>, s: S, n: nat): (r: Result<(seq<real>, S)>)
    ensures r.Ok? <==> batch(s, n).Ok?
    ensures r.Ok? ==> |r.value.0| == |batch(s, n).value.0|
    ensures r.Ok? ==> forall j :: 0 <= j < |r.value.0| ==> r.value.0[j] >= 0.0
    ensures r.Ok? ==> r.value.1 == batch(s, n).value.1
    ensures r.Ok? ==> forall j :: 0 <= j < |r.value.0| ==>
              r.value.0[j] == batch(s, n).value.0[j] || r.value.0[j] == -batch(s, n).value.0[j]
  {
    MapBatch(Abs, batch, s, n)
  }

  /** `numpy.clip(x, lb, ub)`, that is `min(max(x, lb), ub)`: with
      `lb <= ub` the result lies in `[lb, ub]` and a value already inside
      is kept; with `lb > ub` every value becomes `ub`. */
  function Clip(x: real, lb: real, ub: real): (r: real)
    ensures lb <= ub ==> lb <= r <= ub
    ensures lb <= x <= ub ==> r == x
    ensures x < lb && lb <= ub ==> r == lb
    ensures ub < x ==> r == ub
    ensures ub < lb ==> r == ub
  {
    var low := if x < lb then lb else x;
    if low > ub then ub else low
  }

  /** Clamping twice is clamping once, whatever the bounds. */
  lemma ClipIdempotent(x: real, lb: real, ub: real)
    ensures Clip(Clip(x, lb, ub), lb, ub) == Clip(x, lb, ub)
  {
  }

  /** A `BoundingOperator`'s bounds. */
  datatype Bounding = Bounding(lb: real, ub: real) {
    /** The clamp as a function value, for the map. */
    function Clamp(): real -> real
    {
      x => Clip(x, lb, ub)
    }
  }

  /** `BoundingOperator.get_single`: one clamped single of the inner
      generator. */
  function BoundSingle<S>(b: Bounding, single: S -> Result<(real, S)>, s: S): (r: Result<(real, S)>)
    ensures r.Ok? <==> single(s).Ok?
    ensures r.Ok? && b.lb <= b.ub ==> b.lb <= r.value.0 <= b.ub
    ensures r.Ok? && b.lb <= single(s).value.0 <= b.ub ==> r.value.0 == single(s).value.0
  {
    MapSingle(b.Clamp(), single, s)
  }

  /** `BoundingOperator.get_batch(n)`: the inner batch, clamped element-wise. */
  function BoundBatch<S>(b: Bounding, batch: (S, nat) -> Result<(seq<real>, S)>, s: S, n: nat)
    : (r: Result<(seq<real>, S)>)
    ensures r.Ok? <==> batch(s, n).Ok?
    ensures r.Ok? ==> |r.value.0| == |batch(s, n).value.0|
    ensures r.Ok? && b.lb <= b.ub ==> forall j :: 0 <= j < |r.value.0| ==> b.lb <= r.value.0[j] <= b.ub
    ensures r.Ok? ==> r.value.1 == batch(s, n).value.1
    ensures r.Ok? ==> forall j :: 0 <= j < |r.value.0| ==> r.value.0[j] == Clip(batch(s, n).value.0[j], b.lb, b.ub)
    ensures r.Ok? ==> forall j :: 0 <= j < |r.value.0| && b.lb <= batch(s, n).value.0[j] <= b.ub ==>
              r.value.0[j] == batch(s, n).value.0[j]
  {
    MapBatch(b.Clamp(), batch, s, n)
  }

  /** Over an inner generator whose batches equal its singles, a bounded
      batch equals bounded singles. */
  lemma BoundBatchIsSingles<S>(
    b: Bounding, single: S -> Result<(real, S)>, batch: (S, nat) -> Result<(seq<real>, S)>, s: S, n: nat)
    requires forall t, m :: batch(t, m) == Singles(single, t, m)
    ensures BoundBatch(b, batch, s, n) == Singles((t: S) => BoundSingle(b, single, t), s, n)
  {
    MapBatchIsSingles(b.Clamp(), single, batch, s, n);
    SinglesCongruent((t: S) => MapSingle(b.Clamp(), single, t), (t: S) => BoundSingle(b, single, t), s, n);
  }

  /** For `lb <= ub`, every value of any run of bounded singles lies in
      `[lb, ub]`. */
  lemma {:induction false} BoundedRunInRange<S>(b: Bounding, single: S -> Result<(real, S)>, s: S, n: nat)
    requires b.lb <= b.ub
    ensures var run := Singles((t: S) => BoundSingle(b, single, t), s, n);
            run.Ok? ==> forall j :: 0 <= j < n ==> b.lb <= run.value.0[j] <= b.ub
    decreases n
  {
    var bounded := (t: S) => BoundSingle(b, single, t);
    if n > 0 && single(s).Ok? {
      var (x, s1) := BoundSingle(b, single, s).value;
      BoundedRunInRange(b, single, s1, n - 1);
      assert Singles(bounded, s, n) == Prepend([x], Singles(bounded, s1, n - 1));
    }
  }

  /** A constructed `ScalingOperator`: the target bounds and the three
      numbers computed from them and from the inner generator's bounds. */
  datatype Scaling = Scaling(lb: real, ub: real, mid: real, genMid: real, coef: real) {
    /** The affine map applied to every inner value. */
    function Map(x: real): real
    {
      Affine.Apply(coef, genMid, mid, x)
    }

    function Fn(): real -> real
    {
      x => Map(x)
    }
  }

  /** `ScalingOperator.__init__`: raises ValueError unless `lb < ub`, then
      NotCompatibleGeneratorException unless the inner generator is a
      `BoundedGenerator` (a `Distribution` is not one), then TypeError when
      one of its bounds is `None`, then ZeroDivisionError when its bounds
      are equal. On success the map sends the inner bounds onto the target
      bounds. */
  function NewScaling(kind: Kind, lb: real, ub: real): (r: Result<Scaling>)
    ensures lb >= ub ==> r == Err(ValueError)
    ensures lb < ub && !kind.BoundedGenerator? ==> r == Err(NotCompatibleGenerator)
    ensures lb < ub && kind.BoundedGenerator? && (kind.lb.None? || kind.ub.None?) ==> r == Err(TypeError)
    ensures lb < ub && kind.BoundedGenerator? && kind.lb.Some? && kind.ub.Some? && kind.lb.value == kind.ub.value ==>
              r == Err(ZeroDivision)
    ensures r.Ok? <==> lb < ub && kind.BoundedGenerator? && kind.lb.Some? && kind.ub.Some? && kind.lb.value != kind.ub.value
    ensures r.Ok? ==> r.value.mid == (lb + ub) / 2.0 && r.value.genMid == (kind.lb.value + kind.ub.value) / 2.0
    ensures r.Ok? ==> r.value.lb == lb && r.value.ub == ub && r.value.coef != 0.0
    ensures r.Ok? ==> r.value.Map(kind.lb.value) == lb && r.value.Map(kind.ub.value) == ub
  {
    if lb >= ub then Err(ValueError)
    else if !kind.BoundedGenerator? then Err(NotCompatibleGenerator)
    else if kind.lb.None? || kind.ub.None? then Err(TypeError)
    else
      var glb, gub := kind.lb.value, kind.ub.value;
      if gub - glb == 0.0 then Err(ZeroDivision)
      else
        var sc := Scaling(lb, ub, ub - (ub - lb) / 2.0, gub - (gub - glb) / 2.0, (ub - lb) / (gub - glb));
        ScalingEndpoints(sc, glb, gub);
        Ok(sc)
  }

  /** The scaling built from bounds `lb < ub` and inner bounds `glb != gub`
      sends `glb` to `lb` and `gub` to `ub`. */
  lemma ScalingEndpoints(sc: Scaling, glb: real, gub: real)
    requires sc.lb < sc.ub && gub - glb != 0.0
    requires sc.mid == sc.ub - (sc.ub - sc.lb) / 2.0
    requires sc.genMid == gub - (gub - glb) / 2.0
    requires sc.coef == (sc.ub - sc.lb) / (gub - glb)
    ensures sc.coef != 0.0 && sc.Map(glb) == sc.lb && sc.Map(gub) == sc.ub
  {
    Affine.Endpoints(sc.lb, sc.ub, glb, gub, sc.mid, sc.genMid, sc.coef);
  }

  /** `ScalingOperator.get_single`: one rescaled single of the inner generator. */
  function ScaleSingle<S>(sc: Scaling, single: S -> Result<(real, S)>, s: S): (r: Result<(real, S)>)
    ensures r.Ok? <==> single(s).Ok?
    ensures r.Ok? ==> r.value.0 == sc.Map(single(s).value.0) && r.value.1 == single(s).value.1
  {
    MapSingle(sc.Fn(), single, s)
  }

  /** `ScalingOperator.get_batch(n)`: the inner batch rescaled element-wise. */
  function ScaleBatch<S>(sc: Scaling, batch: (S, nat) -> Result<(seq<real>, S)>, s: S, n: nat)
    : (r: Result<(seq<real>, S)>)
    ensures r.Ok? <==> batch(s, n).Ok?
    ensures r.Ok? ==> |r.value.0| == |batch(s, n).value.0| && r.value.1 == batch(s, n).value.1
    ensures r.Ok? ==> forall j :: 0 <= j < |r.value.0| ==> r.value.0[j] == sc.Map(batch(s, n).value.0[j])
  {
    MapBatch(sc.Fn(), batch, s, n)
  }

  /** Over an inner generator whose batches equal its singles, a scaled
      batch equals scaled singles. */
  lemma ScaleBatchIsSingles<S>(
    sc: Scaling, single: S -> Result<(real, S)>, batch: (S, nat) -> Result<(seq<real>, S)>, s: S, n: nat)
    requires forall t, m :: batch(t, m) == Singles(single, t, m)
    ensures ScaleBatch(sc, batch, s, n) == Singles((t: S) => ScaleSingle(sc, single, t), s, n)
  {
    MapBatchIsSingles(sc.Fn(), single, batch, s, n);
    SinglesCongruent((t: S) => MapSingle(sc.Fn(), single, t), (t: S) => ScaleSingle(sc, single, t), s, n);
  }

  /** With inner bounds `glb < gub`, the map is strictly increasing and so
      sends `[glb, gub]` into `[lb, ub]`. */
  lemma ScalingMonotone(kind: Kind, lb: real, ub: real, x: real, y: real)
    requires NewScaling(kind, lb, ub).Ok?
    requires kind.lb.value < kind.ub.value
    ensures var sc := NewScaling(kind, lb, ub).value;
            (x < y ==> sc.Map(x) < sc.Map(y)) &&
            (kind.lb.value <= x <= kind.ub.value ==> lb <= sc.Map(x) <= ub)
  {
    var sc := NewScaling(kind, lb, ub).value;
    Affine.CoefPositive(lb, ub, kind.lb.value, kind.ub.value, sc.coef);
    Affine.Increasing(sc.coef, sc.genMid, sc.mid, x, y);
    Affine.Increasing(sc.coef, sc.genMid, sc.mid, kind.lb.value, x);
    Affine.Increasing(sc.coef, sc.genMid, sc.mid, x, kind.ub.value);
  }

  /** The map is invertible: `Unscale` undoes it and it undoes `Unscale`. */
  function Unscale(sc: Scaling, y: real): real
    requires sc.coef != 0.0
  {
    (y - sc.mid) / sc.coef + sc.genMid
  }

  lemma ScalingRoundTrip(sc: Scaling, x: real, y: real)
    requires sc.coef != 0.0
    ensures Unscale(sc, sc.Map(x)) == x
    ensures sc.Map(Unscale(sc, y)) == y
  {
    Affine.Inverse(sc.coef, sc.genMid, sc.mid, x, y);
  }

  /** A scaling of an inner generator bounded to `[-1, 1]` onto `[-10, 10]`
      multiplies by ten: the inputs `1, 0, -1, 0` give `10, 0, -10, 0`. */
  lemma ScalingExample()
    ensures NewScaling(BoundedGenerator(Some(-1.0), Some(1.0)), -10.0, 10.0).Ok?
    ensures var sc := NewScaling(BoundedGenerator(Some(-1.0), Some(1.0)), -10.0, 10.0).value;
            sc.Map(1.0) == 10.0 && sc.Map(0.0) == 0.0 && sc.Map(-1.0) == -10.0
  {
    var sc := NewScaling(BoundedGenerator(Some(-1.0), Some(1.0)), -10.0, 10.0).value;
    assert sc.mid == 0.0 && sc.genMid == 0.0;
  }
}

/** The real-number facts behind the `ScalingOperator` map
    `x * coef - genMid * coef + mid`, kept apart so that each product is
    reasoned about in a small context. */
module Affine {
  /** `x * coef - genMid * coef + mid`, evaluated left to right. */
  function Apply(coef: real, genMid: real, mid: real, x: real): real
  {
    x * coef - genMid * coef + mid
  }

  /** With `mid` and `genMid` the midpoints and `coef` the ratio of the
      widths, the map sends `glb` to `lb` and `gub` to `ub`. */
  lemma Endpoints(lb: real, ub: real, glb: real, gub: real, mid: real, genMid: real, coef: real)
    requires gub - glb != 0.0
    requires mid == ub - (ub - lb) / 2.0 && genMid == gub - (gub - glb) / 2.0
    requires coef == (ub - lb) / (gub - glb)
    ensures lb < ub ==> coef != 0.0
    ensures Apply(coef, genMid, mid, glb) == lb
    ensures Apply(coef, genMid, mid, gub) == ub
  {
    var d := gub - glb;
    assert coef * d == ub - lb;
    assert glb * coef - genMid * coef == (glb - genMid) * coef;
    assert glb - genMid == -d / 2.0;
    assert (-d / 2.0) * coef == -(coef * d) / 2.0;
    assert gub * coef - genMid * coef == (gub - genMid) * coef;
    assert gub - genMid == d / 2.0;
    assert (d / 2.0) * coef == (coef * d) / 2.0;
  }

  /** The ratio of two positive widths is positive. */
  lemma CoefPositive(lb: real, ub: real, glb: real, gub: real, coef: real)
    requires lb < ub && glb < gub
    requires coef == (ub - lb) / (gub - glb)
    ensures coef > 0.0
  {
  }

  /** With a positive coefficient the map is strictly increasing. */
  lemma Increasing(coef: real, genMid: real, mid: real, x: real, y: real)
    requires coef > 0.0
    ensures x < y ==> Apply(coef, genMid, mid, x) < Apply(coef, genMid, mid, y)
    ensures x <= y ==> Apply(coef, genMid, mid, x) <= Apply(coef, genMid, mid, y)
  {
    assert y * coef - x * coef == (y - x) * coef;
    if x < y {
      assert (y - x) * coef > 0.0;
    }
  }

  /** With a non-zero coefficient the map and `(y - mid) / coef + genMid`
      undo each other. */
  lemma Inverse(coef: real, genMid: real, mid: real, x: real, y: real)
    requires coef != 0.0
    ensures (Apply(coef, genMid, mid, x) - mid) / coef + genMid == x
    ensures Apply(coef, genMid, mid, (y - mid) / coef + genMid) == y
  {
    assert (x * coef - genMid * coef) / coef == x - genMid;
    assert ((y - mid) / coef + genMid) * coef == (y - mid) + genMid * coef;
  }
}
