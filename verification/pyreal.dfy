/** Python's floor division and remainder on floats, modelled on exact
    reals, and the link with the integer operators of `PyInt`. */
module PyReal {
  import PyInt

  /** `(i * j) as real` is the product of the reals. */
  lemma CastMul(i: int, j: int)
    ensures (i * j) as real == (i as real) * (j as real)
  {
  }

  /** `q` and `m` are the floor quotient and the remainder of `a` by `b`:
      `a == b * q + m`, with `m` between 0 and `b` on the divisor's side. */
  predicate FloorPair(a: real, b: real, q: real, m: real)
  {
    a == b * q + m && (b > 0.0 ==> 0.0 <= m < b) && (b < 0.0 ==> b < m <= 0.0)
  }

  /** `x` is a whole number. */
  predicate Integral(x: real)
  {
    x == x.Floor as real
  }

  /** The floor quotient and remainder of two reals: `q` is the floor of
      `a / b` and the remainder is what is left of `a`. */
  lemma RealFloorPair(a: real, b: real, q: int)
    requires b != 0.0 && 0.0 <= a / b - q as real < 1.0
    ensures FloorPair(a, b, q as real, a - b * (q as real))
  {
    var f := a / b - q as real;
    var bf := b * f;
    Residue(a, b, q as real, f, bf);
    ScaleFraction(b, f, bf);
  }

  /** `x.Floor` is the integer at most one below `x`. */
  lemma FloorBounds(x: real)
    ensures 0.0 <= x - x.Floor as real < 1.0
  {
  }

  /** What remains of `a` after `q` times `b` is `b` times the fractional
      part of `a / b`. */
  lemma Residue(a: real, b: real, q: real, f: real, bf: real)
    requires b != 0.0 && f == a / b - q && bf == b * f
    ensures a - b * q == bf
  {
  }

  /** A fraction in `[0, 1)` of `b` lies between 0 and `b`. */
  lemma ScaleFraction(b: real, f: real, bf: real)
    requires 0.0 <= f < 1.0 && bf == b * f
    ensures b > 0.0 ==> 0.0 <= bf < b
    ensures b < 0.0 ==> b < bf <= 0.0
  {
    assert b - b * f == b * (1.0 - f);
    assert 1.0 - f > 0.0;
    if b > 0.0 {
      assert b * (1.0 - f) > 0.0;
      assert b * f >= 0.0;
    } else if b < 0.0 {
      assert b * (1.0 - f) < 0.0;
      assert b * f <= 0.0;
    }
  }

  /** Python's `a // b` on floats, modelled on reals: the floor of the
      exact quotient. */
  function FloorDivReal(a: real, b: real): (q: int)
    requires b != 0.0
    ensures FloorPair(a, b, q as real, a - b * (q as real))
  {
    var q := (a / b).Floor;
    FloorBounds(a / b);
    RealFloorPair(a, b, q);
    q
  }

  /** Python's `a % b` on floats, modelled on reals: what the floor
      division leaves, on the divisor's side of 0. */
  function ModReal(a: real, b: real): (m: real)
    requires b != 0.0
    ensures FloorPair(a, b, FloorDivReal(a, b) as real, m)
  {
    a - b * (FloorDivReal(a, b) as real)
  }

  /** The integer floor quotient and remainder, seen as reals. */
  lemma IntFloorPair(a: int, b: int)
    requires b != 0
    ensures FloorPair(a as real, b as real, PyInt.FloorDiv(a, b) as real, (a as real) - (b as real) * (PyInt.FloorDiv(a, b) as real))
    ensures PyInt.Mod(a, b) as real == (a as real) - (b as real) * (PyInt.FloorDiv(a, b) as real)
  {
    var q, m := PyInt.FloorDiv(a, b), PyInt.Mod(a, b);
    CastMul(b, q);
  }

  /** The floor quotient is unique: two integral quotients with remainders
      on the divisor's side are the same, and so are the remainders. */
  lemma FloorPairUnique(a: real, b: real, q1: int, q2: int, m1: real, m2: real)
    requires b != 0.0
    requires FloorPair(a, b, q1 as real, m1) && FloorPair(a, b, q2 as real, m2)
    ensures q1 == q2 && m1 == m2
  {
    var d := (q2 - q1) as real;
    var bd := b * d;
    assert m1 - m2 == bd;
    UnitMultiple(b, d, bd);
  }

  /** A multiple `b * d` strictly inside `(-|b|, |b|)` has `|d| < 1`. */
  lemma UnitMultiple(b: real, d: real, bd: real)
    requires b != 0.0 && bd == b * d
    requires b > 0.0 ==> -b < bd < b
    requires b < 0.0 ==> b < bd < -b
    ensures -1.0 < d < 1.0
  {
  }

  /** On integers, Python's floor quotient and remainder agree with those
      of the exact real quotient. */
  lemma IntFloorIsReal(a: int, b: int)
    requires b != 0
    ensures PyInt.FloorDiv(a, b) == FloorDivReal(a as real, b as real)
    ensures PyInt.Mod(a, b) as real == ModReal(a as real, b as real)
  {
    IntFloorPair(a, b);
    var q := FloorDivReal(a as real, b as real);
    FloorPairUnique(a as real, b as real, PyInt.FloorDiv(a, b), q,
                    PyInt.Mod(a, b) as real, ModReal(a as real, b as real));
  }
}
