/** Python's integer semantics, written out where they differ from Dafny's.

    Dafny's `/` and `%` are Euclidean (the remainder is never negative);
    Python's `//` and `%` round the quotient toward negative infinity, so the
    remainder takes the sign of the divisor. Python's `&`, `|` and `^` act on
    the infinite two's-complement expansion of unbounded integers. */
module PyInt {

  /** The quotient and remainder of a Euclidean division by a positive
      divisor are unique. */
  lemma DivModUnique(a: int, l: int, q: int, r: int)
    requires l > 0
    requires a == l * q + r && 0 <= r < l
    ensures a / l == q && a % l == r
  {
    var q0, r0 := a / l, a % l;
    assert a == l * q0 + r0 && 0 <= r0 < l;
    var d := q - q0;
    assert l * d == r0 - r by {
      assert l * q - l * q0 == l * d;
    }
    if d > 0 {
      MulAtLeast(l, d);
    } else if d < 0 {
      MulAtLeast(l, -d);
    }
  }

  /** A positive multiple of a positive number is at least that number. */
  lemma MulAtLeast(l: int, d: int)
    requires l > 0 && d >= 1
    ensures l * d >= l
  {
    assert l * d == l * (d - 1) + l;
    assert l * (d - 1) >= 0;
  }

  /** Adding a multiple of the modulus does not change the remainder. */
  lemma ModShift(a: int, k: int, l: int)
    requires l > 0
    ensures (a + k * l) % l == a % l
    ensures (a + k * l) / l == a / l + k
  {
    DivModUnique(a + k * l, l, a / l + k, a % l);
  }

  /** Reducing one summand first does not change the remainder of a sum. */
  lemma ModAddLeft(a: int, b: int, l: int)
    requires l > 0
    ensures (a % l + b) % l == (a + b) % l
  {
    ModShift(a % l + b, a / l, l);
  }

  /** Python's `a // b`: the quotient rounded toward negative infinity. */
  function FloorDiv(a: int, b: int): (q: int)
    requires b != 0
    ensures b > 0 ==> b * q <= a < b * q + b
    ensures b < 0 ==> b * q + b < a <= b * q
  {
    if b > 0 || a % b == 0 then a / b else a / b - 1
  }

  /** Python's `a % b`: the remainder whose sign follows the divisor. */
  function Mod(a: int, b: int): (m: int)
    requires b != 0
    ensures a == b * FloorDiv(a, b) + m
    ensures b > 0 ==> 0 <= m < b
    ensures b < 0 ==> b < m <= 0
  {
    a - b * FloorDiv(a, b)
  }

  /** Floor quotient and remainder are unique: any pair that decomposes `a`
      with a remainder of the divisor's sign is Python's pair. */
  lemma FloorDivUnique(a: int, b: int, q: int, m: int)
    requires b != 0
    requires a == b * q + m
    requires b > 0 ==> 0 <= m < b
    requires b < 0 ==> b < m <= 0
    ensures FloorDiv(a, b) == q && Mod(a, b) == m
  {
    var q0 := FloorDiv(a, b);
    var m0 := Mod(a, b);
    var d := q - q0;
    assert b * d == m0 - m by {
      assert b * q - b * q0 == b * d;
    }
    if d != 0 {
      var e := if d > 0 then d else -d;
      var c := if b > 0 then b else -b;
      MulAtLeast(c, e);
    }
  }

  /** The ceiling of `a / b` for a positive divisor, as `math.ceil` of the
      exact quotient. */
  function CeilDiv(a: int, b: int): (c: int)
    requires b > 0
    ensures b * c - b < a <= b * c
  {
    -FloorDiv(-a, b)
  }

  /** Base two magnitude used as the termination measure of the bitwise
      operators: 0 and -1 are the two fixed points of halving. */
  function Mag(a: int): nat
  {
    if a >= 0 then a else -a - 1
  }

  /** The lowest bit of `a` in two's complement. */
  function Bit(a: int): int
  {
    a % 2
  }

  /** Python's `a & b` on unbounded integers. */
  function BitAnd(a: int, b: int): int
    decreases Mag(a) + Mag(b)
  {
    if (a == 0 || a == -1) && (b == 0 || b == -1) then
      (if a == -1 && b == -1 then -1 else 0)
    else
      2 * BitAnd(a / 2, b / 2) + Bit(a) * Bit(b)
  }

  /** Python's `a | b` on unbounded integers. */
  function BitOr(a: int, b: int): int
    decreases Mag(a) + Mag(b)
  {
    if (a == 0 || a == -1) && (b == 0 || b == -1) then
      (if a == -1 || b == -1 then -1 else 0)
    else
      2 * BitOr(a / 2, b / 2) + (Bit(a) + Bit(b) - Bit(a) * Bit(b))
  }

  /** Python's `a ^ b` on unbounded integers. */
  function BitXor(a: int, b: int): int
    decreases Mag(a) + Mag(b)
  {
    if (a == 0 || a == -1) && (b == 0 || b == -1) then
      (if a != b then -1 else 0)
    else
      2 * BitXor(a / 2, b / 2) + (Bit(a) + Bit(b)) % 2
  }

  /** The carry identity of binary addition, `a + b == (a ^ b) + 2 * (a & b)`,
      and `a | b == (a & b) + (a ^ b)`: the three operators agree with each
      other and with integer addition on every pair of integers. */
  lemma {:induction false} BitwiseIdentities(a: int, b: int)
    ensures a + b == BitXor(a, b) + 2 * BitAnd(a, b)
    ensures BitOr(a, b) == BitAnd(a, b) + BitXor(a, b)
    decreases Mag(a) + Mag(b)
  {
    if !((a == 0 || a == -1) && (b == 0 || b == -1)) {
      var x, y := Bit(a), Bit(b);
      HalfAndBit(a);
      HalfAndBit(b);
      BitwiseIdentities(a / 2, b / 2);
      BitPair(x, y);
    }
  }

  /** `a` is twice its half plus its lowest bit, which is 0 or 1. */
  lemma HalfAndBit(a: int)
    ensures a == 2 * (a / 2) + Bit(a) && (Bit(a) == 0 || Bit(a) == 1)
  {
  }

  /** The one-bit sum, carry and or. */
  lemma BitPair(x: int, y: int)
    requires (x == 0 || x == 1) && (y == 0 || y == 1)
    ensures x + y == (x + y) % 2 + 2 * (x * y)
    ensures x + y - x * y == x * y + (x + y) % 2
  {
    if x == 0 {
      assert x * y == 0;
    } else {
      assert x * y == y;
    }
  }

  /** `2 ** k`. */
  function Pow2(k: nat): (p: int)
    ensures p >= 1
  {
    if k == 0 then 1 else 2 * Pow2(k - 1)
  }

  /** Bit `k` of the two's-complement expansion of `a`: the parity of
      `a // 2 ** k`, with the quotient rounded toward negative infinity. */
  function BitAt(a: int, k: nat): (x: int)
    ensures x == 0 || x == 1
  {
    (a / Pow2(k)) % 2
  }

  /** Bit 0 is the lowest bit, and bit `k + 1` of `a` is bit `k` of its half. */
  lemma BitAtShift(a: int, k: nat)
    ensures BitAt(a, 0) == Bit(a)
    ensures BitAt(a, k + 1) == BitAt(a / 2, k)
  {
    var p := Pow2(k);
    var h, q := a / 2, (a / 2) / p;
    var r0, r1 := a % 2, (a / 2) % p;
    assert a == 2 * h + r0 && h == p * q + r1;
    assert a == (2 * p) * q + (2 * r1 + r0) by {
      assert 2 * (p * q) == (2 * p) * q;
    }
    DivModUnique(a, 2 * p, q, 2 * r1 + r0);
    DivModUnique(a, 1, a, 0);
  }

  /** Every bit of 0 is 0 and every bit of -1 is 1. */
  lemma BitAtFixed(k: nat)
    ensures BitAt(0, k) == 0 && BitAt(-1, k) == 1
  {
    var p := Pow2(k);
    DivModUnique(0, p, 0, 0);
    DivModUnique(-1, p, -1, p - 1);
  }

  /** The bits of `2 c + e`, for a bit `e`: bit 0 is `e`, and the others are
      the bits of `c`. */
  lemma BitAtDouble(c: int, e: int, k: nat)
    requires e == 0 || e == 1
    ensures BitAt(2 * c + e, 0) == e
    ensures k > 0 ==> BitAt(2 * c + e, k) == BitAt(c, k - 1)
  {
    BitAtShift(2 * c + e, 0);
    DivModUnique(2 * c + e, 2, c, e);
    if k > 0 {
      BitAtShift(2 * c + e, k - 1);
    }
  }

  /** The three operators on the fixed points 0 and -1, bit by bit. */
  lemma BitwiseFixedAt(a: int, b: int, k: nat)
    requires (a == 0 || a == -1) && (b == 0 || b == -1)
    ensures BitAt(BitAnd(a, b), k) == BitAt(a, k) * BitAt(b, k)
    ensures BitAt(BitOr(a, b), k) == BitAt(a, k) + BitAt(b, k) - BitAt(a, k) * BitAt(b, k)
    ensures BitAt(BitXor(a, b), k) == (if BitAt(a, k) != BitAt(b, k) then 1 else 0)
  {
    BitAtFixed(k);
  }

  /** `a & b` is bitwise and: every bit of it is the product of the bits of
      `a` and `b`, on all integers, negative ones included. */
  lemma {:induction false} BitAndAt(a: int, b: int, k: nat)
    ensures BitAt(BitAnd(a, b), k) == BitAt(a, k) * BitAt(b, k)
    decreases k
  {
    BitAtShift(a, 0);
    BitAtShift(b, 0);
    if (a == 0 || a == -1) && (b == 0 || b == -1) {
      BitwiseFixedAt(a, b, k);
    } else {
      HalfAndBit(a);
      HalfAndBit(b);
      var e := Bit(a) * Bit(b);
      assert e == 0 || e == 1;
      assert BitAnd(a, b) == 2 * BitAnd(a / 2, b / 2) + e;
      BitAtDouble(BitAnd(a / 2, b / 2), e, k);
      if k > 0 {
        BitAtShift(a, k - 1);
        BitAtShift(b, k - 1);
        BitAndAt(a / 2, b / 2, k - 1);
      }
    }
  }

  /** `a | b` is bitwise or: a bit of it is 1 exactly when the bit of `a`
      or of `b` is 1. */
  lemma {:induction false} BitOrAt(a: int, b: int, k: nat)
    ensures BitAt(BitOr(a, b), k) == BitAt(a, k) + BitAt(b, k) - BitAt(a, k) * BitAt(b, k)
    decreases k
  {
    BitAtShift(a, 0);
    BitAtShift(b, 0);
    if (a == 0 || a == -1) && (b == 0 || b == -1) {
      BitwiseFixedAt(a, b, k);
    } else {
      HalfAndBit(a);
      HalfAndBit(b);
      var x, y := Bit(a), Bit(b);
      var e := x + y - x * y;
      assert e == 0 || e == 1 by { BitPair(x, y); }
      assert BitOr(a, b) == 2 * BitOr(a / 2, b / 2) + e;
      BitAtDouble(BitOr(a / 2, b / 2), e, k);
      if k > 0 {
        BitAtShift(a, k - 1);
        BitAtShift(b, k - 1);
        BitOrAt(a / 2, b / 2, k - 1);
      }
    }
  }

  /** `a ^ b` is bitwise exclusive or: a bit of it is 1 exactly when the
      bits of `a` and `b` differ. */
  lemma {:induction false} BitXorAt(a: int, b: int, k: nat)
    ensures BitAt(BitXor(a, b), k) == (if BitAt(a, k) != BitAt(b, k) then 1 else 0)
    decreases k
  {
    BitAtShift(a, 0);
    BitAtShift(b, 0);
    if (a == 0 || a == -1) && (b == 0 || b == -1) {
      BitwiseFixedAt(a, b, k);
    } else {
      HalfAndBit(a);
      HalfAndBit(b);
      var e := (Bit(a) + Bit(b)) % 2;
      assert BitXor(a, b) == 2 * BitXor(a / 2, b / 2) + e;
      BitAtDouble(BitXor(a / 2, b / 2), e, k);
      if k > 0 {
        BitAtShift(a, k - 1);
        BitAtShift(b, k - 1);
        BitXorAt(a / 2, b / 2, k - 1);
      }
    }
  }

  /** The three operators at every bit position at once. */
  lemma BitwiseAllBits(a: int, b: int)
    ensures forall k: nat :: BitAt(BitAnd(a, b), k) == BitAt(a, k) * BitAt(b, k)
    ensures forall k: nat :: BitAt(BitOr(a, b), k) == BitAt(a, k) + BitAt(b, k) - BitAt(a, k) * BitAt(b, k)
    ensures forall k: nat :: BitAt(BitXor(a, b), k) == (if BitAt(a, k) != BitAt(b, k) then 1 else 0)
  {
    forall k: nat
      ensures BitAt(BitAnd(a, b), k) == BitAt(a, k) * BitAt(b, k)
      ensures BitAt(BitOr(a, b), k) == BitAt(a, k) + BitAt(b, k) - BitAt(a, k) * BitAt(b, k)
      ensures BitAt(BitXor(a, b), k) == (if BitAt(a, k) != BitAt(b, k) then 1 else 0)
    {
      BitAndAt(a, b, k);
      BitOrAt(a, b, k);
      BitXorAt(a, b, k);
    }
  }

  /** On the bits 0 and 1 the operators are the boolean truth tables. */
  lemma BitTruthTables(a: int, b: int)
    requires 0 <= a <= 1 && 0 <= b <= 1
    ensures BitAnd(a, b) == (if a == 1 && b == 1 then 1 else 0)
    ensures BitOr(a, b) == (if a == 1 || b == 1 then 1 else 0)
    ensures BitXor(a, b) == (if a != b then 1 else 0)
  {
  }
}
