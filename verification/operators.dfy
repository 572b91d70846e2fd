/** The binary operator nodes of `dsfaker/generators/base.py`:
    `ReduceOperator` with two operand generators, its subclasses `AddOperator`
    … `XorOperator`, and the overloads that build them. A node's value is the
    Python `operator` function applied to one value of each operand. */
module Operators {
  import opened Base
  import PyInt
  import PyReal

  /** A Python number as the operators see it: an `int` or a `float`
      (a float is modelled by its exact real value). */
  datatype Num = Int(i: int) | Float(r: real)

  /** The mathematical value of a number. */
  function Value(x: Num): real
  {
    match x
    case Int(i) => i as real
    case Float(r) => r
  }

  /** The functions of Python's `operator` module the subclasses use. */
  datatype Op = Add | Sub | TrueDiv | FloorDiv | Mul | Pow | Mod | And | Or | Xor

  /** `operator.add`: int for two ints, float otherwise. */
  function AddNum(a: Num, b: Num): (r: Num)
    ensures Value(r) == Value(a) + Value(b)
    ensures r.Int? <==> a.Int? && b.Int?
  {
    if a.Int? && b.Int? then Int(a.i + b.i) else Float(Value(a) + Value(b))
  }

  /** `operator.sub`. */
  function SubNum(a: Num, b: Num): (r: Num)
    ensures Value(r) == Value(a) - Value(b)
    ensures r.Int? <==> a.Int? && b.Int?
  {
    if a.Int? && b.Int? then Int(a.i - b.i) else Float(Value(a) - Value(b))
  }

  /** `operator.mul`. */
  function MulNum(a: Num, b: Num): (r: Num)
    ensures Value(r) == Value(a) * Value(b)
    ensures r.Int? <==> a.Int? && b.Int?
  {
    if a.Int? && b.Int? then
      PyReal.CastMul(a.i, b.i);
      Int(a.i * b.i)
    else Float(Value(a) * Value(b))
  }

  /** `operator.truediv`: always a float; a zero divisor raises
      ZeroDivisionError. */
  function TrueDivNum(a: Num, b: Num): (r: Result<Num>)
    ensures r.Err? <==> Value(b) == 0.0
    ensures r.Err? ==> r.error == ZeroDivision
    ensures r.Ok? ==> r.value.Float? && Value(r.value) * Value(b) == Value(a)
  {
    if Value(b) == 0.0 then Err(ZeroDivision) else Ok(Float(Value(a) / Value(b)))
  }

  /** `operator.floordiv`: the quotient rounded toward negative infinity,
      an int for two ints and an integral float otherwise; a zero divisor
      raises ZeroDivisionError. For two ints the integer quotient is the
      floor of the exact quotient, as it is for floats. */
  function FloorDivNum(a: Num, b: Num): (r: Result<Num>)
    ensures r.Err? <==> Value(b) == 0.0
    ensures r.Err? ==> r.error == ZeroDivision
    ensures r.Ok? ==> (r.value.Int? <==> a.Int? && b.Int?)
    ensures r.Ok? ==> Value(r.value) == PyReal.FloorDivReal(Value(a), Value(b)) as real
  {
    if Value(b) == 0.0 then Err(ZeroDivision)
    else if a.Int? && b.Int? then
      PyReal.IntFloorIsReal(a.i, b.i);
      Ok(Int(PyInt.FloorDiv(a.i, b.i)))
    else
      Ok(Float(PyReal.FloorDivReal(Value(a), Value(b)) as real))
  }

  /** `operator.mod`: the remainder of the floor division, which takes the
      sign of the divisor; a zero divisor raises ZeroDivisionError. For two
      ints the integer remainder is the remainder of the exact division. */
  function ModNum(a: Num, b: Num): (r: Result<Num>)
    ensures r.Err? <==> Value(b) == 0.0
    ensures r.Err? ==> r.error == ZeroDivision
    ensures r.Ok? ==> (r.value.Int? <==> a.Int? && b.Int?)
    ensures r.Ok? ==> Value(r.value) == PyReal.ModReal(Value(a), Value(b))
  {
    if Value(b) == 0.0 then Err(ZeroDivision)
    else if a.Int? && b.Int? then
      PyReal.IntFloorIsReal(a.i, b.i);
      Ok(Int(PyInt.Mod(a.i, b.i)))
    else
      Ok(Float(PyReal.ModReal(Value(a), Value(b))))
  }

  /** The quotient and remainder of the two Python operators belong
      together: whenever both succeed, `a == b * (a // b) + a % b` with the
      remainder on the divisor's side of 0, and the quotient is whole. */
  lemma FloorDivModAgree(a: Num, b: Num)
    requires Value(b) != 0.0
    ensures PyReal.Integral(Value(FloorDivNum(a, b).value))
    ensures PyReal.FloorPair(Value(a), Value(b), Value(FloorDivNum(a, b).value), Value(ModNum(a, b).value))
  {
  }

  /** `x ** k` for a natural exponent. */
  function RealPow(x: real, k: nat): real
  {
    if k == 0 then 1.0 else x * RealPow(x, k - 1)
  }

  /** `i ** k` on integers. */
  function IntPow(i: int, k: nat): int
  {
    if k == 0 then 1 else i * IntPow(i, k - 1)
  }

  /** Integer powers agree with real powers, and a non-zero base has a
      non-zero power. */
  lemma {:induction false} PowFacts(i: int, x: real, k: nat)
    ensures IntPow(i, k) as real == RealPow(i as real, k)
    ensures x != 0.0 ==> RealPow(x, k) != 0.0
  {
    if k > 0 {
      PowFacts(i, x, k - 1);
      PyReal.CastMul(i, IntPow(i, k - 1));
    }
  }

  /** The exponent of a power when it is integral: an int, or a float with
      an integral value. */
  function Exponent(b: Num): (k: Option<int>)
    ensures k.Some? <==> Value(b) == Value(b).Floor as real
    ensures k.Some? ==> k.value as real == Value(b)
  {
    match b
    case Int(i) => Some(i)
    case Float(r) => if r == r.Floor as real then Some(r.Floor) else None
  }

  /** `operator.pow`. Two ints with a non-negative exponent give an int; a
      negative integral exponent gives the float reciprocal, and raises
      ZeroDivisionError on a zero base. A non-integral float exponent is
      outside the model (its value is irrational or complex in general). */
  function PowNum(a: Num, b: Num): (r: Result<Num>)
    ensures r.Err? && r.error == Unsupported <==> Exponent(b).None?
    ensures r.Err? && r.error == ZeroDivision <==> Exponent(b).Some? && Exponent(b).value < 0 && Value(a) == 0.0
    ensures r.Err? ==> r.error == Unsupported || r.error == ZeroDivision
    ensures r.Ok? ==> (r.value.Int? <==> a.Int? && b.Int? && b.i >= 0)
    ensures r.Ok? && Exponent(b).value >= 0 ==> Value(r.value) == RealPow(Value(a), Exponent(b).value)
    ensures r.Ok? && Exponent(b).value < 0 ==> Value(r.value) * RealPow(Value(a), -Exponent(b).value) == 1.0
  {
    match Exponent(b)
    case None => Err(Unsupported)
    case Some(k) =>
      if k >= 0 then
        if a.Int? && b.Int? then
          PowFacts(a.i, 0.0, k);
          Ok(Int(IntPow(a.i, k)))
        else Ok(Float(RealPow(Value(a), k)))
      else if Value(a) == 0.0 then Err(ZeroDivision)
      else
        PowFacts(0, Value(a), -k);
        Ok(Float(1.0 / RealPow(Value(a), -k)))
  }

  /** `operator.and_`, `or_` and `xor` on ints; a float operand raises
      TypeError. */
  function BitNum(op: Op, a: Num, b: Num): (r: Result<Num>)
    requires op == And || op == Or || op == Xor
    ensures r.Err? <==> a.Float? || b.Float?
    ensures r.Err? ==> r.error == TypeError
    ensures r.Ok? ==> r.value.Int?
    ensures r.Ok? && op == Xor ==> a.i + b.i == r.value.i + 2 * PyInt.BitAnd(a.i, b.i)
    ensures r.Ok? && op == Or ==> r.value.i == PyInt.BitAnd(a.i, b.i) + PyInt.BitXor(a.i, b.i)
    ensures r.Ok? && op == And ==>
              forall k: nat :: PyInt.BitAt(r.value.i, k) == PyInt.BitAt(a.i, k) * PyInt.BitAt(b.i, k)
    ensures r.Ok? && op == Or ==>
              forall k: nat :: PyInt.BitAt(r.value.i, k) == (if PyInt.BitAt(a.i, k) == 1 || PyInt.BitAt(b.i, k) == 1 then 1 else 0)
    ensures r.Ok? && op == Xor ==>
              forall k: nat :: PyInt.BitAt(r.value.i, k) == (if PyInt.BitAt(a.i, k) != PyInt.BitAt(b.i, k) then 1 else 0)
  {
    if a.Float? || b.Float? then Err(TypeError)
    else
      PyInt.BitwiseIdentities(a.i, b.i);
      PyInt.BitwiseAllBits(a.i, b.i);
      match op
      case And => Ok(Int(PyInt.BitAnd(a.i, b.i)))
      case Or => Ok(Int(PyInt.BitOr(a.i, b.i)))
      case Xor => Ok(Int(PyInt.BitXor(a.i, b.i)))
  }

  /** The function a node applies to its two operand values. */
  function Apply(op: Op, a: Num, b: Num): (r: Result<Num>)
    ensures op == Add || op == Sub || op == Mul ==> r.Ok?
    ensures r.Err? ==> r.error == ZeroDivision || r.error == Unsupported || r.error == TypeError
  {
    match op
    case Add => Ok(AddNum(a, b))
    case Sub => Ok(SubNum(a, b))
    case TrueDiv => TrueDivNum(a, b)
    case FloorDiv => FloorDivNum(a, b)
    case Mul => Ok(MulNum(a, b))
    case Pow => PowNum(a, b)
    case Mod => ModNum(a, b)
    case And => BitNum(And, a, b)
    case Or => BitNum(Or, a, b)
    case Xor => BitNum(Xor, a, b)
  }

  /** What each operator of a node computes: `+`, `-` and `*` never raise,
      give an int for two ints, and compute the sum, difference and product;
      the three divisions raise exactly on a zero divisor; the bitwise
      operators raise exactly on a float operand. */
  lemma ApplyMeaning(op: Op, a: Num, b: Num)
    ensures op == Add || op == Sub || op == Mul ==> Apply(op, a, b).Ok? && (Apply(op, a, b).value.Int? <==> a.Int? && b.Int?)
    ensures op == Add ==> Value(Apply(op, a, b).value) == Value(a) + Value(b)
    ensures op == Sub ==> Value(Apply(op, a, b).value) == Value(a) - Value(b)
    ensures op == Mul ==> Value(Apply(op, a, b).value) == Value(a) * Value(b)
    ensures op == TrueDiv || op == FloorDiv || op == Mod ==> (Apply(op, a, b).Err? <==> Value(b) == 0.0)
    ensures op == And || op == Or || op == Xor ==> (Apply(op, a, b).Err? <==> a.Float? || b.Float?)
  {
  }

  /** The operator applied element-wise to two arrays of the same length;
      arrays of different lengths cannot be combined (ValueError). */
  function ApplyAll(op: Op, xs: seq<Num>, ys: seq<Num>): (r: Result<seq<Num>>)
    ensures r.Ok? <==> |xs| == |ys| && forall j :: 0 <= j < |xs| ==> Apply(op, xs[j], ys[j]).Ok?
    ensures r.Ok? ==> |r.value| == |xs| && forall j :: 0 <= j < |xs| ==> r.value[j] == Apply(op, xs[j], ys[j]).value
    ensures |xs| != |ys| ==> r == Err(ValueError)
    decreases |xs|
  {
    if |xs| != |ys| then Err(ValueError)
    else if xs == [] then Ok([])
    else
      var v :- Apply(op, xs[0], ys[0]);
      var rest :- ApplyAll(op, xs[1..], ys[1..]);
      Ok([v] + rest)
  }

  /** A two-operand `ReduceOperator`: the function, and the states of the
      left and right generators. */
  datatype Node<L, R> = Node(op: Op, left: L, right: R)

  /** `get_single`: one single of the left operand, then one of the right,
      combined by the function; each operand advances exactly once. */
  function NodeSingle<L, R>(lsingle: L -> Result<(Num, L)>, rsingle: R -> Result<(Num, R)>, g: Node<L, R>)
    : (r: Result<(Num, Node<L, R>)>)
    ensures r.Ok? <==> lsingle(g.left).Ok? && rsingle(g.right).Ok? &&
                       Apply(g.op, lsingle(g.left).value.0, rsingle(g.right).value.0).Ok?
    ensures r.Ok? ==> r.value.0 == Apply(g.op, lsingle(g.left).value.0, rsingle(g.right).value.0).value
    ensures r.Ok? ==> r.value.1 == Node(g.op, lsingle(g.left).value.1, rsingle(g.right).value.1)
  {
    var x :- lsingle(g.left);
    var y :- rsingle(g.right);
    var v :- Apply(g.op, x.0, y.0);
    Ok((v, Node(g.op, x.1, y.1)))
  }

  /** `get_batch(n)`: a batch of `n` of the left operand, then of the right,
      combined element-wise. */
  function NodeBatch<L, R>(lbatch: (L, nat) -> Result<(seq<Num>, L)>, rbatch: (R, nat) -> Result<(seq<Num>, R)>,
                           g: Node<L, R>, n: nat): (r: Result<(seq<Num>, Node<L, R>)>)
    ensures r.Ok? <==> lbatch(g.left, n).Ok? && rbatch(g.right, n).Ok? &&
                       ApplyAll(g.op, lbatch(g.left, n).value.0, rbatch(g.right, n).value.0).Ok?
    ensures r.Ok? ==> |r.value.0| == |lbatch(g.left, n).value.0| &&
                      forall j :: 0 <= j < |r.value.0| ==>
                        r.value.0[j] == Apply(g.op, lbatch(g.left, n).value.0[j], rbatch(g.right, n).value.0[j]).value
    ensures r.Ok? ==> r.value.1 == Node(g.op, lbatch(g.left, n).value.1, rbatch(g.right, n).value.1)
  {
    var xs :- lbatch(g.left, n);
    var ys :- rbatch(g.right, n);
    var vs :- ApplyAll(g.op, xs.0, ys.0);
    Ok((vs, Node(g.op, xs.1, ys.1)))
  }

  /** A node whose operands keep the batch/single promise keeps it too:
      its batch of `n` succeeds exactly when `n` singles do, and then
      returns the same values and leaves both operands in the same state. */
  lemma {:induction false} NodeBatchIsSingles<L, R>(
    lsingle: L -> Result<(Num, L)>, rsingle: R -> Result<(Num, R)>,
    lbatch: (L, nat) -> Result<(seq<Num>, L)>, rbatch: (R, nat) -> Result<(seq<Num>, R)>,
    g: Node<L, R>, n: nat)
    requires forall l, m :: lbatch(l, m) == Singles(lsingle, l, m)
    requires forall r, m :: rbatch(r, m) == Singles(rsingle, r, m)
    ensures var single := (h: Node<L, R>) => NodeSingle(lsingle, rsingle, h);
            (NodeBatch(lbatch, rbatch, g, n).Ok? <==> Singles(single, g, n).Ok?) &&
            (NodeBatch(lbatch, rbatch, g, n).Ok? ==> NodeBatch(lbatch, rbatch, g, n) == Singles(single, g, n))
    decreases n
  {
    var single := (h: Node<L, R>) => NodeSingle(lsingle, rsingle, h);
    var batch := NodeBatch(lbatch, rbatch, g, n);
    var run := Singles(single, g, n);
    if n > 0 {
      var xs, ys := Singles(lsingle, g.left, n), Singles(rsingle, g.right, n);
      var x, y := lsingle(g.left), rsingle(g.right);
      if x.Ok? && y.Ok? {
        var g1 := Node(g.op, x.value.1, y.value.1);
        NodeBatchIsSingles(lsingle, rsingle, lbatch, rbatch, g1, n - 1);
        var xs1, ys1 := Singles(lsingle, x.value.1, n - 1), Singles(rsingle, y.value.1, n - 1);
        assert xs == Prepend([x.value.0], xs1);
        assert ys == Prepend([y.value.0], ys1);
        var v := Apply(g.op, x.value.0, y.value.0);
        if xs1.Ok? && ys1.Ok? {
          var tail := ApplyAll(g.op, xs1.value.0, ys1.value.0);
          assert xs.value.0[1..] == xs1.value.0 && ys.value.0[1..] == ys1.value.0;
          if v.Ok? && tail.Ok? {
            assert ApplyAll(g.op, xs.value.0, ys.value.0) == Ok([v.value] + tail.value);
          }
        }
        assert run == (if v.Err? then Err(v.error) else Prepend([v.value], Singles(single, g1, n - 1)));
      }
    }
  }

  /** The symbols Python overloads on a `Generator`. */
  datatype Symbol = Plus | Minus | Slash | DoubleSlash | Star | DoubleStar | Percent | Ampersand | Bar | Caret

  /** The overload table: `__add__` … `__xor__` each build the node of the
      matching operator with `self` on the left and `other` on the right. */
  function Overload<L, R>(sym: Symbol, self: L, other: R): (g: Node<L, R>)
    ensures g.left == self && g.right == other
    ensures SymbolOf(g.op) == sym
  {
    var op := match sym
      case Plus => Add
      case Minus => Sub
      case Slash => TrueDiv
      case DoubleSlash => FloorDiv
      case Star => Mul
      case DoubleStar => Pow
      case Percent => Mod
      case Ampersand => And
      case Bar => Or
      case Caret => Xor;
    Node(op, self, other)
  }

  /** The symbol whose overload builds a node of operator `op`. */
  function SymbolOf(op: Op): (sym: Symbol)
  {
    match op
    case Add => Plus
    case Sub => Minus
    case TrueDiv => Slash
    case FloorDiv => DoubleSlash
    case Mul => Star
    case Pow => DoubleStar
    case Mod => Percent
    case And => Ampersand
    case Or => Bar
    case Xor => Caret
  }

  /** Every operator has exactly one symbol: the overload table is a
      bijection, so no two symbols build the same kind of node. */
  lemma OverloadIsBijective<L, R>(s1: Symbol, s2: Symbol, a: L, b: R, op: Op)
    ensures Overload(s1, a, b).op == Overload(s2, a, b).op ==> s1 == s2
    ensures exists s :: Overload(s, a, b).op == op
  {
    OverloadReaches(SymbolOf(op), a, b, op);
  }

  /** The overload of `SymbolOf(op)` builds a node of operator `op`. */
  lemma OverloadReaches<L, R>(sym: Symbol, a: L, b: R, op: Op)
    requires sym == SymbolOf(op)
    ensures Overload(sym, a, b).op == op
  {
  }

  /** `g ∘ g`: the same generator object on both sides of a node. Its state
      is the one operand's state. */
  datatype Shared<S> = Shared(op: Op, operand: S)

  /** `get_single` of an aliased node: the left single, then the right single
      on the state the left one left behind. */
  function SharedSingle<S>(single: S -> Result<(Num, S)>, g: Shared<S>): Result<(Num, Shared<S>)>
  {
    var x :- single(g.operand);
    var y :- single(x.1);
    var v :- Apply(g.op, x.0, y.0);
    Ok((v, Shared(g.op, y.1)))
  }

  /** `get_batch(n)` of an aliased node: two successive batches of `n`. */
  function SharedBatch<S>(batch: (S, nat) -> Result<(seq<Num>, S)>, g: Shared<S>, n: nat): Result<(seq<Num>, Shared<S>)>
  {
    var xs :- batch(g.operand, n);
    var ys :- batch(xs.1, n);
    var vs :- ApplyAll(g.op, xs.0, ys.0);
    Ok((vs, Shared(g.op, ys.1)))
  }

  /** On a source, an aliased node's single combines two adjacent draws and
      advances the source by two, while its batch of `n` combines draw `j`
      with draw `n + j`: the batch/single promise does not survive aliasing. */
  lemma SharedReadsDifferently(g: Shared<Source<Num>>, n: nat, j: nat)
    requires j < n
    ensures var (d, p) := (g.operand.draw, g.operand.pos);
            SharedSingle(Draw, g) == (var v := Apply(g.op, d(p), d(p + 1));
                                      if v.Ok? then Ok((v.value, Shared(g.op, Source(d, p + 2)))) else Err(v.error))
    ensures var (d, p) := (g.operand.draw, g.operand.pos);
            SharedBatch(DrawBatch, g, n).Ok? ==>
              Apply(g.op, d(p + j), d(p + n + j)).Ok? &&
              SharedBatch(DrawBatch, g, n).value.0[j] == Apply(g.op, d(p + j), d(p + n + j)).value &&
              SharedBatch(DrawBatch, g, n).value.1 == Shared(g.op, Source(d, p + 2 * n))
  {
    SharedBatchReadsApart(g, n, j);
  }

  /** The batch half of the lemma above: value `j` of a batch of `n`
      combines draws `j` and `n + j`, and the source moves on by `2 n`. */
  lemma SharedBatchReadsApart(g: Shared<Source<Num>>, n: nat, j: nat)
    requires j < n
    ensures var d, p := g.operand.draw, g.operand.pos;
            SharedBatch(DrawBatch, g, n).Ok? ==>
              Apply(g.op, d(p + j), d(p + n + j)).Ok? &&
              SharedBatch(DrawBatch, g, n).value.0[j] == Apply(g.op, d(p + j), d(p + n + j)).value &&
              SharedBatch(DrawBatch, g, n).value.1 == Shared(g.op, Source(d, p + 2 * n))
  {
    if SharedBatch(DrawBatch, g, n).Ok? {
      SharedBatchValue(g, n, j);
      SharedBatchState(g, n);
    }
  }

  /** Value `j` of an aliased node's batch over a source. */
  lemma SharedBatchValue(g: Shared<Source<Num>>, n: nat, j: nat)
    requires j < n && SharedBatch(DrawBatch, g, n).Ok?
    ensures Apply(g.op, g.operand.draw(g.operand.pos + j), g.operand.draw(g.operand.pos + n + j)).Ok?
    ensures SharedBatch(DrawBatch, g, n).value.0[j] ==
              Apply(g.op, g.operand.draw(g.operand.pos + j), g.operand.draw(g.operand.pos + n + j)).value
  {
    var xs := g.operand.Take(n);
    var ys := xs.1.Take(n);
    assert DrawBatch(g.operand, n) == Ok(xs) && DrawBatch(xs.1, n) == Ok(ys);
    SharedBatchAt(DrawBatch, g, n, j);
    var x, y := xs.0[j], ys.0[j];
    assert x == g.operand.draw(g.operand.pos + j);
    assert y == g.operand.draw(g.operand.pos + n + j);
    assert SharedBatch(DrawBatch, g, n).value.0[j] == Apply(g.op, x, y).value;
  }

  /** The source after an aliased node's batch of `n` has moved on by `2 n`. */
  lemma SharedBatchState(g: Shared<Source<Num>>, n: nat)
    requires SharedBatch(DrawBatch, g, n).Ok?
    ensures SharedBatch(DrawBatch, g, n).value.1 == Shared(g.op, Source(g.operand.draw, g.operand.pos + 2 * n))
  {
    var xs := g.operand.Take(n);
    assert DrawBatch(g.operand, n) == Ok(xs);
    assert DrawBatch(xs.1, n) == Ok(xs.1.Take(n));
  }

  /** For any operand, value `j` of an aliased node's batch combines value
      `j` of the first batch with value `j` of the second. */
  lemma SharedBatchAt<S>(batch: (S, nat) -> Result<(seq<Num>, S)>, g: Shared<S>, n: nat, j: nat)
    requires SharedBatch(batch, g, n).Ok? && j < |SharedBatch(batch, g, n).value.0|
    ensures batch(g.operand, n).Ok? && batch(batch(g.operand, n).value.1, n).Ok?
    ensures var xs := batch(g.operand, n).value.0;
            var ys := batch(batch(g.operand, n).value.1, n).value;
            j < |xs| && j < |ys.0| && Apply(g.op, xs[j], ys.0[j]).Ok? &&
            SharedBatch(batch, g, n).value.0[j] == Apply(g.op, xs[j], ys.0[j]).value &&
            SharedBatch(batch, g, n).value.1 == Shared(g.op, ys.1)
  {
  }

  /** An aliased node over a source. */
  function SharedDraw(g: Shared<Source<Num>>): Result<(Num, Shared<Source<Num>>)>
  {
    SharedSingle(Draw, g)
  }

  /** The counting source: draw `k` is the integer `k`. */
  function Count(k: nat): Num
  {
    Int(k)
  }

  /** The counting source `0, 1, 2, …` added to itself: two singles give
      `0 + 1` and `2 + 3`, a batch of two gives `0 + 2` and `1 + 3`. */
  lemma SharedCounterexample()
    ensures Singles(SharedDraw, Shared(Add, Source(Count, 0)), 2)
              == Ok(([Int(1), Int(5)], Shared(Add, Source(Count, 4))))
    ensures SharedBatch(DrawBatch, Shared(Add, Source(Count, 0)), 2) == Ok(([Int(2), Int(4)], Shared(Add, Source(Count, 4))))
  {
    SharedSinglesExample();
    SharedBatchExample();
  }

  /** The two singles of the counting source added to itself. */
  lemma SharedSinglesExample()
    ensures Singles(SharedDraw, Shared(Add, Source(Count, 0)), 2)
              == Ok(([Int(1), Int(5)], Shared(Add, Source(Count, 4))))
  {
    var g := Shared(Add, Source(Count, 0));
    var g2 := Shared(Add, Source(Count, 2));
    var g4 := Shared(Add, Source(Count, 4));
    CountStep(0);
    CountStep(2);
    SharedSecondSingle(g2, g4);
    assert [Int(1)] + [Int(5)] == [Int(1), Int(5)];
    assert Singles(SharedDraw, g, 2) == Prepend([Int(1)], Singles(SharedDraw, g2, 1));
  }

  /** One single of the counting source added to itself, from draw `k`:
      `k + (k + 1)`, and the source moves on by two. */
  lemma CountStep(k: nat)
    ensures SharedDraw(Shared(Add, Source(Count, k))) == Ok((Int(2 * k + 1), Shared(Add, Source(Count, k + 2))))
  {
    var d := Draw(Source(Count, k)).value;
    assert d == (Int(k), Source(Count, k + 1));
    assert Draw(d.1).value == (Int(k + 1), Source(Count, k + 2));
    assert Apply(Add, Int(k), Int(k + 1)) == Ok(Int(2 * k + 1));
  }

  /** A run of one single is that single's value. */
  lemma SharedSecondSingle(g2: Shared<Source<Num>>, g4: Shared<Source<Num>>)
    requires SharedDraw(g2) == Ok((Int(5), g4))
    ensures Singles(SharedDraw, g2, 1) == Ok(([Int(5)], g4))
  {
    assert Singles(SharedDraw, g4, 0) == Ok(([], g4));
    assert [Int(5)] + [] == [Int(5)];
  }

  /** The batch of two of the counting source added to itself. */
  lemma SharedBatchExample()
    ensures SharedBatch(DrawBatch, Shared(Add, Source(Count, 0)), 2) == Ok(([Int(2), Int(4)], Shared(Add, Source(Count, 4))))
  {
    var g := Shared(Add, Source(Count, 0));
    SharedReadsDifferently(g, 2, 0);
    SharedReadsDifferently(g, 2, 1);
    var xs := Source(Count, 0).Take(2);
    var ys := Source(Count, 2).Take(2);
    var vs := ApplyAll(Add, xs.0, ys.0);
    assert vs.Ok?;
    assert vs.value == [Int(2), Int(4)];
  }
}
