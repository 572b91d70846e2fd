/** `Autoincrement` and `AutoincrementWithGenerator`
    (`dsfaker/generators/autoincrement.py`). */
module Autoincrements {
  import opened Base
  import PyInt
  import PySeq

  /** `numpy.arange(start, stop, step)` on integers: the terms of the
      progression `start, start + step, ...` that lie strictly before `stop`
      in the direction of `step`. A zero step raises. */
  function Arange(start: int, stop: int, step: int): (r: Result<seq<int>>)
    ensures r.Err? <==> step == 0
    ensures r.Err? ==> r.error == ZeroDivision
    ensures r.Ok? ==> forall j :: 0 <= j < |r.value| ==> r.value[j] == start + j * step
    ensures r.Ok? && step > 0 ==>
              (forall j :: 0 <= j < |r.value| ==> r.value[j] < stop) && start + |r.value| * step >= stop
    ensures r.Ok? && step < 0 ==>
              (forall j :: 0 <= j < |r.value| ==> r.value[j] > stop) && start + |r.value| * step <= stop
  {
    if step == 0 then Err(ZeroDivision)
    else
      var n := ArangeLength(start, stop, step);
      Ok(seq(n, j requires 0 <= j < n => start + j * step))
  }

  /** The length numpy gives `arange(start, stop, step)`:
      `ceil((stop - start) / step)`, or 0 when that is negative. It is the
      number of terms before the progression reaches `stop`. */
  function ArangeLength(start: int, stop: int, step: int): (n: nat)
    requires step != 0
    ensures forall j :: 0 <= j < n ==> (step > 0 ==> start + j * step < stop) && (step < 0 ==> start + j * step > stop)
    ensures step > 0 ==> start + n * step >= stop
    ensures step < 0 ==> start + n * step <= stop
  {
    var len := -PyInt.FloorDiv(start - stop, step);
    var n: nat := if len < 0 then 0 else len;
    assert step > 0 ==> stop - start <= len * step < stop - start + step;
    assert step < 0 ==> stop - start + step < len * step <= stop - start;
    forall j | 0 <= j < n
      ensures (step > 0 ==> start + j * step < stop) && (step < 0 ==> start + j * step > stop)
    {
      MulBelow(j, n, step);
    }
    n
  }

  /** Multiplying `j < n` by a step moves it strictly in the step's direction. */
  lemma MulBelow(j: int, n: int, step: int)
    requires j < n
    ensures step > 0 ==> j * step <= n * step - step
    ensures step < 0 ==> j * step >= n * step - step
  {
    assert n * step - j * step == (n - j) * step;
    if step > 0 {
      PyInt.MulAtLeast(step, n - j);
    } else if step < 0 {
      PyInt.MulAtLeast(-step, n - j);
    }
  }

  /** An arithmetic progression `start + k * step`; `offset` counts the
      values produced so far. */
  datatype Autoincrement = Autoincrement(start: int, step: int, offset: nat)

  /** A fresh generator: nothing produced yet. */
  function New(start: int, step: int): Autoincrement
  {
    Autoincrement(start, step, 0)
  }

  /** `Autoincrement.get_single`: return the term at the offset, then move
      the offset on by one. */
  function Single(a: Autoincrement): (r: Result<(int, Autoincrement)>)
    ensures r.Ok? && r.value.0 == a.start + a.offset * a.step
    ensures r.value.1 == a.(offset := a.offset + 1)
  {
    Ok((a.start + a.offset * a.step, a.(offset := a.offset + 1)))
  }

  /** `Autoincrement.get_batch(n)`: move the offset on by `n`, then return
      `numpy.arange` between the old and the new term. */
  function Batch(a: Autoincrement, n: nat): (r: Result<(seq<int>, Autoincrement)>)
    ensures a.step == 0 ==> r == Err(ZeroDivision)
    ensures a.step != 0 ==> r.Ok? && |r.value.0| == n && r.value.1 == a.(offset := a.offset + n)
    ensures a.step != 0 ==> forall j :: 0 <= j < n ==> r.value.0[j] == a.start + (a.offset + j) * a.step
  {
    var offset := a.offset + n;
    var lo := a.start + (offset - n) * a.step;
    var hi := a.start + offset * a.step;
    var values :- Arange(lo, hi, a.step);
    BatchSpan(a, n);
    ArangeSpan(lo, hi, a.step, n);
    Ok((values, a.(offset := offset)))
  }

  /** The bounds `get_batch` passes to `arange` are `n` steps apart, and the
      progression from the lower one runs through the terms at the offsets
      `offset, offset + 1, ...`. */
  lemma BatchSpan(a: Autoincrement, n: nat)
    ensures var lo := a.start + (a.offset + n - n) * a.step;
            var hi := a.start + (a.offset + n) * a.step;
            hi - lo == n * a.step &&
            forall j :: 0 <= j < n ==> lo + j * a.step == a.start + (a.offset + j) * a.step
  {
    forall j | 0 <= j < n
      ensures a.start + a.offset * a.step + j * a.step == a.start + (a.offset + j) * a.step
    {
      assert (a.offset + j) * a.step == a.offset * a.step + j * a.step;
    }
    assert (a.offset + n) * a.step == a.offset * a.step + n * a.step;
  }

  /** `arange` between two bounds `n` non-zero steps apart has `n` terms. */
  lemma ArangeSpan(lo: int, hi: int, step: int, n: nat)
    requires step != 0 && hi - lo == n * step
    ensures Arange(lo, hi, step).Ok? && |Arange(lo, hi, step).value| == n
  {
    PyInt.FloorDivUnique(lo - hi, step, -(n as int), 0);
  }

  /** `n` successive singles return the `n` terms from the offset on and
      move the offset on by `n`. */
  lemma {:induction false} SinglesClosedForm(a: Autoincrement, n: nat)
    ensures Singles(Single, a, n).Ok?
    ensures Singles(Single, a, n).value.1 == a.(offset := a.offset + n)
    ensures forall j :: 0 <= j < n ==> Singles(Single, a, n).value.0[j] == a.start + (a.offset + j) * a.step
    decreases n
  {
    if n > 0 {
      var a1 := a.(offset := a.offset + 1);
      SinglesClosedForm(a1, n - 1);
      var rest := Singles(Single, a1, n - 1).value.0;
      assert Singles(Single, a, n).value.0 == [a.start + a.offset * a.step] + rest;
    }
  }

  /** The `k`-th single (counting from 0) of a fresh generator is
      `start + k * step`. */
  lemma NthSingle(start: int, step: int, k: nat)
    ensures Singles(Single, New(start, step), k + 1).Ok?
    ensures Singles(Single, New(start, step), k + 1).value.0[k] == start + k * step
  {
    SinglesClosedForm(New(start, step), k + 1);
  }

  /** For a non-zero step, a batch of `n` equals `n` successive singles:
      same values, same final offset. */
  lemma BatchIsSingles(a: Autoincrement, n: nat)
    requires a.step != 0
    ensures Batch(a, n) == Singles(Single, a, n)
  {
    SinglesClosedForm(a, n);
    assert Batch(a, n).value.0 == Singles(Single, a, n).value.0;
  }

  /** Any interleaving of singles and batches on a generator with
      a non-zero step yields `start + (offset + p) * step` at global position `p`, and
      leaves the offset moved on by the number of values consumed. */
  lemma Interleaving(a: Autoincrement, calls: seq<Call>)
    requires a.step != 0
    ensures Drive(Single, Batch, a, calls).Ok?
    ensures |Drive(Single, Batch, a, calls).value.0| == Consumed(calls)
    ensures Drive(Single, Batch, a, calls).value.1 == a.(offset := a.offset + Consumed(calls))
    ensures forall p :: 0 <= p < Consumed(calls) ==>
              Drive(Single, Batch, a, calls).value.0[p] == a.start + (a.offset + p) * a.step
  {
    var inv := (t: Autoincrement) => t.step != 0;
    forall t, m | inv(t)
      ensures Batch(t, m) == Singles(Single, t, m)
    {
      BatchIsSingles(t, m);
    }
    DriveIsSingles(Single, Batch, inv, a, calls);
    SinglesClosedForm(a, Consumed(calls));
  }

  /** `AutoincrementWithGenerator`: a running value advanced by draws from
      an inner generator. */
  datatype WithGenerator = WithGenerator(current: real, inner: Source<real>)

  /** A fresh generator starts its running value at `start`. */
  function NewWithGenerator(start: real, inner: Source<real>): WithGenerator
  {
    WithGenerator(start, inner)
  }

  /** `AutoincrementWithGenerator.get_single`: draw an increment, return the
      running value as it was, then add the increment to it. */
  function GenSingle(g: WithGenerator): (r: Result<(real, WithGenerator)>)
    ensures r.Ok? && r.value.0 == g.current
    ensures r.value.1.current == g.current + g.inner.draw(g.inner.pos)
    ensures r.value.1.inner == g.inner.Next().1
  {
    var (tmp, inner) := g.inner.Next();
    var previous := g.current;
    Ok((previous, WithGenerator(g.current + tmp, inner)))
  }

  /** `AutoincrementWithGenerator.get_batch(n)`: draw `n` increments, offset
      their cumulative sums by the running value, put the running value in
      front, keep the last entry as the new running value and return the
      others. */
  function GenBatch(g: WithGenerator, n: nat): (r: Result<(seq<real>, WithGenerator)>)
    ensures r.Ok? && |r.value.0| == n
    ensures forall j :: 0 <= j < n ==>
              r.value.0[j] == g.current + PySeq.Sum(g.inner.Take(n).0[..j])
    ensures r.value.1 == WithGenerator(g.current + PySeq.Sum(g.inner.Take(n).0), g.inner.Take(n).1)
  {
    var (draws, inner) := g.inner.Take(n);
    var sums := PySeq.CumSum(draws);
    var incremental := [g.current] + seq(n, j requires 0 <= j < n => g.current + sums[j]);
    assert incremental[n] == g.current + PySeq.Sum(draws) by {
      if n > 0 {
        assert draws[..n] == draws;
      }
    }
    Ok((incremental[..n], WithGenerator(incremental[n], inner)))
  }

  /** The sum of a sequence with a first element split off. */
  lemma SumCons(x: real, ys: seq<real>)
    ensures PySeq.Sum([x] + ys) == x + PySeq.Sum(ys)
  {
    PySeq.SumAppend([x], ys);
    assert [x][..0] == [];
  }

  /** A batch of `n` equals `n` successive singles fed the same draws: same
      values, same running value, same inner position. */
  lemma {:induction false} GenBatchIsSingles(g: WithGenerator, n: nat)
    ensures GenBatch(g, n) == Singles(GenSingle, g, n)
    decreases n
  {
    if n > 0 {
      var g1 := WithGenerator(g.current + g.inner.draw(g.inner.pos), Source(g.inner.draw, g.inner.pos + 1));
      assert GenSingle(g) == Ok((g.current, g1));
      GenBatchIsSingles(g1, n - 1);
      GenBatchUnfold(g, n);
      var rest := GenBatch(g1, n - 1).value.0;
      var st := GenBatch(g1, n - 1).value.1;
      assert GenBatch(g, n) == Ok(([g.current] + rest, st));
      assert Singles(GenSingle, g1, n - 1) == Ok((rest, st));
      assert Singles(GenSingle, g, n) == Prepend([g.current], Singles(GenSingle, g1, n - 1));
    }
  }

  /** Each single returns the running value before its own draw is added:
      single `j` is the start plus the first `j` draws, never draw `j`
      itself, and after `n` singles the running value holds all `n`. */
  lemma GenSinglesClosedForm(g: WithGenerator, n: nat)
    ensures Singles(GenSingle, g, n).Ok?
    ensures forall j :: 0 <= j < n ==>
              Singles(GenSingle, g, n).value.0[j] == g.current + PySeq.Sum(g.inner.Take(n).0[..j])
    ensures Singles(GenSingle, g, n).value.1.current == g.current + PySeq.Sum(g.inner.Take(n).0)
  {
    GenBatchIsSingles(g, n);
  }

  /** A batch of `n` is the running value followed by a batch of `n - 1`
      taken after the first draw has been added. */
  lemma GenBatchUnfold(g: WithGenerator, n: nat)
    requires n > 0
    ensures var g1 := WithGenerator(g.current + g.inner.draw(g.inner.pos), Source(g.inner.draw, g.inner.pos + 1));
            GenBatch(g, n).value.0 == [g.current] + GenBatch(g1, n - 1).value.0 &&
            GenBatch(g, n).value.1 == GenBatch(g1, n - 1).value.1
  {
    GenBatchUnfoldValues(g, n);
    GenBatchUnfoldState(g, n);
  }

  /** The values half of the unfolding above. */
  lemma GenBatchUnfoldValues(g: WithGenerator, n: nat)
    requires n > 0
    ensures var g1 := WithGenerator(g.current + g.inner.draw(g.inner.pos), Source(g.inner.draw, g.inner.pos + 1));
            GenBatch(g, n).value.0 == [g.current] + GenBatch(g1, n - 1).value.0
  {
    var d := g.inner.draw(g.inner.pos);
    var g1 := WithGenerator(g.current + d, Source(g.inner.draw, g.inner.pos + 1));
    var rest := GenBatch(g1, n - 1).value.0;
    var values := GenBatch(g, n).value.0;
    var expected := [g.current] + rest;
    assert |values| == n == |expected|;
    forall j | 0 <= j < n
      ensures values[j] == expected[j]
    {
      GenBatchAt(g, n, j);
    }
  }

  /** The state half of the unfolding above. */
  lemma GenBatchUnfoldState(g: WithGenerator, n: nat)
    requires n > 0
    ensures var g1 := WithGenerator(g.current + g.inner.draw(g.inner.pos), Source(g.inner.draw, g.inner.pos + 1));
            GenBatch(g, n).value.1 == GenBatch(g1, n - 1).value.1
  {
    var d := g.inner.draw(g.inner.pos);
    var g1 := WithGenerator(g.current + d, Source(g.inner.draw, g.inner.pos + 1));
    var draws1 := g1.inner.Take(n - 1).0;
    assert g.inner.Take(n).0 == [d] + draws1;
    SumCons(d, draws1);
  }

  /** Value `j` of a batch of `n`, in terms of the batch of `n - 1` taken
      after the first draw. */
  lemma GenBatchAt(g: WithGenerator, n: nat, j: nat)
    requires j < n
    ensures var g1 := WithGenerator(g.current + g.inner.draw(g.inner.pos), Source(g.inner.draw, g.inner.pos + 1));
            GenBatch(g, n).value.0[j] == ([g.current] + GenBatch(g1, n - 1).value.0)[j]
  {
    var d := g.inner.draw(g.inner.pos);
    var g1 := WithGenerator(g.current + d, Source(g.inner.draw, g.inner.pos + 1));
    var draws := g.inner.Take(n).0;
    var draws1 := g1.inner.Take(n - 1).0;
    assert draws == [d] + draws1;
    GenBatchStep(g.current, d, draws1, j);
    if j > 0 {
      assert GenBatch(g1, n - 1).value.0[j - 1] == g1.current + PySeq.Sum(draws1[..j - 1]);
    }
  }

  /** One step of the induction above: the running value after the first
      draw, plus the sum of the next `j - 1` draws, is the sum of the first
      `j` draws. */
  lemma GenBatchStep(current: real, d: real, draws1: seq<real>, j: nat)
    requires j <= |draws1|
    ensures j > 0 ==> current + PySeq.Sum(([d] + draws1)[..j]) == current + d + PySeq.Sum(draws1[..j - 1])
    ensures j == 0 ==> current + PySeq.Sum(([d] + draws1)[..j]) == current
  {
    if j > 0 {
      assert ([d] + draws1)[..j] == [d] + draws1[..j - 1];
      SumCons(d, draws1[..j - 1]);
    } else {
      assert ([d] + draws1)[..0] == [];
    }
  }

  /** A batch of zero draws nothing, returns nothing and leaves the running
      value where it was. */
  lemma GenBatchEmpty(g: WithGenerator)
    ensures GenBatch(g, 0) == Ok(([], g))
  {
  }

  /** With a constant increment `d` (the generator the tests drive it with),
      value `j` of a batch is `current + j * d`. */
  lemma GenBatchConstantStep(g: WithGenerator, d: real, n: nat)
    requires forall k :: g.inner.draw(k) == d
    ensures forall j :: 0 <= j < n ==> GenBatch(g, n).value.0[j] == g.current + (j as real) * d
  {
    forall j | 0 <= j < n
      ensures GenBatch(g, n).value.0[j] == g.current + (j as real) * d
    {
      GenBatchConstantAt(g, d, n, j);
    }
  }

  /** Value `j` of that batch: the first `j` draws are all `d`. */
  lemma GenBatchConstantAt(g: WithGenerator, d: real, n: nat, j: nat)
    requires forall k :: g.inner.draw(k) == d
    requires j < n
    ensures GenBatch(g, n).value.0[j] == g.current + (j as real) * d
  {
    var prefix := g.inner.Take(n).0[..j];
    var total := PySeq.Sum(prefix);
    assert GenBatch(g, n).value.0[j] == g.current + total;
    ConstantPrefix(g.inner, d, n, j);
  }

  /** The first `j` of `n` constant draws sum to `j * d`. */
  lemma ConstantPrefix(inner: Source<real>, d: real, n: nat, j: nat)
    requires forall k :: inner.draw(k) == d
    requires j <= n
    ensures PySeq.Sum(inner.Take(n).0[..j]) == (j as real) * d
  {
    var prefix := inner.Take(n).0[..j];
    assert forall i :: 0 <= i < |prefix| ==> prefix[i] == d;
    SumConstant(prefix, d);
  }

  /** A sequence of `m` copies of `d` sums to `m * d`. */
  lemma {:induction false} SumConstant(xs: seq<real>, d: real)
    requires forall i :: 0 <= i < |xs| ==> xs[i] == d
    ensures PySeq.Sum(xs) == (|xs| as real) * d
    decreases |xs|
  {
    if xs != [] {
      SumConstant(xs[..|xs| - 1], d);
    }
  }
}
