/** `History` and `MeanHistory` (`dsfaker/generators/utils.py`): a
    generator that records every value it hands out in a ring of the last
    `size` values (the ring of `Buffers`), and one that hands out the mean
    of that ring as it was before the new value went in. The recorded
    generator is an abstract stream of values. */
module Histories {
  import opened Base
  import Buffers
  import PySeq

  /** The ring of recorded values, and the inner generator. */
  datatype History = History(ring: Buffers.Buffer, inner: Source<real>)

  /** `History(generator, size, initial_values)`: the ring is built as a
      `CircularBuffer` is, with the same errors. */
  function New(inner: Source<real>, size: int, initial: Option<seq<real>>): (r: Result<History>)
    ensures r.Ok? <==> Buffers.New(size, initial).Ok?
    ensures r.Err? ==> r.error == Buffers.New(size, initial).error
    ensures r.Ok? ==> r.value.ring == Buffers.New(size, initial).value && r.value.inner == inner
  {
    var ring :- Buffers.New(size, initial);
    Ok(History(ring, inner))
  }

  /** `get_single`: draw one value, record it, and return it unchanged. An
      empty ring cannot record it (IndexError). */
  function Single(h: History): (r: Result<(real, History)>)
    ensures r.Ok? <==> |h.ring.buff| > 0
    ensures r.Err? ==> r.error == IndexError
    ensures r.Ok? ==> r.value.0 == h.inner.draw(h.inner.pos) && r.value.1.inner == h.inner.Next().1
    ensures r.Ok? ==> |r.value.1.ring.buff| == |h.ring.buff|
    ensures r.Ok? ==> Buffers.GetAll(r.value.1.ring) == Buffers.GetAll(h.ring)[1..] + [r.value.0]
  {
    var (e, inner) := h.inner.Next();
    var ring :- Buffers.Put(h.ring, e);
    Buffers.PutRotates(h.ring, e);
    Ok((e, History(ring, inner)))
  }

  /** `get_batch(n)`: draw a batch, record each value in order, and return
      the batch unchanged. */
  function Batch(h: History, n: nat): (r: Result<(seq<real>, History)>)
    ensures r.Ok? <==> n == 0 || |h.ring.buff| > 0
    ensures r.Err? ==> r.error == IndexError
    ensures r.Ok? ==> r.value.0 == h.inner.Take(n).0 && r.value.1.inner == h.inner.Take(n).1
    ensures r.Ok? ==> Buffers.GetAll(r.value.1.ring) == (Buffers.GetAll(h.ring) + r.value.0)[n..]
  {
    var (vals, inner) := h.inner.Take(n);
    var ring :- Buffers.PutBatch(h.ring, vals);
    Ok((vals, History(ring, inner)))
  }

  /** A batch of `n >= 1` is the first draw recorded, then a batch of
      `n - 1` from there. */
  lemma BatchStep(h: History, n: nat)
    requires n > 0 && |h.ring.buff| > 0
    ensures var (e, inner) := h.inner.Next();
            var h1 := History(Buffers.Put(h.ring, e).value, inner);
            Single(h) == Ok((e, h1)) && Batch(h, n) == Prepend([e], Batch(h1, n - 1))
  {
    var (e, inner) := h.inner.Next();
    var ring1 := Buffers.Put(h.ring, e).value;
    var rest := inner.Take(n - 1).0;
    var vals := h.inner.Take(n).0;
    assert vals == [e] + rest;
    Buffers.PutBatchIsPuts(h.ring, e, rest);
    assert Buffers.PutBatch(h.ring, vals) == Buffers.PutBatch(ring1, rest);
    assert h.inner.Take(n).1 == inner.Take(n - 1).1;
  }

  /** A batch of `n` equals `n` singles: the same values, the same failure,
      and the same ring and stream afterwards. */
  lemma {:induction false} BatchIsSingles(h: History, n: nat)
    ensures Batch(h, n) == Singles(Single, h, n)
    decreases n
  {
    if n > 0 && |h.ring.buff| > 0 {
      BatchStep(h, n);
      var (e, inner) := h.inner.Next();
      var h1 := History(Buffers.Put(h.ring, e).value, inner);
      BatchIsSingles(h1, n - 1);
    }
  }

  /** `get_prev(i)` of the ring: a recorded value, or ZeroDivisionError
      for an empty ring; `RecentDraws` says which value. */
  function GetPrev(h: History, i: int): (x: Result<real>)
    ensures x.Ok? <==> |h.ring.buff| > 0
    ensures x.Err? ==> x.error == ZeroDivision
    ensures x.Ok? ==> x.value in h.ring.buff
  {
    Buffers.GetPrev(h.ring, i)
  }

  /** `get_mean` of the ring: the mean of the recorded window, none for an
      empty ring. */
  function GetMean(h: History): (m: Option<real>)
    ensures m.Some? <==> |h.ring.buff| > 0
    ensures m.Some? ==> m.value == PySeq.Sum(Buffers.GetAll(h.ring)) / (|h.ring.buff| as real)
  {
    Buffers.GetMean(h.ring)
  }

  /** After a batch of `n` values, `get_prev(-k)` for `k <= n` (and `k` at
      most the size) is the value drawn `k` places from the end of the
      batch. */
  lemma RecentDraws(h: History, n: nat, k: nat)
    requires |h.ring.buff| > 0 && 1 <= k <= n && k <= |h.ring.buff|
    ensures Batch(h, n).Ok?
    ensures GetPrev(Batch(h, n).value.1, -(k as int)) == Ok(h.inner.draw(h.inner.pos + n - k))
  {
    var vals := h.inner.Take(n).0;
    Buffers.PrevAfterPuts(h.ring, vals, k);
    var ring := Buffers.PutBatch(h.ring, vals).value;
    assert Batch(h, n).value.1.ring == ring;
    assert vals[n - k] == h.inner.draw(h.inner.pos + n - k);
  }

  /** The stream `0, 1, 2, …` of `Autoincrement()`. */
  function Naturals(j: nat): real
  {
    j as real
  }

  /** `History(Autoincrement(), size)`: after `n <= size` singles, which
      return `0, …, n - 1`, `get_prev(-n + i)` is `i` for each `i < n`
      (tests/test_dsfaker.py:624-641 use size 42 and ten singles). */
  lemma HistoryExample(size: nat, n: nat, i: nat)
    requires n <= size && i < n
    ensures New(Source(Naturals, 0), size, None).Ok?
    ensures var run := Singles(Single, New(Source(Naturals, 0), size, None).value, n);
            run.Ok? && run.value.0[i] == i as real && GetPrev(run.value.1, -(n as int) + i) == Ok(i as real)
  {
    var h := New(Source(Naturals, 0), size, None).value;
    assert |h.ring.buff| == size && h.inner == Source(Naturals, 0);
    BatchIsSingles(h, n);
    CountingRecent(h, n, i);
  }

  /** Over the counting stream from 0, a batch of `n` returns `0, …, n - 1`
      and `get_prev(-n + i)` afterwards is `i`. */
  lemma CountingRecent(h: History, n: nat, i: nat)
    requires h.inner == Source(Naturals, 0) && i < n <= |h.ring.buff|
    ensures Batch(h, n).Ok? && Batch(h, n).value.0[i] == i as real
    ensures GetPrev(Batch(h, n).value.1, -(n as int) + i) == Ok(i as real)
  {
    CountingValues(h, n, i);
    CountingPrev(h, n, i);
  }

  /** Over the counting stream from 0, value `i` of a batch is `i`. */
  lemma CountingValues(h: History, n: nat, i: nat)
    requires h.inner == Source(Naturals, 0) && i < n <= |h.ring.buff|
    ensures Batch(h, n).Ok? && Batch(h, n).value.0[i] == i as real
  {
    assert Batch(h, n).value.0 == h.inner.Take(n).0;
  }

  /** Over the counting stream from 0, `get_prev(-n + i)` after a batch of
      `n` is `i`. */
  lemma CountingPrev(h: History, n: nat, i: nat)
    requires h.inner.draw == Naturals && h.inner.pos == 0 && i < n <= |h.ring.buff|
    ensures Batch(h, n).Ok? && GetPrev(Batch(h, n).value.1, -(n as int) + i) == Ok(i as real)
  {
    var k := n - i;
    RecentDraws(h, n, k);
    assert -(k as int) == -(n as int) + i;
    assert h.inner.draw(h.inner.pos + n - k) == i as real;
  }

  /** `MeanHistory`: a `History` it reads the mean of. */
  datatype MeanHistory = MeanHistory(history: History)

  /** `MeanHistory.get_single`: the mean of the ring before the new value,
      then one single of the history; an empty ring cannot record it. */
  function MeanSingle(m: MeanHistory): (r: Result<(real, MeanHistory)>)
    ensures r.Ok? <==> |m.history.ring.buff| > 0
    ensures r.Err? ==> r.error == IndexError
    ensures r.Ok? ==> r.value.0 == PySeq.Sum(Buffers.GetAll(m.history.ring)) / (|m.history.ring.buff| as real)
    ensures r.Ok? ==> r.value.1.history == Single(m.history).value.1
  {
    var res := GetMean(m.history);
    var next :- Single(m.history);
    Ok((res.value, MeanHistory(next.1)))
  }

  /** `MeanHistory` defines no `get_batch`, so it inherits the base
      `Generator.get_batch`, which raises. */
  function MeanBatch(m: MeanHistory, n: nat): (r: Result<(seq<real>, MeanHistory)>)
    ensures r == Err(NotImplemented)
  {
    AbstractBatch(m, n)
  }

  /** The batch that `test_values_batch` (tests/test_dsfaker.py:651-657)
      expects of `MeanHistory`: `n` successive singles. It fails only when
      the ring is empty and there is something to record; its first value
      is the mean a single would return. */
  function MeanBatchIntended(m: MeanHistory, n: nat): (r: Result<(seq<real>, MeanHistory)>)
    ensures r.Ok? <==> n == 0 || |m.history.ring.buff| > 0
    ensures r.Ok? ==> |r.value.0| == n
    ensures r.Ok? && n > 0 ==> MeanSingle(m).Ok? && r.value.0[0] == MeanSingle(m).value.0
  {
    if |m.history.ring.buff| > 0 then
      MeanSinglesSucceed(m, n);
      Singles(MeanSingle, m, n)
    else
      Singles(MeanSingle, m, n)
  }

  /** On a non-empty ring every single succeeds and keeps the ring's size. */
  lemma {:induction false} MeanSinglesSucceed(m: MeanHistory, n: nat)
    requires |m.history.ring.buff| > 0
    ensures Singles(MeanSingle, m, n).Ok?
    ensures |Singles(MeanSingle, m, n).value.1.history.ring.buff| == |m.history.ring.buff|
    decreases n
  {
    if n > 0 {
      var m1 := MeanSingle(m).value.1;
      MeanSinglesSucceed(m1, n - 1);
    }
  }

  /** The code as written: on the example of the tests a batch raises, where the
      intended batch succeeds and starts with the mean `1.5` of `0, 1, 2, 3`. */
  lemma MeanBatchRaises()
    ensures MeanBatch(MeanExample(), 10) == Err(NotImplemented)
    ensures MeanBatchIntended(MeanExample(), 10).Ok?
    ensures MeanBatchIntended(MeanExample(), 10).value.0[0] == 1.5
  {
    ExampleStart();
    ExampleValue(MeanExample(), 0);
  }

  /** The intended batch gives the values `test_values_batch` checks: after
      `i` batches of ten, value `j` of the next batch is
      `((10 i + j) * 4 + 6) / 4`. */
  lemma MeanBatchExpected(i: nat, j: nat)
    requires j < 10
    ensures Singles(MeanSingle, MeanExample(), 10 * i).Ok?
    ensures var m := Singles(MeanSingle, MeanExample(), 10 * i).value.1;
            MeanBatchIntended(m, 10).Ok? &&
            MeanBatchIntended(m, 10).value.0[j] == (((10 * i + j) as real) * 4.0 + 6.0) / 4.0
  {
    SecondRunValue(10 * i, j);
    MeanBatchIntendedIsSingles(Singles(MeanSingle, MeanExample(), 10 * i).value.1, 10);
  }

  /** Value `j` of ten singles after `a` singles of the example is
      `((a + j) * 4 + 6) / 4`. */
  lemma SecondRunValue(a: nat, j: nat)
    requires j < 10
    ensures Singles(MeanSingle, MeanExample(), a).Ok?
    ensures var m := Singles(MeanSingle, MeanExample(), a).value.1;
            Singles(MeanSingle, m, 10).Ok? &&
            Singles(MeanSingle, m, 10).value.0[j] == (((a + j) as real) * 4.0 + 6.0) / 4.0
  {
    MeanExampleValueAt(a + 10, a + j);
    SinglesSplitAt(MeanSingle, MeanExample(), a, 10, j);
  }

  /** Value `p` of a run of `k` singles of the example is `(4 p + 6) / 4`. */
  lemma MeanExampleValueAt(k: nat, p: nat)
    requires p < k
    ensures Singles(MeanSingle, MeanExample(), k).Ok?
    ensures Singles(MeanSingle, MeanExample(), k).value.0[p] == ((p as real) * 4.0 + 6.0) / 4.0
  {
    MeanExampleRun(k);
  }

  /** The intended batch is the run of singles. */
  lemma MeanBatchIntendedIsSingles(m: MeanHistory, n: nat)
    ensures MeanBatchIntended(m, n) == Singles(MeanSingle, m, n)
  {
  }

  /** The stream `4, 5, 6, …` of `Autoincrement(start=4)`. */
  function FromFour(j: nat): real
  {
    (4 + j) as real
  }

  /** A `MeanHistory` of size 4 started with `[0, 1, 2, 3]` over
      `Autoincrement(start=4)`. */
  function MeanExample(): MeanHistory
  {
    MeanHistory(History(Buffers.Ring([0.0, 1.0, 2.0, 3.0], 0), Source(FromFour, 0)))
  }

  /** The state of the example after `k` singles: the ring holds
      `k, k + 1, k + 2, k + 3` and the stream is at `k`. */
  ghost predicate ExampleState(m: MeanHistory, k: nat)
  {
    |m.history.ring.buff| == 4 && m.history.inner.pos == k && m.history.inner.draw == FromFour &&
    Buffers.GetAll(m.history.ring) == Four(k as real)
  }

  /** The four consecutive values from `x`. */
  function Four(x: real): seq<real>
  {
    [x, x + 1.0, x + 2.0, x + 3.0]
  }

  /** From that state one single returns `(4 k + 6) / 4` and reaches the
      state for `k + 1`. */
  lemma ExampleStep(m: MeanHistory, k: nat)
    requires ExampleState(m, k)
    ensures MeanSingle(m).Ok? && MeanSingle(m).value.0 == ((k as real) * 4.0 + 6.0) / 4.0
    ensures ExampleState(MeanSingle(m).value.1, k + 1)
  {
    ExampleValue(m, k);
    ExampleNext(m, k);
  }

  /** The mean of `k, …, k + 3` is `(4 k + 6) / 4`. */
  lemma ExampleValue(m: MeanHistory, k: nat)
    requires ExampleState(m, k)
    ensures MeanSingle(m).Ok? && MeanSingle(m).value.0 == ((k as real) * 4.0 + 6.0) / 4.0
  {
    var x := k as real;
    SumOfFour(x, x + 1.0, x + 2.0, x + 3.0);
    assert PySeq.Sum(Four(x)) == x * 4.0 + 6.0;
  }

  /** Recording the draw `k + 4` moves the state on to `k + 1`. */
  lemma ExampleNext(m: MeanHistory, k: nat)
    requires ExampleState(m, k)
    ensures MeanSingle(m).Ok? && ExampleState(MeanSingle(m).value.1, k + 1)
  {
    var h1 := Single(m.history).value.1;
    assert MeanSingle(m).value.1.history == h1;
    NextShape(m.history, k);
    NextWindow(m.history, k);
  }

  /** One single keeps four slots and moves the stream on by one. */
  lemma NextShape(h: History, k: nat)
    requires |h.ring.buff| == 4 && h.inner.pos == k && h.inner.draw == FromFour
    ensures Single(h).Ok?
    ensures var h1 := Single(h).value.1;
            |h1.ring.buff| == 4 && h1.inner.pos == k + 1 && h1.inner.draw == FromFour
  {
  }

  /** One single records `k + 4`, so the window `k, …, k + 3` becomes
      `k + 1, …, k + 4`. */
  lemma NextWindow(h: History, k: nat)
    requires |h.ring.buff| == 4 && h.inner.pos == k && h.inner.draw == FromFour
    requires Buffers.GetAll(h.ring) == Four(k as real)
    ensures Single(h).Ok? && Buffers.GetAll(Single(h).value.1.ring) == Four((k + 1) as real)
  {
    var x := k as real;
    var r := Single(h);
    assert r.Ok? && r.value.0 == FromFour(k);
    assert FromFour(k) == x + 4.0;
    ShiftFour(x);
    assert (k + 1) as real == x + 1.0;
  }

  /** Dropping `x` from `x, …, x + 3` and appending `x + 4` gives
      `x + 1, …, x + 4`. */
  lemma ShiftFour(x: real)
    ensures Four(x)[1..] + [x + 4.0] == Four(x + 1.0)
  {
  }

  /** `numpy.sum` of four values. */
  lemma SumOfFour(a: real, b: real, c: real, d: real)
    ensures PySeq.Sum([a, b, c, d]) == a + b + c + d
  {
    assert [a, b, c, d][..3] == [a, b, c];
    assert [a, b, c][..2] == [a, b];
    assert [a, b][..1] == [a];
    assert [a][..0] == [];
    assert PySeq.Sum([a]) == a;
    assert PySeq.Sum([a, b]) == a + b;
    assert PySeq.Sum([a, b, c]) == a + b + c;
  }

  /** After `k` singles the example is in the state for `k`, and the values
      returned so far are `(4 i + 6) / 4`. */
  lemma {:induction false} MeanExampleRun(k: nat)
    ensures var run := Singles(MeanSingle, MeanExample(), k);
            run.Ok? && ExampleState(run.value.1, k) &&
            forall i :: 0 <= i < k ==> run.value.0[i] == ((i as real) * 4.0 + 6.0) / 4.0
    decreases k
  {
    if k == 0 {
      ExampleStart();
    } else {
      MeanExampleRun(k - 1);
      var (vs, m) := Singles(MeanSingle, MeanExample(), k - 1).value;
      ExampleStep(m, k - 1);
      SinglesSnoc(MeanSingle, MeanExample(), k - 1);
      var (v, m1) := MeanSingle(m).value;
      var run := Singles(MeanSingle, MeanExample(), k);
      assert run == Ok((vs + [v], m1));
      forall i | 0 <= i < k
        ensures run.value.0[i] == ((i as real) * 4.0 + 6.0) / 4.0
      {
        if i < k - 1 {
          assert run.value.0[i] == vs[i];
        }
      }
    }
  }

  /** The example starts in the state for 0. */
  lemma ExampleStart()
    ensures ExampleState(MeanExample(), 0)
  {
    var ring := MeanExample().history.ring;
    assert Buffers.GetAll(ring) == ring.buff;
  }

  /** The `i`-th single of the example returns `(4 i + 6) / 4`. */
  lemma MeanExampleValues(i: nat)
    ensures Singles(MeanSingle, MeanExample(), i + 1).Ok?
    ensures Singles(MeanSingle, MeanExample(), i + 1).value.0[i] == ((i as real) * 4.0 + 6.0) / 4.0
  {
    MeanExampleRun(i + 1);
  }
}
