/** `TimeSeries` (`dsfaker/generators/timeseries.py`): a pair of
    generators, one for the time axis and one for the data, called in that
    order. */
module TimeSeries {
  import opened Base
  import Autoincrements
  import Utils

  /** The states of the time generator and of the data generator. */
  datatype Pair<A, B> = Pair(time: A, data: B)

  /** `get_single`: one single of the time generator, then one of the data
      generator, returned as `(time, data)`. */
  function PairSingle<A, B, T, D>(tsingle: A -> Result<(T, A)>, dsingle: B -> Result<(D, B)>, g: Pair<A, B>)
    : (r: Result<((T, D), Pair<A, B>)>)
    ensures r.Ok? <==> tsingle(g.time).Ok? && dsingle(g.data).Ok?
    ensures r.Ok? ==> r.value.0 == (tsingle(g.time).value.0, dsingle(g.data).value.0)
    ensures r.Ok? ==> r.value.1 == Pair(tsingle(g.time).value.1, dsingle(g.data).value.1)
  {
    var t :- tsingle(g.time);
    var d :- dsingle(g.data);
    Ok(((t.0, d.0), Pair(t.1, d.1)))
  }

  /** `get_batch(n)`: a batch of `n` of the time generator, then of the data
      generator, returned as the pair of arrays. */
  function PairBatch<A, B, T, D>(tbatch: (A, nat) -> Result<(seq<T>, A)>, dbatch: (B, nat) -> Result<(seq<D>, B)>,
                                 g: Pair<A, B>, n: nat): (r: Result<((seq<T>, seq<D>), Pair<A, B>)>)
    ensures r.Ok? <==> tbatch(g.time, n).Ok? && dbatch(g.data, n).Ok?
    ensures r.Ok? ==> r.value.0 == (tbatch(g.time, n).value.0, dbatch(g.data, n).value.0)
    ensures r.Ok? ==> r.value.1 == Pair(tbatch(g.time, n).value.1, dbatch(g.data, n).value.1)
  {
    var ts :- tbatch(g.time, n);
    var ds :- dbatch(g.data, n);
    Ok(((ts.0, ds.0), Pair(ts.1, ds.1)))
  }

  /** The times of a run of pairs. */
  function Times<T, D>(ps: seq<(T, D)>): (ts: seq<T>)
    ensures |ts| == |ps| && forall j :: 0 <= j < |ps| ==> ts[j] == ps[j].0
  {
    seq(|ps|, j requires 0 <= j < |ps| => ps[j].0)
  }

  /** The data of a run of pairs. */
  function Data<T, D>(ps: seq<(T, D)>): (ds: seq<D>)
    ensures |ds| == |ps| && forall j :: 0 <= j < |ps| ==> ds[j] == ps[j].1
  {
    seq(|ps|, j requires 0 <= j < |ps| => ps[j].1)
  }

  /** When both generators' batches equal their singles, a pair batch
      succeeds exactly when `n` pair singles do, and then its two arrays
      are the times and the data of those singles, and both generators end
      in the same states: each advanced by exactly `n`. */
  lemma {:induction false} PairBatchIsSingles<A, B, T, D>(
    tsingle: A -> Result<(T, A)>, dsingle: B -> Result<(D, B)>,
    tbatch: (A, nat) -> Result<(seq<T>, A)>, dbatch: (B, nat) -> Result<(seq<D>, B)>,
    g: Pair<A, B>, n: nat)
    requires forall a, m :: tbatch(a, m) == Singles(tsingle, a, m)
    requires forall b, m :: dbatch(b, m) == Singles(dsingle, b, m)
    ensures var single := (h: Pair<A, B>) => PairSingle(tsingle, dsingle, h);
            var batch := PairBatch(tbatch, dbatch, g, n);
            var run := Singles(single, g, n);
            (batch.Ok? <==> run.Ok?) &&
            (batch.Ok? ==> batch.value.0 == (Times(run.value.0), Data(run.value.0)) && batch.value.1 == run.value.1)
    decreases n
  {
    var single := (h: Pair<A, B>) => PairSingle(tsingle, dsingle, h);
    if n > 0 {
      var t, d := tsingle(g.time), dsingle(g.data);
      if t.Ok? && d.Ok? {
        var g1 := Pair(t.value.1, d.value.1);
        PairBatchIsSingles(tsingle, dsingle, tbatch, dbatch, g1, n - 1);
        var ts1, ds1 := Singles(tsingle, g1.time, n - 1), Singles(dsingle, g1.data, n - 1);
        assert Singles(tsingle, g.time, n) == Prepend([t.value.0], ts1);
        assert Singles(dsingle, g.data, n) == Prepend([d.value.0], ds1);
        var rest := Singles(single, g1, n - 1);
        assert Singles(single, g, n) == Prepend([(t.value.0, d.value.0)], rest);
        if rest.Ok? {
          var ps := [(t.value.0, d.value.0)] + rest.value.0;
          assert Times(ps) == [t.value.0] + Times(rest.value.0);
          assert Data(ps) == [d.value.0] + Data(rest.value.0);
        }
      }
    }
  }

  /** The batch of `TimeSeries(Autoincrement(), ConstantValueGenerator(42))`. */
  function ExampleBatch(g: Pair<Autoincrements.Autoincrement, Utils.Constant<int>>, n: nat)
    : Result<((seq<int>, seq<int>), Pair<Autoincrements.Autoincrement, Utils.Constant<int>>)>
  {
    PairBatch(Autoincrements.Batch, Utils.ConstBatch, g, n)
  }

  /** The batch of one hundred of that pair. */
  function ExampleHundred(g: Pair<Autoincrements.Autoincrement, Utils.Constant<int>>)
    : Result<((seq<int>, seq<int>), Pair<Autoincrements.Autoincrement, Utils.Constant<int>>)>
  {
    ExampleBatch(g, 100)
  }

  /** The pair after `k` batches of one hundred: the time generator has
      moved on by `100 k` and the constant is unchanged. */
  function ExampleAfter(k: nat): Pair<Autoincrements.Autoincrement, Utils.Constant<int>>
  {
    Pair(Autoincrements.Autoincrement(0, 1, 100 * k), Utils.Constant(42))
  }

  /** The `k`-th batch of one hundred (from 0), in a run of successive
      batches, has the times `100 k + j` and the data 42 throughout. */
  lemma {:induction false} ExampleBatches(k: nat)
    ensures var run := Singles(ExampleHundred, ExampleAfter(0), k);
            run.Ok? && run.value.1 == ExampleAfter(k) &&
            forall i :: 0 <= i < k ==>
              |run.value.0[i].0| == 100 && |run.value.0[i].1| == 100 &&
              forall j :: 0 <= j < 100 ==> run.value.0[i].0[j] == 100 * i + j && run.value.0[i].1[j] == 42
    decreases k
  {
    if k > 0 {
      ExampleBatches(k - 1);
      SinglesSplit(ExampleHundred, ExampleAfter(0), k - 1, 1);
      var (vs, g) := Singles(ExampleHundred, ExampleAfter(0), k - 1).value;
      var b := ExampleHundred(g).value;
      assert b.1 == ExampleAfter(k);
      assert [b.0] + [] == [b.0];
      assert Singles(ExampleHundred, ExampleAfter(k), 0) == Ok(([], ExampleAfter(k)));
      assert Singles(ExampleHundred, g, 1) == Ok(([b.0], ExampleAfter(k)));
      assert Singles(ExampleHundred, ExampleAfter(0), k).value.0 == vs + [b.0];
    }
  }
}
