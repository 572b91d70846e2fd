/** The older `Autoincrement` (`dsfaker/infinite_generators/autoincrement.py`).
    Its batch is the newer one's, but its single increments the offset
    before reading the term, so a fresh generator never yields `start`
    from a single and a single after a batch skips one term. */
module LegacyAutoincrement {
  import opened Base
  import Autoincrements

  type Autoincrement = Autoincrements.Autoincrement

  /** `_produce_single` / `get_single`: move the offset on, then read the
      term at the new offset. */
  function Single(a: Autoincrement): (r: Result<(int, Autoincrement)>)
    ensures r.Ok? && r.value.1 == a.(offset := a.offset + 1)
    ensures r.value.0 == Autoincrements.Single(a).value.0 + a.step
  {
    var offset := a.offset + 1;
    Ok((a.start + offset * a.step, a.(offset := offset)))
  }

  /** `get_batch(n)`: the same code as the newer class. */
  function Batch(a: Autoincrement, n: nat): (r: Result<(seq<int>, Autoincrement)>)
    ensures a.step == 0 ==> r == Err(ZeroDivision)
    ensures a.step != 0 ==> r.Ok? && |r.value.0| == n && r.value.1 == a.(offset := a.offset + n)
    ensures a.step != 0 ==> forall j :: 0 <= j < n ==> r.value.0[j] == Autoincrements.Single(a.(offset := a.offset + j)).value.0
  {
    Autoincrements.Batch(a, n)
  }

  /** `reset(start, step)`: the offset returns to 0, and each parameter that
      is given replaces the current one. */
  function Reset(a: Autoincrement, start: Option<int>, step: Option<int>): (r: Autoincrement)
    ensures r.offset == 0
    ensures r.start == (if start.Some? then start.value else a.start)
    ensures r.step == (if step.Some? then step.value else a.step)
  {
    var a1 := a.(offset := 0);
    var a2 := if start.Some? then a1.(start := start.value) else a1;
    if step.Some? then a2.(step := step.value) else a2
  }

  /** `n` singles return the terms after the offset, `start + (offset + 1 + j)
      * step`, one term later than the newer class's singles. */
  lemma {:induction false} SinglesClosedForm(a: Autoincrement, n: nat)
    ensures Singles(Single, a, n).Ok?
    ensures Singles(Single, a, n).value.1 == a.(offset := a.offset + n)
    ensures forall j :: 0 <= j < n ==> Singles(Single, a, n).value.0[j] == a.start + (a.offset + 1 + j) * a.step
    decreases n
  {
    if n > 0 {
      var a1 := a.(offset := a.offset + 1);
      SinglesClosedForm(a1, n - 1);
      var rest := Singles(Single, a1, n - 1).value.0;
      assert Singles(Single, a, n).value.0 == [a.start + (a.offset + 1) * a.step] + rest;
    }
  }

  /** The older single is the newer single one offset later: the value it
      returns from offset `k` is the one the newer class returns from
      `k + 1`, and both leave the offset at `k + 1`. */
  lemma SingleIsShifted(a: Autoincrement)
    ensures Single(a).value.0 == Autoincrements.Single(a.(offset := a.offset + 1)).value.0
    ensures Single(a).value.1 == Autoincrements.Single(a).value.1
  {
  }

  /** After a reset, the first single returns `start + step`, never the
      new `start` itself. */
  lemma ResetThenSingle(a: Autoincrement, start: Option<int>, step: Option<int>)
    ensures var b := Reset(a, start, step);
            Single(b) == Ok((b.start + b.step, b.(offset := 1)))
  {
  }

  /** A run of a batch of `n` then a single, in terms of one batch call and
      one single call. */
  lemma BatchThenSingle<S, T>(single: S -> Result<(T, S)>, batch: (S, nat) -> Result<(seq<T>, S)>, s: S, n: nat)
    requires batch(s, n).Ok? && single(batch(s, n).value.1).Ok?
    ensures var (vs, s1) := batch(s, n).value;
            var (v, s2) := single(s1).value;
            Drive(single, batch, s, [BatchCall(n), SingleCall]) == Ok((vs + [v], s2))
  {
    var (vs, s1) := batch(s, n).value;
    var (v, s2) := single(s1).value;
    assert [BatchCall(n), SingleCall][1..] == [SingleCall];
    assert [SingleCall][1..] == [];
    assert [v] + [] == [v];
    assert Singles(single, s2, 0) == Ok(([], s2));
    assert Singles(single, s1, 1) == Ok(([v], s2));
    assert Drive(single, batch, s2, []) == Ok(([], s2));
    assert Drive(single, batch, s1, [SingleCall]) == Ok(([v], s2));
  }

  /** For any non-zero step, a batch of `n` followed by a single returns the
      `n` terms from `start` and then the term at offset `n + 1`, so the
      term at offset `n` is missing from the run. */
  lemma BatchThenSingleSkips(start: int, step: int, n: nat)
    requires step != 0
    ensures var run := Drive(Single, Batch, Autoincrements.New(start, step), [BatchCall(n), SingleCall]);
            run.Ok? && |run.value.0| == n + 1 &&
            (forall j :: 0 <= j < n ==> run.value.0[j] == start + j * step) &&
            run.value.0[n] == start + (n + 1) * step &&
            (forall j :: 0 <= j <= n ==> run.value.0[j] != start + n * step)
  {
    var a := Autoincrements.New(start, step);
    BatchThenSingle(Single, Batch, a, n);
    var run := Drive(Single, Batch, a, [BatchCall(n), SingleCall]);
    assert run.value.0 == Batch(a, n).value.0 + [start + (n + 1) * step];
    forall j | 0 <= j <= n
      ensures run.value.0[j] != start + n * step
    {
      if j < n {
        assert run.value.0[j] == start + j * step;
        assert start + n * step - (start + j * step) == (n - j) * step;
      }
    }
  }
}
