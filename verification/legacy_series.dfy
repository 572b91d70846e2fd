/** The older `RepeatPattern` (`dsfaker/infinite_generators/series.py`).
    It is the same cursor as `Series`, except that the batch path which
    stays inside the pattern stops its slice one place early. */
module LegacySeries {
  import opened Base
  import PySeq
  import Series

  /** `_get(size)` of the older class: the single path and the wrapping
      batch path are those of `Series.Get`; the non-wrapping batch path
      returns `pattern[index - size : index - 1]` after moving the cursor
      on by `size`. */
  function Get<T>(c: Series.Cursor<T>, size: nat): (r: Result<(Out<T>, Series.Cursor<T>)>)
    ensures r.Ok? ==> r.value.1.pattern == c.pattern
    ensures r.Ok? ==> (r.value.0.Scalar? <==> size == 1)
    ensures r.Err? <==> |c.pattern| == 0 && size != 0
  {
    var l := |c.pattern|;
    if size == 1 then
      if c.index == l then
        if l == 0 then Err(IndexError)
        else Ok((Scalar(c.pattern[0]), Series.RepeatPattern(c.pattern, 1)))
      else
        Ok((Scalar(c.pattern[c.index]), Series.RepeatPattern(c.pattern, c.index + 1)))
    else
      var index := if c.index == l then 0 else c.index;
      var remaining := l - index;
      var nbTiles :- Series.NbTiles(l, remaining, size);
      if nbTiles > 0 then
        var (items, next) := Series.Tiled(c.pattern, index, size, nbTiles);
        Ok((Array(items), Series.RepeatPattern(c.pattern, next)))
      else
        var next := index + size;
        Ok((Array(PySeq.Slice(c.pattern, next - size, next - 1)), Series.RepeatPattern(c.pattern, next)))
  }

  /** The older class agrees with the newer one on singles, on every batch
      that wraps past the end of the pattern, and on the error cases; it
      always leaves the cursor where the newer one does. */
  lemma AgreesOutsideShortSlice<T>(c: Series.Cursor<T>, size: nat)
    ensures Get(c, size).Ok? <==> Series.Get(c, size).Ok?
    ensures Get(c, size).Ok? ==> Get(c, size).value.1 == Series.Get(c, size).value.1
    ensures var l := |c.pattern|;
            var index := if c.index == l then 0 else c.index;
            size == 1 || size > l - index ==> Get(c, size) == Series.Get(c, size)
  {
  }

  /** Inside the pattern, a batch of `2 <= size` returns the newer class's
      batch without its last value: `size - 1` values instead of `size`. */
  lemma ShortSliceDropsLast<T>(c: Series.Cursor<T>, size: nat)
    requires var l := |c.pattern|;
             var index := if c.index == l then 0 else c.index;
             2 <= size <= l - index
    ensures Get(c, size).Ok? && Series.Get(c, size).Ok?
    ensures var items := Series.Get(c, size).value.0.items;
            |items| == size && Get(c, size).value.0 == Array(items[..size - 1])
  {
  }

  /** A concrete run that shows the lost value: on the pattern `[1, 2, 3]`
      a batch of two from a fresh cursor returns `[1]` and moves the cursor
      to 2, so the value 2 is never returned; the newer class returns
      `[1, 2]`. */
  lemma ShortBatch()
    ensures Get(Series.New([1, 2, 3]), 2) == Ok((Array([1]), Series.RepeatPattern([1, 2, 3], 2)))
    ensures Series.Get(Series.New([1, 2, 3]), 2) == Ok((Array([1, 2]), Series.RepeatPattern([1, 2, 3], 2)))
  {
    assert PySeq.Slice([1, 2, 3], 0, 1) == [1];
    assert PySeq.Slice([1, 2, 3], 0, 2) == [1, 2];
  }

  /** A batch of zero from a fresh cursor on a non-empty pattern reads the
      stop bound `-1` from the end: it returns the whole pattern but its
      last value, where the newer class returns nothing. */
  lemma EmptyBatchReturnsPattern<T>(p: seq<T>)
    requires |p| > 0
    ensures Get(Series.New(p), 0) == Ok((Array(p[..|p| - 1]), Series.New(p)))
    ensures Series.Get(Series.New(p), 0) == Ok((Array([]), Series.New(p)))
  {
  }
}
