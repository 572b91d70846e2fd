/** `RepeatPattern` (`dsfaker/generators/series.py`): a cursor over a
    pattern that tiles forever. */
module Series {
  import opened Base
  import PyInt
  import PySeq

  /** The pattern and the cursor `index`, the position of the next value;
      `index == |pattern|` means the cursor has to wrap before reading. */
  datatype RepeatPattern<T> = RepeatPattern(pattern: seq<T>, index: nat) {
    predicate Valid()
    {
      index <= |pattern|
    }
  }

  /** The states every call keeps: `0 <= index <= l`. */
  type Cursor<T> = c: RepeatPattern<T> | c.Valid() witness RepeatPattern([], 0)

  /** A fresh cursor at the start of the pattern. */
  function New<T>(pattern: seq<T>): Cursor<T>
  {
    RepeatPattern(pattern, 0)
  }

  /** `nb_tiles`: how many whole copies of the pattern a batch of `size`
      needs after the `remaining` values before the wrap. */
  function NbTiles(l: nat, remaining: nat, size: nat): (r: Result<nat>)
    ensures size <= remaining ==> r == Ok(0)
    ensures size > remaining && l == 0 ==> r == Err(ZeroDivision)
    ensures size > remaining && l > 0 ==>
              r.Ok? && r.value >= 1 && r.value * l - l < size - remaining <= r.value * l
  {
    if size > remaining then
      if l == 0 then Err(ZeroDivision) else Ok(PyInt.CeilDiv(size - remaining, l))
    else Ok(0)
  }

  /** The wrapping branch of a batch: the rest of the pattern from `index`,
      then `nb` tiles of the pattern trimmed at `split_index`, which is
      `size - nb * l - remaining`; the cursor moves to `l + split_index`. */
  function Tiled<T>(p: seq<T>, index: nat, size: nat, nb: nat): (r: (seq<T>, nat))
    requires index < |p| < index + size
    requires nb * |p| - |p| < size - (|p| - index) <= nb * |p|
    ensures 1 <= r.1 <= |p|
  {
    var l, remaining := |p|, |p| - index;
    var tiles := PySeq.Tile(p, nb);
    var split := size - nb * l - remaining;
    var tail := if split != 0 then PySeq.Slice(tiles, 0, split) else tiles;
    (PySeq.Slice(p, index, l) + tail, l + split)
  }

  /** `_get(size)`: the single path for `size == 1`, otherwise the batch
      path, which first wraps a cursor sitting at the end, then either
      slices within the pattern or concatenates the rest of the pattern with
      a trimmed tiling. */
  function Get<T>(c: Cursor<T>, size: nat): (r: Result<(Out<T>, Cursor<T>)>)
    ensures r.Ok? ==> r.value.1.pattern == c.pattern
    ensures r.Ok? ==> (r.value.0.Scalar? <==> size == 1)
    ensures r.Err? <==> |c.pattern| == 0 && size != 0
    ensures r.Err? ==> r.error == (if size == 1 then IndexError else ZeroDivision)
  {
    var l := |c.pattern|;
    if size == 1 then
      if c.index == l then
        if l == 0 then Err(IndexError)
        else Ok((Scalar(c.pattern[0]), RepeatPattern(c.pattern, 1)))
      else
        Ok((Scalar(c.pattern[c.index]), RepeatPattern(c.pattern, c.index + 1)))
    else
      var index := if c.index == l then 0 else c.index;
      var remaining := l - index;
      var nbTiles :- NbTiles(l, remaining, size);
      if nbTiles > 0 then
        var (items, next) := Tiled(c.pattern, index, size, nbTiles);
        Ok((Array(items), RepeatPattern(c.pattern, next)))
      else
        var next := index + size;
        Ok((Array(PySeq.Slice(c.pattern, next - size, next)), RepeatPattern(c.pattern, next)))
  }

  /** `get_single`: `_get(1)`, which returns one element. */
  function Single<T>(c: Cursor<T>): (r: Result<(T, Cursor<T>)>)
    ensures r.Ok? <==> |c.pattern| > 0
    ensures r.Err? ==> r.error == IndexError
    ensures r.Ok? ==> Get(c, 1) == Ok((Scalar(r.value.0), r.value.1))
    ensures r.Ok? ==> r.value.0 == c.pattern[c.index % |c.pattern|] && r.value.1.index == c.index % |c.pattern| + 1
  {
    var l := |c.pattern|;
    var p :- Get(c, 1);
    if c.index == l then
      PyInt.DivModUnique(l, l, 1, 0);
      Ok((p.0.value, p.1))
    else
      PyInt.DivModUnique(c.index, l, 0, c.index);
      Ok((p.0.value, p.1))
  }

  /** `get_batch(n)`: `_get(n)`; for `n == 1` this is the single path and
      returns a scalar, not a one-element array. */
  function Batch<T>(c: Cursor<T>, n: nat): (r: Result<(Out<T>, Cursor<T>)>)
    ensures r.Ok? <==> |c.pattern| > 0 || n == 0
    ensures |c.pattern| > 0 && n >= 2 ==> r.value.0 == Array(Window(c.pattern, c.index, n))
    ensures |c.pattern| > 0 && n >= 1 ==> r.value.1.index == After(|c.pattern|, c.index, n)
  {
    if |c.pattern| > 0 && n >= 2 then
      BatchClosedForm(c, n);
      Get(c, n)
    else if |c.pattern| > 0 && n == 1 then
      SingleStep(c);
      Get(c, n)
    else
      Get(c, n)
  }

  /** The `n` values of the infinitely tiled pattern from position `start`. */
  function Window<T>(p: seq<T>, start: nat, n: nat): (w: seq<T>)
    requires |p| > 0
    ensures |w| == n
    ensures forall j :: 0 <= j < n ==> w[j] == p[(start + j) % |p|]
  {
    seq(n, j requires 0 <= j < n => p[(start + j) % |p|])
  }

  /** The cursor after `n >= 1` reads from `index`: it never rests at 0. */
  function After(l: nat, index: nat, n: nat): (k: nat)
    requires l > 0 && n > 0
    ensures 1 <= k <= l
  {
    (index + n - 1) % l + 1
  }

  /** `n` successive singles read the tiled pattern from the cursor on and
      leave the cursor just after the last value read. */
  lemma {:induction false} SinglesClosedForm<T>(c: Cursor<T>, n: nat)
    requires |c.pattern| > 0
    ensures Singles(Single, c, n).Ok?
    ensures Singles(Single, c, n).value.0 == Window(c.pattern, c.index, n)
    ensures Singles(Single, c, n).value.1 ==
              RepeatPattern(c.pattern, if n == 0 then c.index else After(|c.pattern|, c.index, n))
    decreases n
  {
    var p, l := c.pattern, |c.pattern|;
    if n > 0 {
      SingleStep(c);
      var c1: Cursor<T> := RepeatPattern(p, c.index % l + 1);
      SinglesClosedForm(c1, n - 1);
      assert Singles(Single, c, n) == Prepend([p[c.index % l]], Singles(Single, c1, n - 1));
      WindowStep(p, c.index, n);
      AfterStep(l, c.index, n);
    }
  }

  /** One single reads `pattern[index mod l]` and moves the cursor past it. */
  lemma SingleStep<T>(c: Cursor<T>)
    requires |c.pattern| > 0
    ensures c.index % |c.pattern| < |c.pattern|
    ensures Single(c) == Ok((c.pattern[c.index % |c.pattern|], RepeatPattern(c.pattern, c.index % |c.pattern| + 1)))
  {
    var l := |c.pattern|;
    if c.index == l {
      PyInt.DivModUnique(l, l, 1, 0);
    } else {
      PyInt.DivModUnique(c.index, l, 0, c.index);
    }
  }

  /** A window is its first value followed by the window one place on. */
  lemma WindowStep<T>(p: seq<T>, i: nat, n: nat)
    requires |p| > 0 && n > 0
    ensures Window(p, i, n) == [p[i % |p|]] + Window(p, i % |p| + 1, n - 1)
  {
    var l := |p|;
    var rest := Window(p, i % l + 1, n - 1);
    forall j | 0 <= j < n - 1
      ensures rest[j] == p[(i + (j + 1)) % l]
    {
      PyInt.ModAddLeft(i, 1 + j, l);
    }
  }

  /** The cursor after `n` reads is the cursor after `n - 1` reads made one
      place on. */
  lemma AfterStep(l: nat, i: nat, n: nat)
    requires l > 0 && n > 0
    ensures n == 1 ==> i % l + 1 == After(l, i, n)
    ensures n > 1 ==> After(l, i % l + 1, n - 1) == After(l, i, n)
  {
    if n > 1 {
      PyInt.ModAddLeft(i, n - 1, l);
    } else {
      PyInt.DivModUnique(i % l, l, 0, i % l);
    }
  }

  /** The `i`-th single (counting from 0) from a fresh cursor is
      `pattern[i mod l]`. */
  lemma Periodic<T>(p: seq<T>, i: nat)
    requires |p| > 0
    ensures Singles(Single, New(p), i + 1).Ok?
    ensures Singles(Single, New(p), i + 1).value.0[i] == p[i % |p|]
  {
    SinglesClosedForm(New(p), i + 1);
  }

  /** Reading the tiling from a cursor at the end is reading it from 0. */
  lemma WrappedWindow<T>(p: seq<T>, index: nat, size: nat)
    requires |p| > 0 && index <= |p|
    ensures Window(p, index, size) == Window(p, if index == |p| then 0 else index, size)
  {
    var l := |p|;
    if index == l {
      forall j | 0 <= j < size
        ensures Window(p, index, size)[j] == Window(p, 0, size)[j]
      {
        PyInt.ModShift(j, 1, l);
      }
    }
  }

  /** The wrapping branch of a batch returns exactly `size` values, the
      window of the tiled pattern from `index`, and leaves the cursor where
      `size` singles would. */
  lemma TiledWindow<T>(p: seq<T>, index: nat, size: nat, nb: nat)
    requires index < |p| < index + size
    requires nb * |p| - |p| < size - (|p| - index) <= nb * |p|
    ensures Tiled(p, index, size, nb).0 == Window(p, index, size)
    ensures Tiled(p, index, size, nb).1 == After(|p|, index, size)
  {
    var l, remaining := |p|, |p| - index;
    var tiles := PySeq.Tile(p, nb);
    var split := size - nb * l - remaining;
    var tail := if split != 0 then PySeq.Slice(tiles, 0, split) else tiles;
    assert |tiles| == nb * l && -(l as int) < split <= 0;
    assert 0 < |tiles| + split == size - remaining;
    assert |tail| == |tiles| + split;
    assert tail == tiles[..|tail|] by {
      if split != 0 {
        assert PySeq.Bound(split, |tiles|) == |tiles| + split;
        assert forall j :: 0 <= j < |tail| ==> tail[j] == tiles[j];
      }
    }
    TiledItems(p, index, size, nb, tail);
    TiledAfter(l, index, size, nb, split);
  }

  /** The rest of the pattern followed by a prefix of a tiling is a window. */
  lemma TiledItems<T>(p: seq<T>, index: nat, size: nat, nb: nat, tail: seq<T>)
    requires |p| > 0 && index < |p|
    requires (|p| - index) + |tail| == size && |tail| <= nb * |p| && tail == PySeq.Tile(p, nb)[..|tail|]
    ensures PySeq.Slice(p, index, |p|) + tail == Window(p, index, size)
  {
    var l, remaining := |p|, |p| - index;
    var items := PySeq.Slice(p, index, l) + tail;
    var w := Window(p, index, size);
    forall j | 0 <= j < size
      ensures items[j] == w[j]
    {
      if j < remaining {
        PyInt.DivModUnique(index + j, l, 0, index + j);
      } else {
        PySeq.TileAt(p, nb, j - remaining);
        PyInt.ModShift(j - remaining, 1, l);
      }
    }
  }

  /** After a tiling batch the cursor sits at `l + split_index`. */
  lemma TiledAfter(l: nat, index: nat, size: nat, nb: nat, split: int)
    requires l > 0 && index < l && size > 0 && -(l as int) < split <= 0
    requires split == size - nb * l - (l - index)
    ensures l + split == After(l, index, size)
  {
    assert index + size - 1 == (l + split - 1) + nb * l;
    PyInt.ModShift(l + split - 1, nb, l);
    PyInt.DivModUnique(l + split - 1, l, 0, l + split - 1);
  }

  /** The slicing branch of a batch reads the window from `index < l`. */
  lemma SliceWindow<T>(p: seq<T>, index: nat, size: nat)
    requires |p| > 0 && index < |p| && 1 <= size <= |p| - index
    ensures PySeq.Slice(p, index, index + size) == Window(p, index, size)
    ensures index + size == After(|p|, index, size)
  {
    var l := |p|;
    forall j | 0 <= j < size
      ensures PySeq.Slice(p, index, index + size)[j] == Window(p, index, size)[j]
    {
      PyInt.DivModUnique(index + j, l, 0, index + j);
    }
    PyInt.DivModUnique(index + size - 1, l, 0, index + size - 1);
  }

  /** The cursor after reading from the end equals the cursor after reading
      from 0. */
  lemma WrappedAfter(l: nat, size: nat)
    requires l > 0 && size > 0
    ensures After(l, l, size) == After(l, 0, size)
  {
    PyInt.ModShift(size - 1, 1, l);
  }

  /** A batch of `size >= 2` is the window of the tiled pattern from the
      cursor, and leaves the cursor where `size` singles would. */
  lemma BatchClosedForm<T>(c: Cursor<T>, size: nat)
    requires |c.pattern| > 0 && size >= 2
    ensures Get(c, size).Ok?
    ensures Get(c, size).value.0 == Array(Window(c.pattern, c.index, size))
    ensures Get(c, size).value.1 == RepeatPattern(c.pattern, After(|c.pattern|, c.index, size))
  {
    var p, l := c.pattern, |c.pattern|;
    var index := if c.index == l then 0 else c.index;
    WrappedWindow(p, c.index, size);
    if c.index == l {
      WrappedAfter(l, size);
    }
    if size > l - index {
      TiledWindow(p, index, size, NbTiles(l, l - index, size).value);
    } else {
      SliceWindow(p, index, size);
    }
  }

  /** For a non-empty pattern and `n >= 1`, a batch of `n` produces the same
      values as `n` successive singles and leaves the cursor in the same
      place, including batches spanning several tiles; a batch of one is a
      scalar, every other batch an array. */
  lemma BatchIsSingles<T>(c: Cursor<T>, n: nat)
    requires |c.pattern| > 0 && n >= 1
    ensures Batch(c, n).Ok? && Singles(Single, c, n).Ok?
    ensures Batch(c, n).value.0.Items() == Singles(Single, c, n).value.0
    ensures Batch(c, n).value.1 == Singles(Single, c, n).value.1
    ensures Batch(c, n).value.0.Scalar? <==> n == 1
  {
    SinglesClosedForm(c, n);
    if n >= 2 {
      BatchClosedForm(c, n);
    } else {
      assert Singles(Single, c, 1) == Prepend([Single(c).value.0], Singles(Single, Single(c).value.1, 0));
    }
  }

  /** A batch of zero returns an empty array; it may wrap a cursor resting at
      the end back to 0, which is the same position of the tiling. */
  lemma EmptyBatch<T>(c: Cursor<T>)
    requires |c.pattern| > 0
    ensures Batch(c, 0) == Ok((Array([]), RepeatPattern(c.pattern, if c.index == |c.pattern| then 0 else c.index)))
    ensures Batch(c, 0).value.1.index % |c.pattern| == c.index % |c.pattern|
  {
    if c.index == |c.pattern| {
      PyInt.DivModUnique(c.index, c.index, 1, 0);
    }
  }

  /** An empty pattern fails: indexing in the single path, the division of
      `nb_tiles` in a batch of two or more; only a batch of zero succeeds. */
  lemma EmptyPatternFails<T>(c: Cursor<T>, n: nat)
    requires |c.pattern| == 0
    ensures Single(c) == Err(IndexError)
    ensures n == 1 ==> Batch(c, n) == Err(IndexError)
    ensures n >= 2 ==> Batch(c, n) == Err(ZeroDivision)
    ensures Batch(c, 0) == Ok((Array([]), c))
  {
  }

  /** The adapter a client loop sees: the values a batch returns. */
  function BatchItems<T>(c: Cursor<T>, n: nat): Result<(seq<T>, Cursor<T>)>
  {
    var p :- Batch(c, n);
    Ok((p.0.Items(), p.1))
  }

  /** Any interleaving of singles and non-empty batches from a fresh cursor
      reads the tiled pattern in order: value `p` of the whole run is
      `pattern[p mod l]`, and the next single continues the tiling. With
      the pattern `0..9`, after 10005 values the next single is 5. */
  lemma Interleaving<T>(pattern: seq<T>, calls: seq<Call>)
    requires |pattern| > 0 && Productive(calls)
    ensures Drive(Single, BatchItems, New(pattern), calls).Ok?
    ensures var run := Drive(Single, BatchItems, New(pattern), calls).value;
            |run.0| == Consumed(calls) &&
            (forall p :: 0 <= p < |run.0| ==> run.0[p] == pattern[p % |pattern|]) &&
            Single(run.1).Ok? && Single(run.1).value.0 == pattern[Consumed(calls) % |pattern|]
  {
    DriveIsPatternSingles(pattern, calls);
    SinglesClosedForm(New(pattern), Consumed(calls));
    NextSingle(pattern, Consumed(calls));
  }

  /** On a cursor over a non-empty pattern, any interleaving of singles and
      non-empty batches is the same run as that many singles. */
  lemma DriveIsPatternSingles<T>(pattern: seq<T>, calls: seq<Call>)
    requires |pattern| > 0 && Productive(calls)
    ensures Drive(Single, BatchItems, New(pattern), calls) == Singles(Single, New(pattern), Consumed(calls))
  {
    var inv := (t: Cursor<T>) => t.pattern == pattern;
    forall t, m | inv(t) && (m > 0 || !Productive(calls))
      ensures BatchItems(t, m) == Singles(Single, t, m)
    {
      BatchIsSingles(t, m);
    }
    forall t | inv(t) && Single(t).Ok?
      ensures inv(Single(t).value.1)
    {
    }
    DriveIsSingles(Single, BatchItems, inv, New(pattern), calls);
  }

  /** After `n` singles from a fresh cursor, the next single returns
      `pattern[n mod l]`. */
  lemma NextSingle<T>(pattern: seq<T>, n: nat)
    requires |pattern| > 0
    ensures Singles(Single, New(pattern), n).Ok?
    ensures var last := Singles(Single, New(pattern), n).value.1;
            Single(last).Ok? && Single(last).value.0 == pattern[n % |pattern|]
  {
    SinglesClosedForm(New(pattern), n);
    SinglesClosedForm(New(pattern), n + 1);
    SinglesSplit(Single, New(pattern), n, 1);
    var last := Singles(Single, New(pattern), n).value.1;
    assert Singles(Single, last, 1) == Prepend([Single(last).value.0], Singles(Single, Single(last).value.1, 0));
  }
}
