/** Python slicing and the few numpy array routines the generators use
    (`numpy.tile`, `numpy.sum`, `numpy.cumsum`, `numpy.roll`), on `seq`. */
module PySeq {
  import PyInt

  /** A Python slice bound resolved against a sequence of length `len`:
      a negative bound counts from the end, and the result is clamped. */
  function Bound(i: int, len: nat): (k: nat)
    ensures k <= len
    ensures 0 <= i <= len ==> k == i
    ensures i < 0 && i + len >= 0 ==> k == i + len
  {
    if i < 0 then (if i + len < 0 then 0 else i + len)
    else if i > len then len
    else i
  }

  /** Python's `s[start:stop]`. */
  function Slice<T>(s: seq<T>, start: int, stop: int): (r: seq<T>)
    ensures Bound(start, |s|) <= Bound(stop, |s|) ==>
              |r| == Bound(stop, |s|) - Bound(start, |s|)
    ensures Bound(start, |s|) >= Bound(stop, |s|) ==> r == []
    ensures forall j :: 0 <= j < |r| ==> r[j] == s[Bound(start, |s|) + j]
  {
    var a, b := Bound(start, |s|), Bound(stop, |s|);
    if a < b then s[a..b] else []
  }

  /** `numpy.tile(p, k)` for a one-dimensional `p`: `k` copies of `p`. */
  function Tile<T>(p: seq<T>, k: nat): (r: seq<T>)
    ensures |r| == k * |p|
  {
    if k == 0 then [] else p + Tile(p, k - 1)
  }

  /** Element `m` of a tiling is element `m mod |p|` of the pattern. */
  lemma {:induction false} TileAt<T>(p: seq<T>, k: nat, m: nat)
    requires m < k * |p|
    ensures |p| > 0 && Tile(p, k)[m] == p[m % |p|]
  {
    if m >= |p| {
      TileAt(p, k - 1, m - |p|);
      PyInt.ModShift(m - |p|, 1, |p|);
    } else {
      PyInt.DivModUnique(m, |p|, 0, m);
    }
  }

  /** `numpy.sum` of a one-dimensional array, summed left to right. */
  function Sum(xs: seq<real>): real
  {
    if xs == [] then 0.0 else Sum(xs[..|xs| - 1]) + xs[|xs| - 1]
  }

  /** Summing a concatenation sums the parts. */
  lemma {:induction false} SumAppend(xs: seq<real>, ys: seq<real>)
    ensures Sum(xs + ys) == Sum(xs) + Sum(ys)
    decreases |ys|
  {
    if ys == [] {
      assert xs + ys == xs;
    } else {
      var n := |ys| - 1;
      assert (xs + ys)[..|xs + ys| - 1] == xs + ys[..n];
      SumAppend(xs, ys[..n]);
    }
  }

  /** `numpy.cumsum`: element `j` is the sum of the first `j + 1` elements. */
  function CumSum(xs: seq<real>): (r: seq<real>)
    ensures |r| == |xs|
    ensures forall j :: 0 <= j < |r| ==> r[j] == Sum(xs[..j + 1])
  {
    seq(|xs|, j requires 0 <= j < |xs| => Sum(xs[..j + 1]))
  }

  /** The sum of `xs + [x]` is the sum of `xs` plus `x`. */
  lemma SumSnoc(xs: seq<real>, x: real)
    ensures Sum(xs + [x]) == Sum(xs) + x
  {
    assert (xs + [x])[..|xs|] == xs;
  }

  /** `numpy.cumsum` grows one running total at a time: appending `x`
      appends the previous total plus `x`. */
  lemma CumSumAppend(xs: seq<real>, x: real)
    ensures CumSum(xs + [x]) == CumSum(xs) + [Sum(xs) + x]
  {
    var ys := xs + [x];
    var l, r := CumSum(ys), CumSum(xs) + [Sum(xs) + x];
    forall j | 0 <= j < |ys|
      ensures l[j] == r[j]
    {
      if j < |xs| {
        assert ys[..j + 1] == xs[..j + 1];
      } else {
        assert ys[..j + 1] == ys;
        SumSnoc(xs, x);
      }
    }
    assert l == r;
  }

  /** The last element of a non-empty cumulative sum is the sum of the
      whole array, which `random_incremental[-1]` reads. */
  lemma CumSumLast(xs: seq<real>)
    requires |xs| > 0
    ensures CumSum(xs)[|xs| - 1] == Sum(xs)
  {
    assert xs[..|xs|] == xs;
  }

  /** `numpy.roll(s, -k)`: the sequence rotated left by `k` places; an empty
      sequence is returned unchanged. */
  function RollLeft<T>(s: seq<T>, k: int): (r: seq<T>)
    ensures |r| == |s|
    ensures |s| > 0 ==> r == s[k % |s|..] + s[..k % |s|]
  {
    if |s| == 0 then s
    else
      var r := seq(|s|, j requires 0 <= j < |s| => s[(j + k) % |s|]);
      var c := k % |s|;
      assert forall j :: 0 <= j < |s| ==> r[j] == (s[c..] + s[..c])[j] by {
        forall j | 0 <= j < |s|
          ensures r[j] == (s[c..] + s[..c])[j]
        {
          PyInt.ModAddLeft(k, j, |s|);
          if j < |s| - c {
            PyInt.DivModUnique(j + c, |s|, 0, j + c);
          } else {
            PyInt.DivModUnique(j + c, |s|, 1, j + c - |s|);
          }
        }
      }
      r
  }

  /** Element `j` of a left rotation by `k` is element `j + k`, wrapped. */
  lemma RollLeftAt<T>(s: seq<T>, k: int, j: nat)
    requires j < |s|
    ensures RollLeft(s, k)[j] == s[(j + k) % |s|]
  {
    var r := seq(|s|, i requires 0 <= i < |s| => s[(i + k) % |s|]);
    assert RollLeft(s, k) == r;
  }

  /** Concatenation of a sequence of sequences, in order. */
  function Flatten<T>(xss: seq<seq<T>>): seq<T>
  {
    if xss == [] then [] else xss[0] + Flatten(xss[1..])
  }
}
