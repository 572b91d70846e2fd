/** `CircularBuffer` (`dsfaker/listeners/buffers.py`): a fixed array of
    slots and the index of the next write. A write wraps the index from
    `size` back to 0, writes the slot and moves the index on, so the slots
    read from the index onwards, wrapping round, are the values from the
    oldest to the most recent. `History` keeps the same ring. */
module Buffers {
  import opened Base
  import PyInt
  import PySeq

  /** The slots (`size` is their number) and the index of the next write. */
  datatype Ring = Ring(buff: seq<real>, idx: nat) {
    /** The index never passes `size`. */
    predicate Valid()
    {
      idx <= |buff|
    }
  }

  type Buffer = r: Ring | r.Valid() witness Ring([], 0)

  /** `__init__(size, initial_values)`: `size` zeros when no initial values
      are given (a negative size is numpy's ValueError), otherwise the given
      values, whose number must be `size` (an AssertionError otherwise). */
  function New(size: int, initial: Option<seq<real>>): (r: Result<Buffer>)
    ensures initial.None? ==> (r.Ok? <==> size >= 0) && (r.Err? ==> r.error == ValueError)
    ensures initial.Some? ==> (r.Ok? <==> size == |initial.value|) && (r.Err? ==> r.error == AssertionError)
    ensures r.Ok? ==> r.value.idx == 0 && |r.value.buff| == size
    ensures r.Ok? && initial.None? ==> forall j :: 0 <= j < size ==> r.value.buff[j] == 0.0
    ensures r.Ok? && initial.Some? ==> r.value.buff == initial.value
  {
    match initial
    case None =>
      if size < 0 then Err(ValueError) else Ok(Ring(seq(size, _ => 0.0), 0))
    case Some(vs) =>
      if size != |vs| then Err(AssertionError) else Ok(Ring(vs, 0))
  }

  /** The slot `_put` writes: the index, wrapped from `size` to 0. */
  function Slot(r: Buffer): nat
  {
    if r.idx == |r.buff| then 0 else r.idx
  }

  /** `_put(value)` (also `put_single`): on an empty ring the write is out of
      bounds (IndexError); otherwise the wrapped slot receives the value, no
      other slot changes, and the index ends just after it, so it is at
      least 1 after any write. */
  function Put(r: Buffer, v: real): (r': Result<Buffer>)
    ensures r'.Ok? <==> |r.buff| > 0
    ensures r'.Err? ==> r'.error == IndexError
    ensures r'.Ok? ==> |r'.value.buff| == |r.buff| && 1 <= r'.value.idx <= |r.buff|
    ensures r'.Ok? ==> r'.value.buff[r'.value.idx - 1] == v
    ensures r'.Ok? ==> forall j :: 0 <= j < |r.buff| && j != r'.value.idx - 1 ==> r'.value.buff[j] == r.buff[j]
  {
    if |r.buff| == 0 then Err(IndexError)
    else
      var w := Slot(r);
      Ok(Ring(r.buff[w := v], w + 1))
  }

  /** `get_all`: the slots rotated left by the index (`numpy.roll(buff,
      -idx)`), oldest value first. It holds exactly the slots' values. */
  function GetAll(r: Buffer): (vs: seq<real>)
    ensures |vs| == |r.buff|
  {
    PySeq.RollLeft(r.buff, r.idx)
  }

  /** `get_all` holds exactly the slots' values. */
  lemma GetAllIsRotation(r: Buffer)
    ensures multiset(GetAll(r)) == multiset(r.buff)
  {
    if |r.buff| > 0 {
      var c := r.idx % |r.buff|;
      assert r.buff == r.buff[..c] + r.buff[c..];
    }
  }

  /** `a % l` for `0 <= a < 2 * l`, without a division. */
  lemma ModOnce(a: int, l: int)
    requires 0 <= a < 2 * l
    ensures a % l == (if a < l then a else a - l)
  {
    if a < l {
      PyInt.DivModUnique(a, l, 0, a);
    } else {
      PyInt.DivModUnique(a, l, 1, a - l);
    }
  }

  /** Element `j` of `get_all` is the slot `j` places after the wrapped index. */
  lemma GetAllAt(r: Buffer, j: nat)
    requires j < |r.buff|
    ensures GetAll(r)[j] == r.buff[if Slot(r) + j < |r.buff| then Slot(r) + j else Slot(r) + j - |r.buff|]
  {
    PySeq.RollLeftAt(r.buff, r.idx, j);
    ModOnce(j + r.idx, |r.buff|);
  }

  /** A write drops the oldest value of `get_all` and appends the new one. */
  lemma PutRotates(r: Buffer, v: real)
    requires |r.buff| > 0
    ensures GetAll(Put(r, v).value) == GetAll(r)[1..] + [v]
  {
    var l := |r.buff|;
    var r' := Put(r, v).value;
    var w := Slot(r);
    assert Slot(r') == (if w + 1 == l then 0 else w + 1);
    forall j | 0 <= j < l
      ensures GetAll(r')[j] == (GetAll(r)[1..] + [v])[j]
    {
      GetAllAt(r', j);
      if j < l - 1 {
        GetAllAt(r, j + 1);
      }
    }
  }

  /** Writing `v` then `vs` shifts the window of the last `|G|` values. */
  lemma ShiftWindow(g: seq<real>, v: real, vs: seq<real>)
    requires |g| > 0
    ensures (g[1..] + [v] + vs)[|vs|..] == (g + [v] + vs)[|vs| + 1..]
  {
    assert g[1..] + [v] + vs == (g + [v] + vs)[1..];
  }

  /** `put_batch(values)`: one `_put` per value, in order. An empty batch
      never fails; otherwise an empty ring fails on the first write. The
      result of `get_all` is then the last `size` values of the old
      `get_all` followed by the batch. */
  function PutBatch(r: Buffer, vs: seq<real>): (r': Result<Buffer>)
    ensures r'.Ok? <==> vs == [] || |r.buff| > 0
    ensures r'.Err? ==> r'.error == IndexError
    ensures r'.Ok? ==> |r'.value.buff| == |r.buff|
    ensures r'.Ok? ==> GetAll(r'.value) == (GetAll(r) + vs)[|vs|..]
    decreases |vs|
  {
    if vs == [] then
      assert GetAll(r) + vs == GetAll(r);
      Ok(r)
    else
      var r1 :- Put(r, vs[0]);
      PutRotates(r, vs[0]);
      ShiftWindow(GetAll(r), vs[0], vs[1..]);
      assert GetAll(r) + [vs[0]] + vs[1..] == GetAll(r) + vs;
      PutBatch(r1, vs[1..])
  }

  /** `put_batch` is `put_single` applied to each value in order. */
  lemma {:induction false} PutBatchIsPuts(r: Buffer, v: real, vs: seq<real>)
    ensures PutBatch(r, [v] + vs) == (match Put(r, v) case Err(e) => Err(e) case Ok(r1) => PutBatch(r1, vs))
  {
    assert ([v] + vs)[0] == v && ([v] + vs)[1..] == vs;
  }

  /** After `size` writes the ring holds exactly the values written, oldest
      first. */
  lemma FullWindow(r: Buffer, vs: seq<real>)
    requires |vs| == |r.buff| > 0
    ensures PutBatch(r, vs).Ok? && GetAll(PutBatch(r, vs).value) == vs
  {
    assert (GetAll(r) + vs)[|vs|..] == vs;
  }

  /** The most recent write is the last value of `get_all`. */
  lemma LastIsMostRecent(r: Buffer, v: real)
    requires |r.buff| > 0
    ensures GetAll(Put(r, v).value)[|r.buff| - 1] == v
  {
    PutRotates(r, v);
  }

  /** `get_prev(i)`: the slot `(size + idx + i) mod size`, with Python's
      modulo; an empty ring divides by zero. */
  function GetPrev(r: Buffer, i: int): (x: Result<real>)
    ensures x.Ok? <==> |r.buff| > 0
    ensures x.Err? ==> x.error == ZeroDivision
    ensures x.Ok? ==> x.value in r.buff
  {
    if |r.buff| == 0 then Err(ZeroDivision)
    else Ok(r.buff[PyInt.Mod(|r.buff| + r.idx + i, |r.buff|)])
  }

  /** For every `i`, negative or not, `get_prev(i)` on a non-empty ring is
      element `i mod size` of `get_all`. */
  lemma GetPrevAt(r: Buffer, i: int)
    ensures |r.buff| > 0 ==> GetPrev(r, i) == Ok(GetAll(r)[PyInt.Mod(i, |r.buff|)])
  {
    if |r.buff| > 0 {
      PrevSlot(|r.buff|, r.idx, i);
      PySeq.RollLeftAt(r.buff, r.idx, PyInt.Mod(i, |r.buff|));
    }
  }

  /** The slot `get_prev(i)` reads is the one `get_all` puts at `i mod size`. */
  lemma PrevSlot(l: nat, idx: nat, i: int)
    requires l > 0
    ensures (PyInt.Mod(i, l) + idx) % l == PyInt.Mod(l + idx + i, l)
  {
    PyInt.DivModUnique(i, l, PyInt.FloorDiv(i, l), PyInt.Mod(i, l));
    PyInt.DivModUnique(l + idx + i, l, PyInt.FloorDiv(l + idx + i, l), PyInt.Mod(l + idx + i, l));
    PyInt.ModAddLeft(i, idx, l);
    PyInt.ModShift(i + idx, 1, l);
  }

  /** `get_prev(-k)` for `1 <= k <= size` is element `size - k` of
      `get_all`: the `k`-th most recent value. */
  lemma GetPrevIsRecent(r: Buffer, k: nat)
    requires 1 <= k <= |r.buff|
    ensures GetPrev(r, -(k as int)) == Ok(GetAll(r)[|r.buff| - k])
  {
    GetPrevAt(r, -(k as int));
    PyInt.FloorDivUnique(-(k as int), |r.buff|, -1, |r.buff| - k);
  }

  /** After a batch of writes, `get_prev(-k)` for `k` up to the batch length
      and the size is the `k`-th last value of the batch. */
  lemma PrevAfterPuts(r: Buffer, vs: seq<real>, k: nat)
    requires |r.buff| > 0 && 1 <= k <= |vs| && k <= |r.buff|
    ensures PutBatch(r, vs).Ok? && GetPrev(PutBatch(r, vs).value, -(k as int)) == Ok(vs[|vs| - k])
  {
    var res := PutBatch(r, vs);
    assert res.Ok?;
    var r' := res.value;
    var l := |r.buff|;
    GetPrevIsRecent(r', k);
    var all := GetAll(r) + vs;
    var window := GetAll(r');
    assert window == all[|vs|..];
    assert window[l - k] == all[|vs| + l - k];
    assert all[|vs| + l - k] == vs[|vs| - k];
  }

  /** `get_mean`: the sum of every slot, initial or written, divided by the
      size, which is the mean of the values `get_all` returns; an empty ring
      has no mean. */
  function GetMean(r: Buffer): (m: Option<real>)
    ensures m.Some? <==> |r.buff| > 0
    ensures m.Some? ==> m.value == PySeq.Sum(GetAll(r)) / (|r.buff| as real)
  {
    if |r.buff| == 0 then None
    else
      SumRotation(r);
      Some(PySeq.Sum(r.buff) / (|r.buff| as real))
  }

  /** Rotation does not change the sum. */
  lemma SumRotation(r: Buffer)
    ensures PySeq.Sum(GetAll(r)) == PySeq.Sum(r.buff)
  {
    if |r.buff| > 0 {
      var c := r.idx % |r.buff|;
      PySeq.SumAppend(r.buff[c..], r.buff[..c]);
      PySeq.SumAppend(r.buff[..c], r.buff[c..]);
      assert r.buff == r.buff[..c] + r.buff[c..];
    }
  }
}
