# dsfaker generators, modelled in Dafny

dsfaker builds synthetic data from small generators. Each generator has two
entry points: `get_single()` returns one value and `get_batch(n)` returns
`n` values. The library's central promise is that a batch of `n` equals `n`
successive singles, and that the generator's state carries over from one
call to the next.

This project models the deterministic layer of those generators as pure
state machines:

- `get_single` is a step `S -> Result<(T, S)>`.
- `get_batch` is a step `(S, nat) -> Result<(seq<T>, S)>`.
- A Python exception is an `Err` carrying the exception kind.
- `Base.Singles` is the reference definition of "`n` successive singles".
  Each generator's batch is compared with it. It is proved equal for
  `RepeatPattern` (batches of one or more), `Autoincrement` with a non-zero
  step, `AutoincrementWithGenerator`, the operator nodes over operands that
  keep the promise and share no state, the utility operators, `History`
  and `TimeSeries`. It does not hold for `MeanHistory`, which has no batch,
  for the two older copies, for `Autoincrement` with a zero step, whose
  batch raises, or for a node with the same generator on both sides, as
  `Operators.SharedCounterexample` shows. The "Findings" section and the legacy rows below state each of
  these exceptions.

The generators covered are:

- `RepeatPattern`, `Autoincrement` and `AutoincrementWithGenerator`.
- The binary `ReduceOperator` nodes that the operator overloads build.
- `ConstantValueGenerator`, `BoundingOperator`, `ScalingOperator`,
  `ApplyFunctionOperator` and `AbsoluteOperator`.
- The ring buffer `CircularBuffer`, and the `History` and `MeanHistory`
  generators built on the same ring.
- `TimeSeries`.
- The older `infinite_generators` copies of `RepeatPattern` and
  `Autoincrement`.

Random generators appear only as inner operands. An inner generator is a
`Base.Source`: an infinite stream `nat -> T` together with the position of
its next value. The model assumes that a scalar numpy sampler behind a
seeded `RandomState` is such a stream: a draw of `size=n` gives the same
values as `n` draws with no size, in order. That assumption is not proved.
Samplers whose single draw is a vector, such as `Dirichlet` and
`Multinomial`, are not streams of scalars and are not modelled.

Python's arithmetic is written out explicitly:

- `PyInt` has floor division and modulo, which round toward negative
  infinity, and the bitwise operators on unbounded two's complement.
- `PyReal` has float floor division on exact reals.
- `PySeq` has slicing with negative indices, `numpy.tile`, `numpy.roll`,
  `numpy.cumsum` and `numpy.sum`.

Floats are modelled as exact reals.

Files:

- `base.dfy`: the generator contract, runs of singles, streams, client
  interleavings, and the distribution delegation and bound metadata.
- `operators.dfy`: `ReduceOperator` and the overloads.
- `autoincrement.dfy`, `series.dfy`, `utils.dfy`, `buffers.dfy`,
  `history.dfy` and `timeseries.dfy`: the generators named above.
- `legacy_series.dfy` and `legacy_autoincrement.dfy`: the older copies.
- `pyint.dfy`, `pyreal.dfy` and `pyseq.dfy`: the Python and numpy
  primitives.

## Model

| member | source | states |
|---|---|---|
| Base.Singles | dsfaker/generators/base.py:17-19 | The first `n` yields of `stream_single` are `n` successive singles, each run from the state the previous one left. This is the reference every batch is compared with. A successful run has exactly `n` values. |
| Base.SinglesSplit | dsfaker/generators/base.py:17-19 | A run of `a + b` singles is the run of `a` continued by `b` singles from the state the first part left behind. State carries over between calls. |
| Base.SinglesSplitAt | dsfaker/generators/base.py:17-19 | Value `a + j` of a run of `a + b` singles is value `j` of the `b` singles that follow the first `a`. |
| Base.AbstractSingle | dsfaker/generators/base.py:10-15 | The abstract `get_single` raises NotImplementedError on every state. |
| Base.AbstractBatch | dsfaker/generators/base.py:21-26 | The abstract `get_batch` raises NotImplementedError on every state and size, including size 0. |
| Base.StreamBatchIsStreamSingle | dsfaker/generators/base.py:17-30 | Suppose every batch of `n` equals `n` singles. Then the first `k` yields of `stream_batch(n)` succeed exactly when the first `k * n` yields of `stream_single` do. Concatenated, they are the same values and leave the same state. |
| Base.DriveIsSingles | tests/test_dsfaker.py:30-50 | Take a generator whose batches equal its singles on every state of an invariant the singles keep. Any interleaving of single and batch calls returns exactly the run of singles of the same total length. |
| Base.SourceBatchIsSingles | dsfaker/generators/base.py:156-160 | An inner stream's batch of `n` is its next `n` singles, and it moves on by `n`. |
| Base.AbstractStreamsFail | dsfaker/generators/base.py:10-30 | The abstract `Generator` raises NotImplementedError at the first pull of either stream, and at no earlier point. |
| Base.ClassBounds | dsfaker/generators/base.py:147-173 | The bound metadata of each distribution class. The base class has none. `DistributionUnbounded` is unbounded with no bounds. `DistributionNonNegative` is bounded with lower bound 0 and no upper bound. `DistributionBounded` carries both bounds. |
| Base.ClassBoundsShape | dsfaker/generators/base.py:163-173 | Which bounds each class has, and that `bounded` is true exactly for the non-negative and bounded classes. |
| Base.Sample | dsfaker/generators/base.py:153-154 | The base `_get` raises NotImplementedError. A sampling class gives one scalar draw for no size. For size `n` it gives an array whose item `j` is draw `pos + j` of its stream. It moves the stream on by 1 or `n`. |
| Base.DistSingle | dsfaker/generators/base.py:156-157 | `get_single` is `_get()` with no size. It returns that scalar or raises what `_get` raises. |
| Base.DistBatch | dsfaker/generators/base.py:159-160 | `get_batch(n)` is `_get(size=n)`. It returns that array or raises what `_get` raises. |
| Base.DistBatchIsSingles | dsfaker/generators/base.py:156-160 | A distribution's batch of `n` equals `n` successive singles. For the base class both raise when `n > 0`. A sampler yields the same draws in the same order either way. |
| PyInt.FloorDiv | dsfaker/generators/base.py:112-114 | Python's `//` on ints: the unique `q` with `a == b * q + m` and the remainder on the divisor's side of 0, including for negative divisors. |
| PyInt.Mod | dsfaker/generators/base.py:127-129 | Python's `%` on ints: the remainder that goes with `FloorDiv`, with the divisor's sign. |
| PyInt.FloorDivUnique | dsfaker/generators/base.py:112-129 | Any quotient and remainder pair that meets the floor conditions is `FloorDiv` and `Mod`. |
| PyInt.BitwiseIdentities | dsfaker/generators/base.py:132-144 | On two's-complement ints, `a + b == (a ^ b) + 2 (a & b)` and `a \| b == (a & b) + (a ^ b)`. |
| PyInt.BitAt | dsfaker/generators/base.py:130-143 | Bit `k` of the infinite two's-complement expansion is 0 or 1: the parity of `a // 2 ** k`. |
| PyInt.BitAndAt | dsfaker/generators/base.py:130-132 | On all ints, bit `k` of `a & b` is the product of bit `k` of `a` and bit `k` of `b`. |
| PyInt.BitOrAt | dsfaker/generators/base.py:135-137 | On all ints, bit `k` of `a \| b` is 1 exactly when bit `k` of `a` or of `b` is 1. |
| PyInt.BitXorAt | dsfaker/generators/base.py:140-142 | On all ints, bit `k` of `a ^ b` is 1 exactly when bit `k` of `a` and of `b` differ. |
| PyReal.FloorDivReal | dsfaker/generators/base.py:112-114 | Float `//`: the floor of the exact quotient, with the remainder on the divisor's side of 0. |
| PyReal.IntFloorIsReal | dsfaker/generators/base.py:112-129 | On ints, `//` and `%` agree with the floor quotient and remainder of the exact real quotient. |
| PyInt.CeilDiv | dsfaker/generators/series.py:32 | `math.ceil(a / b)` for a positive divisor: the least `c` with `a <= b * c`. |
| PySeq.Slice | dsfaker/generators/series.py:44 | Python slicing with negative and out-of-range bounds clamped to the sequence. The result is empty when the start is at or after the stop. Element `j` is the element at the clamped start plus `j`. |
| PySeq.TileAt | dsfaker/generators/series.py:37 | Element `m` of `numpy.tile(p, k)` is `p[m mod len(p)]`. |
| PySeq.SumAppend | dsfaker/listeners/buffers.py:35-36 | `numpy.sum` of a concatenation is the sum of the parts. |
| PySeq.CumSum | dsfaker/generators/autoincrement.py:43 | Element `j` of `numpy.cumsum` is the sum of the first `j + 1` elements. |
| PySeq.CumSumAppend | dsfaker/generators/autoincrement.py:43 | Appending `x` to an array appends the previous running total plus `x` to its `numpy.cumsum`. |
| PySeq.CumSumLast | dsfaker/generators/autoincrement.py:43-45 | The last element of a non-empty `numpy.cumsum` is the sum of the whole array, which `random_incremental[-1]` reads as the new current value. |
| PySeq.RollLeftAt | dsfaker/listeners/buffers.py:32-33 | Element `j` of `numpy.roll(s, -k)` is `s[(j + k) mod len(s)]`. |
| Operators.AddNum | dsfaker/generators/base.py:97-99 | `operator.add` has the sum as its value. It is an int exactly when both operands are ints. |
| Operators.SubNum | dsfaker/generators/base.py:102-104 | `operator.sub` has the difference as its value, int exactly for two ints. |
| Operators.MulNum | dsfaker/generators/base.py:117-119 | `operator.mul` has the product as its value, int exactly for two ints. |
| Operators.TrueDivNum | dsfaker/generators/base.py:107-109 | `operator.truediv` raises ZeroDivisionError exactly on a zero divisor. Otherwise it is a float that the divisor multiplies back to the dividend. |
| Operators.FloorDivNum | dsfaker/generators/base.py:112-114 | `operator.floordiv` raises exactly on a zero divisor. Otherwise it is int exactly for two ints, and its value is the floor of the exact quotient. |
| Operators.ModNum | dsfaker/generators/base.py:127-129 | `operator.mod` raises exactly on a zero divisor. Otherwise it is int exactly for two ints, and its value is the remainder of the exact floor division. |
| Operators.FloorDivModAgree | dsfaker/generators/base.py:112-129 | `a // b` is whole and `a == b * (a // b) + a % b`, with the remainder on the divisor's side of 0. |
| Operators.PowNum | dsfaker/generators/base.py:122-124 | `operator.pow`. An int for two ints with a non-negative exponent. A non-negative integral exponent gives the repeated product. A negative one gives its reciprocal, and raises ZeroDivisionError on a zero base. |
| Operators.BitNum | dsfaker/generators/base.py:130-143 | `and_`, `or_` and `xor` raise TypeError exactly when an operand is a float. Otherwise the result is an int, and every bit `k` of it is the and, or or exclusive or of bit `k` of the operands, on negative ints as well. |
| Operators.Apply | dsfaker/generators/base.py:97-144 | The function of a node on Python int and float operands: `+`, `-` and `*` never raise, and every error it raises is ZeroDivisionError, an unsupported power or TypeError. |
| Operators.ApplyMeaning | dsfaker/generators/base.py:97-144 | `+`, `-` and `*` compute the sum, difference and product, and give an int exactly for two ints. The three divisions raise exactly on a zero divisor. The bitwise operators raise exactly on a float operand. |
| Operators.ApplyAll | dsfaker/generators/base.py:93-94 | A function applied element-wise to two arrays of equal length succeeds exactly when every pair succeeds, and element `j` is the function of the two elements `j`. Arrays of different lengths give ValueError in the model (numpy's length-1 broadcast is not modelled). |
| Operators.NodeSingle | dsfaker/generators/base.py:90-91 | A node's single succeeds exactly when the left single, the right single and the function all succeed. Its value is the function of the two values, and each operand advances by exactly its own single. |
| Operators.NodeBatch | dsfaker/generators/base.py:93-94 | A node's batch succeeds exactly when both operand batches and the element-wise function succeed. Element `j` is the function of the two elements `j`, and each operand advances by its own batch. |
| Operators.NodeBatchIsSingles | dsfaker/generators/base.py:90-94 | If both operands' batches equal their singles, then the node's batch succeeds exactly when `n` node singles do. It then returns the same values and leaves both operands in the same state. |
| Operators.Overload | dsfaker/generators/base.py:32-60 | Each overload builds a node with `self` on the left and `other` on the right, for the operator that matches its symbol. |
| Operators.OverloadIsBijective | dsfaker/generators/base.py:32-60 | No two symbols build the same operator, and every operator is built by some symbol. |
| Operators.SharedReadsDifferently | dsfaker/generators/base.py:90-94 | With one generator on both sides, a single combines two adjacent draws, while batch element `j` combines draws `j` and `n + j`. |
| Operators.SharedCounterexample | dsfaker/generators/base.py:90-94 | With the counting stream added to itself, two singles give 1 and 5 while a batch of two gives 2 and 4. Aliasing breaks the batch/single promise. |
| Autoincrements.Arange | dsfaker/generators/autoincrement.py:19-22 | `numpy.arange` on ints raises for a zero step. Otherwise it gives the progression from `start` up to, but not reaching, `stop` in the step's direction. |
| Autoincrements.Single | dsfaker/generators/autoincrement.py:13-15 | `get_single` never raises. It returns the term `start + offset * step` at the current offset, then moves the offset on by one and keeps `start` and `step`. |
| Autoincrements.Batch | dsfaker/generators/autoincrement.py:17-22 | For a non-zero step, `get_batch(n)` returns exactly the `n` terms `start + (offset + j) * step` and moves the offset on by `n`. A zero step raises. |
| Autoincrements.SinglesClosedForm | dsfaker/generators/autoincrement.py:13-15 | `n` singles return the terms `start + (offset + j) * step` and move the offset on by `n`. |
| Autoincrements.NthSingle | tests/test_dsfaker.py:341-345 | The `k`-th single of a fresh generator is `start + k * step`. |
| Autoincrements.BatchIsSingles | dsfaker/generators/autoincrement.py:13-22 | For a non-zero step, a batch of `n` equals `n` singles. |
| Autoincrements.Interleaving | tests/test_dsfaker.py:347-356 | Any interleaving of singles and batches with a non-zero step yields `start + p * step` at global position `p`, and the offset ends at the number of values consumed. |
| Autoincrements.GenSingle | dsfaker/generators/autoincrement.py:36-40 | `AutoincrementWithGenerator.get_single` returns the running value from before the call. The new running value adds exactly one inner draw, and the inner stream moves on by one. |
| Autoincrements.GenBatch | dsfaker/generators/autoincrement.py:42-46 | `get_batch(n)` returns `n` values. Value `j` is the running value plus the sum of the first `j` draws. The new running value adds all `n` draws, and the inner stream moves on by `n`. |
| Autoincrements.GenSinglesClosedForm | dsfaker/generators/autoincrement.py:36-40 | Each single returns the running value before adding its own draw. Single `j` holds the first `j` draws only, and the running value afterwards holds all of them. |
| Autoincrements.GenBatchIsSingles | dsfaker/generators/autoincrement.py:36-46 | A batch of `n` equals `n` singles fed the same draws: same values, running value and stream position. |
| Autoincrements.GenBatchEmpty | dsfaker/generators/autoincrement.py:42-46 | A batch of zero returns nothing and leaves the running value and the stream unchanged. |
| Autoincrements.GenBatchConstantStep | tests/test_dsfaker.py:383-391 | With a constant increment `d`, batch value `j` is `current + j * d`. |
| Series.NbTiles | dsfaker/generators/series.py:31-34 | `nb_tiles` is 0 when the batch fits in the rest of the pattern. Otherwise it is the least number of whole copies that cover the overflow, and an empty pattern raises ZeroDivisionError. |
| Series.Tiled | dsfaker/generators/series.py:36-41 | The wrapping branch leaves the cursor inside `1..l`, so the next single reads inside the pattern. |
| Series.Get | dsfaker/generators/series.py:17-44 | `_get` keeps the pattern. It returns a scalar exactly for size 1. It fails exactly on an empty pattern with a non-zero size: IndexError for size 1 and ZeroDivisionError for larger sizes. |
| Series.Single | dsfaker/generators/series.py:46-47 | `get_single` raises IndexError exactly on an empty pattern. Otherwise it is `_get(1)` unwrapped: `pattern[index mod l]`, with the cursor at `(index mod l) + 1`. |
| Series.Batch | dsfaker/generators/series.py:49-50 | `get_batch(n)` fails exactly on an empty pattern with `n > 0`. For `n >= 2` it is the array of the `n` values of the tiled pattern from the cursor. For `n >= 1` it leaves the cursor where `n` singles do. |
| Series.SinglesClosedForm | dsfaker/generators/series.py:18-24 | `n` singles return the `n` values of the tiled pattern from the cursor on. |
| Series.SingleStep | dsfaker/generators/series.py:18-24 | A single returns `pattern[index mod l]` and sets the cursor to `(index mod l) + 1`. |
| Series.Periodic | tests/test_dsfaker.py:314-317 | The `i`-th single of a fresh cursor is `pattern[i mod l]`. |
| Series.TiledWindow | dsfaker/generators/series.py:36-41 | The wrapping branch returns exactly the `size` values of the repeated pattern from the cursor. It leaves the cursor where `size` singles would. |
| Series.SliceWindow | dsfaker/generators/series.py:42-44 | The slicing branch returns the `size` values from the cursor and moves it on by `size`. |
| Series.BatchClosedForm | dsfaker/generators/series.py:25-44 | A batch of `n >= 2` returns the `n` values of the tiled pattern from the cursor. The cursor ends at the position the same number of singles reaches. |
| Series.BatchIsSingles | dsfaker/generators/series.py:46-50 | For `n >= 1` a batch returns the values of `n` singles and leaves the same cursor. It is a scalar exactly for `n == 1`. |
| Series.EmptyBatch | dsfaker/generators/series.py:25-44 | A batch of zero returns an empty array. It may wrap a cursor resting at the end back to 0. |
| Series.EmptyPatternFails | dsfaker/generators/series.py:17-34 | On an empty pattern, a single and a batch of one raise IndexError, and batches of two or more raise ZeroDivisionError. A batch of zero returns an empty array. |
| Series.Interleaving | tests/test_dsfaker.py:319-327 | Any interleaving of singles and non-empty batches from a fresh cursor reads value `p` as `pattern[p mod l]`, and the next single continues the tiling. |
| LegacySeries.Get | dsfaker/infinite_generators/series.py:17-44 | The older `_get` keeps the pattern. It returns a scalar exactly for size 1, and fails exactly on an empty pattern with a non-zero size. |
| LegacySeries.AgreesOutsideShortSlice | dsfaker/infinite_generators/series.py:17-41 | The older class agrees with the newer one on singles, wrapping batches and errors, and always leaves the cursor where the newer one does. |
| LegacySeries.ShortSliceDropsLast | dsfaker/infinite_generators/series.py:42-44 | Inside the pattern, a batch of `2 <= size` returns the newer class's batch without its last value: `size - 1` values. |
| LegacySeries.ShortBatch | dsfaker/infinite_generators/series.py:42-44 | On `[1, 2, 3]`, a batch of two returns `[1]` where the newer class returns `[1, 2]`. Both leave the cursor at 2, so the value 2 is lost. |
| LegacySeries.EmptyBatchReturnsPattern | dsfaker/infinite_generators/series.py:42-44 | A batch of zero from a fresh cursor returns all of the pattern but its last value, where the newer class returns nothing. |
| LegacyAutoincrement.Reset | dsfaker/infinite_generators/autoincrement.py:17-22 | `reset` sets the offset to 0 and replaces `start` or `step` only when given. |
| LegacyAutoincrement.Single | dsfaker/infinite_generators/autoincrement.py:13-25 | The older single moves the offset on by one. It returns the newer class's value plus one `step`. |
| LegacyAutoincrement.Batch | dsfaker/infinite_generators/autoincrement.py:31-36 | The older batch is the newer one: it raises for a zero step, and otherwise returns the terms at offsets `offset .. offset + n - 1` and moves the offset on by `n`. |
| LegacyAutoincrement.SinglesClosedForm | dsfaker/infinite_generators/autoincrement.py:13-15 | `n` singles return `start + (offset + 1 + j) * step`, one term later than the newer class's singles. |
| LegacyAutoincrement.SingleIsShifted | dsfaker/infinite_generators/autoincrement.py:13-15 | The older single returns the newer single's value one offset later, and leaves the same offset. |
| LegacyAutoincrement.ResetThenSingle | dsfaker/infinite_generators/autoincrement.py:13-22 | After a reset the first single returns `start + step`, never `start`. |
| LegacyAutoincrement.BatchThenSingleSkips | dsfaker/infinite_generators/autoincrement.py:13-36 | After a batch of `n` from a fresh generator, the next single returns `start + (n + 1) * step`. So `start + n * step` never appears in the run. |
| Utils.ConstSingle | dsfaker/generators/utils.py:15-16 | A constant's single is its value, and the constant is unchanged. |
| Utils.ConstBatch | dsfaker/generators/utils.py:18-19 | A constant's batch of `n` is `n` copies of its value. |
| Utils.ConstBatchIsSingles | dsfaker/generators/utils.py:15-19 | A constant's batch equals `n` singles. |
| Utils.MapSingle | dsfaker/generators/utils.py:63-64 | `ApplyFunctionOperator.get_single` is `f` of the inner single. It raises exactly when the inner single raises, and leaves the inner state the inner single left. |
| Utils.MapBatch | dsfaker/generators/utils.py:66-67 | The batch is `f` of each element of the inner batch, in order, with the inner batch's state. |
| Utils.MapBatchIsSingles | dsfaker/generators/utils.py:63-67 | If the inner batch equals its singles, the mapped batch equals the mapped singles. |
| Utils.Abs | dsfaker/generators/utils.py:70-72 | `numpy.absolute` is non-negative and is `x` or `-x`. |
| Utils.AbsSingle | dsfaker/generators/utils.py:70-72 | `AbsoluteOperator`'s single is non-negative and is the inner value or its negation. |
| Utils.AbsBatch | dsfaker/generators/utils.py:70-72 | Element `j` of `AbsoluteOperator`'s batch is element `j` of the inner batch or its negation, and is non-negative. The state is the inner batch's state. |
| Utils.Clip | dsfaker/generators/utils.py:28-32 | `numpy.clip` lies in `[lb, ub]` for `lb <= ub` and leaves in-range values unchanged. It gives `lb` below the range and `ub` above it, and gives `ub` when `ub < lb`. |
| Utils.ClipIdempotent | tests/test_dsfaker.py:190-213 | Clamping twice is clamping once. |
| Utils.BoundSingle | dsfaker/generators/utils.py:28-29 | `BoundingOperator`'s single lies in `[lb, ub]` and passes in-range inner values through unchanged. |
| Utils.BoundBatch | dsfaker/generators/utils.py:31-32 | Element `j` of `BoundingOperator`'s batch is the clip of inner element `j`. It lies in `[lb, ub]`, and in-range inner values pass through unchanged. The state is the inner batch's state. |
| Utils.BoundBatchIsSingles | dsfaker/generators/utils.py:28-32 | If the inner batch equals its singles, the bounded batch equals the bounded singles. |
| Utils.BoundedRunInRange | tests/test_dsfaker.py:190-199 | Every value of any run of bounded singles lies in `[lb, ub]`. |
| Utils.NewScaling | dsfaker/generators/utils.py:36-49 | Construction fails in this order. `lb >= ub` raises ValueError. A generator that is not a BoundedGenerator raises NotCompatibleGeneratorException. A missing inner bound raises TypeError. Equal inner bounds raise ZeroDivisionError. Otherwise construction succeeds, with `mid` and `gen_mid` the midpoints and a map that sends the inner bounds to `lb` and `ub`. |
| Utils.ScaleSingle | dsfaker/generators/utils.py:51-52 | `ScalingOperator`'s single is the affine map of the inner single, with the inner state. |
| Utils.ScaleBatch | dsfaker/generators/utils.py:54-55 | The batch is the affine map of each inner batch element, with the inner state. |
| Utils.ScaleBatchIsSingles | dsfaker/generators/utils.py:51-55 | If the inner batch equals its singles, the scaled batch equals the scaled singles. |
| Utils.ScalingMonotone | dsfaker/generators/utils.py:46-52 | For `inner lb < inner ub`, the map is strictly increasing and sends `[inner lb, inner ub]` into `[lb, ub]`. |
| Utils.ScalingRoundTrip | dsfaker/generators/utils.py:51-52 | The affine map has an inverse on both sides. |
| Utils.ScalingExample | tests/test_dsfaker.py:223-244 | Scaling `[-1, 1]` onto `[-10, 10]` sends 1, 0 and -1 to 10, 0 and -10. |
| Affine.Endpoints | dsfaker/generators/utils.py:46-48 | The map built from the midpoints and the coefficient sends the inner bounds to `lb` and `ub`. |
| Affine.Increasing | dsfaker/generators/utils.py:52 | With a positive coefficient the map is strictly increasing. |
| Affine.Inverse | dsfaker/generators/utils.py:52 | With a non-zero coefficient the map is invertible. |
| Buffers.New | dsfaker/listeners/buffers.py:7-14 | The ring starts at index 0. Without initial values it holds `size` zeros, and a negative size raises ValueError. With initial values it holds them, and a length other than `size` raises AssertionError. |
| Buffers.Put | dsfaker/listeners/buffers.py:16-20 | `_put` raises IndexError exactly on an empty ring. Otherwise it writes the value just before the new index, with `1 <= idx <= size`, and changes no other slot. |
| Buffers.GetAllIsRotation | dsfaker/listeners/buffers.py:32-33 | `get_all` is a rotation: the same multiset of values as the ring. |
| Buffers.GetAll | dsfaker/listeners/buffers.py:32-33 | `get_all` has one element per slot of the ring. |
| Buffers.GetAllAt | dsfaker/listeners/buffers.py:32-33 | Element `j` of `get_all` is the slot `j` places after the next write position. |
| Buffers.PutRotates | dsfaker/listeners/buffers.py:16-33 | After a write, `get_all` drops its oldest value and ends with the new one. |
| Buffers.PutBatch | dsfaker/listeners/buffers.py:25-27 | `put_batch` fails exactly on an empty ring with values to write. `get_all` afterwards is the last `size` values of the old `get_all` followed by the batch. |
| Buffers.PutBatchIsPuts | dsfaker/listeners/buffers.py:22-27 | `put_batch` is `put_single` of each value in order. |
| Buffers.FullWindow | dsfaker/listeners/buffers.py:16-33 | After `size` writes, `get_all` is exactly those values in order. |
| Buffers.LastIsMostRecent | dsfaker/listeners/buffers.py:32-33 | The last element of `get_all` is the most recent write. |
| Buffers.GetPrev | dsfaker/listeners/buffers.py:29-30 | `get_prev` raises ZeroDivisionError exactly on an empty ring, and otherwise returns one of the stored values. |
| Buffers.GetPrevAt | dsfaker/listeners/buffers.py:29-30 | On a non-empty ring, `get_prev(i)` for any int `i`, negative or not, is slot `(size + idx + i) mod size`. That is element `i mod size` of `get_all`, with Python's modulo. |
| Buffers.GetPrevIsRecent | dsfaker/listeners/buffers.py:29-30 | For `1 <= k <= size`, `get_prev(-k)` is the `k`-th most recent value, element `size - k` of `get_all`. |
| Buffers.PrevAfterPuts | dsfaker/listeners/buffers.py:25-30 | After a batch, `get_prev(-k)` is the `k`-th last value of the batch. |
| Buffers.GetMean | dsfaker/listeners/buffers.py:35-36 | `get_mean` is defined exactly for a non-empty ring. It is the sum of every slot over the size, which is the mean of `get_all`. |
| Histories.New | dsfaker/generators/utils.py:141-150 | `History` builds the same ring as the buffer, with the same errors, around the inner generator. |
| Histories.GetPrev | dsfaker/generators/utils.py:152-153 | `History.get_prev` raises ZeroDivisionError exactly on an empty ring, and otherwise returns one of the recorded values. |
| Histories.GetMean | dsfaker/generators/utils.py:172-173 | `History.get_mean` has a value exactly for a non-empty ring (for an empty one the model gives `None` where numpy gives nan). It is the sum of the window over the size. |
| Histories.Single | dsfaker/generators/utils.py:161-164 | A single returns the inner draw unchanged and writes it to the ring, which drops its oldest value. It raises IndexError on an empty ring. |
| Histories.Batch | dsfaker/generators/utils.py:166-170 | A batch returns the inner batch unchanged and writes each value in order. The ring afterwards is the old window followed by the batch, cut to size. |
| Histories.BatchIsSingles | dsfaker/generators/utils.py:161-170 | A `History` batch of `n` equals `n` singles. |
| Histories.RecentDraws | dsfaker/generators/utils.py:152-170 | After a batch of `n`, `get_prev(-k)` for `k <= n` and `k <= size` is draw `n - k` of the batch. |
| Histories.HistoryExample | tests/test_dsfaker.py:624-641 | Over a counting stream, the `i`-th of `n <= size` singles is `i`, and `get_prev(-n + i)` then returns `i`. |
| Histories.CountingRecent | tests/test_dsfaker.py:635-641 | Over a counting stream, value `i` of a batch of `n <= size` is `i`, and `get_prev(-n + i)` afterwards returns `i`. |
| Histories.MeanSingle | dsfaker/generators/utils.py:181-184 | `MeanHistory`'s single returns the mean of the window before the new draw is written, then advances the inner history by one single. |
| Histories.MeanBatch | dsfaker/generators/utils.py:176-184 | `MeanHistory` defines no `get_batch`. The inherited one raises NotImplementedError for every state and size. |
| Histories.MeanBatchIntended | tests/test_dsfaker.py:651-657 | The batch the tests expect of `MeanHistory` is `n` singles. It fails only on an empty ring with values to record, returns `n` values, and its first value is the next single. |
| Histories.MeanBatchRaises | dsfaker/generators/utils.py:176-184 | On the test's generator, `get_batch(10)` raises NotImplementedError, while the intended batch succeeds with first value 1.5. |
| Histories.MeanBatchExpected | tests/test_dsfaker.py:651-657 | On the test's generator, after `i` intended batches of 10, value `j` of the next one is `((10 i + j) * 4 + 6) / 4`. |
| Histories.MeanExampleValues | tests/test_dsfaker.py:644-649 | With size 4, initial `[0, 1, 2, 3]` and draws `4, 5, ...`, single `i` returns `(4 i + 6) / 4`. |
| TimeSeries.PairSingle | dsfaker/generators/timeseries.py:9-10 | A single is the pair (time single, data single), with time first. It fails when either fails and advances each inner generator once. |
| TimeSeries.PairBatch | dsfaker/generators/timeseries.py:12-13 | A batch is the pair (time batch, data batch), with each inner generator advanced by its own batch. |
| TimeSeries.PairBatchIsSingles | dsfaker/generators/timeseries.py:9-13 | If both inner batches equal their singles, the pair batch equals the times and data of `n` pair singles, with the same state. |
| TimeSeries.ExampleBatches | tests/test_dsfaker.py:411-418 | With a counting time and constant 42 data, the `k`-th batch of 100 has times `100 k + j` and data 42. |

## Left out

- Floats are exact reals. Rounding, int64 width and overflow, and the
  `dtype` arguments and casts are not modelled, and neither is
  `CastOperator`.
- `Autoincrement` is modelled on integers. The float progressions of
  `start`/`step` are outside the model, because `numpy.arange` on floats
  rounds its length.
- `TimeDelayedGenerator` sleeps on the wall clock, so it is not modelled.
- The random distributions, the trigonometric, date and string generators,
  the noise modules and the older `infinite_generators/timeseries.py` are
  not part of this model. Inner generators are abstract streams.
- The state a generator is left in after an exception is not modelled: an
  `Err` carries no state.
- Batch sizes are natural numbers. A negative `batch_size`, which numpy
  rejects or treats in its own way, is not modelled.
- Element-wise division by zero inside a batch does not raise in numpy.
  On float arrays `/`, `//` and `%` give inf or nan with a warning. On int
  arrays `/` gives inf or nan, while `//` and `%` give 0 with a warning.
  The model raises ZeroDivisionError per element, as Python does for its
  own ints and floats.
- `copy()`, listeners, scalar operands, reflected operators and unary minus
  are not modelled. dsfaker/generators/base.py does not define them.
- Base.DistBatchIsSingles: for a sampling class, a draw of `size=n`
  equalling `n` draws with no size is assumed of the sampler, which the
  model gives one stream for both paths, not proved of numpy. The lemma
  holds by that construction. Vector-valued samplers such as `Dirichlet`
  and `Multinomial` are outside it.
- Operators.Apply: every operand value is treated as a Python int or
  float. Many operands yield numpy scalars instead: `RepeatPattern` returns
  elements of a numpy array, `BoundingOperator` returns `numpy.clip`, and
  `AbsoluteOperator` returns `numpy.absolute`. On numpy scalars, `//` and
  `%` by an int zero give 0 with a warning, `/` by zero gives inf or nan
  with a warning, and an int raised to a negative int raises ValueError.
  So `(RepeatPattern([1]) // RepeatPattern([0])).get_single()` returns 0
  where the model raises ZeroDivisionError, and
  `(RepeatPattern([2]) ** RepeatPattern([-3])).get_single()` raises
  ValueError where the model gives 0.125. The error kinds the contract
  lists are those of Python scalars.
- Buffers.New: numpy infers the ring's dtype from `initial_values`. Integer
  initial values make an int64 ring, and every later write truncates a
  float toward zero. With `[0, 0, 0]` and writes of 0.5, `get_all` is all
  zeros and `get_mean` is 0, where the model keeps 0.5. The model holds
  exact reals in every ring.
- Histories.New: the same int64 ring arises from integer `initial_values`,
  and `_put` truncates float draws in it. `History(g, 3, initial_values=[0,
  0, 0])` over draws of 0.5 has `get_mean()` 0 and `get_prev(-1)` 0, where
  the model gives 0.5. The `MeanHistory` example of the tests draws ints,
  so it is unaffected.
- Operators.PowNum: a float exponent that is not whole gives `Unsupported`
  instead of Python's irrational or complex result.
- Operators.NodeBatchIsSingles: a batch applies the function element by
  element with Python scalar semantics, but the source applies numpy's
  array operators to whole arrays, and those differ on int arrays. An int
  array raised to a negative int power raises ValueError, so
  `Autoincrement(2, 1) ** Autoincrement(-3, 1)` gives 0.125 as a single but
  raises on `get_batch(1)`. An int array divided by zero with `//` or `%`
  gives 0 with a warning, where the model raises ZeroDivisionError. The
  lemma is proved for the scalar semantics, not for those cases. When a
  batch fails, the batch and the singles are only shown to fail together,
  not to raise the same error.
- Operators.ApplyAll: the element-wise application uses Python scalar
  semantics. numpy's int-array power and division by zero differ from it,
  as the line above describes. numpy also broadcasts an operand of length
  1: `numpy.array([1]) + numpy.array([0, 1])` is `[1, 2]` and
  `numpy.array([1]) + numpy.array([])` is `[]`, where the model gives
  ValueError for any two lengths that differ. The node lemmas are not
  affected, because every batch of `n` draws has `n` items on both sides.
- Buffers.GetPrev: the function's own contract gives the error case and
  that the value is a stored one. The exact slot for every `i` is stated by
  `Buffers.GetPrevAt`.
- Histories.GetPrev: the function's own contract gives the error case and
  that the value is a recorded one. It is `Buffers.GetPrev` of the ring,
  so `Buffers.GetPrevAt` gives its exact slot.
- Buffers.GetAll: the function's own contract gives the length only. The
  elements are stated by `Buffers.GetAllAt` and `Buffers.GetAllIsRotation`.
- Utils.MapBatch: the function is applied element by element. A function
  that treats a whole array differently from its elements is outside the
  model.
- Buffers.GetMean: numpy returns nan for an empty ring. The model returns
  `None` there instead of a value.
- Histories.GetMean: `History.get_mean` on an empty ring computes
  `numpy.sum([]) / 0`, which is nan with a RuntimeWarning. The model
  returns `None` there instead of a value.
- Utils.NewScaling: the ZeroDivisionError for equal inner bounds follows
  Python float division.
- `MeanHistory.delay` only copies an attribute, so it is not modelled.
- Series.Interleaving: batches of zero are excluded. A batch of zero may
  wrap a cursor resting at the end back to 0 without returning a value;
  `Series.EmptyBatch` states what it does.
- In the `History` and `MeanHistory` examples, the inner `Autoincrement` is
  the stream of its terms, which `Autoincrements.SinglesClosedForm` gives.

## Findings

| source | as written | input that shows it | evidently intended | confidence | as-written member | corrected member |
|---|---|---|---|---|---|---|
| dsfaker/infinite_generators/series.py:44 | The non-wrapping batch branch returns `pattern[index - size : index - 1]`: `size - 1` values, although the cursor moves on by `size`. | Pattern `[1, 2, 3]`, fresh cursor, `get_batch(2)` returns `[1]` and moves the cursor to 2. The value 2 is never returned. | `pattern[index - size : index]`, as in `dsfaker/generators/series.py:44`. | not executed | LegacySeries.ShortBatch | Series.BatchIsSingles |
| dsfaker/generators/utils.py:176-184 | `MeanHistory` defines no `get_batch`, so it inherits the base one, which raises NotImplementedError. `test_values_batch` (tests/test_dsfaker.py:651-657) expects batches of means. | `MeanHistory(Autoincrement(start=4), 4, initial_values=[0, 1, 2, 3]).get_batch(10)` raises NotImplementedError. | A batch of `n` is `n` successive singles: value `j` of the `i`-th batch of 10 is `((10 i + j) * 4 + 6) / 4`. | not executed | Histories.MeanBatchRaises | Histories.MeanBatchExpected |
| dsfaker/infinite_generators/autoincrement.py:13-15 | The single increments the offset before reading the term, while the batch reads from the old offset. | Any `start`, step 1, `get_batch(n)` and then `get_single()` return `start .. start + n - 1` and then `start + n + 1`. `start + n` is skipped. | Return the term at the offset and then increment it, as in `dsfaker/generators/autoincrement.py:13-15`. | not executed | LegacyAutoincrement.BatchThenSingleSkips | Autoincrements.Interleaving |
