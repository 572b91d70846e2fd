/** The generator contract of dsfaker (`dsfaker/generators/base.py`).

    A generator is a state machine with two entry points: `get_single`,
    modelled as a step `S -> Result<(T, S)>`, and `get_batch(n)`, modelled as
    `(S, nat) -> Result<(seq<T>, S)>`. The central promise is that a batch of
    `n` equals `n` successive singles and that state carries over between
    calls. `Singles` below is the reference definition every generator's
    batch is proved against; the infinite `stream_single`/`stream_batch`
    generators are modelled by their finite prefixes. */
module Base {
  import PySeq

  /** The exceptions the modelled code raises. `Unsupported` marks a value
      the model does not represent (a non-integral float exponent). */
  datatype Error =
    | NotImplemented
    | IndexError
    | ZeroDivision
    | ValueError
    | NotCompatibleGenerator
    | AssertionError
    | TypeError
    | Unsupported

  /** A call either returns a value or raises. */
  datatype Result<+T> = Ok(value: T) | Err(error: Error) {
    predicate IsFailure() { Err? }

    function PropagateFailure<U>(): Result<U>
      requires Err?
    {
      Err(error)
    }

    function Extract(): T
      requires Ok?
    {
      value
    }
  }

  datatype Option<+T> = None | Some(value: T)

  /** What `_get` hands back: a scalar for the single path, an array for a
      batch. */
  datatype Out<+T> = Scalar(value: T) | Array(items: seq<T>) {
    /** The produced values in order. */
    function Items(): seq<T>
    {
      match this
      case Scalar(v) => [v]
      case Array(a) => a
    }
  }

  /** An inner generator seen from outside: an infinite stream of values and
      the position of the next one. A seeded random distribution, or any
      generator whose batch equals its singles, is one of these. */
  datatype Source<T> = Source(draw: nat -> T, pos: nat) {
    /** One `get_single`: the value at the position, and the advanced source. */
    function Next(): (r: (T, Source<T>))
      ensures r.1.draw == draw && r.1.pos == pos + 1
    {
      (draw(pos), Source(draw, pos + 1))
    }

    /** One `get_batch(n)`: the next `n` values, and the source advanced by `n`. */
    function Take(n: nat): (r: (seq<T>, Source<T>))
      ensures |r.0| == n
      ensures forall j :: 0 <= j < n ==> r.0[j] == draw(pos + j)
      ensures r.1.draw == draw && r.1.pos == pos + n
    {
      (seq(n, j requires 0 <= j < n => draw(pos + j)), Source(draw, pos + n))
    }
  }

  /** Prefixes `vs` to the values of a successful run. */
  function Prepend<S, T>(vs: seq<T>, r: Result<(seq<T>, S)>): (r': Result<(seq<T>, S)>)
    ensures r'.Ok? <==> r.Ok?
    ensures r.Ok? ==> r'.value == (vs + r.value.0, r.value.1)
    ensures r.Err? ==> r' == Err(r.error)
  {
    match r
    case Err(e) => Err(e)
    case Ok((ws, t)) => Ok((vs + ws, t))
  }

  /** `n` successive calls of `single` from state `s`: the values in order and
      the final state; the first failure aborts the run. This is also the
      first `n` yields of `stream_single`. */
  function Singles<S, T>(single: S -> Result<(T, S)>, s: S, n: nat): (r: Result<(seq<T>, S)>)
    ensures r.Ok? ==> |r.value.0| == n
    decreases n
  {
    if n == 0 then Ok(([], s))
    else
      var first :- single(s);
      Prepend([first.0], Singles(single, first.1, n - 1))
  }

  /** The first `k` yields of `stream_batch(n)`: `k` successive batches. */
  function StreamBatch<S, T>(batch: (S, nat) -> Result<(seq<T>, S)>, n: nat, s: S, k: nat): Result<(seq<seq<T>>, S)>
  {
    Singles((t: S) => batch(t, n), s, k)
  }

  /** The run of `a + b` singles is the run of `a` singles continued by `b`
      singles from where it stopped: state carries over between calls. */
  lemma {:induction false} SinglesSplit<S, T>(single: S -> Result<(T, S)>, s: S, a: nat, b: nat)
    ensures Singles(single, s, a + b) ==
              (match Singles(single, s, a)
               case Err(e) => Err(e)
               case Ok((vs, t)) => Prepend(vs, Singles(single, t, b)))
    decreases a
  {
    if a > 0 {
      match single(s)
      case Err(e) =>
      case Ok((v, s1)) =>
        SinglesSplit(single, s1, a - 1, b);
        assert a + b - 1 == (a - 1) + b;
        assert Singles(single, s, a + b) == Prepend([v], Singles(single, s1, a - 1 + b));
        assert Singles(single, s, a) == Prepend([v], Singles(single, s1, a - 1));
        match Singles(single, s1, a - 1)
        case Err(e) =>
        case Ok((vs, t)) =>
          match Singles(single, t, b)
          case Err(e) =>
          case Ok((ws, u)) =>
            assert [v] + (vs + ws) == ([v] + vs) + ws;
    } else {
      match Singles(single, s, b)
      case Err(e) =>
      case Ok((ws, u)) =>
        assert [] + ws == ws;
    }
  }

  /** If every batch of `n` equals `n` singles, then the first `k` yields of
      `stream_batch(n)`, concatenated, are the first `k * n` yields of
      `stream_single`, and both leave the generator in the same state. */
  lemma {:induction false} StreamBatchIsStreamSingle<S, T>(
    single: S -> Result<(T, S)>, batch: (S, nat) -> Result<(seq<T>, S)>, n: nat, s: S, k: nat)
    requires forall t :: batch(t, n) == Singles(single, t, n)
    ensures StreamBatch(batch, n, s, k).Ok? <==> Singles(single, s, k * n).Ok?
    ensures StreamBatch(batch, n, s, k).Ok? ==>
              PySeq.Flatten(StreamBatch(batch, n, s, k).value.0) == Singles(single, s, k * n).value.0 &&
              StreamBatch(batch, n, s, k).value.1 == Singles(single, s, k * n).value.1
    decreases k
  {
    if k > 0 {
      SinglesSplit(single, s, n, (k - 1) * n);
      assert n + (k - 1) * n == k * n;
      match Singles(single, s, n)
      case Err(e) =>
      case Ok((vs, t)) =>
        StreamBatchIsStreamSingle(single, batch, n, t, k - 1);
        var rest := StreamBatch(batch, n, t, k - 1);
        if rest.Ok? {
          assert StreamBatch(batch, n, s, k).value.0 == [vs] + rest.value.0;
          assert ([vs] + rest.value.0)[1..] == rest.value.0;
        }
    }
  }

  /** Value `j` of a run of `b` singles that starts where a run of `a`
      singles ended is value `a + j` of the run of `a + b`. */
  lemma SinglesSplitAt<S, T>(single: S -> Result<(T, S)>, s: S, a: nat, b: nat, j: nat)
    requires j < b && Singles(single, s, a + b).Ok?
    ensures Singles(single, s, a).Ok?
    ensures Singles(single, Singles(single, s, a).value.1, b).Ok?
    ensures Singles(single, Singles(single, s, a).value.1, b).value.0[j] == Singles(single, s, a + b).value.0[a + j]
  {
    SinglesSplit(single, s, a, b);
  }

  /** A run of `n + 1` singles is the run of `n` followed by one more. */
  lemma SinglesSnoc<S, T>(single: S -> Result<(T, S)>, s: S, n: nat)
    requires Singles(single, s, n).Ok?
    ensures var (vs, t) := Singles(single, s, n).value;
            Singles(single, s, n + 1) == (match single(t) case Err(e) => Err(e) case Ok((v, u)) => Ok((vs + [v], u)))
  {
    SinglesSplit(single, s, n, 1);
    var t := Singles(single, s, n).value.1;
    match single(t)
    case Err(e) =>
    case Ok((v, u)) =>
      assert [v] + [] == [v];
      assert Singles(single, u, 0) == Ok(([], u));
  }

  /** Two single steps that agree on every state give the same runs. */
  lemma {:induction false} SinglesCongruent<S, T>(single: S -> Result<(T, S)>, other: S -> Result<(T, S)>, s: S, n: nat)
    requires forall t :: single(t) == other(t)
    ensures Singles(single, s, n) == Singles(other, s, n)
    decreases n
  {
    if n > 0 && single(s).Ok? {
      SinglesCongruent(single, other, single(s).value.1, n - 1);
    }
  }

  /** One call a client makes on a generator. */
  datatype Call = SingleCall | BatchCall(size: nat)

  /** The number of values a sequence of calls consumes. */
  function Consumed(calls: seq<Call>): nat
  {
    if calls == [] then 0
    else (if calls[0].SingleCall? then 1 else calls[0].size) + Consumed(calls[1..])
  }

  /** A client interleaving singles and batches: all produced values in
      order, and the final state. */
  function Drive<S, T>(single: S -> Result<(T, S)>, batch: (S, nat) -> Result<(seq<T>, S)>, s: S, calls: seq<Call>)
    : Result<(seq<T>, S)>
    decreases |calls|
  {
    if calls == [] then Ok(([], s))
    else
      var first :- if calls[0].SingleCall? then Singles(single, s, 1) else batch(s, calls[0].size);
      Prepend(first.0, Drive(single, batch, first.1, calls[1..]))
  }

  /** Singles keep any state invariant that each single keeps. */
  lemma {:induction false} SinglesKeep<S, T>(single: S -> Result<(T, S)>, inv: S -> bool, s: S, n: nat)
    requires inv(s)
    requires forall t :: inv(t) && single(t).Ok? ==> inv(single(t).value.1)
    ensures Singles(single, s, n).Ok? ==> inv(Singles(single, s, n).value.1)
    decreases n
  {
    if n > 0 && single(s).Ok? {
      SinglesKeep(single, inv, single(s).value.1, n - 1);
    }
  }

  /** Every call of the sequence consumes at least one value. */
  predicate Productive(calls: seq<Call>)
  {
    forall i :: 0 <= i < |calls| ==> calls[i].SingleCall? || calls[i].size > 0
  }

  /** For a generator whose batches equal its singles on every state of
      some invariant the singles keep, any interleaving of singles and
      batches produces exactly the run of singles of the same total length.
      Only the batch sizes the calls use matter: when every call consumes a
      value, batches of zero are not needed to agree. */
  lemma {:induction false} DriveIsSingles<S, T>(
    single: S -> Result<(T, S)>, batch: (S, nat) -> Result<(seq<T>, S)>, inv: S -> bool, s: S, calls: seq<Call>)
    requires inv(s)
    requires forall t, m :: inv(t) && (m > 0 || !Productive(calls)) ==> batch(t, m) == Singles(single, t, m)
    requires forall t :: inv(t) && single(t).Ok? ==> inv(single(t).value.1)
    ensures Drive(single, batch, s, calls) == Singles(single, s, Consumed(calls))
    decreases |calls|
  {
    if calls != [] {
      var m := if calls[0].SingleCall? then 1 else calls[0].size;
      var first := if calls[0].SingleCall? then Singles(single, s, 1) else batch(s, calls[0].size);
      assert first == Singles(single, s, m) by {
        if calls[0].BatchCall? && Productive(calls) {
          assert calls[0].size > 0;
        }
      }
      assert !Productive(calls[1..]) ==> !Productive(calls) by {
        if !Productive(calls[1..]) {
          var i :| 0 <= i < |calls[1..]| && !(calls[1..][i].SingleCall? || calls[1..][i].size > 0);
          assert calls[i + 1] == calls[1..][i];
        }
      }
      SinglesSplit(single, s, m, Consumed(calls[1..]));
      if first.Ok? {
        SinglesKeep(single, inv, s, m);
        DriveIsSingles(single, batch, inv, first.value.1, calls[1..]);
      }
    }
  }

  /** A source's `get_single`: it never raises. */
  function Draw<T>(s: Source<T>): Result<(T, Source<T>)>
  {
    Ok(s.Next())
  }

  /** A source's `get_batch(n)`: it never raises. */
  function DrawBatch<T>(s: Source<T>, n: nat): Result<(seq<T>, Source<T>)>
  {
    Ok(s.Take(n))
  }

  /** A source's batch of `n` equals `n` successive singles. */
  lemma {:induction false} SourceBatchIsSingles<T>(s: Source<T>, n: nat)
    ensures DrawBatch(s, n) == Singles(Draw, s, n)
    decreases n
  {
    if n > 0 {
      var s1 := s.Next().1;
      SourceBatchIsSingles(s1, n - 1);
      assert s.Take(n).0 == [s.draw(s.pos)] + s1.Take(n - 1).0;
    }
  }

  /** The abstract `Generator`: it has no state and implements neither
      entry point. */
  datatype Abstract = Abstract

  /** `Generator.get_single`: always raises NotImplementedError. */
  function AbstractSingle<S>(g: S): (r: Result<(real, S)>)
    ensures r == Err(NotImplemented)
  {
    Err(NotImplemented)
  }

  /** `Generator.get_batch`: always raises NotImplementedError, for the
      abstract class and for every subclass that does not override it. */
  function AbstractBatch<S>(g: S, n: nat): (r: Result<(seq<real>, S)>)
    ensures r == Err(NotImplemented)
  {
    Err(NotImplemented)
  }

  /** The streams of the abstract generator raise at their first pull and
      yield nothing before. */
  lemma AbstractStreamsFail(g: Abstract, n: nat, k: nat)
    ensures Singles(AbstractSingle, g, k) == (if k == 0 then Ok(([], g)) else Err(NotImplemented))
    ensures StreamBatch(AbstractBatch, n, g, k) == (if k == 0 then Ok(([], g)) else Err(NotImplemented))
  {
    var step := (t: Abstract) => AbstractBatch(t, n);
    assert step(g) == Err(NotImplemented);
  }

  /** Bound metadata of a generator: the class attributes `bounded`, `lb`
      and `ub` (Python `None` is `None`). */
  datatype Bounds = Bounds(bounded: Option<bool>, lb: Option<real>, ub: Option<real>)

  /** The classes of `Distribution`; a `DistributionBounded` subclass
      supplies its own bounds. */
  datatype DistClass = DistributionBase | Unbounded | NonNegative | BoundedBy(lo: real, hi: real)

  /** The bound metadata each distribution class declares. */
  function ClassBounds(c: DistClass): (b: Bounds)
    ensures c.DistributionBase? ==> b == Bounds(None, None, None)
    ensures c.Unbounded? ==> b == Bounds(Some(false), None, None)
    ensures c.NonNegative? ==> b == Bounds(Some(true), Some(0.0), None)
    ensures c.BoundedBy? ==> b == Bounds(Some(true), Some(c.lo), Some(c.hi))
  {
    match c
    case DistributionBase => Bounds(None, None, None)
    case Unbounded => Bounds(Some(false), None, None)
    case NonNegative => Bounds(Some(true), Some(0.0), None)
    case BoundedBy(lo, hi) => Bounds(Some(true), Some(lo), Some(hi))
  }

  /** The attribute shape the distribution tests check: unbounded classes
      have neither bound, non-negative ones a lower bound only, bounded ones
      both. */
  lemma ClassBoundsShape(c: DistClass)
    ensures c.Unbounded? ==> ClassBounds(c).lb.None? && ClassBounds(c).ub.None?
    ensures c.NonNegative? ==> ClassBounds(c).lb.Some? && ClassBounds(c).ub.None?
    ensures c.BoundedBy? ==> ClassBounds(c).lb.Some? && ClassBounds(c).ub.Some?
    ensures ClassBounds(c).bounded == Some(true) <==> c.NonNegative? || c.BoundedBy?
  {
  }

  /** A distribution: its class and, when the class overrides `_get`, the
      seeded sampler seen as a stream of draws. `sampler == None` is a class
      that keeps the base `_get`. */
  datatype Distribution = Distribution(cls: DistClass, sampler: Option<Source<real>>)

  /** `Distribution._get(size)`: a scalar draw for `size == None`, an array of
      `n` draws for `size == n`. */
  function Sample(d: Distribution, size: Option<nat>): (r: Result<(Out<real>, Distribution)>)
    ensures d.sampler.None? ==> r == Err(NotImplemented)
    ensures d.sampler.Some? ==> r.Ok? && r.value.1.cls == d.cls
    ensures d.sampler.Some? && size.None? ==>
              r.value.0 == Scalar(d.sampler.value.draw(d.sampler.value.pos)) &&
              r.value.1.sampler == Some(Source(d.sampler.value.draw, d.sampler.value.pos + 1))
    ensures d.sampler.Some? && size.Some? ==>
              r.value.0.Array? && |r.value.0.items| == size.value &&
              r.value.1.sampler == Some(Source(d.sampler.value.draw, d.sampler.value.pos + size.value))
    ensures d.sampler.Some? && size.Some? ==>
              forall j :: 0 <= j < size.value ==> r.value.0.items[j] == d.sampler.value.draw(d.sampler.value.pos + j)
  {
    match d.sampler
    case None => Err(NotImplemented)
    case Some(src) =>
      match size
      case None => Ok((Scalar(src.Next().0), Distribution(d.cls, Some(src.Next().1))))
      case Some(n) => Ok((Array(src.Take(n).0), Distribution(d.cls, Some(src.Take(n).1))))
  }

  /** `Distribution.get_single`: `_get()` with no size. */
  function DistSingle(d: Distribution): (r: Result<(real, Distribution)>)
    ensures r.Ok? <==> Sample(d, None).Ok?
    ensures r.Ok? ==> Sample(d, None).value == (Scalar(r.value.0), r.value.1)
    ensures r.Err? ==> r.error == NotImplemented
  {
    var p :- Sample(d, None);
    Ok((p.0.value, p.1))
  }

  /** `Distribution.get_batch(n)`: `_get(size=n)`. */
  function DistBatch(d: Distribution, n: nat): (r: Result<(seq<real>, Distribution)>)
    ensures r.Ok? <==> Sample(d, Some(n)).Ok?
    ensures r.Ok? ==> Sample(d, Some(n)).value == (Array(r.value.0), r.value.1)
    ensures r.Err? ==> r.error == NotImplemented
  {
    var p :- Sample(d, Some(n));
    Ok((p.0.Items(), p.1))
  }

  /** A distribution's batch of `n` equals `n` successive singles: both
      raise for the base class, and a seeded sampler yields the same draws
      in the same order either way. */
  lemma {:induction false} DistBatchIsSingles(d: Distribution, n: nat)
    ensures n > 0 || d.sampler.Some? ==> DistBatch(d, n) == Singles(DistSingle, d, n)
    decreases n
  {
    if n > 0 && d.sampler.Some? {
      var src := d.sampler.value;
      var d1 := Distribution(d.cls, Some(Source(src.draw, src.pos + 1)));
      DistBatchIsSingles(d1, n - 1);
      var rest := DistBatch(d1, n - 1).value.0;
      assert DistBatch(d, n).value.0 == [src.draw(src.pos)] + rest;
    }
  }

  /** What `isinstance` tells the ScalingOperator about a generator: plain,
      a `BoundedGenerator` (whose `lb`/`ub` may still be `None`), or a
      `Distribution`, which is not a `BoundedGenerator` even when bounded. */
  datatype Kind = Plain | BoundedGenerator(lb: Option<real>, ub: Option<real>) | DistributionKind(cls: DistClass)
}
