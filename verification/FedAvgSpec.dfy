/** Weight blobs and the federated-averaging reduce, as functions over exact reals. */
module FedAvgSpec {
  import opened Prelude
  import opened Mixing

  /** One flattened tensor. */
  datatype Param = Param(shape: seq<int>, data: seq<real>)

  /** An insertion-ordered dictionary of parameters. */
  datatype Blob = Blob(names: seq<string>, params: map<string, Param>)

  datatype Contribution = Contribution(delta: Blob, samples: int)

  /** Which contribution was scaled back, and by how much. */
  datatype ClipEvent = ClipEvent(index: nat, norm: real, cap: real, scale: real)

  datatype WeightError =
    | BadClipFactor
    | NoContributions
    | NegativeTotal
    | ZeroTotal
    | NonPositiveCount(index: nat)
    | ShapeMismatch

  /** `names` lists the keys once each, in insertion order. */
  ghost predicate IsDict(b: Blob) {
    Distinct(b.names) && forall n :: n in b.names <==> n in b.params
  }

  function Product(shape: seq<int>): int {
    if shape == [] then 1 else Product(shape[..|shape| - 1]) * shape[|shape| - 1]
  }

  /** Same names, same shapes, and data of the declared length on both sides. */
  predicate SameParams(a: Blob, b: Blob)
    requires IsDict(a) && IsDict(b)
  {
    && a.params.Keys == b.params.Keys
    && forall n :: n in a.params ==>
         && a.params[n].shape == b.params[n].shape
         && |a.params[n].data| == Product(a.params[n].shape)
         && |b.params[n].data| == Product(a.params[n].shape)
  }

  function Subtract(next: Blob, base: Blob): (r: Result<Blob, WeightError>)
    requires IsDict(next) && IsDict(base)
    ensures r.Success? ==> IsDict(r.value)
  {
    if !SameParams(next, base) then Failure(ShapeMismatch)
    else Success(Blob(next.names, map n | n in next.params ::
      Param(next.params[n].shape,
            seq(|next.params[n].data|, i requires 0 <= i < |next.params[n].data| =>
              next.params[n].data[i] - base.params[n].data[i]))))
  }

  function ApplyDelta(base: Blob, delta: Blob, scale: real := 1.0): (r: Result<Blob, WeightError>)
    requires IsDict(base) && IsDict(delta)
    ensures r.Success? ==> IsDict(r.value)
  {
    if !SameParams(base, delta) then Failure(ShapeMismatch)
    else Success(Blob(base.names, map n | n in base.params ::
      Param(base.params[n].shape,
            seq(|base.params[n].data|, i requires 0 <= i < |base.params[n].data| =>
              base.params[n].data[i] + scale * delta.params[n].data[i]))))
  }

  function ScaleBlob(b: Blob, scale: real): Blob {
    Blob(b.names, map n | n in b.params ::
      Param(b.params[n].shape,
            seq(|b.params[n].data|, i requires 0 <= i < |b.params[n].data| => scale * b.params[n].data[i])))
  }

  // -------------------------------------------------------------------- norms

  function SumSquares(data: seq<real>): real {
    if data == [] then 0.0 else SumSquares(data[..|data| - 1]) + data[|data| - 1] * data[|data| - 1]
  }

  /** The sum of squares over the listed parameters. */
  function NormSquared(b: Blob, names: seq<string>): real {
    if names == [] then 0.0
    else
      var n := names[|names| - 1];
      NormSquared(b, names[..|names| - 1]) + if n in b.params then SumSquares(b.params[n].data) else 0.0
  }

  /** What `math.sqrt` promises over exact reals. */
  ghost predicate IsSqrt(sqrt: real -> real) {
    forall x: real :: x >= 0.0 ==> sqrt(x) >= 0.0 && sqrt(x) * sqrt(x) == x
  }

  function L2Norm(sqrt: real -> real, b: Blob): real {
    sqrt(NormSquared(b, b.names))
  }

  // ------------------------------------------------------------------- median

  function Insert(s: seq<real>, x: real): seq<real> {
    if s == [] then [x]
    else if s[|s| - 1] <= x then s + [x]
    else Insert(s[..|s| - 1], x) + [s[|s| - 1]]
  }

  function Sort(values: seq<real>): (r: seq<real>)
  {
    if values == [] then [] else Insert(Sort(values[..|values| - 1]), values[|values| - 1])
  }

  lemma {:induction false} InsertLength(s: seq<real>, x: real)
    ensures |Insert(s, x)| == |s| + 1
  {
    if s != [] && s[|s| - 1] > x { InsertLength(s[..|s| - 1], x); }
  }

  lemma {:induction false} SortLength(values: seq<real>)
    ensures |Sort(values)| == |values|
  {
    if values != [] {
      SortLength(values[..|values| - 1]);
      InsertLength(Sort(values[..|values| - 1]), values[|values| - 1]);
    }
  }

  function Median(values: seq<real>): real
    requires values != []
  {
    SortLength(values);
    var ordered := Sort(values);
    var mid := |ordered| / 2;
    if |ordered| % 2 == 1 then ordered[mid] else (ordered[mid - 1] + ordered[mid]) / 2.0
  }

  // ------------------------------------------------------------------- reduce

  function Total(cs: seq<Contribution>): int {
    if cs == [] then 0 else Total(cs[..|cs| - 1]) + cs[|cs| - 1].samples
  }

  /** The guards, in the order they are checked. */
  function Validate(cs: seq<Contribution>, factor: real): Option<WeightError>
    requires forall c :: c in cs ==> IsDict(c.delta)
  {
    if factor <= 0.0 then Some(BadClipFactor)
    else if cs == [] then Some(NoContributions)
    else if Total(cs) < 0 then Some(NegativeTotal)
    else if Total(cs) == 0 then Some(ZeroTotal)
    else match First(cs, (c: Contribution) => c.samples <= 0)
      case Some(i) => Some(NonPositiveCount(i))
      case None => if forall c :: c in cs ==> SameParams(cs[0].delta, c.delta) then None else Some(ShapeMismatch)
  }

  function Norms(sqrt: real -> real, cs: seq<Contribution>): (norms: seq<real>)
    ensures |norms| == |cs| && forall i :: 0 <= i < |cs| ==> norms[i] == L2Norm(sqrt, cs[i].delta)
  {
    seq(|cs|, i requires 0 <= i < |cs| => L2Norm(sqrt, cs[i].delta))
  }

  function Cap(sqrt: real -> real, cs: seq<Contribution>, factor: real): real
    requires cs != []
  {
    Median(Norms(sqrt, cs)) * factor
  }

  /** One contribution after the cap. A cap is never negative, so a norm above it is
      positive; for other caps the second test keeps the quotient defined. */
  function ClipOne(sqrt: real -> real, c: Contribution, cap: real): Contribution {
    var norm := L2Norm(sqrt, c.delta);
    if norm > cap && norm != 0.0 then c.(delta := ScaleBlob(c.delta, cap / norm)) else c
  }

  function Clipped(sqrt: real -> real, cs: seq<Contribution>, cap: real): (r: seq<Contribution>)
    ensures |r| == |cs| && forall i :: 0 <= i < |cs| ==> r[i] == ClipOne(sqrt, cs[i], cap)
  {
    seq(|cs|, i requires 0 <= i < |cs| => ClipOne(sqrt, cs[i], cap))
  }

  function ClipEvents(sqrt: real -> real, cs: seq<Contribution>, cap: real): seq<ClipEvent> {
    if cs == [] then []
    else
      var i := |cs| - 1;
      var norm := L2Norm(sqrt, cs[i].delta);
      ClipEvents(sqrt, cs[..i], cap)
      + if norm > cap && norm != 0.0 then [ClipEvent(i, norm, cap, cap / norm)] else []
  }

  /** Entry `i` of parameter `n`. */
  function At(b: Blob, n: string, i: nat): real {
    if n in b.params && i < |b.params[n].data| then b.params[n].data[i] else 0.0
  }

  function Column(cs: seq<Contribution>, n: string, i: nat): (v: seq<real>)
    ensures |v| == |cs| && forall k :: 0 <= k < |cs| ==> v[k] == At(cs[k].delta, n, i)
  {
    seq(|cs|, k requires 0 <= k < |cs| => At(cs[k].delta, n, i))
  }

  function Shares(cs: seq<Contribution>, total: int): (w: seq<real>)
    requires total != 0
    ensures |w| == |cs| && forall k :: 0 <= k < |cs| ==> w[k] == cs[k].samples as real / total as real
  {
    seq(|cs|, k requires 0 <= k < |cs| => cs[k].samples as real / total as real)
  }

  /** One coordinate of the sample-weighted mean. */
  function Coordinate(cs: seq<Contribution>, total: int, n: string, i: nat): real
    requires total != 0
  {
    Mix(Shares(cs, total), Column(cs, n, i))
  }

  function MeanParam(cs: seq<Contribution>, total: int, n: string, p: Param): (q: Param)
    requires total != 0
    ensures q.shape == p.shape && |q.data| == |p.data|
    ensures forall i :: 0 <= i < |p.data| ==> q.data[i] == Coordinate(cs, total, n, i)
  {
    Param(p.shape, seq(|p.data|, i requires 0 <= i < |p.data| => Coordinate(cs, total, n, i)))
  }

  /** The sample-weighted mean, in the first contribution's layout. */
  function Mean(cs: seq<Contribution>, total: int): Blob
    requires cs != [] && total != 0
  {
    var first := cs[0].delta;
    Blob(first.names, map n | n in first.params :: MeanParam(cs, total, n, first.params[n]))
  }

  function Reduce(sqrt: real -> real, cs: seq<Contribution>, factor: real): Result<(Blob, seq<ClipEvent>), WeightError>
    requires forall c :: c in cs ==> IsDict(c.delta)
  {
    match Validate(cs, factor)
    case Some(e) => Failure(e)
    case None =>
      var cap := Cap(sqrt, cs, factor);
      Success((Mean(Clipped(sqrt, cs, cap), Total(cs)), ClipEvents(sqrt, cs, cap)))
  }
}
