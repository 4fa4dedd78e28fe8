/** The reduce as nested loops, proved to compute `FedAvgSpec.Reduce`. */
module FedAvgReduce {
  import opened Prelude
  import opened FedAvgSpec
  import opened FedAvgRobust

  method TotalSamples(cs: seq<Contribution>) returns (total: int)
    ensures total == Total(cs)
  {
    total := 0;
    for i := 0 to |cs|
      invariant total == Total(cs[..i])
    {
      assert cs[..i + 1][..i] == cs[..i];
      total := total + cs[i].samples;
    }
    assert cs[..|cs|] == cs;
  }

  /** Every guard, in the order errors are reported. */
  method Check(cs: seq<Contribution>, factor: real) returns (e: Option<WeightError>, total: int)
    requires forall c :: c in cs ==> IsDict(c.delta)
    ensures e == Validate(cs, factor)
    ensures total == Total(cs)
  {
    hide IsDict, SameParams;
    total := TotalSamples(cs);
    if factor <= 0.0 { return Some(BadClipFactor), total; }
    if cs == [] { return Some(NoContributions), total; }
    if total < 0 { return Some(NegativeTotal), total; }
    if total == 0 { return Some(ZeroTotal), total; }
    ghost var p := (c: Contribution) => c.samples <= 0;
    for i := 0 to |cs|
      invariant forall j :: 0 <= j < i ==> !p(cs[j])
    {
      if cs[i].samples <= 0 {
        FirstIs(cs, p, i);
        return Some(NonPositiveCount(i)), total;
      }
    }
    var first := cs[0].delta;
    assert cs[0] in cs;
    for i := 0 to |cs|
      invariant forall j :: 0 <= j < i ==> SameParams(first, cs[j].delta)
    {
      assert cs[i] in cs;
      if !SameParams(first, cs[i].delta) {
        return Some(ShapeMismatch), total;
      }
    }
    return None, total;
  }

  method ClipAll(sqrt: real -> real, cs: seq<Contribution>, cap: real)
    returns (clipped: seq<Contribution>, events: seq<ClipEvent>)
    ensures clipped == Clipped(sqrt, cs, cap)
    ensures events == ClipEvents(sqrt, cs, cap)
  {
    clipped, events := cs, [];
    for i := 0 to |cs|
      invariant |clipped| == |cs|
      invariant forall j :: 0 <= j < i ==> clipped[j] == ClipOne(sqrt, cs[j], cap)
      invariant forall j :: i <= j < |cs| ==> clipped[j] == cs[j]
      invariant events == ClipEvents(sqrt, cs[..i], cap)
    {
      assert cs[..i + 1][..i] == cs[..i];
      var norm := L2Norm(sqrt, cs[i].delta);
      if norm > cap && norm != 0.0 {
        var scale := cap / norm;
        clipped := clipped[i := Contribution(ScaleBlob(cs[i].delta, scale), cs[i].samples)];
        events := events + [ClipEvent(i, norm, cap, scale)];
      }
    }
    assert cs[..|cs|] == cs;
  }

  /** The innermost loop: one contribution's share added into the accumulator. */
  method Accumulate(acc: seq<real>, data: seq<real>, w: real) returns (r: seq<real>)
    requires |data| == |acc|
    ensures |r| == |acc| && forall i :: 0 <= i < |acc| ==> r[i] == acc[i] + w * data[i]
  {
    r := acc;
    for i := 0 to |data|
      invariant |r| == |acc|
      invariant forall j :: 0 <= j < i ==> r[j] == acc[j] + w * data[j]
      invariant forall j :: i <= j < |acc| ==> r[j] == acc[j]
    {
      r := r[i := r[i] + w * data[i]];
    }
  }

  lemma CoordinateStep(cs: seq<Contribution>, total: int, n: string, i: nat, k: nat)
    requires total != 0 && k < |cs|
    ensures Coordinate(cs[..k + 1], total, n, i)
         == Coordinate(cs[..k], total, n, i) + (cs[k].samples as real / total as real) * At(cs[k].delta, n, i)
  {
    hide At;
    var w, v := Shares(cs[..k + 1], total), Column(cs[..k + 1], n, i);
    assert w[..k] == Shares(cs[..k], total);
    assert v[..k] == Column(cs[..k], n, i);
  }

  method MeanOf(cs: seq<Contribution>, total: int, n: string) returns (p: Param)
    requires SameLayout(cs) && total != 0 && n in cs[0].delta.params
    ensures p == MeanParam(cs, total, n, cs[0].delta.params[n])
  {
    hide Coordinate;
    var first := cs[0].delta.params[n];
    var acc := seq(|first.data|, i requires 0 <= i < |first.data| => 0.0);
    forall i | 0 <= i < |acc| ensures acc[i] == Coordinate(cs[..0], total, n, i) {
      EmptyCoordinate(total, n, i);
      assert cs[..0] == [];
    }
    for k := 0 to |cs|
      invariant |acc| == |first.data|
      invariant forall i :: 0 <= i < |acc| ==> acc[i] == Coordinate(cs[..k], total, n, i)
    {
      assert SameParams(cs[0].delta, cs[k].delta);
      var data := cs[k].delta.params[n].data;
      var w := cs[k].samples as real / total as real;
      forall i | 0 <= i < |acc| ensures Coordinate(cs[..k + 1], total, n, i) == acc[i] + w * data[i] {
        CoordinateStep(cs, total, n, i, k);
      }
      acc := Accumulate(acc, data, w);
    }
    assert cs[..|cs|] == cs;
    p := Param(first.shape, acc);
  }

  lemma EmptyCoordinate(total: int, n: string, i: nat)
    requires total != 0
    ensures Coordinate([], total, n, i) == 0.0
  {
  }

  method ReduceDeltasWithReport(sqrt: real -> real, cs: seq<Contribution>, factor: real)
    returns (r: Result<(Blob, seq<ClipEvent>), WeightError>)
    requires forall c :: c in cs ==> IsDict(c.delta)
    ensures r == Reduce(sqrt, cs, factor)
  {
    hide IsDict, SameParams, MeanParam, L2Norm, ClipOne;
    var e, total := Check(cs, factor);
    if e.Some? {
      return Failure(e.value);
    }
    ValidMeans(cs, factor);
    var cap := Median(Norms(sqrt, cs)) * factor;
    var clipped, events := ClipAll(sqrt, cs, cap);
    ClippingKeepsLayout(sqrt, cs, cap);
    var first := clipped[0].delta;
    DictOf(first);
    var names: seq<string>, params: map<string, Param> := [], map[];
    for k := 0 to |first.names|
      invariant names == first.names[..k]
      invariant forall n :: n in params <==> n in names
      invariant forall n :: n in params ==> n in first.params && params[n] == MeanParam(clipped, total, n, first.params[n])
    {
      var n := first.names[k];
      var p := MeanOf(clipped, total, n);
      names := names + [n];
      params := params[n := p];
    }
    assert names == first.names;
    var out := Blob(names, params);
    assert out.params == Mean(clipped, total).params;
    return Success((out, events));
  }

  lemma DictOf(b: Blob)
    requires IsDict(b)
    ensures forall n :: n in b.names <==> n in b.params
  {
  }
}
