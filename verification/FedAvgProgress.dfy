/** When a federated round goes through: which contributions are accepted, what is then
    saved, and where a restart takes up again. */
module FedAvgProgress {
  import opened FedAvgAlgebra
  import opened FedAvgRobust
  import opened FedAvgRounds
  import opened FedAvgSpec
  import opened Names
  import opened Prelude

  // ---------------------------------------------------- what is accepted

  /** A shape calls for as many numbers as its sides multiply to, one for no sides. */
  lemma ShapesMultiply(a: int, b: int, c: int)
    ensures Product([]) == 1 && Product([a]) == a && Product([a, b]) == a * b && Product([a, b, c]) == a * b * c
  {
    assert [a][..0] == [] && [a, b][..1] == [a] && [a, b, c][..2] == [a, b];
    assert Product([a]) == Product([]) * a;
    assert Product([a, b]) == Product([a]) * b;
    assert Product([a, b, c]) == Product([a, b]) * c;
  }

  /** At least one contribution, each with samples, all of one layout. */
  ghost predicate Acceptable(cs: seq<Contribution>)
    requires AllDicts(cs)
  {
    && |cs| > 0
    && (forall k :: 0 <= k < |cs| ==> cs[k].samples > 0)
    && (forall k :: 0 <= k < |cs| ==> SameAs(cs, k))
  }

  ghost predicate SameAs(cs: seq<Contribution>, k: nat)
    requires AllDicts(cs)
  {
    k < |cs| && (assert cs[k] in cs; assert cs[0] in cs; SameParams(cs[0].delta, cs[k].delta))
  }

  lemma {:induction false} TotalIsPositive(cs: seq<Contribution>)
    requires forall k :: 0 <= k < |cs| ==> cs[k].samples > 0
    ensures Total(cs) >= |cs|
  {
    if cs != [] { TotalIsPositive(cs[..|cs| - 1]); }
  }

  /** A reduce goes through exactly for a positive clip factor and acceptable
      contributions. */
  lemma ReducesWhen(sqrt: real -> real, cs: seq<Contribution>, factor: real)
    requires AllDicts(cs)
    ensures Reduce(sqrt, cs, factor).Success? <==> factor > 0.0 && Acceptable(cs)
  {
    hide SameParams, IsDict, Cap, Mean, ClipEvents;
    var p := (c: Contribution) => c.samples <= 0;
    if factor > 0.0 && Acceptable(cs) {
      TotalIsPositive(cs);
      hide Total;
      assert First(cs, p).None?;
      forall c | c in cs ensures SameParams(cs[0].delta, c.delta) {
        var k :| 0 <= k < |cs| && cs[k] == c;
        assert SameAs(cs, k);
      }
    }
    if Reduce(sqrt, cs, factor).Success? {
      hide Total;
      forall k | 0 <= k < |cs| ensures cs[k].samples > 0 && SameAs(cs, k) {
        assert !p(cs[k]) && cs[k] in cs;
      }
    }
  }

  /** Which refusal it is, in the order they are looked for. */
  lemma RefusalMeans(cs: seq<Contribution>, factor: real)
    requires AllDicts(cs)
    ensures Validate(cs, factor) == Some(BadClipFactor) <==> factor <= 0.0
    ensures Validate(cs, factor) == Some(NoContributions) <==> factor > 0.0 && |cs| == 0
    ensures Validate(cs, factor) == Some(NegativeTotal) <==> factor > 0.0 && |cs| > 0 && Total(cs) < 0
    ensures Validate(cs, factor) == Some(ZeroTotal) <==> factor > 0.0 && |cs| > 0 && Total(cs) == 0
    ensures forall i: nat :: Validate(cs, factor) == Some(NonPositiveCount(i)) <==>
              factor > 0.0 && Total(cs) > 0 && FirstWithoutSamples(cs, i)
    ensures Validate(cs, factor) == Some(ShapeMismatch) <==>
              && factor > 0.0 && Total(cs) > 0 && (forall k :: 0 <= k < |cs| ==> cs[k].samples > 0)
              && (exists k :: 0 <= k < |cs| && !SameAs(cs, k))
  {
    hide SameParams, IsDict, Total;
    NoTotal();
    var p := (c: Contribution) => c.samples <= 0;
    forall i: nat | FirstWithoutSamples(cs, i) ensures First(cs, p) == Some(i) {
      FirstIs(cs, p, i);
    }
    if forall k :: 0 <= k < |cs| ==> cs[k].samples > 0 { assert First(cs, p).None?; }
    if cs != [] {
      if k :| 0 <= k < |cs| && !SameAs(cs, k) {
        assert cs[k] in cs;
      }
      if c :| c in cs && !SameParams(cs[0].delta, c.delta) {
        var k :| 0 <= k < |cs| && cs[k] == c;
        assert !SameAs(cs, k);
      }
    }
  }

  lemma NoTotal()
    ensures Total([]) == 0
  {
  }

  ghost predicate FirstWithoutSamples(cs: seq<Contribution>, i: nat) {
    i < |cs| && cs[i].samples <= 0 && forall j :: 0 <= j < i ==> cs[j].samples > 0
  }

  // ------------------------------------------------------- clipping, by three

  /** With the driver's clip factor nobody within three times the median norm is touched
      or reported, and anybody further out is both. */
  lemma OutliersAreBeyondThreeMedians(cfg: Config, cs: seq<Contribution>, i: nat)
    requires IsSqrt(cfg.sqrt) && i < |cs|
    ensures var norm, cap := L2Norm(cfg.sqrt, cs[i].delta), Median(Norms(cfg.sqrt, cs)) * 3.0;
            && (norm <= cap ==> ClipOne(cfg.sqrt, cs[i], Cap(cfg.sqrt, cs, CLIP_FACTOR)) == cs[i]
                                && forall e :: e in ClipEvents(cfg.sqrt, cs, Cap(cfg.sqrt, cs, CLIP_FACTOR)) ==> e.index != i)
            && (norm > cap ==> norm != 0.0
                                && ClipOne(cfg.sqrt, cs[i], Cap(cfg.sqrt, cs, CLIP_FACTOR)) == Contribution(ScaleBlob(cs[i].delta, cap / norm), cs[i].samples)
                                && ClipEvent(i, norm, cap, cap / norm) in ClipEvents(cfg.sqrt, cs, Cap(cfg.sqrt, cs, CLIP_FACTOR)))
  {
    hide Median, Norms, L2Norm, ScaleBlob, ClipEvents;
    var cap := Cap(cfg.sqrt, cs, CLIP_FACTOR);
    CapNotNegative(cfg.sqrt, cs, CLIP_FACTOR);
    EventsAreTheClipped(cfg.sqrt, cs, cap);
  }

  // ------------------------------------------------ one collection, spelled out

  /** The contributions of a round can be added to these weights. */
  ghost predicate FitsOnto(weights: Blob, reduced: Blob)
    requires IsDict(weights) && IsDict(reduced)
  {
    |weights.names| == 0 || SameParams(weights, reduced)
  }

  /** What the round saves: with no weights yet the reduction itself, else each entry of
      the weights plus the reduction's. */
  ghost predicate IsNextWeights(weights: Blob, reduced: Blob, next: Blob) {
    if |weights.names| == 0 then next == reduced
    else
      && next.names == weights.names && next.params.Keys == weights.params.Keys == reduced.params.Keys
      && forall n :: n in weights.params ==>
           && next.params[n].shape == weights.params[n].shape
           && |next.params[n].data| == |weights.params[n].data| == |reduced.params[n].data|
           && forall i :: 0 <= i < |weights.params[n].data| ==>
                next.params[n].data[i] == weights.params[n].data[i] + reduced.params[n].data[i]
  }

  lemma AppliedIsSum(weights: Blob, reduced: Blob)
    requires IsDict(weights) && IsDict(reduced)
    ensures ApplyDelta(weights, reduced).Success? <==> SameParams(weights, reduced)
    ensures ApplyDelta(weights, reduced).Success? && |weights.names| > 0 ==> IsNextWeights(weights, reduced, ApplyDelta(weights, reduced).value)
  {
  }

  /** The new weights of a round exist exactly when its contributions reduce, by clip
      factor three, to something that fits onto the old ones. */
  lemma AggregatesWhen(cfg: Config, weights: Blob, fetched: seq<Contribution>)
    requires IsDict(weights) && AllDicts(fetched)
    ensures var reduced := Reduce(cfg.sqrt, fetched, 3.0);
            && (reduced.Success? ==> IsDict(reduced.value.0))
            && (Aggregated(cfg, weights, fetched).Success? <==> reduced.Success? && FitsOnto(weights, reduced.value.0))
            && (Aggregated(cfg, weights, fetched).Success? ==>
                  && IsNextWeights(weights, reduced.value.0, Aggregated(cfg, weights, fetched).value.0)
                  && Aggregated(cfg, weights, fetched).value.1 == reduced.value.1)
  {
    ReducedIsDict(cfg.sqrt, fetched, 3.0);
    var reduced := Reduce(cfg.sqrt, fetched, 3.0);
    if reduced.Success? { AppliedIsSum(weights, reduced.value.0); }
    hide Reduce, IsDict, AllDicts, SameParams, IsNextWeights, ApplyDelta;
    if reduced.Success? && weights.names == [] { FromNothing(weights, reduced.value.0); }
  }

  lemma FromNothing(weights: Blob, reduced: Blob)
    requires |weights.names| == 0
    ensures IsNextWeights(weights, reduced, reduced)
  {
  }

  // ------------------------------------------------------ rounds of one layout

  /** Every contribution is laid out as `layout`. */
  ghost predicate LaidOut(layout: Blob, cs: seq<Contribution>)
    requires IsDict(layout) && AllDicts(cs)
  {
    forall c :: c in cs ==> SameParams(layout, c.delta)
  }

  lemma LayoutsAgree(a: Blob, b: Blob, c: Blob)
    requires IsDict(a) && IsDict(b) && IsDict(c) && SameParams(a, b) && SameParams(a, c)
    ensures SameParams(b, c) && SameParams(b, a)
  {
  }

  lemma ReductionKeepsLayout(sqrt: real -> real, cs: seq<Contribution>, factor: real)
    requires AllDicts(cs) && Reduce(sqrt, cs, factor).Success?
    ensures |cs| > 0 && IsDict(cs[0].delta) && IsDict(Reduce(sqrt, cs, factor).value.0)
    ensures SameParams(cs[0].delta, Reduce(sqrt, cs, factor).value.0)
  {
    ReducedIsDict(sqrt, cs, factor);
    ValidMeans(cs, factor);
    var cap := Cap(sqrt, cs, factor);
    assert cs[0] in cs;
    ClipKeepsLayout(sqrt, cs[0].delta, cs[0], cap);
    hide ClipEvents, Total, Cap, L2Norm, Coordinate;
    MeanKeepsLayout(Clipped(sqrt, cs, cap), Total(cs));
    LayoutsAgree(Clipped(sqrt, cs, cap)[0].delta, cs[0].delta, Reduce(sqrt, cs, factor).value.0);
  }

  lemma MeanKeepsLayout(cs: seq<Contribution>, total: int)
    requires cs != [] && total != 0 && IsDict(cs[0].delta) && SameParams(cs[0].delta, cs[0].delta)
    ensures IsDict(Mean(cs, total)) && SameParams(cs[0].delta, Mean(cs, total))
  {
    hide Coordinate;
    assert Mean(cs, total).params.Keys == cs[0].delta.params.Keys;
  }

  lemma GoodRoundGoesThrough(cfg: Config, layout: Blob, weights: Blob, cs: seq<Contribution>)
    requires IsDict(layout) && IsDict(weights) && AllDicts(cs) && LaidOut(layout, cs)
    requires |cs| > 0 && forall k :: 0 <= k < |cs| ==> cs[k].samples > 0
    requires |weights.names| == 0 || SameParams(layout, weights)
    ensures Aggregated(cfg, weights, cs).Success? && IsDict(Aggregated(cfg, weights, cs).value.0)
    ensures SameParams(layout, Aggregated(cfg, weights, cs).value.0)
  {
    forall k | 0 <= k < |cs| ensures SameAs(cs, k) {
      assert cs[k] in cs && cs[0] in cs;
      LayoutsAgree(layout, cs[0].delta, cs[k].delta);
    }
    assert cs[0] in cs;
    ReducesWhen(cfg.sqrt, cs, 3.0);
    ReductionKeepsLayout(cfg.sqrt, cs, 3.0);
    var reduced := Reduce(cfg.sqrt, cs, 3.0).value.0;
    LayoutsAgree(cs[0].delta, layout, layout) by { LayoutsAgree(layout, cs[0].delta, cs[0].delta); }
    LayoutsAgree(cs[0].delta, layout, reduced);
    AggregatesWhen(cfg, weights, cs);
    AggregatedIsDict(cfg, weights, cs);
    if |weights.names| > 0 {
      LayoutsAgree(layout, weights, reduced);
      NextKeepsLayout(layout, weights, reduced, Aggregated(cfg, weights, cs).value.0);
    }
  }

  lemma NextKeepsLayout(layout: Blob, weights: Blob, reduced: Blob, next: Blob)
    requires IsDict(layout) && IsDict(weights) && IsDict(next) && SameParams(layout, weights)
    requires |weights.names| > 0 && IsNextWeights(weights, reduced, next)
    ensures SameParams(layout, next)
  {
  }

  // ------------------------------------------------------ where a restart resumes

  /** The pair's weights are saved, and those of no carried pair of a later round, or of the
      same round and a greater job id. */
  ghost predicate NewestSaved(saved: Saved, history: seq<(nat, string)>, p: (nat, string)) {
    && p in history && (p.1, p.0) in saved
    && forall q :: q in history && (q.1, q.0) in saved ==> q.0 < p.0 || (q.0 == p.0 && (q.1 == p.1 || StringLess(q.1, p.1)))
  }

  lemma NewestIsFound(saved: Saved, history: seq<(nat, string)>, sorted: seq<(nat, string)>, i: nat)
    requires Descending(sorted) && (forall q :: q in sorted <==> q in history) && First(sorted, HasWeights(saved)) == Some(i)
    ensures i < |sorted| && NewestSaved(saved, history, sorted[i])
  {
    hide StringLess;
    var probe := HasWeights(saved);
    forall q | q in history && (q.1, q.0) in saved ensures NotNewer(q, sorted[i]) {
      assert q in sorted;
      var j :| 0 <= j < |sorted| && sorted[j] == q;
      assert probe(sorted[j]);
    }
    assert sorted[i] in history;
  }

  lemma NothingIsFound(saved: Saved, history: seq<(nat, string)>, sorted: seq<(nat, string)>)
    requires (forall q :: q in sorted <==> q in history) && First(sorted, HasWeights(saved)) == None
    ensures forall p :: p in history ==> (p.1, p.0) !in saved
    ensures sorted != [] <==> history != []
    ensures (forall i :: 0 <= i < |sorted| ==> sorted[i].0 > 0) <==> forall p :: p in history ==> p.0 > 0
  {
    var probe := HasWeights(saved);
    forall p | p in history ensures (p.1, p.0) !in saved {
      assert p in sorted;
      var j :| 0 <= j < |sorted| && sorted[j] == p;
      assert !probe(sorted[j]);
    }
    if history != [] { assert history[0] in sorted; }
    if sorted != [] { assert sorted[0] in history; }
    forall i | 0 <= i < |sorted| ensures sorted[i] in history {
      assert sorted[i] in sorted;
    }
  }

  /** A restart takes up after the newest carried round whose weights are saved; it refuses
      if those are empty, refuses if nothing is saved and no carried round is round 0, and
      else starts afresh. */
  lemma ResumePointMeans(saved: Saved, history: seq<(nat, string)>)
    ensures match ResumePoint(saved, NewestFirst(history))
            case Success(Some((round, weights))) =>
              exists p :: NewestSaved(saved, history, p) && round == p.0 + 1 && weights == saved[(p.1, p.0)] && |weights.names| > 0
            case Failure(EmptyArtifact) =>
              exists p :: NewestSaved(saved, history, p) && |saved[(p.1, p.0)].names| == 0
            case Success(None) =>
              && (forall p :: p in history ==> (p.1, p.0) !in saved)
              && (|history| == 0 || exists p :: p in history && p.0 == 0)
            case Failure(HistoryStartsLate) =>
              && (forall p :: p in history ==> (p.1, p.0) !in saved)
              && |history| > 0 && (forall p :: p in history ==> p.0 > 0)
  {
    NewestFirstSorts(history);
    var sorted := NewestFirst(history);
    hide NewestFirst, Descending, NewestSaved, HasWeights;
    match First(sorted, HasWeights(saved))
    case Some(i) =>
      NewestIsFound(saved, history, sorted, i);
      NewestIsSaved(saved, history, sorted[i]);
    case None =>
      NothingIsFound(saved, history, sorted);
  }

  lemma NewestIsSaved(saved: Saved, history: seq<(nat, string)>, p: (nat, string))
    requires NewestSaved(saved, history, p)
    ensures (p.1, p.0) in saved
  {
  }
}
