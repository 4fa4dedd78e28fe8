/** Algebra of the reduce: convex hull, order, splitting, and the round trip between
    weights and deltas. */
module FedAvgAlgebra {
  import opened Prelude
  import opened Mixing
  import opened Permutations
  import opened FedAvgSpec
  import opened FedAvgRobust

  // ---------------------------------------------------------- the round trip

  /** The change from `base` to `next`, applied to `base`, is `next`, in whichever order
      the two list their parameters; the result lists them in the order of `base`. */
  lemma ApplyUndoesSubtract(base: Blob, next: Blob)
    requires IsDict(base) && IsDict(next) && SameParams(next, base)
    ensures Subtract(next, base).Success? && ApplyDelta(base, Subtract(next, base).value).Success?
    ensures ApplyDelta(base, Subtract(next, base).value).value.params == next.params
    ensures ApplyDelta(base, Subtract(next, base).value).value.names == base.names
  {
    var delta := Subtract(next, base).value;
    assert delta.params.Keys == next.params.Keys;
    assert SameParams(base, delta);
    var r := ApplyDelta(base, delta).value;
    hide IsDict;
    forall n | n in next.params ensures n in r.params && r.params[n] == next.params[n] {
      assert r.params[n].data == next.params[n].data;
    }
    assert r.params.Keys == next.params.Keys;
  }

  // ------------------------------------------------------------- convex hull

  /** Every coordinate of the reduced delta lies between the least and the greatest of
      the clipped contributions' coordinates. */
  lemma CoordinateInHull(sqrt: real -> real, cs: seq<Contribution>, factor: real, n: string, i: nat, lo: real, hi: real)
    requires forall c :: c in cs ==> IsDict(c.delta)
    requires Validate(cs, factor).None?
    requires n in cs[0].delta.params && i < |cs[0].delta.params[n].data|
    requires forall k :: 0 <= k < |cs| ==>
      lo <= At(ClipOne(sqrt, cs[k], Cap(sqrt, cs, factor)).delta, n, i) <= hi
    ensures lo <= At(Reduce(sqrt, cs, factor).value.0, n, i) <= hi
  {
    hide SameLayout, ClipOne, IsDict, Median, Mix, Weights;
    ValidMeans(cs, factor);
    var cap, total := Cap(sqrt, cs, factor), Total(cs);
    var cl := Clipped(sqrt, cs, cap);
    ClippingKeepsTotal(sqrt, cs, cap);
    ClippingKeepsLayout(sqrt, cs, cap);
    SharesAreWeights(cl, total);
    ReducedAt(sqrt, cs, factor, n, i);
    InHull(Shares(cl, total), Column(cl, n, i), lo, hi);
  }

  lemma InHull(w: seq<real>, v: seq<real>, lo: real, hi: real)
    requires Weights(w) && |w| == |v| && forall k :: 0 <= k < |v| ==> lo <= v[k] <= hi
    ensures lo <= Mix(w, v) <= hi
  {
    MixBetween(w, v, lo, hi);
  }

  /** What the reduced delta holds at each place. */
  lemma ReducedAt(sqrt: real -> real, cs: seq<Contribution>, factor: real, n: string, i: nat)
    requires forall c :: c in cs ==> IsDict(c.delta)
    requires Validate(cs, factor).None?
    requires n in cs[0].delta.params && i < |cs[0].delta.params[n].data|
    ensures Total(cs) != 0
    ensures At(Reduce(sqrt, cs, factor).value.0, n, i)
         == Coordinate(Clipped(sqrt, cs, Cap(sqrt, cs, factor)), Total(cs), n, i)
  {
    hide IsDict, SameParams, Median, Coordinate, L2Norm, Total;
    ValidMeans(cs, factor);
    var cl := Clipped(sqrt, cs, Cap(sqrt, cs, factor));
    var p, q := cs[0].delta, cl[0].delta;
    assert n in q.params && |q.params[n].data| == |p.params[n].data|;
  }

  // ------------------------------------------------------------------- order

  lemma LastIsGreatest(a: seq<real>, b: seq<real>)
    requires Ordered(a) && multiset(a) == multiset(b) && a != [] && |b| == |a|
    ensures b[|b| - 1] <= a[|a| - 1]
  {
    assert b[|b| - 1] in multiset(a);
  }

  lemma WithoutLast(a: seq<real>, b: seq<real>)
    requires multiset(a) == multiset(b) && a != [] && |b| == |a| && a[|a| - 1] == b[|b| - 1]
    ensures multiset(a[..|a| - 1]) == multiset(b[..|b| - 1])
  {
    var n := |a| - 1;
    assert a == a[..n] + [a[n]] && b == b[..n] + [b[n]];
    Cancel(multiset(a[..n]), multiset(b[..n]), a[n]);
  }

  lemma {:induction false} SortedIsUnique(a: seq<real>, b: seq<real>)
    requires Ordered(a) && Ordered(b) && multiset(a) == multiset(b)
    ensures a == b
  {
    assert |multiset(a)| == |a| && |multiset(b)| == |b|;
    if a != [] {
      var n := |a| - 1;
      LastIsGreatest(a, b);
      LastIsGreatest(b, a);
      WithoutLast(a, b);
      assert Ordered(a[..n]) && Ordered(b[..n]);
      SortedIsUnique(a[..n], b[..n]);
      hide Ordered;
      assert a == a[..n] + [a[n]] && b == b[..n] + [b[n]];
    }
  }

  lemma SameLength<T>(a: seq<T>, b: seq<T>)
    requires multiset(a) == multiset(b)
    ensures |a| == |b|
  {
    assert |multiset(a)| == |a| && |multiset(b)| == |b|;
  }

  lemma SortsAlike(a: seq<real>, b: seq<real>)
    requires multiset(a) == multiset(b)
    ensures Sort(a) == Sort(b)
  {
    hide *;
    SortIsOrdered(a);
    SortIsOrdered(b);
    SortedIsUnique(Sort(a), Sort(b));
  }

  lemma MedianReordered(a: seq<real>, b: seq<real>)
    requires a != [] && multiset(a) == multiset(b)
    ensures b != [] && Median(a) == Median(b)
  {
    hide Sort;
    SameLength(a, b);
    SortsAlike(a, b);
  }

  lemma CapReordered(sqrt: real -> real, cs: seq<Contribution>, ds: seq<Contribution>, perm: seq<nat>, factor: real)
    requires Permutes(perm, cs, ds) && cs != []
    ensures Cap(sqrt, cs, factor) == Cap(sqrt, ds, factor)
  {
    hide Median;
    PermutedMultiset(Norms(sqrt, cs), perm);
    assert Norms(sqrt, ds) == Pull(Norms(sqrt, cs), perm);
    MedianReordered(Norms(sqrt, cs), Norms(sqrt, ds));
  }

  lemma MixReordered(w: seq<real>, v: seq<real>, w': seq<real>, v': seq<real>, perm: seq<nat>)
    requires |w| == |v| == |w'| == |v'|
    requires Permutes(perm, w, w') && Permutes(perm, v, v')
    ensures Mix(w, v) == Mix(w', v')
  {
    hide Mix, Times;
    MixIsSum(w, v);
    MixIsSum(w', v');
    PermutedMultiset(Terms(w, v), perm);
    assert Terms(w', v') == Pull(Terms(w, v), perm);
    SumReordered(Terms(w, v), Terms(w', v'));
  }

  /** Reordering the contributions reorders the clip decisions with them and changes
      no coordinate of the result. */
  lemma OrderDoesNotMatter(sqrt: real -> real, cs: seq<Contribution>, ds: seq<Contribution>, perm: seq<nat>,
                           factor: real, total: int, n: string, i: nat)
    requires Permutes(perm, cs, ds) && cs != [] && total != 0
    ensures var cap, cap' := Cap(sqrt, cs, factor), Cap(sqrt, ds, factor);
            && cap == cap'
            && (forall k :: 0 <= k < |ds| ==> Clipped(sqrt, ds, cap')[k] == Clipped(sqrt, cs, cap)[perm[k]])
            && Coordinate(Clipped(sqrt, ds, cap'), total, n, i) == Coordinate(Clipped(sqrt, cs, cap), total, n, i)
  {
    hide Cap, ClipOne, Mix;
    CapReordered(sqrt, cs, ds, perm, factor);
    var cap := Cap(sqrt, cs, factor);
    var a, b := Clipped(sqrt, cs, cap), Clipped(sqrt, ds, cap);
    MixReordered(Shares(a, total), Column(a, n, i), Shares(b, total), Column(b, n, i), perm);
  }

  /** What the report says of contribution `i`. */
  function EventFor(sqrt: real -> real, cs: seq<Contribution>, cap: real, i: nat): ClipEvent
    requires i < |cs| && L2Norm(sqrt, cs[i].delta) != 0.0
  {
    ClipEvent(i, L2Norm(sqrt, cs[i].delta), cap, cap / L2Norm(sqrt, cs[i].delta))
  }

  predicate Clips(sqrt: real -> real, cs: seq<Contribution>, cap: real, i: nat) {
    i < |cs| && L2Norm(sqrt, cs[i].delta) > cap
  }

  /** Positions strictly increase, so none is reported twice. */
  ghost predicate InOrder(events: seq<ClipEvent>) {
    forall a, b :: 0 <= a < b < |events| ==> events[a].index < events[b].index
  }

  /** The report holds exactly one event for each contribution longer than the cap and
      none for any other, in the order of the contributions, with the norm, the cap and
      the scale its delta was multiplied by. */
  lemma {:induction false} EventsAreTheClipped(sqrt: real -> real, cs: seq<Contribution>, cap: real)
    requires cap >= 0.0
    ensures InOrder(ClipEvents(sqrt, cs, cap))
    ensures forall e :: e in ClipEvents(sqrt, cs, cap) <==> Clips(sqrt, cs, cap, e.index) && e == EventFor(sqrt, cs, cap, e.index)
    ensures forall i :: 0 <= i < |cs| && Clips(sqrt, cs, cap, i) ==>
              EventFor(sqrt, cs, cap, i) in ClipEvents(sqrt, cs, cap)
              && ClipOne(sqrt, cs[i], cap).delta == ScaleBlob(cs[i].delta, EventFor(sqrt, cs, cap, i).scale)
  {
    hide L2Norm, ScaleBlob;
    if cs != [] {
      var m := |cs| - 1;
      EventsAreTheClipped(sqrt, cs[..m], cap);
      var rest, all := ClipEvents(sqrt, cs[..m], cap), ClipEvents(sqrt, cs, cap);
      assert forall i :: 0 <= i < m ==> cs[..m][i] == cs[i];
      if Clips(sqrt, cs, cap, m) {
        assert all == rest + [EventFor(sqrt, cs, cap, m)];
      } else {
        assert all == rest;
      }
    }
  }

  // --------------------------------------------------------------- splitting

  lemma {:induction false} TotalConcat(a: seq<Contribution>, b: seq<Contribution>)
    ensures Total(a + b) == Total(a) + Total(b)
  {
    if b == [] {
      assert a + b == a;
    } else {
      assert (a + b)[..|a + b| - 1] == a + b[..|b| - 1];
      TotalConcat(a, b[..|b| - 1]);
    }
  }

  /** The weighted sum before division. */
  function Weighted(cs: seq<Contribution>, n: string, i: nat): real {
    if cs == [] then 0.0
    else
      var c := cs[|cs| - 1];
      Weighted(cs[..|cs| - 1], n, i) + Times(c.samples as real, At(c.delta, n, i))
  }

  lemma {:induction false} WeightedConcat(a: seq<Contribution>, b: seq<Contribution>, n: string, i: nat)
    ensures Weighted(a + b, n, i) == Weighted(a, n, i) + Weighted(b, n, i)
  {
    hide At;
    if b == [] {
      assert a + b == a;
    } else {
      assert (a + b)[..|a + b| - 1] == a + b[..|b| - 1];
      WeightedConcat(a, b[..|b| - 1], n, i);
    }
  }

  lemma DivideTerm(x: real, s: real, v: real, t: real)
    requires t != 0.0
    ensures x / t + Times(s / t, v) == (x + Times(s, v)) / t
  {
    assert (s / t) * v == (s * v) / t;
  }

  lemma {:induction false} CoordinateIsQuotient(cs: seq<Contribution>, total: int, n: string, i: nat)
    requires total != 0
    ensures Coordinate(cs, total, n, i) == Weighted(cs, n, i) / total as real
  {
    hide At;
    if cs != [] {
      var m := |cs| - 1;
      MixStep(Shares(cs, total), Column(cs, n, i));
      hide Times, Mix;
      CoordinateIsQuotient(cs[..m], total, n, i);
      assert Shares(cs, total)[..m] == Shares(cs[..m], total);
      assert Column(cs, n, i)[..m] == Column(cs[..m], n, i);
      DivideTerm(Weighted(cs[..m], n, i), cs[m].samples as real, At(cs[m].delta, n, i), total as real);
    }
  }

  lemma Recombine(x: real, y: real, a: real, b: real)
    requires a > 0.0 && b > 0.0
    ensures (x + y) / (a + b) == (a * (x / a) + b * (y / b)) / (a + b)
  {
    assert a * (x / a) == x && b * (y / b) == y;
  }

  /** Two means combined by how many samples each stands for. */
  function Blend(s: int, x: real, t: int, y: real): real
    requires s > 0 && t > 0
  {
    (s as real * x + t as real * y) / (s as real + t as real)
  }

  /** When nothing is clipped, reducing two groups together is the total-weighted
      combination of reducing them apart. */
  lemma ConcatenationCombines(a: seq<Contribution>, b: seq<Contribution>, n: string, i: nat)
    requires Total(a) > 0 && Total(b) > 0
    ensures Total(a + b) == Total(a) + Total(b)
    ensures Coordinate(a + b, Total(a + b), n, i) == Blend(Total(a), Coordinate(a, Total(a), n, i), Total(b), Coordinate(b, Total(b), n, i))
  {
    hide Coordinate, Weighted;
    TotalConcat(a, b);
    WeightedConcat(a, b, n, i);
    CoordinateIsQuotient(a + b, Total(a + b), n, i);
    CoordinateIsQuotient(a, Total(a), n, i);
    CoordinateIsQuotient(b, Total(b), n, i);
    Recombine(Weighted(a, n, i), Weighted(b, n, i), Total(a) as real, Total(b) as real);
  }

  /** A round in which nobody exceeds the cap is the plain sample-weighted mean. */
  lemma HonestRoundIsUntouched(sqrt: real -> real, cs: seq<Contribution>, factor: real)
    requires IsSqrt(sqrt) && forall c :: c in cs ==> IsDict(c.delta)
    requires Validate(cs, factor).None?
    requires forall k :: 0 <= k < |cs| ==> L2Norm(sqrt, cs[k].delta) <= Cap(sqrt, cs, factor)
    ensures Total(cs) != 0
    ensures Reduce(sqrt, cs, factor) == Success((Mean(cs, Total(cs)), []))
  {
    hide IsDict, SameParams, Cap, L2Norm, ScaleBlob, Mean, Total;
    ValidMeans(cs, factor);
    var cap := Cap(sqrt, cs, factor);
    assert Clipped(sqrt, cs, cap) == cs;
    NoEvents(sqrt, cs, cap);
  }

  lemma {:induction false} NoEvents(sqrt: real -> real, cs: seq<Contribution>, cap: real)
    requires forall k :: 0 <= k < |cs| ==> L2Norm(sqrt, cs[k].delta) <= cap
    ensures ClipEvents(sqrt, cs, cap) == []
  {
    hide L2Norm;
    if cs != [] { NoEvents(sqrt, cs[..|cs| - 1], cap); }
  }

  // ------------------------------------------------------ the whole reduce

  function Samples(cs: seq<Contribution>): (s: seq<real>)
    ensures |s| == |cs| && forall k :: 0 <= k < |cs| ==> s[k] == cs[k].samples as real
  {
    seq(|cs|, k requires 0 <= k < |cs| => cs[k].samples as real)
  }

  lemma {:induction false} TotalIsSum(cs: seq<Contribution>)
    ensures Total(cs) as real == Sum(Samples(cs))
  {
    if cs != [] {
      TotalIsSum(cs[..|cs| - 1]);
      assert Samples(cs)[..|cs| - 1] == Samples(cs[..|cs| - 1]);
    }
  }

  lemma TotalReordered(cs: seq<Contribution>, ds: seq<Contribution>, perm: seq<nat>)
    requires Permutes(perm, cs, ds)
    ensures Total(ds) == Total(cs)
  {
    PermutedMultiset(Samples(cs), perm);
    assert Samples(ds) == Pull(Samples(cs), perm);
    SumReordered(Samples(cs), Samples(ds));
    TotalIsSum(cs);
    TotalIsSum(ds);
  }

  lemma ValidReordered(cs: seq<Contribution>, ds: seq<Contribution>, perm: seq<nat>, factor: real)
    requires Permutes(perm, cs, ds) && (forall c :: c in cs ==> IsDict(c.delta)) && Validate(cs, factor).None?
    ensures (forall c :: c in ds ==> IsDict(c.delta)) && Validate(ds, factor).None?
    ensures cs != [] && SameParams(cs[0].delta, ds[0].delta)
  {
    hide IsDict, SameParams, Total;
    ValidMeans(cs, factor);
    TotalReordered(cs, ds, perm);
    forall c | c in ds ensures c in cs {
      var k :| 0 <= k < |ds| && ds[k] == c;
      assert c == cs[perm[k]];
    }
    assert ds[0] in ds && ds[0] in cs;
    forall c | c in ds ensures SameParams(ds[0].delta, c.delta) {
      SameParamsTransitive(cs[0].delta, ds[0].delta, c.delta);
    }
    var p := (c: Contribution) => c.samples <= 0;
    forall k | 0 <= k < |ds| ensures !p(ds[k]) {
      assert ds[k] == cs[perm[k]];
    }
  }

  /** `ds`'s report is `cs`'s with each event moved to where its contribution went. */
  ghost predicate Follows(perm: seq<nat>, before: seq<ClipEvent>, after: seq<ClipEvent>) {
    && (forall e :: e in after ==> e.index < |perm| && e.(index := perm[e.index]) in before)
    && (forall k, e :: 0 <= k < |perm| && e in before && e.index == perm[k] ==> e.(index := k) in after)
  }

  lemma ReportFollows(sqrt: real -> real, cs: seq<Contribution>, ds: seq<Contribution>, perm: seq<nat>, cap: real)
    requires Permutes(perm, cs, ds) && cap >= 0.0
    ensures InOrder(ClipEvents(sqrt, cs, cap)) && InOrder(ClipEvents(sqrt, ds, cap))
    ensures Follows(perm, ClipEvents(sqrt, cs, cap), ClipEvents(sqrt, ds, cap))
  {
    hide L2Norm, ClipEvents, ScaleBlob, ClipOne;
    EventsAreTheClipped(sqrt, cs, cap);
    EventsAreTheClipped(sqrt, ds, cap);
  }

  /** Reordering the contributions of a valid round leaves it valid, changes no entry of
      the reduced delta, and reorders the clip report with them. */
  lemma ReduceReordered(sqrt: real -> real, cs: seq<Contribution>, ds: seq<Contribution>, perm: seq<nat>, factor: real, n: string, i: nat)
    requires IsSqrt(sqrt) && Permutes(perm, cs, ds) && (forall c :: c in cs ==> IsDict(c.delta)) && Validate(cs, factor).None?
    requires n in cs[0].delta.params && i < |cs[0].delta.params[n].data|
    ensures (forall c :: c in ds ==> IsDict(c.delta)) && Reduce(sqrt, cs, factor).Success? && Reduce(sqrt, ds, factor).Success?
    ensures At(Reduce(sqrt, ds, factor).value.0, n, i) == At(Reduce(sqrt, cs, factor).value.0, n, i)
    ensures InOrder(Reduce(sqrt, cs, factor).value.1) && InOrder(Reduce(sqrt, ds, factor).value.1)
    ensures Follows(perm, Reduce(sqrt, cs, factor).value.1, Reduce(sqrt, ds, factor).value.1)
  {
    hide IsDict, Total, Coordinate, Clipped, L2Norm, Cap, At, Mean, ClipEvents, InOrder, Follows;
    ValidReordered(cs, ds, perm, factor);
    assert |ds[0].delta.params[n].data| == |cs[0].delta.params[n].data|;
    hide SameParams, Validate;
    TotalReordered(cs, ds, perm);
    ReducedAt(sqrt, cs, factor, n, i);
    ReducedAt(sqrt, ds, factor, n, i);
    OrderDoesNotMatter(sqrt, cs, ds, perm, factor, Total(cs), n, i);
    ValidMeans(cs, factor);
    CapNotNegative(sqrt, cs, factor);
    ReportFollows(sqrt, cs, ds, perm, Cap(sqrt, cs, factor));
  }

  /** Nobody exceeds the cap. */
  ghost predicate Unclipped(sqrt: real -> real, cs: seq<Contribution>, factor: real)
    requires cs != []
  {
    forall k :: 0 <= k < |cs| ==> L2Norm(sqrt, cs[k].delta) <= Cap(sqrt, cs, factor)
  }

  lemma UnclippedAt(sqrt: real -> real, cs: seq<Contribution>, factor: real, n: string, i: nat)
    requires IsSqrt(sqrt) && (forall c :: c in cs ==> IsDict(c.delta)) && Validate(cs, factor).None?
    requires Unclipped(sqrt, cs, factor) && n in cs[0].delta.params && i < |cs[0].delta.params[n].data|
    ensures Total(cs) > 0 && Reduce(sqrt, cs, factor).Success?
    ensures At(Reduce(sqrt, cs, factor).value.0, n, i) == Coordinate(cs, Total(cs), n, i)
  {
    hide IsDict, SameParams, Total, Coordinate, L2Norm, Cap;
    ValidMeans(cs, factor);
    HonestRoundIsUntouched(sqrt, cs, factor);
  }

  /** When nobody is clipped, reducing two groups together is, entry for entry, the
      sample-weighted combination of reducing them apart. */
  lemma ReducingAConcatenation(sqrt: real -> real, a: seq<Contribution>, b: seq<Contribution>, factor: real, n: string, i: nat)
    requires IsSqrt(sqrt) && forall c :: c in a + b ==> IsDict(c.delta)
    requires Validate(a, factor).None? && Validate(b, factor).None? && Validate(a + b, factor).None?
    requires Unclipped(sqrt, a, factor) && Unclipped(sqrt, b, factor) && Unclipped(sqrt, a + b, factor)
    requires n in a[0].delta.params && i < |a[0].delta.params[n].data|
    ensures (forall c :: c in a ==> IsDict(c.delta)) && (forall c :: c in b ==> IsDict(c.delta))
    ensures Total(a) > 0 && Total(b) > 0
    ensures At(Reduce(sqrt, a + b, factor).value.0, n, i)
         == Blend(Total(a), At(Reduce(sqrt, a, factor).value.0, n, i), Total(b), At(Reduce(sqrt, b, factor).value.0, n, i))
  {
    SecondHasTheEntry(a, b, factor, n, i);
    hide *;
    UnclippedAt(sqrt, a, factor, n, i);
    UnclippedAt(sqrt, b, factor, n, i);
    assert (a + b)[0] == a[0];
    UnclippedAt(sqrt, a + b, factor, n, i);
    ConcatenationCombines(a, b, n, i);
  }

  lemma SecondHasTheEntry(a: seq<Contribution>, b: seq<Contribution>, factor: real, n: string, i: nat)
    requires (forall c :: c in a + b ==> IsDict(c.delta)) && a != [] && b != [] && Validate(a + b, factor).None?
    requires n in a[0].delta.params && i < |a[0].delta.params[n].data|
    ensures n in b[0].delta.params && i < |b[0].delta.params[n].data|
    ensures (forall c :: c in a ==> IsDict(c.delta)) && (forall c :: c in b ==> IsDict(c.delta))
  {
    var whole := a + b;
    ValidMeans(whole, factor);
    assert whole[0] == a[0] && whole[|a|] == b[0];
    assert SameParams(whole[0].delta, whole[|a|].delta);
  }
}
