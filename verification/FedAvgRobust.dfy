/** What the median-anchored cap guarantees: one contributor, or any minority, cannot
    move the reduced delta further than a bounded multiple of what the majority send. */
module FedAvgRobust {
  import opened Prelude
  import opened Mixing
  import opened FedAvgSpec

  // ------------------------------------------------------------- the median

  function CountIn(values: seq<real>, lo: real, hi: real): nat {
    if values == [] then 0
    else CountIn(values[..|values| - 1], lo, hi) + if lo <= values[|values| - 1] <= hi then 1 else 0
  }

  ghost predicate Ordered(s: seq<real>) {
    forall i, j :: 0 <= i < j < |s| ==> s[i] <= s[j]
  }

  lemma OneMoreOrdered(s: seq<real>, x: real, r: seq<real>, top: real)
    requires Ordered(r) && multiset(r) == multiset(s) + multiset{x} && x <= top && forall i :: 0 <= i < |s| ==> s[i] <= top
    ensures Ordered(r + [top]) && multiset(r + [top]) == multiset(s) + multiset{x} + multiset{top}
  {
    forall i | 0 <= i < |r| ensures r[i] <= top {
      assert r[i] in multiset(r);
      assert r[i] in s || r[i] == x;
    }
  }

  lemma InsertStep(s: seq<real>, x: real)
    requires s != []
    ensures var n := |s| - 1; Insert(s, x) == if s[n] > x then Insert(s[..n], x) + [s[n]] else s + [x]
    ensures multiset(s) == multiset(s[..|s| - 1]) + multiset{s[|s| - 1]}
  {
    assert s == s[..|s| - 1] + [s[|s| - 1]];
  }

  lemma {:induction false} InsertIsOrdered(s: seq<real>, x: real)
    requires Ordered(s)
    ensures Ordered(Insert(s, x)) && multiset(Insert(s, x)) == multiset(s) + multiset{x}
  {
    if s != [] {
      var n := |s| - 1;
      InsertStep(s, x);
      hide Insert;
      if s[n] > x {
        InsertIsOrdered(s[..n], x);
        OneMoreOrdered(s[..n], x, Insert(s[..n], x), s[n]);
        hide Ordered;
      }
    }
  }

  lemma {:induction false} SortIsOrdered(values: seq<real>)
    ensures Ordered(Sort(values)) && multiset(Sort(values)) == multiset(values) && |Sort(values)| == |values|
  {
    if values != [] {
      var n := |values| - 1;
      SortIsOrdered(values[..n]);
      InsertIsOrdered(Sort(values[..n]), values[n]);
      assert values == values[..n] + [values[n]];
    }
    SortLength(values);
  }

  lemma {:induction false} CountInsert(s: seq<real>, x: real, lo: real, hi: real)
    ensures CountIn(Insert(s, x), lo, hi) == CountIn(s, lo, hi) + if lo <= x <= hi then 1 else 0
  {
    if s != [] {
      var n := |s| - 1;
      if s[n] > x {
        CountInsert(s[..n], x, lo, hi);
        var r := Insert(s[..n], x);
        assert (r + [s[n]])[..|r|] == r;
      } else {
        assert (s + [x])[..|s|] == s;
      }
    }
  }

  lemma {:induction false} CountSort(values: seq<real>, lo: real, hi: real)
    ensures CountIn(Sort(values), lo, hi) == CountIn(values, lo, hi)
  {
    if values != [] {
      var n := |values| - 1;
      CountSort(values[..n], lo, hi);
      CountInsert(Sort(values[..n]), values[n], lo, hi);
    }
  }

  /** At most `m` of the values are in range if none from position `m` on is. */
  lemma {:induction false} CountBefore(s: seq<real>, m: nat, lo: real, hi: real)
    requires m <= |s| && forall j :: m <= j < |s| ==> s[j] > hi
    ensures CountIn(s, lo, hi) <= m
  {
    if s != [] {
      var n := |s| - 1;
      if m <= n {
        CountBefore(s[..n], m, lo, hi);
      } else {
        CountBefore(s[..n], n, lo, hi);
      }
    }
  }

  lemma {:induction false} CountAfter(s: seq<real>, m: nat, lo: real, hi: real)
    requires m <= |s| && forall j :: 0 <= j < m ==> s[j] < lo
    ensures CountIn(s, lo, hi) <= |s| - m
  {
    if s != [] {
      var n := |s| - 1;
      if m <= n {
        CountAfter(s[..n], m, lo, hi);
      } else {
        CountAfter(s[..n], n, lo, hi);
      }
    }
  }

  /** In sorted values with a strict majority in range, any position that leaves fewer
      than the majority on either side is in range. */
  lemma MiddleIsInRange(s: seq<real>, m: nat, lo: real, hi: real)
    requires Ordered(s) && m < |s|
    requires CountIn(s, lo, hi) > m && CountIn(s, lo, hi) > |s| - m - 1
    ensures lo <= s[m] <= hi
  {
    if s[m] > hi { CountBefore(s, m, lo, hi); }
    if s[m] < lo { CountAfter(s, m + 1, lo, hi); }
  }

  /** With a strict majority of the values in a range the median is in it, whatever
      the others are; odd and even lengths alike. */
  lemma MedianIsHonest(values: seq<real>, lo: real, hi: real)
    requires 2 * CountIn(values, lo, hi) > |values|
    ensures values != [] && lo <= Median(values) <= hi
  {
    SortIsOrdered(values);
    CountSort(values, lo, hi);
    hide Ordered, Sort, Insert;
    var s := Sort(values);
    var mid := |s| / 2;
    if values != [] {
      MiddleIsInRange(s, mid, lo, hi);
      if |s| % 2 == 0 {
        MiddleIsInRange(s, mid - 1, lo, hi);
      }
    }
  }

  // ------------------------------------------------- norms and their layout

  lemma {:induction false} SumSquaresNonNegative(data: seq<real>)
    ensures SumSquares(data) >= 0.0
  {
    if data != [] {
      SumSquaresNonNegative(data[..|data| - 1]);
      SquareIsNonNegative(data[|data| - 1]);
    }
  }

  lemma {:induction false} NormNonNegative(b: Blob, names: seq<string>)
    ensures NormSquared(b, names) >= 0.0
  {
    if names != [] {
      var n := names[|names| - 1];
      NormNonNegative(b, names[..|names| - 1]);
      if n in b.params { SumSquaresNonNegative(b.params[n].data); }
    }
  }

  lemma {:induction false} NormRemove(b: Blob, names: seq<string>, i: nat)
    requires i < |names|
    ensures NormSquared(b, names)
         == NormSquared(b, names[..i] + names[i + 1..])
          + if names[i] in b.params then SumSquares(b.params[names[i]].data) else 0.0
  {
    hide SumSquares;
    var n := |names| - 1;
    if i == n {
      assert names[..i] + names[i + 1..] == names[..n];
    } else {
      NormRemove(b, names[..n], i);
      var r := names[..i] + names[i + 1..];
      assert r[..|r| - 1] == names[..n][..i] + names[..n][i + 1..];
    }
  }

  lemma SameWithout(xs: seq<string>, ys: seq<string>, i: nat)
    requires Distinct(xs) && Distinct(ys) && xs != [] && i < |ys| && ys[i] == xs[|xs| - 1]
    requires forall n :: n in xs <==> n in ys
    ensures var m := |xs| - 1;
            var ys' := ys[..i] + ys[i + 1..];
            Distinct(xs[..m]) && Distinct(ys') && forall n :: n in xs[..m] <==> n in ys'
  {
    var m := |xs| - 1;
    var ys' := ys[..i] + ys[i + 1..];
    forall n ensures n in xs[..m] <==> n in ys' {
      if n in xs[..m] {
        assert n in ys;
        var k :| 0 <= k < |ys| && ys[k] == n;
        assert ys'[if k < i then k else k - 1] == n;
      }
      if n in ys' {
        var k :| 0 <= k < |ys'| && ys'[k] == n;
        assert ys[if k < i then k else k + 1] == n;
        assert n in xs;
      }
    }
  }

  /** The norm does not depend on the order the parameters are listed in. */
  lemma {:induction false} NormReordered(b: Blob, xs: seq<string>, ys: seq<string>)
    requires Distinct(xs) && Distinct(ys) && forall n :: n in xs <==> n in ys
    ensures NormSquared(b, xs) == NormSquared(b, ys)
    decreases |xs|
  {
    hide SumSquares;
    if xs == [] {
      forall n ensures multiset(ys)[n] == 0 { assert n !in ys; }
      assert multiset(ys) == multiset{};
      assert |multiset(ys)| == |ys|;
    } else {
      var m := |xs| - 1;
      assert xs[m] in ys;
      var i :| 0 <= i < |ys| && ys[i] == xs[m];
      var ys' := ys[..i] + ys[i + 1..];
      SameWithout(xs, ys, i);
      NormReordered(b, xs[..m], ys');
      NormRemove(b, ys, i);
    }
  }

  // ------------------------------------------------------ scaling to the cap

  lemma {:induction false} SumSquaresScaled(data: seq<real>, scaled: seq<real>, k: real)
    requires |scaled| == |data| && forall i :: 0 <= i < |data| ==> scaled[i] == k * data[i]
    ensures SumSquares(scaled) == k * k * SumSquares(data)
  {
    if data != [] {
      var n := |data| - 1;
      SumSquaresScaled(data[..n], scaled[..n], k);
      ScaleStep(SumSquares(data[..n]), data[n], scaled[n], k);
    }
  }

  lemma ScaleStep(s: real, x: real, y: real, k: real)
    requires y == k * x
    ensures k * k * s + y * y == k * k * (s + x * x)
  {
    assert y * y == k * k * (x * x);
  }

  lemma {:induction false} NormScaled(b: Blob, k: real, names: seq<string>)
    ensures NormSquared(ScaleBlob(b, k), names) == k * k * NormSquared(b, names)
  {
    hide SumSquares;
    if names != [] {
      var n := names[|names| - 1];
      var rest := names[..|names| - 1];
      NormScaled(b, k, rest);
      if n in b.params {
        SumSquaresScaled(b.params[n].data, ScaleBlob(b, k).params[n].data, k);
        Distribute(k * k, NormSquared(b, rest), SumSquares(b.params[n].data));
      }
    }
  }

  lemma Distribute(k: real, x: real, y: real)
    ensures k * x + k * y == k * (x + y)
  {
  }

  lemma CapExactly(cap: real, norm: real)
    requires norm > 0.0
    ensures (cap / norm) * (cap / norm) * (norm * norm) == cap * cap
  {
    var k := cap / norm;
    assert k * norm == cap;
    assert k * k * (norm * norm) == (k * norm) * (k * norm);
  }

  /** No clipped contribution is longer than the cap. */
  lemma ClippedIsWithinCap(sqrt: real -> real, c: Contribution, cap: real)
    requires IsSqrt(sqrt) && cap >= 0.0
    ensures var d := ClipOne(sqrt, c, cap).delta;
            d.names == c.delta.names && NormSquared(d, d.names) <= cap * cap
  {
    var sq := NormSquared(c.delta, c.delta.names);
    NormNonNegative(c.delta, c.delta.names);
    var norm := L2Norm(sqrt, c.delta);
    assert norm >= 0.0 && norm * norm == sq;
    if norm > cap {
      NormScaled(c.delta, cap / norm, c.delta.names);
      CapExactly(cap, norm);
    } else {
      SquaresMonotone(norm, cap);
    }
  }

  // ------------------------------------------------------ the mean is shorter

  /** `f` of every contribution, weighted. */
  function SquaresUpTo(b: Blob, n: string, len: nat): real {
    if len == 0 then 0.0 else SquaresUpTo(b, n, len - 1) + At(b, n, len - 1) * At(b, n, len - 1)
  }

  function SquaresColumn(cs: seq<Contribution>, n: string, len: nat): (v: seq<real>)
    ensures |v| == |cs| && forall k :: 0 <= k < |cs| ==> v[k] == SquaresUpTo(cs[k].delta, n, len)
  {
    seq(|cs|, k requires 0 <= k < |cs| => SquaresUpTo(cs[k].delta, n, len))
  }

  function NormColumn(cs: seq<Contribution>, names: seq<string>): (v: seq<real>)
    ensures |v| == |cs| && forall k :: 0 <= k < |cs| ==> v[k] == NormSquared(cs[k].delta, names)
  {
    seq(|cs|, k requires 0 <= k < |cs| => NormSquared(cs[k].delta, names))
  }

  lemma MixAdds(w: seq<real>, a: seq<real>, b: seq<real>, c: seq<real>)
    requires |w| == |a| == |b| == |c| && forall k :: 0 <= k < |w| ==> c[k] == a[k] + b[k]
    ensures Mix(w, c) == Mix(w, a) + Mix(w, b)
  {
    hide Mix;
    assert forall k :: 0 <= k < |w| ==> c[k] == 1.0 * a[k] + 1.0 * b[k];
    MixIsLinear(w, a, b, c, 1.0, 1.0);
  }

  lemma {:induction false} SquaresUpToIsSumSquares(b: Blob, n: string, len: nat)
    requires n in b.params && len <= |b.params[n].data|
    ensures SquaresUpTo(b, n, len) == SumSquares(b.params[n].data[..len])
  {
    if len > 0 {
      SquaresUpToIsSumSquares(b, n, len - 1);
      var d := b.params[n].data;
      assert d[..len][..len - 1] == d[..len - 1];
    }
  }

  /** Squared columns of one parameter: the mean's against the mean of theirs. */
  lemma {:induction false} MeanSquaresBounded(cs: seq<Contribution>, total: int, mean: Blob, n: string, len: nat)
    requires total != 0 && Weights(Shares(cs, total))
    requires forall i :: 0 <= i < len ==> At(mean, n, i) == Coordinate(cs, total, n, i)
    ensures SquaresUpTo(mean, n, len) <= Mix(Shares(cs, total), SquaresColumn(cs, n, len))
  {
    hide Weights, At, Mix, Shares;
    var w := Shares(cs, total);
    if len == 0 {
      MixOfZeros(w, SquaresColumn(cs, n, 0));
    } else {
      var i := len - 1;
      MeanSquaresBounded(cs, total, mean, n, i);
      var col := Column(cs, n, i);
      var squares := seq(|cs|, k requires 0 <= k < |cs| => col[k] * col[k]);
      SquareIsConvex(w, col, squares);
      MixAdds(w, SquaresColumn(cs, n, i), squares, SquaresColumn(cs, n, len));
    }
  }

  lemma {:induction false} MixOfZeros(w: seq<real>, v: seq<real>)
    requires |w| == |v| && forall k :: 0 <= k < |v| ==> v[k] == 0.0
    ensures Mix(w, v) == 0.0
  {
    if w != [] { MixOfZeros(w[..|w| - 1], v[..|v| - 1]); }
  }

  /** Every contribution has the first one's parameters, as validation guarantees. */
  ghost predicate SameLayout(cs: seq<Contribution>) {
    && cs != []
    && (forall k :: 0 <= k < |cs| ==> IsDict(cs[k].delta))
    && (forall k :: 0 <= k < |cs| ==> SameParams(cs[0].delta, cs[k].delta))
  }

  lemma ParamBounded(cs: seq<Contribution>, total: int, n: string)
    requires SameLayout(cs) && total != 0 && Weights(Shares(cs, total)) && n in cs[0].delta.params
    ensures SumSquares(Mean(cs, total).params[n].data)
         <= Mix(Shares(cs, total), SquaresColumn(cs, n, |cs[0].delta.params[n].data|))
  {
    var mean := Mean(cs, total);
    var d := mean.params[n].data;
    var len := |d|;
    MeanSquaresBounded(cs, total, mean, n, len);
    SquaresUpToIsSumSquares(mean, n, len);
    assert d[..len] == d;
  }

  lemma {:induction false} MeanNormBounded(cs: seq<Contribution>, total: int, names: seq<string>)
    requires SameLayout(cs) && total != 0 && Weights(Shares(cs, total))
    requires forall n :: n in names ==> n in cs[0].delta.params
    ensures NormSquared(Mean(cs, total), names) <= Mix(Shares(cs, total), NormColumn(cs, names))
  {
    hide Weights, SumSquares, Mix, Shares, SquaresUpTo;
    var w := Shares(cs, total);
    if names == [] {
      MixOfZeros(w, NormColumn(cs, []));
    } else {
      var rest, n := names[..|names| - 1], names[|names| - 1];
      var len := |cs[0].delta.params[n].data|;
      MeanNormBounded(cs, total, rest);
      ParamBounded(cs, total, n);
      forall k | 0 <= k < |cs|
        ensures NormColumn(cs, names)[k] == NormColumn(cs, rest)[k] + SquaresColumn(cs, n, len)[k]
      {
        SquaresUpToIsSumSquares(cs[k].delta, n, len);
        assert cs[k].delta.params[n].data[..len] == cs[k].delta.params[n].data;
      }
      MixAdds(w, NormColumn(cs, rest), SquaresColumn(cs, n, len), NormColumn(cs, names));
    }
  }

  // -------------------------------------------------------- bounded influence

  lemma {:induction false} SharesAddUp(cs: seq<Contribution>, total: int)
    requires total > 0
    ensures Sum(Shares(cs, total)) == Total(cs) as real / total as real
  {
    if cs != [] {
      var n := |cs| - 1;
      var w, w' := Shares(cs, total)[..n], Shares(cs[..n], total);
      assert forall k :: 0 <= k < n ==> w[k] == w'[k];
      assert w == w';
      SharesAddUp(cs[..n], total);
      AddFractions(Total(cs[..n]) as real, cs[n].samples as real, total as real);
    }
  }

  lemma AddFractions(a: real, b: real, d: real)
    requires d != 0.0
    ensures a / d + b / d == (a + b) / d
  {
  }

  lemma Itself(d: real)
    requires d != 0.0
    ensures d / d == 1.0
  {
  }

  lemma NonNegativeFraction(a: real, d: real)
    requires a >= 0.0 && d > 0.0
    ensures a / d >= 0.0
  {
  }

  /** Positive counts make the shares a convex combination. */
  lemma SharesAreWeights(cs: seq<Contribution>, total: int)
    requires total == Total(cs) > 0 && forall k :: 0 <= k < |cs| ==> cs[k].samples > 0
    ensures Weights(Shares(cs, total))
  {
    var w := Shares(cs, total);
    SharesAddUp(cs, total);
    Itself(total as real);
    hide Shares, Sum, Total;
    forall k | 0 <= k < |cs| ensures w[k] >= 0.0 {
      NonNegativeFraction(cs[k].samples as real, total as real);
    }
  }

  lemma {:induction false} ClippingKeepsTotal(sqrt: real -> real, cs: seq<Contribution>, cap: real)
    ensures Total(Clipped(sqrt, cs, cap)) == Total(cs)
  {
    hide ScaleBlob, L2Norm;
    if cs != [] {
      var n := |cs| - 1;
      ClippingKeepsTotal(sqrt, cs[..n], cap);
      assert Clipped(sqrt, cs, cap)[..n] == Clipped(sqrt, cs[..n], cap);
    }
  }

  lemma ScalingKeepsLayout(a: Blob, b: Blob, k: real)
    requires IsDict(a) && IsDict(b) && SameParams(a, b)
    ensures IsDict(ScaleBlob(b, k)) && SameParams(a, ScaleBlob(b, k))
    ensures IsDict(ScaleBlob(a, k)) && SameParams(ScaleBlob(a, k), b)
    ensures a.params.Keys == b.params.Keys
  {
    assert ScaleBlob(b, k).params.Keys == b.params.Keys;
    assert ScaleBlob(a, k).params.Keys == a.params.Keys;
  }

  lemma SameParamsTransitive(a: Blob, b: Blob, c: Blob)
    requires IsDict(a) && IsDict(b) && IsDict(c) && SameParams(a, b) && SameParams(a, c)
    ensures SameParams(b, c)
  {
  }

  lemma ClipKeepsLayout(sqrt: real -> real, a: Blob, c: Contribution, cap: real)
    requires IsDict(a) && IsDict(c.delta) && SameParams(a, c.delta)
    ensures IsDict(ClipOne(sqrt, c, cap).delta) && SameParams(a, ClipOne(sqrt, c, cap).delta)
    ensures ClipOne(sqrt, c, cap).samples == c.samples && ClipOne(sqrt, c, cap).delta.names == c.delta.names
  {
    hide SameParams, IsDict, ScaleBlob, L2Norm;
    var norm := L2Norm(sqrt, c.delta);
    if norm > cap && norm != 0.0 {
      ScalingKeepsLayout(a, c.delta, cap / norm);
      ScalingKeepsNames(c.delta, cap / norm);
    }
  }

  lemma ScalingKeepsNames(b: Blob, k: real)
    ensures ScaleBlob(b, k).names == b.names
  {
  }

  lemma ClippingKeepsLayout(sqrt: real -> real, cs: seq<Contribution>, cap: real)
    requires SameLayout(cs)
    ensures SameLayout(Clipped(sqrt, cs, cap))
    ensures forall k :: 0 <= k < |cs| ==>
      Clipped(sqrt, cs, cap)[k].samples == cs[k].samples && Clipped(sqrt, cs, cap)[k].delta.names == cs[k].delta.names
  {
    hide SameParams, IsDict, ClipOne;
    var cl := Clipped(sqrt, cs, cap);
    forall k | 0 <= k < |cs|
      ensures IsDict(cl[k].delta) && SameParams(cs[0].delta, cl[k].delta)
      ensures cl[k].samples == cs[k].samples && cl[k].delta.names == cs[k].delta.names
    {
      ClipKeepsLayout(sqrt, cs[0].delta, cs[k], cap);
    }
    forall k | 0 <= k < |cs| ensures SameParams(cl[0].delta, cl[k].delta) {
      SameParamsTransitive(cs[0].delta, cl[0].delta, cl[k].delta);
    }
  }

  /** The mean of contributions no longer than `cap` is no longer than `cap`. */
  lemma MeanWithinCap(cs: seq<Contribution>, cap: real)
    requires SameLayout(cs) && cap >= 0.0 && Total(cs) > 0
    requires forall k :: 0 <= k < |cs| ==> cs[k].samples > 0
    requires forall k :: 0 <= k < |cs| ==> NormSquared(cs[k].delta, cs[k].delta.names) <= cap * cap
    ensures NormSquared(Mean(cs, Total(cs)), cs[0].delta.names) <= cap * cap
  {
    hide Mix, NormSquared, Mean;
    var total := Total(cs);
    var names := cs[0].delta.names;
    SharesAreWeights(cs, total);
    MeanNormBounded(cs, total, names);
    var col := NormColumn(cs, names);
    forall k | 0 <= k < |cs| ensures 0.0 <= col[k] <= cap * cap {
      NormNonNegative(cs[k].delta, names);
      assert SameParams(cs[0].delta, cs[k].delta);
      NormReordered(cs[k].delta, names, cs[k].delta.names);
    }
    MixBetween(Shares(cs, total), col, 0.0, cap * cap);
  }

  lemma ValidMeans(cs: seq<Contribution>, factor: real)
    requires forall c :: c in cs ==> IsDict(c.delta)
    requires Validate(cs, factor).None?
    ensures SameLayout(cs) && factor > 0.0 && Total(cs) > 0
    ensures forall k :: 0 <= k < |cs| ==> cs[k].samples > 0
  {
    hide IsDict, SameParams;
    var p := (c: Contribution) => c.samples <= 0;
    assert forall k :: 0 <= k < |cs| ==> !p(cs[k]);
    forall k | 0 <= k < |cs| ensures IsDict(cs[k].delta) && SameParams(cs[0].delta, cs[k].delta) {
      assert cs[k] in cs;
    }
  }

  lemma ScaleBetween(factor: real, lo: real, m: real, hi: real)
    requires factor > 0.0 && lo <= m <= hi
    ensures factor * lo <= m * factor <= factor * hi
  {
    ScaleLe(factor, lo, m);
    ScaleLe(factor, m, hi);
  }

  /** If a strict majority of norms is between `lo` and `hi`, so is the anchor of the
      cap, whatever the rest send. */
  lemma CapIsHonest(sqrt: real -> real, cs: seq<Contribution>, factor: real, lo: real, hi: real)
    requires factor > 0.0 && 2 * CountIn(Norms(sqrt, cs), lo, hi) > |cs|
    ensures cs != [] && factor * lo <= Cap(sqrt, cs, factor) <= factor * hi
  {
    hide CountIn, Median, Norms;
    var norms := Norms(sqrt, cs);
    MedianIsHonest(norms, lo, hi);
    ScaleBetween(factor, lo, Median(norms), hi);
  }

  lemma {:induction false} AllCounted(values: seq<real>) returns (hi: real)
    requires forall i :: 0 <= i < |values| ==> values[i] >= 0.0
    ensures CountIn(values, 0.0, hi) == |values| && forall i :: 0 <= i < |values| ==> values[i] <= hi
  {
    hi := 0.0;
    if values != [] {
      var n := |values| - 1;
      var below := AllCounted(values[..n]);
      hi := if below < values[n] then values[n] else below;
      assert forall i :: 0 <= i < n ==> values[..n][i] == values[i];
      MoreRoom(values[..n], hi);
    }
  }

  lemma {:induction false} MoreRoom(values: seq<real>, hi: real)
    requires forall i :: 0 <= i < |values| ==> 0.0 <= values[i] <= hi
    ensures CountIn(values, 0.0, hi) == |values|
  {
    if values != [] {
      MoreRoom(values[..|values| - 1], hi);
    }
  }

  lemma CapNotNegative(sqrt: real -> real, cs: seq<Contribution>, factor: real)
    requires IsSqrt(sqrt) && factor > 0.0 && cs != []
    ensures Cap(sqrt, cs, factor) >= 0.0
  {
    hide Cap, CountIn, NormSquared;
    forall i | 0 <= i < |cs| ensures Norms(sqrt, cs)[i] >= 0.0 {
      NormNonNegative(cs[i].delta, cs[i].delta.names);
    }
    var hi := AllCounted(Norms(sqrt, cs));
    CapIsHonest(sqrt, cs, factor, 0.0, hi);
  }

  /** Bounded influence. However many samples and however large a delta a minority
      claims, the reduced delta is no longer than `factor` times the largest norm a
      strict majority stays within. */
  lemma BoundedInfluence(sqrt: real -> real, cs: seq<Contribution>, factor: real, bound: real)
    requires IsSqrt(sqrt) && forall c :: c in cs ==> IsDict(c.delta)
    requires Validate(cs, factor).None?
    requires 2 * CountIn(Norms(sqrt, cs), 0.0, bound) > |cs|
    ensures Reduce(sqrt, cs, factor).Success?
    ensures L2Norm(sqrt, Reduce(sqrt, cs, factor).value.0) <= factor * bound
  {
    hide SameLayout, IsDict, ClipOne, NormSquared, Mean, Median, CountIn, Cap;
    ValidMeans(cs, factor);
    CapIsHonest(sqrt, cs, factor, 0.0, bound);
    var cap := Cap(sqrt, cs, factor);
    var cl := Clipped(sqrt, cs, cap);
    ClippingKeepsTotal(sqrt, cs, cap);
    ClippingKeepsLayout(sqrt, cs, cap);
    forall k | 0 <= k < |cl| ensures NormSquared(cl[k].delta, cl[k].delta.names) <= cap * cap {
      ClippedIsWithinCap(sqrt, cs[k], cap);
    }
    MeanWithinCap(cl, cap);
    var mean := Mean(cl, Total(cs));
    assert mean.names == cl[0].delta.names by { MeanNames(cl, Total(cs)); }
    NormNonNegative(mean, mean.names);
    RootWithin(sqrt, NormSquared(mean, mean.names), cap);
  }

  lemma MeanNames(cs: seq<Contribution>, total: int)
    requires cs != [] && total != 0
    ensures Mean(cs, total).names == cs[0].delta.names
  {
  }

  lemma RootWithin(sqrt: real -> real, x: real, y: real)
    requires IsSqrt(sqrt) && y >= 0.0 && 0.0 <= x <= y * y
    ensures sqrt(x) <= y
  {
    SquaresOrder(sqrt(x), y);
  }

  // ------------------------------------------ half is not enough of a majority

  function OneNumber(x: real): Blob {
    Blob(["w"], map["w" := Param([1], [x])])
  }

  /** `m` values `a` and then as many `b`. */
  function Halves(m: nat, a: real, b: real): (v: seq<real>)
    ensures |v| == 2 * m && forall k :: 0 <= k < 2 * m ==> v[k] == if k < m then a else b
  {
    seq(2 * m, k requires 0 <= k < 2 * m => if k < m then a else b)
  }

  /** `m` contributors at rest and as many at distance `x`, with one sample each. */
  function HalfAtRest(m: nat, x: real): (cs: seq<Contribution>)
    ensures |cs| == 2 * m
    ensures forall k :: 0 <= k < 2 * m ==> cs[k] == Contribution(OneNumber(if k < m then 0.0 else x), 1)
  {
    seq(2 * m, k requires 0 <= k < 2 * m => Contribution(OneNumber(if k < m then 0.0 else x), 1))
  }

  lemma OneNumberNorm(sqrt: real -> real, x: real)
    requires IsSqrt(sqrt) && x >= 0.0
    ensures NormSquared(OneNumber(x), ["w"]) == x * x && L2Norm(sqrt, OneNumber(x)) == x
  {
    var b := OneNumber(x);
    assert ["w"][..0] == [] && [x][..0] == [];
    assert SumSquares([x]) == x * x;
    SquareIsNonNegative(x);
    SquaresOrder(sqrt(x * x), x);
    SquaresOrder(x, sqrt(x * x));
  }

  lemma HalvesNorms(sqrt: real -> real, m: nat, x: real)
    requires IsSqrt(sqrt) && x >= 0.0
    ensures Norms(sqrt, HalfAtRest(m, x)) == Halves(m, 0.0, x)
  {
    OneNumberNorm(sqrt, 0.0);
    OneNumberNorm(sqrt, x);
    hide L2Norm, OneNumber;
  }

  lemma {:induction false} OrderedStays(s: seq<real>)
    requires Ordered(s)
    ensures Sort(s) == s
  {
    if s != [] {
      OrderedStays(s[..|s| - 1]);
      assert s == s[..|s| - 1] + [s[|s| - 1]];
    }
  }

  lemma MedianOfHalves(m: nat, a: real, b: real)
    requires m >= 1 && a <= b
    ensures Median(Halves(m, a, b)) == (a + b) / 2.0
  {
    OrderedStays(Halves(m, a, b));
    hide Sort;
  }

  lemma {:induction false} CountHalves(m: nat, x: real, k: nat)
    requires x > 0.0 && k <= 2 * m
    ensures CountIn(Halves(m, 0.0, x)[..k], 0.0, 0.0) == Min(k, m)
  {
    if k > 0 {
      CountHalves(m, x, k - 1);
      assert Halves(m, 0.0, x)[..k][..k - 1] == Halves(m, 0.0, x)[..k - 1];
    }
  }

  lemma {:induction false} TotalOfOnes(cs: seq<Contribution>)
    requires forall k :: 0 <= k < |cs| ==> cs[k].samples == 1
    ensures Total(cs) == |cs|
  {
    if cs != [] { TotalOfOnes(cs[..|cs| - 1]); }
  }

  lemma HalvesAreValid(m: nat, x: real, factor: real)
    requires m >= 1 && factor > 0.0
    ensures forall c :: c in HalfAtRest(m, x) ==> IsDict(c.delta)
    ensures Validate(HalfAtRest(m, x), factor) == None && Total(HalfAtRest(m, x)) == 2 * m
  {
    TotalOfOnes(HalfAtRest(m, x));
    assert [1][..0] == [] && Product([]) == 1 && Product([1]) == 1;
    forall y: real ensures IsDict(OneNumber(y)) { }
    hide Total, Product;
  }

  lemma Requotient(a: real, b: real)
    requires b > 0.0
    ensures a / b * b == a
  {
  }

  lemma ScaleOne(x: real, cap: real)
    requires x > 0.0
    ensures ScaleBlob(OneNumber(x), cap / x) == OneNumber(cap)
  {
    Requotient(cap, x);
    var k := cap / x;
    assert k * x == cap;
    var a := ScaleBlob(OneNumber(x), k);
    assert a.params["w"].data[0] == k * x;
    assert a.params["w"].data == [cap];
    assert a.params == OneNumber(cap).params;
  }

  lemma HalvesClipped(sqrt: real -> real, m: nat, x: real, cap: real)
    requires IsSqrt(sqrt) && x > 0.0 && cap >= 0.0
    ensures Clipped(sqrt, HalfAtRest(m, x), cap) == HalfAtRest(m, if x > cap then cap else x)
  {
    OneNumberNorm(sqrt, 0.0);
    OneNumberNorm(sqrt, x);
    hide L2Norm;
    if x > cap { ScaleOne(x, cap); }
    hide ScaleBlob, OneNumber;
    forall k | 0 <= k < 2 * m ensures Clipped(sqrt, HalfAtRest(m, x), cap)[k] == HalfAtRest(m, if x > cap then cap else x)[k] { }
  }

  lemma {:induction false} NobodyClipped(sqrt: real -> real, cs: seq<Contribution>, cap: real)
    requires forall k :: 0 <= k < |cs| ==> L2Norm(sqrt, cs[k].delta) <= cap
    ensures ClipEvents(sqrt, cs, cap) == []
  {
    hide L2Norm;
    if cs != [] { NobodyClipped(sqrt, cs[..|cs| - 1], cap); }
  }

  lemma MixMore(w: seq<real>, v: seq<real>, k: nat)
    requires |w| == |v| && k < |v|
    ensures Mix(w[..k + 1], v[..k + 1]) == Mix(w[..k], v[..k]) + w[k] * v[k]
  {
    assert w[..k + 1][..k] == w[..k] && v[..k + 1][..k] == v[..k];
  }

  lemma OneMoreShare(k: nat, c: real, y: real)
    ensures (k + 1) as real * (c * y) == k as real * (c * y) + c * y
  {
  }

  lemma {:induction false} MixOfHalves(w: seq<real>, m: nat, c: real, y: real, k: nat)
    requires |w| == 2 * m && k <= 2 * m && forall i :: 0 <= i < 2 * m ==> w[i] == c
    ensures Mix(w[..k], Halves(m, 0.0, y)[..k]) == if k <= m then 0.0 else (k - m) as real * (c * y)
  {
    if k > 0 {
      MixOfHalves(w, m, c, y, k - 1);
      MixMore(w, Halves(m, 0.0, y), k - 1);
      if k > m { OneMoreShare(k - 1 - m, c, y); }
      hide Mix;
    }
  }

  lemma Regroup(n: real, c: real, y: real)
    ensures n * (c * y) == (n * c) * y
  {
  }

  lemma HalfShare(n: real, c: real)
    requires c * (n + n) == 1.0
    ensures n * c == 0.5
  {
  }

  lemma SameProduct(a: real, b: real, c: real)
    requires b == c
    ensures a * b == a * c
  {
  }

  lemma HalfOfHalf(n: real, d: real, c: real, y: real)
    requires d == n + n && c * d == 1.0
    ensures n * (c * y) == y / 2.0
  {
    SameProduct(c, d, n + n);
    HalfShare(n, c);
    Regroup(n, c, y);
    var p := n * c;
    assert p == 0.5;
    assert p * y == y / 2.0;
  }

  lemma HalvesMix(m: nat, y: real, w: seq<real>, c: real)
    requires m >= 1 && |w| == 2 * m && c * (2 * m) as real == 1.0 && forall i :: 0 <= i < 2 * m ==> w[i] == c
    ensures Mix(w, Halves(m, 0.0, y)) == y / 2.0
  {
    hide Mix;
    var v := Halves(m, 0.0, y);
    MixOfHalves(w, m, c, y, 2 * m);
    assert w[..2 * m] == w && v[..2 * m] == v;
    HalfOfHalf(m as real, (2 * m) as real, c, y);
  }

  lemma HalvesMean(m: nat, y: real)
    requires m >= 1
    ensures Mean(HalfAtRest(m, y), 2 * m) == OneNumber(y / 2.0)
  {
    var cs := HalfAtRest(m, y);
    var w, v := Shares(cs, 2 * m), Column(cs, "w", 0);
    assert v == Halves(m, 0.0, y);
    var c := 1.0 / (2 * m) as real;
    Requotient(1.0, (2 * m) as real);
    hide Mix, Halves;
    HalvesMix(m, y, w, c);
    assert Coordinate(cs, 2 * m, "w", 0) == y / 2.0;
    hide Shares, Column, Coordinate;
    assert Mean(cs, 2 * m).params["w"].data == [y / 2.0];
  }

  /** The cap of half at rest and half at distance `x`, and how far it lets those reach. */
  function HalfCap(factor: real, x: real): real { x / 2.0 * factor }
  function Reach(factor: real, x: real): real { if x > HalfCap(factor, x) then HalfCap(factor, x) else x }

  /** How far out the other half must be to move the result by `bound`. */
  function Distance(factor: real, bound: real): real
    requires factor > 0.0
  {
    if factor >= 2.0 then 2.0 * bound else 4.0 * bound / factor
  }

  lemma NearDistance(factor: real, x: real, bound: real)
    requires 0.0 < factor < 2.0 && x == 4.0 * bound / factor && bound > 0.0
    ensures x > 0.0 && HalfCap(factor, x) == 2.0 * bound && 2.0 * bound < x
  {
    PositiveQuotient(4.0 * bound, factor);
    Requotient(4.0 * bound, factor);
    HalveProduct(x, factor);
    PositiveProduct(x, 2.0 - factor);
    LeftOver(x, factor);
  }

  lemma LeftOver(x: real, factor: real)
    ensures x * (2.0 - factor) == 2.0 * x - x * factor
  {
  }

  lemma FarDistance(factor: real, bound: real)
    requires factor >= 2.0 && bound > 0.0
    ensures 2.0 * bound <= HalfCap(factor, 2.0 * bound)
  {
    ScaleLe(bound, 2.0, factor);
  }

  lemma DistanceWorks(factor: real, bound: real)
    requires factor > 0.0 && bound > 0.0
    ensures var x := Distance(factor, bound);
            && x > 0.0 && Reach(factor, x) == 2.0 * bound
            && (factor >= 2.0 ==> x <= HalfCap(factor, x))
  {
    hide HalfCap;
    if factor < 2.0 {
      NearDistance(factor, Distance(factor, bound), bound);
    } else {
      FarDistance(factor, bound);
    }
  }

  lemma HalveProduct(x: real, y: real)
    ensures x / 2.0 * y == x * y / 2.0
  {
  }

  lemma PositiveQuotient(a: real, b: real)
    requires a > 0.0 && b > 0.0
    ensures a / b > 0.0
  {
  }

  lemma HalvesCap(sqrt: real -> real, m: nat, x: real, factor: real)
    requires IsSqrt(sqrt) && m >= 1 && x > 0.0 && factor > 0.0
    ensures Cap(sqrt, HalfAtRest(m, x), factor) == HalfCap(factor, x) > 0.0
  {
    HalvesNorms(sqrt, m, x);
    MedianOfHalves(m, 0.0, x);
    PositiveProduct(x / 2.0, factor);
    hide Norms, Halves, Median;
  }

  lemma HalfReduces(sqrt: real -> real, m: nat, x: real, factor: real)
    requires IsSqrt(sqrt) && m >= 1 && x > 0.0 && factor > 0.0
    ensures forall c :: c in HalfAtRest(m, x) ==> IsDict(c.delta)
    ensures Reduce(sqrt, HalfAtRest(m, x), factor)
         == Success((OneNumber(Reach(factor, x) / 2.0), ClipEvents(sqrt, HalfAtRest(m, x), HalfCap(factor, x))))
  {
    hide IsDict, Validate, L2Norm, Median, Norms, Halves, Mean, ClipEvents, HalfAtRest, Cap, ClipOne, Clipped, OneNumber, HalfCap, Total;
    HalvesAreValid(m, x, factor);
    HalvesCap(sqrt, m, x, factor);
    HalvesClipped(sqrt, m, x, HalfCap(factor, x));
    HalvesMean(m, Reach(factor, x));
  }

  /** Exactly half is not enough, with any even number of contributors and any clip
      factor: with that half at rest, the other makes the reduced delta as long as it
      likes, and from a factor of two on without being clipped at all. */
  lemma HalfIsNotAMajority(sqrt: real -> real, m: nat, factor: real, bound: real)
    requires IsSqrt(sqrt) && m >= 1 && factor > 0.0 && bound > 0.0
    ensures var cs := HalfAtRest(m, Distance(factor, bound));
            && (forall c :: c in cs ==> IsDict(c.delta))
            && 2 * CountIn(Norms(sqrt, cs), 0.0, 0.0) == |cs|
            && Reduce(sqrt, cs, factor).Success?
            && L2Norm(sqrt, Reduce(sqrt, cs, factor).value.0) == bound
            && (factor >= 2.0 ==> Reduce(sqrt, cs, factor).value.1 == [])
  {
    hide *;
    var x := Distance(factor, bound);
    DistanceWorks(factor, bound);
    HalfReduces(sqrt, m, x, factor);
    HalfAreAtRest(sqrt, m, x);
    OneNumberNorm(sqrt, bound);
    if factor >= 2.0 {
      NormsWithin(sqrt, m, x, HalfCap(factor, x));
      NobodyClipped(sqrt, HalfAtRest(m, x), HalfCap(factor, x));
    }
  }

  lemma HalfAreAtRest(sqrt: real -> real, m: nat, x: real)
    requires IsSqrt(sqrt) && x > 0.0
    ensures 2 * CountIn(Norms(sqrt, HalfAtRest(m, x)), 0.0, 0.0) == |HalfAtRest(m, x)|
  {
    HalvesNorms(sqrt, m, x);
    CountHalves(m, x, 2 * m);
    assert Halves(m, 0.0, x)[..2 * m] == Halves(m, 0.0, x);
  }

  lemma NormsWithin(sqrt: real -> real, m: nat, x: real, cap: real)
    requires IsSqrt(sqrt) && 0.0 < x <= cap
    ensures forall k :: 0 <= k < 2 * m ==> L2Norm(sqrt, HalfAtRest(m, x)[k].delta) <= cap
  {
    HalvesNorms(sqrt, m, x);
  }
}
