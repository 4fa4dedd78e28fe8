/** Weighted sums of reals. */
module Mixing {
  import opened Permutations

  function Sum(s: seq<real>): real {
    if s == [] then 0.0 else Sum(s[..|s| - 1]) + s[|s| - 1]
  }

  function Times(w: real, v: real): real { w * v }

  /** The sum of `w[k] * v[k]`. */
  function Mix(w: seq<real>, v: seq<real>): real
    requires |w| == |v|
  {
    if w == [] then 0.0
    else Mix(w[..|w| - 1], v[..|w| - 1]) + Times(w[|w| - 1], v[|w| - 1])
  }

  ghost predicate Weights(w: seq<real>) {
    Sum(w) == 1.0 && forall k :: 0 <= k < |w| ==> w[k] >= 0.0
  }

  lemma LinearStep(w: real, a: real, b: real, c: real, x: real, y: real, p: real, q: real, p': real, q': real)
    requires c == x * a + y * b && p' == p + Times(w, a) && q' == q + Times(w, b)
    ensures x * p + y * q + Times(w, c) == x * p' + y * q'
  {
  }

  lemma {:induction false} MixIsLinear(w: seq<real>, a: seq<real>, b: seq<real>, c: seq<real>, x: real, y: real)
    requires |w| == |a| == |b| == |c|
    requires forall k :: 0 <= k < |w| ==> c[k] == x * a[k] + y * b[k]
    ensures Mix(w, c) == x * Mix(w, a) + y * Mix(w, b)
  {
    if w != [] {
      var n := |w| - 1;
      MixIsLinear(w[..n], a[..n], b[..n], c[..n], x, y);
      MixStep(w, a);
      MixStep(w, b);
      MixStep(w, c);
      hide Mix, Times;
      LinearStep(w[n], a[n], b[n], c[n], x, y, Mix(w[..n], a[..n]), Mix(w[..n], b[..n]), Mix(w, a), Mix(w, b));
    }
  }

  lemma ScaleLe(w: real, a: real, b: real)
    requires w >= 0.0 && a <= b
    ensures w * a <= w * b
  {
    assert w * (b - a) >= 0.0;
  }

  /** `mix`, a mix with weights adding up to `sum`, lies between `lo` and `hi`. */
  predicate Between(lo: real, hi: real, sum: real, mix: real) {
    lo * sum <= mix <= hi * sum
  }

  lemma BetweenStep(sum: real, mix: real, w: real, v: real, lo: real, hi: real)
    requires Between(lo, hi, sum, mix) && w >= 0.0 && lo <= v <= hi
    ensures Between(lo, hi, sum + w, mix + Times(w, v))
  {
    ScaleLe(w, lo, v);
    ScaleLe(w, v, hi);
  }

  lemma MixStep(w: seq<real>, v: seq<real>)
    requires |w| == |v| > 0
    ensures Mix(w, v) == Mix(w[..|w| - 1], v[..|w| - 1]) + Times(w[|w| - 1], v[|w| - 1])
  {
    hide Times;
  }

  lemma SumStep(w: seq<real>)
    requires w != []
    ensures Sum(w) == Sum(w[..|w| - 1]) + w[|w| - 1]
  {
  }

  lemma {:induction false} MixStaysBetween(w: seq<real>, v: seq<real>, lo: real, hi: real)
    requires |w| == |v| && forall k :: 0 <= k < |w| ==> w[k] >= 0.0 && lo <= v[k] <= hi
    ensures Between(lo, hi, Sum(w), Mix(w, v))
  {
    if w != [] {
      hide *;
      var n := |w| - 1;
      MixStaysBetween(w[..n], v[..n], lo, hi);
      BetweenStep(Sum(w[..n]), Mix(w[..n], v[..n]), w[n], v[n], lo, hi);
      MixStep(w, v);
      SumStep(w);
    }
  }

  lemma MixBetween(w: seq<real>, v: seq<real>, lo: real, hi: real)
    requires |w| == |v| && forall k :: 0 <= k < |w| ==> w[k] >= 0.0 && lo <= v[k] <= hi
    ensures lo * Sum(w) <= Mix(w, v) <= hi * Sum(w)
  {
    hide Mix, Sum;
    MixStaysBetween(w, v, lo, hi);
  }

  lemma SquareIsNonNegative(x: real)
    ensures x * x >= 0.0
  {
  }

  /** What the expanded weighted square distance to `m` amounts to. */
  function Spread(squares: real, mix: real, sum: real, m: real): real {
    squares - 2.0 * m * mix + m * m * sum
  }

  lemma SpreadStep(squares: real, mix: real, sum: real, m: real, w: real, v: real, square: real)
    requires w >= 0.0 && square == v * v && Spread(squares, mix, sum, m) >= 0.0
    ensures Spread(squares + Times(w, square), mix + Times(w, v), sum + w, m) >= 0.0
  {
    var d := v - m;
    SquareIsNonNegative(d);
    ScaleLe(w, 0.0, d * d);
    assert w * (d * d) == w * (v * v) - 2.0 * m * (w * v) + m * m * w;
  }

  lemma {:induction false} SpreadIsNonNegative(w: seq<real>, v: seq<real>, squares: seq<real>, m: real)
    requires |w| == |v| == |squares| && forall k :: 0 <= k < |w| ==> w[k] >= 0.0 && squares[k] == v[k] * v[k]
    ensures Spread(Mix(w, squares), Mix(w, v), Sum(w), m) >= 0.0
  {
    if w != [] {
      hide Spread, Times, Mix;
      var n := |w| - 1;
      SpreadIsNonNegative(w[..n], v[..n], squares[..n], m);
      SpreadStep(Mix(w[..n], squares[..n]), Mix(w[..n], v[..n]), Sum(w[..n]), m, w[n], v[n], squares[n]);
      MixStep(w, squares);
      MixStep(w, v);
    }
  }

  lemma SpreadAtMean(squares: real, mean: real)
    requires Spread(squares, mean, 1.0, mean) >= 0.0
    ensures mean * mean <= squares
  {
  }

  /** The square of a weighted mean is at most the weighted mean of the squares. */
  lemma SquareIsConvex(w: seq<real>, v: seq<real>, squares: seq<real>)
    requires Weights(w) && |w| == |v| == |squares| && forall k :: 0 <= k < |w| ==> squares[k] == v[k] * v[k]
    ensures Mix(w, v) * Mix(w, v) <= Mix(w, squares)
  {
    hide Spread, Mix, Sum;
    SpreadIsNonNegative(w, v, squares, Mix(w, v));
    SpreadAtMean(Mix(w, squares), Mix(w, v));
  }

  lemma PositiveProduct(x: real, y: real)
    requires x > 0.0 && y > 0.0
    ensures x * y > 0.0
  {
  }

  lemma DifferenceOfSquares(x: real, y: real)
    ensures (x - y) * (x + y) == x * x - y * y
  {
  }

  lemma SquaresOrder(x: real, y: real)
    requires x >= 0.0 && y >= 0.0 && x * x <= y * y
    ensures x <= y
  {
    DifferenceOfSquares(x, y);
    if x > y {
      PositiveProduct(x - y, x + y);
    }
  }

  lemma SquaresMonotone(x: real, y: real)
    requires 0.0 <= x <= y
    ensures x * x <= y * y
  {
    ScaleLe(x, x, y);
    ScaleLe(y, x, y);
  }

  // ----------------------------------------------- reordering and splitting

  lemma {:induction false} SumRemove(s: seq<real>, i: nat)
    requires i < |s|
    ensures Sum(s) == Sum(s[..i] + s[i + 1..]) + s[i]
  {
    var n := |s| - 1;
    if i == n {
      assert s[..i] + s[i + 1..] == s[..n];
    } else {
      SumRemove(s[..n], i);
      var r := s[..i] + s[i + 1..];
      assert r[..|r| - 1] == s[..n][..i] + s[..n][i + 1..];
    }
  }

  /** A sum does not depend on the order of its terms. */
  lemma {:induction false} SumReordered(a: seq<real>, b: seq<real>)
    requires multiset(a) == multiset(b)
    ensures Sum(a) == Sum(b)
  {
    if a == [] {
      assert |b| == |multiset(b)| == 0;
    } else {
      var n := |a| - 1;
      assert a[n] in multiset(b);
      var i :| 0 <= i < |b| && b[i] == a[n];
      var b' := b[..i] + b[i + 1..];
      assert a == a[..n] + [a[n]];
      assert b == b[..i] + [b[i]] + b[i + 1..];
      assert multiset(a) == multiset(a[..n]) + multiset{a[n]};
      assert multiset(b) == multiset(b') + multiset{b[i]};
      Cancel(multiset(a[..n]), multiset(b'), a[n]);
      SumReordered(a[..n], b');
      SumRemove(b, i);
    }
  }

  /** `Mix` as a plain sum of its terms. */
  function Terms(w: seq<real>, v: seq<real>): (t: seq<real>)
    requires |w| == |v|
    ensures |t| == |w| && forall k :: 0 <= k < |w| ==> t[k] == Times(w[k], v[k])
  {
    seq(|w|, k requires 0 <= k < |w| => Times(w[k], v[k]))
  }

  lemma {:induction false} MixIsSum(w: seq<real>, v: seq<real>)
    requires |w| == |v|
    ensures Mix(w, v) == Sum(Terms(w, v))
  {
    if w != [] {
      var n := |w| - 1;
      MixIsSum(w[..n], v[..n]);
      var t, t' := Terms(w, v)[..n], Terms(w[..n], v[..n]);
      assert forall k :: 0 <= k < n ==> t[k] == t'[k];
      assert t == t';
    }
  }
}
