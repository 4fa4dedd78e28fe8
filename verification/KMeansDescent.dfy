/** Lloyd's algorithm never raises the cost. */
module KMeansDescent {
  import opened KMeansSpec

  // -------------------------------------------------- sums over rows

  lemma {:induction false} SumRowsLe(rows: seq<Point>, f: Point -> real, g: Point -> real)
    requires forall p :: f(p) <= g(p)
    ensures SumRows(rows, f) <= SumRows(rows, g)
  {
    if rows != [] { SumRowsLe(rows[..|rows| - 1], f, g); }
  }

  lemma {:induction false} SumRowsAdd(rows: seq<Point>, f: Point -> real, g: Point -> real, h: Point -> real)
    requires forall p :: h(p) == f(p) + g(p)
    ensures SumRows(rows, h) == SumRows(rows, f) + SumRows(rows, g)
  {
    if rows != [] { SumRowsAdd(rows[..|rows| - 1], f, g, h); }
  }

  lemma {:induction false} SumRowsZero(rows: seq<Point>, f: Point -> real)
    requires forall p :: f(p) == 0.0
    ensures SumRows(rows, f) == 0.0
  {
    if rows != [] { SumRowsZero(rows[..|rows| - 1], f); }
  }

  // ------------------------------------------------ the nearest-centroid step

  /** No centroid is closer than the one a row is assigned to, and none before it is
      as close. */
  lemma {:induction false} NearestIsFirstLeast(p: Point, cs: seq<Point>, dims: nat, k: nat)
    requires 1 <= k <= |cs|
    ensures forall j :: 0 <= j < k ==> Dist(p, cs[NearestOf(p, cs, dims, k)], dims) <= Dist(p, cs[j], dims)
    ensures forall j :: 0 <= j < NearestOf(p, cs, dims, k) ==>
              Dist(p, cs[NearestOf(p, cs, dims, k)], dims) < Dist(p, cs[j], dims)
  {
    hide Dist;
    if k > 1 {
      NearestIsFirstLeast(p, cs, dims, k - 1);
    }
  }

  lemma NearestIsLeast(p: Point, cs: seq<Point>, dims: nat, j: nat)
    requires j < |cs|
    ensures Dist(p, cs[Nearest(p, cs, dims)], dims) <= Dist(p, cs[j], dims)
  {
    hide Dist;
    NearestIsFirstLeast(p, cs, dims, |cs|);
  }

  /** The cost of `ds` when rows keep the assignment `cs` gives them. */
  function CostOf(cs: seq<Point>, ds: seq<Point>, dims: nat): Point -> real
    requires |cs| >= 1 && |ds| == |cs|
  {
    (p: Point) => Dist(p, ds[Nearest(p, cs, dims)], dims)
  }

  /** Reassigning every row to its nearest centroid does not raise the cost. */
  lemma AssignmentStep(rows: seq<Point>, cs: seq<Point>, ds: seq<Point>, dims: nat)
    requires |cs| >= 1 && |ds| == |cs|
    ensures Inertia(rows, ds, dims) <= SumRows(rows, CostOf(cs, ds, dims))
  {
    hide Dist, SumRows, Nearest;
    forall p: Point ensures Cost(ds, dims)(p) <= CostOf(cs, ds, dims)(p) {
      NearestIsLeast(p, ds, dims, Nearest(p, cs, dims));
    }
    SumRowsLe(rows, Cost(ds, dims), CostOf(cs, ds, dims));
  }

  // ---------------------------------------------------------- the mean step

  function Square(e: real): real { e * e }

  /** Squared deviation from `x` of the members of cluster `j`, in coordinate `d`. */
  function Deviation(cs: seq<Point>, dims: nat, j: nat, d: nat, x: real): Point -> real
    requires |cs| >= 1
  {
    (p: Point) => if Nearest(p, cs, dims) == j then Square(Coord(p, d) - x) else 0.0
  }

  /** `n` members with sum `s` and sum of squares `q`: their squared deviation from `x`. */
  function Quadratic(q: real, s: real, n: real, x: real): real {
    q - 2.0 * x * s + n * (x * x)
  }

  lemma QuadraticStep(q: real, s: real, n: real, x: real, v: real)
    ensures Quadratic(q, s, n, x) + Square(v - x) == Quadratic(q + Square(v - 0.0), s + v, n + 1.0, x)
  {
  }

  lemma QuadraticOfNothing(x: real)
    ensures Quadratic(0.0, 0.0, 0.0, x) == 0.0
  {
  }

  lemma DeviationStep(rows: seq<Point>, cs: seq<Point>, dims: nat, j: nat, d: nat, x: real)
    requires |cs| >= 1 && rows != []
    ensures SumRows(rows, Deviation(cs, dims, j, d, x)) == SumRows(rows[..|rows| - 1], Deviation(cs, dims, j, d, x))
          + if Nearest(rows[|rows| - 1], cs, dims) == j then Square(Coord(rows[|rows| - 1], d) - x) else 0.0
    ensures SumOf(rows, cs, dims, j, d) == SumOf(rows[..|rows| - 1], cs, dims, j, d)
          + if Nearest(rows[|rows| - 1], cs, dims) == j then Coord(rows[|rows| - 1], d) else 0.0
    ensures CountOf(rows, cs, dims, j) as real == CountOf(rows[..|rows| - 1], cs, dims, j) as real
          + if Nearest(rows[|rows| - 1], cs, dims) == j then 1.0 else 0.0
  {
  }

  lemma {:induction false} DeviationExpands(rows: seq<Point>, cs: seq<Point>, dims: nat, j: nat, d: nat, x: real)
    requires |cs| >= 1
    ensures SumRows(rows, Deviation(cs, dims, j, d, x))
         == Quadratic(SumRows(rows, Deviation(cs, dims, j, d, 0.0)), SumOf(rows, cs, dims, j, d),
                      CountOf(rows, cs, dims, j) as real, x)
  {
    hide Nearest, Quadratic, Square, Deviation, Coord;
    if rows == [] {
      QuadraticOfNothing(x);
    } else {
      hide *;
      var n := |rows| - 1;
      DeviationExpands(rows[..n], cs, dims, j, d, x);
      DeviationStep(rows, cs, dims, j, d, x);
      DeviationStep(rows, cs, dims, j, d, 0.0);
      QuadraticStep(SumRows(rows[..n], Deviation(cs, dims, j, d, 0.0)), SumOf(rows[..n], cs, dims, j, d),
                    CountOf(rows[..n], cs, dims, j) as real, x, Coord(rows[n], d));
    }
  }

  lemma QuadraticMinimum(q: real, s: real, n: real, m: real, x: real)
    requires n > 0.0 && m == s / n
    ensures Quadratic(q, s, n, m) <= Quadratic(q, s, n, x)
  {
    assert s == n * m;
    var e := x - m;
    assert e * e >= 0.0;
    assert n * (e * e) >= 0.0;
    assert n * (e * e) == n * (x * x) - 2.0 * x * (n * m) + n * (m * m);
  }

  /** The mean of a cluster's members minimises their squared deviation. */
  lemma MeanIsBest(rows: seq<Point>, cs: seq<Point>, dims: nat, j: nat, d: nat, x: real)
    requires |cs| >= 1 && CountOf(rows, cs, dims, j) > 0
    ensures var m := SumOf(rows, cs, dims, j, d) / CountOf(rows, cs, dims, j) as real;
            SumRows(rows, Deviation(cs, dims, j, d, m)) <= SumRows(rows, Deviation(cs, dims, j, d, x))
  {
    hide SumRows, CountOf, Deviation, Quadratic;
    var s, n := SumOf(rows, cs, dims, j, d), CountOf(rows, cs, dims, j) as real;
    var m := s / n;
    DeviationExpands(rows, cs, dims, j, d, m);
    DeviationExpands(rows, cs, dims, j, d, x);
    QuadraticMinimum(SumRows(rows, Deviation(cs, dims, j, d, 0.0)), s, n, m, x);
  }

  /** Distance of cluster `j`'s members to `c`, over the first `e` coordinates. */
  function ClusterCost(cs: seq<Point>, dims: nat, j: nat, c: Point, e: nat): Point -> real
    requires |cs| >= 1
  {
    (p: Point) => if Nearest(p, cs, dims) == j then Dist(p, c, e) else 0.0
  }

  lemma ClusterCostStep(rows: seq<Point>, cs: seq<Point>, dims: nat, j: nat, c: Point, e: nat)
    requires |cs| >= 1
    ensures SumRows(rows, ClusterCost(cs, dims, j, c, e + 1))
         == SumRows(rows, ClusterCost(cs, dims, j, c, e)) + SumRows(rows, Deviation(cs, dims, j, e, Coord(c, e)))
  {
    hide SumRows, Nearest;
    SumRowsAdd(rows, ClusterCost(cs, dims, j, c, e), Deviation(cs, dims, j, e, Coord(c, e)), ClusterCost(cs, dims, j, c, e + 1));
  }

  /** A cluster's centroid after an iteration is the mean of its members: times their
      number it is their sum, in each coordinate. A cluster without members keeps its
      centroid. */
  lemma CentroidsAreMeans(rows: seq<Point>, cs: seq<Point>, dims: nat, j: nat)
    requires j < |cs|
    ensures CountOf(rows, cs, dims, j) == 0 ==> Lloyd(rows, cs, dims)[j] == cs[j]
    ensures CountOf(rows, cs, dims, j) > 0 ==> |Lloyd(rows, cs, dims)[j]| == dims && forall d :: 0 <= d < dims ==>
              Lloyd(rows, cs, dims)[j][d] * CountOf(rows, cs, dims, j) as real == SumOf(rows, cs, dims, j, d)
  {
    hide CountOf, SumOf;
    var next, n := Lloyd(rows, cs, dims)[j], CountOf(rows, cs, dims, j);
    if n > 0 {
      forall d | 0 <= d < dims ensures next[d] * n as real == SumOf(rows, cs, dims, j, d) {
        QuotientTimes(SumOf(rows, cs, dims, j, d), n as real);
      }
    }
  }

  lemma QuotientTimes(a: real, b: real)
    requires b > 0.0
    ensures a / b * b == a
  {
  }

  /** How many rows are nearest to centroid `j`. */
  lemma {:induction false} CountIsMembers(rows: seq<Point>, cs: seq<Point>, dims: nat, j: nat)
    requires |cs| >= 1
    ensures CountOf(rows, cs, dims, j) == |set i | 0 <= i < |rows| && Nearest(rows[i], cs, dims) == j|
  {
    hide Nearest;
    var all := set i | 0 <= i < |rows| && Nearest(rows[i], cs, dims) == j;
    if rows == [] {
      assert all == {};
    } else {
      var n := |rows| - 1;
      CountIsMembers(rows[..n], cs, dims, j);
      var before := set i | 0 <= i < |rows[..n]| && Nearest(rows[..n][i], cs, dims) == j;
      assert all == before + if Nearest(rows[n], cs, dims) == j then {n} else {};
    }
  }

  lemma {:induction false} NoMembersNoCost(rows: seq<Point>, cs: seq<Point>, dims: nat, j: nat, c: Point, e: nat)
    requires |cs| >= 1 && CountOf(rows, cs, dims, j) == 0
    ensures SumRows(rows, ClusterCost(cs, dims, j, c, e)) == 0.0
  {
    hide Nearest, Dist;
    if rows != [] { NoMembersNoCost(rows[..|rows| - 1], cs, dims, j, c, e); }
  }

  /** No centroid serves a cluster's members better than the one an iteration gives it. */
  lemma {:induction false} ClusterImproves(rows: seq<Point>, cs: seq<Point>, dims: nat, j: nat, c: Point, e: nat)
    requires j < |cs| && |c| == dims && e <= dims
    ensures SumRows(rows, ClusterCost(cs, dims, j, Lloyd(rows, cs, dims)[j], e))
         <= SumRows(rows, ClusterCost(cs, dims, j, c, e))
  {
    hide SumRows, Nearest, CountOf, ClusterCost, SumOf, Deviation;
    var next := Lloyd(rows, cs, dims)[j];
    if CountOf(rows, cs, dims, j) == 0 {
      NoMembersNoCost(rows, cs, dims, j, next, e);
      NoMembersNoCost(rows, cs, dims, j, c, e);
    } else if e == 0 {
      NoCoordinates(rows, cs, dims, j, next);
      NoCoordinates(rows, cs, dims, j, c);
    } else {
      ClusterImproves(rows, cs, dims, j, c, e - 1);
      ClusterCostStep(rows, cs, dims, j, next, e - 1);
      ClusterCostStep(rows, cs, dims, j, c, e - 1);
      MeanIsBest(rows, cs, dims, j, e - 1, Coord(c, e - 1));
      assert Coord(next, e - 1) == SumOf(rows, cs, dims, j, e - 1) / CountOf(rows, cs, dims, j) as real;
    }
  }

  lemma NoCoordinates(rows: seq<Point>, cs: seq<Point>, dims: nat, j: nat, c: Point)
    requires |cs| >= 1
    ensures SumRows(rows, ClusterCost(cs, dims, j, c, 0)) == 0.0
  {
    SumRowsZero(rows, ClusterCost(cs, dims, j, c, 0));
  }

  /** Cost of the rows assigned to one of the first `k` clusters. */
  function CostBelow(cs: seq<Point>, ds: seq<Point>, dims: nat, k: nat): Point -> real
    requires |cs| >= 1 && |ds| == |cs|
  {
    (p: Point) => if Nearest(p, cs, dims) < k then Dist(p, ds[Nearest(p, cs, dims)], dims) else 0.0
  }

  lemma CostBelowStep(rows: seq<Point>, cs: seq<Point>, ds: seq<Point>, dims: nat, k: nat)
    requires |cs| >= 1 && |ds| == |cs| && k < |cs|
    ensures SumRows(rows, CostBelow(cs, ds, dims, k + 1))
         == SumRows(rows, CostBelow(cs, ds, dims, k)) + SumRows(rows, ClusterCost(cs, dims, k, ds[k], dims))
  {
    hide SumRows, Nearest, Dist;
    SumRowsAdd(rows, CostBelow(cs, ds, dims, k), ClusterCost(cs, dims, k, ds[k], dims), CostBelow(cs, ds, dims, k + 1));
  }

  lemma OneMoreImproves(rows: seq<Point>, cs: seq<Point>, ds: seq<Point>, dims: nat, k: nat)
    requires |cs| >= 1 && |ds| == |cs| && Shaped(ds, dims) && k < |cs|
    requires SumRows(rows, CostBelow(cs, Lloyd(rows, cs, dims), dims, k)) <= SumRows(rows, CostBelow(cs, ds, dims, k))
    ensures SumRows(rows, CostBelow(cs, Lloyd(rows, cs, dims), dims, k + 1)) <= SumRows(rows, CostBelow(cs, ds, dims, k + 1))
  {
    assert |ds[k]| == dims;
    hide *;
    CostBelowStep(rows, cs, Lloyd(rows, cs, dims), dims, k);
    CostBelowStep(rows, cs, ds, dims, k);
    ClusterImproves(rows, cs, dims, k, ds[k], dims);
  }

  lemma {:induction false} ClustersImprove(rows: seq<Point>, cs: seq<Point>, ds: seq<Point>, dims: nat, k: nat)
    requires |cs| >= 1 && |ds| == |cs| && Shaped(ds, dims) && k <= |cs|
    ensures SumRows(rows, CostBelow(cs, Lloyd(rows, cs, dims), dims, k)) <= SumRows(rows, CostBelow(cs, ds, dims, k))
  {
    if k == 0 {
      hide SumRows, Nearest, Dist, Lloyd;
      SumRowsZero(rows, CostBelow(cs, Lloyd(rows, cs, dims), dims, 0));
      SumRowsZero(rows, CostBelow(cs, ds, dims, 0));
    } else {
      hide *;
      ClustersImprove(rows, cs, ds, dims, k - 1);
      OneMoreImproves(rows, cs, ds, dims, k - 1);
    }
  }

  lemma {:induction false} SumRowsSame(rows: seq<Point>, f: Point -> real, g: Point -> real)
    requires forall p :: f(p) == g(p)
    ensures SumRows(rows, f) == SumRows(rows, g)
  {
    if rows != [] { SumRowsSame(rows[..|rows| - 1], f, g); }
  }

  /** With each row left in its cluster, no centroids whatever cost less than the ones an
      iteration gives. */
  lemma MeanStep(rows: seq<Point>, cs: seq<Point>, ds: seq<Point>, dims: nat)
    requires |cs| >= 1 && |ds| == |cs| && Shaped(ds, dims)
    ensures SumRows(rows, CostOf(cs, Lloyd(rows, cs, dims), dims)) <= SumRows(rows, CostOf(cs, ds, dims))
  {
    hide SumRows, Dist, Centroid;
    var next := Lloyd(rows, cs, dims);
    ClustersImprove(rows, cs, ds, dims, |cs|);
    SumRowsSame(rows, CostOf(cs, next, dims), CostBelow(cs, next, dims, |cs|));
    SumRowsSame(rows, CostOf(cs, ds, dims), CostBelow(cs, ds, dims, |cs|));
  }

  /** One iteration never raises the cost. */
  lemma LloydDescends(rows: seq<Point>, cs: seq<Point>, dims: nat)
    requires Shaped(cs, dims)
    ensures Inertia(rows, Lloyd(rows, cs, dims), dims) <= Inertia(rows, cs, dims)
  {
    hide SumRows, Dist;
    MeanStep(rows, cs, cs, dims);
    SumRowsSame(rows, Cost(cs, dims), CostOf(cs, cs, dims));
    AssignmentStep(rows, cs, Lloyd(rows, cs, dims), dims);
  }
}
