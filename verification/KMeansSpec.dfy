/** One Lloyd iteration over all the rows, and the map and reduce that compute it from
    shards, as functions over exact reals. */
module KMeansSpec {
  type Point = seq<real>

  /** Per-centroid coordinate sums, counts, and the cost of the shard's rows. */
  datatype Partial = Partial(sums: seq<seq<real>>, counts: seq<nat>, inertia: real, n: nat)

  function Coord(p: Point, d: nat): real {
    if d < |p| then p[d] else 0.0
  }

  /** Squared distance over the first `dims` coordinates. */
  function Dist(p: Point, c: Point, dims: nat): real {
    if dims == 0 then 0.0
    else
      var e := Coord(p, dims - 1) - Coord(c, dims - 1);
      Dist(p, c, dims - 1) + e * e
  }

  /** The first of the first `k` centroids at least distance. */
  function NearestOf(p: Point, cs: seq<Point>, dims: nat, k: nat): (j: nat)
    requires 1 <= k <= |cs|
    ensures j < k
  {
    if k == 1 then 0
    else
      var best := NearestOf(p, cs, dims, k - 1);
      if Dist(p, cs[k - 1], dims) < Dist(p, cs[best], dims) then k - 1 else best
  }

  /** `k` centroids of `dims` coordinates each. */
  predicate Shaped(cs: seq<Point>, dims: nat) {
    |cs| >= 1 && forall j :: 0 <= j < |cs| ==> |cs[j]| == dims
  }

  function Nearest(p: Point, cs: seq<Point>, dims: nat): (j: nat)
    requires |cs| >= 1
    ensures j < |cs|
  {
    NearestOf(p, cs, dims, |cs|)
  }

  /** Blank lines are skipped. */
  function NonBlank(rows: seq<Point>): seq<Point> {
    if rows == [] then []
    else NonBlank(rows[..|rows| - 1]) + if rows[|rows| - 1] == [] then [] else [rows[|rows| - 1]]
  }

  /** Every row that is not blank has a value for each coordinate. */
  predicate Readable(rows: seq<Point>, dims: nat) {
    forall i :: 0 <= i < |rows| && rows[i] != [] ==> |rows[i]| >= dims
  }

  /** The sum of `f` over the rows. */
  function SumRows(rows: seq<Point>, f: Point -> real): real {
    if rows == [] then 0.0 else SumRows(rows[..|rows| - 1], f) + f(rows[|rows| - 1])
  }

  /** Row `p`'s contribution to cluster `j`, coordinate `d`. */
  function Member(cs: seq<Point>, dims: nat, j: nat, d: nat): Point -> real
    requires |cs| >= 1
  {
    (p: Point) => if Nearest(p, cs, dims) == j then Coord(p, d) else 0.0
  }

  function Cost(cs: seq<Point>, dims: nat): Point -> real
    requires |cs| >= 1
  {
    (p: Point) => Dist(p, cs[Nearest(p, cs, dims)], dims)
  }

  function CountOf(rows: seq<Point>, cs: seq<Point>, dims: nat, j: nat): nat
    requires |cs| >= 1
  {
    if rows == [] then 0
    else CountOf(rows[..|rows| - 1], cs, dims, j) + if Nearest(rows[|rows| - 1], cs, dims) == j then 1 else 0
  }

  function SumOf(rows: seq<Point>, cs: seq<Point>, dims: nat, j: nat, d: nat): real
    requires |cs| >= 1
  {
    SumRows(rows, Member(cs, dims, j, d))
  }

  function Inertia(rows: seq<Point>, cs: seq<Point>, dims: nat): real
    requires |cs| >= 1
  {
    SumRows(rows, Cost(cs, dims))
  }

  function SumsOf(rows: seq<Point>, cs: seq<Point>, dims: nat, j: nat): (s: seq<real>)
    requires |cs| >= 1
    ensures |s| == dims && forall d :: 0 <= d < dims ==> s[d] == SumOf(rows, cs, dims, j, d)
  {
    seq(dims, d requires 0 <= d < dims => SumOf(rows, cs, dims, j, d))
  }

  /** The map step over one shard. */
  function PartialOf(rows: seq<Point>, cs: seq<Point>, dims: nat): (p: Partial)
    requires |cs| >= 1
    ensures |p.sums| == |p.counts| == |cs|
    ensures forall j :: 0 <= j < |cs| ==> p.sums[j] == SumsOf(rows, cs, dims, j) && p.counts[j] == CountOf(rows, cs, dims, j)
    ensures p.inertia == Inertia(rows, cs, dims) && p.n == |rows|
  {
    Partial(seq(|cs|, j requires 0 <= j < |cs| => SumsOf(rows, cs, dims, j)),
            seq(|cs|, j requires 0 <= j < |cs| => CountOf(rows, cs, dims, j)),
            Inertia(rows, cs, dims), |rows|)
  }

  /** The centroid a cluster's totals call for; an empty cluster keeps its own. */
  function Centroid(sums: seq<real>, count: nat, prev: Point): (c: Point)
    ensures |c| == if count > 0 then |sums| else |prev|
  {
    if count > 0 then seq(|sums|, d requires 0 <= d < |sums| => sums[d] / count as real) else prev
  }

  /** One Lloyd iteration in one pass over all rows. */
  function Lloyd(rows: seq<Point>, cs: seq<Point>, dims: nat): (r: seq<Point>)
    requires |cs| >= 1
    ensures |r| == |cs|
    ensures forall j :: 0 <= j < |cs| ==>
      r[j] == Centroid(SumsOf(rows, cs, dims, j), CountOf(rows, cs, dims, j), cs[j])
  {
    seq(|cs|, j requires 0 <= j < |cs| =>
      Centroid(SumsOf(rows, cs, dims, j), CountOf(rows, cs, dims, j), cs[j]))
  }

  // ------------------------------------------------------------- the reduce

  /** A partial with a count and sums for each centroid and coordinate. */
  predicate Fits(p: Partial, k: nat, dims: nat) {
    |p.sums| >= k && |p.counts| >= k && forall j :: 0 <= j < k ==> |p.sums[j]| >= dims
  }

  predicate FitsPartials(ps: seq<Partial>, k: nat, dims: nat) {
    forall i :: 0 <= i < |ps| ==> Fits(ps[i], k, dims)
  }

  function TotalCount(ps: seq<Partial>, j: nat): nat {
    if ps == [] then 0
    else
      var last := ps[|ps| - 1];
      TotalCount(ps[..|ps| - 1], j) + if j < |last.counts| then last.counts[j] else 0
  }

  function TotalSum(ps: seq<Partial>, j: nat, d: nat): real {
    if ps == [] then 0.0
    else
      var last := ps[|ps| - 1];
      TotalSum(ps[..|ps| - 1], j, d) + if j < |last.sums| then Coord(last.sums[j], d) else 0.0
  }

  function TotalInertia(ps: seq<Partial>): real {
    if ps == [] then 0.0 else TotalInertia(ps[..|ps| - 1]) + ps[|ps| - 1].inertia
  }

  function TotalSums(ps: seq<Partial>, j: nat, dims: nat): (s: seq<real>)
    ensures |s| == dims && forall d :: 0 <= d < dims ==> s[d] == TotalSum(ps, j, d)
  {
    seq(dims, d requires 0 <= d < dims => TotalSum(ps, j, d))
  }

  function Reduced(ps: seq<Partial>, prev: seq<Point>, dims: nat): (r: seq<Point>)
    ensures |r| == |prev|
    ensures forall j :: 0 <= j < |prev| ==> r[j] == Centroid(TotalSums(ps, j, dims), TotalCount(ps, j), prev[j])
  {
    seq(|prev|, j requires 0 <= j < |prev| => Centroid(TotalSums(ps, j, dims), TotalCount(ps, j), prev[j]))
  }

  // --------------------------------------------------------------- sharding

  /** The slice of every `n`-th row starting at row `s`. */
  function Shard(rows: seq<Point>, s: nat, n: nat): seq<Point>
    requires n > 0
  {
    if rows == [] then []
    else
      var m := |rows| - 1;
      Shard(rows[..m], s, n) + if m % n == s then [rows[m]] else []
  }

  function Shards(rows: seq<Point>, n: nat): (r: seq<seq<Point>>)
    requires n > 0
    ensures |r| == n && forall s :: 0 <= s < n ==> r[s] == Shard(rows, s, n)
  {
    seq(n, s requires 0 <= s < n => Shard(rows, s, n))
  }

  function Flatten(shards: seq<seq<Point>>): seq<Point> {
    if shards == [] then [] else Flatten(shards[..|shards| - 1]) + shards[|shards| - 1]
  }

  function Partials(shards: seq<seq<Point>>, cs: seq<Point>, dims: nat): (ps: seq<Partial>)
    requires |cs| >= 1
    ensures |ps| == |shards| && forall s :: 0 <= s < |shards| ==> ps[s] == PartialOf(shards[s], cs, dims)
  {
    seq(|shards|, s requires 0 <= s < |shards| => PartialOf(shards[s], cs, dims))
  }
}
