/** The shard worker, the reduce and the driver loop, proved against the functions of
    KMeansSpec, and the whole run proved never to raise the cost. */
module KMeansDriver {
  import opened Prelude
  import opened Permutations
  import opened KMeansSpec
  import opened KMeansSharding
  import opened KMeansDescent
  import opened KMeansJobs

  /** Why a worker gives up. */
  datatype ShardError = ShortRow

  /** Why the driver raises, and in which iteration. */
  datatype Error =
    | JobEnded(iteration: nat)
    | TimedOut(iteration: nat)
    | NotJson(iteration: nat)
    | WrongCount(iteration: nat)

  /** How one iteration's job ends for the polling driver. */
  datatype JobEnd = Done(listed: seq<Listed>) | Failed | OutOfTime

  datatype Clustering = Clustering(centroids: seq<Point>, history: seq<real>)

  // ------------------------------------------------------------ the map step

  method Closest(point: Point, centroids: seq<Point>, dims: nat) returns (best: nat, bestD: Option<real>)
    requires |centroids| >= 1
    ensures best == Nearest(point, centroids, dims)
    ensures bestD == Some(Dist(point, centroids[best], dims))
  {
    hide Dist;
    best, bestD := 0, None;
    var j := 0;
    while j < |centroids|
      invariant j <= |centroids| && best < |centroids|
      invariant j == 0 ==> best == 0 && bestD == None
      invariant j > 0 ==> best == NearestOf(point, centroids, dims, j) && bestD == Some(Dist(point, centroids[best], dims))
    {
      var d := Dist(point, centroids[j], dims);
      if bestD == None || d < bestD.value {
        best, bestD := j, Some(d);
      }
      j := j + 1;
    }
  }

  method AddPoint(sums: seq<real>, point: Point) returns (r: seq<real>)
    requires |point| >= |sums|
    ensures |r| == |sums| && forall d :: 0 <= d < |sums| ==> r[d] == sums[d] + Coord(point, d)
  {
    r := sums;
    for d := 0 to |sums|
      invariant |r| == |sums|
      invariant forall e :: 0 <= e < d ==> r[e] == sums[e] + Coord(point, e)
      invariant forall e :: d <= e < |sums| ==> r[e] == sums[e]
    {
      r := r[d := r[d] + point[d]];
    }
  }

  lemma MoreRows(done: seq<Point>, p: Point, cs: seq<Point>, dims: nat)
    requires |cs| >= 1
    ensures Inertia(done + [p], cs, dims) == Inertia(done, cs, dims) + Dist(p, cs[Nearest(p, cs, dims)], dims)
    ensures forall j :: 0 <= j < |cs| ==>
      CountOf(done + [p], cs, dims, j) == CountOf(done, cs, dims, j) + if Nearest(p, cs, dims) == j then 1 else 0
  {
    hide Dist, Nearest;
    assert (done + [p])[..|done|] == done;
  }

  lemma MoreSums(done: seq<Point>, p: Point, cs: seq<Point>, dims: nat, j: nat, before: seq<real>, after: seq<real>)
    requires |cs| >= 1 && before == SumsOf(done, cs, dims, j) && |after| == dims
    requires if Nearest(p, cs, dims) == j then forall d :: 0 <= d < dims ==> after[d] == before[d] + Coord(p, d) else after == before
    ensures after == SumsOf(done + [p], cs, dims, j)
  {
    hide Nearest, Coord;
    assert (done + [p])[..|done|] == done;
    var whole := SumsOf(done + [p], cs, dims, j);
    forall d | 0 <= d < dims ensures after[d] == whole[d] {
      assert SumRows(done + [p], Member(cs, dims, j, d)) == SumRows(done, Member(cs, dims, j, d)) + Member(cs, dims, j, d)(p);
    }
  }

  /** The worker: one pass over its shard, a row too short for the centroids being the
      one error. */
  method RunShard(centroids: seq<Point>, rows: seq<Point>) returns (r: Result<Partial, ShardError>)
    requires |centroids| >= 1 && Shaped(centroids, |centroids[0]|)
    ensures r.Success? <==> Readable(rows, |centroids[0]|)
    ensures r.Success? <==> forall row :: row in rows ==> |row| == 0 || |row| >= |centroids[0]|
    ensures r.Success? ==> r.value == PartialOf(NonBlank(rows), centroids, |centroids[0]|)
  {
    hide Nearest, Dist, SumRows, CountOf, SumOf, Inertia, Coord;
    var k, dims := |centroids|, |centroids[0]|;
    var sums := seq(k, _ => seq(dims, _ => 0.0));
    var counts: seq<nat> := seq(k, _ => 0);
    var inertia, n := 0.0, 0;
    ghost var done: seq<Point> := [];
    Nothing(centroids, dims, sums, counts);
    var i := 0;
    while i < |rows|
      invariant i <= |rows| && Readable(rows[..i], dims)
      invariant done == NonBlank(rows[..i])
      invariant |sums| == |counts| == k && forall j :: 0 <= j < k ==> sums[j] == SumsOf(done, centroids, dims, j)
      invariant forall j :: 0 <= j < k ==> counts[j] == CountOf(done, centroids, dims, j)
      invariant inertia == Inertia(done, centroids, dims) && n == |done|
    {
      var point := rows[i];
      assert rows[..i + 1][..i] == rows[..i];
      if point != [] {
        if |point| < dims {
          return Failure(ShortRow);
        }
        var best, bestD := Closest(point, centroids, dims);
        var added := AddPoint(sums[best], point);
        forall j | 0 <= j < k ensures sums[best := added][j] == SumsOf(done + [point], centroids, dims, j) {
          MoreSums(done, point, centroids, dims, j, sums[j], sums[best := added][j]);
        }
        MoreRows(done, point, centroids, dims);
        sums := sums[best := added];
        counts := counts[best := counts[best] + 1];
        inertia := inertia + bestD.value;
        n := n + 1;
        done := done + [point];
      }
      i := i + 1;
    }
    assert rows[..i] == rows;
    assert sums == PartialOf(done, centroids, dims).sums;
    assert counts == PartialOf(done, centroids, dims).counts;
    r := Success(Partial(sums, counts, inertia, n));
  }

  lemma Nothing(cs: seq<Point>, dims: nat, sums: seq<seq<real>>, counts: seq<nat>)
    requires |cs| >= 1 && |sums| == |counts| == |cs|
    requires forall j :: 0 <= j < |cs| ==> counts[j] == 0 && |sums[j]| == dims && forall d :: 0 <= d < dims ==> sums[j][d] == 0.0
    ensures Inertia([], cs, dims) == 0.0
    ensures forall j :: 0 <= j < |cs| ==> sums[j] == SumsOf([], cs, dims, j) && counts[j] == CountOf([], cs, dims, j)
  {
    forall j | 0 <= j < |cs| ensures sums[j] == SumsOf([], cs, dims, j) && counts[j] == CountOf([], cs, dims, j) {
      forall d | 0 <= d < dims ensures SumOf([], cs, dims, j, d) == 0.0 { }
    }
  }

  // -------------------------------------------------------------- the reduce

  method AddPartial(sums: seq<seq<real>>, counts: seq<nat>, p: Partial, k: nat, dims: nat)
    returns (sums': seq<seq<real>>, counts': seq<nat>)
    requires |sums| == |counts| == k && forall j :: 0 <= j < k ==> |sums[j]| == dims
    requires Fits(p, k, dims)
    ensures |sums'| == |counts'| == k
    ensures forall j :: 0 <= j < k ==> counts'[j] == counts[j] + p.counts[j] && |sums'[j]| == dims
    ensures forall j, d :: 0 <= j < k && 0 <= d < dims ==> sums'[j][d] == sums[j][d] + p.sums[j][d]
  {
    sums', counts' := sums, counts;
    for j := 0 to k
      invariant |sums'| == |counts'| == k
      invariant forall t :: 0 <= t < j ==> counts'[t] == counts[t] + p.counts[t] && |sums'[t]| == dims
      invariant forall t, d :: 0 <= t < j && 0 <= d < dims ==> sums'[t][d] == sums[t][d] + p.sums[t][d]
      invariant forall t :: j <= t < k ==> counts'[t] == counts[t] && sums'[t] == sums[t]
    {
      counts' := counts'[j := counts'[j] + p.counts[j]];
      var row := AddPoint(sums'[j], p.sums[j]);
      sums' := sums'[j := row];
    }
  }

  lemma MorePartials(ps: seq<Partial>, i: nat, j: nat, d: nat, k: nat, dims: nat)
    requires i < |ps| && FitsPartials(ps, k, dims) && j < k
    ensures TotalCount(ps[..i + 1], j) == TotalCount(ps[..i], j) + ps[i].counts[j]
    ensures d < dims ==> TotalSum(ps[..i + 1], j, d) == TotalSum(ps[..i], j, d) + ps[i].sums[j][d]
    ensures TotalInertia(ps[..i + 1]) == TotalInertia(ps[..i]) + ps[i].inertia
  {
    assert ps[..i + 1][..i] == ps[..i];
  }

  method ReducePartials(ps: seq<Partial>, prev: seq<Point>) returns (centroids: seq<Point>, inertia: real)
    requires |prev| >= 1 && Shaped(prev, |prev[0]|) && FitsPartials(ps, |prev|, |prev[0]|)
    ensures centroids == Reduced(ps, prev, |prev[0]|) && inertia == TotalInertia(ps)
    ensures |centroids| == |prev| && forall j :: 0 <= j < |prev| && TotalCount(ps, j) == 0 ==> centroids[j] == prev[j]
    ensures forall j :: 0 <= j < |prev| && TotalCount(ps, j) > 0 ==> |centroids[j]| == |prev[0]|
    ensures forall j, d :: 0 <= j < |prev| && TotalCount(ps, j) > 0 && 0 <= d < |prev[0]| ==>
              centroids[j][d] * TotalCount(ps, j) as real == TotalSum(ps, j, d)
  {
    var k, dims := |prev|, |prev[0]|;
    var sums := seq(k, _ => seq(dims, _ => 0.0));
    var counts: seq<nat> := seq(k, _ => 0);
    inertia := 0.0;
    hide TotalCount, TotalSum, TotalInertia;
    NoPartials();
    var i := 0;
    while i < |ps|
      invariant i <= |ps| && |sums| == |counts| == k && inertia == TotalInertia(ps[..i])
      invariant forall j :: 0 <= j < k ==> counts[j] == TotalCount(ps[..i], j) && |sums[j]| == dims
      invariant forall j, d :: 0 <= j < k && 0 <= d < dims ==> sums[j][d] == TotalSum(ps[..i], j, d)
    {
      forall j | 0 <= j < k ensures TotalCount(ps[..i + 1], j) == TotalCount(ps[..i], j) + ps[i].counts[j] {
        MorePartials(ps, i, j, 0, k, dims);
      }
      forall j, d | 0 <= j < k && 0 <= d < dims
        ensures TotalSum(ps[..i + 1], j, d) == TotalSum(ps[..i], j, d) + ps[i].sums[j][d]
      {
        MorePartials(ps, i, j, d, k, dims);
      }
      MorePartials(ps, i, 0, 0, k, dims);
      sums, counts := AddPartial(sums, counts, ps[i], k, dims);
      inertia := inertia + ps[i].inertia;
      i := i + 1;
    }
    assert ps[..i] == ps;
    centroids := seq(k, j requires 0 <= j < k => Centroid(sums[j], counts[j], prev[j]));
    forall j | 0 <= j < k ensures sums[j] == TotalSums(ps, j, dims) {
      assert |sums[j]| == |TotalSums(ps, j, dims)|;
      forall d | 0 <= d < dims ensures sums[j][d] == TotalSums(ps, j, dims)[d] { }
    }
    hide *;
    ReducedToMeans(ps, prev, dims);
  }

  /** Each reduced centroid is a mean: times its count it is the sum the partials hold. */
  lemma ReducedToMeans(ps: seq<Partial>, prev: seq<Point>, dims: nat)
    ensures forall j :: 0 <= j < |prev| && TotalCount(ps, j) == 0 ==> Reduced(ps, prev, dims)[j] == prev[j]
    ensures forall j :: 0 <= j < |prev| && TotalCount(ps, j) > 0 ==> |Reduced(ps, prev, dims)[j]| == dims
    ensures forall j, d :: 0 <= j < |prev| && TotalCount(ps, j) > 0 && 0 <= d < dims ==>
              Reduced(ps, prev, dims)[j][d] * TotalCount(ps, j) as real == TotalSum(ps, j, d)
  {
    hide TotalCount, TotalSum;
    forall j, d | 0 <= j < |prev| && TotalCount(ps, j) > 0 && 0 <= d < dims
      ensures Reduced(ps, prev, dims)[j][d] * TotalCount(ps, j) as real == TotalSum(ps, j, d)
    {
      QuotientTimes(TotalSum(ps, j, d), TotalCount(ps, j) as real);
    }
  }

  lemma NoPartials()
    ensures TotalInertia([]) == 0.0 && forall j :: TotalCount([], j) == 0
    ensures forall j, d :: TotalSum([], j, d) == 0.0
  {
  }

  // -------------------------------------------------------------- whole runs

  /** The centroids after `t` iterations in one pass each over all the rows. */
  function Iterate(rows: seq<Point>, cs: seq<Point>, dims: nat, t: nat): (r: seq<Point>)
    requires Shaped(cs, dims)
    ensures Shaped(r, dims) && |r| == |cs|
  {
    if t == 0 then cs else Lloyd(rows, Iterate(rows, cs, dims, t - 1), dims)
  }

  function Cleaned(shards: seq<seq<Point>>): (r: seq<seq<Point>>)
    ensures |r| == |shards| && forall s :: 0 <= s < |shards| ==> r[s] == NonBlank(shards[s])
  {
    seq(|shards|, s requires 0 <= s < |shards| => NonBlank(shards[s]))
  }

  /** Cleaning drops the blank rows and keeps every other as often as it occurs. */
  lemma {:induction false} CleaningDropsTheBlank(rows: seq<Point>, p: Point)
    ensures multiset(NonBlank(rows))[p] == if |p| == 0 then 0 else multiset(rows)[p]
  {
    if rows != [] {
      var n := |rows| - 1;
      CleaningDropsTheBlank(rows[..n], p);
      assert rows == rows[..n] + [rows[n]];
    }
  }

  lemma {:induction false} NothingToClean(rows: seq<Point>)
    requires forall i :: 0 <= i < |rows| ==> rows[i] != []
    ensures NonBlank(rows) == rows
  {
    if rows != [] { NothingToClean(rows[..|rows| - 1]); }
  }

  /** The round-robin shards of rows with at least one value each are shards the run
      theorem applies to. */
  lemma RoundRobinShardsServe(rows: seq<Point>, n: nat)
    requires n > 0 && forall i :: 0 <= i < |rows| ==> rows[i] != []
    ensures multiset(Flatten(Cleaned(Shards(rows, n)))) == multiset(rows)
  {
    hide Flatten, Shard, NonBlank;
    forall s | 0 <= s < n ensures NonBlank(Shards(rows, n)[s]) == Shards(rows, n)[s] {
      ShardIsEveryNth(rows, s, n);
      NothingToClean(Shard(rows, s, n));
    }
    assert Cleaned(Shards(rows, n)) == Shards(rows, n);
    RoundRobinPartitions(rows, n);
  }

  lemma {:induction false} FlattenReordered(a: seq<seq<Point>>, b: seq<seq<Point>>)
    requires multiset(a) == multiset(b)
    ensures multiset(Flatten(a)) == multiset(Flatten(b))
  {
    if a == [] {
      assert |b| == |multiset(b)| == 0;
    } else {
      var i := Occurrence(a, b);
      FlattenReordered(a[..|a| - 1], b[..i] + b[i + 1..]);
      FlattenMiddle(b, i);
    }
  }

  function Without<T>(b: seq<T>, i: nat): (r: seq<T>)
    requires i < |b|
    ensures |r| == |b| - 1
  {
    b[..i] + b[i + 1..]
  }

  lemma WithoutKeepsLast<T>(b: seq<T>, i: nat)
    requires i < |b| - 1
    ensures var n := |b| - 1; Without(b, i)[..n - 1] == Without(b[..n], i) && Without(b, i)[n - 1] == b[n] && b[..n][i] == b[i]
  {
  }

  /** If leaving out row group `i` takes its rows from the prefix, it takes them from the
      whole. */
  lemma FlattenMiddleStep(b: seq<seq<Point>>, i: nat)
    requires i < |b| - 1
    requires multiset(Flatten(b[..|b| - 1])) == multiset(Flatten(Without(b[..|b| - 1], i))) + multiset(b[i])
    ensures multiset(Flatten(b)) == multiset(Flatten(Without(b, i))) + multiset(b[i])
  {
    hide *;
    var n := |b| - 1;
    FlattenLast(b);
    FlattenLast(Without(b, i));
    WithoutKeepsLast(b, i);
    SwapLast(multiset(Flatten(Without(b[..n], i))), multiset(b[i]), multiset(b[n]));
  }

  lemma WithoutTheLast<T>(b: seq<T>)
    requires b != []
    ensures Without(b, |b| - 1) == b[..|b| - 1]
  {
  }

  lemma {:induction false} FlattenMiddle(b: seq<seq<Point>>, i: nat)
    requires i < |b|
    ensures multiset(Flatten(b)) == multiset(Flatten(Without(b, i))) + multiset(b[i])
  {
    hide *;
    if i == |b| - 1 {
      FlattenLast(b);
      WithoutTheLast(b);
    } else {
      FlattenMiddle(b[..|b| - 1], i);
      FlattenMiddleStep(b, i);
    }
  }

  /** A listing holds each shard at most once. */
  ghost predicate Listing(listed: seq<nat>, n: nat) {
    Distinct(listed) && forall i :: 0 <= i < |listed| ==> listed[i] < n
  }

  /** Partials listed in any order reduce to one iteration over all the rows. */
  lemma AnyListing(shards: seq<seq<Point>>, listed: seq<nat>, rows: seq<Point>, cs: seq<Point>, dims: nat)
    requires |cs| >= 1 && Listing(listed, |shards|) && |listed| == |shards|
    requires multiset(Flatten(shards)) == multiset(rows)
    ensures Reduced(Partials(Pull(shards, listed), cs, dims), cs, dims) == Lloyd(rows, cs, dims)
    ensures TotalInertia(Partials(Pull(shards, listed), cs, dims)) == Inertia(rows, cs, dims)
  {
    hide Reduced, Partials, Lloyd, Inertia, TotalInertia;
    PermutedMultiset(shards, listed);
    FlattenReordered(Pull(shards, listed), shards);
    ShardingInvariance(Pull(shards, listed), rows, cs, dims);
  }

  ghost predicate NeverRises(history: seq<real>) {
    forall s, t :: 0 <= s <= t < |history| ==> history[t] <= history[s]
  }

  /** Over any number of iterations the cost never goes up. */
  lemma {:induction false} CostNeverRises(rows: seq<Point>, cs: seq<Point>, dims: nat, s: nat, t: nat)
    requires Shaped(cs, dims) && s <= t
    ensures Inertia(rows, Iterate(rows, cs, dims, t), dims) <= Inertia(rows, Iterate(rows, cs, dims, s), dims)
    decreases t
  {
    hide Inertia, Lloyd;
    if s < t {
      CostNeverRises(rows, cs, dims, s, t - 1);
      LloydDescends(rows, Iterate(rows, cs, dims, t - 1), dims);
    }
  }

  // ------------------------------------------------ what a job delivers

  predicate AllParse(parse: Bytes -> Option<Json>, picked: seq<Listed>) {
    forall m :: 0 <= m < |picked| ==> parse(picked[m].bytes).Some?
  }

  function Loads(parse: Bytes -> Option<Json>, picked: seq<Listed>): (js: seq<Json>)
    requires AllParse(parse, picked)
    ensures |js| == |picked| && forall m :: 0 <= m < |picked| ==> js[m] == parse(picked[m].bytes).value
  {
    seq(|picked|, m requires 0 <= m < |picked| => parse(picked[m].bytes).value)
  }

  predicate AllPartials(js: seq<Json>) {
    forall m :: 0 <= m < |js| ==> js[m].PartialJson?
  }

  function PartialsIn(js: seq<Json>): (ps: seq<Partial>)
    requires AllPartials(js)
    ensures |ps| == |js| && forall m :: 0 <= m < |js| ==> ps[m] == js[m].partial
  {
    seq(|js|, m requires 0 <= m < |js| => js[m].partial)
  }

  /** The driver fetches what it takes for partials, in the order listed. */
  method Collect(parse: Bytes -> Option<Json>, listed: seq<Listed>, iteration: nat) returns (r: Result<seq<Json>, Error>)
    ensures r.Success? <==> AllParse(parse, Picked(listed))
    ensures r.Success? ==> r.value == Loads(parse, Picked(listed))
    ensures r.Failure? ==> r.error == NotJson(iteration)
  {
    hide EndsWith;
    var partials := [];
    var i := 0;
    while i < |listed|
      invariant i <= |listed| && AllParse(parse, Picked(listed[..i]))
      invariant partials == Loads(parse, Picked(listed[..i]))
    {
      var a := listed[i];
      assert listed[..i + 1][..i] == listed[..i];
      if EndsWith(a.key, METRICS_NAME) {
        var partial := parse(a.bytes);
        if partial.None? {
          OneDoesNotParse(parse, listed, i);
          return Failure(NotJson(iteration));
        }
        partials := partials + [partial.value];
      }
      i := i + 1;
    }
    assert listed[..i] == listed;
    r := Success(partials);
  }

  lemma OneDoesNotParse(parse: Bytes -> Option<Json>, listed: seq<Listed>, i: nat)
    requires i < |listed| && EndsWith(listed[i].key, METRICS_NAME) && parse(listed[i].bytes).None?
    ensures !AllParse(parse, Picked(listed))
  {
    PickedMeans(listed);
    hide EndsWith, Picked;
    assert listed[i] in Picked(listed);
  }

  /** What one iteration's job needs to give the driver: to succeed, with one file for
      each shard. */
  predicate Delivers(end: JobEnd, n: nat) {
    end.Done? && |Picked(end.listed)| == n
  }

  /** What the driver saw comes from a life of the service. */
  ghost predicate Witnessed(it: Iteration, parse: Bytes -> Option<Json>, listed: seq<Listed>)
    requires |it.centroids| >= 1
  {
    exists h :: Observed(h, it, parse, listed)
  }

  ghost function ShardOf(key: string, job: string, iteration: nat, n: nat): (s: nat)
    requires key in ShardFiles(job, iteration, n)
    ensures s < n && key == ShardFile(job, iteration, s)
  {
    var s: nat :| s < n && ShardFiles(job, iteration, n)[s] == key;
    s
  }

  /** Which shard each file belongs to. */
  ghost function OrderOf(picked: seq<Listed>, job: string, iteration: nat, n: nat): (order: seq<nat>)
    requires OnlyShards(picked, job, iteration, n)
    ensures |order| == |picked|
    ensures forall m :: 0 <= m < |picked| ==> order[m] < n && picked[m].key == ShardFile(job, iteration, order[m])
  {
    seq(|picked|, m requires 0 <= m < |picked| => ShardOf(picked[m].key, job, iteration, n))
  }

  lemma OrderIsListing(picked: seq<Listed>, job: string, iteration: nat, n: nat)
    requires OnlyShards(picked, job, iteration, n) && KeysDiffer(picked)
    ensures Listing(OrderOf(picked, job, iteration, n), n)
  {
    hide ShardFile, OnlyShards;
  }

  lemma PickedIsRight(h: History, it: Iteration, parse: Bytes -> Option<Json>, listed: seq<Listed>, m: nat, s: nat)
    requires |it.centroids| >= 1 && Observed(h, it, parse, listed) && s < |it.shards|
    requires m < |Picked(listed)| && Picked(listed)[m].key == ShardFile(h.job, it.number, s)
    ensures parse(Picked(listed)[m].bytes) == Some(PartialJson(PartialOf(NonBlank(it.shards[s]), it.centroids, it.dims)))
  {
    PickedMeans(listed);
    hide Observed, Picked, ShardFile, Readable, NonBlank, EndsWith;
    var l := Picked(listed)[m];
    assert l in listed;
    var i: nat :| i < |listed| && listed[i] == l;
    ShardIsRight(h, it, parse, listed, s, i);
  }

  /** The files' partials when each is the worker's output for the shard it is named for. */
  lemma LoadsArePartials(parse: Bytes -> Option<Json>, picked: seq<Listed>, shards: seq<seq<Point>>, order: seq<nat>,
                         cs: seq<Point>, dims: nat)
    requires |cs| >= 1 && |order| == |picked| && forall m :: 0 <= m < |order| ==> order[m] < |shards|
    requires forall m :: 0 <= m < |picked| ==> parse(picked[m].bytes) == Some(PartialJson(PartialOf(NonBlank(shards[order[m]]), cs, dims)))
    ensures AllParse(parse, picked) && AllPartials(Loads(parse, picked))
    ensures PartialsIn(Loads(parse, picked)) == Partials(Pull(Cleaned(shards), order), cs, dims)
  {
    hide PartialOf, NonBlank;
  }

  /** A right count is every shard's own partial, in the order listed. */
  lemma LoadsEveryShard(h: History, it: Iteration, parse: Bytes -> Option<Json>, listed: seq<Listed>) returns (order: seq<nat>)
    requires |it.centroids| >= 1 && Observed(h, it, parse, listed) && |Picked(listed)| == |it.shards|
    ensures AllParse(parse, Picked(listed)) && AllPartials(Loads(parse, Picked(listed)))
    ensures Listing(order, |it.shards|) && |order| == |it.shards|
    ensures forall i :: 0 <= i < |order| ==> order[i] < |Cleaned(it.shards)|
    ensures PartialsIn(Loads(parse, Picked(listed))) == Partials(Pull(Cleaned(it.shards), order), it.centroids, it.dims)
  {
    hide *;
    var picked := Picked(listed);
    CountIsRightWhen(h, it, parse, listed);
    OrderIsListing(picked, h.job, it.number, |it.shards|);
    order := OrderOf(picked, h.job, it.number, |it.shards|);
    forall m | 0 <= m < |picked| ensures parse(picked[m].bytes) == Some(PartialJson(PartialOf(NonBlank(it.shards[order[m]]), it.centroids, it.dims))) {
      PickedIsRight(h, it, parse, listed, m, order[m]);
    }
    LoadsArePartials(parse, picked, it.shards, order, it.centroids, it.dims);
  }

  lemma PartialsFit(shards: seq<seq<Point>>, cs: seq<Point>, dims: nat)
    requires |cs| >= 1
    ensures FitsPartials(Partials(shards, cs, dims), |cs|, dims)
  {
  }

  /** A right count reduces to one iteration over all the rows. */
  lemma RightCountReduces(it: Iteration, parse: Bytes -> Option<Json>, listed: seq<Listed>, rows: seq<Point>)
    requires |it.centroids| >= 1 && Witnessed(it, parse, listed) && |Picked(listed)| == |it.shards|
    requires multiset(Flatten(Cleaned(it.shards))) == multiset(rows)
    ensures AllParse(parse, Picked(listed)) && AllPartials(Loads(parse, Picked(listed)))
    ensures var ps := PartialsIn(Loads(parse, Picked(listed)));
            && FitsPartials(ps, |it.centroids|, it.dims)
            && Reduced(ps, it.centroids, it.dims) == Lloyd(rows, it.centroids, it.dims)
            && TotalInertia(ps) == Inertia(rows, it.centroids, it.dims)
  {
    hide *;
    var h := SomeHistory(it, parse, listed);
    var order := LoadsEveryShard(h, it, parse, listed);
    PartialsFit(Pull(Cleaned(it.shards), order), it.centroids, it.dims);
    AnyListing(Cleaned(it.shards), order, rows, it.centroids, it.dims);
  }

  lemma SomeHistory(it: Iteration, parse: Bytes -> Option<Json>, listed: seq<Listed>) returns (h: History)
    requires |it.centroids| >= 1 && Witnessed(it, parse, listed)
    ensures Observed(h, it, parse, listed)
  {
    hide Observed;
    h :| Observed(h, it, parse, listed);
  }

  ghost predicate Recorded(history: seq<real>, rows: seq<Point>, start: seq<Point>, dims: nat)
    requires Shaped(start, dims)
  {
    forall s :: 0 <= s < |history| ==> history[s] == Inertia(rows, Iterate(rows, start, dims, s), dims)
  }

  lemma RecordedMore(history: seq<real>, x: real, rows: seq<Point>, start: seq<Point>, dims: nat)
    requires Shaped(start, dims) && Recorded(history, rows, start, dims)
    requires x == Inertia(rows, Iterate(rows, start, dims, |history|), dims)
    ensures Recorded(history + [x], rows, start, dims)
  {
    hide Inertia, Iterate;
  }

  lemma RecordedNeverRises(history: seq<real>, rows: seq<Point>, start: seq<Point>, dims: nat)
    requires Shaped(start, dims) && Recorded(history, rows, start, dims)
    ensures NeverRises(history)
  {
    hide Inertia, Iterate;
    forall a, b | 0 <= a <= b < |history| ensures history[b] <= history[a] {
      CostNeverRises(rows, start, dims, a, b);
    }
  }

  /** One iteration from its job's end: collect, count, reduce. It returns exactly when the
      job succeeded and the count is right, and then it is one pass over all the rows. */
  method RunIteration(shards: seq<seq<Point>>, centroids: seq<Point>, end: JobEnd, iteration: nat,
                      parse: Bytes -> Option<Json>, ghost rows: seq<Point>)
    returns (r: Result<(seq<Point>, real), Error>)
    requires |centroids| >= 1 && Shaped(centroids, |centroids[0]|)
    requires end.Done? ==> Witnessed(Iteration(iteration, shards, centroids, |centroids[0]|), parse, end.listed)
    requires multiset(Flatten(Cleaned(shards))) == multiset(rows)
    ensures r.Success? <==> Delivers(end, |shards|)
    ensures r.Success? <==> end.Done? && |Picked(end.listed)| == |shards|
    ensures r.Success? ==> r.value == (Lloyd(rows, centroids, |centroids[0]|), Inertia(rows, centroids, |centroids[0]|))
    ensures end.Failed? ==> r == Failure(JobEnded(iteration))
    ensures end.OutOfTime? ==> r == Failure(TimedOut(iteration))
    ensures end.Done? && r.Failure? ==>
              (r.error == NotJson(iteration) || r.error == WrongCount(iteration))
              && (r.error == NotJson(iteration) <==> exists m :: 0 <= m < |Picked(end.listed)| && parse(Picked(end.listed)[m].bytes).None?)
  {
    hide Flatten, Inertia, Lloyd, Reduced, TotalInertia, Cleaned, FitsPartials, Witnessed, Picked, Loads, AllPartials;
    match end
    case Failed => return Failure(JobEnded(iteration));
    case OutOfTime => return Failure(TimedOut(iteration));
    case Done(listed) =>
      if |Picked(listed)| == |shards| {
        RightCountReduces(Iteration(iteration, shards, centroids, |centroids[0]|), parse, listed, rows);
      }
      var got := Collect(parse, listed, iteration);
      if got.Failure? { return Failure(got.error); }
      if |got.value| != |shards| { return Failure(WrongCount(iteration)); }
      var next, inertia := ReducePartials(PartialsIn(got.value), centroids);
      r := Success((next, inertia));
  }

  /** What the driver sees of any iteration it submits comes from a life of the service. */
  ghost predicate Genuine(job: (nat, seq<Point>) -> JobEnd, shards: seq<seq<Point>>, parse: Bytes -> Option<Json>, k: nat, dims: nat)
    requires k >= 1
  {
    forall t: nat, cs :: |cs| == k && job(t, cs).Done? ==> Witnessed(Iteration(t, shards, cs, dims), parse, job(t, cs).listed)
  }

  /** The first jobs, each submitted with one pass more over the rows, all deliver. */
  ghost predicate AllDeliver(job: (nat, seq<Point>) -> JobEnd, iterations: nat, n: nat, rows: seq<Point>, start: seq<Point>, dims: nat)
    requires Shaped(start, dims)
  {
    forall t :: 0 <= t < iterations ==> Delivers(job(t, Iterate(rows, start, dims, t)), n)
  }

  lemma OneMoreDelivery(job: (nat, seq<Point>) -> JobEnd, t: nat, n: nat, rows: seq<Point>, start: seq<Point>, dims: nat)
    requires Shaped(start, dims) && AllDeliver(job, t, n, rows, start, dims)
    ensures AllDeliver(job, t + 1, n, rows, start, dims) <==> Delivers(job(t, Iterate(rows, start, dims, t)), n)
  {
    hide Delivers, Shaped, Iterate;
  }

  lemma FewerDeliver(job: (nat, seq<Point>) -> JobEnd, t: nat, iterations: nat, n: nat, rows: seq<Point>, start: seq<Point>, dims: nat)
    requires Shaped(start, dims) && t <= iterations
    ensures AllDeliver(job, iterations, n, rows, start, dims) ==> AllDeliver(job, t, n, rows, start, dims)
    ensures AllDeliver(job, 0, n, rows, start, dims)
  {
    hide Delivers, Shaped, Iterate;
  }

  lemma OneJob(job: (nat, seq<Point>) -> JobEnd, shards: seq<seq<Point>>, parse: Bytes -> Option<Json>, t: nat, cs: seq<Point>, dims: nat)
    requires |cs| >= 1 && Genuine(job, shards, parse, |cs|, dims) && job(t, cs).Done?
    ensures Witnessed(Iteration(t, shards, cs, dims), parse, job(t, cs).listed)
  {
    hide Witnessed;
  }

  /** The centroids and costs so far are those of one pass per iteration. */
  ghost predicate OnePassEach(centroids: seq<Point>, history: seq<real>, rows: seq<Point>, start: seq<Point>, dims: nat)
    requires Shaped(start, dims)
  {
    centroids == Iterate(rows, start, dims, |history|) && Recorded(history, rows, start, dims)
  }

  lemma OneMorePass(centroids: seq<Point>, history: seq<real>, rows: seq<Point>, start: seq<Point>, dims: nat)
    requires Shaped(start, dims) && OnePassEach(centroids, history, rows, start, dims)
    requires |centroids| >= 1
    ensures OnePassEach(Lloyd(rows, centroids, dims), history + [Inertia(rows, centroids, dims)], rows, start, dims)
  {
    hide Inertia, Lloyd, Recorded, Shaped;
    RecordedMore(history, Inertia(rows, centroids, dims), rows, start, dims);
  }

  lemma PassesNeverRise(centroids: seq<Point>, history: seq<real>, rows: seq<Point>, start: seq<Point>, dims: nat)
    requires Shaped(start, dims) && OnePassEach(centroids, history, rows, start, dims)
    ensures NeverRises(history)
  {
    hide Recorded, NeverRises, Iterate;
    RecordedNeverRises(history, rows, start, dims);
  }

  lemma NoPassYet(rows: seq<Point>, start: seq<Point>, dims: nat)
    requires Shaped(start, dims)
    ensures OnePassEach(start, [], rows, start, dims)
  {
  }

  /** The driver, whatever becomes of its jobs: it returns exactly when every iteration's
      job succeeds with nothing but its shards' results named as metrics, and then the
      centroids are those of one pass per iteration over all the rows and the recorded
      costs never rise. Otherwise it raises in the first iteration that does not. */
  method RunKMeans(shards: seq<seq<Point>>, start: seq<Point>, iterations: nat, job: (nat, seq<Point>) -> JobEnd,
                   parse: Bytes -> Option<Json>, ghost rows: seq<Point>)
    returns (r: Result<Clustering, Error>)
    requires |start| >= 1 && Shaped(start, |start[0]|) && Genuine(job, shards, parse, |start|, |start[0]|)
    requires multiset(Flatten(Cleaned(shards))) == multiset(rows)
    ensures r.Success? <==> AllDeliver(job, iterations, |shards|, rows, start, |start[0]|)
    ensures r.Success? ==> |r.value.history| == iterations && NeverRises(r.value.history)
    ensures r.Success? ==> OnePassEach(r.value.centroids, r.value.history, rows, start, |start[0]|)
    ensures r.Failure? ==> r.error.iteration < iterations && AllDeliver(job, r.error.iteration, |shards|, rows, start, |start[0]|)
                           && !Delivers(job(r.error.iteration, Iterate(rows, start, |start[0]|, r.error.iteration)), |shards|)
  {
    hide Flatten, Inertia, Lloyd, Cleaned, NeverRises, Coord, Recorded, Witnessed, Delivers, AllDeliver, Genuine, Iterate, AllParse, Picked;
    ghost var n, dims := |shards|, |start[0]|;
    var centroids, history := start, [];
    NoPassYet(rows, start, dims);
    FewerDeliver(job, 0, iterations, n, rows, start, dims);
    hide OnePassEach;
    var t := 0;
    while t < iterations
      invariant t <= iterations && |history| == t && |centroids| == |start|
      invariant OnePassEach(centroids, history, rows, start, dims)
      invariant AllDeliver(job, t, n, rows, start, dims)
    {
      var end := job(t, centroids);
      PassesSoFar(centroids, history, rows, start, dims);
      if end.Done? { OneJob(job, shards, parse, t, centroids, dims); }
      OneMoreDelivery(job, t, n, rows, start, dims);
      FewerDeliver(job, t + 1, iterations, n, rows, start, dims);
      var r' := RunIteration(shards, centroids, end, t, parse, rows);
      if r'.Failure? { return Failure(r'.error); }
      OneMorePass(centroids, history, rows, start, dims);
      centroids, history := r'.value.0, history + [r'.value.1];
      t := t + 1;
    }
    PassesNeverRise(centroids, history, rows, start, dims);
    r := Success(Clustering(centroids, history));
  }

  lemma PassesSoFar(centroids: seq<Point>, history: seq<real>, rows: seq<Point>, start: seq<Point>, dims: nat)
    requires Shaped(start, dims) && OnePassEach(centroids, history, rows, start, dims)
    ensures centroids == Iterate(rows, start, dims, |history|)
    ensures |centroids| == |start| >= 1 && |centroids[0]| == dims && Shaped(centroids, dims)
  {
    hide Recorded;
  }
}
