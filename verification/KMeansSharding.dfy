/** Sharding does not change the iteration: whatever the partition of the rows, and in
    whatever order the partials come back, the reduce is one pass over all rows. */
module KMeansSharding {
  import opened Prelude
  import opened Permutations
  import opened KMeansSpec

  lemma {:induction false} SumRowsConcat(a: seq<Point>, b: seq<Point>, f: Point -> real)
    ensures SumRows(a + b, f) == SumRows(a, f) + SumRows(b, f)
  {
    if b == [] {
      assert a + b == a;
    } else {
      assert (a + b)[..|a + b| - 1] == a + b[..|b| - 1];
      SumRowsConcat(a, b[..|b| - 1], f);
    }
  }

  lemma {:induction false} CountConcat(a: seq<Point>, b: seq<Point>, cs: seq<Point>, dims: nat, j: nat)
    requires |cs| >= 1
    ensures CountOf(a + b, cs, dims, j) == CountOf(a, cs, dims, j) + CountOf(b, cs, dims, j)
  {
    hide Nearest;
    if b == [] {
      assert a + b == a;
    } else {
      assert (a + b)[..|a + b| - 1] == a + b[..|b| - 1];
      CountConcat(a, b[..|b| - 1], cs, dims, j);
    }
  }

  /** A sum over rows does not depend on their order. */
  lemma {:induction false} SumRowsReordered(a: seq<Point>, b: seq<Point>, f: Point -> real)
    requires multiset(a) == multiset(b)
    ensures SumRows(a, f) == SumRows(b, f)
  {
    if a == [] {
      assert |b| == |multiset(b)| == 0;
    } else {
      var n := |a| - 1;
      var i := Occurrence(a, b);
      SumRowsReordered(a[..n], b[..i] + b[i + 1..], f);
      assert b == b[..i] + [b[i]] + b[i + 1..];
      SumRowsConcat(b[..i] + [b[i]], b[i + 1..], f);
      SumRowsConcat(b[..i], [b[i]], f);
      SumRowsConcat(b[..i], b[i + 1..], f);
      assert [b[i]][..0] == [];
      assert SumRows([b[i]], f) == SumRows([], f) + f(b[i]);
    }
  }

  /** Where `a`'s last element occurs in a reordering `b`. */
  lemma Occurrence<T>(a: seq<T>, b: seq<T>) returns (i: nat)
    requires a != [] && multiset(a) == multiset(b)
    ensures i < |b| && b[i] == a[|a| - 1]
    ensures multiset(a[..|a| - 1]) == multiset(b[..i] + b[i + 1..])
  {
    var n := |a| - 1;
    assert a[n] in multiset(b);
    i :| 0 <= i < |b| && b[i] == a[n];
    assert a == a[..n] + [a[n]];
    assert b == b[..i] + [b[i]] + b[i + 1..];
    assert multiset(a) == multiset(a[..n]) + multiset{a[n]};
    assert multiset(b) == multiset(b[..i] + b[i + 1..]) + multiset{b[i]};
    Cancel(multiset(a[..n]), multiset(b[..i] + b[i + 1..]), a[n]);
  }

  lemma {:induction false} CountReordered(a: seq<Point>, b: seq<Point>, cs: seq<Point>, dims: nat, j: nat)
    requires |cs| >= 1 && multiset(a) == multiset(b)
    ensures CountOf(a, cs, dims, j) == CountOf(b, cs, dims, j)
  {
    hide Nearest;
    if a == [] {
      assert |b| == |multiset(b)| == 0;
    } else {
      var n := |a| - 1;
      var i := Occurrence(a, b);
      CountReordered(a[..n], b[..i] + b[i + 1..], cs, dims, j);
      assert b == b[..i] + [b[i]] + b[i + 1..];
      CountConcat(b[..i] + [b[i]], b[i + 1..], cs, dims, j);
      CountConcat(b[..i], [b[i]], cs, dims, j);
      CountConcat(b[..i], b[i + 1..], cs, dims, j);
      assert [b[i]][..0] == [];
      assert CountOf([b[i]], cs, dims, j) == CountOf([], cs, dims, j) + if Nearest(b[i], cs, dims) == j then 1 else 0;
    }
  }

  // --------------------------------------------- partials add up to the whole

  lemma {:induction false} PartialsAddUp(shards: seq<seq<Point>>, cs: seq<Point>, dims: nat, j: nat, d: nat)
    requires |cs| >= 1 && j < |cs| && d < dims
    ensures TotalCount(Partials(shards, cs, dims), j) == CountOf(Flatten(shards), cs, dims, j)
    ensures TotalSum(Partials(shards, cs, dims), j, d) == SumOf(Flatten(shards), cs, dims, j, d)
    ensures TotalInertia(Partials(shards, cs, dims)) == Inertia(Flatten(shards), cs, dims)
  {
    hide CountOf, SumRows, Member, Cost;
    if shards != [] {
      var n := |shards| - 1;
      PartialsAddUp(shards[..n], cs, dims, j, d);
      assert Partials(shards, cs, dims)[..n] == Partials(shards[..n], cs, dims);
      CountConcat(Flatten(shards[..n]), shards[n], cs, dims, j);
      SumRowsConcat(Flatten(shards[..n]), shards[n], Member(cs, dims, j, d));
      SumRowsConcat(Flatten(shards[..n]), shards[n], Cost(cs, dims));
    } else {
      NoRows(cs, dims, j, d);
    }
  }

  lemma NoRows(cs: seq<Point>, dims: nat, j: nat, d: nat)
    requires |cs| >= 1
    ensures CountOf([], cs, dims, j) == 0 && SumOf([], cs, dims, j, d) == 0.0 && Inertia([], cs, dims) == 0.0
  {
  }

  lemma {:induction false} CountsAddUp(shards: seq<seq<Point>>, cs: seq<Point>, dims: nat, j: nat)
    requires |cs| >= 1 && j < |cs|
    ensures TotalCount(Partials(shards, cs, dims), j) == CountOf(Flatten(shards), cs, dims, j)
    ensures TotalInertia(Partials(shards, cs, dims)) == Inertia(Flatten(shards), cs, dims)
  {
    hide CountOf, SumRows, Cost;
    if shards != [] {
      var n := |shards| - 1;
      CountsAddUp(shards[..n], cs, dims, j);
      assert Partials(shards, cs, dims)[..n] == Partials(shards[..n], cs, dims);
      CountConcat(Flatten(shards[..n]), shards[n], cs, dims, j);
      SumRowsConcat(Flatten(shards[..n]), shards[n], Cost(cs, dims));
    } else {
      NoRows(cs, dims, j, 0);
    }
  }

  lemma SameSums(shards: seq<seq<Point>>, rows: seq<Point>, cs: seq<Point>, dims: nat, j: nat)
    requires |cs| >= 1 && j < |cs| && multiset(Flatten(shards)) == multiset(rows)
    ensures TotalSums(Partials(shards, cs, dims), j, dims) == SumsOf(rows, cs, dims, j)
    ensures TotalCount(Partials(shards, cs, dims), j) == CountOf(rows, cs, dims, j)
  {
    hide CountOf, SumRows, TotalCount, TotalSum, Flatten, Member;
    var ps := Partials(shards, cs, dims);
    var total, whole := TotalSums(ps, j, dims), SumsOf(rows, cs, dims, j);
    CountsAddUp(shards, cs, dims, j);
    CountReordered(Flatten(shards), rows, cs, dims, j);
    forall d | 0 <= d < dims ensures total[d] == whole[d] {
      PartialsAddUp(shards, cs, dims, j, d);
      SumRowsReordered(Flatten(shards), rows, Member(cs, dims, j, d));
    }
  }

  /** Reducing the partials of any partition of the rows is one Lloyd iteration over
      all of them, with the same cost. */
  lemma ShardingInvariance(shards: seq<seq<Point>>, rows: seq<Point>, cs: seq<Point>, dims: nat)
    requires |cs| >= 1 && multiset(Flatten(shards)) == multiset(rows)
    ensures Reduced(Partials(shards, cs, dims), cs, dims) == Lloyd(rows, cs, dims)
    ensures TotalInertia(Partials(shards, cs, dims)) == Inertia(rows, cs, dims)
  {
    hide CountOf, SumRows, TotalCount, TotalSums, SumsOf, TotalInertia, Flatten, Centroid, Cost;
    var ps := Partials(shards, cs, dims);
    forall j | 0 <= j < |cs| ensures Reduced(ps, cs, dims)[j] == Lloyd(rows, cs, dims)[j] {
      SameSums(shards, rows, cs, dims, j);
    }
    CountsAddUp(shards, cs, dims, 0);
    SumRowsReordered(Flatten(shards), rows, Cost(cs, dims));
  }

  // ------------------------------------------------------------ round robin

  /** How many rows shard `s` has been dealt out of `m`. */
  function Dealt(m: nat, s: nat, n: nat): nat
    requires s < n
  {
    (m + n - 1 - s) / n
  }

  lemma DealtStep(m: nat, s: nat, n: nat)
    requires s < n
    ensures m % n == s ==> Dealt(m, s, n) == m / n && Dealt(m + 1, s, n) == m / n + 1 && s + (m / n) * n == m
    ensures m % n != s ==> Dealt(m + 1, s, n) == Dealt(m, s, n)
  {
    var q, r := m / n, m % n;
    assert m == q * n + r;
    assert (q + 1) * n == q * n + n;
    if r == s {
      Quotient(q, n - 1, n);
      Quotient(q + 1, 0, n);
    } else if r < s {
      Quotient(q, r + n - 1 - s, n);
      Quotient(q, r + n - s, n);
    } else {
      Quotient(q + 1, r - 1 - s, n);
      Quotient(q + 1, r - s, n);
    }
  }

  lemma ShardStep(rows: seq<Point>, s: nat, n: nat)
    requires n > 0 && rows != []
    ensures var m := |rows| - 1; Shard(rows, s, n) == Shard(rows[..m], s, n) + if m % n == s then [rows[m]] else []
  {
  }

  /** A shard holds every `n`th row from `s` on. */
  ghost predicate EveryNth(shard: seq<Point>, rows: seq<Point>, s: nat, n: nat) {
    forall q :: 0 <= q < |shard| ==> s + q * n < |rows| && shard[q] == rows[s + q * n]
  }

  lemma EveryNthStep(shard: seq<Point>, rows: seq<Point>, s: nat, n: nat, more: seq<Point>)
    requires rows != [] && EveryNth(shard, rows[..|rows| - 1], s, n)
    requires more == [] || (more == [rows[|rows| - 1]] && s + |shard| * n == |rows| - 1)
    ensures EveryNth(shard + more, rows, s, n)
  {
    forall q | 0 <= q < |shard + more| ensures s + q * n < |rows| && (shard + more)[q] == rows[s + q * n] {
      if q < |shard| { assert shard[q] == rows[..|rows| - 1][s + q * n]; }
    }
  }

  /** Shard `s` is rows `s`, `s + n`, `s + 2n`, ... and nothing else. */
  lemma {:induction false} ShardIsEveryNth(rows: seq<Point>, s: nat, n: nat)
    requires s < n
    ensures |Shard(rows, s, n)| == Dealt(|rows|, s, n) && EveryNth(Shard(rows, s, n), rows, s, n)
  {
    if rows == [] {
      Quotient(0, n - 1 - s, n);
    } else {
      hide Shard, Dealt, EveryNth;
      var m := |rows| - 1;
      ShardIsEveryNth(rows[..m], s, n);
      ShardStep(rows, s, n);
      DealtStep(m, s, n);
      EveryNthStep(Shard(rows[..m], s, n), rows, s, n, if m % n == s then [rows[m]] else []);
    }
  }

  lemma FlattenLast(b: seq<seq<Point>>)
    requires b != []
    ensures multiset(Flatten(b)) == multiset(Flatten(b[..|b| - 1])) + multiset(b[|b| - 1])
  {
  }

  lemma SwapLast<T>(a: multiset<T>, b: multiset<T>, c: multiset<T>)
    ensures (a + b) + c == (a + c) + b && a + (b + c) == (a + b) + c
  {
  }

  lemma AppendOne<T>(s: seq<T>, x: T)
    ensures multiset(s + [x]) == multiset(s) + multiset{x}
  {
  }

  lemma {:induction false} FlattenUpdate(shards: seq<seq<Point>>, s: nat, x: Point)
    requires s < |shards|
    ensures multiset(Flatten(shards[s := shards[s] + [x]])) == multiset(Flatten(shards)) + multiset{x}
  {
    hide Flatten;
    var n := |shards| - 1;
    var shards' := shards[s := shards[s] + [x]];
    FlattenLast(shards);
    FlattenLast(shards');
    var front, last := multiset(Flatten(shards[..n])), multiset(shards[n]);
    if s == n {
      assert shards'[..n] == shards[..n];
      AppendOne(shards[n], x);
      SwapLast(front, last, multiset{x});
    } else {
      FlattenUpdate(shards[..n], s, x);
      assert shards'[..n] == shards[..n][s := shards[..n][s] + [x]];
      SwapLast(front, multiset{x}, last);
    }
  }

  lemma {:induction false} FlattenEmpty(shards: seq<seq<Point>>)
    requires forall s :: 0 <= s < |shards| ==> shards[s] == []
    ensures Flatten(shards) == []
  {
    if shards != [] { FlattenEmpty(shards[..|shards| - 1]); }
  }

  lemma NoShards(n: nat)
    requires n > 0
    ensures forall s :: 0 <= s < n ==> Shard([], s, n) == []
  {
  }

  /** The round-robin shards together hold every row exactly once. */
  lemma {:induction false} RoundRobinPartitions(rows: seq<Point>, n: nat)
    requires n > 0
    ensures multiset(Flatten(Shards(rows, n))) == multiset(rows)
  {
    hide Flatten, Shard;
    if rows == [] {
      NoShards(n);
      FlattenEmpty(Shards(rows, n));
    } else {
      var m := |rows| - 1;
      RoundRobinPartitions(rows[..m], n);
      var before := Shards(rows[..m], n);
      var s := m % n;
      FlattenUpdate(before, s, rows[m]);
      forall t | 0 <= t < n ensures Shards(rows, n)[t] == before[s := before[s] + [rows[m]]][t] {
        ShardStep(rows, t, n);
      }
      assert Shards(rows, n) == before[s := before[s] + [rows[m]]];
      assert rows == rows[..m] + [rows[m]];
    }
  }
}
