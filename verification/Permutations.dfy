/** Reorderings of sequences. */
module Permutations {

  /** `perm` reorders `cs` into `ds`. */
  ghost predicate Permutes<T>(perm: seq<nat>, cs: seq<T>, ds: seq<T>) {
    && |perm| == |cs| == |ds|
    && (forall i :: 0 <= i < |perm| ==> perm[i] < |cs| && ds[i] == cs[perm[i]])
    && (forall i, j :: 0 <= i < j < |perm| ==> perm[i] != perm[j])
  }

  function Pull<T>(s: seq<T>, at: seq<nat>): (r: seq<T>)
    requires forall i :: 0 <= i < |at| ==> at[i] < |s|
    ensures |r| == |at| && forall i :: 0 <= i < |at| ==> r[i] == s[at[i]]
  {
    seq(|at|, i requires 0 <= i < |at| => s[at[i]])
  }

  /** Values read through a permutation are the same multiset of values. */
  lemma {:induction false} PermutedMultiset<T>(s: seq<T>, perm: seq<nat>)
    requires |perm| == |s| && forall i :: 0 <= i < |perm| ==> perm[i] < |s|
    requires forall i, j :: 0 <= i < j < |perm| ==> perm[i] != perm[j]
    ensures multiset(Pull(s, perm)) == multiset(s)
  {
    if s != [] {
      var n := |s| - 1;
      var at := FindLast(perm, n);
      var rest := perm[..at] + perm[at + 1..];
      PermutedMultiset(s[..n], rest);
      var r := Pull(s, perm);
      assert Pull(s[..n], rest) == r[..at] + r[at + 1..];
      assert r == r[..at] + [r[at]] + r[at + 1..];
      assert s == s[..n] + [s[n]];
    }
  }

  /** A permutation of 0..n hits its last index. */
  lemma FindLast(perm: seq<nat>, n: nat) returns (at: nat)
    requires |perm| == n + 1 && forall i :: 0 <= i < |perm| ==> perm[i] <= n
    requires forall i, j :: 0 <= i < j < |perm| ==> perm[i] != perm[j]
    ensures at < |perm| && perm[at] == n
    ensures forall i :: 0 <= i < |perm| && i != at ==> perm[i] < n
  {
    assert perm[0] <= n;
    if n > 0 && forall k :: 0 <= k < |perm| ==> perm[k] != n {
      Pigeonhole(perm, n);
    }
    at :| 0 <= at < |perm| && perm[at] == n;
  }

  lemma {:induction false} Pigeonhole(xs: seq<nat>, n: nat)
    requires |xs| > n > 0 && forall i :: 0 <= i < |xs| ==> xs[i] < n
    ensures exists i, j :: 0 <= i < j < |xs| && xs[i] == xs[j]
  {
    if n == 1 {
      assert xs[0] == xs[1];
    } else if k :| 0 <= k < |xs| && xs[k] == n - 1 {
      var rest := xs[..k] + xs[k + 1..];
      if m :| 0 <= m < |rest| && rest[m] == n - 1 {
        var m' := if m < k then m else m + 1;
        assert xs[if m' < k then m' else k] == xs[if m' < k then k else m'];
      } else {
        Pigeonhole(rest, n - 1);
        var i, j :| 0 <= i < j < |rest| && rest[i] == rest[j];
        assert xs[if i < k then i else i + 1] == xs[if j < k then j else j + 1];
      }
    } else {
      Pigeonhole(xs, n - 1);
    }
  }

  lemma Cancel<T>(m: multiset<T>, n: multiset<T>, x: T)
    requires m + multiset{x} == n + multiset{x}
    ensures m == n
  {
    assert m == (m + multiset{x}) - multiset{x};
    assert n == (n + multiset{x}) - multiset{x};
  }
}
