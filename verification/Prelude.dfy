/** Small shared datatypes and the one search every insertion-ordered
    collection in the model needs. */
module Prelude {

  datatype Option<+T> = None | Some(value: T)

  datatype Result<+T, +E> = Success(value: T) | Failure(error: E)

  type Bytes = seq<bv8>

  /** The hash, taken as injective: a digest is what it was computed from. */
  datatype Digest = Digest(of: Bytes)

  /** Index of the first element satisfying `p`, if any. */
  function First<T>(s: seq<T>, p: T -> bool): (o: Option<nat>)
    ensures o.Some? ==> o.value < |s| && p(s[o.value]) && forall j :: 0 <= j < o.value ==> !p(s[j])
    ensures o.None? ==> forall j :: 0 <= j < |s| ==> !p(s[j])
  {
    if s == [] then None
    else
      var n := |s| - 1;
      var earlier := First(s[..n], p);
      if earlier.Some? then earlier else if p(s[n]) then Some(n) else None
  }

  /** The only index `First` can return is the first match. */
  lemma FirstIs<T>(s: seq<T>, p: T -> bool, i: nat)
    requires i < |s| && p(s[i])
    requires forall j :: 0 <= j < i ==> !p(s[j])
    ensures First(s, p) == Some(i)
  {
  }

  function Max(a: int, b: int): int { if a < b then b else a }
  function Min(a: int, b: int): int { if a < b then a else b }

  // --------------------------------------------------- lists without repeats

  ghost predicate Distinct<T>(s: seq<T>) {
    forall i, j :: 0 <= i < j < |s| ==> s[i] != s[j]
  }

  function AsSet<T(==, !new)>(s: seq<T>): (r: set<T>)
    ensures forall x :: x in r <==> x in s
  {
    set x | x in s
  }

  lemma {:induction false} DistinctSize<T(!new)>(s: seq<T>)
    requires Distinct(s)
    ensures |AsSet(s)| == |s|
  {
    if s != [] {
      var n := |s| - 1;
      DistinctSize(s[..n]);
      assert AsSet(s) == AsSet(s[..n]) + {s[n]};
    }
  }

  lemma {:induction false} RepeatsShrink<T(!new)>(s: seq<T>)
    ensures |AsSet(s)| <= |s|
    ensures |AsSet(s)| == |s| ==> Distinct(s)
  {
    if s != [] {
      var n := |s| - 1;
      RepeatsShrink(s[..n]);
      assert AsSet(s) == AsSet(s[..n]) + {s[n]};
      if s[n] in s[..n] {
        assert AsSet(s) == AsSet(s[..n]);
      }
    }
  }

  lemma SubsetSize<T>(a: set<T>, b: set<T>)
    requires a <= b
    ensures |a| <= |b| && (|a| == |b| ==> a == b)
  {
    assert b == a + (b - a);
  }

  // ----------------------------------------- quotients and remainders

  lemma MulLe(a: nat, b: nat, n: nat)
    requires a <= b
    ensures a * n <= b * n
  {
    assert (b - a) * n >= 0;
  }

  lemma Quotient(q: nat, r: nat, n: nat)
    requires r < n
    ensures (q * n + r) / n == q
  {
    var x := (q * n + r) / n;
    assert (q * n + r) % n < n;
    assert q * n + r == x * n + (q * n + r) % n;
    if x < q { MulLe(x + 1, q, n); }
    if x > q { MulLe(q + 1, x, n); }
  }

  lemma Remainder(q: nat, r: nat, n: nat)
    requires r < n
    ensures (q * n + r) % n == r
  {
    Quotient(q, r, n);
  }
}
