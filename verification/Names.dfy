/** Names in the order strings compare. */
module Names {
  import opened Prelude

  /** Strings compare by their first difference. */
  predicate StringLess(a: string, b: string) {
    b != [] && (a == [] || a[0] < b[0] || (a[0] == b[0] && StringLess(a[1..], b[1..])))
  }

  lemma {:induction false} LessIsTotal(a: string, b: string)
    ensures a == b || StringLess(a, b) || StringLess(b, a)
    ensures !(StringLess(a, b) && StringLess(b, a))
    ensures StringLess(a, b) ==> a != b
  {
    if a != [] && b != [] && a[0] == b[0] {
      LessIsTotal(a[1..], b[1..]);
      assert a == [a[0]] + a[1..] && b == [b[0]] + b[1..];
    }
  }

  lemma {:induction false} LessIsTransitive(a: string, b: string, c: string)
    requires StringLess(a, b) && StringLess(b, c)
    ensures StringLess(a, c)
  {
    if a != [] && a[0] == b[0] == c[0] {
      LessIsTransitive(a[1..], b[1..], c[1..]);
    }
  }

  function InsertName(s: seq<string>, x: string): seq<string> {
    if s == [] then [x]
    else if StringLess(x, s[|s| - 1]) then InsertName(s[..|s| - 1], x) + [s[|s| - 1]]
    else s + [x]
  }

  function SortNames(names: seq<string>): seq<string> {
    if names == [] then [] else InsertName(SortNames(names[..|names| - 1]), names[|names| - 1])
  }

  ghost predicate Ascending(s: seq<string>) {
    forall i, j :: 0 <= i < j < |s| ==> StringLess(s[i], s[j])
  }

  lemma AscendingMore(s: seq<string>, top: string)
    requires Ascending(s) && forall x :: x in s ==> StringLess(x, top)
    ensures Ascending(s + [top])
  {
    hide StringLess;
  }

  lemma {:induction false} InsertKeepsAscending(s: seq<string>, x: string)
    requires Ascending(s) && x !in s
    ensures Ascending(InsertName(s, x)) && forall y :: y in InsertName(s, x) <==> y in s || y == x
  {
    hide StringLess;
    if s != [] {
      var n := |s| - 1;
      var last := s[n];
      assert s == s[..n] + [last];
      LessIsTotal(x, last);
      if StringLess(x, last) {
        InsertKeepsAscending(s[..n], x);
        AscendingMore(InsertName(s[..n], x), last);
      } else {
        forall y | y in s ensures StringLess(y, x) {
          if y != last { LessIsTransitive(y, last, x); }
        }
        AscendingMore(s, x);
      }
    }
  }

  /** Sorting lists the same names, ascending. */
  lemma {:induction false} SortNamesSorts(names: seq<string>)
    requires Distinct(names)
    ensures Ascending(SortNames(names)) && forall x :: x in SortNames(names) <==> x in names
  {
    if names != [] {
      var n := |names| - 1;
      SortNamesSorts(names[..n]);
      assert names == names[..n] + [names[n]];
      InsertKeepsAscending(SortNames(names[..n]), names[n]);
      hide Ascending, InsertName;
    }
  }

  ghost predicate SameNames(a: seq<string>, b: seq<string>) {
    forall x :: x in a <==> x in b
  }

  lemma NoNames(a: seq<string>, b: seq<string>)
    requires SameNames(a, b) && a != []
    ensures b != []
  {
    assert a[0] in a;
  }

  lemma LastIsGreatest(a: seq<string>, b: seq<string>)
    requires Ascending(a) && Ascending(b) && a != [] && SameNames(a, b)
    ensures b != [] && a[|a| - 1] == b[|b| - 1]
  {
    hide StringLess;
    var x := a[|a| - 1];
    assert x in b && b[|b| - 1] in a;
    LessIsTotal(x, b[|b| - 1]);
    var i :| 0 <= i < |a| && a[i] == b[|b| - 1];
    var j :| 0 <= j < |b| && b[j] == x;
  }

  lemma WithoutLast(a: seq<string>, b: seq<string>)
    requires Ascending(a) && Ascending(b) && a != [] && b != [] && a[|a| - 1] == b[|b| - 1] && SameNames(a, b)
    ensures Ascending(a[..|a| - 1]) && Ascending(b[..|b| - 1]) && SameNames(a[..|a| - 1], b[..|b| - 1])
  {
    hide StringLess;
    var m, n := |a| - 1, |b| - 1;
    assert a == a[..m] + [a[m]] && b == b[..n] + [b[n]];
    forall x ensures x in a[..m] <==> x in b[..n] {
      LessIsTotal(x, x);
      if x in a[..m] { assert x in b && x != a[m]; }
      if x in b[..n] { assert x in a && x != b[n]; }
    }
  }

  /** There is only one way to list names ascending. */
  lemma {:induction false} AscendingIsUnique(a: seq<string>, b: seq<string>)
    requires Ascending(a) && Ascending(b) && SameNames(a, b)
    ensures a == b
  {
    if a == [] {
      if b != [] { NoNames(b, a); }
    } else {
      LastIsGreatest(a, b);
      WithoutLast(a, b);
      hide Ascending, SameNames;
      var m, n := |a| - 1, |b| - 1;
      AscendingIsUnique(a[..m], b[..n]);
      assert a == a[..m] + [a[m]] && b == b[..n] + [b[n]];
    }
  }
}
