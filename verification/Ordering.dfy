/** Sorting and totals over sequences, and the order of strings. */
module Ordering {

  /** Lexicographic order by code point. */
  predicate StringLe(a: string, b: string) {
    a == "" || (b != "" && (a[0] < b[0] || (a[0] == b[0] && StringLe(a[1..], b[1..]))))
  }

  lemma {:induction false} StringTotal(a: string, b: string)
    ensures StringLe(a, b) || StringLe(b, a)
    ensures StringLe(a, b) && StringLe(b, a) ==> a == b
  {
    if a != "" && b != "" {
      StringTotal(a[1..], b[1..]);
      assert a == [a[0]] + a[1..] && b == [b[0]] + b[1..];
    }
  }

  lemma {:induction false} StringTransitive(a: string, b: string, c: string)
    requires StringLe(a, b) && StringLe(b, c)
    ensures StringLe(a, c)
  {
    if a != "" && a[0] == b[0] && b[0] == c[0] {
      StringTransitive(a[1..], b[1..], c[1..]);
    }
  }

  ghost predicate TotalOrder<T(!new)>(le: (T, T) -> bool) {
    && (forall a, b :: le(a, b) || le(b, a))
    && (forall a, b, c :: le(a, b) && le(b, c) ==> le(a, c))
  }

  predicate Sorted<T>(s: seq<T>, le: (T, T) -> bool) {
    forall i, j :: 0 <= i < j < |s| ==> le(s[i], s[j])
  }

  function Insert<T>(s: seq<T>, x: T, le: (T, T) -> bool): (r: seq<T>)
    ensures multiset(r) == multiset(s) + multiset{x}
  {
    if s == [] then [x]
    else
      var n := |s| - 1;
      assert s == s[..n] + [s[n]];
      if le(s[n], x) then s + [x] else Insert(s[..n], x, le) + [s[n]]
  }

  /** A stable sort. */
  function SortBy<T>(s: seq<T>, le: (T, T) -> bool): (r: seq<T>)
    ensures multiset(r) == multiset(s)
  {
    if s == [] then []
    else
      var n := |s| - 1;
      assert s == s[..n] + [s[n]];
      Insert(SortBy(s[..n], le), s[n], le)
  }

  lemma {:induction false} InsertSorted<T(!new)>(s: seq<T>, x: T, le: (T, T) -> bool)
    requires TotalOrder(le) && Sorted(s, le)
    ensures Sorted(Insert(s, x, le), le)
  {
    if s != [] {
      var n := |s| - 1;
      var r := Insert(s[..n], x, le);
      InsertSorted(s[..n], x, le);
      if !le(s[n], x) {
        forall i | 0 <= i < |r|
          ensures le(r[i], s[n])
        {
          assert r[i] in multiset(r);
          assert r[i] in s[..n] || r[i] == x;
        }
      }
    }
  }

  lemma {:induction false} SortByIsSorted<T(!new)>(s: seq<T>, le: (T, T) -> bool)
    requires TotalOrder(le)
    ensures Sorted(SortBy(s, le), le)
  {
    if s != [] {
      var n := |s| - 1;
      SortByIsSorted(s[..n], le);
      InsertSorted(SortBy(s[..n], le), s[n], le);
    }
  }

  function Filter<T>(s: seq<T>, p: T -> bool): seq<T> {
    if s == [] then []
    else
      var n := |s| - 1;
      Filter(s[..n], p) + (if p(s[n]) then [s[n]] else [])
  }

  function Ties<T>(le: (T, T) -> bool, x: T): T -> bool { y => le(x, y) && le(y, x) }

  lemma {:induction false} InsertIsStable<T(!new)>(s: seq<T>, x: T, le: (T, T) -> bool, z: T)
    requires TotalOrder(le)
    ensures Filter(Insert(s, x, le), Ties(le, z)) == Filter(s + [x], Ties(le, z))
  {
    var p := Ties(le, z);
    assert (s + [x])[..|s|] == s;
    if s != [] && !le(s[|s| - 1], x) {
      var n := |s| - 1;
      InsertIsStable(s[..n], x, le, z);
      var r := Insert(s[..n], x, le);
      assert (r + [s[n]])[..|r|] == r && (s[..n] + [x])[..n] == s[..n];
      assert !(p(x) && p(s[n]));
      assert Filter(s[..n], p) + [] == Filter(s[..n], p);
    }
  }

  /** What compares as equal stays in its order. */
  lemma {:induction false} SortByIsStable<T(!new)>(s: seq<T>, le: (T, T) -> bool, x: T)
    requires TotalOrder(le)
    ensures Filter(SortBy(s, le), Ties(le, x)) == Filter(s, Ties(le, x))
  {
    if s != [] {
      var n := |s| - 1;
      var sorted := SortBy(s[..n], le);
      SortByIsStable(s[..n], le, x);
      InsertIsStable(sorted, s[n], le, x);
      assert (sorted + [s[n]])[..|sorted|] == sorted;
    }
  }

  /** The total weight of a sequence. */
  ghost function Total<T>(s: seq<T>, w: T -> nat): nat {
    if s == [] then 0 else Total(s[..|s| - 1], w) + w(s[|s| - 1])
  }

  lemma {:induction false} TotalAppend<T>(a: seq<T>, b: seq<T>, w: T -> nat)
    ensures Total(a + b, w) == Total(a, w) + Total(b, w)
  {
    if b == [] {
      assert a + b == a;
    } else {
      assert (a + b)[..|a + b| - 1] == a + b[..|b| - 1];
      TotalAppend(a, b[..|b| - 1], w);
    }
  }

  lemma TotalSnoc<T>(s: seq<T>, x: T, w: T -> nat)
    ensures Total(s + [x], w) == Total(s, w) + w(x)
  {
    assert (s + [x])[..|s|] == s;
  }

  lemma TotalWithout<T>(s: seq<T>, i: nat, w: T -> nat)
    requires i < |s|
    ensures Total(s, w) == Total(s[..i] + s[i + 1..], w) + w(s[i])
  {
    hide Total;
    var c, d := s[..i], s[i + 1..];
    TotalSnoc(c, s[i], w);
    TotalAppend(c + [s[i]], d, w);
    TotalAppend(c, d, w);
    assert s == (c + [s[i]]) + d;
  }

  /** The order does not matter to a total. */
  lemma {:induction false} TotalPermuted<T>(a: seq<T>, b: seq<T>, w: T -> nat)
    requires multiset(a) == multiset(b)
    ensures Total(a, w) == Total(b, w)
    decreases |a|
  {
    if a == [] {
      assert |b| == |multiset(b)| == 0;
    } else {
      var n := |a| - 1;
      var k := Without(a, b, n);
      TotalPermuted(a[..n], b[..k] + b[k + 1..], w);
      TotalWithout(b, k, w);
    }
  }

  /** Taking the same element out of both leaves permutations. */
  lemma Without<T>(a: seq<T>, b: seq<T>, n: nat) returns (k: nat)
    requires multiset(a) == multiset(b) && |a| == n + 1
    ensures k < |b| && b[k] == a[n] && multiset(a[..n]) == multiset(b[..k] + b[k + 1..])
  {
    var x := a[n];
    assert a == a[..n] + [x];
    assert x in multiset(b);
    k :| 0 <= k < |b| && b[k] == x;
    assert b == b[..k] + [x] + b[k + 1..];
    assert multiset(a[..n]) == multiset(a) - multiset{x};
    assert multiset(b[..k] + b[k + 1..]) == multiset(b) - multiset{x};
  }

  lemma {:induction false} TotalSame<S, T>(a: seq<S>, b: seq<T>, v: S -> nat, w: T -> nat)
    requires |a| == |b| && forall i :: 0 <= i < |a| ==> v(a[i]) <= w(b[i])
    ensures Total(a, v) <= Total(b, w)
  {
    if a != [] {
      TotalSame(a[..|a| - 1], b[..|b| - 1], v, w);
    }
  }

  ghost predicate AllDifferent<T>(s: seq<T>) { forall i, j :: 0 <= i < j < |s| ==> s[i] != s[j] }

  lemma Twice<T>(s: seq<T>, i: nat, j: nat)
    requires i < j < |s| && s[i] == s[j]
    ensures multiset(s)[s[i]] >= 2
  {
    assert s == s[..i] + [s[i]] + s[i + 1..j] + [s[j]] + s[j + 1..];
  }

  lemma TwoPlaces<T>(s: seq<T>, x: T)
    requires multiset(s)[x] >= 2
    ensures exists i, j :: 0 <= i < j < |s| && s[i] == x && s[j] == x
  {
    assert x in multiset(s);
    var i :| 0 <= i < |s| && s[i] == x;
    assert s == s[..i] + [x] + s[i + 1..];
    if x in s[..i] {
      var j :| 0 <= j < i && s[..i][j] == x;
      assert s[j] == x;
    } else {
      assert x in multiset(s[i + 1..]);
      var j :| 0 <= j < |s[i + 1..]| && s[i + 1..][j] == x;
      assert s[i + 1 + j] == x;
    }
  }

  /** A permutation has the same elements, and each once if they were. */
  lemma Permuted<T(!new)>(a: seq<T>, b: seq<T>)
    requires multiset(a) == multiset(b)
    ensures forall x :: x in a <==> x in b
    ensures AllDifferent(a) ==> AllDifferent(b)
  {
    forall x ensures x in a <==> x in b { assert x in multiset(a) <==> x in multiset(b); }
    if AllDifferent(a) {
      forall i, j | 0 <= i < j < |b| && b[i] == b[j] ensures false {
        Twice(b, i, j);
        TwoPlaces(a, b[i]);
      }
    }
  }

  /** The elements of a set in some order. */
  lemma EachOnce<T(!new)>(s: seq<T>, elements: set<T>)
    requires multiset(s) == multiset(elements)
    ensures forall x :: x in s <==> x in elements
    ensures AllDifferent(s)
  {
    forall x ensures x in s <==> x in elements { assert x in s <==> x in multiset(s); }
    forall i, j | 0 <= i < j < |s| && s[i] == s[j] ensures false {
      Twice(s, i, j);
    }
  }

  lemma PrefixIs<T>(p: seq<T>, q: seq<T>)
    requires p <= q
    ensures q[..|p|] == p
  {
  }

  /** The position of the first element satisfying `p`, or the length. */
  function First<T>(s: seq<T>, p: T -> bool): (n: nat)
    ensures n <= |s| && (forall i :: 0 <= i < n ==> !p(s[i])) && (n < |s| ==> p(s[n]))
  {
    if s == [] || p(s[0]) then 0 else 1 + First(s[1..], p)
  }
}
