/** Total orders, and the two sorts the repository relies on: sorting a set and sorting a list. */
module Ordering {
  ghost predicate TotalOrder<T(!new)>(leq: (T, T) -> bool) {
    && (forall x, y :: leq(x, y) || leq(y, x))
    && (forall x, y :: leq(x, y) && leq(y, x) ==> x == y)
    && (forall x, y, z :: leq(x, y) && leq(y, z) ==> leq(x, z))
  }

  // Ties allowed: sorting keeps the order of elements that compare equal.
  ghost predicate TotalPreorder<T(!new)>(leq: (T, T) -> bool) {
    && (forall x, y :: leq(x, y) || leq(y, x))
    && (forall x, y, z :: leq(x, y) && leq(y, z) ==> leq(x, z))
  }

  ghost predicate SortedBy<T>(s: seq<T>, leq: (T, T) -> bool) {
    forall i, j :: 0 <= i < j < |s| ==> leq(s[i], s[j])
  }

  // Code-point order on strings.
  predicate StringLeq(a: string, b: string) {
    a == [] || (b != [] && (a[0] < b[0] || (a[0] == b[0] && StringLeq(a[1..], b[1..]))))
  }

  lemma {:induction false} StringLeqTotal(a: string, b: string)
    ensures StringLeq(a, b) || StringLeq(b, a)
  {
    if a != [] && b != [] && a[0] == b[0] { StringLeqTotal(a[1..], b[1..]); }
  }

  lemma {:induction false} StringLeqAntisymmetric(a: string, b: string)
    requires StringLeq(a, b) && StringLeq(b, a)
    ensures a == b
  {
    if a != [] && b != [] {
      StringLeqAntisymmetric(a[1..], b[1..]);
      assert a == [a[0]] + a[1..] && b == [b[0]] + b[1..];
    }
  }

  lemma {:induction false} StringLeqTransitive(a: string, b: string, c: string)
    requires StringLeq(a, b) && StringLeq(b, c)
    ensures StringLeq(a, c)
  {
    if a != [] && a[0] == b[0] == c[0] { StringLeqTransitive(a[1..], b[1..], c[1..]); }
  }

  lemma StringOrder()
    ensures TotalOrder(StringLeq)
  {
    forall x, y ensures StringLeq(x, y) || StringLeq(y, x) { StringLeqTotal(x, y); }
    forall x, y | StringLeq(x, y) && StringLeq(y, x) ensures x == y { StringLeqAntisymmetric(x, y); }
    forall x, y, z | StringLeq(x, y) && StringLeq(y, z) ensures StringLeq(x, z) { StringLeqTransitive(x, y, z); }
  }

  // The texts agree up to n, and a is smaller there.
  predicate SmallerAt(a: string, b: string, n: nat) {
    n < |a| && n < |b| && a[..n] == b[..n] && a[n] < b[n]
  }

  /** A text comes before what it begins, and otherwise the first character in which two texts differ decides. */
  lemma {:induction false} CodePointOrder(a: string, b: string)
    ensures StringLeq(a, b) <==> a <= b || exists n: nat :: SmallerAt(a, b, n)
  {
    if a != [] && b != [] && a[0] == b[0] {
      CodePointOrder(a[1..], b[1..]);
      assert a == [a[0]] + a[1..] && b == [b[0]] + b[1..];
      assert a[1..] <= b[1..] <==> a <= b;
      if n: nat :| SmallerAt(a[1..], b[1..], n) {
        assert a[..n + 1] == [a[0]] + a[1..][..n] && b[..n + 1] == [b[0]] + b[1..][..n];
        assert SmallerAt(a, b, n + 1);
      }
      if n: nat :| SmallerAt(a, b, n) {
        assert a[1..][..n - 1] == a[..n][1..] && b[1..][..n - 1] == b[..n][1..];
        assert SmallerAt(a[1..], b[1..], n - 1);
      }
    } else if a != [] && b != [] {
      assert a[0] < b[0] ==> SmallerAt(a, b, 0);
      if n: nat :| SmallerAt(a, b, n) { assert n > 0 ==> a[..n][0] == b[..n][0]; }
    }
  }

  // Lexicographic order on pairs of strings.
  predicate PairLeq(a: (string, string), b: (string, string)) {
    if a.0 == b.0 then StringLeq(a.1, b.1) else StringLeq(a.0, b.0)
  }

  lemma PairOrder()
    ensures TotalOrder(PairLeq)
  {
    StringOrder();
  }

  predicate IsLeast<T(!new,==)>(m: T, s: set<T>, leq: (T, T) -> bool) {
    m in s && forall y :: y in s ==> leq(m, y)
  }

  lemma {:induction false} LeastExists<T(!new)>(s: set<T>, leq: (T, T) -> bool)
    requires TotalOrder(leq) && s != {}
    ensures exists m :: IsLeast(m, s, leq)
  {
    var x :| x in s;
    if s == {x} {
      assert IsLeast(x, s, leq);
    } else {
      LeastExists(s - {x}, leq);
      var least :| IsLeast(least, s - {x}, leq);
      var m := if leq(x, least) then x else least;
      forall y | y in s ensures leq(m, y) {
        if y != x { assert y in s - {x}; }
      }
      assert IsLeast(m, s, leq);
    }
  }

  /** `sorted` over a set: every element once, in increasing order. */
  function SortSet<T(!new)>(s: set<T>, leq: (T, T) -> bool): (r: seq<T>)
    requires TotalOrder(leq)
    ensures SortedBy(r, leq)
    ensures forall x :: x in r <==> x in s
    ensures |r| == |s|
    ensures forall i, j :: 0 <= i < j < |r| ==> r[i] != r[j]
  {
    if s == {} then []
    else
      LeastExists(s, leq);
      var m :| IsLeast(m, s, leq);
      [m] + SortSet(s - {m}, leq)
  }

  function Insert<T(!new)>(x: T, s: seq<T>, leq: (T, T) -> bool): (r: seq<T>)
    requires TotalPreorder(leq) && SortedBy(s, leq)
    ensures SortedBy(r, leq)
    ensures multiset(r) == multiset(s) + multiset{x}
  {
    if s == [] then [x]
    else if leq(x, s[0]) then [x] + s
    else
      assert s == [s[0]] + s[1..];
      var rest := Insert(x, s[1..], leq);
      AllAbove(s[0], x, s[1..], rest, leq);
      [s[0]] + rest
  }

  lemma AllAbove<T>(low: T, x: T, s: seq<T>, rest: seq<T>, leq: (T, T) -> bool)
    requires multiset(rest) == multiset(s) + multiset{x} && leq(low, x)
    requires forall i :: 0 <= i < |s| ==> leq(low, s[i])
    ensures forall i :: 0 <= i < |rest| ==> leq(low, rest[i])
  {
    forall i | 0 <= i < |rest| ensures leq(low, rest[i]) {
      assert rest[i] in multiset(rest);
      if rest[i] != x { assert rest[i] in s; }
    }
  }

  /** `sorted` over a list: a sorted permutation, stable because an element is put in front of its equals. */
  function Sort<T(!new)>(s: seq<T>, leq: (T, T) -> bool): (r: seq<T>)
    requires TotalPreorder(leq)
    ensures SortedBy(r, leq)
    ensures multiset(r) == multiset(s)
    ensures |r| == |s|
  {
    if s == [] then []
    else
      assert s == [s[0]] + s[1..];
      var r := Insert(s[0], Sort(s[1..], leq), leq);
      assert |multiset(r)| == |multiset(s)|;
      r
  }

  lemma TwiceIn<T>(s: seq<T>, i: nat, j: nat)
    requires i < j < |s| && s[i] == s[j]
    ensures multiset(s)[s[i]] >= 2
  {
    assert s == s[..j] + [s[j]] + s[j + 1..];
    assert s[i] in s[..j];
  }

  lemma {:induction false} OnceIn<T>(s: seq<T>, x: T)
    requires forall i, j :: 0 <= i < j < |s| ==> s[i] != s[j]
    ensures multiset(s)[x] <= 1
  {
    if s != [] {
      var n := |s| - 1;
      assert s == s[..n] + [s[n]];
      OnceIn(s[..n], x);
      if s[n] == x { assert x !in s[..n]; }
    }
  }

  function Elements(s: seq<string>): set<string> {
    set x | x in s
  }

  function SortedStrings(s: set<string>): (r: seq<string>)
    ensures forall x :: x in r <==> x in s
    ensures forall i :: 0 <= i < |r| ==> r[i] in s
    ensures |r| == |s| && SortedBy(r, StringLeq)
    ensures forall i, j :: 0 <= i < j < |r| ==> r[i] != r[j]
  {
    StringOrder();
    var r := SortSet(s, StringLeq);
    assert forall i :: 0 <= i < |r| ==> r[i] in r;
    r
  }
}
