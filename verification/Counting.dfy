/** Sums over sequences, split by class: the bookkeeping behind every conservation law. */
module Counting {

  function SumBy<T>(s: seq<T>, weight: T -> int): int {
    if s == [] then 0 else SumBy(s[..|s| - 1], weight) + weight(s[|s| - 1])
  }

  /** The part of the sum that falls in class k. */
  function SumIn<T, K(==)>(s: seq<T>, weight: T -> int, classOf: T -> K, k: K): int {
    if s == [] then 0
    else
      var x := s[|s| - 1];
      SumIn(s[..|s| - 1], weight, classOf, k) + if classOf(x) == k then weight(x) else 0
  }

  function SumInAll<T, K(==)>(s: seq<T>, weight: T -> int, classOf: T -> K, ks: seq<K>): int {
    if ks == [] then 0
    else SumInAll(s, weight, classOf, ks[..|ks| - 1]) + SumIn(s, weight, classOf, ks[|ks| - 1])
  }

  ghost predicate Distinct<K>(ks: seq<K>) {
    forall i, j :: 0 <= i < j < |ks| ==> ks[i] != ks[j]
  }

  lemma {:induction false} SumInAllEmpty<T, K>(weight: T -> int, classOf: T -> K, ks: seq<K>)
    ensures SumInAll([], weight, classOf, ks) == 0
  {
    if ks != [] {
      SumInAllEmpty(weight, classOf, ks[..|ks| - 1]);
    }
  }

  lemma {:induction false} SumInAllSnoc<T, K>(s: seq<T>, weight: T -> int, classOf: T -> K, ks: seq<K>)
    requires s != [] && Distinct(ks)
    ensures var x := s[|s| - 1];
            SumInAll(s, weight, classOf, ks)
            == SumInAll(s[..|s| - 1], weight, classOf, ks) + if classOf(x) in ks then weight(x) else 0
  {
    if ks != [] {
      var init, last := ks[..|ks| - 1], ks[|ks| - 1];
      SumInAllSnoc(s, weight, classOf, init);
      assert ks == init + [last];
      assert last !in init;
    }
  }

  /** Splitting a sum over distinct classes that cover every item loses and repeats nothing. */
  lemma {:induction false} SplitByClass<T, K>(s: seq<T>, weight: T -> int, classOf: T -> K, ks: seq<K>)
    requires Distinct(ks)
    requires forall x :: x in s ==> classOf(x) in ks
    ensures SumInAll(s, weight, classOf, ks) == SumBy(s, weight)
  {
    if s == [] {
      SumInAllEmpty(weight, classOf, ks);
    } else {
      SplitByClass(s[..|s| - 1], weight, classOf, ks);
      SumInAllSnoc(s, weight, classOf, ks);
    }
  }

  /** Reading the class sums off a list of results, one result a class. */
  lemma {:induction false} SumOfResults<T, K, R>(s: seq<T>, weight: T -> int, classOf: T -> K, ks: seq<K>,
                                                 results: seq<R>, value: R -> int)
    requires |results| == |ks|
    requires forall i :: 0 <= i < |ks| ==> value(results[i]) == SumIn(s, weight, classOf, ks[i])
    ensures SumBy(results, value) == SumInAll(s, weight, classOf, ks)
  {
    if ks != [] {
      SumOfResults(s, weight, classOf, ks[..|ks| - 1], results[..|ks| - 1], value);
    }
  }

  lemma RemoveOne<T>(b: seq<T>, x: T) returns (k: nat)
    requires x in multiset(b)
    ensures k < |b| && b[k] == x && b == b[..k] + [x] + b[k + 1..]
    ensures multiset(b[..k] + b[k + 1..]) == multiset(b) - multiset{x}
  {
    k :| 0 <= k < |b| && b[k] == x;
    assert b == b[..k] + [x] + b[k + 1..];
    assert multiset(b) == multiset(b[..k]) + multiset{x} + multiset(b[k + 1..]);
  }

  lemma MultisetInit<T>(a: seq<T>)
    requires a != []
    ensures a[|a| - 1] in multiset(a) && multiset(a[..|a| - 1]) == multiset(a) - multiset{a[|a| - 1]}
  {
    assert a == a[..|a| - 1] + [a[|a| - 1]];
  }

  /** A sum does not depend on the order of its items. */
  lemma {:induction false} SumByPermutation<T>(a: seq<T>, b: seq<T>, weight: T -> int)
    requires multiset(a) == multiset(b)
    ensures SumBy(a, weight) == SumBy(b, weight)
    decreases |a|
  {
    if a == [] {
      assert |multiset(b)| == 0;
    } else {
      MultisetInit(a);
      var x := a[|a| - 1];
      var k := RemoveOne(b, x);
      SumByPermutation(a[..|a| - 1], b[..k] + b[k + 1..], weight);
      SumByMiddle(b[..k], x, b[k + 1..], weight);
    }
  }

  lemma {:induction false} SumByMiddle<T>(a: seq<T>, x: T, b: seq<T>, weight: T -> int)
    ensures SumBy(a + [x] + b, weight) == SumBy(a + b, weight) + weight(x)
    decreases |b|
  {
    if b == [] {
      assert a + [x] + b == a + [x] && a + b == a;
    } else {
      var init, y := b[..|b| - 1], b[|b| - 1];
      SumByMiddle(a, x, init, weight);
      assert a + [x] + b == (a + [x] + init) + [y];
      assert a + b == (a + init) + [y];
    }
  }

  ghost function ClassOf<T, K>(s: seq<T>, classOf: T -> K, k: K): set<T> {
    set x | x in s && classOf(x) == k
  }

  lemma ClassSnoc<T, K>(init: seq<T>, last: T, classOf: T -> K, k: K)
    ensures ClassOf(init + [last], classOf, k) ==
            ClassOf(init, classOf, k) + if classOf(last) == k then {last} else {}
  {
  }

  /** Counting the members of a class in a list without repeats. */
  lemma {:induction false} ClassSize<T, K>(s: seq<T>, weight: T -> int, classOf: T -> K, k: K)
    requires Distinct(s) && forall x :: weight(x) == 1
    ensures SumIn(s, weight, classOf, k) == |ClassOf(s, classOf, k)|
  {
    if s != [] {
      var init, last := s[..|s| - 1], s[|s| - 1];
      ClassSize(init, weight, classOf, k);
      ClassSnoc(init, last, classOf, k);
      assert s == init + [last];
      assert last !in ClassOf(init, classOf, k);
    } else {
      assert ClassOf(s, classOf, k) == {};
    }
  }

  lemma {:induction false} ListSize<T>(s: seq<T>)
    requires Distinct(s)
    ensures |s| == |set x | x in s|
  {
    if s != [] {
      var init, last := s[..|s| - 1], s[|s| - 1];
      ListSize(init);
      assert s == init + [last];
      assert last !in init;
      assert (set x | x in s) == (set x | x in init) + {last};
    }
  }

  /** A list without repeats of exactly the members of a class has the size of the class. */
  lemma ListOfClass<T, K>(s: seq<T>, weight: T -> int, classOf: T -> K, k: K, g: seq<T>)
    requires Distinct(s) && Distinct(g) && forall x :: weight(x) == 1
    requires forall x :: x in g <==> x in s && classOf(x) == k
    ensures |g| == SumIn(s, weight, classOf, k)
  {
    ClassSize(s, weight, classOf, k);
    ListSize(g);
    assert (set x | x in g) == ClassOf(s, classOf, k);
  }

  /** The part of the sum whose class is listed. */
  lemma {:induction false} SplitCovered<T, K>(s: seq<T>, weight: T -> int, classOf: T -> K, ks: seq<K>,
                                              covered: T -> int)
    requires Distinct(ks)
    requires forall x :: x in s ==> covered(x) == if classOf(x) in ks then weight(x) else 0
    ensures SumInAll(s, weight, classOf, ks) == SumBy(s, covered)
  {
    if s == [] {
      SumInAllEmpty(weight, classOf, ks);
    } else {
      SplitCovered(s[..|s| - 1], weight, classOf, ks, covered);
      SumInAllSnoc(s, weight, classOf, ks);
    }
  }
}
