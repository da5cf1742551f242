/** Undirected connectivity over a finite set of pairs: the reflexive, symmetric
    and transitive closure that the disjoint-set forest has to compute. */
module Connectivity {

  ghost predicate Adjacent<T>(pairs: set<(T, T)>, a: T, b: T) {
    (a, b) in pairs || (b, a) in pairs
  }

  ghost predicate IsPath<T>(pairs: set<(T, T)>, p: seq<T>) {
    |p| > 0 && forall k :: 0 <= k < |p| - 1 ==> Adjacent(pairs, p[k], p[k + 1])
  }

  ghost predicate JoinedBy<T>(pairs: set<(T, T)>, a: T, b: T, p: seq<T>) {
    IsPath(pairs, p) && p[0] == a && p[|p| - 1] == b
  }

  ghost predicate Connected<T(!new)>(pairs: set<(T, T)>, a: T, b: T) {
    exists p :: JoinedBy(pairs, a, b, p)
  }

  lemma ConnectedRefl<T(!new)>(pairs: set<(T, T)>, a: T)
    ensures Connected(pairs, a, a)
  {
    assert JoinedBy(pairs, a, a, [a]);
  }

  lemma ConnectedStep<T(!new)>(pairs: set<(T, T)>, a: T, b: T)
    requires Adjacent(pairs, a, b)
    ensures Connected(pairs, a, b)
  {
    assert JoinedBy(pairs, a, b, [a, b]);
  }

  lemma ConnectedTrans<T(!new)>(pairs: set<(T, T)>, a: T, b: T, c: T)
    requires Connected(pairs, a, b) && Connected(pairs, b, c)
    ensures Connected(pairs, a, c)
  {
    var p :| JoinedBy(pairs, a, b, p);
    var q :| JoinedBy(pairs, b, c, q);
    var r := p + q[1..];
    forall k | 0 <= k < |r| - 1
      ensures Adjacent(pairs, r[k], r[k + 1])
    {
      if k >= |p| - 1 {
        var m := k - (|p| - 1);
        assert r[k] == q[m] && r[k + 1] == q[m + 1];
      }
    }
    assert JoinedBy(pairs, a, c, r);
  }

  lemma {:induction false} ConnectedSym<T(!new)>(pairs: set<(T, T)>, a: T, b: T)
    requires Connected(pairs, a, b)
    ensures Connected(pairs, b, a)
  {
    var p :| JoinedBy(pairs, a, b, p);
    SymAlong(pairs, a, b, p);
  }

  lemma {:induction false} SymAlong<T(!new)>(pairs: set<(T, T)>, a: T, b: T, p: seq<T>)
    requires JoinedBy(pairs, a, b, p)
    ensures Connected(pairs, b, a)
    decreases |p|
  {
    if |p| == 1 {
      ConnectedRefl(pairs, a);
    } else {
      var rest := p[1..];
      assert JoinedBy(pairs, p[1], b, rest) by {
        forall k | 0 <= k < |rest| - 1
          ensures Adjacent(pairs, rest[k], rest[k + 1])
        {
          assert rest[k] == p[k + 1] && rest[k + 1] == p[k + 2];
        }
      }
      SymAlong(pairs, p[1], b, rest);
      ConnectedStep(pairs, p[1], a) by { assert Adjacent(pairs, p[0], p[1]); }
      ConnectedTrans(pairs, b, p[1], a);
    }
  }

  lemma ConnectedMono<T(!new)>(small: set<(T, T)>, large: set<(T, T)>, a: T, b: T)
    requires small <= large && Connected(small, a, b)
    ensures Connected(large, a, b)
  {
    var p :| JoinedBy(small, a, b, p);
    forall k | 0 <= k < |p| - 1
      ensures Adjacent(large, p[k], p[k + 1])
    {
      assert Adjacent(small, p[k], p[k + 1]);
    }
    assert JoinedBy(large, a, b, p);
  }

  /** Whatever every pair preserves, connectivity preserves. */
  lemma {:induction false} PreservedAlong<T(!new), C>(pairs: set<(T, T)>, classOf: T -> C, a: T, b: T)
    requires forall x, y :: (x, y) in pairs ==> classOf(x) == classOf(y)
    requires Connected(pairs, a, b)
    ensures classOf(a) == classOf(b)
  {
    var p :| JoinedBy(pairs, a, b, p);
    PreservedOnPath(pairs, classOf, a, b, p);
  }

  lemma {:induction false} PreservedOnPath<T, C>(pairs: set<(T, T)>, classOf: T -> C, a: T, b: T, p: seq<T>)
    requires forall x, y :: (x, y) in pairs ==> classOf(x) == classOf(y)
    requires JoinedBy(pairs, a, b, p)
    ensures classOf(a) == classOf(b)
    decreases |p|
  {
    if |p| > 1 {
      var init := p[..|p| - 1];
      PreservedOnPath(pairs, classOf, a, init[|init| - 1], init);
      assert Adjacent(pairs, p[|p| - 2], p[|p| - 1]);
    }
  }

  /** Renaming the points by any function carries a connection along. */
  lemma ConnectedImage<S(!new), T(!new)>(pairs: set<(S, S)>, images: set<(T, T)>, f: S -> T, a: S, b: S)
    requires forall x, y :: (x, y) in pairs ==> Adjacent(images, f(x), f(y))
    requires Connected(pairs, a, b)
    ensures Connected(images, f(a), f(b))
  {
    var p :| JoinedBy(pairs, a, b, p);
    var q := seq(|p|, k requires 0 <= k < |p| => f(p[k]));
    forall k | 0 <= k < |q| - 1
      ensures Adjacent(images, q[k], q[k + 1])
    {
      assert Adjacent(pairs, p[k], p[k + 1]);
    }
    assert JoinedBy(images, f(a), f(b), q);
  }
}
