/** The disjoint-set forest of graph_entity_resolver.go: path compression in `find`,
    union by rank, both overwriting the parent and rank slices in place. */
module DisjointSets {
  import opened Connectivity

  function Pow2(k: nat): (r: nat)
    ensures r >= 1 && r > k
  {
    if k == 0 then 1 else 2 * Pow2(k - 1)
  }

  lemma {:induction false} Pow2Monotone(a: nat, b: nat)
    requires a <= b
    ensures Pow2(a) <= Pow2(b)
    decreases b - a
  {
    if a < b {
      Pow2Monotone(a, b - 1);
    }
  }

  /** The two slices as values. */
  datatype Forest = Forest(parent: seq<nat>, rank: seq<nat>) {

    /** Parents are in range and rank strictly increases on the way to the root,
        so there is no cycle. */
    ghost predicate Ranked() {
      && |parent| == |rank|
      && (forall i {:trigger parent[i]} :: 0 <= i < |parent| ==> parent[i] < |parent|)
      && (forall i {:trigger rank[i]} :: 0 <= i < |rank| ==> rank[i] <= |rank|)
      && (forall i {:trigger parent[i]} :: 0 <= i < |parent| && parent[i] != i ==> rank[i] < rank[parent[i]])
    }

    ghost function Root(i: nat): (r: nat)
      requires Ranked() && i < |parent|
      ensures r < |parent| && parent[r] == r && rank[i] <= rank[r]
      decreases |parent| - rank[i]
    {
      if parent[i] == i then i else Root(parent[i])
    }

    /** Number of recursive calls `find` makes from i. */
    ghost function Depth(i: nat): (d: nat)
      requires Ranked() && i < |parent|
      ensures rank[i] + d <= rank[Root(i)]
      decreases |parent| - rank[i]
    {
      if parent[i] == i then 0 else 1 + Depth(parent[i])
    }

    ghost function Members(r: nat): (s: set<nat>)
      requires Ranked()
    {
      set i | 0 <= i < |parent| && Root(i) == r
    }

    /** A root of rank k has at least 2^k members. */
    ghost predicate WellSized()
      requires Ranked()
    {
      forall r: nat {:trigger Members(r)} :: r < |parent| && parent[r] == r ==> Pow2(rank[r]) <= |Members(r)|
    }

    /** The trees are exactly the classes of the closure of `united`. */
    ghost predicate Represents(united: set<(nat, nat)>)
      requires Ranked()
    {
      && (forall a: nat, b: nat :: (a, b) in united ==> a < |parent| && b < |parent| && Root(a) == Root(b))
      && (forall i: nat, j: nat {:trigger Connected(united, i, j)} ::
            i < |parent| && j < |parent| && Root(i) == Root(j) ==> Connected(united, i, j))
    }

    ghost predicate Sound(united: set<(nat, nat)>) {
      Ranked() && WellSized() && Represents(united)
    }
  }

  /** A tree root stands for exactly the points its closure reaches. */
  lemma SameRootIffConnected(f: Forest, united: set<(nat, nat)>, i: nat, j: nat)
    requires f.Sound(united) && i < |f.parent| && j < |f.parent|
    ensures f.Root(i) == f.Root(j) <==> Connected(united, i, j)
  {
    if Connected(united, i, j) {
      var classOf := (k: nat) => if k < |f.parent| then f.Root(k) else k;
      PreservedAlong(united, classOf, i, j);
    }
  }

  lemma MembersBounded(f: Forest, r: nat)
    requires f.Ranked()
    ensures |f.Members(r)| <= |f.parent|
  {
    SubsetOfRange(f.Members(r), |f.parent|);
  }

  lemma {:induction false} SubsetOfRange(s: set<nat>, n: nat)
    requires forall x :: x in s ==> x < n
    ensures |s| <= n
  {
    if n == 0 {
      assert s == {};
    } else {
      SubsetOfRange(s - {n - 1}, n - 1);
    }
  }

  /** Rank, and with it the depth of the recursion in `find`, is logarithmic in the size. */
  lemma LogarithmicDepth(f: Forest, i: nat)
    requires f.Ranked() && f.WellSized() && i < |f.parent|
    ensures Pow2(f.rank[i]) <= |f.parent|
    ensures Pow2(f.Depth(i)) <= |f.parent|
  {
    var r := f.Root(i);
    MembersBounded(f, r);
    Pow2Monotone(f.rank[i], f.rank[r]);
    Pow2Monotone(f.Depth(i), f.rank[r]);
  }

  // ---- initial forest ----

  ghost function Singletons(n: nat): Forest {
    Forest(seq(n, i => i), seq(n, i => 0))
  }

  lemma SingletonsSound(n: nat)
    ensures Singletons(n).Sound({})
  {
    var f := Singletons(n);
    forall r: nat | r < n
      ensures Pow2(f.rank[r]) <= |f.Members(r)|
    {
      assert f.Members(r) == {r};
    }
    forall i: nat, j: nat | i < n && j < n && f.Root(i) == f.Root(j)
      ensures Connected({}, i, j)
    {
      ConnectedRefl({}, i);
    }
  }

  // ---- path compression ----

  ghost function Compressed(f: Forest, i: nat): Forest
    requires f.Ranked() && i < |f.parent|
  {
    f.(parent := f.parent[i := f.Root(i)])
  }

  lemma {:induction false} CompressedRoot(f: Forest, i: nat, j: nat)
    requires f.Ranked() && i < |f.parent| && j < |f.parent|
    requires Compressed(f, i).Ranked()
    ensures Compressed(f, i).Root(j) == f.Root(j)
    decreases |f.parent| - f.rank[j]
  {
    if f.parent[j] == j {
    } else if j == i {
      assert f.Root(i) == f.Root(f.parent[i]);
    } else {
      CompressedRoot(f, i, f.parent[j]);
    }
  }

  /** Two forests with the same roots and ranks at the roots represent the same classes. */
  lemma SameRootsSound(f: Forest, g: Forest, united: set<(nat, nat)>)
    requires f.Sound(united) && g.Ranked()
    requires |f.parent| == |g.parent| && f.rank == g.rank
    requires forall j: nat :: j < |f.parent| ==> f.Root(j) == g.Root(j)
    ensures g.Sound(united)
  {
    forall r: nat | r < |g.parent| && g.parent[r] == r
      ensures Pow2(g.rank[r]) <= |g.Members(r)|
    {
      assert g.Root(r) == r == f.Root(r);
      assert g.Members(r) == f.Members(r);
    }
  }

  lemma CompressedSound(f: Forest, i: nat, united: set<(nat, nat)>)
    requires f.Sound(united) && i < |f.parent|
    ensures Compressed(f, i).Sound(united)
    ensures forall j: nat :: j < |f.parent| ==> Compressed(f, i).Root(j) == f.Root(j)
  {
    forall j: nat | j < |f.parent|
      ensures Compressed(f, i).Root(j) == f.Root(j)
    {
      CompressedRoot(f, i, j);
    }
    SameRootsSound(f, Compressed(f, i), united);
  }

  // ---- union by rank ----

  /** Hang the root `child` under the root `top`, which gains a rank on a tie. */
  ghost function Hung(f: Forest, child: nat, top: nat): Forest
    requires f.Ranked() && child < |f.parent| && top < |f.parent|
  {
    Forest(f.parent[child := top],
           if f.rank[child] == f.rank[top] then f.rank[top := f.rank[top] + 1] else f.rank)
  }

  ghost predicate MayHang(f: Forest, child: nat, top: nat) {
    && f.Ranked() && f.WellSized() && child < |f.parent| && top < |f.parent| && child != top
    && f.parent[child] == child && f.parent[top] == top && f.rank[child] <= f.rank[top]
  }

  lemma HungRanked(f: Forest, child: nat, top: nat)
    requires MayHang(f, child, top)
    ensures Hung(f, child, top).Ranked()
  {
    if f.rank[child] == f.rank[top] {
      DisjointTrees(f, child, top);
      assert Pow2(f.rank[top] + 1) == Pow2(f.rank[child]) + Pow2(f.rank[top]);
    }
  }

  lemma {:induction false} HungRoot(f: Forest, child: nat, top: nat, j: nat)
    requires MayHang(f, child, top) && j < |f.parent| && Hung(f, child, top).Ranked()
    ensures Hung(f, child, top).Root(j) == if f.Root(j) == child then top else f.Root(j)
    decreases |f.parent| - f.rank[j]
  {
    if f.parent[j] != j {
      HungRoot(f, child, top, f.parent[j]);
    }
  }

  lemma HungMembers(f: Forest, child: nat, top: nat, r: nat)
    requires MayHang(f, child, top) && Hung(f, child, top).Ranked()
    requires r != child
    ensures Hung(f, child, top).Members(r) == if r == top then f.Members(child) + f.Members(top) else f.Members(r)
  {
    forall j: nat | j < |f.parent|
      ensures Hung(f, child, top).Root(j) == if f.Root(j) == child then top else f.Root(j)
    {
      HungRoot(f, child, top, j);
    }
  }

  lemma TwoTrees(a: nat, b: nat)
    ensures Pow2(if a == b then b + 1 else b) <= Pow2(a) + Pow2(b)
  {
  }

  lemma HungTopMembers(f: Forest, child: nat, top: nat)
    requires MayHang(f, child, top) && Hung(f, child, top).Ranked()
    ensures Pow2(f.rank[child]) + Pow2(f.rank[top]) <= |Hung(f, child, top).Members(top)|
  {
    HungMembers(f, child, top, top);
    DisjointTrees(f, child, top);
  }

  lemma HungTreeSize(f: Forest, child: nat, top: nat, r: nat)
    requires MayHang(f, child, top) && Hung(f, child, top).Ranked()
    requires r < |f.parent| && r != child && f.parent[r] == r
    ensures Pow2(Hung(f, child, top).rank[r]) <= |Hung(f, child, top).Members(r)|
  {
    if r == top {
      HungTopMembers(f, child, top);
      TwoTrees(f.rank[child], f.rank[top]);
    } else {
      HungMembers(f, child, top, r);
      assert Pow2(f.rank[r]) <= |f.Members(r)|;
    }
  }

  lemma HungWellSized(f: Forest, child: nat, top: nat)
    requires MayHang(f, child, top) && Hung(f, child, top).Ranked()
    ensures Hung(f, child, top).WellSized()
  {
    var g := Hung(f, child, top);
    forall r: nat {:trigger g.Members(r)} | r < |g.parent| && g.parent[r] == r
      ensures Pow2(g.rank[r]) <= |g.Members(r)|
    {
      HungTreeSize(f, child, top, r);
    }
  }

  lemma DisjointTrees(f: Forest, a: nat, b: nat)
    requires f.Ranked() && f.WellSized() && a < |f.parent| && b < |f.parent| && a != b
    requires f.parent[a] == a && f.parent[b] == b
    ensures |f.Members(a) + f.Members(b)| >= Pow2(f.rank[a]) + Pow2(f.rank[b])
    ensures |f.Members(a) + f.Members(b)| <= |f.parent|
  {
    assert f.Members(a) !! f.Members(b);
    assert |f.Members(a) + f.Members(b)| == |f.Members(a)| + |f.Members(b)|;
    SubsetOfRange(f.Members(a) + f.Members(b), |f.parent|);
  }

  lemma HungRepresents(f: Forest, child: nat, top: nat, united: set<(nat, nat)>, a: nat, b: nat)
    requires MayHang(f, child, top) && f.Represents(united) && Hung(f, child, top).Ranked()
    requires a < |f.parent| && b < |f.parent|
    requires {f.Root(a), f.Root(b)} == {child, top}
    ensures Hung(f, child, top).Represents(united + {(a, b)})
  {
    var g := Hung(f, child, top);
    var more := united + {(a, b)};
    forall j: nat | j < |f.parent|
      ensures g.Root(j) == if f.Root(j) == child then top else f.Root(j)
    {
      HungRoot(f, child, top, j);
    }
    assert f.Root(a) in {child, top} && f.Root(b) in {child, top} && f.Root(a) != f.Root(b);
    forall i: nat, j: nat | i < |f.parent| && j < |f.parent| && g.Root(i) == g.Root(j)
      ensures Connected(more, i, j)
    {
      if f.Root(i) == f.Root(j) {
        ConnectedMono(united, more, i, j);
      } else {
        Bridge(f, united, a, b, i, j);
      }
    }
  }

  lemma Bridge(f: Forest, united: set<(nat, nat)>, a: nat, b: nat, i: nat, j: nat)
    requires f.Ranked() && f.Represents(united)
    requires a < |f.parent| && b < |f.parent| && i < |f.parent| && j < |f.parent|
    requires (f.Root(i) == f.Root(a) && f.Root(j) == f.Root(b)) || (f.Root(i) == f.Root(b) && f.Root(j) == f.Root(a))
    ensures Connected(united + {(a, b)}, i, j)
  {
    var more := united + {(a, b)};
    var (x, y) := if f.Root(i) == f.Root(a) && f.Root(j) == f.Root(b) then (a, b) else (b, a);
    assert Connected(united, i, x) && Connected(united, y, j);
    ConnectedMono(united, more, i, x);
    ConnectedMono(united, more, y, j);
    ConnectedStep(more, x, y);
    ConnectedTrans(more, i, x, y);
    ConnectedTrans(more, i, y, j);
  }

  lemma HungSound(f: Forest, child: nat, top: nat, united: set<(nat, nat)>, a: nat, b: nat)
    requires f.Sound(united) && MayHang(f, child, top)
    requires a < |f.parent| && b < |f.parent|
    requires {f.Root(a), f.Root(b)} == {child, top}
    ensures Hung(f, child, top).Sound(united + {(a, b)})
  {
    HungRanked(f, child, top);
    HungWellSized(f, child, top);
    HungRepresents(f, child, top, united, a, b);
  }

  /** Uniting two points that already share a root adds nothing. */
  lemma AlreadyUnited(f: Forest, united: set<(nat, nat)>, a: nat, b: nat)
    requires f.Sound(united) && a < |f.parent| && b < |f.parent| && f.Root(a) == f.Root(b)
    ensures f.Sound(united + {(a, b)})
  {
    var more := united + {(a, b)};
    forall i: nat, j: nat | i < |f.parent| && j < |f.parent| && f.Root(i) == f.Root(j)
      ensures Connected(more, i, j)
    {
      ConnectedMono(united, more, i, j);
    }
  }

  // ---- the mutable structure ----

  /** roots lists the root of every point. */
  ghost predicate RootTable(f: Forest, roots: seq<nat>)
    requires f.Ranked()
  {
    && |roots| == |f.parent| && (forall i: nat {:trigger f.Root(i)} :: i < |roots| ==> f.Root(i) == roots[i])
    && forall i: nat {:trigger roots[i]} :: i < |roots| ==> roots[i] < |f.parent|
  }

  ghost function RootsOf(f: Forest): (roots: seq<nat>)
    requires f.Ranked()
    ensures RootTable(f, roots)
  {
    seq(|f.parent|, i requires 0 <= i < |f.parent| => f.Root(i))
  }

  /** The tree of root `child` now belongs to `top`; every other point keeps its root. */
  ghost predicate Merges(before: seq<nat>, after: seq<nat>, child: nat, top: nat) {
    |after| == |before| && forall i: nat {:trigger after[i]} :: i < |before| ==>
                             after[i] == if before[i] == child then top else before[i]
  }

  /** Of two equal ranks the upper one grows by one. */
  ghost predicate Raised(before: seq<nat>, after: seq<nat>, child: nat, top: nat) {
    && child < |before| && top < |before|
    && after == if before[child] == before[top] then before[top := before[top] + 1] else before
  }

  /** Union by rank: the root of smaller rank is hung under the other one, on a tie the right one under the
      left one; two points of one tree change nothing. */
  ghost predicate ByRank(was: seq<nat>, roots: seq<nat>, ranked: seq<nat>, rank: seq<nat>, left: nat, right: nat) {
    && left < |was| && right < |was| && was[left] < |ranked| && was[right] < |ranked|
    && var (l, r) := (was[left], was[right]);
       if l == r then roots == was && rank == ranked
       else if ranked[l] < ranked[r] then Merges(was, roots, l, r) && rank == ranked
       else Merges(was, roots, r, l) && Raised(ranked, rank, r, l)
  }

  lemma HungRoots(f: Forest, child: nat, top: nat, before: seq<nat>, after: seq<nat>)
    requires MayHang(f, child, top) && RootTable(f, before)
    requires Hung(f, child, top).Ranked() && RootTable(Hung(f, child, top), after)
    ensures Merges(before, after, child, top)
  {
    forall i: nat | i < |before|
      ensures after[i] == if before[i] == child then top else before[i]
    {
      HungRoot(f, child, top, i);
      assert f.Root(i) == before[i] && Hung(f, child, top).Root(i) == after[i];
    }
  }

  lemma HangSound(f: Forest, child: nat, top: nat, united: set<(nat, nat)>, left: nat, right: nat, roots: seq<nat>)
      returns (newRoots: seq<nat>)
    requires f.Sound(united) && RootTable(f, roots) && MayHang(f, child, top)
    requires left < |roots| && right < |roots| && {roots[left], roots[right]} == {child, top}
    ensures Hung(f, child, top).Sound(united + {(left, right)})
    ensures RootTable(Hung(f, child, top), newRoots) && Merges(roots, newRoots, child, top)
  {
    assert {f.Root(left), f.Root(right)} == {child, top};
    HungSound(f, child, top, united, left, right);
    newRoots := RootsOf(Hung(f, child, top));
    HungRoots(f, child, top, roots, newRoots);
  }

  class DisjointSet {
    const parent: array<nat>
    const rank: array<nat>
    ghost var united: set<(nat, nat)>  // every pair passed to Union so far
    ghost var roots: seq<nat>          // the current root of every point

    ghost predicate Valid()
      reads this, parent, rank
    {
      parent != rank && parent.Length == rank.Length && View().Sound(united) && RootTable(View(), roots)
    }

    ghost function View(): Forest
      reads parent, rank
    {
      Forest(parent[..], rank[..])
    }

    constructor (size: nat)
      ensures Valid() && fresh(parent) && fresh(rank)
      ensures parent.Length == size && united == {}
    {
      parent := new nat[size](i => i);
      rank := new nat[size](i => 0);
      united := {};
      new;
      SingletonsSound(size);
      assert parent[..] == Singletons(size).parent && rank[..] == Singletons(size).rank;
      roots := RootsOf(View());
    }

    /** Returns the root, after making it the parent of everything on the way. */
    method Find(i: nat) returns (r: nat)
      requires Valid() && i < parent.Length
      modifies parent
      ensures Valid() && r == roots[i] && parent[i] == r
      decreases parent.Length - rank[i]
    {
      if parent[i] != i {
        assert View().Root(i) == View().Root(parent[i]);
        var top := Find(parent[i]);
        ghost var f := View();
        assert top == f.Root(i);
        CompressedSound(f, i, united);
        parent[i] := top;
        assert parent[..] == f.parent[i := top];
      }
      r := parent[i];
      assert View().Root(i) == r;
    }

    /** Hangs one root under another; the ghost pair says which points this unites. */
    method Hang(child: nat, top: nat, ghost left: nat, ghost right: nat)
      requires Valid() && MayHang(View(), child, top)
      requires left < parent.Length && right < parent.Length && {roots[left], roots[right]} == {child, top}
      modifies this, parent, rank
      ensures Valid() && united == old(united) + {(left, right)}
      ensures Merges(old(roots), roots, child, top)
      ensures Raised(old(rank[..]), rank[..], child, top)
    {
      ghost var f := View();
      ghost var newRoots := HangSound(f, child, top, united, left, right, roots);
      parent[child] := top;
      assert parent[..] == f.parent[child := top] && rank[..] == f.rank;
      if rank[child] == rank[top] {
        rank[top] := rank[top] + 1;
      }
      assert View() == Hung(f, child, top);
      united := united + {(left, right)};
      roots := newRoots;
    }

    method Union(left: nat, right: nat)
      requires Valid() && left < parent.Length && right < parent.Length
      modifies this, parent, rank
      ensures Valid() && united == old(united) + {(left, right)}
      ensures ByRank(old(roots), roots, old(rank[..]), rank[..], left, right)
    {
      var leftRoot := Find(left);
      var rightRoot := Find(right);
      assert View().Root(left) == leftRoot && View().Root(right) == rightRoot;
      if leftRoot == rightRoot {
        AlreadyUnited(View(), united, left, right);
        united := united + {(left, right)};
        return;
      }
      if rank[leftRoot] < rank[rightRoot] {
        Hang(leftRoot, rightRoot, left, right);
        return;
      }
      Hang(rightRoot, leftRoot, left, right);
    }

    /** After any mix of unions and finds, two points have the same root exactly
        when the united pairs connect them. */
    lemma RootsAreComponents(i: nat, j: nat)
      requires Valid() && i < parent.Length && j < parent.Length
      ensures roots[i] == roots[j] <==> Connected(united, i, j)
    {
      SameRootIffConnected(View(), united, i, j);
    }
  }
}
