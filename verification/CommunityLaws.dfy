/** Conservation and determinism of the communities. */
module CommunityLaws {
  import opened Connectivity
  import opened Text
  import opened Sorting
  import opened Counting
  import opened EntityResolution
  import opened Communities
  import opened CommunityResults
  import E = EdgeRewrite

  /** No two communities share a key. */
  lemma CommunityKeysDistinct(nodes: seq<Node>, edges: seq<E.Edge>, groups: seq<seq<Node>>, communities: seq<Community>,
                              members: seq<Member>)
    requires Partition(nodes, edges, groups) && Describes(edges, groups, communities, members)
    ensures forall i, j :: 0 <= i < j < |communities| ==> communities[i].key != communities[j].key
  {
    forall i, j | 0 <= i < j < |communities|
      ensures communities[i].key != communities[j].key
    {
      if communities[i].key == communities[j].key {
        CommunityKeyInjective(i, j, groups[i], groups[j]);
      }
    }
  }

  // ---- where a node belongs ----

  ghost function GroupIndex(groups: seq<seq<Node>>, x: Node): (i: nat)
    ensures InSome(groups, x) ==> i < |groups| && x in groups[i]
    ensures !InSome(groups, x) ==> i == |groups|
  {
    if InSome(groups, x) then
      var i :| 0 <= i < |groups| && x in groups[i];
      i
    else |groups|
  }

  lemma {:induction false} MemberExists(groups: seq<seq<Node>>, labels: seq<string>, i: nat, b: nat)
    requires |labels| == |groups| && i < |groups| && b < |groups[i]|
    ensures Member(groups[i][b].entityKey, labels[i]) in MembersOf(groups, labels)
  {
    var last := |groups| - 1;
    if i < last {
      MemberExists(groups[..last], labels[..last], i, b);
    } else {
      var here := MembersIn(groups[i], labels[i]);
      assert here[b] in here;
    }
  }

  lemma {:induction false} MemberOrigin(groups: seq<seq<Node>>, labels: seq<string>, member: Member)
      returns (i: nat, b: nat)
    requires |labels| == |groups| && member in MembersOf(groups, labels)
    ensures i < |groups| && b < |groups[i]| && member == Member(groups[i][b].entityKey, labels[i])
  {
    var last := |groups| - 1;
    if member in MembersOf(groups[..last], labels[..last]) {
      i, b := MemberOrigin(groups[..last], labels[..last], member);
    } else {
      i := last;
      b :| 0 <= b < |groups[last]| && MembersIn(groups[last], labels[last])[b] == member;
    }
  }

  /** Two nodes are listed under the same community exactly when known edges connect them. */
  lemma SameCommunityIffConnected(nodes: seq<Node>, edges: seq<E.Edge>, groups: seq<seq<Node>>,
                                  communities: seq<Community>, members: seq<Member>,
                                  x: Member, y: Member)
    requires Partition(nodes, edges, groups) && Describes(edges, groups, communities, members)
    requires x in members && y in members
    ensures x.communityKey == y.communityKey <==> Connected<string>(KnownPairs(nodes, edges), x.entityKey, y.entityKey)
  {
    var i, b := MemberOrigin(groups, KeysOf(groups), x);
    var j, c := MemberOrigin(groups, KeysOf(groups), y);
    assert groups[i][b] in groups[i] && groups[j][c] in groups[j];
    assert i == j <==> Together(nodes, edges, groups[i][b], groups[j][c]);
    if x.communityKey == y.communityKey {
      CommunityKeyInjective(i, j, groups[i], groups[j]);
    }
  }

  /** Every node is a member of exactly one community. */
  lemma OneCommunityEach(nodes: seq<Node>, edges: seq<E.Edge>, groups: seq<seq<Node>>, communities: seq<Community>,
                         members: seq<Member>, x: Node)
      returns (member: Member)
    requires DistinctNodes(nodes) && Partition(nodes, edges, groups) && Describes(edges, groups, communities, members)
    requires x in nodes
    ensures member in members && member.entityKey == x.entityKey
    ensures forall other :: other in members && other.entityKey == x.entityKey ==> other == member
  {
    assert InSome(groups, x);
    var i :| 0 <= i < |groups| && x in groups[i];
    var b :| 0 <= b < |groups[i]| && groups[i][b] == x;
    MemberExists(groups, KeysOf(groups), i, b);
    member := Member(x.entityKey, KeysOf(groups)[i]);
    forall other | other in members && other.entityKey == x.entityKey
      ensures other == member
    {
      var j, c := MemberOrigin(groups, KeysOf(groups), other);
      assert groups[j][c] in groups[j];
      SameKeySameGroup(nodes, edges, groups, j, i, groups[j][c], x);
    }
  }

  // ---- conservation ----

  const EntityCount: Community -> int := (c: Community) => c.entityCount
  const EdgeCount: Community -> int := (c: Community) => c.edgeCount

  function Ids(n: nat): (ids: seq<nat>)
    ensures |ids| == n && (forall i :: 0 <= i < n ==> ids[i] == i) && Distinct(ids)
  {
    seq(n, i => i)
  }

  lemma {:induction false} SumOfOnes<T>(s: seq<T>, one: T -> int)
    requires forall x :: one(x) == 1
    ensures SumBy(s, one) == |s|
  {
    if s != [] {
      SumOfOnes(s[..|s| - 1], one);
    }
  }

  lemma GroupDistinct(g: seq<Node>)
    requires StrictlySorted(NodeLess, g)
    ensures Distinct(g)
  {
    forall i, j | 0 <= i < j < |g|
      ensures g[i] != g[j]
    {
      assert NodeLess(g[i], g[j]);
      LessTotal(g[i].entityKey, g[i].entityKey);
    }
  }

  lemma GroupSize(nodes: seq<Node>, edges: seq<E.Edge>, groups: seq<seq<Node>>, i: nat, one: Node -> int,
                  classOf: Node -> nat)
    requires DistinctNodes(nodes) && Partition(nodes, edges, groups) && i < |groups|
    requires forall x: Node :: one(x) == 1
    requires forall x: Node :: classOf(x) == GroupIndex(groups, x)
    ensures |groups[i]| == SumIn(nodes, one, classOf, i)
  {
    forall x
      ensures x in groups[i] <==> x in nodes && classOf(x) == i
    {
    }
    GroupDistinct(groups[i]);
    assert Distinct(nodes);
    ListOfClass(nodes, one, classOf, i, groups[i]);
  }

  /** Entity counts add up to the number of nodes. */
  lemma EntityCountsSum(nodes: seq<Node>, edges: seq<E.Edge>, groups: seq<seq<Node>>, communities: seq<Community>,
                        members: seq<Member>)
    requires DistinctNodes(nodes) && Partition(nodes, edges, groups) && Describes(edges, groups, communities, members)
    ensures SumBy(communities, EntityCount) == |nodes|
  {
    var one := (x: Node) => 1;
    var classOf := (x: Node) => GroupIndex(groups, x);
    var ids := Ids(|groups|);
    forall i | 0 <= i < |ids|
      ensures EntityCount(communities[i]) == SumIn(nodes, one, classOf, ids[i])
    {
      GroupSize(nodes, edges, groups, i, one, classOf);
    }
    SumOfResults(nodes, one, classOf, ids, communities, EntityCount);
    forall x | x in nodes
      ensures classOf(x) in ids
    {
      assert InSome(groups, x);
      assert ids[classOf(x)] == classOf(x);
    }
    SplitByClass(nodes, one, classOf, ids);
    SumOfOnes(nodes, one);
  }

  ghost function EdgeGroup(groups: seq<seq<Node>>, e: E.Edge): (i: nat)
    ensures i < |groups| ==> Inside(groups[i], e)
    ensures i >= |groups| ==> i == |groups| && forall j :: 0 <= j < |groups| ==> !Inside(groups[j], e)
  {
    if exists i: nat :: i < |groups| && Inside(groups[i], e) then
      var i: nat :| i < |groups| && Inside(groups[i], e);
      i
    else |groups|
  }

  /** An edge lies inside a group exactly when both its endpoints are known, and then in one. */
  lemma EdgeInOneGroup(nodes: seq<Node>, edges: seq<E.Edge>, groups: seq<seq<Node>>, e: E.Edge, i: nat)
    requires DistinctNodes(nodes) && Partition(nodes, edges, groups) && e in edges && i < |groups|
    ensures Inside(groups[i], e) <==> EdgeGroup(groups, e) == i
    ensures KnownEdge(nodes, e) <==> EdgeGroup(groups, e) < |groups|
  {
    var h := EdgeGroup(groups, e);
    if Inside(groups[i], e) && h < |groups| {
      SourceGroupUnique(nodes, edges, groups, e, i, h);
    }
    if h < |groups| {
      InsideKnown(nodes, edges, groups, e, h);
    }
    if KnownEdge(nodes, e) {
      var j := KnownInside(nodes, edges, groups, e);
    }
  }

  lemma SourceGroupUnique(nodes: seq<Node>, edges: seq<E.Edge>, groups: seq<seq<Node>>, e: E.Edge, i: nat, j: nat)
    requires DistinctNodes(nodes) && Partition(nodes, edges, groups) && i < |groups| && j < |groups|
    requires Inside(groups[i], e) && Inside(groups[j], e)
    ensures i == j
  {
    var a :| 0 <= a < |groups[i]| && groups[i][a].entityKey == e.source;
    var b :| 0 <= b < |groups[j]| && groups[j][b].entityKey == e.source;
    SameKeySameGroup(nodes, edges, groups, i, j, groups[i][a], groups[j][b]);
  }

  lemma InsideKnown(nodes: seq<Node>, edges: seq<E.Edge>, groups: seq<seq<Node>>, e: E.Edge, i: nat)
    requires Partition(nodes, edges, groups) && i < |groups| && Inside(groups[i], e)
    ensures KnownEdge(nodes, e)
  {
    forall key | HasKey(groups[i], key)
      ensures KnownKey(nodes, key)
    {
      var a :| 0 <= a < |groups[i]| && groups[i][a].entityKey == key;
      assert InSome(groups, groups[i][a]);
      var k: nat :| k < |nodes| && nodes[k] == groups[i][a];
    }
  }

  lemma KnownInside(nodes: seq<Node>, edges: seq<E.Edge>, groups: seq<seq<Node>>, e: E.Edge) returns (i: nat)
    requires Partition(nodes, edges, groups) && e in edges && KnownEdge(nodes, e)
    ensures i < |groups| && Inside(groups[i], e)
  {
    var a: nat :| a < |nodes| && nodes[a].entityKey == e.source;
    var b: nat :| b < |nodes| && nodes[b].entityKey == e.target;
    assert InSome(groups, nodes[a]) && InSome(groups, nodes[b]);
    i :| 0 <= i < |groups| && nodes[a] in groups[i];
    var j :| 0 <= j < |groups| && nodes[b] in groups[j];
    ConnectedStep<string>(KnownPairs(nodes, edges), e.source, e.target) by {
      assert (e.source, e.target) in KnownPairs(nodes, edges);
    }
    assert Together(nodes, edges, nodes[a], nodes[b]);
    assert i == j;
  }

  lemma {:induction false} InsideAsSum(edges: seq<E.Edge>, all: seq<E.Edge>, nodes: seq<Node>, groups: seq<seq<Node>>,
                                       i: nat, one: E.Edge -> int, classOf: E.Edge -> nat)
    requires DistinctNodes(nodes) && Partition(nodes, all, groups) && i < |groups|
    requires forall e :: e in edges ==> e in all
    requires forall e: E.Edge :: one(e) == 1
    requires forall e: E.Edge :: classOf(e) == EdgeGroup(groups, e)
    ensures EdgesInside(edges, groups[i]) == SumIn(edges, one, classOf, i)
  {
    if edges != [] {
      InsideAsSum(edges[..|edges| - 1], all, nodes, groups, i, one, classOf);
      EdgeInOneGroup(nodes, all, groups, edges[|edges| - 1], i);
    }
  }

  /** Edge counts add up to the number of edges whose endpoints are both known. */
  lemma EdgeCountsSum(nodes: seq<Node>, edges: seq<E.Edge>, groups: seq<seq<Node>>, communities: seq<Community>,
                      members: seq<Member>, known: E.Edge -> int)
    requires nodes != [] && DistinctNodes(nodes) && Partition(nodes, edges, groups)
    requires Describes(edges, groups, communities, members)
    requires forall e :: known(e) == if KnownEdge(nodes, e) then 1 else 0
    ensures SumBy(communities, EdgeCount) == SumBy(edges, known)
  {
    assert InSome(groups, nodes[0]);
    var one := (e: E.Edge) => 1;
    var classOf := (e: E.Edge) => EdgeGroup(groups, e);
    var ids := Ids(|groups|);
    forall i | 0 <= i < |ids|
      ensures EdgeCount(communities[i]) == SumIn(edges, one, classOf, ids[i])
    {
      InsideAsSum(edges, edges, nodes, groups, i, one, classOf);
    }
    SumOfResults(edges, one, classOf, ids, communities, EdgeCount);
    forall e | e in edges
      ensures known(e) == if classOf(e) in ids then one(e) else 0
    {
      EdgeInOneGroup(nodes, edges, groups, e, 0);
      assert classOf(e) < |groups| ==> ids[classOf(e)] == classOf(e);
    }
    SplitCovered(edges, one, classOf, ids, known);
  }

  // ---- determinism ----

  lemma GroupInOther(nodes: seq<Node>, edges: seq<E.Edge>, g: seq<seq<Node>>, h: seq<seq<Node>>, i: nat)
    requires Partition(nodes, edges, g) && Partition(nodes, edges, h) && i < |g|
    ensures g[i] in h
  {
    var x := g[i][0];
    assert InSome(g, x);
    assert x in nodes && InSome(h, x);
    var j :| 0 <= j < |h| && x in h[j];
    forall y
      ensures y in g[i] <==> y in h[j]
    {
      if y in g[i] {
        assert InSome(g, y);
        assert Together(nodes, edges, x, y) && InSome(h, y);
        var k :| 0 <= k < |h| && y in h[k];
        assert j == k;
      }
      if y in h[j] {
        assert InSome(h, y);
        assert Together(nodes, edges, x, y) && InSome(g, y);
        var k :| 0 <= k < |g| && y in g[k];
        assert i == k;
      }
    }
    NodeLessWeakOrder();
    StrictlySortedUnique(NodeLess, g[i], h[j]);
  }

  lemma PartitionUnique(nodes: seq<Node>, edges: seq<E.Edge>, g: seq<seq<Node>>, h: seq<seq<Node>>)
    requires Partition(nodes, edges, g) && Partition(nodes, edges, h)
    ensures g == h
  {
    forall x
      ensures x in g <==> x in h
    {
      if x in g {
        var i :| 0 <= i < |g| && g[i] == x;
        GroupInOther(nodes, edges, g, h, i);
      }
      if x in h {
        var i :| 0 <= i < |h| && h[i] == x;
        GroupInOther(nodes, edges, h, g, i);
      }
    }
    GroupLessWeakOrder();
    StrictlySortedUnique(GroupLess, g, h);
  }

  lemma {:induction false} InsideCountPermutation(a: seq<E.Edge>, b: seq<E.Edge>, g: seq<Node>)
    requires multiset(a) == multiset(b)
    ensures EdgesInside(a, g) == EdgesInside(b, g)
  {
    var w := (e: E.Edge) => if Inside(g, e) then 1 else 0;
    InsideAsSumBy(a, g, w);
    InsideAsSumBy(b, g, w);
    SumByPermutation(a, b, w);
  }

  lemma {:induction false} InsideAsSumBy(a: seq<E.Edge>, g: seq<Node>, w: E.Edge -> int)
    requires forall e :: w(e) == if Inside(g, e) then 1 else 0
    ensures EdgesInside(a, g) == SumBy(a, w)
  {
    if a != [] {
      InsideAsSumBy(a[..|a| - 1], g, w);
    }
  }

  lemma PartitionElsewhere(nodes: seq<Node>, nodes': seq<Node>, edges: seq<E.Edge>, edges': seq<E.Edge>,
                           g: seq<seq<Node>>)
    requires multiset(nodes) == multiset(nodes') && multiset(edges) == multiset(edges')
    requires Partition(nodes', edges', g)
    ensures Partition(nodes, edges, g)
  {
    SameKnownPairs(nodes, nodes', edges, edges');
    PermutationSameElements(nodes, nodes');
  }

  lemma DescribesUnique(edges: seq<E.Edge>, edges': seq<E.Edge>, g: seq<seq<Node>>,
                        communities: seq<Community>, communities': seq<Community>, members: seq<Member>,
                        members': seq<Member>)
    requires multiset(edges) == multiset(edges')
    requires Describes(edges, g, communities, members) && Describes(edges', g, communities', members')
    ensures communities == communities' && members == members'
  {
    forall i | 0 <= i < |g|
      ensures communities[i] == communities'[i]
    {
      InsideCountPermutation(edges, edges', g[i]);
    }
  }

  /** Neither the order of the nodes, nor that of the edges, nor map iteration order shows in
      the communities or the membership list. */
  lemma CommunitiesIgnoreOrder(nodes: seq<Node>, nodes': seq<Node>, edges: seq<E.Edge>, edges': seq<E.Edge>,
                               g: seq<seq<Node>>, g': seq<seq<Node>>,
                               communities: seq<Community>, communities': seq<Community>, members: seq<Member>,
                               members': seq<Member>)
    requires multiset(nodes) == multiset(nodes') && multiset(edges) == multiset(edges')
    requires Partition(nodes, edges, g) && Describes(edges, g, communities, members)
    requires Partition(nodes', edges', g') && Describes(edges', g', communities', members')
    ensures communities == communities' && members == members'
  {
    PartitionElsewhere(nodes, nodes', edges, edges', g');
    PartitionUnique(nodes, edges, g, g');
    DescribesUnique(edges, edges', g, communities, communities', members, members');
  }
}
