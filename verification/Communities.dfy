/** graphMaterializationWithCommunities: the connected components of the graph over edges
    whose endpoints are both known, as sorted, numbered communities. */
module Communities {
  import opened Connectivity
  import opened DisjointSets
  import opened Text
  import opened Sorting
  import opened EntityResolution
  import E = EdgeRewrite

  datatype Community = Community(key: string, entityCount: nat, edgeCount: nat)

  datatype Member = Member(entityKey: string, communityKey: string)

  /** graphCommunityNodeLess. */
  predicate NodeLess(left: Node, right: Node) {
    if left.mentionCount != right.mentionCount then left.mentionCount > right.mentionCount
    else Less(left.entityKey, right.entityKey)
  }

  lemma NodeLessWeakOrder()
    ensures WeakOrder(NodeLess)
  {
    forall a, b | NodeLess(a, b)
      ensures !NodeLess(b, a)
    {
      LessTotal(a.entityKey, b.entityKey);
    }
    forall a, b, c | NodeLess(a, c)
      ensures NodeLess(a, b) || NodeLess(b, c)
    {
      if a.mentionCount == c.mentionCount {
        E.LessSplits(a.entityKey, b.entityKey, c.entityKey);
      }
    }
  }

  function FirstKey(group: seq<Node>): string {
    if group == [] then "" else group[0].entityKey
  }

  predicate GroupLess(a: seq<Node>, b: seq<Node>) {
    Less(FirstKey(a), FirstKey(b))
  }

  lemma GroupLessWeakOrder()
    ensures WeakOrder(GroupLess)
  {
    forall a, b | GroupLess(a, b)
      ensures !GroupLess(b, a)
    {
      LessTotal(FirstKey(a), FirstKey(b));
    }
    forall a, b, c | GroupLess(a, c)
      ensures GroupLess(a, b) || GroupLess(b, c)
    {
      E.LessSplits(FirstKey(a), FirstKey(b), FirstKey(c));
    }
  }

  /** graphCommunityKey. */
  function CommunityKey(index: nat, group: seq<Node>): string {
    if group == [] then "community:" + Pad3(index + 1)
    else "community:" + (Pad3(index + 1) + [':'] + group[0].entityKey)
  }

  lemma CommunityKeyInjective(i: nat, j: nat, g: seq<Node>, h: seq<Node>)
    requires g != [] && h != [] && CommunityKey(i, g) == CommunityKey(j, h)
    ensures i == j
  {
    var x, y := Pad3(i + 1) + [':'] + g[0].entityKey, Pad3(j + 1) + [':'] + h[0].entityKey;
    assert x == CommunityKey(i, g)[10..] && y == CommunityKey(j, h)[10..];
    SplitAtFirst(':', Pad3(i + 1), g[0].entityKey, Pad3(j + 1), h[0].entityKey);
    ParsePad3(i + 1);
    ParsePad3(j + 1);
  }

  // ---- the graph ----

  ghost predicate KnownKey(nodes: seq<Node>, key: string) {
    exists i: nat :: i < |nodes| && nodes[i].entityKey == key
  }

  ghost predicate KnownEdge(nodes: seq<Node>, edge: E.Edge) {
    KnownKey(nodes, edge.source) && KnownKey(nodes, edge.target)
  }

  ghost function KnownPairs(nodes: seq<Node>, edges: seq<E.Edge>): set<(string, string)> {
    set e | e in edges && KnownEdge(nodes, e) :: (e.source, e.target)
  }

  ghost predicate Together(nodes: seq<Node>, edges: seq<E.Edge>, a: Node, b: Node) {
    Connected<string>(KnownPairs(nodes, edges), a.entityKey, b.entityKey)
  }

  /** The groups are exactly the connected components, each in community order, listed by
      the key of their first node. */
  ghost predicate Partition(nodes: seq<Node>, edges: seq<E.Edge>, groups: seq<seq<Node>>) {
    && (forall i :: 0 <= i < |groups| ==> groups[i] != [] && StrictlySorted(NodeLess, groups[i]))
    && (forall x :: x in nodes <==> InSome(groups, x))
    && (forall i, j, x, y {:trigger x in groups[i], y in groups[j]} ::
          0 <= i < |groups| && 0 <= j < |groups| && x in groups[i] && y in groups[j] ==>
            (i == j <==> Together(nodes, edges, x, y)))
    && StrictlySorted(GroupLess, groups)
  }

  ghost predicate InSome(groups: seq<seq<Node>>, x: Node) {
    exists i :: 0 <= i < |groups| && x in groups[i]
  }

  // ---- the component loop ----

  method IndexByKey(nodes: seq<Node>) returns (nodeIndexByKey: map<string, nat>)
    ensures forall key :: key in nodeIndexByKey <==> KnownKey(nodes, key)
    ensures forall key :: key in nodeIndexByKey ==>
              nodeIndexByKey[key] < |nodes| && nodes[nodeIndexByKey[key]].entityKey == key
  {
    nodeIndexByKey := map[];
    for i := 0 to |nodes|
      invariant forall key :: key in nodeIndexByKey <==> exists k: nat :: k < i && nodes[k].entityKey == key
      invariant forall key :: key in nodeIndexByKey ==>
                  nodeIndexByKey[key] < |nodes| && nodes[nodeIndexByKey[key]].entityKey == key
    {
      nodeIndexByKey := nodeIndexByKey[nodes[i].entityKey := i];
    }
  }

  ghost function IndexPairs(index: map<string, nat>, edges: seq<E.Edge>): set<(nat, nat)> {
    set e | e in edges && e.source in index && e.target in index :: (index[e.source], index[e.target])
  }

  lemma IndexPairsSnoc(index: map<string, nat>, edges: seq<E.Edge>, i: nat)
    requires i < |edges|
    ensures var e := edges[i];
            IndexPairs(index, edges[..i + 1])
            == IndexPairs(index, edges[..i])
               + if e.source in index && e.target in index then {(index[e.source], index[e.target])} else {}
  {
    assert edges[..i + 1] == edges[..i] + [edges[i]];
  }

  method Components(size: nat, edges: seq<E.Edge>, nodeIndexByKey: map<string, nat>) returns (components: DisjointSet)
    requires forall key :: key in nodeIndexByKey ==> nodeIndexByKey[key] < size
    ensures fresh(components) && fresh(components.parent) && fresh(components.rank)
    ensures components.Valid() && components.parent.Length == size
    ensures components.united == IndexPairs(nodeIndexByKey, edges)
  {
    components := new DisjointSet(size);
    for i := 0 to |edges|
      invariant components.Valid() && components.parent.Length == size
      invariant components.united == IndexPairs(nodeIndexByKey, edges[..i])
    {
      IndexPairsSnoc(nodeIndexByKey, edges, i);
      if edges[i].source !in nodeIndexByKey || edges[i].target !in nodeIndexByKey {
        continue;
      }
      components.Union(nodeIndexByKey[edges[i].source], nodeIndexByKey[edges[i].target]);
    }
    assert edges[..|edges|] == edges;
  }

  function ByRoot(roots: seq<nat>): map<nat, seq<nat>> {
    if roots == [] then map[]
    else
      var i := |roots| - 1;
      var table, r := ByRoot(roots[..i]), roots[i];
      table[r := (if r in table then table[r] else []) + [i]]
  }

  method CollectByRoot(components: DisjointSet) returns (nodeIndexesByRoot: map<nat, seq<nat>>)
    requires components.Valid()
    modifies components.parent
    ensures components.Valid() && nodeIndexesByRoot == ByRoot(components.roots)
  {
    nodeIndexesByRoot := map[];
    for i := 0 to components.parent.Length
      invariant components.Valid() && nodeIndexesByRoot == ByRoot(components.roots[..i])
    {
      var root := components.Find(i);
      assert components.roots[..i + 1][..i] == components.roots[..i];
      var indexes := if root in nodeIndexesByRoot then nodeIndexesByRoot[root] else [];
      nodeIndexesByRoot := nodeIndexesByRoot[root := indexes + [i]];
    }
    assert components.roots[..components.parent.Length] == components.roots;
  }

  /** The points of root r, in increasing order. */
  ghost predicate PointsOf(roots: seq<nat>, r: nat, points: seq<nat>) {
    && (forall a :: 0 <= a < |points| ==> points[a] < |roots| && roots[points[a]] == r)
    && (forall a, b :: 0 <= a < b < |points| ==> points[a] < points[b])
    && (forall k: nat :: k < |roots| && roots[k] == r ==> k in points)
  }

  lemma {:induction false} ByRootMeaning(roots: seq<nat>, r: nat)
    ensures r in ByRoot(roots) <==> r in roots
    ensures r in ByRoot(roots) ==> ByRoot(roots)[r] != [] && PointsOf(roots, r, ByRoot(roots)[r])
  {
    if roots != [] {
      var init, last := roots[..|roots| - 1], roots[|roots| - 1];
      assert roots == init + [last];
      ByRootMeaning(init, r);
    }
  }

  // ---- graphCommunityGroups ----

  /** g lists the nodes of root r in community order. */
  ghost predicate IsGroup(nodes: seq<Node>, roots: seq<nat>, r: nat, g: seq<Node>)
    requires |roots| == |nodes|
  {
    && g != [] && StrictlySorted(NodeLess, g)
    && forall x :: x in g <==> exists k: nat :: k < |nodes| && roots[k] == r && nodes[k] == x
  }

  ghost predicate Grouped(nodes: seq<Node>, roots: seq<nat>, g: seq<Node>)
    requires |roots| == |nodes|
  {
    exists r: nat :: IsGroup(nodes, roots, r, g)
  }

  ghost predicate GroupsOf(nodes: seq<Node>, roots: seq<nat>, groups: seq<seq<Node>>)
    requires |roots| == |nodes|
  {
    && (forall i :: 0 <= i < |groups| ==> Grouped(nodes, roots, groups[i]))
    && (forall k: nat :: k < |nodes| ==> InSome(groups, nodes[k]))
  }

  lemma GroupMembers(nodes: seq<Node>, roots: seq<nat>, r: nat, picked: seq<Node>, g: seq<Node>)
    requires |roots| == |nodes| && DistinctNodes(nodes) && r in ByRoot(roots)
    requires |picked| == |ByRoot(roots)[r]|
    requires forall a :: 0 <= a < |picked| ==> ByRoot(roots)[r][a] < |nodes| && picked[a] == nodes[ByRoot(roots)[r][a]]
    requires Sorted(NodeLess, g) && multiset(g) == multiset(picked)
    ensures IsGroup(nodes, roots, r, g)
  {
    ByRootMeaning(roots, r);
    var indexes := ByRoot(roots)[r];
    PermutationSameElements(g, picked);
    assert |g| == |picked| > 0;
    forall x
      ensures x in g <==> exists k: nat :: k < |nodes| && roots[k] == r && nodes[k] == x
    {
      if k: nat :| k < |nodes| && roots[k] == r && nodes[k] == x {
        var a :| 0 <= a < |indexes| && indexes[a] == k;
        assert picked[a] == x;
      }
    }
    forall i, j | 0 <= i < j < |g|
      ensures NodeLess(g[i], g[j])
    {
      KeysDistinctAfterSort(picked, g, i, j);
      LessTotal(g[i].entityKey, g[j].entityKey);
    }
  }

  method OneGroup(indexes: seq<nat>, nodes: seq<Node>) returns (group: seq<Node>, ghost picked: seq<Node>)
    requires forall a :: 0 <= a < |indexes| ==> indexes[a] < |nodes|
    ensures |picked| == |indexes| && forall a :: 0 <= a < |picked| ==> picked[a] == nodes[indexes[a]]
    ensures Sorted(NodeLess, group) && multiset(group) == multiset(picked)
  {
    group := [];
    for a := 0 to |indexes|
      invariant |group| == a && forall b :: 0 <= b < a ==> group[b] == nodes[indexes[b]]
    {
      group := group + [nodes[indexes[a]]];
    }
    picked := group;
    NodeLessWeakOrder();
    group := Sort(group, NodeLess);
  }

  method CommunityGroups(nodeIndexesByRoot: map<nat, seq<nat>>, nodes: seq<Node>, ghost roots: seq<nat>)
      returns (groups: seq<seq<Node>>)
    requires |roots| == |nodes| && DistinctNodes(nodes) && nodeIndexesByRoot == ByRoot(roots)
    ensures GroupsOf(nodes, roots, groups) && StrictlySorted(GroupLess, groups)
  {
    groups := [];
    ghost var done: seq<nat> := [];
    var left := nodeIndexesByRoot.Keys;
    while left != {}
      invariant left <= nodeIndexesByRoot.Keys && |done| == |groups|
      invariant forall i :: 0 <= i < |done| ==> done[i] in nodeIndexesByRoot.Keys - left &&
                                                IsGroup(nodes, roots, done[i], groups[i])
      invariant forall i, j :: 0 <= i < j < |done| ==> done[i] != done[j]
      invariant forall r :: r in nodeIndexesByRoot.Keys - left ==> r in done
    {
      var root :| root in left;
      left := left - {root};
      ByRootMeaning(roots, root);
      var group, picked := OneGroup(nodeIndexesByRoot[root], nodes);
      GroupMembers(nodes, roots, root, picked, group);
      groups, done := groups + [group], done + [root];
    }
    ghost var unsorted := groups;
    forall k: nat | k < |nodes|
      ensures roots[k] in done
    {
      ByRootMeaning(roots, roots[k]);
    }
    AllGrouped(nodes, roots, done, unsorted);
    GroupLessWeakOrder();
    groups := Sort(groups, GroupLess);
    SortedGroups(nodes, roots, unsorted, groups);
  }

  /** Groups of different roots share no node, so their first keys differ. */
  lemma AllGrouped(nodes: seq<Node>, roots: seq<nat>, done: seq<nat>, groups: seq<seq<Node>>)
    requires |roots| == |nodes| && DistinctNodes(nodes) && |done| == |groups|
    requires forall i :: 0 <= i < |done| ==> IsGroup(nodes, roots, done[i], groups[i])
    requires forall i, j :: 0 <= i < j < |done| ==> done[i] != done[j]
    requires forall k: nat :: k < |nodes| ==> roots[k] in done
    ensures GroupsOf(nodes, roots, groups)
    ensures forall i, j :: 0 <= i < j < |groups| ==> FirstKey(groups[i]) != FirstKey(groups[j])
  {
    forall i | 0 <= i < |groups|
      ensures Grouped(nodes, roots, groups[i])
    {
      assert IsGroup(nodes, roots, done[i], groups[i]);
    }
    forall k: nat | k < |nodes|
      ensures InSome(groups, nodes[k])
    {
      var i :| 0 <= i < |done| && done[i] == roots[k];
      assert nodes[k] in groups[i];
    }
    forall i, j | 0 <= i < j < |groups|
      ensures FirstKey(groups[i]) != FirstKey(groups[j])
    {
      assert groups[i][0] in groups[i] && groups[j][0] in groups[j];
      var a: nat :| a < |nodes| && roots[a] == done[i] && nodes[a] == groups[i][0];
      var b: nat :| b < |nodes| && roots[b] == done[j] && nodes[b] == groups[j][0];
    }
  }

  lemma SortedGroups(nodes: seq<Node>, roots: seq<nat>, unsorted: seq<seq<Node>>, groups: seq<seq<Node>>)
    requires |roots| == |nodes| && GroupsOf(nodes, roots, unsorted)
    requires forall i, j :: 0 <= i < j < |unsorted| ==> FirstKey(unsorted[i]) != FirstKey(unsorted[j])
    requires Sorted(GroupLess, groups) && multiset(groups) == multiset(unsorted)
    ensures GroupsOf(nodes, roots, groups) && StrictlySorted(GroupLess, groups)
  {
    SortedGroupsStrict(unsorted, groups);
    PermutationSameElements(groups, unsorted);
    forall i | 0 <= i < |groups|
      ensures Grouped(nodes, roots, groups[i])
    {
      assert groups[i] in unsorted;
    }
    forall k: nat | k < |nodes|
      ensures InSome(groups, nodes[k])
    {
      InSomeAfterSort(unsorted, groups, nodes[k]);
    }
  }

  lemma InSomeAfterSort(unsorted: seq<seq<Node>>, groups: seq<seq<Node>>, x: Node)
    requires multiset(groups) == multiset(unsorted) && InSome(unsorted, x)
    ensures InSome(groups, x)
  {
    var j :| 0 <= j < |unsorted| && x in unsorted[j];
    assert unsorted[j] in multiset(unsorted);
    assert unsorted[j] in groups;
  }

  lemma SortedGroupsStrict(unsorted: seq<seq<Node>>, groups: seq<seq<Node>>)
    requires forall i, j :: 0 <= i < j < |unsorted| ==> FirstKey(unsorted[i]) != FirstKey(unsorted[j])
    requires Sorted(GroupLess, groups) && multiset(groups) == multiset(unsorted)
    ensures StrictlySorted(GroupLess, groups)
  {
    forall i, j | 0 <= i < j < |groups|
      ensures GroupLess(groups[i], groups[j])
    {
      DistinctAfterSort(unsorted, groups, i, j);
      assert groups[i] in multiset(unsorted) && groups[j] in multiset(unsorted);
      var a :| 0 <= a < |unsorted| && unsorted[a] == groups[i];
      var b :| 0 <= b < |unsorted| && unsorted[b] == groups[j];
      LessTotal(FirstKey(groups[i]), FirstKey(groups[j]));
    }
  }
}
