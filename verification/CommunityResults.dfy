/** The second half of graphMaterializationWithCommunities: communities, members and edge
    counts read off the groups. */
module CommunityResults {
  import opened Connectivity
  import opened DisjointSets
  import opened Text
  import opened Sorting
  import opened EntityResolution
  import opened Communities
  import E = EdgeRewrite
  import R = Resolver

  datatype CommunityGraph = CommunityGraph(
    nodes: seq<Node>, edges: seq<E.Edge>, communities: seq<Community>, members: seq<Member>)

  // ---- groups are components ----

  ghost predicate Indexes(nodes: seq<Node>, index: map<string, nat>) {
    && (forall key :: key in index <==> KnownKey(nodes, key))
    && (forall key :: key in index ==> index[key] < |nodes| && nodes[index[key]].entityKey == key)
  }

  lemma LinkedByKey(nodes: seq<Node>, edges: seq<E.Edge>, index: map<string, nat>, i: nat, j: nat)
    requires DistinctNodes(nodes) && Indexes(nodes, index) && i < |nodes| && j < |nodes|
    ensures Connected<nat>(IndexPairs(index, edges), i, j) <==> Together(nodes, edges, nodes[i], nodes[j])
  {
    var there := (k: nat) => if k < |nodes| then nodes[k].entityKey else "";
    var back := (key: string) => if key in index then index[key] else 0;
    if Connected<nat>(IndexPairs(index, edges), i, j) {
      forall a: nat, b: nat | (a, b) in IndexPairs(index, edges)
        ensures Adjacent(KnownPairs(nodes, edges), there(a), there(b))
      {
        var e :| e in edges && e.source in index && e.target in index && a == index[e.source] && b == index[e.target];
        assert KnownEdge(nodes, e);
      }
      ConnectedImage<nat, string>(IndexPairs(index, edges), KnownPairs(nodes, edges), there, i, j);
    }
    if Together(nodes, edges, nodes[i], nodes[j]) {
      forall a, b | (a, b) in KnownPairs(nodes, edges)
        ensures Adjacent(IndexPairs(index, edges), back(a), back(b))
      {
        var e :| e in edges && KnownEdge(nodes, e) && a == e.source && b == e.target;
        assert e.source in index && e.target in index;
      }
      ConnectedImage<string, nat>(KnownPairs(nodes, edges), IndexPairs(index, edges), back, nodes[i].entityKey,
                                  nodes[j].entityKey);
      assert back(nodes[i].entityKey) == i && back(nodes[j].entityKey) == j;
    }
  }

  ghost predicate RootsAreComponents(nodes: seq<Node>, edges: seq<E.Edge>, roots: seq<nat>) {
    |roots| == |nodes| && forall i: nat, j: nat {:trigger roots[i], roots[j]} :: i < |nodes| && j < |nodes| ==>
                            (roots[i] == roots[j] <==> Together(nodes, edges, nodes[i], nodes[j]))
  }

  lemma ComponentRoots(nodes: seq<Node>, edges: seq<E.Edge>, index: map<string, nat>, components: DisjointSet)
    requires DistinctNodes(nodes) && Indexes(nodes, index)
    requires components.Valid() && components.parent.Length == |nodes| && components.united == IndexPairs(index, edges)
    ensures RootsAreComponents(nodes, edges, components.roots)
  {
    forall i: nat, j: nat | i < |nodes| && j < |nodes|
      ensures components.roots[i] == components.roots[j] <==> Together(nodes, edges, nodes[i], nodes[j])
    {
      components.RootsAreComponents(i, j);
      LinkedByKey(nodes, edges, index, i, j);
    }
  }

  lemma SameGroupIffTogether(nodes: seq<Node>, edges: seq<E.Edge>, roots: seq<nat>, groups: seq<seq<Node>>, i: nat,
                             j: nat, x: Node, y: Node)
    requires DistinctNodes(nodes) && RootsAreComponents(nodes, edges, roots) && GroupsOf(nodes, roots, groups)
    requires StrictlySorted(GroupLess, groups)
    requires i < |groups| && j < |groups| && x in groups[i] && y in groups[j]
    ensures i == j <==> Together(nodes, edges, x, y)
  {
    assert Grouped(nodes, roots, groups[i]) && Grouped(nodes, roots, groups[j]);
    var r: nat :| IsGroup(nodes, roots, r, groups[i]);
    var t: nat :| IsGroup(nodes, roots, t, groups[j]);
    var a: nat :| a < |nodes| && roots[a] == r && nodes[a] == x;
    var b: nat :| b < |nodes| && roots[b] == t && nodes[b] == y;
    assert roots[a] == roots[b] <==> Together(nodes, edges, x, y);
    if r == t {
      SameMembersSameGroup(nodes, roots, r, groups[i], groups[j]);
      LessTotal(FirstKey(groups[i]), FirstKey(groups[i]));
    }
    if i == j {
      SameNodeSameRoot(nodes, roots, r, t, groups[i]);
    }
  }

  lemma SameNodeSameRoot(nodes: seq<Node>, roots: seq<nat>, r: nat, t: nat, g: seq<Node>)
    requires |roots| == |nodes| && DistinctNodes(nodes) && IsGroup(nodes, roots, r, g) && IsGroup(nodes, roots, t, g)
    ensures r == t
  {
    assert g[0] in g;
    var a: nat :| a < |nodes| && roots[a] == r && nodes[a] == g[0];
    var b: nat :| b < |nodes| && roots[b] == t && nodes[b] == g[0];
  }

  lemma SameMembersSameGroup(nodes: seq<Node>, roots: seq<nat>, r: nat, g: seq<Node>, h: seq<Node>)
    requires |roots| == |nodes| && IsGroup(nodes, roots, r, g) && IsGroup(nodes, roots, r, h)
    ensures g == h
  {
    NodeLessWeakOrder();
    StrictlySortedUnique(NodeLess, g, h);
  }

  lemma GroupsPartition(nodes: seq<Node>, edges: seq<E.Edge>, roots: seq<nat>, groups: seq<seq<Node>>)
    requires DistinctNodes(nodes) && RootsAreComponents(nodes, edges, roots) && GroupsOf(nodes, roots, groups)
    requires StrictlySorted(GroupLess, groups)
    ensures Partition(nodes, edges, groups)
  {
    forall i | 0 <= i < |groups|
      ensures groups[i] != [] && StrictlySorted(NodeLess, groups[i])
      ensures forall x :: x in groups[i] ==> x in nodes
    {
      assert Grouped(nodes, roots, groups[i]);
    }
    forall i, j, x, y | 0 <= i < |groups| && 0 <= j < |groups| && x in groups[i] && y in groups[j]
      ensures i == j <==> Together(nodes, edges, x, y)
    {
      SameGroupIffTogether(nodes, edges, roots, groups, i, j, x, y);
    }
    forall x
      ensures x in nodes <==> InSome(groups, x)
    {
      if x in nodes {
        var k :| 0 <= k < |nodes| && nodes[k] == x;
      }
    }
  }

  // ---- labels ----

  function KeysOf(groups: seq<seq<Node>>): seq<string> {
    seq(|groups|, i requires 0 <= i < |groups| => CommunityKey(i, groups[i]))
  }

  /** The entity-to-community table covers the groups before (i, b) in reading order. */
  ghost predicate Labels(nodes: seq<Node>, groups: seq<seq<Node>>, labels: seq<string>, ck: map<string, string>, i: nat,
                         b: nat)
    requires |labels| == |groups|
  {
    && (forall a, c {:trigger groups[a][c]} ::
          0 <= a < |groups| && 0 <= c < |groups[a]| && (a < i || (a == i && c < b)) ==>
          groups[a][c].entityKey in ck && ck[groups[a][c].entityKey] == labels[a])
    && (forall key {:trigger key in ck} :: key in ck ==> KnownKey(nodes, key))
  }

  lemma KeyInOneGroup(nodes: seq<Node>, edges: seq<E.Edge>, groups: seq<seq<Node>>, i: nat, b: nat)
    requires DistinctNodes(nodes) && Partition(nodes, edges, groups)
    requires i < |groups| && b < |groups[i]|
    ensures KnownKey(nodes, groups[i][b].entityKey)
    ensures forall a, c {:trigger groups[a][c]} ::
              0 <= a < |groups| && 0 <= c < |groups[a]| && groups[a][c].entityKey == groups[i][b].entityKey ==> a == i
  {
    var x := groups[i][b];
    assert x in groups[i] && InSome(groups, x);
    var k: nat :| k < |nodes| && nodes[k] == x;
    forall a, c {:trigger groups[a][c]} | 0 <= a < |groups| && 0 <= c < |groups[a]| &&
      groups[a][c].entityKey == x.entityKey
      ensures a == i
    {
      SameKeySameGroup(nodes, edges, groups, a, i, groups[a][c], x);
    }
  }

  lemma SameKeySameGroup(nodes: seq<Node>, edges: seq<E.Edge>, groups: seq<seq<Node>>, i: nat, j: nat, x: Node, y: Node)
    requires DistinctNodes(nodes) && Partition(nodes, edges, groups)
    requires i < |groups| && j < |groups| && x in groups[i] && y in groups[j] && x.entityKey == y.entityKey
    ensures i == j && x == y
  {
    assert InSome(groups, x) && InSome(groups, y);
    var a: nat :| a < |nodes| && nodes[a] == x;
    var b: nat :| b < |nodes| && nodes[b] == y;
    ConnectedRefl<string>(KnownPairs(nodes, edges), x.entityKey);
  }

  method LabelEntities(groups: seq<seq<Node>>, ghost nodes: seq<Node>, ghost edges: seq<E.Edge>)
      returns (communityKeyByEntityKey: map<string, string>)
    requires DistinctNodes(nodes) && Partition(nodes, edges, groups)
    ensures Labels(nodes, groups, KeysOf(groups), communityKeyByEntityKey, |groups|, 0)
  {
    ghost var labels := KeysOf(groups);
    communityKeyByEntityKey := map[];
    for i := 0 to |groups|
      invariant Labels(nodes, groups, labels, communityKeyByEntityKey, i, 0)
    {
      var communityKey := CommunityKey(i, groups[i]);
      for b := 0 to |groups[i]|
        invariant Labels(nodes, groups, labels, communityKeyByEntityKey, i, b)
      {
        KeyInOneGroup(nodes, edges, groups, i, b);
        communityKeyByEntityKey := communityKeyByEntityKey[groups[i][b].entityKey := communityKey];
      }
    }
  }

  // ---- edge counts ----

  function LabelOf(ck: map<string, string>, key: string): string {
    if key in ck then ck[key] else ""
  }

  /** The community an edge is counted for, or "". */
  function EdgeLabel(ck: map<string, string>, e: E.Edge): string {
    var source, target := LabelOf(ck, e.source), LabelOf(ck, e.target);
    if source == "" || source != target then "" else source
  }

  function LabelledEdges(edges: seq<E.Edge>, ck: map<string, string>, k: string): nat {
    if edges == [] then 0
    else LabelledEdges(edges[..|edges| - 1], ck, k) + if EdgeLabel(ck, edges[|edges| - 1]) == k then 1 else 0
  }

  function CountOf(counts: map<string, nat>, k: string): nat {
    if k in counts then counts[k] else 0
  }

  method CountEdges(edges: seq<E.Edge>, communityKeyByEntityKey: map<string, string>) returns (counts: map<string, nat>)
    ensures forall k :: k != "" ==> CountOf(counts, k) == LabelledEdges(edges, communityKeyByEntityKey, k)
  {
    counts := map[];
    for i := 0 to |edges|
      invariant forall k :: k != "" ==> CountOf(counts, k) == LabelledEdges(edges[..i], communityKeyByEntityKey, k)
    {
      assert edges[..i + 1][..i] == edges[..i];
      var source := LabelOf(communityKeyByEntityKey, edges[i].source);
      var target := LabelOf(communityKeyByEntityKey, edges[i].target);
      if source == "" || source != target {
        continue;
      }
      counts := counts[source := CountOf(counts, source) + 1];
    }
    assert edges[..|edges|] == edges;
  }

  /** Both endpoints are in the group. */
  predicate HasKey(g: seq<Node>, key: string) {
    exists i :: 0 <= i < |g| && g[i].entityKey == key
  }

  predicate Inside(g: seq<Node>, e: E.Edge) {
    HasKey(g, e.source) && HasKey(g, e.target)
  }

  function EdgesInside(edges: seq<E.Edge>, g: seq<Node>): nat {
    if edges == [] then 0
    else EdgesInside(edges[..|edges| - 1], g) + if Inside(g, edges[|edges| - 1]) then 1 else 0
  }

  lemma LabelIffHasKey(nodes: seq<Node>, edges: seq<E.Edge>, groups: seq<seq<Node>>, ck: map<string, string>, i: nat,
                       key: string)
    requires DistinctNodes(nodes) && Partition(nodes, edges, groups)
    requires Labels(nodes, groups, KeysOf(groups), ck, |groups|, 0) && i < |groups|
    ensures LabelOf(ck, key) == KeysOf(groups)[i] <==> HasKey(groups[i], key)
  {
    assert KeysOf(groups)[i] == CommunityKey(i, groups[i]) != "";
    if b :| 0 <= b < |groups[i]| && groups[i][b].entityKey == key {
      assert ck[key] == KeysOf(groups)[i];
    }
    if key in ck && ck[key] == KeysOf(groups)[i] {
      var a, c := Labelled(nodes, edges, groups, ck, key);
      CommunityKeyInjective(a, i, groups[a], groups[i]);
    }
  }

  lemma Labelled(nodes: seq<Node>, edges: seq<E.Edge>, groups: seq<seq<Node>>, ck: map<string, string>, key: string)
      returns (a: nat, c: nat)
    requires Partition(nodes, edges, groups) && Labels(nodes, groups, KeysOf(groups), ck, |groups|, 0) && key in ck
    ensures a < |groups| && c < |groups[a]| && groups[a][c].entityKey == key && ck[key] == CommunityKey(a, groups[a])
  {
    assert KnownKey(nodes, key);
    var k: nat :| k < |nodes| && nodes[k].entityKey == key;
    assert InSome(groups, nodes[k]);
    a :| 0 <= a < |groups| && nodes[k] in groups[a];
    c :| 0 <= c < |groups[a]| && groups[a][c] == nodes[k];
    assert ck[key] == KeysOf(groups)[a];
  }

  lemma {:induction false} CountsAreInside(nodes: seq<Node>, all: seq<E.Edge>, edges: seq<E.Edge>,
                                           groups: seq<seq<Node>>, ck: map<string, string>, i: nat)
    requires DistinctNodes(nodes) && Partition(nodes, all, groups)
    requires Labels(nodes, groups, KeysOf(groups), ck, |groups|, 0) && i < |groups|
    ensures LabelledEdges(edges, ck, KeysOf(groups)[i]) == EdgesInside(edges, groups[i])
  {
    if edges != [] {
      CountsAreInside(nodes, all, edges[..|edges| - 1], groups, ck, i);
      LabelIffHasKey(nodes, all, groups, ck, i, edges[|edges| - 1].source);
      LabelIffHasKey(nodes, all, groups, ck, i, edges[|edges| - 1].target);
    }
  }

  // ---- the result ----

  function MembersIn(g: seq<Node>, communityKey: string): seq<Member> {
    seq(|g|, b requires 0 <= b < |g| => Member(g[b].entityKey, communityKey))
  }

  function MembersOf(groups: seq<seq<Node>>, labels: seq<string>): seq<Member>
    requires |labels| == |groups|
  {
    if groups == [] then []
    else
      var last := |groups| - 1;
      MembersOf(groups[..last], labels[..last]) + MembersIn(groups[last], labels[last])
  }

  /** Community i is group i, with its number of nodes and of edges inside it. */
  ghost predicate Describes(edges: seq<E.Edge>, groups: seq<seq<Node>>, communities: seq<Community>,
                            members: seq<Member>) {
    && |communities| == |groups|
    && (forall i {:trigger communities[i]} :: 0 <= i < |groups| ==>
          communities[i] == Community(KeysOf(groups)[i], |groups[i]|, EdgesInside(edges, groups[i])))
    && members == MembersOf(groups, KeysOf(groups))
  }

  method ListMembers(group: seq<Node>, communityKey: string) returns (members: seq<Member>)
    ensures members == MembersIn(group, communityKey)
  {
    members := [];
    for b := 0 to |group|
      invariant members == MembersIn(group, communityKey)[..b]
    {
      members := members + [Member(group[b].entityKey, communityKey)];
    }
  }

  method FormatKeys(groups: seq<seq<Node>>) returns (labels: seq<string>)
    ensures labels == KeysOf(groups)
  {
    labels := [];
    for i := 0 to |groups|
      invariant labels == KeysOf(groups)[..i]
    {
      labels := labels + [CommunityKey(i, groups[i])];
    }
  }

  /** The last loop of the source, which fills both lists. */
  method ListCommunities(groups: seq<seq<Node>>, labels: seq<string>, counts: map<string, nat>)
    returns (communities: seq<Community>, members: seq<Member>)
    requires |labels| == |groups|
    ensures |communities| == |groups| && members == MembersOf(groups, labels)
    ensures forall i :: 0 <= i < |groups| ==> communities[i] ==
                                              Community(labels[i], |groups[i]|, CountOf(counts, labels[i]))
  {
    communities, members := [], [];
    for i := 0 to |groups|
      invariant |communities| == i && members == MembersOf(groups[..i], labels[..i])
      invariant forall a :: 0 <= a < i ==> communities[a] ==
                                           Community(labels[a], |groups[a]|, CountOf(counts, labels[a]))
    {
      assert groups[..i + 1][..i] == groups[..i] && labels[..i + 1][..i] == labels[..i];
      communities := communities + [Community(labels[i], |groups[i]|, CountOf(counts, labels[i]))];
      var here := ListMembers(groups[i], labels[i]);
      members := members + here;
    }
    assert groups[..|groups|] == groups && labels[..|groups|] == labels;
  }

  method FindGroups(nodes: seq<Node>, edges: seq<E.Edge>) returns (groups: seq<seq<Node>>)
    requires DistinctNodes(nodes)
    ensures Partition(nodes, edges, groups)
  {
    var nodeIndexByKey := IndexByKey(nodes);
    var components := Components(|nodes|, edges, nodeIndexByKey);
    ComponentRoots(nodes, edges, nodeIndexByKey, components);
    ghost var roots := components.roots;
    var nodeIndexesByRoot := CollectByRoot(components);
    groups := CommunityGroups(nodeIndexesByRoot, nodes, roots);
    GroupsPartition(nodes, edges, roots, groups);
  }

  method WithCommunities(graph: CommunityGraph) returns (resolved: CommunityGraph, ghost groups: seq<seq<Node>>)
    requires DistinctNodes(graph.nodes)
    ensures graph.nodes == [] ==> resolved == graph
    ensures graph.nodes != [] ==>
              && resolved.nodes == graph.nodes && resolved.edges == graph.edges
              && Partition(graph.nodes, graph.edges, groups)
              && Describes(graph.edges, groups, resolved.communities, resolved.members)
  {
    if graph.nodes == [] {
      resolved, groups := graph, [];
      return;
    }
    R.KeyLessWeakOrder();
    var nodes := Sort(graph.nodes, R.KeyLess);
    DistinctSorted(graph.nodes, nodes);
    var found := FindGroups(nodes, graph.edges);
    var communityKeyByEntityKey := LabelEntities(found, nodes, graph.edges);
    var counts := CountEdges(graph.edges, communityKeyByEntityKey);
    var labels := FormatKeys(found);
    var communities, members := ListCommunities(found, labels, counts);
    forall i | 0 <= i < |found|
      ensures communities[i].edgeCount == EdgesInside(graph.edges, found[i])
    {
      CountsAreInside(nodes, graph.edges, graph.edges, found, communityKeyByEntityKey, i);
      assert labels[i] == CommunityKey(i, found[i]) != "";
    }
    resolved := graph.(communities := communities, members := members);
    groups := found;
    SortedPartition(graph.nodes, nodes, graph.edges, groups);
  }

  lemma DistinctSorted(a: seq<Node>, b: seq<Node>)
    requires DistinctNodes(a) && multiset(b) == multiset(a)
    ensures DistinctNodes(b)
  {
    forall i: nat, j: nat | i < j < |b|
      ensures b[i].entityKey != b[j].entityKey
    {
      KeysDistinctAfterSort(a, b, i, j);
    }
  }

  /** A partition of the nodes does not care how the nodes were listed. */
  lemma SortedPartition(a: seq<Node>, b: seq<Node>, edges: seq<E.Edge>, groups: seq<seq<Node>>)
    requires multiset(b) == multiset(a) && Partition(b, edges, groups)
    ensures Partition(a, edges, groups)
  {
    SameKnownPairs(a, b, edges, edges);
    PermutationSameElements(a, b);
  }

  lemma SameKnownKeys(a: seq<Node>, b: seq<Node>, key: string)
    requires multiset(b) == multiset(a) && KnownKey(a, key)
    ensures KnownKey(b, key)
  {
    var i: nat :| i < |a| && a[i].entityKey == key;
    assert a[i] in multiset(b);
    var j: nat :| j < |b| && b[j] == a[i];
  }

  lemma SameKnownPairs(a: seq<Node>, b: seq<Node>, e: seq<E.Edge>, f: seq<E.Edge>)
    requires multiset(b) == multiset(a) && multiset(e) == multiset(f)
    ensures KnownPairs(a, e) == KnownPairs(b, f)
  {
    forall key
      ensures KnownKey(a, key) <==> KnownKey(b, key)
    {
      if KnownKey(a, key) { SameKnownKeys(a, b, key); }
      if KnownKey(b, key) { SameKnownKeys(b, a, key); }
    }
    PermutationSameElements(e, f);
  }
}
