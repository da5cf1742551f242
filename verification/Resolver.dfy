/** graphResolveMaterialization and ResolveGraphEntities: the whole graph rewritten onto
    canonical keys. */
module Resolver {
  import opened EntityResolution
  import opened CanonicalKeyLaws
  import opened NodeMerge
  import opened Text
  import opened Sorting
  import opened Counting
  import E = EdgeRewrite
  import C = ChunkRewrite

  /** The counters of the snapshot row. The materialization shares it by reference, so
      resolving a copy of the materialization overwrites the counters of the original too. */
  class Snapshot {
    var entityCount: nat
    var edgeCount: nat
  }

  datatype Alias = Alias(canonical: string, source: string, name: string, entityType: string)

  datatype Materialization = Materialization(
    snapshot: Snapshot, nodes: seq<Node>, edges: seq<E.Edge>, chunks: seq<C.Chunk>, aliases: seq<Alias>)

  // ---- comparators ----

  predicate KeyLess(a: Node, b: Node) {
    Less(a.entityKey, b.entityKey)
  }

  lemma KeyLessWeakOrder()
    ensures WeakOrder(KeyLess)
  {
    forall a, b | KeyLess(a, b)
      ensures !KeyLess(b, a)
    {
      LessTotal(a.entityKey, b.entityKey);
    }
    forall a, b, c | KeyLess(a, c)
      ensures KeyLess(a, b) || KeyLess(b, c)
    {
      E.LessSplits(a.entityKey, b.entityKey, c.entityKey);
    }
  }

  predicate AliasLess(a: Alias, b: Alias) {
    if a.canonical == b.canonical then Less(a.source, b.source) else Less(a.canonical, b.canonical)
  }

  lemma AliasLessWeakOrder()
    ensures WeakOrder(AliasLess)
  {
    forall a, b | AliasLess(a, b)
      ensures !AliasLess(b, a)
    {
      LessTotal(a.canonical, b.canonical);
      LessTotal(a.source, b.source);
    }
    forall a, b, c | AliasLess(a, c)
      ensures AliasLess(a, b) || AliasLess(b, c)
    {
      AliasLessSplits(a, b, c);
    }
  }

  lemma AliasLessSplits(a: Alias, b: Alias, c: Alias)
    requires AliasLess(a, c)
    ensures AliasLess(a, b) || AliasLess(b, c)
  {
    LessTotal(a.canonical, b.canonical);
    LessTotal(b.canonical, c.canonical);
    LessTotal(a.canonical, c.canonical);
    if a.canonical != c.canonical {
      E.LessSplits(a.canonical, b.canonical, c.canonical);
    } else if a.canonical == b.canonical {
      E.LessSplits(a.source, b.source, c.source);
    }
  }

  // ---- the rewrite ----

  function AliasOf(m: map<string, string>, node: Node): Alias {
    Alias(CanonicalKey(m, node.entityKey), node.entityKey, node.name, node.entityType)
  }

  function AliasesOf(m: map<string, string>, nodes: seq<Node>): seq<Alias> {
    seq(|nodes|, i requires 0 <= i < |nodes| => AliasOf(m, nodes[i]))
  }

  /** Everything the rewrite promises about its output, given the sorted nodes. */
  ghost predicate Rewritten(mat: Materialization, nodes: seq<Node>, m: map<string, string>, out: Materialization) {
    && out.snapshot == mat.snapshot
    && ListsMerged(out.nodes, Merged(nodes, m, NodeByKey(nodes))) && StrictlySorted(KeyLess, out.nodes)
    && multiset(out.aliases) == multiset(AliasesOf(m, nodes)) && Sorted(AliasLess, out.aliases)
    && multiset(out.chunks) == multiset(C.Deduped(mat.chunks, m)) && Sorted(C.ChunkLess, out.chunks)
    && E.ListsGroups(out.edges, E.Grouped(mat.edges, m))
  }

  lemma MergedListed(values: seq<Node>, sorted: seq<Node>, merged: map<string, Node>)
    requires forall c :: c in merged ==> merged[c].entityKey == c
    requires forall v :: v in values <==> exists k :: k in merged && merged[k] == v
    requires forall i, j :: 0 <= i < j < |values| ==> values[i].entityKey != values[j].entityKey
    requires multiset(sorted) == multiset(values) && Sorted(KeyLess, sorted)
    ensures ListsMerged(sorted, merged) && StrictlySorted(KeyLess, sorted)
  {
    PermutationSameElements(sorted, values);
    forall i | 0 <= i < |sorted|
      ensures sorted[i].entityKey in merged && sorted[i] == merged[sorted[i].entityKey]
    {
      assert sorted[i] in values;
    }
    forall i, j | 0 <= i < j < |sorted|
      ensures sorted[i].entityKey != sorted[j].entityKey && KeyLess(sorted[i], sorted[j])
    {
      DistinctAfterSort(values, sorted, i, j);
      LessTotal(sorted[i].entityKey, sorted[j].entityKey);
    }
    forall c | c in merged
      ensures exists i :: 0 <= i < |sorted| && sorted[i].entityKey == c
    {
      assert merged[c] in values;
      assert merged[c] in sorted;
    }
  }

  method OutputNodes(nodes: seq<Node>, canonicalByKey: map<string, string>) returns (outNodes: seq<Node>)
    requires Based(nodes, canonicalByKey, NodeByKey(nodes))
    ensures ListsMerged(outNodes, Merged(nodes, canonicalByKey, NodeByKey(nodes))) && StrictlySorted(KeyLess, outNodes)
  {
    var nodeByKey := IndexNodes(nodes);
    var canonicalNodes := MergeNodes(nodes, canonicalByKey, nodeByKey);
    forall c | c in canonicalNodes
      ensures canonicalNodes[c].entityKey == c
    {
      MergedMeaning(nodes, canonicalByKey, nodeByKey, c);
    }
    var values := E.Values(canonicalNodes, (n: Node) => n.entityKey);
    KeyLessWeakOrder();
    outNodes := Sort(values, KeyLess);
    MergedListed(values, outNodes, canonicalNodes);
  }

  method OutputAliases(nodes: seq<Node>, canonicalByKey: map<string, string>) returns (aliases: seq<Alias>)
    ensures multiset(aliases) == multiset(AliasesOf(canonicalByKey, nodes)) && Sorted(AliasLess, aliases)
  {
    aliases := [];
    for i := 0 to |nodes|
      invariant aliases == AliasesOf(canonicalByKey, nodes)[..i]
    {
      aliases := aliases + [AliasOf(canonicalByKey, nodes[i])];
    }
    assert aliases == AliasesOf(canonicalByKey, nodes);
    AliasLessWeakOrder();
    aliases := Sort(aliases, AliasLess);
  }

  method ResolveMaterialization(mat: Materialization, nodes: seq<Node>, canonicalByKey: map<string, string>)
    returns (resolved: Materialization)
    requires Based(nodes, canonicalByKey, NodeByKey(nodes))
    modifies mat.snapshot
    ensures Rewritten(mat, nodes, canonicalByKey, resolved)
    ensures mat.snapshot.entityCount == |resolved.nodes| && mat.snapshot.edgeCount == |resolved.edges|
  {
    var outNodes := OutputNodes(nodes, canonicalByKey);
    var aliases := OutputAliases(nodes, canonicalByKey);
    var chunks := C.ResolvedNodeChunks(mat.chunks, canonicalByKey);
    var edges := E.ResolvedEdges(mat.edges, canonicalByKey);
    resolved := mat.(nodes := outNodes, aliases := aliases, chunks := chunks, edges := edges);
    resolved.snapshot.entityCount := |outNodes|;
    resolved.snapshot.edgeCount := |edges|;
  }

  /** Canonical keys are node keys. A key may repeat: its last node decides. */
  lemma {:induction false} CanonicalIsNodeKey(q: Query, m: map<string, string>, key: string)
    requires q.WellFormed() && q.Canonicalizes(m) && key in m
    ensures q.NodeKey(m[key]) && m[key] in NodeByKey(q.nodes)
  {
    NodeByKeyMeaning(q.nodes);
    assert q.NodeKey(key);
    var i: nat :| i < |q.nodes| && q.nodes[i].entityKey == key;
    var l := LastOccurrence(q, i);
    assert q.CanonicalFor(l, m[key]);
    var k: nat :| k < |q.nodes| && q.Elected(l, k) && q.nodes[k].entityKey == m[key];
    KeyedAlong(q, l, k);
    assert q.nodes[k] in q.nodes;
  }

  lemma LastOccurrence(q: Query, i: nat) returns (l: nat)
    requires i < |q.nodes|
    ensures i <= l < |q.nodes| && q.nodes[l].entityKey == q.nodes[i].entityKey && q.LastWithKey(l)
    decreases |q.nodes| - i
  {
    if j: nat :| i < j < |q.nodes| && q.nodes[j].entityKey == q.nodes[i].entityKey {
      l := LastOccurrence(q, j);
    } else {
      l := i;
    }
  }

  lemma CanonicalMapIsBased(q: Query, m: map<string, string>)
    requires q.WellFormed() && q.Canonicalizes(m)
    ensures Based(q.nodes, m, NodeByKey(q.nodes))
  {
    NodeByKeyMeaning(q.nodes);
    forall node | node in q.nodes
      ensures CanonicalKey(m, node.entityKey) in NodeByKey(q.nodes)
    {
      if node.entityKey in m {
        CanonicalIsNodeKey(q, m, node.entityKey);
      }
    }
  }

  function QueryOf(nodes: seq<Node>, vectorOf: Node -> Vector, threshold: real, typeOf: string -> string): (q: Query)
    ensures q.WellFormed() && q.nodes == nodes && q.threshold == threshold && q.typeOf == typeOf
    ensures forall i: nat :: i < |nodes| ==> q.vectors[i] == vectorOf(nodes[i])
  {
    Query(nodes, seq(|nodes|, i requires 0 <= i < |nodes| => vectorOf(nodes[i])), threshold, typeOf)
  }

  /** What one call has computed, with the sorted nodes and the canonical map it used. */
  ghost predicate ResolvedAs(mat: Materialization, q: Query, m: map<string, string>, out: Materialization) {
    && q.WellFormed() && multiset(q.nodes) == multiset(mat.nodes) && Sorted(KeyLess, q.nodes)
    && q.Canonicalizes(m) && Rewritten(mat, q.nodes, m, out)
  }

  /** ResolveGraphEntities after its argument and embedding checks. `vectorOf` stands for the
      normalised embedding of a node's text. */
  method ResolveGraphEntities(mat: Materialization, vectorOf: Node -> Vector, threshold: real, typeOf: string -> string)
    returns (resolved: Materialization, ghost nodes: seq<Node>, ghost m: map<string, string>)
    modifies mat.snapshot
    ensures mat.nodes == [] ==> resolved == mat.(aliases := []) && unchanged(mat.snapshot)
    ensures mat.nodes != [] ==>
              && ResolvedAs(mat, QueryOf(nodes, vectorOf, threshold, typeOf), m, resolved)
              && mat.snapshot.entityCount == |resolved.nodes| && mat.snapshot.edgeCount == |resolved.edges|
  {
    if |mat.nodes| == 0 {
      resolved, nodes, m := mat.(aliases := []), [], map[];
      return;
    }
    KeyLessWeakOrder();
    var sorted := Sort(mat.nodes, KeyLess);
    var query := QueryOf(sorted, vectorOf, threshold, typeOf);
    var canonicalByKey := CanonicalEntityKeys(query);
    CanonicalMapIsBased(query, canonicalByKey);
    resolved := ResolveMaterialization(mat, sorted, canonicalByKey);
    nodes, m := sorted, canonicalByKey;
  }

  /** No two output nodes share a key, whatever the input: what the community builder relies on. */
  lemma OutputKeysDistinct(mat: Materialization, nodes: seq<Node>, m: map<string, string>, out: Materialization)
    requires Rewritten(mat, nodes, m, out)
    ensures DistinctNodes(out.nodes)
  {
    forall i: nat, j: nat | i < j < |out.nodes|
      ensures out.nodes[i].entityKey != out.nodes[j].entityKey
    {
      assert KeyLess(out.nodes[i], out.nodes[j]);
      LessTotal(out.nodes[i].entityKey, out.nodes[j].entityKey);
    }
  }

  // ---- conservation over the whole rewrite ----

  /** For all inputs: the rewrite loses only the mentions of overwritten key-less nodes; with
      distinct keys it loses none. */
  lemma RewriteConservesMentions(mat: Materialization, nodes: seq<Node>, m: map<string, string>, out: Materialization)
    requires multiset(nodes) == multiset(mat.nodes)
    requires Based(nodes, m, NodeByKey(nodes)) && Rewritten(mat, nodes, m, out)
    ensures SumBy(out.nodes, Mentions) == SumBy(mat.nodes, Mentions) - LostMentions(nodes)
    ensures DistinctNodes(mat.nodes) ==> SumBy(out.nodes, Mentions) == SumBy(mat.nodes, Mentions)
  {
    MentionsConserved(nodes, m, out.nodes);
    SumByPermutation(nodes, mat.nodes, Mentions);
    if DistinctNodes(mat.nodes) {
      forall i, j | 0 <= i < j < |nodes|
        ensures nodes[i].entityKey != nodes[j].entityKey
      {
        KeysDistinctAfterSort(mat.nodes, nodes, i, j);
      }
      NothingLost(nodes);
    }
  }

  /** Every node has exactly one alias. */
  lemma OneAliasEach(nodes: seq<Node>, m: map<string, string>, aliases: seq<Alias>, k: nat)
    requires DistinctNodes(nodes) && k < |nodes| && multiset(aliases) == multiset(AliasesOf(m, nodes))
    ensures |aliases| == |nodes| && AliasOf(m, nodes[k]) in aliases
    ensures forall a :: a in aliases && a.source == nodes[k].entityKey ==> a == AliasOf(m, nodes[k])
    ensures multiset(aliases)[AliasOf(m, nodes[k])] == 1
  {
    var all := AliasesOf(m, nodes);
    PermutationSameElements(aliases, all);
    assert all[k] in all;
    forall a | a in aliases && a.source == nodes[k].entityKey
      ensures a == AliasOf(m, nodes[k])
    {
      var j :| 0 <= j < |all| && all[j] == a;
      assert nodes[j].entityKey == nodes[k].entityKey;
    }
    forall i, j | 0 <= i < j < |all|
      ensures all[i] != all[j]
    {
      assert nodes[i].entityKey != nodes[j].entityKey;
    }
    NoRepeats(all, all[k]);
  }

  lemma AliasIffMember(nodes: seq<Node>, m: map<string, string>, aliases: seq<Alias>, c: string)
    requires multiset(aliases) == multiset(AliasesOf(m, nodes))
    ensures (exists a :: a in aliases && a.canonical == c) <==> HasMember(nodes, m, c)
  {
    var all := AliasesOf(m, nodes);
    PermutationSameElements(aliases, all);
    if HasMember(nodes, m, c) {
      var node :| node in nodes && CanonicalKey(m, node.entityKey) == c;
      var k :| 0 <= k < |nodes| && nodes[k] == node;
      assert all[k].canonical == c && all[k] in aliases;
    }
    if a :| a in aliases && a.canonical == c {
      var j :| 0 <= j < |all| && all[j] == a;
      assert CanonicalKey(m, nodes[j].entityKey) == c && nodes[j] in nodes;
    }
  }

  /** Aliases point at output nodes, and every output node has one. */
  lemma AliasTargetIsOutput(mat: Materialization, nodes: seq<Node>, m: map<string, string>, out: Materialization,
                            c: string)
    requires Based(nodes, m, NodeByKey(nodes)) && Rewritten(mat, nodes, m, out)
    ensures (exists i :: 0 <= i < |out.nodes| && out.nodes[i].entityKey == c) <==> HasMember(nodes, m, c)
    ensures (exists i :: 0 <= i < |out.nodes| && out.nodes[i].entityKey == c) <==>
            exists a :: a in out.aliases && a.canonical == c
  {
    MergedMeaning(nodes, m, NodeByKey(nodes), c);
    AliasIffMember(nodes, m, out.aliases, c);
  }

  lemma ImageHasMember(q: Query, m: map<string, string>, key: string)
    requires q.WellFormed() && q.Canonicalizes(m) && key in m
    ensures HasMember(q.nodes, m, m[key])
  {
    CanonicalIsNodeKey(q, m, key);
    assert q.NodeKey(key);
    var i: nat :| i < |q.nodes| && q.nodes[i].entityKey == key;
    assert CanonicalKey(m, q.nodes[i].entityKey) == m[key] && q.nodes[i] in q.nodes;
  }

  lemma MemberInImage(q: Query, m: map<string, string>, i: nat)
    requires q.WellFormed() && q.Canonicalizes(m) && i < |q.nodes| && q.Keyed(i)
    ensures q.nodes[i].entityKey in m && m[q.nodes[i].entityKey] == CanonicalKey(m, q.nodes[i].entityKey)
  {
    CanonicalIsNodeKey(q, m, q.nodes[i].entityKey);
  }

  lemma MemberIffImage(q: Query, m: map<string, string>, c: string)
    requires q.WellFormed() && q.Canonicalizes(m)
    requires forall i: nat :: i < |q.nodes| ==> q.Keyed(i)
    ensures HasMember(q.nodes, m, c) <==> exists key :: key in m && m[key] == c
  {
    if key :| key in m && m[key] == c {
      ImageHasMember(q, m, key);
    }
    if node :| node in q.nodes && CanonicalKey(m, node.entityKey) == c {
      var i: nat :| i < |q.nodes| && q.nodes[i] == node;
      MemberInImage(q, m, i);
    }
  }

  /** The output keys are exactly the image of the canonical map. */
  lemma OutputKeysAreImage(mat: Materialization, q: Query, m: map<string, string>, out: Materialization, c: string)
    requires ResolvedAs(mat, q, m, out)
    requires forall i: nat :: i < |q.nodes| ==> q.Keyed(i)
    ensures (exists i :: 0 <= i < |out.nodes| && out.nodes[i].entityKey == c) <==> exists key :: key in m && m[key] == c
  {
    CanonicalMapIsBased(q, m);
    AliasTargetIsOutput(mat, q.nodes, m, out, c);
    MemberIffImage(q, m, c);
  }

  // ---- determinism ----

  lemma SortedNodesUnique(a: seq<Node>, b: seq<Node>, x: seq<Node>, y: seq<Node>)
    requires DistinctNodes(a) && multiset(a) == multiset(b)
    requires multiset(x) == multiset(a) && multiset(y) == multiset(b)
    requires Sorted(KeyLess, x) && Sorted(KeyLess, y)
    ensures x == y && DistinctNodes(x)
  {
    StrictByKey(a, x);
    StrictByKey(a, y);
    PermutationSameElements(x, y);
    KeyLessWeakOrder();
    StrictlySortedUnique(KeyLess, x, y);
  }

  lemma StrictByKey(a: seq<Node>, x: seq<Node>)
    requires DistinctNodes(a) && multiset(x) == multiset(a) && Sorted(KeyLess, x)
    ensures StrictlySorted(KeyLess, x) && DistinctNodes(x)
  {
    forall i, j | 0 <= i < j < |x|
      ensures x[i].entityKey != x[j].entityKey && KeyLess(x[i], x[j])
    {
      KeysDistinctAfterSort(a, x, i, j);
      LessTotal(x[i].entityKey, x[j].entityKey);
    }
  }

  lemma ListsMergedUnique(x: seq<Node>, y: seq<Node>, merged: map<string, Node>)
    requires ListsMerged(x, merged) && ListsMerged(y, merged)
    requires StrictlySorted(KeyLess, x) && StrictlySorted(KeyLess, y)
    ensures x == y
  {
    forall n
      ensures n in x <==> n in y
    {
      if n in x {
        var i :| 0 <= i < |x| && x[i] == n;
        var j :| 0 <= j < |y| && y[j].entityKey == n.entityKey;
        assert y[j] == n;
      }
      if n in y {
        var i :| 0 <= i < |y| && y[i] == n;
        var j :| 0 <= j < |x| && x[j].entityKey == n.entityKey;
        assert x[j] == n;
      }
    }
    KeyLessWeakOrder();
    StrictlySortedUnique(KeyLess, x, y);
  }

  lemma ListsGroupsUnique(x: seq<E.Edge>, y: seq<E.Edge>, table: map<string, E.Edge>)
    requires E.ListsGroups(x, table) && E.ListsGroups(y, table)
    ensures x == y
  {
    E.TripleLessWeakOrder();
    StrictlySortedUnique(E.TripleLess, x, y);
  }

  lemma SameCanonicalMap(q: Query, m: map<string, string>, m': map<string, string>)
    requires Resolved(q, m) && Resolved(q, m')
    ensures m == m'
  {
    var id := (i: nat) => i;
    OrderIndependent(q, q, id, id, m, m');
  }

  /** Listing the same distinct entities in another order changes neither the canonical map nor
      the resolved nodes and edges. */
  lemma ResolutionIgnoresNodeOrder(mat: Materialization, mat': Materialization, vectorOf: Node -> Vector,
                                   threshold: real, typeOf: string -> string,
                                   nodes: seq<Node>, nodes': seq<Node>, m: map<string, string>, m': map<string, string>,
                                   out: Materialization, out': Materialization)
    requires ResolvedAs(mat, QueryOf(nodes, vectorOf, threshold, typeOf), m, out)
    requires ResolvedAs(mat', QueryOf(nodes', vectorOf, threshold, typeOf), m', out')
    requires multiset(mat.nodes) == multiset(mat'.nodes) && DistinctNodes(mat.nodes) && mat.edges == mat'.edges
    ensures m == m' && out.nodes == out'.nodes && out.edges == out'.edges
    ensures multiset(out.aliases) == multiset(out'.aliases)
  {
    SortedNodesUnique(mat.nodes, mat'.nodes, nodes, nodes');
    var q := QueryOf(nodes, vectorOf, threshold, typeOf);
    SameCanonicalMap(q, m, m');
    ListsMergedUnique(out.nodes, out'.nodes, Merged(nodes, m, NodeByKey(nodes)));
    ListsGroupsUnique(out.edges, out'.edges, E.Grouped(mat.edges, m));
  }
}
