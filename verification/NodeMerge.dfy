/** The node half of graphResolveMaterialization: every node is added to its canonical
    node, and one alias is recorded for it. */
module NodeMerge {
  import opened EntityResolution
  import opened Text
  import opened Counting

  /** graphCanonicalKey. */
  function CanonicalKey(canonicalByKey: map<string, string>, entityKey: string): (c: string)
    ensures c == "" ==> entityKey == ""
  {
    if entityKey in canonicalByKey && canonicalByKey[entityKey] != "" then canonicalByKey[entityKey] else entityKey
  }

  function KeyOf(m: map<string, string>): Node -> string {
    (node: Node) => CanonicalKey(m, node.entityKey)
  }

  const Mentions: Node -> int := (node: Node) => node.mentionCount

  const ZeroNode := Node("", "", "", "", 0)

  // ---- what the two loops compute ----

  function NodeByKey(nodes: seq<Node>): map<string, Node> {
    if nodes == [] then map[]
    else
      var last := nodes[|nodes| - 1];
      NodeByKey(nodes[..|nodes| - 1])[last.entityKey := last]
  }

  lemma {:induction false} NodeByKeyMeaning(nodes: seq<Node>)
    ensures forall node {:trigger node.entityKey in NodeByKey(nodes)} :: node in nodes ==>
              node.entityKey in NodeByKey(nodes)
    ensures forall key {:trigger NodeByKey(nodes)[key]} :: key in NodeByKey(nodes) ==>
              NodeByKey(nodes)[key].entityKey == key
  {
    if nodes != [] {
      assert nodes == nodes[..|nodes| - 1] + [nodes[|nodes| - 1]];
      NodeByKeyMeaning(nodes[..|nodes| - 1]);
    }
  }

  function Lookup(table: map<string, Node>, key: string): Node {
    if key in table then table[key] else ZeroNode
  }

  /** One iteration: the canonical node after `node` has been added to it. */
  function Absorb(canonical: Node, base: Node, node: Node): Node {
    var start := if canonical.entityKey == "" then base.(mentionCount := 0) else canonical;
    var counted := start.(mentionCount := start.mentionCount + node.mentionCount);
    if counted.description == "" && !Blank(node.description) then counted.(description := TrimSpace(node.description))
    else counted
  }

  function Merged(nodes: seq<Node>, m: map<string, string>, byKey: map<string, Node>): map<string, Node> {
    if nodes == [] then map[]
    else
      var prev := Merged(nodes[..|nodes| - 1], m, byKey);
      var node := nodes[|nodes| - 1];
      var c := CanonicalKey(m, node.entityKey);
      prev[c := Absorb(Lookup(prev, c), Lookup(byKey, c), node)]
  }

  // ---- what the result means ----

  predicate Keyless(node: Node) {
    |node.entityKey| == 0
  }

  /** Mentions of the nodes of one cluster. A node without a key restarts the count of the
      empty key, so of several such nodes only the last one is counted. */
  function ClusterMentions(nodes: seq<Node>, m: map<string, string>, c: string): int {
    if nodes == [] then 0
    else
      var init, last := nodes[..|nodes| - 1], nodes[|nodes| - 1];
      if CanonicalKey(m, last.entityKey) != c then ClusterMentions(init, m, c)
      else (if |c| == 0 then 0 else ClusterMentions(init, m, c)) + last.mentionCount
  }

  /** Mentions of the nodes without a key that are followed by another one. */
  function LostMentions(nodes: seq<Node>): int {
    if nodes == [] then 0
    else
      var init, last := nodes[..|nodes| - 1], nodes[|nodes| - 1];
      if Keyless(last) then KeylessMentions(init) else LostMentions(init)
  }

  function KeylessMentions(nodes: seq<Node>): int {
    if nodes == [] then 0
    else
      var init, last := nodes[..|nodes| - 1], nodes[|nodes| - 1];
      KeylessMentions(init) + if Keyless(last) then last.mentionCount else 0
  }

  /** The first usable description among the nodes of a cluster. */
  function FirstDescription(nodes: seq<Node>, m: map<string, string>, c: string): string {
    if nodes == [] then ""
    else
      var d := FirstDescription(nodes[..|nodes| - 1], m, c);
      var node := nodes[|nodes| - 1];
      if d == "" && CanonicalKey(m, node.entityKey) == c then TrimSpace(node.description) else d
  }

  ghost predicate MergedNode(nodes: seq<Node>, m: map<string, string>, byKey: map<string, Node>, c: string, out: Node) {
    && c in byKey
    && out.entityKey == c && out.name == byKey[c].name && out.entityType == byKey[c].entityType
    && out.mentionCount == ClusterMentions(nodes, m, c)
    && (c != "" ==> out.description == if byKey[c].description != "" then byKey[c].description
                                       else FirstDescription(nodes, m, c))
  }

  ghost predicate HasMember(nodes: seq<Node>, m: map<string, string>, c: string) {
    exists node :: node in nodes && CanonicalKey(m, node.entityKey) == c
  }

  lemma {:induction false} NoMembers(nodes: seq<Node>, m: map<string, string>, c: string)
    requires !HasMember(nodes, m, c)
    ensures ClusterMentions(nodes, m, c) == 0 && FirstDescription(nodes, m, c) == ""
  {
    if nodes != [] {
      NoMembers(nodes[..|nodes| - 1], m, c);
    }
  }

  ghost predicate Based(nodes: seq<Node>, m: map<string, string>, byKey: map<string, Node>) {
    && "" !in m
    && (forall node {:trigger CanonicalKey(m, node.entityKey)} :: node in nodes ==>
          CanonicalKey(m, node.entityKey) in byKey)
    && (forall key {:trigger byKey[key]} :: key in byKey ==> byKey[key].entityKey == key)
  }

  /** Adding a node to its cluster. */
  lemma AbsorbMeaning(init: seq<Node>, last: Node, m: map<string, string>, byKey: map<string, Node>, prev: Node)
    requires var c := CanonicalKey(m, last.entityKey);
             && c in byKey && byKey[c].entityKey == c
             && (if HasMember(init, m, c) then MergedNode(init, m, byKey, c, prev) else prev == ZeroNode)
    ensures var c := CanonicalKey(m, last.entityKey);
            MergedNode(init + [last], m, byKey, c, Absorb(prev, byKey[c], last))
  {
    var c := CanonicalKey(m, last.entityKey);
    assert (init + [last])[..|init|] == init;
    if !HasMember(init, m, c) {
      NoMembers(init, m, c);
    }
  }

  /** The merged nodes are the image of the canonical map, each with the mentions and the
      first description of its whole cluster. */
  lemma {:induction false} MergedMeaning(nodes: seq<Node>, m: map<string, string>, byKey: map<string, Node>, c: string)
    requires Based(nodes, m, byKey)
    ensures c in Merged(nodes, m, byKey) <==> HasMember(nodes, m, c)
    ensures c in Merged(nodes, m, byKey) ==> MergedNode(nodes, m, byKey, c, Merged(nodes, m, byKey)[c])
  {
    if nodes != [] {
      var init, last := nodes[..|nodes| - 1], nodes[|nodes| - 1];
      assert nodes == init + [last];
      MergedMeaning(init, m, byKey, c);
      var prev := Merged(init, m, byKey);
      if CanonicalKey(m, last.entityKey) == c {
        AbsorbMeaning(init, last, m, byKey, Lookup(prev, c));
      }
    }
  }

  // ---- the loops ----

  method IndexNodes(nodes: seq<Node>) returns (nodeByKey: map<string, Node>)
    ensures nodeByKey == NodeByKey(nodes)
  {
    nodeByKey := map[];
    for i := 0 to |nodes|
      invariant nodeByKey == NodeByKey(nodes[..i])
    {
      assert nodes[..i + 1][..i] == nodes[..i];
      nodeByKey := nodeByKey[nodes[i].entityKey := nodes[i]];
    }
    assert nodes[..|nodes|] == nodes;
  }

  lemma MergedSnoc(nodes: seq<Node>, i: nat, m: map<string, string>, byKey: map<string, Node>)
    requires i < |nodes|
    ensures var prev, c := Merged(nodes[..i], m, byKey), CanonicalKey(m, nodes[i].entityKey);
            Merged(nodes[..i + 1], m, byKey) == prev[c := Absorb(Lookup(prev, c), Lookup(byKey, c), nodes[i])]
  {
    assert nodes[..i + 1][..i] == nodes[..i];
  }

  /** The body of the loop: which canonical node changes, and what it becomes. */
  method AbsorbNode(node: Node, canonicalByKey: map<string, string>, nodeByKey: map<string, Node>,
                    canonicalNodes: map<string, Node>)
    returns (canonicalKey: string, canonical: Node)
    ensures canonicalKey == CanonicalKey(canonicalByKey, node.entityKey)
    ensures canonical == Absorb(Lookup(canonicalNodes, canonicalKey), Lookup(nodeByKey, canonicalKey), node)
  {
    canonicalKey := if node.entityKey in canonicalByKey then canonicalByKey[node.entityKey] else "";
    if canonicalKey == "" {
      canonicalKey := node.entityKey;
    }
    canonical := Lookup(canonicalNodes, canonicalKey);
    if canonical.entityKey == "" {
      canonical := Lookup(nodeByKey, canonicalKey);
      canonical := canonical.(mentionCount := 0);
    }
    canonical := canonical.(mentionCount := canonical.mentionCount + node.mentionCount);
    if canonical.description == "" && !Blank(node.description) {
      canonical := canonical.(description := TrimSpace(node.description));
    }
  }

  method MergeNodes(nodes: seq<Node>, canonicalByKey: map<string, string>, nodeByKey: map<string, Node>)
    returns (canonicalNodes: map<string, Node>)
    ensures canonicalNodes == Merged(nodes, canonicalByKey, nodeByKey)
  {
    canonicalNodes := map[];
    for i := 0 to |nodes|
      invariant canonicalNodes == Merged(nodes[..i], canonicalByKey, nodeByKey)
    {
      MergedSnoc(nodes, i, canonicalByKey, nodeByKey);
      var canonicalKey, canonical := AbsorbNode(nodes[i], canonicalByKey, nodeByKey, canonicalNodes);
      canonicalNodes := canonicalNodes[canonicalKey := canonical];
    }
    assert nodes[..|nodes|] == nodes;
  }

  // ---- conservation of mentions ----

  /** Off the empty key, a cluster's mentions are a plain sum. */
  lemma {:induction false} ClusterMentionsIsSum(nodes: seq<Node>, m: map<string, string>, c: string)
    requires c != ""
    ensures ClusterMentions(nodes, m, c) == SumIn(nodes, Mentions, KeyOf(m), c)
  {
    if nodes != [] {
      ClusterMentionsIsSum(nodes[..|nodes| - 1], m, c);
    }
  }

  function AllClusters(nodes: seq<Node>, m: map<string, string>, keys: seq<string>): int {
    if keys == [] then 0
    else AllClusters(nodes, m, keys[..|keys| - 1]) + ClusterMentions(nodes, m, keys[|keys| - 1])
  }

  /** One more node changes the total by its own mentions, less the restarted count. */
  lemma {:induction false} AllClustersSnoc(init: seq<Node>, last: Node, m: map<string, string>, keys: seq<string>)
    requires Distinct(keys)
    ensures var c := CanonicalKey(m, last.entityKey);
            AllClusters(init + [last], m, keys)
            == AllClusters(init, m, keys)
               + if c in keys then last.mentionCount - (if |c| == 0 then ClusterMentions(init, m, c) else 0) else 0
  {
    assert (init + [last])[..|init|] == init;
    if keys != [] {
      var front, k := keys[..|keys| - 1], keys[|keys| - 1];
      AllClustersSnoc(init, last, m, front);
      assert keys == front + [k];
      assert k !in front;
    }
  }

  lemma {:induction false} KeylessRestart(nodes: seq<Node>, m: map<string, string>)
    requires "" !in m
    ensures KeylessMentions(nodes) == LostMentions(nodes) + ClusterMentions(nodes, m, "")
  {
    if nodes != [] {
      KeylessRestart(nodes[..|nodes| - 1], m);
    }
  }

  lemma {:induction false} AllClustersTotal(nodes: seq<Node>, m: map<string, string>, keys: seq<string>)
    requires "" !in m && Distinct(keys)
    requires forall node :: node in nodes ==> CanonicalKey(m, node.entityKey) in keys
    ensures AllClusters(nodes, m, keys) == SumBy(nodes, Mentions) - LostMentions(nodes)
  {
    if nodes == [] {
      NoClusters(m, keys);
    } else {
      var init, last := nodes[..|nodes| - 1], nodes[|nodes| - 1];
      assert nodes == init + [last];
      AllClustersTotal(init, m, keys);
      AllClustersSnoc(init, last, m, keys);
      KeylessRestart(init, m);
      if CanonicalKey(m, last.entityKey) == "" {
        assert Keyless(last);
      }
    }
  }

  lemma {:induction false} NoClusters(m: map<string, string>, keys: seq<string>)
    ensures AllClusters([], m, keys) == 0
  {
    if keys != [] {
      NoClusters(m, keys[..|keys| - 1]);
    }
  }

  /** The output list: one merged node for each key of the map. */
  ghost predicate ListsMerged(out: seq<Node>, merged: map<string, Node>) {
    && (forall i :: 0 <= i < |out| ==> out[i].entityKey in merged && out[i] == merged[out[i].entityKey])
    && (forall i, j :: 0 <= i < j < |out| ==> out[i].entityKey != out[j].entityKey)
    && (forall c :: c in merged ==> exists i :: 0 <= i < |out| && out[i].entityKey == c)
  }

  lemma {:induction false} OutputsCarryClusters(nodes: seq<Node>, m: map<string, string>, out: seq<Node>,
                                                keys: seq<string>)
    requires |keys| == |out|
    requires forall i :: 0 <= i < |out| ==> out[i].mentionCount == ClusterMentions(nodes, m, keys[i])
    ensures SumBy(out, Mentions) == AllClusters(nodes, m, keys)
  {
    if out != [] {
      OutputsCarryClusters(nodes, m, out[..|out| - 1], keys[..|keys| - 1]);
    }
  }

  /** The keys of the output list. */
  function OutKeys(out: seq<Node>): seq<string> {
    seq(|out|, i requires 0 <= i < |out| => out[i].entityKey)
  }

  /** The output keys cover every node. */
  lemma KeysCover(nodes: seq<Node>, m: map<string, string>, out: seq<Node>)
    requires Based(nodes, m, NodeByKey(nodes)) && ListsMerged(out, Merged(nodes, m, NodeByKey(nodes)))
    ensures forall node :: node in nodes ==> CanonicalKey(m, node.entityKey) in OutKeys(out)
  {
    forall node | node in nodes
      ensures CanonicalKey(m, node.entityKey) in OutKeys(out)
    {
      var c := CanonicalKey(m, node.entityKey);
      MergedMeaning(nodes, m, NodeByKey(nodes), c);
      var i :| 0 <= i < |out| && out[i].entityKey == c;
      assert OutKeys(out)[i] == c;
    }
  }

  lemma OutputMentions(nodes: seq<Node>, m: map<string, string>, out: seq<Node>)
    requires Based(nodes, m, NodeByKey(nodes)) && ListsMerged(out, Merged(nodes, m, NodeByKey(nodes)))
    ensures forall i :: 0 <= i < |out| ==> out[i].mentionCount == ClusterMentions(nodes, m, OutKeys(out)[i])
  {
    forall i | 0 <= i < |out|
      ensures out[i].mentionCount == ClusterMentions(nodes, m, OutKeys(out)[i])
    {
      MergedMeaning(nodes, m, NodeByKey(nodes), out[i].entityKey);
    }
  }

  /** For all inputs: the output mentions are the input mentions minus exactly those of
      key-less nodes that a later key-less node overwrote. */
  lemma MentionsConserved(nodes: seq<Node>, m: map<string, string>, out: seq<Node>)
    requires Based(nodes, m, NodeByKey(nodes)) && ListsMerged(out, Merged(nodes, m, NodeByKey(nodes)))
    ensures SumBy(out, Mentions) == SumBy(nodes, Mentions) - LostMentions(nodes)
  {
    OutputMentions(nodes, m, out);
    OutputsCarryClusters(nodes, m, out, OutKeys(out));
    KeysCover(nodes, m, out);
    AllClustersTotal(nodes, m, OutKeys(out));
  }

  /** It happens: of two nodes without a key the second one overwrites the first one's mentions. */
  lemma KeylessOverwritten(a: Node, b: Node)
    requires Keyless(a) && Keyless(b)
    ensures LostMentions([a, b]) == a.mentionCount
    ensures var merged := Merged([a, b], map[], NodeByKey([a, b]));
            "" in merged && merged[""].mentionCount == b.mentionCount
  {
    assert a.entityKey == "" && b.entityKey == "";
    assert [a, b][..1] == [a] && [a][..0] == [];
    assert NodeByKey([a]) == map["" := a] && NodeByKey([a, b]) == map["" := b];
    assert KeylessMentions([a]) == a.mentionCount;
    var m: map<string, string> := map[];
    var byKey := map["" := b];
    var first := Absorb(ZeroNode, b, a);
    assert Merged([], m, byKey) == map[] && CanonicalKey(m, "") == "";
    assert Merged([a], m, byKey) == map["" := first] && first.entityKey == "";
    assert Merged([a, b], m, byKey)[""] == Absorb(first, b, b);
  }

  lemma {:induction false} NothingLost(nodes: seq<Node>)
    requires forall i, j :: 0 <= i < j < |nodes| ==> nodes[i].entityKey != nodes[j].entityKey
    ensures LostMentions(nodes) == 0
  {
    if nodes != [] {
      var init, last := nodes[..|nodes| - 1], nodes[|nodes| - 1];
      if last.entityKey == "" {
        NoKeyless(init);
      } else {
        NothingLost(init);
      }
    }
  }

  lemma {:induction false} NoKeyless(nodes: seq<Node>)
    requires forall i :: 0 <= i < |nodes| ==> nodes[i].entityKey != ""
    ensures KeylessMentions(nodes) == 0
  {
    if nodes != [] {
      NoKeyless(nodes[..|nodes| - 1]);
    }
  }
}
