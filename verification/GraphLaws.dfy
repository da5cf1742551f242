/** The resolved graph read off its fields: what every output node, alias, chunk and edge carries of
    the input, and in which order they come. */
module GraphLaws {
  import opened Text
  import opened Sorting
  import opened Counting
  import opened EntityResolution
  import opened NodeMerge
  import opened Resolver
  import E = EdgeRewrite
  import C = ChunkRewrite

  // ---- nodes ----

  /** Node b is the last one with its key. */
  ghost predicate LastWith(nodes: seq<Node>, key: string, b: nat) {
    && b < |nodes| && nodes[b].entityKey == key
    && forall j: nat :: b < j < |nodes| ==> nodes[j].entityKey != key
  }

  lemma {:induction false} IndexedIsLast(nodes: seq<Node>, key: string) returns (b: nat)
    requires key in NodeByKey(nodes)
    ensures LastWith(nodes, key, b) && NodeByKey(nodes)[key] == nodes[b]
  {
    var last := |nodes| - 1;
    b := last;
    if nodes[last].entityKey != key {
      b := IndexedIsLast(nodes[..last], key);
      assert forall j: nat :: b < j < last ==> nodes[..last][j] == nodes[j];
    }
  }

  /** Node k is the first of those that resolve to c and have a usable description. */
  ghost predicate FirstDescribed(nodes: seq<Node>, m: map<string, string>, c: string, k: nat) {
    && k < |nodes| && CanonicalKey(m, nodes[k].entityKey) == c && !Blank(nodes[k].description)
    && forall j: nat :: j < k && CanonicalKey(m, nodes[j].entityKey) == c ==> Blank(nodes[j].description)
  }

  lemma {:induction false} FirstDescriptionMeaning(nodes: seq<Node>, m: map<string, string>, c: string) returns (k: nat)
    ensures FirstDescription(nodes, m, c) != "" ==>
              FirstDescribed(nodes, m, c, k) && FirstDescription(nodes, m, c) == TrimSpace(nodes[k].description)
    ensures FirstDescription(nodes, m, c) == "" ==>
              forall j: nat :: j < |nodes| && CanonicalKey(m, nodes[j].entityKey) == c ==> Blank(nodes[j].description)
  {
    k := 0;
    if nodes != [] {
      var last := |nodes| - 1;
      k := FirstDescriptionMeaning(nodes[..last], m, c);
      assert forall j: nat :: j < last ==> nodes[..last][j] == nodes[j];
      if FirstDescription(nodes[..last], m, c) == "" {
        k := last;
      }
    }
  }

  /** An output node has the name and type of the last input node of its key; its mentions are those of
      all nodes that resolve to it; and its description is its own, or else the first usable one among
      the nodes that resolve to it. */
  lemma NodeFields(mat: Materialization, nodes: seq<Node>, m: map<string, string>, out: Materialization, n: Node,
                   mentions: Node -> int) returns (b: nat, k: nat)
    requires Based(nodes, m, NodeByKey(nodes)) && Rewritten(mat, nodes, m, out)
    requires n in out.nodes && n.entityKey != ""
    requires forall x :: mentions(x) == if CanonicalKey(m, x.entityKey) == n.entityKey then x.mentionCount else 0
    ensures LastWith(nodes, n.entityKey, b) && n.name == nodes[b].name && n.entityType == nodes[b].entityType
    ensures n.mentionCount == SumBy(nodes, mentions)
    ensures nodes[b].description != "" ==> n.description == nodes[b].description
    ensures nodes[b].description == "" && n.description != "" ==>
              FirstDescribed(nodes, m, n.entityKey, k) && n.description == TrimSpace(nodes[k].description)
    ensures n.description == "" ==>
              forall j: nat :: j < |nodes| && CanonicalKey(m, nodes[j].entityKey) == n.entityKey ==>
                Blank(nodes[j].description)
  {
    MergedMeaning(nodes, m, NodeByKey(nodes), n.entityKey);
    b := IndexedIsLast(nodes, n.entityKey);
    k := FirstDescriptionMeaning(nodes, m, n.entityKey);
    ClusterMentionsAdd(nodes, m, n.entityKey, mentions);
  }

  lemma {:induction false} ClusterMentionsAdd(nodes: seq<Node>, m: map<string, string>, c: string,
                                              mentions: Node -> int)
    requires c != ""
    requires forall x :: mentions(x) == if CanonicalKey(m, x.entityKey) == c then x.mentionCount else 0
    ensures ClusterMentions(nodes, m, c) == SumBy(nodes, mentions)
  {
    if nodes != [] {
      ClusterMentionsAdd(nodes[..|nodes| - 1], m, c, mentions);
    }
  }

  /** Every input node resolves to an output node. */
  lemma NodeKept(mat: Materialization, nodes: seq<Node>, m: map<string, string>, out: Materialization, k: nat)
      returns (n: Node)
    requires Based(nodes, m, NodeByKey(nodes)) && Rewritten(mat, nodes, m, out) && k < |nodes|
    ensures n in out.nodes
    ensures n.entityKey == if nodes[k].entityKey in m && m[nodes[k].entityKey] != "" then m[nodes[k].entityKey]
                           else nodes[k].entityKey
  {
    var c := CanonicalKey(m, nodes[k].entityKey);
    assert nodes[k] in nodes && HasMember(nodes, m, c);
    AliasTargetIsOutput(mat, nodes, m, out, c);
    var i :| 0 <= i < |out.nodes| && out.nodes[i].entityKey == c;
    n := out.nodes[i];
  }

  // ---- aliases ----

  /** The aliases are exactly the nodes' own: source key, name and type of the node, and the canonical key
      it resolves to, once for each node. */
  lemma AliasFields(nodes: seq<Node>, m: map<string, string>, aliases: seq<Alias>, a: Alias, hits: Node -> int)
    requires multiset(aliases) == multiset(AliasesOf(m, nodes))
    requires forall x: Node ::
               hits(x) ==
               var canonical := if x.entityKey in m && m[x.entityKey] != "" then m[x.entityKey] else x.entityKey;
               if a == Alias(canonical, x.entityKey, x.name, x.entityType) then 1 else 0
    ensures multiset(aliases)[a] == SumBy(nodes, hits)
  {
    forall x: Node
      ensures hits(x) == if AliasOf(m, x) == a then 1 else 0
    {
    }
    AliasCount(nodes, m, a, hits);
  }

  lemma {:induction false} AliasCount(nodes: seq<Node>, m: map<string, string>, a: Alias, hits: Node -> int)
    requires forall x :: hits(x) == if AliasOf(m, x) == a then 1 else 0
    ensures multiset(AliasesOf(m, nodes))[a] == SumBy(nodes, hits)
  {
    if nodes != [] {
      var init, last := nodes[..|nodes| - 1], nodes[|nodes| - 1];
      AliasCount(init, m, a, hits);
      assert AliasesOf(m, nodes) == AliasesOf(m, init) + [AliasOf(m, last)];
    }
  }

  // ---- chunks ----

  /** Chunk i is the first with its canonical key and record. */
  ghost predicate FirstOfPair(chunks: seq<C.Chunk>, m: map<string, string>, i: nat) {
    && i < |chunks|
    && forall j: nat :: j < i && chunks[j].recordId == chunks[i].recordId ==>
         CanonicalKey(m, chunks[j].entityKey) != CanonicalKey(m, chunks[i].entityKey)
  }

  /** An output chunk is the first input chunk of its record and canonical key, its index and text
      unchanged. */
  lemma ChunkFields(chunks: seq<C.Chunk>, m: map<string, string>, out: seq<C.Chunk>, c: C.Chunk) returns (i: nat)
    requires multiset(out) == multiset(C.Deduped(chunks, m)) && c in out
    ensures FirstOfPair(chunks, m, i) && c.entityKey != ""
    ensures c.entityKey == if chunks[i].entityKey in m && m[chunks[i].entityKey] != "" then m[chunks[i].entityKey]
                           else chunks[i].entityKey
    ensures c.recordId == chunks[i].recordId && c.chunkIndex == chunks[i].chunkIndex
    ensures c.sourceText == chunks[i].sourceText
  {
    C.ChunksAreImage(chunks, m, out, c);
    i :| C.First(chunks, m, i) && c == C.Moved(m, chunks[i]);
  }

  /** Every first chunk of a record and a non-empty canonical key is in the output. */
  lemma ChunkKept(chunks: seq<C.Chunk>, m: map<string, string>, out: seq<C.Chunk>, i: nat)
    requires multiset(out) == multiset(C.Deduped(chunks, m)) && FirstOfPair(chunks, m, i)
    requires CanonicalKey(m, chunks[i].entityKey) != ""
    ensures chunks[i].(entityKey := CanonicalKey(m, chunks[i].entityKey)) in out
  {
    C.ChunksAreImage(chunks, m, out, C.Moved(m, chunks[i]));
    assert C.First(chunks, m, i);
  }

  // ---- order ----

  /** Nodes come by key, aliases by canonical and then source key, chunks by key and then index, edges by
      source, target and relation; no two nodes and no two edges are equal in that. */
  lemma OutputOrder(mat: Materialization, nodes: seq<Node>, m: map<string, string>, out: Materialization, i: nat,
                    j: nat)
    requires Rewritten(mat, nodes, m, out) && i < j
    ensures j < |out.nodes| ==> Less(out.nodes[i].entityKey, out.nodes[j].entityKey)
    ensures j < |out.aliases| ==>
              var (a, b) := (out.aliases[i], out.aliases[j]);
              Less(a.canonical, b.canonical) || (a.canonical == b.canonical && !Less(b.source, a.source))
    ensures j < |out.chunks| ==>
              var (a, b) := (out.chunks[i], out.chunks[j]);
              Less(a.entityKey, b.entityKey) || (a.entityKey == b.entityKey && a.chunkIndex <= b.chunkIndex)
    ensures j < |out.edges| ==>
              var (a, b) := (out.edges[i], out.edges[j]);
              || Less(a.source, b.source)
              || (a.source == b.source && Less(a.target, b.target))
              || (a.source == b.source && a.target == b.target && Less(a.relation, b.relation))
  {
    if j < |out.aliases| {
      assert !AliasLess(out.aliases[j], out.aliases[i]);
      LessTotal(out.aliases[i].canonical, out.aliases[j].canonical);
    }
    if j < |out.chunks| {
      assert !C.ChunkLess(out.chunks[j], out.chunks[i]);
      LessTotal(out.chunks[i].entityKey, out.chunks[j].entityKey);
    }
  }
}
