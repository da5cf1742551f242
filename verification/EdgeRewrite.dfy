/** graphResolvedEdges: edges are moved onto canonical keys, loops are dropped, and edges
    with the same NUL-joined (source, target, relation) key are merged into the heaviest. */
module EdgeRewrite {
  import opened Text
  import opened Sorting
  import opened NodeMerge

  datatype Edge = Edge(source: string, target: string, relation: string, description: string, weight: real)

  datatype Triple = Triple(source: string, target: string, relation: string)

  const DEFAULT_RELATION := "RELATED_TO"

  function TripleOf(edge: Edge): Triple {
    Triple(edge.source, edge.target, edge.relation)
  }

  /** The edge with its endpoints and relation rewritten. */
  function Rewrite(m: map<string, string>, edge: Edge): Edge {
    var relation := TrimSpace(edge.relation);
    edge.(source := CanonicalKey(m, edge.source),
          target := CanonicalKey(m, edge.target),
          relation := if relation == "" then DEFAULT_RELATION else relation)
  }

  /** Edges that survive: no missing endpoint, no loop. */
  predicate Kept(m: map<string, string>, edge: Edge) {
    var r := Rewrite(m, edge);
    r.source != "" && r.target != "" && r.source != r.target
  }

  /** The map key used for grouping. */
  function JoinKey(t: Triple): string {
    t.source + [NUL] + t.target + [NUL] + t.relation
  }

  function GroupKey(m: map<string, string>, edge: Edge): string {
    JoinKey(TripleOf(Rewrite(m, edge)))
  }

  // ---- the merging loop ----

  /** One kept edge `r`, already rewritten, meets the edge held for its group. */
  function Meet(held: Edge, r: Edge): Edge {
    if r.weight > held.weight then r
    else if held.description == "" && !Blank(r.description) then held.(description := TrimSpace(r.description))
    else held
  }

  function MergeInto(table: map<string, Edge>, m: map<string, string>, edge: Edge): map<string, Edge> {
    if !Kept(m, edge) then table
    else
      var k, r := GroupKey(m, edge), Rewrite(m, edge);
      table[k := if k in table then Meet(table[k], r) else r]
  }

  function Grouped(edges: seq<Edge>, m: map<string, string>): map<string, Edge> {
    if edges == [] then map[]
    else MergeInto(Grouped(edges[..|edges| - 1], m), m, edges[|edges| - 1])
  }

  lemma GroupedSnoc(edges: seq<Edge>, i: nat, m: map<string, string>)
    requires i < |edges|
    ensures Grouped(edges[..i + 1], m) == MergeInto(Grouped(edges[..i], m), m, edges[i])
  {
    assert edges[..i + 1][..i] == edges[..i];
  }

  method GroupEdges(edges: seq<Edge>, m: map<string, string>) returns (edgeByKey: map<string, Edge>)
    ensures edgeByKey == Grouped(edges, m)
  {
    edgeByKey := map[];
    for i := 0 to |edges|
      invariant edgeByKey == Grouped(edges[..i], m)
    {
      GroupedSnoc(edges, i, m);
      var edge := edges[i];
      var sourceKey := CanonicalKey(m, edge.source);
      var targetKey := CanonicalKey(m, edge.target);
      if sourceKey == "" || targetKey == "" || sourceKey == targetKey {
        continue;
      }
      edge := edge.(source := sourceKey, target := targetKey);
      var relationType := TrimSpace(edge.relation);
      if relationType == "" {
        relationType := DEFAULT_RELATION;
      }
      var key := sourceKey + [NUL] + targetKey + [NUL] + relationType;
      if key !in edgeByKey || edge.weight > edgeByKey[key].weight {
        edge := edge.(relation := relationType);
        edgeByKey := edgeByKey[key := edge];
        continue;
      }
      var existing := edgeByKey[key];
      if existing.description == "" && !Blank(edge.description) {
        existing := existing.(description := TrimSpace(edge.description));
        edgeByKey := edgeByKey[key := existing];
      }
    }
    assert edges[..|edges|] == edges;
  }

  // ---- what a group holds ----

  ghost predicate InGroup(edges: seq<Edge>, m: map<string, string>, k: string, i: nat) {
    i < |edges| && Kept(m, edges[i]) && GroupKey(m, edges[i]) == k
  }

  /** `out` is a heaviest edge of group k: edge `i` up to its description. */
  ghost predicate Heaviest(edges: seq<Edge>, m: map<string, string>, k: string, out: Edge, i: nat) {
    && InGroup(edges, m, k, i)
    && TripleOf(out) == TripleOf(Rewrite(m, edges[i])) && out.weight == edges[i].weight
    && (edges[i].description != "" ==> out.description == edges[i].description)
    && forall j: nat {:trigger InGroup(edges, m, k, j)} :: InGroup(edges, m, k, j) ==> edges[j].weight <= out.weight
  }

  lemma MergeMeaning(init: seq<Edge>, edge: Edge, m: map<string, string>, k: string, before: map<string, Edge>, h: nat)
      returns (i: nat)
    requires k in before ==> Heaviest(init, m, k, before[k], h)
    requires k !in before ==> forall j: nat :: !InGroup(init, m, k, j)
    ensures k in MergeInto(before, m, edge) ==> Heaviest(init + [edge], m, k, MergeInto(before, m, edge)[k], i)
    ensures k !in MergeInto(before, m, edge) ==> forall j: nat :: !InGroup(init + [edge], m, k, j)
  {
    var edges := init + [edge];
    forall j: nat
      ensures InGroup(edges, m, k, j) <==> InGroup(init, m, k, j) ||
                                           (j == |init| && Kept(m, edge) && GroupKey(m, edge) == k)
    {
    }
    var hit := Kept(m, edge) && GroupKey(m, edge) == k;
    i := if hit && (k !in before || edge.weight > before[k].weight) then |init| else h;
  }

  lemma {:induction false} GroupedMeaning(edges: seq<Edge>, m: map<string, string>, k: string) returns (i: nat)
    ensures k in Grouped(edges, m) ==> Heaviest(edges, m, k, Grouped(edges, m)[k], i)
    ensures k !in Grouped(edges, m) ==> forall j: nat :: !InGroup(edges, m, k, j)
  {
    i := 0;
    if edges != [] {
      var init, last := edges[..|edges| - 1], edges[|edges| - 1];
      assert edges == init + [last];
      i := GroupedMeaning(init, m, k);
      i := MergeMeaning(init, last, m, k, Grouped(init, m), i);
    }
  }

  // ---- the output list ----

  predicate TripleLess(a: Edge, b: Edge) {
    if a.source == b.source then
      if a.target == b.target then Less(a.relation, b.relation) else Less(a.target, b.target)
    else Less(a.source, b.source)
  }

  lemma LessSplits(a: string, b: string, c: string)
    requires Less(a, c)
    ensures Less(a, b) || Less(b, c)
  {
    LessTotal(a, b);
    if Less(b, a) {
      LessTrans(b, a, c);
    }
  }

  lemma TripleLessWeakOrder()
    ensures WeakOrder(TripleLess)
  {
    forall a, b | TripleLess(a, b)
      ensures !TripleLess(b, a)
    {
      LessTotal(a.source, b.source);
      LessTotal(a.target, b.target);
      LessTotal(a.relation, b.relation);
    }
    forall a, b, c | TripleLess(a, c)
      ensures TripleLess(a, b) || TripleLess(b, c)
    {
      TripleLessSplits(a, b, c);
    }
  }

  lemma TripleLessSplits(a: Edge, b: Edge, c: Edge)
    requires TripleLess(a, c)
    ensures TripleLess(a, b) || TripleLess(b, c)
  {
    LessTotal(a.source, b.source);
    LessTotal(a.target, b.target);
    if a.source != c.source {
      LessSplits(a.source, b.source, c.source);
      LessTotal(b.source, c.source);
      LessTotal(a.source, c.source);
    } else if a.source == b.source {
      if a.target != c.target {
        LessSplits(a.target, b.target, c.target);
        LessTotal(b.target, c.target);
        LessTotal(a.target, c.target);
      } else if a.target == b.target {
        LessSplits(a.relation, b.relation, c.relation);
      }
    }
  }

  /** The values of the grouping map, in any order: Go leaves map iteration order open. */
  method Values<V(==)>(table: map<string, V>, ghost keyOf: V -> string) returns (out: seq<V>)
    requires forall k :: k in table ==> keyOf(table[k]) == k
    ensures forall v :: v in out <==> exists k :: k in table && table[k] == v
    ensures forall i, j :: 0 <= i < j < |out| ==> keyOf(out[i]) != keyOf(out[j])
  {
    out := [];
    var left := table.Keys;
    while left != {}
      invariant left <= table.Keys
      invariant forall i :: 0 <= i < |out| ==> keyOf(out[i]) in table.Keys - left && table[keyOf(out[i])] == out[i]
      invariant forall i, j :: 0 <= i < j < |out| ==> keyOf(out[i]) != keyOf(out[j])
      invariant forall k :: k in table.Keys - left ==> table[k] in out
    {
      var k :| k in left;
      left := left - {k};
      out := out + [table[k]];
    }
  }

  ghost predicate ListsGroups(out: seq<Edge>, table: map<string, Edge>) {
    && (forall e :: e in out <==> exists k :: k in table && table[k] == e)
    && StrictlySorted(TripleLess, out)
  }

  lemma {:induction false} GroupedKeys(edges: seq<Edge>, m: map<string, string>, k: string)
    requires k in Grouped(edges, m)
    ensures JoinKey(TripleOf(Grouped(edges, m)[k])) == k
  {
    var i := GroupedMeaning(edges, m, k);
  }

  method ResolvedEdges(edges: seq<Edge>, canonicalByKey: map<string, string>) returns (resolved: seq<Edge>)
    ensures ListsGroups(resolved, Grouped(edges, canonicalByKey))
  {
    var edgeByKey := GroupEdges(edges, canonicalByKey);
    ghost var keyOf := (e: Edge) => JoinKey(TripleOf(e));
    forall k | k in edgeByKey
      ensures keyOf(edgeByKey[k]) == k
    {
      GroupedKeys(edges, canonicalByKey, k);
    }
    var values := Values(edgeByKey, keyOf);
    TripleLessWeakOrder();
    resolved := Sort(values, TripleLess);
    PermutationSameElements(resolved, values);
    SortedTriplesStrict(values, resolved);
  }

  lemma SortedTriplesStrict(values: seq<Edge>, sorted: seq<Edge>)
    requires Sorted(TripleLess, sorted) && multiset(sorted) == multiset(values)
    requires forall i, j :: 0 <= i < j < |values| ==> JoinKey(TripleOf(values[i])) != JoinKey(TripleOf(values[j]))
    ensures StrictlySorted(TripleLess, sorted)
  {
    forall i, j | 0 <= i < j < |sorted|
      ensures TripleLess(sorted[i], sorted[j]) || TripleLess(sorted[j], sorted[i])
    {
      DistinctAfterSort(values, sorted, i, j);
      assert sorted[i] in multiset(values) && sorted[j] in multiset(values);
      var a :| 0 <= a < |values| && values[a] == sorted[i];
      var b :| 0 <= b < |values| && values[b] == sorted[j];
      assert TripleOf(sorted[i]) != TripleOf(sorted[j]);
      LessTotal(sorted[i].source, sorted[j].source);
      LessTotal(sorted[i].target, sorted[j].target);
      LessTotal(sorted[i].relation, sorted[j].relation);
    }
  }
}
