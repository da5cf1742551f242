/** graphCanonicalEntityKeys: clusters graph entities of the same type that are similar
    enough, and elects one canonical key for each cluster. */
module EntityResolution {
  import opened Connectivity
  import opened DisjointSets
  import opened Sorting
  import opened Text

  type Vector = seq<real>

  datatype Node = Node(entityKey: string, name: string, entityType: string, description: string, mentionCount: int)

  ghost predicate DistinctNodes(nodes: seq<Node>) {
    forall i: nat, j: nat :: i < j < |nodes| ==> nodes[i].entityKey != nodes[j].entityKey
  }

  lemma KeysDistinctAfterSort(a: seq<Node>, b: seq<Node>, i: nat, j: nat)
    requires multiset(b) == multiset(a) && DistinctNodes(a) && i < j < |b|
    ensures b[i].entityKey != b[j].entityKey
  {
    DistinctAfterSort(a, b, i, j);
    assert b[i] in multiset(a) && b[j] in multiset(a);
    var x :| 0 <= x < |a| && a[x] == b[i];
    var y :| 0 <= y < |a| && a[y] == b[j];
  }

  function Dot(left: Vector, right: Vector): (d: real)
    requires |left| == |right|
  {
    if left == [] then 0.0 else left[0] * right[0] + Dot(left[1..], right[1..])
  }

  function CosineSimilarity(left: Vector, right: Vector): real {
    if |left| == 0 || |left| != |right| then 0.0 else Dot(left, right)
  }

  lemma {:induction false} DotSymmetric(left: Vector, right: Vector)
    requires |left| == |right|
    ensures Dot(left, right) == Dot(right, left)
  {
    if left != [] {
      DotSymmetric(left[1..], right[1..]);
    }
  }

  /** The similarity is the sum of the products, wherever one starts adding. */
  lemma {:induction false} DotSnoc(left: Vector, right: Vector, x: real, y: real)
    requires |left| == |right|
    ensures Dot(left + [x], right + [y]) == Dot(left, right) + x * y && Dot([], []) == 0.0
  {
    if left == [] {
      assert [x][1..] == [] && [y][1..] == [];
      assert left + [x] == [x] && right + [y] == [y];
    } else {
      DotSnoc(left[1..], right[1..], x, y);
      assert (left + [x])[1..] == left[1..] + [x] && (right + [y])[1..] == right[1..] + [y];
    }
  }

  // ---- the election order ----

  predicate Prefers(candidate: Node, current: Node) {
    if candidate.mentionCount != current.mentionCount then
      candidate.mentionCount > current.mentionCount
    else if !Blank(candidate.name) && Blank(current.name) then true
    else if Blank(candidate.name) && !Blank(current.name) then false
    else Less(candidate.entityKey, current.entityKey)
  }

  lemma PrefersTrans(a: Node, b: Node, c: Node)
    requires Prefers(a, b) && Prefers(b, c)
    ensures Prefers(a, c)
  {
    if Less(a.entityKey, b.entityKey) && Less(b.entityKey, c.entityKey) {
      LessTrans(a.entityKey, b.entityKey, c.entityKey);
    }
  }

  /** On nodes with distinct keys the preference is a strict total order. */
  lemma PrefersTotal(a: Node, b: Node)
    ensures !Prefers(a, a) && !(Prefers(a, b) && Prefers(b, a))
    ensures a.entityKey != b.entityKey ==> Prefers(a, b) || Prefers(b, a)
  {
    LessTotal(a.entityKey, b.entityKey);
    LessTotal(a.entityKey, a.entityKey);
  }

  /** The election in terms of the nodes: more mentions come first, then a name that is not blank, then the
      smaller key. */
  ghost predicate NotBehind(best: Node, other: Node) {
    && other.mentionCount <= best.mentionCount
    && (other.mentionCount == best.mentionCount ==>
          && (!Blank(other.name) ==> !Blank(best.name))
          && (Blank(other.name) == Blank(best.name) ==> !Less(other.entityKey, best.entityKey)))
  }

  lemma NotBehindIff(best: Node, other: Node)
    ensures NotBehind(best, other) <==> !Prefers(other, best)
  {
  }

  // ---- what the clusters are ----

  /** One call's arguments. `typeOf` stands for graphNormalizedType. */
  datatype Query = Query(nodes: seq<Node>, vectors: seq<Vector>, threshold: real, typeOf: string -> string) {

    predicate WellFormed() {
      |vectors| == |nodes|
    }

    predicate Keyed(i: nat)
      requires i < |nodes|
    {
      nodes[i].entityKey != ""
    }

    /** The pair test of the double loop. */
    predicate Similar(i: nat, j: nat)
      requires WellFormed() && i < |nodes| && j < |nodes|
    {
      && Keyed(i) && Keyed(j)
      && typeOf(nodes[j].entityType) == typeOf(nodes[i].entityType)
      && CosineSimilarity(vectors[i], vectors[j]) >= threshold
    }

    ghost function SimilarPairs(): set<(nat, nat)>
      requires WellFormed()
    {
      set i: nat, j: nat | i < j < |nodes| && Similar(i, j) :: (i, j)
    }

    ghost predicate Linked(i: nat, j: nat)
      requires WellFormed()
    {
      Connected<nat>(SimilarPairs(), i, j)
    }

    /** Node k is a greatest member of the cluster of node i. */
    ghost predicate Elected(i: nat, k: nat)
      requires WellFormed()
    {
      && i < |nodes| && k < |nodes| && Linked(i, k)
      && forall l: nat :: l < |nodes| && Linked(i, l) ==> NotBehind(nodes[k], nodes[l])
    }

    ghost predicate CanonicalFor(i: nat, key: string)
      requires WellFormed()
    {
      exists k: nat :: k < |nodes| && Elected(i, k) && nodes[k].entityKey == key
    }

    ghost predicate NodeKey(key: string) {
      key != "" && exists i: nat :: i < |nodes| && nodes[i].entityKey == key
    }

    ghost predicate LastWithKey(i: nat)
      requires i < |nodes|
    {
      forall j: nat :: i < j < |nodes| ==> nodes[j].entityKey != nodes[i].entityKey
    }

    /** The result: every non-empty key is mapped to the elected key of its cluster
        (of the last node with that key, should a key repeat). */
    ghost predicate Canonicalizes(m: map<string, string>)
      requires WellFormed()
    {
      && (forall i: nat :: i < |nodes| && Keyed(i) ==> nodes[i].entityKey in m)
      && (forall key :: key in m ==> NodeKey(key))
      && (forall i: nat :: i < |nodes| && Keyed(i) && LastWithKey(i) ==> CanonicalFor(i, m[nodes[i].entityKey]))
    }

    ghost predicate DistinctKeys() {
      forall i: nat, j: nat :: i < j < |nodes| && nodes[i].entityKey == nodes[j].entityKey ==> nodes[i].entityKey == ""
    }
  }

  lemma KeyedAlong(q: Query, i: nat, j: nat)
    requires q.WellFormed() && i < |q.nodes| && j < |q.nodes| && q.Keyed(i) && q.Linked(i, j)
    ensures q.Keyed(j)
  {
    var classOf := (k: nat) => k < |q.nodes| && q.Keyed(k);
    PreservedAlong(q.SimilarPairs(), classOf, i, j);
  }

  /** roots tells the clusters apart. */
  ghost predicate Separates(q: Query, roots: seq<nat>)
    requires q.WellFormed()
  {
    |roots| == |q.nodes| && forall i: nat, j: nat {:trigger q.Linked(i, j)} :: i < |roots| && j < |roots| ==>
                              (roots[i] == roots[j] <==> q.Linked(i, j))
  }

  // ---- the double loop ----

  /** The pairs the double loop has tested before it reaches (i, j). */
  ghost function PairsBefore(q: Query, i: nat, j: nat): set<(nat, nat)>
    requires q.WellFormed()
  {
    set a: nat, b: nat | a < b < |q.nodes| && q.Similar(a, b) && (a < i || (a == i && b < j)) :: (a, b)
  }

  lemma PairsStep(q: Query, i: nat, j: nat)
    requires q.WellFormed() && i < j < |q.nodes|
    ensures PairsBefore(q, i, j + 1) == PairsBefore(q, i, j) + if q.Similar(i, j) then {(i, j)} else {}
  {
  }

  lemma RootsSeparate(q: Query, clusters: DisjointSet)
    requires q.WellFormed() && clusters.Valid() && clusters.parent.Length == |q.nodes|
    requires clusters.united == q.SimilarPairs()
    ensures Separates(q, clusters.roots)
  {
    forall i: nat, j: nat | i < |q.nodes| && j < |q.nodes|
      ensures clusters.roots[i] == clusters.roots[j] <==> q.Linked(i, j)
    {
      clusters.RootsAreComponents(i, j);
    }
  }

  method Cluster(q: Query) returns (clusters: DisjointSet)
    requires q.WellFormed()
    ensures fresh(clusters) && fresh(clusters.parent) && fresh(clusters.rank)
    ensures clusters.Valid() && clusters.parent.Length == |q.nodes|
    ensures clusters.united == q.SimilarPairs() && Separates(q, clusters.roots)
  {
    clusters := new DisjointSet(|q.nodes|);
    for i := 0 to |q.nodes|
      invariant clusters.Valid() && clusters.parent.Length == |q.nodes|
      invariant clusters.united == PairsBefore(q, i, 0)
    {
      if q.nodes[i].entityKey == "" {
        continue;
      }
      for j := i + 1 to |q.nodes|
        invariant clusters.Valid() && clusters.parent.Length == |q.nodes|
        invariant clusters.united == PairsBefore(q, i, j)
      {
        PairsStep(q, i, j);
        if q.nodes[j].entityKey == "" {
          continue;
        }
        if q.typeOf(q.nodes[j].entityType) != q.typeOf(q.nodes[i].entityType) {
          continue;
        }
        if CosineSimilarity(q.vectors[i], q.vectors[j]) >= q.threshold {
          clusters.Union(i, j);
        }
      }
    }
    assert clusters.united == q.SimilarPairs();
    RootsSeparate(q, clusters);
  }

  // ---- the election ----

  /** The table of the best index seen so far for each root; roots[k] is the root of k. */
  ghost predicate Leads(q: Query, roots: seq<nat>, table: map<nat, nat>, n: nat)
    requires |roots| == |q.nodes| && n <= |q.nodes|
  {
    && (forall r {:trigger table[r]} :: r in table ==> table[r] < n && q.Keyed(table[r]) && roots[table[r]] == r)
    && (forall k: nat {:trigger roots[k]} :: k < n && q.Keyed(k) ==>
          roots[k] in table && NotBehind(q.nodes[table[roots[k]]], q.nodes[k]))
  }

  ghost predicate Improves(q: Query, roots: seq<nat>, table: map<nat, nat>, i: nat)
    requires |roots| == |q.nodes| && i < |q.nodes| && Leads(q, roots, table, i)
  {
    roots[i] !in table || Prefers(q.nodes[i], q.nodes[table[roots[i]]])
  }

  lemma LeadsStep(q: Query, roots: seq<nat>, table: map<nat, nat>, i: nat)
    requires |roots| == |q.nodes| && i < |q.nodes| && q.Keyed(i) && Leads(q, roots, table, i)
    ensures Leads(q, roots, if Improves(q, roots, table, i) then table[roots[i] := i] else table, i + 1)
  {
    if !Improves(q, roots, table, i) {
      NotBehindIff(q.nodes[table[roots[i]]], q.nodes[i]);
      return;
    }
    PrefersTotal(q.nodes[i], q.nodes[i]);
    var better := table[roots[i] := i];
    forall k: nat {:trigger roots[k]} | k < i + 1 && q.Keyed(k)
      ensures roots[k] in better && NotBehind(q.nodes[better[roots[k]]], q.nodes[k])
    {
      NotBehindIff(q.nodes[i], q.nodes[k]);
      if k < i && roots[k] == roots[i] && Prefers(q.nodes[k], q.nodes[i]) {
        PrefersTrans(q.nodes[k], q.nodes[i], q.nodes[table[roots[i]]]);
        NotBehindIff(q.nodes[table[roots[i]]], q.nodes[k]);
      }
    }
  }

  lemma LeaderElected(q: Query, roots: seq<nat>, table: map<nat, nat>, i: nat)
    requires q.WellFormed() && Separates(q, roots)
    requires Leads(q, roots, table, |q.nodes|)
    requires i < |q.nodes| && q.Keyed(i)
    ensures roots[i] in table && q.Elected(i, table[roots[i]])
  {
    var k := table[roots[i]];
    assert q.Linked(i, k);
    forall l: nat | l < |q.nodes| && q.Linked(i, l)
      ensures NotBehind(q.nodes[k], q.nodes[l])
    {
      KeyedAlong(q, i, l);
      assert roots[l] == roots[i];
    }
  }

  method Elect(q: Query, clusters: DisjointSet) returns (table: map<nat, nat>)
    requires q.WellFormed() && clusters.Valid() && clusters.parent.Length == |q.nodes|
    modifies clusters.parent
    ensures clusters.Valid()
    ensures Leads(q, clusters.roots, table, |q.nodes|)
  {
    table := map[];
    for i := 0 to |q.nodes|
      invariant clusters.Valid()
      invariant Leads(q, clusters.roots, table, i)
    {
      if q.nodes[i].entityKey == "" {
        continue;
      }
      LeadsStep(q, clusters.roots, table, i);
      var root := clusters.Find(i);
      if root !in table || Prefers(q.nodes[i], q.nodes[table[root]]) {
        table := table[root := i];
      }
    }
  }

  /** The result after the first n nodes: the last of them with a key decides. */
  ghost predicate Named(q: Query, m: map<string, string>, n: nat)
    requires q.WellFormed() && n <= |q.nodes|
  {
    && (forall k: nat {:trigger q.nodes[k]} :: k < n && q.Keyed(k) ==> q.nodes[k].entityKey in m)
    && (forall key {:trigger key in m} :: key in m ==> q.NodeKey(key))
    && (forall k: nat {:trigger LastBefore(q, k, n)} :: k < n && q.Keyed(k) && LastBefore(q, k, n) ==>
          q.CanonicalFor(k, m[q.nodes[k].entityKey]))
  }

  ghost predicate LastBefore(q: Query, k: nat, n: nat)
    requires k < n <= |q.nodes|
  {
    forall j: nat :: k < j < n ==> q.nodes[j].entityKey != q.nodes[k].entityKey
  }

  lemma NamedStep(q: Query, m: map<string, string>, i: nat, key: string)
    requires q.WellFormed() && i < |q.nodes| && Named(q, m, i)
    requires q.Keyed(i) ==> q.CanonicalFor(i, key)
    ensures Named(q, if q.Keyed(i) then m[q.nodes[i].entityKey := key] else m, i + 1)
  {
    var next := if q.Keyed(i) then m[q.nodes[i].entityKey := key] else m;
    assert q.Keyed(i) ==> q.NodeKey(q.nodes[i].entityKey);
    forall k: nat {:trigger LastBefore(q, k, i + 1)} | k < i + 1 && q.Keyed(k) && LastBefore(q, k, i + 1)
      ensures q.CanonicalFor(k, next[q.nodes[k].entityKey])
    {
      if k < i {
        assert LastBefore(q, k, i);
        assert q.nodes[i].entityKey != q.nodes[k].entityKey;
      }
    }
  }

  lemma NamedAll(q: Query, m: map<string, string>)
    requires q.WellFormed() && Named(q, m, |q.nodes|)
    ensures q.Canonicalizes(m)
  {
    forall i: nat | i < |q.nodes| && q.Keyed(i) && q.LastWithKey(i)
      ensures q.CanonicalFor(i, m[q.nodes[i].entityKey])
    {
      assert LastBefore(q, i, |q.nodes|);
    }
  }

  /** The map the last loop has built after n nodes. */
  ghost function NamesFrom(q: Query, roots: seq<nat>, table: map<nat, nat>, n: nat): map<string, string>
    requires |roots| == |q.nodes| && Leads(q, roots, table, |q.nodes|) && n <= |q.nodes|
  {
    if n == 0 then map[]
    else
      var m := NamesFrom(q, roots, table, n - 1);
      if q.Keyed(n - 1) then m[q.nodes[n - 1].entityKey := q.nodes[table[roots[n - 1]]].entityKey] else m
  }

  lemma {:induction false} NamesAreCanonical(q: Query, roots: seq<nat>, table: map<nat, nat>, n: nat)
    requires q.WellFormed() && Separates(q, roots) && Leads(q, roots, table, |q.nodes|) && n <= |q.nodes|
    ensures Named(q, NamesFrom(q, roots, table, n), n)
  {
    if n > 0 {
      var i := n - 1;
      NamesAreCanonical(q, roots, table, i);
      if q.Keyed(i) {
        LeaderElected(q, roots, table, i);
        NamedStep(q, NamesFrom(q, roots, table, i), i, q.nodes[table[roots[i]]].entityKey);
      } else {
        NamedStep(q, NamesFrom(q, roots, table, i), i, "");
      }
    }
  }

  method NameKeys(q: Query, clusters: DisjointSet, canonicalIndexByRoot: map<nat, nat>)
      returns (canonicalByKey: map<string, string>)
    requires q.WellFormed() && clusters.Valid() && clusters.parent.Length == |q.nodes|
    requires Leads(q, clusters.roots, canonicalIndexByRoot, |q.nodes|)
    modifies clusters.parent
    ensures canonicalByKey == NamesFrom(q, clusters.roots, canonicalIndexByRoot, |q.nodes|)
  {
    canonicalByKey := map[];
    for i := 0 to |q.nodes|
      invariant clusters.Valid()
      invariant canonicalByKey == NamesFrom(q, clusters.roots, canonicalIndexByRoot, i)
    {
      if q.nodes[i].entityKey == "" {
        continue;
      }
      var root := clusters.Find(i);
      // Every root of a keyed node leads the table, so the fallback branch for a
      // missing entry is never taken.
      var canonicalIndex := canonicalIndexByRoot[root];
      canonicalByKey := canonicalByKey[q.nodes[i].entityKey := q.nodes[canonicalIndex].entityKey];
    }
  }

  method CanonicalEntityKeys(q: Query) returns (canonicalByKey: map<string, string>)
    requires q.WellFormed()
    ensures q.Canonicalizes(canonicalByKey)
  {
    var clusters := Cluster(q);
    var canonicalIndexByRoot := Elect(q, clusters);
    canonicalByKey := NameKeys(q, clusters, canonicalIndexByRoot);
    NamesAreCanonical(q, clusters.roots, canonicalIndexByRoot, |q.nodes|);
    NamedAll(q, canonicalByKey);
  }
}
