/** What the rewritten edge list guarantees, and the one way it can lose a triple. */
module EdgeLaws {
  import opened Text
  import opened Sorting
  import opened NodeMerge
  import opened EdgeRewrite

  ghost predicate Image(edges: seq<Edge>, m: map<string, string>, t: Triple, i: nat) {
    i < |edges| && Kept(m, edges[i]) && TripleOf(Rewrite(m, edges[i])) == t
  }

  /** For all inputs: the output is strictly sorted, so it holds one edge for each triple;
      each edge joins two different non-empty keys and comes from an input edge of its own
      triple and weight. */
  lemma EdgesSound(edges: seq<Edge>, m: map<string, string>, out: seq<Edge>, e: Edge) returns (i: nat)
    requires ListsGroups(out, Grouped(edges, m)) && e in out
    ensures e.source != "" && e.target != "" && e.source != e.target && e.relation != ""
    ensures Image(edges, m, TripleOf(e), i) && e.weight == edges[i].weight
    ensures forall a, b :: 0 <= a < b < |out| ==> TripleOf(out[a]) != TripleOf(out[b])
  {
    var k :| k in Grouped(edges, m) && Grouped(edges, m)[k] == e;
    i := GroupedMeaning(edges, m, k);
    forall a, b | 0 <= a < b < |out|
      ensures TripleOf(out[a]) != TripleOf(out[b])
    {
      assert TripleLess(out[a], out[b]);
      LessTotal(out[a].relation, out[a].relation);
    }
  }

  lemma JoinKeyInjective(a: Triple, b: Triple)
    requires NulFree(a.source) && NulFree(b.source) && NulFree(a.target) && NulFree(b.target)
    requires JoinKey(a) == JoinKey(b)
    ensures a == b
  {
    var x, y := a.target + [NUL] + a.relation, b.target + [NUL] + b.relation;
    assert JoinKey(a) == a.source + [NUL] + x && JoinKey(b) == b.source + [NUL] + y;
    SplitAtFirst(NUL, a.source, x, b.source, y);
    SplitAtFirst(NUL, a.target, a.relation, b.target, b.relation);
  }

  /** Two kept edges of different triples with the same joined key. */
  ghost predicate Collide(edges: seq<Edge>, m: map<string, string>, i: nat, j: nat) {
    && i < |edges| && j < |edges| && Kept(m, edges[i]) && Kept(m, edges[j])
    && GroupKey(m, edges[i]) == GroupKey(m, edges[j])
    && TripleOf(Rewrite(m, edges[i])) != TripleOf(Rewrite(m, edges[j]))
  }

  ghost predicate NoCollision(edges: seq<Edge>, m: map<string, string>) {
    forall i: nat, j: nat :: !Collide(edges, m, i, j)
  }

  /** `out` holds the image of edge i. */
  ghost predicate Represented(edges: seq<Edge>, m: map<string, string>, out: seq<Edge>, i: nat)
    requires i < |edges|
  {
    exists e :: e in out && TripleOf(e) == TripleOf(Rewrite(m, edges[i]))
  }

  /** Without a collision each kept edge's triple is in the output, on a heaviest edge of it. */
  lemma EdgesExact(edges: seq<Edge>, m: map<string, string>, out: seq<Edge>, i: nat) returns (e: Edge)
    requires ListsGroups(out, Grouped(edges, m)) && NoCollision(edges, m)
    requires i < |edges| && Kept(m, edges[i])
    ensures e in out && TripleOf(e) == TripleOf(Rewrite(m, edges[i]))
    ensures forall j: nat :: Image(edges, m, TripleOf(e), j) ==> edges[j].weight <= e.weight
  {
    var k := GroupKey(m, edges[i]);
    var h := GroupedMeaning(edges, m, k);
    assert InGroup(edges, m, k, i);
    e := Grouped(edges, m)[k];
    assert !Collide(edges, m, h, i);
    forall j: nat | Image(edges, m, TripleOf(e), j)
      ensures edges[j].weight <= e.weight
    {
      assert InGroup(edges, m, k, j);
    }
  }

  /** Two different triples with one joined key: the output has one edge for both. */
  lemma CollisionLoses(edges: seq<Edge>, m: map<string, string>, out: seq<Edge>, i: nat, j: nat)
    requires ListsGroups(out, Grouped(edges, m)) && i < |edges| && j < |edges|
    requires GroupKey(m, edges[i]) == GroupKey(m, edges[j]) && Represented(edges, m, out, i)
    requires Represented(edges, m, out, j)
    ensures TripleOf(Rewrite(m, edges[i])) == TripleOf(Rewrite(m, edges[j]))
  {
    var a :| a in out && TripleOf(a) == TripleOf(Rewrite(m, edges[i]));
    var b :| b in out && TripleOf(b) == TripleOf(Rewrite(m, edges[j]));
    var k :| k in Grouped(edges, m) && Grouped(edges, m)[k] == a;
    var l :| l in Grouped(edges, m) && Grouped(edges, m)[l] == b;
    GroupedKeys(edges, m, k);
    GroupedKeys(edges, m, l);
  }

  /** The output triples are exactly the images of the kept edges if and only if no two kept edges of
      different triples share a joined key. */
  lemma EdgesExactIff(edges: seq<Edge>, m: map<string, string>, out: seq<Edge>)
    requires ListsGroups(out, Grouped(edges, m))
    ensures (forall i: nat :: i < |edges| && Kept(m, edges[i]) ==> Represented(edges, m, out, i)) <==>
            NoCollision(edges, m)
  {
    if NoCollision(edges, m) {
      forall i: nat | i < |edges| && Kept(m, edges[i])
        ensures Represented(edges, m, out, i)
      {
        var e := EdgesExact(edges, m, out, i);
      }
    }
    if i: nat, j: nat :| Collide(edges, m, i, j) {
      if Represented(edges, m, out, i) && Represented(edges, m, out, j) {
        CollisionLoses(edges, m, out, i, j);
      }
    }
  }

  // ---- in terms of the edges themselves ----

  /** Each output edge is an input edge, of its weight, with either endpoint replaced by what the
      canonical map holds for it, if anything, and its relation trimmed or defaulted. */
  lemma EdgeFields(edges: seq<Edge>, m: map<string, string>, out: seq<Edge>, e: Edge) returns (i: nat)
    requires ListsGroups(out, Grouped(edges, m)) && e in out
    ensures i < |edges| && e.weight == edges[i].weight
    ensures e.source == if edges[i].source in m && m[edges[i].source] != "" then m[edges[i].source] else edges[i].source
    ensures e.target == if edges[i].target in m && m[edges[i].target] != "" then m[edges[i].target] else edges[i].target
    ensures e.relation == if Blank(edges[i].relation) then "RELATED_TO" else TrimSpace(edges[i].relation)
    ensures e.source != "" && e.target != "" && e.source != e.target
  {
    i := EdgesSound(edges, m, out, e);
  }

  /** Conversely, with separator-free keys every edge whose endpoints end up non-empty and different is
      in the output, at no smaller weight. */
  lemma EdgeKept(edges: seq<Edge>, m: map<string, string>, out: seq<Edge>, i: nat) returns (e: Edge)
    requires ListsGroups(out, Grouped(edges, m)) && i < |edges|
    requires forall j :: 0 <= j < |edges| ==>
               NulFree(CanonicalKey(m, edges[j].source)) && NulFree(CanonicalKey(m, edges[j].target))
    requires var (a, b) := (edges[i].source, edges[i].target);
             var source := if a in m && m[a] != "" then m[a] else a;
             var target := if b in m && m[b] != "" then m[b] else b;
             source != "" && target != "" && source != target
    ensures e in out && e.weight >= edges[i].weight
    ensures e.source == if edges[i].source in m && m[edges[i].source] != "" then m[edges[i].source] else edges[i].source
    ensures e.target == if edges[i].target in m && m[edges[i].target] != "" then m[edges[i].target] else edges[i].target
    ensures e.relation == if Blank(edges[i].relation) then "RELATED_TO" else TrimSpace(edges[i].relation)
  {
    SeparatorFreeNoCollision(edges, m);
    e := EdgesExact(edges, m, out, i);
    assert Image(edges, m, TripleOf(e), i);
  }

  // ---- descriptions ----

  /** Edge h is the first of the heaviest edges of group k, among those before n. */
  ghost predicate FirstHeaviest(edges: seq<Edge>, m: map<string, string>, k: string, n: nat, h: nat) {
    && h < n && InGroup(edges, m, k, h)
    && forall j: nat {:trigger InGroup(edges, m, k, j)} :: j < n && InGroup(edges, m, k, j) ==>
         edges[j].weight <= edges[h].weight && (j < h ==> edges[j].weight < edges[h].weight)
  }

  /** None of the edges of group k between h and n has a usable description. */
  ghost predicate NoneDescribed(edges: seq<Edge>, m: map<string, string>, k: string, h: nat, n: nat) {
    forall j: nat {:trigger InGroup(edges, m, k, j)} :: h < j < n && InGroup(edges, m, k, j) ==>
      Blank(edges[j].description)
  }

  /** Of the edges before n: a group's edge is its first heaviest one, h. If that has no description, it
      takes the trimmed one of d, the first later edge of the group with a usable one; if there is no
      such edge, d is past the end and the description stays empty. */
  ghost predicate Described(edges: seq<Edge>, m: map<string, string>, k: string, n: nat, out: Edge, h: nat, d: nat) {
    && FirstHeaviest(edges, m, k, n, h) && out.weight == edges[h].weight
    && if edges[h].description != "" then out.description == edges[h].description
       else if d < n then
         && h < d && InGroup(edges, m, k, d) && !Blank(edges[d].description) && NoneDescribed(edges, m, k, h, d)
         && out.description == TrimSpace(edges[d].description)
       else NoneDescribed(edges, m, k, h, n) && out.description == ""
  }

  lemma DescribedStep(edges: seq<Edge>, m: map<string, string>, k: string, n: nat, table: map<string, Edge>,
                      h: nat, d: nat) returns (h': nat, d': nat)
    requires n < |edges|
    requires k in table ==> Described(edges, m, k, n, table[k], h, d)
    requires k !in table ==> forall j: nat :: j < n ==> !InGroup(edges, m, k, j)
    ensures var next := MergeInto(table, m, edges[n]);
            && (k in next ==> Described(edges, m, k, n + 1, next[k], h', d'))
            && (k !in next ==> forall j: nat :: j < n + 1 ==> !InGroup(edges, m, k, j))
  {
    var usable := InGroup(edges, m, k, n) && !Blank(edges[n].description);
    if InGroup(edges, m, k, n) && (k !in table || edges[n].weight > table[k].weight) {
      h', d' := n, n + 1;
    } else if k in table && edges[h].description == "" && d >= n {
      h', d' := h, if usable then n else n + 1;
    } else {
      h', d' := h, d;
    }
  }

  /** What the output edge of every group carries. */
  lemma GroupDescribed(edges: seq<Edge>, m: map<string, string>, k: string, n: nat) returns (h: nat, d: nat)
    requires n <= |edges|
    ensures k in Grouped(edges[..n], m) ==> Described(edges, m, k, n, Grouped(edges[..n], m)[k], h, d)
    ensures k !in Grouped(edges[..n], m) ==> forall j: nat :: j < n ==> !InGroup(edges, m, k, j)
  {
    h, d := 0, 0;
    if n > 0 {
      h, d := GroupDescribed(edges, m, k, n - 1);
      GroupedSnoc(edges, n - 1, m);
      h, d := DescribedStep(edges, m, k, n - 1, Grouped(edges[..n - 1], m), h, d);
    }
  }

  /** Canonical endpoints without the separator never collide. */
  lemma SeparatorFreeNoCollision(edges: seq<Edge>, m: map<string, string>)
    requires forall i :: 0 <= i < |edges| ==> NulFree(CanonicalKey(m, edges[i].source)) &&
                                              NulFree(CanonicalKey(m, edges[i].target))
    ensures NoCollision(edges, m)
  {
    forall i: nat, j: nat
      ensures !Collide(edges, m, i, j)
    {
      if i < |edges| && j < |edges| && GroupKey(m, edges[i]) == GroupKey(m, edges[j]) {
        JoinKeyInjective(TripleOf(Rewrite(m, edges[i])), TripleOf(Rewrite(m, edges[j])));
      }
    }
  }

  /** Collisions happen: two different triples share one joined key, and the lighter edge is lost. */
  lemma SeparatorCollision() returns (edges: seq<Edge>, lost: Edge)
    ensures |edges| == 2 && edges[1] == lost && Kept(map[], edges[0]) && Kept(map[], edges[1])
    ensures TripleOf(Rewrite(map[], edges[0])) != TripleOf(Rewrite(map[], lost))
    ensures forall out :: ListsGroups(out, Grouped(edges, map[])) ==>
              forall e :: e in out ==> TripleOf(e) != TripleOf(Rewrite(map[], lost))
  {
    var m: map<string, string> := map[];
    var kept := Edge("a\0b", "c", "d", "", 2.0);
    lost := Edge("a", "b\0c", "d", "", 1.0);
    edges := [kept, lost];
    assert TrimSpace("d") == "d" by {
      assert "d"[..1] == "d";
    }
    assert Rewrite(m, kept) == kept && Rewrite(m, lost) == lost;
    var k := JoinKey(TripleOf(kept));
    assert k == ['a', NUL, 'b', NUL, 'c', NUL, 'd'] == JoinKey(TripleOf(lost));
    assert edges[..1] == [kept] && [kept][..0] == [];
    assert Grouped([kept], m) == map[k := kept];
    assert Meet(kept, lost) == kept;
    assert Grouped(edges, m) == map[k := kept];
  }
}
