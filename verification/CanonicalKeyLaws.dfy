/** What the canonical map means for entity keys. The extraction step builds nodes with
    distinct keys, so the laws are about nodes whose non-empty keys are distinct. */
module CanonicalKeyLaws {
  import opened Connectivity
  import opened EntityResolution
  import opened Text

  ghost predicate Resolved(q: Query, m: map<string, string>) {
    q.WellFormed() && q.DistinctKeys() && q.Canonicalizes(m)
  }

  /** The cluster's greatest member is unique. */
  lemma ElectedUnique(q: Query, i: nat, j: nat, k: nat, l: nat)
    requires q.WellFormed() && q.DistinctKeys()
    requires q.Elected(i, k) && q.Elected(j, l) && q.Linked(i, j)
    requires i < |q.nodes| && q.Keyed(i)
    ensures k == l
  {
    ConnectedSym<nat>(q.SimilarPairs(), i, j);
    ConnectedTrans<nat>(q.SimilarPairs(), i, j, l);
    ConnectedTrans<nat>(q.SimilarPairs(), j, i, k);
    assert q.Linked(i, l) && q.Linked(j, k);
    KeyedAlong(q, i, k);
    NotBehindIff(q.nodes[k], q.nodes[l]);
    NotBehindIff(q.nodes[l], q.nodes[k]);
    PrefersTotal(q.nodes[k], q.nodes[l]);
  }

  /** The node a key resolves to. */
  lemma ElectedNode(q: Query, m: map<string, string>, i: nat) returns (k: nat)
    requires Resolved(q, m) && i < |q.nodes| && q.Keyed(i)
    ensures q.nodes[i].entityKey in m
    ensures k < |q.nodes| && q.Elected(i, k) && q.Keyed(k) && m[q.nodes[i].entityKey] == q.nodes[k].entityKey
  {
    assert q.LastWithKey(i);
    assert q.CanonicalFor(i, m[q.nodes[i].entityKey]);
    k :| k < |q.nodes| && q.Elected(i, k) && q.nodes[k].entityKey == m[q.nodes[i].entityKey];
    KeyedAlong(q, i, k);
  }

  /** Two nodes resolve to the same key exactly when a chain of similar pairs links them. */
  lemma SameCanonicalIffLinked(q: Query, m: map<string, string>, i: nat, j: nat)
    requires Resolved(q, m) && i < |q.nodes| && j < |q.nodes| && q.Keyed(i) && q.Keyed(j)
    ensures q.nodes[i].entityKey in m && q.nodes[j].entityKey in m
    ensures m[q.nodes[i].entityKey] == m[q.nodes[j].entityKey] <==> q.Linked(i, j)
  {
    var k := ElectedNode(q, m, i);
    var l := ElectedNode(q, m, j);
    if q.Linked(i, j) {
      ElectedUnique(q, i, j, k, l);
    }
    if q.nodes[k].entityKey == q.nodes[l].entityKey {
      assert k == l;
      ConnectedSym<nat>(q.SimilarPairs(), j, k);
      ConnectedTrans<nat>(q.SimilarPairs(), i, k, j);
    }
  }

  /** The canonical key belongs to the cluster, and its node is preferred to every other member. */
  lemma CanonicalIsGreatest(q: Query, m: map<string, string>, i: nat) returns (k: nat)
    requires Resolved(q, m) && i < |q.nodes| && q.Keyed(i)
    ensures q.nodes[i].entityKey in m
    ensures k < |q.nodes| && q.Linked(i, k) && m[q.nodes[i].entityKey] == q.nodes[k].entityKey
    ensures forall l: nat :: l < |q.nodes| && l != k && q.Linked(i, l) ==> Prefers(q.nodes[k], q.nodes[l])
  {
    k := ElectedNode(q, m, i);
    forall l: nat | l < |q.nodes| && l != k && q.Linked(i, l)
      ensures Prefers(q.nodes[k], q.nodes[l])
    {
      KeyedAlong(q, i, l);
      NotBehindIff(q.nodes[k], q.nodes[l]);
      PrefersTotal(q.nodes[k], q.nodes[l]);
    }
  }

  /** In terms of the nodes themselves: the node behind the canonical key is mentioned at least as
      often as any linked one; of those as often mentioned, it has a name if any of them has; and of
      those with equally blank names, it has the smallest key. */
  lemma CanonicalLeads(q: Query, m: map<string, string>, i: nat) returns (k: nat)
    requires Resolved(q, m) && i < |q.nodes| && q.nodes[i].entityKey != ""
    ensures q.nodes[i].entityKey in m
    ensures k < |q.nodes| && q.Linked(i, k) && m[q.nodes[i].entityKey] == q.nodes[k].entityKey
    ensures forall l: nat {:trigger q.nodes[l]} :: l < |q.nodes| && q.Linked(i, l) ==>
              var (best, other) := (q.nodes[k], q.nodes[l]);
              && other.mentionCount <= best.mentionCount
              && (other.mentionCount == best.mentionCount && !Blank(other.name) ==> !Blank(best.name))
              && (other.mentionCount == best.mentionCount && Blank(other.name) == Blank(best.name) && l != k ==>
                    Less(best.entityKey, other.entityKey))
  {
    k := CanonicalIsGreatest(q, m, i);
    forall l: nat | l < |q.nodes| && q.Linked(i, l) && l != k
      ensures Prefers(q.nodes[k], q.nodes[l])
    {
    }
  }

  /** Two keyed nodes of one normalised type whose vectors are comparable and similar enough. */
  ghost predicate Alike(q: Query, i: nat, j: nat)
    requires q.WellFormed()
  {
    && i < |q.nodes| && j < |q.nodes| && i != j && q.nodes[i].entityKey != "" && q.nodes[j].entityKey != ""
    && q.typeOf(q.nodes[i].entityType) == q.typeOf(q.nodes[j].entityType)
    && q.threshold <= if |q.vectors[i]| == |q.vectors[j]| != 0 then Dot(q.vectors[i], q.vectors[j]) else 0.0
  }

  ghost predicate AlikeChain(q: Query, p: seq<nat>, i: nat, j: nat)
    requires q.WellFormed()
  {
    && p != [] && p[0] == i && p[|p| - 1] == j
    && forall k :: 0 <= k < |p| - 1 ==> Alike(q, p[k], p[k + 1])
  }

  lemma AlikeIffAdjacent(q: Query, i: nat, j: nat)
    requires q.WellFormed()
    ensures Alike(q, i, j) <==> Adjacent(q.SimilarPairs(), i, j)
  {
    if i < |q.nodes| && j < |q.nodes| && |q.vectors[i]| == |q.vectors[j]| {
      DotSymmetric(q.vectors[i], q.vectors[j]);
    }
  }

  /** In terms of the nodes and vectors themselves: two nodes resolve to the same key exactly when a
      chain of alike nodes leads from one to the other. */
  lemma SameCanonicalIffChain(q: Query, m: map<string, string>, i: nat, j: nat)
    requires Resolved(q, m) && i < |q.nodes| && j < |q.nodes|
    requires q.nodes[i].entityKey != "" && q.nodes[j].entityKey != ""
    ensures q.nodes[i].entityKey in m && q.nodes[j].entityKey in m
    ensures m[q.nodes[i].entityKey] == m[q.nodes[j].entityKey] <==> exists p :: AlikeChain(q, p, i, j)
  {
    SameCanonicalIffLinked(q, m, i, j);
    if p :| AlikeChain(q, p, i, j) {
      forall k | 0 <= k < |p| - 1
        ensures Adjacent(q.SimilarPairs(), p[k], p[k + 1])
      {
        AlikeIffAdjacent(q, p[k], p[k + 1]);
      }
      assert JoinedBy(q.SimilarPairs(), i, j, p);
    }
    if q.Linked(i, j) {
      var p :| JoinedBy(q.SimilarPairs(), i, j, p);
      forall k | 0 <= k < |p| - 1
        ensures Alike(q, p[k], p[k + 1])
      {
        AlikeIffAdjacent(q, p[k], p[k + 1]);
      }
      assert AlikeChain(q, p, i, j);
    }
  }

  /** Resolving twice changes nothing, and the map never leaves its own key set. */
  lemma CanonicalIdempotent(q: Query, m: map<string, string>, key: string)
    requires Resolved(q, m) && key in m
    ensures m[key] in m && m[m[key]] == m[key]
  {
    assert q.NodeKey(key);
    var i: nat :| i < |q.nodes| && q.nodes[i].entityKey == key;
    var k := ElectedNode(q, m, i);
    SameCanonicalIffLinked(q, m, i, k);
  }

  // ---- independence of the node order ----

  /** The same entities, with the same vectors, listed in another order. */
  ghost predicate Reordered(q: Query, r: Query, place: nat -> nat) {
    && q.WellFormed() && r.WellFormed()
    && |q.nodes| == |r.nodes| && q.threshold == r.threshold && q.typeOf == r.typeOf
    && (forall i: nat {:trigger place(i)} :: i < |q.nodes| ==>
          place(i) < |r.nodes| && r.nodes[place(i)] == q.nodes[i] && r.vectors[place(i)] == q.vectors[i])
    && (forall i: nat, j: nat {:trigger place(i), place(j)} :: i < j < |q.nodes| ==> place(i) != place(j))
  }

  lemma ReorderedLinked(q: Query, r: Query, place: nat -> nat, i: nat, j: nat)
    requires Reordered(q, r, place) && q.Linked(i, j)
    ensures r.Linked(place(i), place(j))
  {
    forall a: nat, b: nat | (a, b) in q.SimilarPairs()
      ensures Adjacent(r.SimilarPairs(), place(a), place(b))
    {
      assert q.Similar(a, b) && place(a) != place(b);
      if |q.vectors[a]| == |q.vectors[b]| {
        DotSymmetric(q.vectors[a], q.vectors[b]);
      }
      assert r.Similar(place(a), place(b)) && r.Similar(place(b), place(a));
    }
    ConnectedImage(q.SimilarPairs(), r.SimilarPairs(), place, i, j);
  }

  ghost predicate SameEntities(q: Query, r: Query, there: nat -> nat, back: nat -> nat) {
    && Reordered(q, r, there) && Reordered(r, q, back)
    && (forall i: nat {:trigger there(i)} :: i < |q.nodes| ==> back(there(i)) == i)
    && (forall i: nat {:trigger back(i)} :: i < |r.nodes| ==> there(back(i)) == i)
  }

  lemma SameResult(q: Query, r: Query, there: nat -> nat, back: nat -> nat, m: map<string, string>,
                   m': map<string, string>, i: nat)
    requires Resolved(q, m) && Resolved(r, m') && SameEntities(q, r, there, back)
    requires i < |q.nodes| && q.Keyed(i)
    ensures q.nodes[i].entityKey in m && q.nodes[i].entityKey in m'
    ensures m[q.nodes[i].entityKey] == m'[q.nodes[i].entityKey]
  {
    var k := ElectedNode(q, m, i);
    var l := ElectedNode(r, m', there(i));
    ReorderedLinked(q, r, there, i, k);
    ReorderedLinked(r, q, back, there(i), l);
    assert q.Linked(i, back(l)) && r.Linked(there(i), there(k));
    KeyedAlong(q, i, back(l));
    NotBehindIff(q.nodes[k], q.nodes[back(l)]);
    NotBehindIff(r.nodes[l], r.nodes[there(k)]);
    PrefersTotal(q.nodes[k], q.nodes[back(l)]);
  }

  lemma SameAtKey(q: Query, r: Query, there: nat -> nat, back: nat -> nat, m: map<string, string>,
                  m': map<string, string>, key: string)
    requires Resolved(q, m) && Resolved(r, m') && SameEntities(q, r, there, back) && key in m
    ensures key in m' && m[key] == m'[key]
  {
    assert q.NodeKey(key);
    var i: nat :| i < |q.nodes| && q.nodes[i].entityKey == key;
    SameResult(q, r, there, back, m, m', i);
  }

  /** The canonical map depends on the set of entities, not on the order they come in. */
  lemma OrderIndependent(q: Query, r: Query, there: nat -> nat, back: nat -> nat, m: map<string, string>,
                         m': map<string, string>)
    requires Resolved(q, m) && Resolved(r, m') && SameEntities(q, r, there, back)
    ensures m == m'
  {
    forall key
      ensures key in m <==> key in m'
      ensures key in m ==> m[key] == m'[key]
    {
      if key in m {
        SameAtKey(q, r, there, back, m, m', key);
      }
      if key in m' {
        SameAtKey(r, q, back, there, m', m, key);
      }
    }
  }
}
