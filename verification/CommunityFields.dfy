/** The communities read off their fields: keys, leaders, counts and the order of everything listed. */
module CommunityFields {
  import opened Connectivity
  import opened Text
  import opened Sorting
  import opened Counting
  import opened EntityResolution
  import opened Communities
  import opened CommunityResults
  import opened CommunityLaws
  import E = EdgeRewrite

  // ---- who is together ----

  /** Some edge joins a and b, in either direction, and both are keys of nodes. */
  ghost predicate EdgeJoins(nodes: seq<Node>, edges: seq<E.Edge>, a: string, b: string) {
    && (exists i :: 0 <= i < |nodes| && nodes[i].entityKey == a)
    && (exists i :: 0 <= i < |nodes| && nodes[i].entityKey == b)
    && (exists e :: e in edges && ((e.source == a && e.target == b) || (e.source == b && e.target == a)))
  }

  ghost predicate EdgeChain(nodes: seq<Node>, edges: seq<E.Edge>, p: seq<string>, a: string, b: string) {
    && p != [] && p[0] == a && p[|p| - 1] == b
    && forall k :: 0 <= k < |p| - 1 ==> EdgeJoins(nodes, edges, p[k], p[k + 1])
  }

  lemma JoinsIffAdjacent(nodes: seq<Node>, edges: seq<E.Edge>, a: string, b: string)
    ensures EdgeJoins(nodes, edges, a, b) <==> Adjacent(KnownPairs(nodes, edges), a, b)
  {
    if EdgeJoins(nodes, edges, a, b) {
      assert KnownKey(nodes, a) && KnownKey(nodes, b);
      var e :| e in edges && ((e.source == a && e.target == b) || (e.source == b && e.target == a));
      assert KnownEdge(nodes, e) && (e.source, e.target) in KnownPairs(nodes, edges);
    }
  }

  /** Two listed entities share a community exactly when a chain of edges between nodes of the graph leads
      from one to the other. */
  lemma SameCommunityIffChain(nodes: seq<Node>, edges: seq<E.Edge>, groups: seq<seq<Node>>, communities: seq<Community>,
                              members: seq<Member>, x: Member, y: Member)
    requires Partition(nodes, edges, groups) && Describes(edges, groups, communities, members)
    requires x in members && y in members
    ensures x.communityKey == y.communityKey <==> exists p :: EdgeChain(nodes, edges, p, x.entityKey, y.entityKey)
  {
    SameCommunityIffConnected(nodes, edges, groups, communities, members, x, y);
    var pairs := KnownPairs(nodes, edges);
    forall p
      ensures EdgeChain(nodes, edges, p, x.entityKey, y.entityKey) <==> JoinedBy(pairs, x.entityKey, y.entityKey, p)
    {
      forall k | 0 <= k < |p| - 1
        ensures EdgeJoins(nodes, edges, p[k], p[k + 1]) <==> Adjacent(pairs, p[k], p[k + 1])
      {
        JoinsIffAdjacent(nodes, edges, p[k], p[k + 1]);
      }
    }
  }

  // ---- what a community carries ----

  /** Community i is numbered i + 1 and named after its most mentioned node, the one with the smallest
      key of those; the communities come in the order of those keys. */
  lemma CommunityNamed(nodes: seq<Node>, edges: seq<E.Edge>, groups: seq<seq<Node>>, communities: seq<Community>,
                       members: seq<Member>, i: nat) returns (leader: Node)
    requires Partition(nodes, edges, groups) && Describes(edges, groups, communities, members) && i < |communities|
    ensures leader in nodes && Member(leader.entityKey, communities[i].key) in members
    ensures communities[i].key == "community:" + (Pad3(i + 1) + [':'] + leader.entityKey)
    ensures forall x :: x in groups[i] && x != leader ==>
              || x.mentionCount < leader.mentionCount
              || (x.mentionCount == leader.mentionCount && Less(leader.entityKey, x.entityKey))
    ensures i > 0 ==> Less(groups[i - 1][0].entityKey, leader.entityKey)
  {
    leader := groups[i][0];
    MemberExists(groups, KeysOf(groups), i, 0);
    assert InSome(groups, leader);
    assert i > 0 ==> GroupLess(groups[i - 1], groups[i]);
  }

  function Sizes(groups: seq<seq<Node>>): nat {
    if groups == [] then 0 else Sizes(groups[..|groups| - 1]) + |groups[|groups| - 1]|
  }

  /** The membership list: community by community, and in each the nodes by falling mentions and then by
      key. */
  lemma {:induction false} MemberAt(groups: seq<seq<Node>>, labels: seq<string>, i: nat, b: nat)
    requires |labels| == |groups| && i < |groups| && b < |groups[i]|
    ensures |MembersOf(groups, labels)| == Sizes(groups)
    ensures Sizes(groups[..i]) + b < |MembersOf(groups, labels)|
    ensures MembersOf(groups, labels)[Sizes(groups[..i]) + b] == Member(groups[i][b].entityKey, labels[i])
  {
    var last := |groups| - 1;
    MembersCount(groups[..last], labels[..last]);
    if i < last {
      MemberAt(groups[..last], labels[..last], i, b);
      assert groups[..last][..i] == groups[..i];
    }
  }

  lemma {:induction false} MembersCount(groups: seq<seq<Node>>, labels: seq<string>)
    requires |labels| == |groups|
    ensures |MembersOf(groups, labels)| == Sizes(groups)
  {
    if groups != [] {
      var last := |groups| - 1;
      MembersCount(groups[..last], labels[..last]);
    }
  }

  lemma MembersInOrder(nodes: seq<Node>, edges: seq<E.Edge>, groups: seq<seq<Node>>, communities: seq<Community>,
                       members: seq<Member>, i: nat, a: nat, b: nat)
    requires Partition(nodes, edges, groups) && Describes(edges, groups, communities, members)
    requires i < |groups| && a < b < |groups[i]|
    ensures Sizes(groups[..i]) + b < |members|
    ensures members[Sizes(groups[..i]) + a] == Member(groups[i][a].entityKey, communities[i].key)
    ensures members[Sizes(groups[..i]) + b] == Member(groups[i][b].entityKey, communities[i].key)
    ensures groups[i][a].mentionCount >= groups[i][b].mentionCount
    ensures groups[i][a].mentionCount == groups[i][b].mentionCount ==>
              Less(groups[i][a].entityKey, groups[i][b].entityKey)
  {
    MemberAt(groups, KeysOf(groups), i, a);
    MemberAt(groups, KeysOf(groups), i, b);
    assert NodeLess(groups[i][a], groups[i][b]);
  }

  lemma MemberIffHasKey(nodes: seq<Node>, edges: seq<E.Edge>, groups: seq<seq<Node>>, i: nat, key: string)
    requires Partition(nodes, edges, groups) && i < |groups|
    ensures Member(key, KeysOf(groups)[i]) in MembersOf(groups, KeysOf(groups)) <==> HasKey(groups[i], key)
  {
    if HasKey(groups[i], key) {
      var b :| 0 <= b < |groups[i]| && groups[i][b].entityKey == key;
      MemberExists(groups, KeysOf(groups), i, b);
    }
    if Member(key, KeysOf(groups)[i]) in MembersOf(groups, KeysOf(groups)) {
      var j, b := MemberOrigin(groups, KeysOf(groups), Member(key, KeysOf(groups)[i]));
      CommunityKeyInjective(i, j, groups[i], groups[j]);
    }
  }

  /** The counts of a community are those of its lines in the membership list, and of the edges both of
      whose endpoints are in that list under its key. */
  lemma CommunityCounts(nodes: seq<Node>, edges: seq<E.Edge>, groups: seq<seq<Node>>, communities: seq<Community>,
                        members: seq<Member>, i: nat, listed: Member -> int, inside: E.Edge -> int)
    requires Partition(nodes, edges, groups) && Describes(edges, groups, communities, members) && i < |communities|
    requires forall x :: listed(x) == if x.communityKey == communities[i].key then 1 else 0
    requires forall e :: inside(e) == if Member(e.source, communities[i].key) in members &&
                                         Member(e.target, communities[i].key) in members then 1 else 0
    ensures communities[i].entityCount == SumBy(members, listed)
    ensures communities[i].edgeCount == SumBy(edges, inside)
  {
    forall j | 0 <= j < |groups|
      ensures KeysOf(groups)[j] == KeysOf(groups)[i] <==> j == i
    {
      if KeysOf(groups)[j] == KeysOf(groups)[i] {
        CommunityKeyInjective(i, j, groups[i], groups[j]);
      }
    }
    ListedCount(groups, KeysOf(groups), KeysOf(groups)[i], i, listed);
    forall e
      ensures inside(e) == if Inside(groups[i], e) then 1 else 0
    {
      MemberIffHasKey(nodes, edges, groups, i, e.source);
      MemberIffHasKey(nodes, edges, groups, i, e.target);
    }
    InsideAsSumBy(edges, groups[i], inside);
  }

  lemma {:induction false} ListedCount(groups: seq<seq<Node>>, labels: seq<string>, wanted: string, i: nat,
                                       listed: Member -> int)
    requires |labels| == |groups| && forall x: Member :: listed(x) == if x.communityKey == wanted then 1 else 0
    requires forall j :: 0 <= j < |labels| ==> (labels[j] == wanted <==> j == i)
    ensures SumBy(MembersOf(groups, labels), listed) == if i < |groups| then |groups[i]| else 0
  {
    if groups != [] {
      var last := |groups| - 1;
      ListedCount(groups[..last], labels[..last], wanted, i, listed);
      ListedIn(MembersOf(groups[..last], labels[..last]), groups[last], labels[last], wanted, listed);
    }
  }

  lemma {:induction false} ListedIn(before: seq<Member>, g: seq<Node>, own: string, wanted: string,
                                    listed: Member -> int)
    requires forall x: Member :: listed(x) == if x.communityKey == wanted then 1 else 0
    ensures SumBy(before + MembersIn(g, own), listed) == SumBy(before, listed) + if own == wanted then |g| else 0
  {
    if g == [] {
      assert before + MembersIn(g, own) == before;
    } else {
      var init, all := g[..|g| - 1], before + MembersIn(g, own);
      ListedIn(before, init, own, wanted, listed);
      assert all[..|all| - 1] == before + MembersIn(init, own);
    }
  }
}
