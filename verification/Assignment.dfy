/** Generation-fenced partition assignment of subscriber.go. */
module Assignment {

  datatype TopicPartition = TopicPartition(topic: string, partition: int)

  datatype Token = Token(key: TopicPartition, generation: nat, valid: bool)

  /** The generation counter is a uint64. */
  const GENERATIONS: nat := 0x1_0000_0000_0000_0000

  datatype Rebalance = Assign(partitions: seq<TopicPartition>) | RevokeAll

  /** The table as a value: the counter, and the generation each partition was assigned in. */
  datatype Table = Table(generation: nat, owned: map<TopicPartition, nat>) {

    function After(r: Rebalance): Table {
      var next := (generation + 1) % GENERATIONS;
      match r
      case Assign(partitions) => Table(next, map p | p in partitions :: next)
      case RevokeAll => Table(next, map[])
    }

    function AfterAll(rs: seq<Rebalance>): Table {
      if rs == [] then this else AfterAll(rs[..|rs| - 1]).After(rs[|rs| - 1])
    }

    function TokenFor(key: TopicPartition): Token {
      if key in owned then Token(key, owned[key], true) else Token(key, 0, false)
    }

    predicate IsCurrent(token: Token) {
      token.valid && token.key in owned && owned[token.key] == token.generation
    }

    /** Every entry carries the current generation. */
    ghost predicate Consistent() {
      generation < GENERATIONS && forall p :: p in owned ==> owned[p] == generation
    }
  }

  const Empty := Table(0, map[])

  /** Reachable tables are consistent. */
  lemma {:induction false} ReachableConsistent(t: Table, rs: seq<Rebalance>)
    requires t.Consistent()
    ensures t.AfterAll(rs).Consistent()
    ensures t.AfterAll(rs).generation == (t.generation + |rs|) % GENERATIONS
  {
    if rs != [] {
      ReachableConsistent(t, rs[..|rs| - 1]);
      WrapStep(t.generation + |rs| - 1);
    } else {
      assert t.generation % GENERATIONS == t.generation;
    }
  }

  lemma WrapStep(n: nat)
    ensures (n % GENERATIONS + 1) % GENERATIONS == (n + 1) % GENERATIONS
  {
    var q, r := n / GENERATIONS, n % GENERATIONS;
    assert n == q * GENERATIONS + r;
    if r + 1 == GENERATIONS {
      assert n + 1 == (q + 1) * GENERATIONS;
    } else {
      assert n + 1 == q * GENERATIONS + (r + 1);
    }
  }

  /** When a token issued earlier is current again, for every run of rebalances: its partition
      is assigned now, and a whole cycle of the 64-bit counter has passed. */
  lemma OldTokenCurrentIff(t: Table, key: TopicPartition, rs: seq<Rebalance>)
    requires t.Consistent() && key in t.owned
    ensures t.AfterAll(rs).IsCurrent(t.TokenFor(key)) <==> key in t.AfterAll(rs).owned && |rs| % GENERATIONS == 0
  {
    ReachableConsistent(t, rs);
  }

  /** It happens: after 2^64 further assignments of its partition a token is current again. */
  lemma WrappedTokenCurrent(key: TopicPartition) returns (rs: seq<Rebalance>)
    ensures rs != [] && var t := Empty.AfterAll([Assign([key])]); t.AfterAll(rs).IsCurrent(t.TokenFor(key))
  {
    rs := seq(GENERATIONS, i => Assign([key]));
    var t := Empty.AfterAll([Assign([key])]);
    assert [Assign([key])][..0] == [];
    assert rs[|rs| - 1] == Assign([key]);
    OldTokenCurrentIff(t, key, rs);
  }

  /** So after a rebalance an earlier token stays stale for the next 2^64 - 1 rebalances. */
  lemma OldTokenStale(t: Table, key: TopicPartition, rs: seq<Rebalance>)
    requires t.Consistent() && 0 < |rs| < GENERATIONS
    ensures !t.AfterAll(rs).IsCurrent(t.TokenFor(key))
  {
    if key in t.owned {
      OldTokenCurrentIff(t, key, rs);
    }
  }

  /** What is assigned is exactly what tokens are given for, and those are current; after a revocation no
      token is, whoever made it. */
  lemma TokensFollowAssignment(t: Table, partitions: seq<TopicPartition>, token: Token)
    ensures var u := t.After(Assign(partitions));
            && (u.TokenFor(token.key).valid <==> token.key in partitions)
            && (u.IsCurrent(u.TokenFor(token.key)) <==> token.key in partitions)
            && (u.IsCurrent(token) ==> token.key in partitions && token == u.TokenFor(token.key))
            && u.TokenFor(token.key).key == token.key
    ensures var u := t.After(RevokeAll); !u.IsCurrent(token) && !u.TokenFor(token.key).valid
  {
    var u := t.After(Assign(partitions));
    assert token.key in u.owned <==> token.key in partitions;
  }

  lemma {:induction false} AfterBoth(t: Table, a: seq<Rebalance>, b: seq<Rebalance>)
    ensures t.AfterAll(a + b) == t.AfterAll(a).AfterAll(b)
  {
    if b == [] {
      assert a + b == a;
    } else {
      AfterBoth(t, a, b[..|b| - 1]);
      assert (a + b)[..|a + b| - 1] == a + b[..|b| - 1];
    }
  }

  /** Counting rebalances is as good as comparing generations: a token taken after the rebalances
      `before` is current after `after` more, fewer than a whole cycle, exactly when there were none
      and its partition was assigned. */
  lemma CurrentIffSameEpoch(before: seq<Rebalance>, after: seq<Rebalance>, key: TopicPartition)
    requires |after| < GENERATIONS
    ensures Empty.AfterAll(before + after).IsCurrent(Empty.AfterAll(before).TokenFor(key))
            <==> after == [] && key in Empty.AfterAll(before).owned
  {
    var t := Empty.AfterAll(before);
    ReachableConsistent(Empty, before);
    AfterBoth(Empty, before, after);
    if after != [] {
      OldTokenStale(t, key, after);
    }
  }

  class PartitionAssignment {
    var generation: nat
    var owned: map<TopicPartition, nat>

    ghost predicate Valid()
      reads this
    {
      View().Consistent()
    }

    function View(): Table
      reads this
    {
      Table(generation, owned)
    }

    constructor ()
      ensures Valid() && View() == Empty
    {
      generation, owned := 0, map[];
    }

    method AssignPartitions(partitions: seq<TopicPartition>)
      requires Valid()
      modifies this
      ensures Valid() && View() == old(View()).After(Assign(partitions))
      ensures generation == (old(generation) + 1) % 0x1_0000_0000_0000_0000
      ensures owned.Keys == (set p | p in partitions) && forall p :: p in partitions ==> owned[p] == generation
    {
      generation := (generation + 1) % GENERATIONS;
      owned := map[];
      for i := 0 to |partitions|
        invariant generation == (old(generation) + 1) % GENERATIONS
        invariant owned == map p | p in partitions[..i] :: generation
      {
        assert partitions[..i + 1] == partitions[..i] + [partitions[i]];
        owned := owned[partitions[i] := generation];
      }
      assert partitions[..|partitions|] == partitions;
    }

    method RevokeAllPartitions() returns (revoked: set<TopicPartition>)
      requires Valid()
      modifies this
      ensures Valid() && View() == old(View()).After(RevokeAll)
      ensures generation == (old(generation) + 1) % 0x1_0000_0000_0000_0000 && owned == map[]
      ensures revoked == old(owned).Keys
    {
      revoked := owned.Keys;
      generation := (generation + 1) % GENERATIONS;
      owned := map[];
    }

    method TokenOf(key: TopicPartition) returns (token: Token)
      ensures token == View().TokenFor(key)
      ensures token.key == key && (token.valid <==> key in owned) && (token.valid ==> token.generation == owned[key])
    {
      if key !in owned {
        return Token(key, 0, false);
      }
      return Token(key, owned[key], true);
    }

    method IsCurrent(token: Token) returns (current: bool)
      ensures current <==> View().IsCurrent(token)
      ensures current <==> token.valid && token.key in owned && owned[token.key] == token.generation
    {
      if !token.valid {
        return false;
      }
      current := token.key in owned && owned[token.key] == token.generation;
    }
  }
}
