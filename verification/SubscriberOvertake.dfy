/** A run of the subscriber that commits an offset past one whose listener is still running. */
module SubscriberOvertake {
  import opened Assignment
  import opened CommitBuffer
  import opened CommitLifetimes
  import opened Subscriber

  /** What the run is followed by: one partition, assigned in epoch 1; `issued` counts admissions. */
  datatype View = View(key: TopicPartition, poll: PollState, channels: seq<seq<Item>>, workers: seq<Worker>,
                       commits: seq<Msg>, states: States<Msg>, broker: seq<BrokerCommit>, polled: set<Msg>,
                       issued: nat) {
    function Msg(offset: int): Msg {
      Subscriber.Msg(key, offset, 1)
    }
  }

  ghost predicate Seen(c: Config, s: State, v: View) {
    && Shaped(c, s) && s.epoch == 1 && s.owned == {v.key} && !s.cancelled && !s.gate.closed && s.backlog == []
    && s.poll == v.poll && s.channels == v.channels && s.workers == v.workers && s.commits == v.commits
    && s.states == v.states && s.coordinator.Receiving? && s.broker == v.broker && s.log.polled == v.polled
    && |s.gate.admitted| == v.issued
  }

  ghost predicate Reaches(c: Config, es: seq<Event>, v: View) {
    c.Valid() && Possible(c, Init(c), es) && Seen(c, After(c, Init(c), es), v)
  }

  lemma {:induction false} Extend(c: Config, s: State, es: seq<Event>, e: Event)
    requires Shaped(c, s) && Possible(c, s, es) && Enabled(c, After(c, s, es), e)
    ensures Possible(c, s, es + [e]) && After(c, s, es + [e]) == Next(c, After(c, s, es), e)
    decreases |es|
  {
    if es == [] {
      assert [] + [e] == [e] && [e][1..] == [];
      assert Possible(c, Next(c, s, e), []) && After(c, Next(c, s, e), []) == Next(c, s, e);
    } else {
      assert (es + [e])[0] == es[0] && (es + [e])[1..] == es[1..] + [e];
      Extend(c, Next(c, s, es[0]), es[1..], e);
    }
  }

  lemma Assigned(c: Config, key: TopicPartition) returns (es: seq<Event>, v: View)
    requires c.Valid()
    ensures Reaches(c, es, v)
    ensures v == View(key, Polling, seq(c.shards, i => []), seq(c.shards, i => Idle), [], map[], [], {}, 0)
  {
    var e := Rebalance(AssignedCallback([key]));
    Extend(c, Init(c), [], e);
    es := [] + [e];
    v := View(key, Polling, seq(c.shards, i => []), seq(c.shards, i => Idle), [], map[], [], {}, 0);
    assert (set p | p in [key]) == {key};
  }

  lemma Polls(c: Config, es: seq<Event>, v: View, offset: int) returns (fs: seq<Event>, w: View)
    requires Reaches(c, es, v) && v.poll.Polling? && v.Msg(offset) !in v.polled
    ensures Reaches(c, fs, w)
    ensures w == v.(poll := Prepared(Item(v.issued, v.Msg(offset))), states := Registered(v.states, v.key, offset),
                    polled := v.polled + {v.Msg(offset)}, issued := v.issued + 1)
  {
    var e := Poll(Message(v.key, offset));
    Extend(c, Init(c), es, e);
    fs := es + [e];
    w := v.(poll := Prepared(Item(v.issued, v.Msg(offset))), states := Registered(v.states, v.key, offset),
            polled := v.polled + {v.Msg(offset)}, issued := v.issued + 1);
  }

  lemma Dispatches(c: Config, es: seq<Event>, v: View) returns (fs: seq<Event>, w: View)
    requires Reaches(c, es, v) && v.poll.Prepared? && v.poll.item.msg.key == v.key && v.poll.item.msg.epoch == 1
    requires |v.channels| == c.shards && v.channels[c.Shard(v.poll.item.msg)] == []
    ensures Reaches(c, fs, w)
    ensures w == v.(poll := Polling, channels := v.channels[c.Shard(v.poll.item.msg) := [v.poll.item]])
  {
    var e := Poll(Dispatch);
    assert [] + [v.poll.item] == [v.poll.item];
    Extend(c, Init(c), es, e);
    fs := es + [e];
    w := v.(poll := Polling, channels := v.channels[c.Shard(v.poll.item.msg) := [v.poll.item]]);
  }

  lemma Takes(c: Config, es: seq<Event>, v: View, i: nat) returns (fs: seq<Event>, w: View)
    requires Reaches(c, es, v) && i < c.shards && v.workers[i].Idle? && |v.channels[i]| == 1
    ensures Reaches(c, fs, w)
    ensures w == v.(channels := v.channels[i := []], workers := v.workers[i := Holding(v.channels[i][0])])
  {
    var e := Work(i, Receive);
    assert v.channels[i][1..] == [];
    Extend(c, Init(c), es, e);
    fs := es + [e];
    w := v.(channels := v.channels[i := []], workers := v.workers[i := Holding(v.channels[i][0])]);
  }

  lemma Works(c: Config, es: seq<Event>, v: View, i: nat, e: WorkEvent, next: Worker) returns (fs: seq<Event>, w: View)
    requires Reaches(c, es, v) && i < c.shards && !v.workers[i].Idle? && v.workers[i].item.msg.key == v.key
    requires v.workers[i].item.msg.epoch == 1
    requires var it := v.workers[i].item;
             || (v.workers[i].Holding? && e == Check(true) && next == Running(it))
             || (v.workers[i].Holding? && e == Check(false) && next == Committing(it, false))
             || (v.workers[i].Committing? && e == CheckCommit && next == Requesting(it, v.workers[i].forget))
             || (v.workers[i].Finishing? && e == Finish && next == Idle)
    ensures Reaches(c, fs, w) && w == v.(workers := v.workers[i := next])
  {
    Extend(c, Init(c), es, Work(i, e));
    fs := es + [Work(i, e)];
    w := v.(workers := v.workers[i := next]);
  }

  lemma RoomForOne(c: Config)
    requires c.Valid()
    ensures c.shards * c.capacity > 0
  {
  }

  lemma Requests(c: Config, es: seq<Event>, v: View, i: nat) returns (fs: seq<Event>, w: View)
    requires Reaches(c, es, v) && i < c.shards && v.workers[i].Requesting? && v.commits == []
    ensures Reaches(c, fs, w)
    ensures w == v.(workers := v.workers[i := Finishing(v.workers[i].item)], commits := [v.workers[i].item.msg])
  {
    RoomForOne(c);
    Extend(c, Init(c), es, Work(i, RequestCommit));
    fs := es + [Work(i, RequestCommit)];
    w := v.(workers := v.workers[i := Finishing(v.workers[i].item)], commits := [v.workers[i].item.msg]);
  }

  /** A worker handles a message without listener. */
  lemma Handles(c: Config, es: seq<Event>, v: View, i: nat) returns (fs: seq<Event>, w: View)
    requires Reaches(c, es, v) && i < c.shards && v.workers[i].Holding? && v.commits == []
    requires v.workers[i].item.msg.key == v.key && v.workers[i].item.msg.epoch == 1
    ensures Reaches(c, fs, w) && w == v.(workers := v.workers[i := Idle], commits := [v.workers[i].item.msg])
  {
    var it := v.workers[i].item;
    fs, w := Works(c, es, v, i, Check(false), Committing(it, false));
    fs, w := Works(c, fs, w, i, CheckCommit, Requesting(it, false));
    fs, w := Requests(c, fs, w, i);
    fs, w := Works(c, fs, w, i, Finish, Idle);
  }

  /** The coordinator commits the one request there is. */
  lemma Commits(c: Config, es: seq<Event>, v: View) returns (fs: seq<Event>, w: View)
    requires Reaches(c, es, v) && |v.commits| == 1 && v.commits[0].key == v.key && v.commits[0].epoch == 1
    requires var m := v.commits[0];
             Complete(StateFor(v.states, m.key, m.offset), Request(m.offset, m)).0 == [Request(m.offset, m)]
    ensures Reaches(c, fs, w)
    ensures var m := v.commits[0];
            w == v.(commits := [], states := Settled(v.states, m.key, Request(m.offset, m)),
                    broker := v.broker + [BrokerCommit(m, 1, 1)])
  {
    var m := v.commits[0];
    Extend(c, Init(c), es, Coordinate(Collect));
    fs := es + [Coordinate(Collect)];
    Extend(c, Init(c), fs, Coordinate(Commit(true, true)));
    fs := fs + [Coordinate(Commit(true, true))];
    Extend(c, Init(c), fs, Coordinate(Commit(false, false)));
    fs := fs + [Coordinate(Commit(false, false))];
    w := v.(commits := [], states := Settled(v.states, m.key, Request(m.offset, m)),
            broker := v.broker + [BrokerCommit(m, 1, 1)]);
  }

  /** Messages 5, 6 and 7 are polled; a worker holds 5, and 6 waits in its shard's channel. */
  lemma ThreePolled(c: Config, key: TopicPartition) returns (es: seq<Event>, v: View)
    requires c.Valid()
    ensures Reaches(c, es, v) && v.key == key && v.commits == [] && v.broker == []
    ensures |v.workers| == |v.channels| == c.shards
    ensures v.poll == Prepared(Item(2, v.Msg(7))) && v.states == map[key := Fresh(5)]
    ensures var (five, six) := (c.Shard(v.Msg(5)), c.Shard(v.Msg(6)));
            && v.workers == seq(c.shards, i => Idle)[five := Holding(Item(0, v.Msg(5)))]
            && v.channels == seq(c.shards, i => [])[six := [Item(1, v.Msg(6))]]
  {
    es, v := Assigned(c, key);
    var five := c.Shard(v.Msg(5));
    es, v := Polls(c, es, v, 5);
    es, v := Dispatches(c, es, v);
    es, v := Takes(c, es, v, five);
    assert v.channels == seq(c.shards, i => []);
    es, v := Polls(c, es, v, 6);
    es, v := Dispatches(c, es, v);
    es, v := Polls(c, es, v, 7);
  }

  /** 5 is handled and committed, which deletes the partition's commit state although 6 and 7 are
      registered; then 6 starts running. */
  lemma FiveCommitted(c: Config, key: TopicPartition) returns (es: seq<Event>, v: View)
    requires c.Valid()
    ensures Reaches(c, es, v) && v.key == key && v.commits == [] && v.broker == [BrokerCommit(v.Msg(5), 1, 1)]
    ensures v.poll == Prepared(Item(2, v.Msg(7))) && v.states == map[]
    ensures var six := c.Shard(v.Msg(6));
            v.workers == seq(c.shards, i => Idle)[six := Running(Item(1, v.Msg(6)))] &&
            v.channels == seq(c.shards, i => [])
  {
    es, v := ThreePolled(c, key);
    var (five, six) := (c.Shard(v.Msg(5)), c.Shard(v.Msg(6)));
    es, v := Handles(c, es, v, five);
    AloneDrains(Request(5, v.Msg(5)));
    es, v := Commits(c, es, v);
    assert v.states == map[];
    es, v := Takes(c, es, v, six);
    es, v := Works(c, es, v, six, Check(true), Running(Item(1, v.Msg(6))));
    assert v.channels == seq(c.shards, i => []);
    assert v.workers == seq(c.shards, i => Idle)[six := Running(Item(1, v.Msg(6)))];
  }

  /** So whenever 6 and 7 hash to different shards, some run commits 7 while the listener of 6, polled
      before it under the same assignment, is still running. */
  lemma SevenOvertakesSix(c: Config, key: TopicPartition) returns (es: seq<Event>)
    requires c.Valid() && c.Shard(Msg(key, 6, 1)) != c.Shard(Msg(key, 7, 1))
    ensures Possible(c, Init(c), es)
    ensures var s := After(c, Init(c), es);
            && s.broker == [BrokerCommit(Msg(key, 5, 1), 1, 1), BrokerCommit(Msg(key, 7, 1), 1, 1)]
            && s.workers[c.Shard(Msg(key, 6, 1))] == Running(Item(1, Msg(key, 6, 1))) && s.Current(Msg(key, 6, 1))
  {
    var v;
    es, v := FiveCommitted(c, key);
    var seven := c.Shard(v.Msg(7));
    es, v := Dispatches(c, es, v);
    es, v := Takes(c, es, v, seven);
    es, v := Handles(c, es, v, seven);
    AloneDrains(Request(7, v.Msg(7)));
    es, v := Commits(c, es, v);
  }
}
