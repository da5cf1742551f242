/** Which offsets subscriber.go commits: only those of finished work, and only under the
    assignment their message was polled under. */
module SubscriberCommits {
  import opened Assignment
  import opened CommitBuffer
  import opened Subscriber

  // ---- every commit is justified ----

  /** No listener, a listener that returned success or already-processed, or a dead-letter queue
      that took the message. */
  predicate Justified(log: History, m: Msg) {
    m in log.unheard || m in log.handled || m in log.deadLettered
  }

  predicate Grows(a: History, b: History) {
    a.unheard <= b.unheard && a.handled <= b.handled && a.deadLettered <= b.deadLettered
  }

  ghost predicate RequestsJustified(log: History, out: seq<Request<Msg>>) {
    forall i {:trigger out[i]} :: 0 <= i < |out| ==> Justified(log, out[i].payload)
  }

  ghost predicate BufferJustified(log: History, key: TopicPartition, st: CommitState<Msg>) {
    && Keyed(st)
    && forall o {:trigger st.ready[o]} :: o in st.ready ==> Justified(log, st.ready[o].payload)
  }

  predicate WorkerJustified(log: History, w: Worker) {
    w.Committing? || w.Requesting? ==> Justified(log, w.item.msg)
  }

  predicate PollJustified(log: History, p: PollState) {
    p.Reporting? || p.Sending? ==> Justified(log, p.msg)
  }

  ghost predicate QueueJustified(log: History, q: seq<Msg>) {
    forall i {:trigger q[i]} :: 0 <= i < |q| ==> Justified(log, q[i])
  }

  ghost predicate StatesJustified(log: History, states: States<Msg>) {
    forall k {:trigger states[k]} :: k in states ==> BufferJustified(log, k, states[k])
  }

  ghost predicate CoordinatorJustified(log: History, k: Coordinator) {
    match k
    case Receiving => true
    case Emitting(pending) => RequestsJustified(log, pending)
    case Retrying(req, _, rest) => Justified(log, req.payload) && RequestsJustified(log, rest)
  }

  ghost predicate BrokerJustified(log: History, broker: seq<BrokerCommit>) {
    forall i {:trigger broker[i]} :: 0 <= i < |broker| ==> Justified(log, broker[i].msg)
  }

  /** Everywhere on its way to the broker, a commit is justified. */
  ghost predicate AllJustified(c: Config, s: State) {
    && Shaped(c, s)
    && (forall i: nat {:trigger s.workers[i]} :: i < c.shards ==> WorkerJustified(s.log, s.workers[i]))
    && PollJustified(s.log, s.poll) && QueueJustified(s.log, s.commits) && StatesJustified(s.log, s.states)
    && CoordinatorJustified(s.log, s.coordinator) && BrokerJustified(s.log, s.broker)
  }

  lemma WorkJustified(c: Config, s: State, i: nat, e: WorkEvent)
    requires AllJustified(c, s) && i < c.shards && WorkEnabled(c, s, i, e)
    ensures AllJustified(c, NextWork(c, s, i, e))
  {
    var t := NextWork(c, s, i, e);
    assert WorkerJustified(s.log, s.workers[i]);
    assert Grows(s.log, t.log);
    assert WorkerJustified(t.log, t.workers[i]);
    assert t.states == s.states && t.coordinator == s.coordinator && t.broker == s.broker && t.poll == s.poll;
  }

  lemma PollJustifies(c: Config, s: State, e: PollEvent)
    requires AllJustified(c, s) && PollEnabled(c, s, e)
    ensures AllJustified(c, NextPoll(c, s, e))
  {
    var t := NextPoll(c, s, e);
    assert Grows(s.log, t.log);
    assert t.coordinator == s.coordinator && t.broker == s.broker && t.workers == s.workers;
    assert t.states == s.states || exists k, o :: t.states == Registered(s.states, k, o);
  }

  lemma CollectJustified(c: Config, s: State)
    requires AllJustified(c, s) && CommitEnabled(s, Collect)
    ensures AllJustified(c, NextCommit(s, Collect))
  {
    var m := s.commits[0];
    var start := StateFor(s.states, m.key, m.offset);
    var full := Insert(start, Request(m.offset, m));
    assert BufferJustified(s.log, m.key, start);
    assert BufferJustified(s.log, m.key, full);
    DrainJustified(s.log, m.key, full);
  }

  /** What a drain hands on, and what it keeps, was buffered before. */
  lemma DrainJustified(log: History, key: TopicPartition, full: CommitState<Msg>)
    requires BufferJustified(log, key, full)
    ensures RequestsJustified(log, Drain(full).0) && BufferJustified(log, key, Drain(full).1)
  {
    DrainMeaning(full);
    var (out, end) := Drain(full);
    forall i | 0 <= i < |out|
      ensures Justified(log, out[i].payload)
    {
      var o := full.nextOffset + i;
      assert o in full.ready && out[o - full.nextOffset] == full.ready[o];
    }
  }

  lemma EmitJustified(s: State, e: CommitEvent)
    requires CommitEnabled(s, e) && !e.Collect?
    requires CoordinatorJustified(s.log, s.coordinator) && BrokerJustified(s.log, s.broker)
    ensures var t := NextCommit(s, e);
            && CoordinatorJustified(t.log, t.coordinator) && BrokerJustified(t.log, t.broker) && Grows(s.log, t.log)
            && t.commits == s.commits && t.states == s.states && t.poll == s.poll
  {
    var t := NextCommit(s, e);
    assert Grows(s.log, t.log);
  }

  lemma CommitJustified(c: Config, s: State, e: CommitEvent)
    requires AllJustified(c, s) && CommitEnabled(s, e)
    ensures AllJustified(c, NextCommit(s, e))
  {
    if e.Collect? {
      CollectJustified(c, s);
    } else {
      EmitJustified(s, e);
    }
  }

  lemma StepJustified(c: Config, s: State, e: Event)
    requires AllJustified(c, s) && Enabled(c, s, e)
    ensures AllJustified(c, Next(c, s, e))
  {
    match e
    case Rebalance(r) =>
    case Poll(p) => PollJustifies(c, s, p);
    case Work(i, w) => WorkJustified(c, s, i, w);
    case Coordinate(k) => CommitJustified(c, s, k);
    case Cancel =>
  }

  lemma {:induction false} RunJustified(c: Config, s: State, es: seq<Event>)
    requires AllJustified(c, s) && Possible(c, s, es)
    ensures AllJustified(c, After(c, s, es))
    decreases |es|
  {
    if es != [] {
      StepJustified(c, s, es[0]);
      RunJustified(c, Next(c, s, es[0]), es[1..]);
    }
  }
}
