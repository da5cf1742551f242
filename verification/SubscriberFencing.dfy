/** Generation fencing in subscriber.go: after a rebalance nothing polled before it passes an
    assignment check again. */
module SubscriberFencing {
  import opened Assignment
  import opened CommitBuffer
  import opened Subscriber
  import opened SubscriberCopies

  // ---- in which epoch a commit reaches the broker ----

  ghost predicate CommitEpochs(s: State) {
    && (forall i {:trigger s.broker[i]} :: 0 <= i < |s.broker| ==>
          && 1 <= s.broker[i].attempt <= MAX_COMMIT_ATTEMPTS && s.broker[i].msg.epoch <= s.broker[i].epoch <= s.epoch
          && (s.broker[i].attempt == 1 ==> s.broker[i].epoch == s.broker[i].msg.epoch))
    && (s.coordinator.Retrying? ==> 1 <= s.coordinator.attempts && s.coordinator.req.payload.epoch <= s.epoch)
  }

  lemma StepCommitEpochs(c: Config, s: State, e: Event)
    requires Shaped(c, s) && Enabled(c, s, e) && CommitEpochs(s)
    ensures CommitEpochs(Next(c, s, e))
  {
    match e
    case Coordinate(k) => CoordinateEpochs(s, k);
    case Poll(p) => assert NextPoll(c, s, p).broker == s.broker;
    case Work(i, w) => assert NextWork(c, s, i, w).broker == s.broker;
    case Rebalance(r) => assert NextRebalance(s, r).broker == s.broker;
    case Cancel =>
  }

  lemma CoordinateEpochs(s: State, e: CommitEvent)
    requires CommitEnabled(s, e) && CommitEpochs(s)
    ensures CommitEpochs(NextCommit(s, e))
  {
    if e.Collect? {
      var t := NextCommit(s, Collect);
      assert t.broker == s.broker && t.epoch == s.epoch && !t.coordinator.Retrying?;
    }
  }

  /** In every run a commit that lands on its first attempt lands under the assignment its message
      was polled under; a retried one lands there or later. */
  lemma {:induction false} CommitsLandFenced(c: Config, s: State, es: seq<Event>)
    requires Shaped(c, s) && Possible(c, s, es) && CommitEpochs(s)
    ensures CommitEpochs(After(c, s, es))
    decreases |es|
  {
    if es != [] {
      StepCommitEpochs(c, s, es[0]);
      CommitsLandFenced(c, Next(c, s, es[0]), es[1..]);
    }
  }

  // ---- nothing starts for a stale message ----

  /** Between s and t nothing was started for m: no listener run, no admission, no worker past the
      check of a commit request, no poll loop past that of an invalid message, no first commit attempt. */
  ghost predicate NothingStarted(s: State, t: State, m: Msg) {
    && s.epoch <= t.epoch && |s.workers| == |t.workers|
    && (forall i {:trigger t.workers[i]} :: 0 <= i < |t.workers| && t.workers[i].Requesting? &&
                                                                 t.workers[i].item.msg == m ==>
          s.workers[i] == t.workers[i])
    && t.log.Runs(m) == s.log.Runs(m)
    && (t.poll.Sending? && t.poll.msg == m ==> s.poll == t.poll)
    && (m in t.log.tried ==> m in s.log.tried)
    && s.gate.admitted <= t.gate.admitted
    && (forall i {:trigger t.gate.admitted[i]} :: |s.gate.admitted| <= i < |t.gate.admitted| ==>
          t.gate.admitted[i].msg != m)
    && s.broker <= t.broker
    && (forall i {:trigger t.broker[i]} :: |s.broker| <= i < |t.broker| && t.broker[i].msg == m ==>
          t.broker[i].attempt > 1)
  }

  lemma AdmittedAfter(g: Gate, step: GateStep)
    ensures GateAfter(g, step).admitted == if step.Admit? then g.admitted + [g.Next(step.m)] else g.admitted
  {
    if step.DoneAll? {
      DoneAllGate(g, step.items);
    }
  }

  lemma WorkFenced(c: Config, s: State, i: nat, e: WorkEvent, m: Msg)
    requires Shaped(c, s) && i < c.shards && WorkEnabled(c, s, i, e) && !s.Current(m)
    ensures NothingStarted(s, NextWork(c, s, i, e), m)
  {
    AdmittedAfter(s.gate, DecideWork(c, s, i, e).effect.gate);
  }

  lemma PollFenced(c: Config, s: State, e: PollEvent, m: Msg)
    requires Shaped(c, s) && PollEnabled(c, s, e) && m.epoch < s.epoch
    ensures NothingStarted(s, NextPoll(c, s, e), m)
  {
    AdmittedAfter(s.gate, DecidePoll(c, s, e).effect.gate);
  }

  lemma CommitFenced(s: State, e: CommitEvent, m: Msg)
    requires CommitEnabled(s, e) && !s.Current(m) && CommitEpochs(s)
    ensures NothingStarted(s, NextCommit(s, e), m)
  {
    var t := NextCommit(s, e);
    assert t.gate == s.gate && t.log.runs == s.log.runs && t.epoch == s.epoch;
    assert t.log.Runs(m) == s.log.Runs(m);
  }

  lemma RebalanceFenced(s: State, e: RebalanceEvent, m: Msg)
    ensures NothingStarted(s, NextRebalance(s, e), m)
  {
    if e.RevokedEvent? {
      DoneAllGate(s.gate, Dropped(s.backlog, s.Revoked(e.partitions)));
    }
  }

  lemma StepFenced(c: Config, s: State, e: Event, m: Msg)
    requires Shaped(c, s) && Enabled(c, s, e) && m.epoch < s.epoch && CommitEpochs(s)
    ensures NothingStarted(s, Next(c, s, e), m)
  {
    match e
    case Poll(p) => PollFenced(c, s, p, m);
    case Work(i, w) => WorkFenced(c, s, i, w, m);
    case Rebalance(r) => RebalanceFenced(s, r, m);
    case Coordinate(k) => CommitFenced(s, k, m);
    case Cancel =>
  }

  /** Once a rebalance has passed, nothing is ever started again for an earlier message, in any
      continuation: not from a queue, a backlog, a replay, nor out of a buffered commit state. */
  lemma {:induction false} StaleNeverStarts(c: Config, s: State, es: seq<Event>, m: Msg)
    requires Shaped(c, s) && Possible(c, s, es) && m.epoch < s.epoch && CommitEpochs(s)
    ensures NothingStarted(s, After(c, s, es), m)
    decreases |es|
  {
    if es != [] {
      var t := Next(c, s, es[0]);
      StepFenced(c, s, es[0], m);
      StepCommitEpochs(c, s, es[0]);
      StaleNeverStarts(c, t, es[1..], m);
    }
  }

  /** Copies of m in its shard's channel, or past the last check before it. */
  function Queued(c: Config, s: State, m: Msg): nat
    requires Shaped(c, s)
  {
    CopiesIn(s.channels[c.Shard(m)], m) + PastRecheck(s.workers[c.Shard(m)], m)
  }

  function PastRecheck(w: Worker, m: Msg): nat {
    if w.Resending? && w.again.msg == m then 1 else 0
  }

  lemma PollNotQueued(c: Config, s: State, e: PollEvent, m: Msg)
    requires Shaped(c, s) && Located(c, s) && PollEnabled(c, s, e) && !s.Current(m)
    ensures Queued(c, NextPoll(c, s, e), m) <= Queued(c, s, m)
  {
    QueueCopies(c, s, DecidePoll(c, s, e).effect, m);
  }

  lemma WorkerSends(c: Config, s: State, i: nat, e: WorkEvent, m: Msg)
    requires Shaped(c, s) && i < c.shards && WorkEnabled(c, s, i, e) && WorkerAt(c, s.workers[i], i) && !s.Current(m)
    ensures PastRecheck(DecideWork(c, s, i, e).worker, m) +
            QueueChange(s, DecideWork(c, s, i, e).effect.queue, m) <= PastRecheck(s.workers[i], m)
    ensures i != c.Shard(m) ==> PastRecheck(s.workers[i], m) == 0
  {
  }

  lemma WorkNotQueued(c: Config, s: State, i: nat, e: WorkEvent, m: Msg)
    requires Shaped(c, s) && Located(c, s) && i < c.shards && WorkEnabled(c, s, i, e) && !s.Current(m)
    ensures Queued(c, NextWork(c, s, i, e), m) <= Queued(c, s, m)
  {
    var d := DecideWork(c, s, i, e);
    assert WorkerAt(c, s.workers[i], i);
    WorkerSends(c, s, i, e, m);
    QueueCopies(c, s, d.effect, m);
    assert NextWork(c, s, i, e).workers == s.workers[i := d.worker];
    assert NextWork(c, s, i, e).channels == Apply(c, s, d.effect).channels;
  }

  lemma StepNotQueued(c: Config, s: State, e: Event, m: Msg)
    requires Shaped(c, s) && Located(c, s) && Enabled(c, s, e) && !s.Current(m)
    ensures Queued(c, Next(c, s, e), m) <= Queued(c, s, m)
  {
    match e
    case Poll(p) => PollNotQueued(c, s, p, m);
    case Work(i, w) => WorkNotQueued(c, s, i, w, m);
    case _ =>
  }

  /** Nor is an earlier message dispatched: after a rebalance no check lets it into a channel. */
  lemma {:induction false} StaleNeverQueued(c: Config, s: State, es: seq<Event>, m: Msg)
    requires Shaped(c, s) && Located(c, s) && Possible(c, s, es) && m.epoch < s.epoch
    ensures Queued(c, After(c, s, es), m) <= Queued(c, s, m)
    decreases |es|
  {
    if es != [] {
      StepNotQueued(c, s, es[0], m);
      LocatedStep(c, s, es[0]);
      StaleNeverQueued(c, Next(c, s, es[0]), es[1..], m);
    }
  }

  // ---- nor does a stale request enter a commit state ----

  predicate InState(states: States<Msg>, key: TopicPartition, offset: int, m: Msg) {
    key in states && offset in states[key].ready && states[key].ready[offset].payload == m
  }

  ghost predicate NothingBuffered(s: State, t: State, m: Msg) {
    forall key, offset :: InState(t.states, key, offset, m) ==> InState(s.states, key, offset, m)
  }

  /** A drain only removes. */
  lemma {:induction false} DrainRemoves(st: CommitState<Msg>, o: int)
    ensures o in Drain(st).1.ready ==> o in st.ready && Drain(st).1.ready[o] == st.ready[o]
    decreases |st.ready|
  {
    if st.nextOffset in st.ready {
      var rest := st.ready - {st.nextOffset};
      assert rest.Keys == st.ready.Keys - {st.nextOffset};
      assert |rest.Keys| < |st.ready.Keys|;
      DrainRemoves(CommitState(st.nextOffset + 1, rest), o);
    }
  }

  lemma CollectNotBuffered(s: State, m: Msg)
    requires CommitEnabled(s, Collect) && !s.Current(m)
    ensures NothingBuffered(s, NextCommit(s, Collect), m)
  {
    var first := s.commits[0];
    if s.Current(first) {
      var full := Insert(StateFor(s.states, first.key, first.offset), Request(first.offset, first));
      forall key, offset | InState(NextCommit(s, Collect).states, key, offset, m)
        ensures InState(s.states, key, offset, m)
      {
        DrainRemoves(full, offset);
      }
    }
  }

  lemma StepNotBuffered(c: Config, s: State, e: Event, m: Msg)
    requires Shaped(c, s) && Enabled(c, s, e) && m.epoch < s.epoch
    ensures NothingBuffered(s, Next(c, s, e), m) && s.epoch <= Next(c, s, e).epoch
  {
    match e
    case Coordinate(k) =>
      if k.Collect? {
        CollectNotBuffered(s, m);
      } else {
        assert NextCommit(s, k).states == s.states && NextCommit(s, k).epoch == s.epoch;
      }
    case Work(i, w) => assert NextWork(c, s, i, w).states == s.states && NextWork(c, s, i, w).epoch == s.epoch;
    case Poll(p) => assert NextPoll(c, s, p).epoch == s.epoch;
    case Rebalance(_) =>
    case Cancel =>
  }

  /** After a rebalance no request of an earlier message enters a commit state. */
  lemma {:induction false} StaleNeverBuffered(c: Config, s: State, es: seq<Event>, m: Msg)
    requires Shaped(c, s) && Possible(c, s, es) && m.epoch < s.epoch
    ensures NothingBuffered(s, After(c, s, es), m)
    decreases |es|
  {
    if es != [] {
      var t := Next(c, s, es[0]);
      StepNotBuffered(c, s, es[0], m);
      StaleNeverBuffered(c, t, es[1..], m);
      assert After(c, s, es) == After(c, t, es[1..]);
    }
  }

  // ---- a retried commit is not fenced ----

  lemma {:induction false} Concatenate(c: Config, s: State, a: seq<Event>, b: seq<Event>)
    requires Shaped(c, s) && Possible(c, s, a) && Possible(c, After(c, s, a), b)
    ensures Possible(c, s, a + b) && After(c, s, a + b) == After(c, After(c, s, a), b)
    decreases |a|
  {
    if a == [] {
      assert a + b == b;
    } else {
      assert (a + b)[0] == a[0] && (a + b)[1..] == a[1..] + b;
      Concatenate(c, Next(c, s, a[0]), a[1..], b);
    }
  }

  lemma TwoSteps(c: Config, s: State, e: Event, f: Event)
    requires Shaped(c, s) && Enabled(c, s, e) && Enabled(c, Next(c, s, e), f)
    ensures Possible(c, s, [e, f]) && After(c, s, [e, f]) == Next(c, Next(c, s, e), f)
  {
    var t := Next(c, s, e);
    assert [e, f][1..] == [f] && [f][1..] == [];
    assert Possible(c, Next(c, t, f), []) && After(c, Next(c, t, f), []) == Next(c, t, f);
    assert Possible(c, t, [f]) && After(c, t, [f]) == Next(c, t, f);
  }

  lemma AssignThenReport(c: Config, key: TopicPartition, offset: int)
    requires c.Valid()
    ensures var (a, b) := ([Rebalance(AssignedCallback([key])), Poll(InvalidMessage(key, offset, true))],
                           [Poll(CheckReport), Poll(SendReport)]);
            && Possible(c, Init(c), a) && Possible(c, After(c, Init(c), a), b)
            && var s := After(c, After(c, Init(c), a), b);
            && s.epoch == 1 && s.owned == {key} && s.commits == [Msg(key, offset, 1)] && s.states == map[]
            && s.coordinator == Receiving && s.broker == [] && !s.cancelled
  {
    var s := Init(c);
    var t := Next(c, s, Rebalance(AssignedCallback([key])));
    TwoSteps(c, s, Rebalance(AssignedCallback([key])), Poll(InvalidMessage(key, offset, true)));
    var u := Next(c, t, Poll(InvalidMessage(key, offset, true)));
    TwoSteps(c, u, Poll(CheckReport), Poll(SendReport));
  }

  lemma FirstAttemptFails(c: Config, s: State, m: Msg)
    requires Shaped(c, s) && s.Current(m) && s.commits == [m] && s.states == map[] && s.coordinator == Receiving
    requires !s.cancelled
    ensures var es := [Coordinate(Collect), Coordinate(Commit(false, false))];
            && Possible(c, s, es)
            && After(c, s, es).coordinator == Retrying(Request(m.offset, m), 1, [])
            && After(c, s, es).broker == s.broker && After(c, s, es).epoch == s.epoch
  {
    var req := Request(m.offset, m);
    DrainMeaning(Insert(Fresh<Msg>(m.offset), req));
    var (out, end) := Drain(Insert(Fresh<Msg>(m.offset), req));
    assert m.offset in Insert(Fresh<Msg>(m.offset), req).ready;
    assert |out| == 1 && out == [req];
    TwoSteps(c, s, Coordinate(Collect), Coordinate(Commit(false, false)));
  }

  /** The retry loop does not check the assignment again: whatever is being retried when the
      partitions are revoked still lands, one epoch late. */
  lemma RetryLandsAfterRevoke(c: Config, s: State, partitions: seq<TopicPartition>)
    requires Shaped(c, s) && s.coordinator.Retrying? && s.coordinator.attempts < MAX_COMMIT_ATTEMPTS
    ensures var es := [Rebalance(RevokedCallback(partitions)), Coordinate(Retry(true, true))];
            && Possible(c, s, es)
            && After(c, s, es).broker == s.broker +
               [BrokerCommit(s.coordinator.req.payload, s.coordinator.attempts + 1, s.epoch + 1)]
  {
    TwoSteps(c, s, Rebalance(RevokedCallback(partitions)), Coordinate(Retry(true, true)));
  }

  /** A commit of m failed and will be tried again. */
  predicate RetryPending(s: State, m: Msg) {
    s.coordinator.Retrying? && s.coordinator.req.payload == m && s.coordinator.attempts < MAX_COMMIT_ATTEMPTS
  }

  /** A commit of m reached the broker between s and t. */
  ghost predicate Lands(s: State, t: State, m: Msg) {
    exists i :: |s.broker| <= i < |t.broker| && t.broker[i].msg == m
  }

  lemma StepNotLands(c: Config, s: State, e: Event, m: Msg)
    requires Shaped(c, s) && Enabled(c, s, e) && m.epoch < s.epoch && !RetryPending(s, m)
    ensures var t := Next(c, s, e);
            m.epoch < t.epoch && !RetryPending(t, m) && s.broker <= t.broker && !Lands(s, t, m)
  {
    match e
    case Poll(p) => assert NextPoll(c, s, p).broker == s.broker && NextPoll(c, s, p).coordinator == s.coordinator;
    case Work(i, w) => assert NextWork(c, s, i, w).broker == s.broker &&
    NextWork(c, s, i, w).coordinator == s.coordinator;
    case Rebalance(r) => assert NextRebalance(s, r).broker == s.broker &&
    NextRebalance(s, r).coordinator == s.coordinator;
    case Coordinate(k) => CoordinateNotLands(s, k, m);
    case Cancel =>
  }

  lemma CoordinateNotLands(s: State, e: CommitEvent, m: Msg)
    requires CommitEnabled(s, e) && !s.Current(m) && !RetryPending(s, m)
    ensures !RetryPending(NextCommit(s, e), m) && s.broker <= NextCommit(s, e).broker && !Lands(s, NextCommit(s, e), m)
    ensures NextCommit(s, e).epoch == s.epoch
  {
    if e.Collect? {
      assert NextCommit(s, e).broker == s.broker && !NextCommit(s, e).coordinator.Retrying?;
    }
  }

  lemma {:induction false} NeverLands(c: Config, s: State, es: seq<Event>, m: Msg)
    requires Shaped(c, s) && Possible(c, s, es) && m.epoch < s.epoch && !RetryPending(s, m)
    ensures s.broker <= After(c, s, es).broker && !Lands(s, After(c, s, es), m)
    decreases |es|
  {
    if es != [] {
      var t := Next(c, s, es[0]);
      var u := After(c, t, es[1..]);
      StepNotLands(c, s, es[0], m);
      NeverLands(c, t, es[1..], m);
      assert After(c, s, es) == u;
      forall i | |s.broker| <= i < |u.broker|
        ensures u.broker[i].msg != m
      {
        assert i < |t.broker| ==> u.broker[i] == t.broker[i];
      }
    }
  }

  ghost predicate LandsIn(c: Config, s: State, es: seq<Event>, m: Msg)
    requires Shaped(c, s)
  {
    Possible(c, s, es) && Lands(s, After(c, s, es), m)
  }

  lemma RetryLands(c: Config, s: State, m: Msg)
    requires Shaped(c, s) && RetryPending(s, m)
    ensures LandsIn(c, s, [Coordinate(Retry(true, true))], m)
  {
    var es := [Coordinate(Retry(true, true))];
    var t := Next(c, s, es[0]);
    assert es[1..] == [] && Possible(c, t, []);
    assert Possible(c, s, es) && After(c, s, es) == t;
    assert t.broker[|s.broker|].msg == m;
  }

  /** Exactly which messages polled before a rebalance can still be committed after it: the one whose
      commit is being retried, and no other, in any continuation. */
  lemma LandsAgainIff(c: Config, s: State, m: Msg)
    requires Shaped(c, s) && m.epoch < s.epoch
    ensures (exists es :: LandsIn(c, s, es, m)) <==> RetryPending(s, m)
  {
    if RetryPending(s, m) {
      RetryLands(c, s, m);
    } else {
      forall es
        ensures !LandsIn(c, s, es, m)
      {
        if Possible(c, s, es) {
          NeverLands(c, s, es, m);
        }
      }
    }
  }

  /** A state with a retry pending is reachable. */
  lemma RetryingReachable(c: Config, key: TopicPartition, offset: int) returns (es: seq<Event>)
    requires c.Valid()
    ensures Possible(c, Init(c), es)
    ensures var s := After(c, Init(c), es);
            s.coordinator == Retrying(Request(offset, Msg(key, offset, 1)), 1, []) && s.broker == [] && s.epoch == 1
  {
    var a, b := [Rebalance(AssignedCallback([key])), Poll(InvalidMessage(key, offset, true))],
    [Poll(CheckReport), Poll(SendReport)];
    var d := [Coordinate(Collect), Coordinate(Commit(false, false))];
    AssignThenReport(c, key, offset);
    Concatenate(c, Init(c), a, b);
    FirstAttemptFails(c, After(c, Init(c), a + b), Msg(key, offset, 1));
    Concatenate(c, Init(c), a + b, d);
    es := a + b + d;
  }

  /** So some run commits an offset after its partition was revoked. */
  lemma CommitAfterRevokeReachable(c: Config, key: TopicPartition, offset: int) returns (es: seq<Event>)
    requires c.Valid()
    ensures Possible(c, Init(c), es)
    ensures After(c, Init(c), es).broker == [BrokerCommit(Msg(key, offset, 1), 2, 2)]
  {
    var before := RetryingReachable(c, key, offset);
    var e := [Rebalance(RevokedCallback([])), Coordinate(Retry(true, true))];
    RetryLandsAfterRevoke(c, After(c, Init(c), before), []);
    Concatenate(c, Init(c), before, e);
    es := before + e;
  }
}
