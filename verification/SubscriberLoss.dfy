/** No message is lost silently in subscriber.go: while its assignment lasts and nothing is shut
    down, a polled message is in flight, on its way to a commit, or refused by the dead-letter
    queue. */
module SubscriberLoss {
  import opened Assignment
  import opened CommitBuffer
  import opened Subscriber
  import opened SubscriberCopies
  import opened SubscriberCommits

  predicate Buffered(states: States<Msg>, m: Msg) {
    m.key in states && m.offset in states[m.key].ready && states[m.key].ready[m.offset].payload == m
  }

  ghost predicate Lists(out: seq<Request<Msg>>, m: Msg) {
    exists i {:trigger out[i]} :: 0 <= i < |out| && out[i].payload == m
  }

  ghost predicate Emits(k: Coordinator, m: Msg) {
    match k
    case Receiving => false
    case Emitting(pending) => Lists(pending, m)
    case Retrying(_, _, rest) => Lists(rest, m)
  }

  /** Requested for commit, buffered behind a gap, handed over for commit, or tried. */
  ghost predicate OnCommitPath(s: State, m: Msg) {
    m in s.commits || Buffered(s.states, m) || Emits(s.coordinator, m) || m in s.log.tried
  }

  ghost predicate AccountedFor(c: Config, s: State, m: Msg)
    requires Shaped(c, s)
  {
    Copies(c, s, m) == 1 || s.poll == Reporting(m) || s.poll == Sending(m) || OnCommitPath(s, m) || m in s.log.refused
  }

  ghost predicate Safe(c: Config, s: State, m: Msg)
    requires Shaped(c, s)
  {
    m in s.log.polled && s.Current(m) && !s.cancelled && !s.gate.closed ==> AccountedFor(c, s, m)
  }

  /** Queues are purged only when all they can hold is stale, and released only after closing. */
  ghost predicate Phased(s: State) {
    && (s.poll.Purging? ==> forall m {:trigger m in s.log.polled} :: m in s.log.polled ==> m.epoch < s.epoch)
    && (s.poll.Releasing? || s.poll.Waiting? || s.poll.Closed? ==> s.gate.closed)
  }

  ghost predicate NothingLost(c: Config, s: State) {
    && Tracked(c, s) && AllJustified(c, s) && Phased(s)
    && forall m {:trigger Safe(c, s, m)} :: Safe(c, s, m)
  }

  lemma InitNothingLost(c: Config)
    requires c.Valid()
    ensures NothingLost(c, Init(c))
  {
  }

  // ---- workers ----

  /** A worker lets go of a message of the current assignment only once its fate is recorded. */
  lemma DropIsRecorded(c: Config, s: State, i: nat, e: WorkEvent)
    requires Shaped(c, s) && i < c.shards && WorkEnabled(c, s, i, e) && Drops(DecideWork(c, s, i, e))
    requires !s.workers[i].Finishing? && WorkerAt(c, s.workers[i], i)
    ensures var (m, note) := (s.workers[i].item.msg, DecideWork(c, s, i, e).effect.note);
            !s.Current(m) || s.cancelled || s.gate.closed || note == Refused(m) || note == Requested(m)
  {
  }

  /** What a worker does not touch, and what it may only add to. */
  lemma WorkAside(c: Config, s: State, i: nat, e: WorkEvent)
    requires Shaped(c, s) && i < c.shards && WorkEnabled(c, s, i, e)
    ensures var t := NextWork(c, s, i, e);
            && t.epoch == s.epoch && t.owned == s.owned && t.cancelled == s.cancelled && t.poll == s.poll
            && t.gate.closed == s.gate.closed
            && t.coordinator == s.coordinator && t.log.polled == s.log.polled && t.log.tried == s.log.tried
  {
    GateClosed(s.gate, DecideWork(c, s, i, e).effect.gate);
  }

  lemma WorkRecords(c: Config, s: State, i: nat, e: WorkEvent)
    requires Shaped(c, s) && i < c.shards && WorkEnabled(c, s, i, e)
    ensures var (t, note) := (NextWork(c, s, i, e), DecideWork(c, s, i, e).effect.note);
            && t.states == s.states && s.commits <= t.commits && s.log.refused <= t.log.refused
            && (note.Refused? ==> note.m in t.log.refused) && (note.Requested? ==> note.m in t.commits)
  {
  }

  lemma WorkSafe(c: Config, s: State, i: nat, e: WorkEvent, m: Msg)
    requires NothingLost(c, s) && i < c.shards && WorkEnabled(c, s, i, e)
    ensures Safe(c, NextWork(c, s, i, e), m)
  {
    var d := DecideWork(c, s, i, e);
    assert WorkerAt(c, s.workers[i], i);
    assert Safe(c, s, m);
    WorkKeeps(c, s, i, e, m);
    WorkAside(c, s, i, e);
    WorkRecords(c, s, i, e);
    if Carries(s.workers[i], m) == 1 && Drops(d) {
      DropIsRecorded(c, s, i, e);
    }
  }

  lemma GateClosed(g: Gate, step: GateStep)
    ensures GateAfter(g, step).closed == (g.closed || step.CloseAdmission?)
  {
    if step.DoneAll? {
      DoneAllGate(g, step.items);
    }
  }

  // ---- the poll loop ----

  /** The poll loop keeps the copies of the current assignment and takes one of what it polls. */
  lemma PollerConserves(c: Config, s: State, e: PollEvent, m: Msg)
    requires Shaped(c, s) && PollEnabled(c, s, e) && s.Current(m) && !e.Purge? && !e.ReleaseBacklog?
    ensures var d := DecidePoll(c, s, e);
            PollCarries(d.poll, d.backlog, m) + QueueChange(s, d.effect.queue, m)
            == PollCarries(s.poll, s.backlog, m) + if d.effect.note == Registering(m) then 1 else 0
  {
    if e.DrainBacklog? {
      CountPop(s.backlog, m);
    }
  }

  lemma BufferedRegistered(states: States<Msg>, key: TopicPartition, offset: int, m: Msg)
    requires Buffered(states, m)
    ensures Buffered(Registered(states, key, offset), m)
  {
  }

  lemma PollPhased(c: Config, s: State, e: PollEvent)
    requires NothingLost(c, s) && PollEnabled(c, s, e)
    ensures Phased(NextPoll(c, s, e))
  {
    GateClosed(s.gate, DecidePoll(c, s, e).effect.gate);
  }

  lemma PollSafe(c: Config, s: State, e: PollEvent, m: Msg)
    requires NothingLost(c, s) && PollEnabled(c, s, e)
    ensures Safe(c, NextPoll(c, s, e), m)
  {
    var t := NextPoll(c, s, e);
    var d := DecidePoll(c, s, e);
    assert Safe(c, s, m);
    GateClosed(s.gate, d.effect.gate);
    if s.Current(m) && !e.Purge? && !e.ReleaseBacklog? && !t.gate.closed && !t.cancelled && m in t.log.polled {
      PollCopies(c, s, e, m);
      PollerConserves(c, s, e, m);
      if d.effect.note.Registering? && Buffered(s.states, m) {
        BufferedRegistered(s.states, d.effect.note.m.key, d.effect.note.m.offset, m);
      }
      PollCase(c, s, e, m);
    }
  }

  lemma PollCase(c: Config, s: State, e: PollEvent, m: Msg)
    requires Shaped(c, s) && PollEnabled(c, s, e) && s.Current(m) && !e.Purge? && !e.ReleaseBacklog?
    requires var t := NextPoll(c, s, e); !t.gate.closed && m in t.log.polled
    requires Phased(s)
    requires m in s.log.polled ==> AccountedFor(c, s, m)
    requires Buffered(s.states, m) ==> Buffered(NextPoll(c, s, e).states, m)
    requires Copies(c, NextPoll(c, s, e), m) == Copies(c, s, m) + if DecidePoll(c, s, e).effect.note ==
                                                                     Registering(m) then 1 else 0
    requires m !in s.log.polled ==> Copies(c, s, m) == 0
    ensures AccountedFor(c, NextPoll(c, s, e), m)
  {
    var t := NextPoll(c, s, e);
    assert t.coordinator == s.coordinator && t.log.tried == s.log.tried;
    assert s.poll == Reporting(m) ==> e.CheckReport?;
    assert s.poll == Sending(m) ==> e.SendReport?;
  }

  // ---- the coordinator ----

  /** A drain loses nothing: what was buffered is emitted or still buffered. */
  lemma DrainKeeps(st: CommitState<Msg>, o: int)
    requires Keyed(st) && o in st.ready
    ensures var (out, end) := Drain(st);
            Lists(out, st.ready[o].payload) || (o in end.ready && end.ready[o] == st.ready[o])
  {
    DrainMeaning(st);
    var (out, end) := Drain(st);
    if o !in end.ready {
      assert out[o - st.nextOffset] == st.ready[o];
    }
  }

  lemma CollectSafe(c: Config, s: State, m: Msg)
    requires NothingLost(c, s) && CommitEnabled(s, Collect) && s.Current(m) && OnCommitPath(s, m)
    ensures OnCommitPath(NextCommit(s, Collect), m)
  {
    var t := NextCommit(s, Collect);
    var first := s.commits[0];
    if m in s.commits && m != first {
      assert m in t.commits;
    } else if s.Current(first) && (m == first || (Buffered(s.states, m) && m.key == first.key)) {
      var start := StateFor(s.states, m.key, first.offset);
      assert BufferJustified(s.log, m.key, start);
      var full := Insert(start, Request(first.offset, first));
      assert m.offset in full.ready && full.ready[m.offset].payload == m;
      DrainKeeps(full, m.offset);
    }
  }

  lemma EmitSafe(s: State, e: CommitEvent, m: Msg)
    requires CommitEnabled(s, e) && !e.Collect? && s.Current(m) && OnCommitPath(s, m)
    ensures OnCommitPath(NextCommit(s, e), m)
  {
    var t := NextCommit(s, e);
    assert t.commits == s.commits && t.states == s.states && s.log.tried <= t.log.tried;
    if e.Commit? && Emits(s.coordinator, m) {
      var pending := s.coordinator.pending;
      var i :| 0 <= i < |pending| && pending[i].payload == m;
      if i > 0 {
        assert pending[1..][i - 1].payload == m;
        assert Lists(pending[1..], m);
      }
    }
  }

  lemma CommitSafe(c: Config, s: State, e: CommitEvent, m: Msg)
    requires NothingLost(c, s) && CommitEnabled(s, e)
    ensures Safe(c, NextCommit(s, e), m)
  {
    CommitTracked(c, s, e);
    CommitAside(s, e);
    assert Safe(c, s, m);
    if s.Current(m) && OnCommitPath(s, m) {
      if e.Collect? {
        CollectSafe(c, s, m);
      } else {
        EmitSafe(s, e, m);
      }
    }
  }

  /** What the coordinator does not touch. */
  lemma CommitAside(s: State, e: CommitEvent)
    requires CommitEnabled(s, e)
    ensures var t := NextCommit(s, e);
            && t.epoch == s.epoch && t.owned == s.owned && t.cancelled == s.cancelled && t.gate == s.gate
            && t.poll == s.poll
            && t.log.polled == s.log.polled && t.log.refused == s.log.refused
  {
  }

  // ---- every run ----

  lemma RebalanceSafe(c: Config, s: State, e: RebalanceEvent)
    requires NothingLost(c, s) && (e.RevokedEvent? ==> s.poll.Polling?)
    ensures NothingLost(c, NextRebalance(s, e))
  {
    var t := NextRebalance(s, e);
    StepTracked(c, s, Rebalance(e));
    StepJustified(c, s, Rebalance(e));
    assert t.epoch == s.epoch + 1 && t.log == s.log;
    forall m
      ensures Safe(c, t, m)
    {
      assert m in s.log.polled ==> m.epoch <= s.epoch;
    }
    if e.RevokedEvent? {
      DoneAllGate(s.gate, Dropped(s.backlog, s.Revoked(e.partitions)));
    }
  }

  lemma PollKeepsAll(c: Config, s: State, e: PollEvent)
    requires NothingLost(c, s) && PollEnabled(c, s, e)
    ensures NothingLost(c, NextPoll(c, s, e))
  {
    StepTracked(c, s, Poll(e));
    PollJustifies(c, s, e);
    PollPhased(c, s, e);
    forall m
      ensures Safe(c, NextPoll(c, s, e), m)
    {
      PollSafe(c, s, e, m);
    }
  }

  lemma WorkKeepsAll(c: Config, s: State, i: nat, e: WorkEvent)
    requires NothingLost(c, s) && i < c.shards && WorkEnabled(c, s, i, e)
    ensures NothingLost(c, NextWork(c, s, i, e))
  {
    StepTracked(c, s, Work(i, e));
    WorkJustified(c, s, i, e);
    GateClosed(s.gate, DecideWork(c, s, i, e).effect.gate);
    forall m
      ensures Safe(c, NextWork(c, s, i, e), m)
    {
      WorkSafe(c, s, i, e, m);
    }
  }

  lemma CommitKeepsAll(c: Config, s: State, e: CommitEvent)
    requires NothingLost(c, s) && CommitEnabled(s, e)
    ensures NothingLost(c, NextCommit(s, e))
  {
    CommitTracked(c, s, e);
    CommitJustified(c, s, e);
    CommitAside(s, e);
    forall m
      ensures Safe(c, NextCommit(s, e), m)
    {
      CommitSafe(c, s, e, m);
    }
  }

  lemma StepNothingLost(c: Config, s: State, e: Event)
    requires NothingLost(c, s) && Enabled(c, s, e)
    ensures NothingLost(c, Next(c, s, e))
  {
    match e
    case Rebalance(r) => RebalanceSafe(c, s, r);
    case Poll(p) => PollKeepsAll(c, s, p);
    case Work(i, w) => WorkKeepsAll(c, s, i, w);
    case Coordinate(k) => CommitKeepsAll(c, s, k);
    case Cancel =>
      StepTracked(c, s, Cancel);
      StepJustified(c, s, Cancel);
  }

  lemma {:induction false} RunNothingLost(c: Config, s: State, es: seq<Event>)
    requires NothingLost(c, s) && Possible(c, s, es)
    ensures NothingLost(c, After(c, s, es))
    decreases |es|
  {
    if es != [] {
      StepNothingLost(c, s, es[0]);
      RunNothingLost(c, Next(c, s, es[0]), es[1..]);
    }
  }
}
