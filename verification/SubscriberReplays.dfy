/** The replay bound of subscriber.go: the replay map covers the runs of every message that may
    still run, so a listener sees each polled message at most MaxReplayAttempts + 1 times. */
module SubscriberReplays {
  import opened Assignment
  import opened CommitBuffer
  import opened Subscriber
  import opened SubscriberCopies

  /** The worker has passed the assignment check and may still change the replay map. */
  predicate Past(w: Worker) {
    w.Running? || w.Replaying? || w.Committing? || w.Requesting?
  }

  /** A run that the replay map does not count yet. */
  function Uncounted(c: Config, s: State, m: Msg): nat
    requires Shaped(c, s)
  {
    var w := s.workers[c.Shard(m)];
    if Past(w) && w.item.msg == m then 1 else 0
  }

  ghost predicate Capped(s: State) {
    && (forall k {:trigger s.replays[k]} :: k in s.replays ==> s.replays[k] <= MAX_REPLAY_ATTEMPTS)
    && (forall m {:trigger s.log.Runs(m)} :: s.log.Runs(m) <= MAX_REPLAY_ATTEMPTS + 1)
  }

  ghost predicate Covers(c: Config, s: State, m: Msg)
    requires Shaped(c, s)
  {
    m.epoch == s.epoch && Copies(c, s, m) == 1 ==> s.log.Runs(m) <= s.Attempts(m) + Uncounted(c, s, m)
  }

  /** While a worker may still forget its replay key, no newer copy of the same offset has run. */
  ghost predicate Newer(s: State, w: Worker, m: Msg) {
    Past(w) && m.ReplayKey() == w.item.msg.ReplayKey() && m.epoch > w.item.msg.epoch ==> s.log.Runs(m) == 0
  }

  ghost predicate Bounded(c: Config, s: State) {
    && Tracked(c, s) && Capped(s)
    && (forall m {:trigger Covers(c, s, m)} :: Covers(c, s, m))
    && (forall i: nat, m {:trigger Newer(s, s.workers[i], m)} :: i < c.shards ==> Newer(s, s.workers[i], m))
  }

  lemma InitBounded(c: Config)
    requires c.Valid()
    ensures Bounded(c, Init(c))
  {
  }

  lemma AttemptsCapped(s: State, m: Msg)
    requires Capped(s)
    ensures s.Attempts(m) <= MAX_REPLAY_ATTEMPTS
  {
  }

  lemma ApplyRuns(c: Config, s: State, eff: Effect, m: Msg)
    requires Shaped(c, s) && Poppable(s, eff.queue)
    ensures Apply(c, s, eff).log.Runs(m) == s.log.Runs(m) + if eff.note == Ran(m) then 1 else 0
  {
  }

  lemma WorkCapped(c: Config, s: State, i: nat, e: WorkEvent)
    requires Bounded(c, s) && i < c.shards && WorkEnabled(c, s, i, e)
    ensures Capped(NextWork(c, s, i, e))
  {
    var t := NextWork(c, s, i, e);
    var d := DecideWork(c, s, i, e);
    forall m
      ensures t.log.Runs(m) <= MAX_REPLAY_ATTEMPTS + 1
    {
      ApplyRuns(c, s, d.effect, m);
      if d.effect.note == Ran(m) {
        assert WorkerAt(c, s.workers[i], i);
        assert Copies(c, s, m) <= 1 && Covers(c, s, m);
        AttemptsCapped(s, m);
      }
    }
    assert t.replays == ReplaysAfter(s, d.effect.replay);
  }

  /** A message that keeps its one copy stays covered: a run not yet counted is counted before the
      worker lets go of the message. */
  lemma CountCovers(c: Config, s: State, i: nat, e: WorkEvent, m: Msg)
    requires Shaped(c, s) && i < c.shards && WorkEnabled(c, s, i, e) && WorkerAt(c, s.workers[i], i)
    requires m.epoch == s.epoch && Copies(c, s, m) == 1 && Covers(c, s, m)
    requires Carries(s.workers[i], m) == 1 ==> !Drops(DecideWork(c, s, i, e))
    requires !DecideWork(c, s, i, e).effect.replay.Forget?
    ensures var t := NextWork(c, s, i, e); t.log.Runs(m) <= t.Attempts(m) + Uncounted(c, t, m)
  {
    ApplyRuns(c, s, DecideWork(c, s, i, e).effect, m);
  }

  /** Forgetting a replay key concerns no other message that may still run and has run. */
  lemma ForgetCovers(c: Config, s: State, i: nat, e: WorkEvent, m: Msg)
    requires Shaped(c, s) && i < c.shards && WorkEnabled(c, s, i, e) && WorkerAt(c, s.workers[i], i)
    requires m.epoch == s.epoch && Copies(c, s, m) == 1 && Covers(c, s, m)
    requires Carries(s.workers[i], m) == 1 ==> !Drops(DecideWork(c, s, i, e))
    requires DecideWork(c, s, i, e).effect.replay.Forget?
    requires Newer(s, s.workers[i], m) && s.workers[i].item.msg.epoch <= s.epoch
    ensures var t := NextWork(c, s, i, e); t.log.Runs(m) <= t.Attempts(m) + Uncounted(c, t, m)
  {
    ApplyRuns(c, s, DecideWork(c, s, i, e).effect, m);
  }

  lemma WorkCovers(c: Config, s: State, i: nat, e: WorkEvent, m: Msg)
    requires Bounded(c, s) && i < c.shards && WorkEnabled(c, s, i, e)
    ensures Covers(c, NextWork(c, s, i, e), m)
  {
    var w := s.workers[i];
    assert WorkerAt(c, w, i);
    WorkKeeps(c, s, i, e, m);
    if m.epoch == s.epoch && Copies(c, NextWork(c, s, i, e), m) == 1 {
      assert Covers(c, s, m) && Copies(c, s, m) <= 1;
      if DecideWork(c, s, i, e).effect.replay.Forget? {
        assert Newer(s, w, m);
        assert Copies(c, s, w.item.msg) == 1;
        ForgetCovers(c, s, i, e, m);
      } else {
        CountCovers(c, s, i, e, m);
      }
    }
  }

  lemma WorkNewer(c: Config, s: State, i: nat, e: WorkEvent, j: nat, m: Msg)
    requires Bounded(c, s) && i < c.shards && WorkEnabled(c, s, i, e) && j < c.shards
    ensures Newer(NextWork(c, s, i, e), NextWork(c, s, i, e).workers[j], m)
  {
    var t := NextWork(c, s, i, e);
    assert Newer(s, s.workers[j], m);
    assert WorkerAt(c, s.workers[i], i) && WorkerAt(c, s.workers[j], j);
    assert m.epoch > s.epoch ==> m !in s.log.polled;
    assert s.log.Runs(m) > 0 ==> m in s.log.polled;
  }

  lemma WorkBounded(c: Config, s: State, i: nat, e: WorkEvent)
    requires Bounded(c, s) && i < c.shards && WorkEnabled(c, s, i, e)
    ensures Bounded(c, NextWork(c, s, i, e))
  {
    var t := NextWork(c, s, i, e);
    StepTracked(c, s, Work(i, e));
    WorkCapped(c, s, i, e);
    forall m
      ensures Covers(c, t, m)
    {
      WorkCovers(c, s, i, e, m);
    }
    forall j: nat, m | j < c.shards
      ensures Newer(t, t.workers[j], m)
    {
      WorkNewer(c, s, i, e, j, m);
    }
  }

  /** Steps of the poll loop, the coordinator and a rebalance run nothing and count nothing. */
  ghost predicate Idles(c: Config, s: State, t: State) {
    && Shaped(c, s) && Shaped(c, t) && s.epoch <= t.epoch
    && t.replays == s.replays && t.workers == s.workers && t.log.runs == s.log.runs
  }

  lemma IdleBounded(c: Config, s: State, t: State)
    requires Bounded(c, s) && Idles(c, s, t) && Tracked(c, t)
    requires forall m :: Copies(c, t, m) <= Copies(c, s, m) || m !in s.log.polled
    ensures Bounded(c, t)
  {
    forall m
      ensures t.log.Runs(m) == s.log.Runs(m)
    {
    }
    forall m
      ensures Covers(c, t, m)
    {
      assert Covers(c, s, m) && Copies(c, s, m) <= 1;
      assert s.log.Runs(m) > 0 ==> m in s.log.polled;
    }
    forall j: nat, m | j < c.shards
      ensures Newer(t, t.workers[j], m)
    {
      assert Newer(s, s.workers[j], m);
    }
  }

  lemma PollBounded(c: Config, s: State, e: PollEvent)
    requires Bounded(c, s) && PollEnabled(c, s, e)
    ensures Bounded(c, NextPoll(c, s, e))
  {
    StepTracked(c, s, Poll(e));
    forall m
      ensures Copies(c, NextPoll(c, s, e), m) <= Copies(c, s, m) || m !in s.log.polled
    {
      PollKeeps(c, s, e, m);
    }
    IdleBounded(c, s, NextPoll(c, s, e));
  }

  lemma RebalanceBounded(c: Config, s: State, e: RebalanceEvent)
    requires Bounded(c, s) && (e.RevokedEvent? ==> s.poll.Polling?)
    ensures Bounded(c, NextRebalance(s, e))
  {
    RebalanceTracked(c, s, e);
    IdleBounded(c, s, NextRebalance(s, e));
  }

  lemma CommitBounded(c: Config, s: State, e: CommitEvent)
    requires Bounded(c, s) && CommitEnabled(s, e)
    ensures Bounded(c, NextCommit(s, e))
  {
    CommitTracked(c, s, e);
    IdleBounded(c, s, NextCommit(s, e));
  }

  lemma OtherBounded(c: Config, s: State, e: Event)
    requires Bounded(c, s) && Enabled(c, s, e) && !e.Work?
    ensures Bounded(c, Next(c, s, e))
  {
    match e
    case Poll(p) => PollBounded(c, s, p);
    case Rebalance(r) => RebalanceBounded(c, s, r);
    case Coordinate(k) => CommitBounded(c, s, k);
    case Cancel =>
      StepTracked(c, s, e);
      IdleBounded(c, s, s.(cancelled := true));
  }

  lemma {:induction false} RunBounded(c: Config, s: State, es: seq<Event>)
    requires Bounded(c, s) && Possible(c, s, es)
    ensures Bounded(c, After(c, s, es))
    decreases |es|
  {
    if es != [] {
      if es[0].Work? {
        WorkBounded(c, s, es[0].shard, es[0].work);
      } else {
        OtherBounded(c, s, es[0]);
      }
      RunBounded(c, Next(c, s, es[0]), es[1..]);
    }
  }
}
