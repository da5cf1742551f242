/** What the subscriber guarantees over every run: each lemma is about every finite interleaving of
    the poll loop, the workers, the coordinator and the rebalances. */
module SubscriberLaws {
  import opened Assignment
  import opened CommitBuffer
  import opened CommitLifetimes
  import opened Subscriber
  import opened SubscriberCommits
  import opened SubscriberCopies
  import opened SubscriberDeeds
  import opened SubscriberFencing
  import opened SubscriberLifetimes
  import opened SubscriberLoss
  import opened SubscriberReplays

  /** In every run, whatever fails, panics or is rebalanced, a polled message is handed to its
      listener at most four times, and no replay count exceeds three. */
  lemma ListenerRunsBounded(c: Config, es: seq<Event>, m: Msg)
    requires c.Valid() && Possible(c, Init(c), es)
    ensures var s := After(c, Init(c), es);
            Times(c, Init(c), es, Started, m) <= 4 && s.Attempts(m) <= 3
  {
    RunNotices(c, Init(c), es, Started, m);
    InitBounded(c);
    RunBounded(c, Init(c), es);
    AttemptsCapped(After(c, Init(c), es), m);
  }

  /** In every run a polled message has at most one live copy, in the shard of its key. */
  lemma OneLiveCopy(c: Config, es: seq<Event>, m: Msg, i: nat)
    requires c.Valid() && Possible(c, Init(c), es) && i < c.shards
    ensures var s := After(c, Init(c), es);
            && Copies(c, s, m) <= 1
            && (i != c.Shard(m) ==> CopiesIn(s.channels[i], m) == 0 && Carries(s.workers[i], m) == 0)
  {
    var s := After(c, Init(c), es);
    InitBounded(c);
    RunBounded(c, Init(c), es);
    assert Copies(c, s, m) <= 1;
    assert QueueAt(c, s.channels[i], i) && WorkerAt(c, s.workers[i], i);
    if i != c.Shard(m) {
      NoneOfThem(c, s.channels[i], i, m);
    }
  }

  lemma {:induction false} NoneOfThem(c: Config, q: seq<Item>, i: nat, m: Msg)
    requires c.Valid() && QueueAt(c, q, i) && c.Shard(m) != i
    ensures CopiesIn(q, m) == 0
  {
    if q != [] {
      assert QueueAt(c, q[..|q| - 1], i);
      NoneOfThem(c, q[..|q| - 1], i, m);
    }
  }

  /** In every run a commit reaches the broker only for a message that some event of the run settled: no
      listener wanted it, its listener succeeded or had done so before, or the dead-letter queue took it. */
  lemma CommitsAreJustified(c: Config, es: seq<Event>, i: nat)
    requires c.Valid() && Possible(c, Init(c), es) && i < |After(c, Init(c), es).broker|
    ensures var m := After(c, Init(c), es).broker[i].msg;
            || Did(c, Init(c), es, Skipped, m) || Did(c, Init(c), es, Succeeded, m)
            || Did(c, Init(c), es, Deed.DeadLettered, m)
  {
    var m := After(c, Init(c), es).broker[i].msg;
    RunJustified(c, Init(c), es);
    RunNotices(c, Init(c), es, Skipped, m);
    RunNotices(c, Init(c), es, Succeeded, m);
    RunNotices(c, Init(c), es, Deed.DeadLettered, m);
  }

  /** In every run the first verdict on a message is final: once its listener has succeeded, or nobody
      listens, or the dead-letter queue has taken or refused it, it is not polled or started again in its
      epoch, and no second verdict is given. */
  lemma VerdictIsFinal(c: Config, before: seq<Event>, after: seq<Event>, verdict: Deed, later: Deed,
                       m: Msg)
    requires c.Valid() && Possible(c, Init(c), before) && Possible(c, After(c, Init(c), before), after)
    requires verdict in {Skipped, Succeeded, Deed.DeadLettered, Deed.Refused} && Did(c, Init(c), before, verdict, m)
    requires later in {Polled, Started, Skipped, Succeeded, Deed.DeadLettered, Deed.Refused}
    ensures !Did(c, After(c, Init(c), before), after, later, m)
  {
    InitBounded(c);
    RunFinal(c, Init(c), before, m);
    RunNotices(c, Init(c), before, verdict, m);
    StaysDecided(c, After(c, Init(c), before), after, later, m);
  }

  /** In every run, whatever happens after a rebalance starts no work and requests no commit for a
      message polled before it, nor lets an earlier request of it into a commit state. */
  lemma RebalanceFencesRun(c: Config, before: seq<Event>, after: seq<Event>, m: Msg)
    requires c.Valid() && Possible(c, Init(c), before) && Possible(c, After(c, Init(c), before), after)
    requires m.epoch < After(c, Init(c), before).epoch
    ensures var s := After(c, Init(c), before);
            && NothingStarted(s, After(c, s, after), m) && NothingBuffered(s, After(c, s, after), m)
            && !Did(c, s, after, Polled, m) && !Did(c, s, after, Started, m) && !Did(c, s, after, Tried, m)
  {
    var s := After(c, Init(c), before);
    CommitsLandFenced(c, Init(c), before);
    StaleNeverStarts(c, s, after, m);
    StaleNeverBuffered(c, s, after, m);
    StaleRests(c, s, after, Polled, m);
    StaleRests(c, s, after, Started, m);
    StaleRests(c, s, after, Tried, m);
  }

  /** In every run: a message polled under the assignment in force has not been dropped. It is in flight in
      its one place, or the poll loop is reporting it, or it waits for its commit, in the queue, in its
      commit state or with the coordinator; or it was offered to the broker, or the dead-letter queue
      refused it. */
  lemma NoSilentLoss(c: Config, es: seq<Event>, m: Msg)
    requires c.Valid() && Possible(c, Init(c), es)
    requires Did(c, Init(c), es, Polled, m)
    requires var s := After(c, Init(c), es); m.epoch == s.epoch && m.key in s.owned && !s.cancelled && !s.gate.closed
    ensures var s := After(c, Init(c), es);
            || Copies(c, s, m) == 1 || s.poll == Reporting(m) || s.poll == Sending(m)
            || m in s.commits || Buffered(s.states, m) || Emits(s.coordinator, m)
            || Did(c, Init(c), es, Tried, m) || Did(c, Init(c), es, Deed.Refused, m)
  {
    InitNothingLost(c);
    RunNothingLost(c, Init(c), es);
    assert Safe(c, After(c, Init(c), es), m);
    RunNotices(c, Init(c), es, Polled, m);
    RunNotices(c, Init(c), es, Tried, m);
    RunNotices(c, Init(c), es, Deed.Refused, m);
  }

  ghost predicate WithinCapacity(c: Config, s: State) {
    && Shaped(c, s) && |s.commits| <= c.shards * c.capacity
    && forall i: nat {:trigger s.channels[i]} :: i < c.shards ==> |s.channels[i]| <= c.capacity
  }

  lemma PollWithinCapacity(c: Config, s: State, e: PollEvent)
    requires WithinCapacity(c, s) && PollEnabled(c, s, e)
    ensures WithinCapacity(c, NextPoll(c, s, e))
  {
    assert e.DrainBacklog? && s.Current(s.backlog[0].msg) ==> s.Room(c, s.backlog[0].msg);
  }

  lemma WorkWithinCapacity(c: Config, s: State, i: nat, e: WorkEvent)
    requires WithinCapacity(c, s) && i < c.shards && WorkEnabled(c, s, i, e)
    ensures WithinCapacity(c, NextWork(c, s, i, e))
  {
    assert |s.channels[i]| <= c.capacity;
  }

  lemma StepWithinCapacity(c: Config, s: State, e: Event)
    requires WithinCapacity(c, s) && Enabled(c, s, e)
    ensures WithinCapacity(c, Next(c, s, e))
  {
    match e
    case Poll(p) => PollWithinCapacity(c, s, p);
    case Work(i, w) => WorkWithinCapacity(c, s, i, w);
    case Coordinate(k) => assert |NextCommit(s, k).commits| <= |s.commits|;
    case _ =>
  }

  lemma {:induction false} RunWithinCapacity(c: Config, s: State, es: seq<Event>)
    requires WithinCapacity(c, s) && Possible(c, s, es)
    ensures WithinCapacity(c, After(c, s, es))
    decreases |es|
  {
    if es != [] {
      StepWithinCapacity(c, s, es[0]);
      RunWithinCapacity(c, Next(c, s, es[0]), es[1..]);
    }
  }

  /** In every run neither a shard channel nor the commit channel holds more than it has room for. */
  lemma ChannelsBounded(c: Config, es: seq<Event>, i: nat)
    requires c.Valid() && Possible(c, Init(c), es) && i < c.shards
    ensures var s := After(c, Init(c), es);
            |s.channels[i]| <= c.capacity && |s.commits| <= c.shards * c.capacity
  {
    RunWithinCapacity(c, Init(c), es);
  }

  /** Every worker that has a message can take a step, unless it waits for room in a channel or for the
      subscriber to be cancelled. */
  lemma WorkersNeverStuck(c: Config, s: State, i: nat)
    requires Shaped(c, s) && i < c.shards && !s.workers[i].Idle?
    ensures || (exists e :: Enabled(c, s, Work(i, e)))
            || (s.workers[i].Requesting? && |s.commits| >= c.shards * c.capacity)
            || (s.workers[i].Resending? && !s.cancelled && |s.channels[c.Shard(s.workers[i].again.msg)]| >= c.capacity)
  {
    var w := s.workers[i];
    var e := match w
      case Idle => Receive
      case Holding(_) => Check(true)
      case Running(_) => Return(Success)
      case Replaying(_) => Replay(true)
      case Sleeping(_) => Wake(false)
      case Admitted(_, _) => Recheck
      case Resending(_, again) => Resend(!s.Room(c, again.msg))
      case Committing(_, _) => CheckCommit
      case Requesting(_, _) => RequestCommit
      case Finishing(_) => Finish;
    assert WorkEnabled(c, s, i, e) ==> Enabled(c, s, Work(i, e));
  }

  /** In every run a partition's commit state is a lifetime in progress of the commit requests
      collected since its partition was last revoked, as CommitLifetimes has it. */
  lemma StatesAreLifetimes(c: Config, es: seq<Event>, key: TopicPartition)
    requires c.Valid() && Possible(c, Init(c), es) && key in After(c, Init(c), es).states
    ensures var steps := RunSteps(c, Init(c), es);
            && After(c, Init(c), es).states == TableAfter(steps)
            && Grounded(TrackOf(steps, key).start, TableAfter(steps)[key], TrackOf(steps, key).finished)
  {
    var steps := RunSteps(c, Init(c), es);
    RunTable(c, Init(c), es, []);
    assert [] + steps == steps;
    TableGrounded(steps, key);
  }

  /** In every run: what the coordinator emits for a request passes unfinished work exactly when a
      registered offset below the start of the lifetime is unfinished; and with offsets polled in order
      it never does unless a commit state of the partition was deleted early. */
  lemma EmitsPastUnfinishedIff(c: Config, es: seq<Event>, i: nat)
    requires c.Valid() && Possible(c, Init(c), es)
    requires var s := After(c, Init(c), es); CommitEnabled(s, Collect) && s.Current(s.commits[0])
    requires i < |NextCommit(After(c, Init(c), es), Collect).coordinator.pending|
    ensures var s := After(c, Init(c), es);
            var (m, offset) := (s.commits[0], NextCommit(s, Collect).coordinator.pending[i].offset);
            var steps := RunSteps(c, Init(c), es);
            var t := TrackOf(steps + [Settle(m.key, Request(m.offset, m))], m.key);
            && (PassesUnfinished(offset, t) <==> PassesUnfinished(t.start, t))
            && (InOrder(steps, m.key) && !TrackOf(steps, m.key).early ==> !PassesUnfinished(offset, t))
  {
    var (s, steps) := (After(c, Init(c), es), RunSteps(c, Init(c), es));
    var m := s.commits[0];
    RunTable(c, Init(c), es, []);
    assert [] + steps == steps;
    PassesUnfinishedIff(steps, m.key, Request(m.offset, m), i);
    if InOrder(steps, m.key) && !TrackOf(steps, m.key).early {
      OnlyEarlyDeletionPasses(steps, m.key, Request(m.offset, m), i);
    }
  }
}
