/** Where the live copy of a polled message is: each message has at most one, always in the
    shard its resource key hashes to. */
module SubscriberCopies {
  import opened Assignment
  import opened CommitBuffer
  import opened Subscriber

  function One(it: Item, m: Msg): nat {
    if it.msg == m then 1 else 0
  }

  function CopiesIn(q: seq<Item>, m: Msg): nat {
    if q == [] then 0 else CopiesIn(q[..|q| - 1], m) + One(q[|q| - 1], m)
  }

  /** A worker carries its message until it is requeued, requested for commit or given up. */
  function Carries(w: Worker, m: Msg): nat {
    match w
    case Idle => 0
    case Finishing(_) => 0
    case Admitted(_, again) => One(again, m)
    case Resending(_, again) => One(again, m)
    case _ => One(w.item, m)
  }

  function PollCarries(p: PollState, backlog: seq<Item>, m: Msg): nat {
    (if p.Prepared? then One(p.item, m) else 0) + CopiesIn(backlog, m)
  }

  function Copies(c: Config, s: State, m: Msg): nat
    requires Shaped(c, s)
  {
    PollCarries(s.poll, s.backlog, m) + CopiesIn(s.channels[c.Shard(m)], m) + Carries(s.workers[c.Shard(m)], m)
  }

  lemma {:induction false} CountPop(q: seq<Item>, m: Msg)
    requires q != []
    ensures CopiesIn(q, m) == One(q[0], m) + CopiesIn(q[1..], m)
  {
    var n := |q| - 1;
    if n > 0 {
      CountPop(q[..n], m);
      assert q[1..][..n - 1] == q[..n][1..];
    }
  }

  lemma {:induction false} CountKept(q: seq<Item>, revoked: set<TopicPartition>, m: Msg)
    ensures CopiesIn(Kept(q, revoked), m) <= CopiesIn(q, m)
  {
    if q != [] {
      CountKept(q[..|q| - 1], revoked, m);
    }
  }

  lemma {:induction false} CountHas(q: seq<Item>, j: nat)
    requires j < |q|
    ensures CopiesIn(q, q[j].msg) >= 1
  {
    if j < |q| - 1 {
      CountHas(q[..|q| - 1], j);
    }
  }

  // ---- messages stay in their shard ----

  predicate WorkerAt(c: Config, w: Worker, i: nat)
    requires c.Valid()
  {
    && (!w.Idle? ==> c.Shard(w.item.msg) == i)
    && (w.Admitted? || w.Resending? ==> w.again.msg == w.item.msg)
  }

  ghost predicate QueueAt(c: Config, q: seq<Item>, i: nat)
    requires c.Valid()
  {
    forall j {:trigger q[j]} :: 0 <= j < |q| ==> c.Shard(q[j].msg) == i
  }

  ghost predicate Located(c: Config, s: State)
    requires Shaped(c, s)
  {
    && (forall i: nat {:trigger s.channels[i]} :: i < c.shards ==> QueueAt(c, s.channels[i], i))
    && (forall i: nat {:trigger s.workers[i]} :: i < c.shards ==> WorkerAt(c, s.workers[i], i))
  }

  lemma LocatedWork(c: Config, s: State, i: nat, e: WorkEvent)
    requires Shaped(c, s) && Located(c, s) && i < c.shards && WorkEnabled(c, s, i, e)
    ensures Located(c, NextWork(c, s, i, e))
  {
    var d := DecideWork(c, s, i, e);
    assert WorkerAt(c, s.workers[i], i);
    assert QueueAt(c, s.channels[i], i);
    assert WorkerAt(c, d.worker, i);
  }

  lemma LocatedStep(c: Config, s: State, e: Event)
    requires Shaped(c, s) && Located(c, s) && Enabled(c, s, e)
    ensures Located(c, Next(c, s, e))
  {
    match e
    case Poll(p) =>
    case Work(i, w) => LocatedWork(c, s, i, w);
    case _ =>
      assert Next(c, s, e).channels == s.channels && Next(c, s, e).workers == s.workers;
  }

  // ---- how a step changes the number of copies ----

  function QueueChange(s: State, step: QueueStep, m: Msg): int
    requires Poppable(s, step)
  {
    match step
    case Untouched => 0
    case Push(it) => One(it, m)
    case Pop(k) => -(One(s.channels[k][0], m) as int)
  }

  lemma QueueCopies(c: Config, s: State, eff: Effect, m: Msg)
    requires Shaped(c, s) && Located(c, s) && Poppable(s, eff.queue)
    ensures CopiesIn(Apply(c, s, eff).channels[c.Shard(m)], m) == CopiesIn(s.channels[c.Shard(m)], m) +
            QueueChange(s, eff.queue, m)
  {
    var k := c.Shard(m);
    match eff.queue
    case Untouched =>
    case Push(it) =>
    case Pop(j) =>
      assert QueueAt(c, s.channels[j], j);
      if j == k {
        CountPop(s.channels[k], m);
      }
  }

  /** A worker's step, seen from any message. */
  lemma WorkCopies(c: Config, s: State, i: nat, e: WorkEvent, m: Msg)
    requires Shaped(c, s) && Located(c, s) && i < c.shards && WorkEnabled(c, s, i, e)
    ensures var d := DecideWork(c, s, i, e);
            Copies(c, NextWork(c, s, i, e), m) == Copies(c, s, m) + Carries(d.worker, m) - Carries(s.workers[i], m) +
            QueueChange(s, d.effect.queue, m)
  {
    var d := DecideWork(c, s, i, e);
    QueueCopies(c, s, d.effect, m);
    assert WorkerAt(c, s.workers[i], i);
    LocatedWork(c, s, i, e);
    assert WorkerAt(c, NextWork(c, s, i, e).workers[i], i);
  }

  lemma PollCopies(c: Config, s: State, e: PollEvent, m: Msg)
    requires Shaped(c, s) && Located(c, s) && PollEnabled(c, s, e)
    ensures var d := DecidePoll(c, s, e);
            Copies(c, NextPoll(c, s, e), m) == Copies(c, s, m) +
            PollCarries(d.poll, d.backlog, m) - PollCarries(s.poll, s.backlog, m) + QueueChange(s, d.effect.queue, m)
  {
    QueueCopies(c, s, DecidePoll(c, s, e).effect, m);
  }

  lemma WorkerKeeps(c: Config, s: State, i: nat, e: WorkEvent, m: Msg)
    requires Shaped(c, s) && i < c.shards && WorkEnabled(c, s, i, e) && WorkerAt(c, s.workers[i], i)
    ensures var (d, w) := (DecideWork(c, s, i, e), s.workers[i]);
            Carries(d.worker, m) + QueueChange(s, d.effect.queue, m) == if Carries(w, m) == 1 &&
                                                                           Drops(d) then 0 else Carries(w, m)
  {
  }

  /** A worker never makes a copy, and keeps the one it has unless it stops carrying it. */
  lemma WorkKeeps(c: Config, s: State, i: nat, e: WorkEvent, m: Msg)
    requires Shaped(c, s) && Located(c, s) && i < c.shards && WorkEnabled(c, s, i, e)
    ensures var t := NextWork(c, s, i, e);
            Copies(c, t, m) == Copies(c, s, m) - if Carries(s.workers[i], m) == 1 &&
                                                    Drops(DecideWork(c, s, i, e)) then 1 else 0
  {
    WorkCopies(c, s, i, e, m);
    WorkerKeeps(c, s, i, e, m);
  }

  /** The worker is done with its message and has not sent it on. */
  predicate Drops(d: WorkStep) {
    d.worker.Finishing? && !d.effect.queue.Push?
  }

  lemma PollerKeeps(c: Config, s: State, e: PollEvent, m: Msg)
    requires Shaped(c, s) && PollEnabled(c, s, e)
    ensures var d := DecidePoll(c, s, e);
            PollCarries(d.poll, d.backlog, m) + QueueChange(s, d.effect.queue, m)
            <= PollCarries(s.poll, s.backlog, m) + if d.effect.note == Registering(m) then 1 else 0
  {
    if e.DrainBacklog? {
      CountPop(s.backlog, m);
    }
  }

  /** The poll loop makes a copy only of a message it has just polled. */
  lemma PollKeeps(c: Config, s: State, e: PollEvent, m: Msg)
    requires Shaped(c, s) && Located(c, s) && PollEnabled(c, s, e)
    ensures Copies(c, NextPoll(c, s, e), m) <= Copies(c, s, m) + if DecidePoll(c, s, e).effect.note ==
                                                                    Registering(m) then 1 else 0
  {
    PollCopies(c, s, e, m);
    PollerKeeps(c, s, e, m);
  }

  // ---- at most one copy, in every run ----

  ghost predicate Known(s: State) {
    && (forall m {:trigger m in s.log.polled} :: m in s.log.polled ==> m.epoch <= s.epoch)
    && (forall m {:trigger s.log.Runs(m)} :: s.log.Runs(m) > 0 ==> m in s.log.polled)
  }

  ghost predicate Single(c: Config, s: State)
    requires Shaped(c, s)
  {
    forall m {:trigger Copies(c, s, m)} :: Copies(c, s, m) <= 1 && (Copies(c, s, m) == 1 ==> m in s.log.polled)
  }

  ghost predicate Tracked(c: Config, s: State) {
    Shaped(c, s) && Located(c, s) && Known(s) && Single(c, s)
  }

  lemma WorkKnown(c: Config, s: State, i: nat, e: WorkEvent)
    requires Tracked(c, s) && i < c.shards && WorkEnabled(c, s, i, e)
    ensures Known(NextWork(c, s, i, e))
  {
    var t := NextWork(c, s, i, e);
    var note := DecideWork(c, s, i, e).effect.note;
    assert t.log.polled == s.log.polled;
    forall m | t.log.Runs(m) > 0
      ensures m in t.log.polled
    {
      if note == Ran(m) {
        assert WorkerAt(c, s.workers[i], i);
        assert Copies(c, s, m) >= 1;
      } else {
        assert t.log.Runs(m) == s.log.Runs(m);
      }
    }
  }

  lemma PollKnown(c: Config, s: State, e: PollEvent)
    requires Tracked(c, s) && PollEnabled(c, s, e)
    ensures Known(NextPoll(c, s, e))
  {
    var t := NextPoll(c, s, e);
    forall m | t.log.Runs(m) > 0
      ensures m in t.log.polled
    {
      assert t.log.Runs(m) == s.log.Runs(m);
    }
  }

  lemma WorkSingle(c: Config, s: State, i: nat, e: WorkEvent)
    requires Tracked(c, s) && i < c.shards && WorkEnabled(c, s, i, e)
    ensures Single(c, NextWork(c, s, i, e))
  {
    var t := NextWork(c, s, i, e);
    assert t.log.polled == s.log.polled;
    forall m
      ensures Copies(c, t, m) <= 1 && (Copies(c, t, m) == 1 ==> m in t.log.polled)
    {
      WorkKeeps(c, s, i, e, m);
    }
  }

  lemma PollSingle(c: Config, s: State, e: PollEvent)
    requires Tracked(c, s) && PollEnabled(c, s, e)
    ensures Single(c, NextPoll(c, s, e))
  {
    var t := NextPoll(c, s, e);
    forall m
      ensures Copies(c, t, m) <= 1 && (Copies(c, t, m) == 1 ==> m in t.log.polled)
    {
      PollKeeps(c, s, e, m);
    }
  }

  lemma RebalanceTracked(c: Config, s: State, e: RebalanceEvent)
    requires Tracked(c, s) && (e.RevokedEvent? ==> s.poll.Polling?)
    ensures Tracked(c, NextRebalance(s, e))
    ensures forall m :: Copies(c, NextRebalance(s, e), m) <= Copies(c, s, m)
  {
    var t := NextRebalance(s, e);
    assert t.log == s.log;
    forall m
      ensures Copies(c, t, m) <= Copies(c, s, m)
    {
      if e.RevokedEvent? {
        CountKept(s.backlog, s.Revoked(e.partitions), m);
      }
    }
    forall m
      ensures Copies(c, t, m) <= 1 && (Copies(c, t, m) == 1 ==> m in t.log.polled)
    {
      assert Copies(c, t, m) <= Copies(c, s, m);
    }
  }

  lemma CommitTracked(c: Config, s: State, e: CommitEvent)
    requires Tracked(c, s) && CommitEnabled(s, e)
    ensures Tracked(c, NextCommit(s, e))
    ensures forall m :: Copies(c, NextCommit(s, e), m) == Copies(c, s, m)
  {
    var t := NextCommit(s, e);
    assert t.channels == s.channels && t.workers == s.workers && t.poll == s.poll && t.backlog == s.backlog;
    assert t.log.polled == s.log.polled && t.log.runs == s.log.runs && t.epoch == s.epoch;
    forall m
      ensures t.log.Runs(m) == s.log.Runs(m) && Copies(c, t, m) == Copies(c, s, m)
    {
    }
  }

  lemma StepTracked(c: Config, s: State, e: Event)
    requires Tracked(c, s) && Enabled(c, s, e)
    ensures Tracked(c, Next(c, s, e))
  {
    match e
    case Rebalance(r) => RebalanceTracked(c, s, r);
    case Poll(p) =>
      PollKnown(c, s, p);
      PollSingle(c, s, p);
    case Work(i, w) =>
      LocatedWork(c, s, i, w);
      WorkKnown(c, s, i, w);
      WorkSingle(c, s, i, w);
    case Coordinate(k) => CommitTracked(c, s, k);
    case Cancel =>
      var t := s.(cancelled := true);
      assert t.log == s.log;
      forall m
        ensures Copies(c, t, m) == Copies(c, s, m)
      {
      }
  }
}
