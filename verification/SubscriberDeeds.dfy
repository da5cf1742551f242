/** What the events of a run did to a message, told by the events and the state they met, and what of it is
    final. The history kept in the state says the same. */
module SubscriberDeeds {
  import opened Assignment
  import opened CommitBuffer
  import opened Subscriber
  import opened SubscriberCopies

  datatype Deed =
    | Polled
    | Skipped // its topic has no listener
    | Started // handed to its listener
    | Succeeded
    | DeadLettered // the dead-letter queue took it
    | Refused // the dead-letter queue did not take it, and nothing else will be done
    | Requested // asked to be committed
    | Tried // offered to the broker

  /** The event is a step of the worker that has m. */
  predicate AtWork(s: State, e: Event, m: Msg) {
    e.Work? && e.shard < |s.workers| && !s.workers[e.shard].Idle? && s.workers[e.shard].item.msg == m
  }

  predicate Does(s: State, e: Event, deed: Deed, m: Msg) {
    match deed
    case Polled =>
      && e.Poll? && s.Current(m)
      && (|| (e.poll == Message(m.key, m.offset) && !s.gate.closed)
          || (e.poll.InvalidMessage? && e.poll.key == m.key && e.poll.offset == m.offset))
    case Skipped => AtWork(s, e, m) && e.work == Check(false) && s.Current(m)
    case Started => AtWork(s, e, m) && e.work == Check(true) && s.Current(m)
    case Succeeded => AtWork(s, e, m) && e.work in {Return(Success), Return(AlreadyProcessed)}
    case DeadLettered =>
      || (AtWork(s, e, m) && e.work in {Return(NonRetryable(true)), Return(Panicked(true))})
      || (AtWork(s, e, m) && e.work == Replay(true) && s.Attempts(m) >= 3)
      || (e.Poll? && e.poll == InvalidMessage(m.key, m.offset, true) && s.Current(m))
    case Refused =>
      || (AtWork(s, e, m) && e.work == Return(Panicked(false)))
      || (AtWork(s, e, m) && e.work == Replay(false) && s.Attempts(m) >= 3)
      || (e.Poll? && e.poll == InvalidMessage(m.key, m.offset, false) && s.Current(m))
    case Requested =>
      (AtWork(s, e, m) && e.work == RequestCommit) || (e.Poll? && e.poll == SendReport && s.poll == Sending(m))
    case Tried =>
      && e.Coordinate? && e.commit.Commit? && s.coordinator.Emitting? && s.coordinator.pending != []
      && s.coordinator.pending[0].payload == m && s.Current(m)
  }

  /** Some event of the run did it. */
  predicate Did(c: Config, s: State, es: seq<Event>, deed: Deed, m: Msg)
    requires Shaped(c, s) && Possible(c, s, es)
    decreases |es|
  {
    es != [] && (Does(s, es[0], deed, m) || Did(c, Next(c, s, es[0]), es[1..], deed, m))
  }

  function Times(c: Config, s: State, es: seq<Event>, deed: Deed, m: Msg): nat
    requires Shaped(c, s) && Possible(c, s, es)
    decreases |es|
  {
    if es == [] then 0
    else (if Does(s, es[0], deed, m) then 1 else 0) + Times(c, Next(c, s, es[0]), es[1..], deed, m)
  }

  // ---- the history is what the events did ----

  predicate Noticed(log: History, deed: Deed, m: Msg) {
    match deed
    case Polled => m in log.polled
    case Skipped => m in log.unheard
    case Started => log.Runs(m) > 0
    case Succeeded => m in log.handled
    case DeadLettered => m in log.deadLettered
    case Refused => m in log.refused
    case Requested => m in log.requested
    case Tried => m in log.tried
  }

  predicate Writes(note: Note, deed: Deed, m: Msg) {
    match deed
    case Polled => note == Registering(m) || (note.Invalid? && note.m == m)
    case Skipped => note == Unheard(m)
    case Started => note == Ran(m)
    case Succeeded => note == Handled(m)
    case DeadLettered => note == Note.DeadLettered(m) || note == Invalid(m, true)
    case Refused => note == Note.Refused(m) || note == Invalid(m, false)
    case Requested => note == Note.Requested(m)
    case Tried => false
  }

  lemma NoteNotices(log: History, note: Note, deed: Deed, m: Msg)
    ensures Noticed(Noted(log, note), deed, m) <==> Noticed(log, deed, m) || Writes(note, deed, m)
    ensures Noted(log, note).Runs(m) == log.Runs(m) + if Writes(note, Started, m) then 1 else 0
  {
  }

  lemma PollNotices(c: Config, s: State, e: PollEvent, deed: Deed, m: Msg)
    requires Shaped(c, s) && PollEnabled(c, s, e)
    ensures Writes(DecidePoll(c, s, e).effect.note, deed, m) <==> Does(s, Poll(e), deed, m)
  {
  }

  lemma WorkNotices(c: Config, s: State, i: nat, e: WorkEvent, deed: Deed, m: Msg)
    requires Shaped(c, s) && i < c.shards && WorkEnabled(c, s, i, e)
    ensures Writes(DecideWork(c, s, i, e).effect.note, deed, m) <==> Does(s, Work(i, e), deed, m)
  {
  }

  lemma CommitNotices(s: State, e: CommitEvent, deed: Deed, m: Msg)
    requires CommitEnabled(s, e)
    ensures Noticed(NextCommit(s, e).log, deed, m) <==> Noticed(s.log, deed, m) || Does(s, Coordinate(e), deed, m)
    ensures NextCommit(s, e).log.Runs(m) == s.log.Runs(m)
  {
  }

  lemma StepNotices(c: Config, s: State, e: Event, deed: Deed, m: Msg)
    requires Shaped(c, s) && Enabled(c, s, e)
    ensures Noticed(Next(c, s, e).log, deed, m) <==> Noticed(s.log, deed, m) || Does(s, e, deed, m)
    ensures Next(c, s, e).log.Runs(m) == s.log.Runs(m) + if Does(s, e, Started, m) then 1 else 0
  {
    match e
    case Poll(p) =>
      var note := DecidePoll(c, s, p).effect.note;
      PollNotices(c, s, p, deed, m);
      PollNotices(c, s, p, Started, m);
      NoteNotices(s.log, note, deed, m);
      assert NextPoll(c, s, p).log == Noted(s.log, note);
    case Work(i, w) =>
      var note := DecideWork(c, s, i, w).effect.note;
      WorkNotices(c, s, i, w, deed, m);
      WorkNotices(c, s, i, w, Started, m);
      NoteNotices(s.log, note, deed, m);
      assert NextWork(c, s, i, w).log == Noted(s.log, note);
    case Coordinate(k) => CommitNotices(s, k, deed, m);
    case _ =>
  }

  /** The history holds a deed exactly when some event of the run did it, and counts the listener runs. */
  lemma {:induction false} RunNotices(c: Config, s: State, es: seq<Event>, deed: Deed, m: Msg)
    requires Shaped(c, s) && Possible(c, s, es)
    ensures Noticed(After(c, s, es).log, deed, m) <==> Noticed(s.log, deed, m) || Did(c, s, es, deed, m)
    ensures After(c, s, es).log.Runs(m) == s.log.Runs(m) + Times(c, s, es, Started, m)
    decreases |es|
  {
    if es != [] {
      StepNotices(c, s, es[0], deed, m);
      RunNotices(c, Next(c, s, es[0]), es[1..], deed, m);
    }
  }

  // ---- a verdict is final ----

  predicate Verdict(deed: Deed) {
    deed.Skipped? || deed.Succeeded? || deed.DeadLettered? || deed.Refused?
  }

  predicate Decided(log: History, m: Msg) {
    m in log.unheard || m in log.handled || m in log.deadLettered || m in log.refused
  }

  predicate OnCommit(w: Worker, m: Msg) {
    (w.Committing? || w.Requesting?) && w.item.msg == m
  }

  /** A decided message is nowhere any more but on the way to its commit request. */
  ghost predicate Final(c: Config, s: State, m: Msg)
    requires Shaped(c, s)
  {
    Decided(s.log, m) ==> m in s.log.polled && (Copies(c, s, m) == 0 || OnCommit(s.workers[c.Shard(m)], m))
  }

  lemma WorkerDecides(c: Config, s: State, i: nat, e: WorkEvent, m: Msg)
    requires Shaped(c, s) && i < c.shards && WorkEnabled(c, s, i, e) && WorkerAt(c, s.workers[i], i)
    requires exists deed :: Verdict(deed) && Does(s, Work(i, e), deed, m)
    ensures var d := DecideWork(c, s, i, e);
            && Carries(s.workers[i], m) == 1 && i == c.Shard(m) && !OnCommit(s.workers[i], m)
            && (OnCommit(d.worker, m) || Drops(d))
  {
  }

  lemma WorkFinal(c: Config, s: State, i: nat, e: WorkEvent, m: Msg)
    requires Tracked(c, s) && Final(c, s, m) && i < c.shards && WorkEnabled(c, s, i, e)
    ensures Final(c, NextWork(c, s, i, e), m)
  {
    var (t, d) := (NextWork(c, s, i, e), DecideWork(c, s, i, e));
    assert WorkerAt(c, s.workers[i], i) && Copies(c, s, m) <= 1;
    WorkKeeps(c, s, i, e, m);
    assert t.log.polled == s.log.polled && t.workers == s.workers[i := d.worker];
    if Decided(t.log, m) && !Decided(s.log, m) {
      NewVerdict(c, s, Work(i, e), m);
      WorkerDecides(c, s, i, e, m);
    }
  }

  /** A message is decided by the event that decides it. */
  lemma NewVerdict(c: Config, s: State, e: Event, m: Msg)
    requires Shaped(c, s) && Enabled(c, s, e) && Decided(Next(c, s, e).log, m) && !Decided(s.log, m)
    ensures exists deed :: Verdict(deed) && Does(s, e, deed, m)
  {
    StepNotices(c, s, e, Skipped, m);
    StepNotices(c, s, e, Succeeded, m);
    StepNotices(c, s, e, Deed.DeadLettered, m);
    StepNotices(c, s, e, Deed.Refused, m);
    assert Verdict(Skipped) && Verdict(Succeeded) && Verdict(Deed.DeadLettered) && Verdict(Deed.Refused);
  }

  lemma PollFinal(c: Config, s: State, e: PollEvent, m: Msg)
    requires Tracked(c, s) && Final(c, s, m) && PollEnabled(c, s, e)
    ensures Final(c, NextPoll(c, s, e), m)
  {
    PollKeeps(c, s, e, m);
    assert Copies(c, s, m) == 1 ==> m in s.log.polled;
    if Decided(NextPoll(c, s, e).log, m) && !Decided(s.log, m) {
      NewVerdict(c, s, Poll(e), m);
    }
  }

  lemma StepFinal(c: Config, s: State, e: Event, m: Msg)
    requires Tracked(c, s) && Final(c, s, m) && Enabled(c, s, e)
    ensures Final(c, Next(c, s, e), m)
  {
    match e
    case Poll(p) => PollFinal(c, s, p, m);
    case Work(i, w) => WorkFinal(c, s, i, w, m);
    case Rebalance(r) => RebalanceTracked(c, s, r);
    case Coordinate(k) => CommitTracked(c, s, k);
    case Cancel =>
  }

  /** Deeds that a decided message is done with. */
  predicate Over(deed: Deed) {
    Verdict(deed) || deed.Started? || deed.Polled?
  }

  lemma DecidedRests(c: Config, s: State, e: Event, deed: Deed, m: Msg)
    requires Tracked(c, s) && Final(c, s, m) && Enabled(c, s, e) && Decided(s.log, m) && Over(deed)
    ensures !Does(s, e, deed, m)
  {
    if e.Work? && e.shard < c.shards {
      assert WorkerAt(c, s.workers[e.shard], e.shard);
    }
  }

  lemma {:induction false} StaysDecided(c: Config, s: State, es: seq<Event>, deed: Deed, m: Msg)
    requires Tracked(c, s) && Possible(c, s, es) && Final(c, s, m) && Decided(s.log, m) && Over(deed)
    ensures !Did(c, s, es, deed, m)
    decreases |es|
  {
    if es != [] {
      var t := Next(c, s, es[0]);
      DecidedRests(c, s, es[0], deed, m);
      StepFinal(c, s, es[0], m);
      StepTracked(c, s, es[0]);
      StepNotices(c, s, es[0], Skipped, m);
      StepNotices(c, s, es[0], Succeeded, m);
      StepNotices(c, s, es[0], Deed.DeadLettered, m);
      StepNotices(c, s, es[0], Deed.Refused, m);
      StaysDecided(c, t, es[1..], deed, m);
    }
  }

  lemma {:induction false} RunFinal(c: Config, s: State, es: seq<Event>, m: Msg)
    requires Tracked(c, s) && Possible(c, s, es) && Final(c, s, m)
    ensures Tracked(c, After(c, s, es)) && Final(c, After(c, s, es), m)
    decreases |es|
  {
    if es != [] {
      StepFinal(c, s, es[0], m);
      StepTracked(c, s, es[0]);
      RunFinal(c, Next(c, s, es[0]), es[1..], m);
    }
  }

  /** A message of an earlier epoch is not polled, started, skipped or offered to the broker any more. */
  lemma {:induction false} StaleRests(c: Config, s: State, es: seq<Event>, deed: Deed, m: Msg)
    requires Shaped(c, s) && Possible(c, s, es) && m.epoch < s.epoch
    requires deed in {Polled, Started, Skipped, Tried}
    ensures !Did(c, s, es, deed, m)
    decreases |es|
  {
    if es != [] {
      EpochGrows(c, s, es[0]);
      StaleRests(c, Next(c, s, es[0]), es[1..], deed, m);
    }
  }

  lemma EpochGrows(c: Config, s: State, e: Event)
    requires Shaped(c, s) && Enabled(c, s, e)
    ensures s.epoch <= Next(c, s, e).epoch
  {
    match e
    case Coordinate(k) => assert NextCommit(s, k).epoch == s.epoch;
    case _ =>
  }

  // ---- what follows a failure ----

  predicate LeavesWorker(es: seq<Event>, i: nat) {
    forall k :: 0 <= k < |es| ==> !(es[k].Work? && es[k].shard == i)
  }

  lemma {:induction false} WorkerWaits(c: Config, s: State, es: seq<Event>, i: nat)
    requires Shaped(c, s) && Possible(c, s, es) && LeavesWorker(es, i) && i < c.shards
    ensures After(c, s, es).workers[i] == s.workers[i]
    decreases |es|
  {
    if es != [] {
      assert !(es[0].Work? && es[0].shard == i);
      WorkerWaits(c, Next(c, s, es[0]), es[1..], i);
    }
  }

  /** After a retryable failure, or one that the dead-letter queue refuses, the worker's next step, however
      much later, counts one more replay and goes to sleep; or, with three counted, it asks the dead-letter
      queue, and commits the message exactly if that takes it. */
  lemma FailureIsReplayed(c: Config, s: State, i: nat, outcome: Outcome, es: seq<Event>, e: WorkEvent)
    requires Shaped(c, s) && Enabled(c, s, Work(i, Return(outcome))) && outcome in {Retryable, NonRetryable(false)}
    requires Possible(c, Next(c, s, Work(i, Return(outcome))), es) && LeavesWorker(es, i)
    requires Enabled(c, After(c, Next(c, s, Work(i, Return(outcome))), es), Work(i, e))
    ensures var it := s.workers[i].item;
            var u := After(c, Next(c, s, Work(i, Return(outcome))), es);
            var v := Next(c, u, Work(i, e));
            && Next(c, s, Work(i, Return(outcome))).commits == s.commits && v.commits == u.commits
            && e.Replay?
            && v.workers[i] == (if u.Attempts(it.msg) < 3 then Sleeping(it)
                                else if e.accepted then Committing(it, true) else Finishing(it))
            && v.Attempts(it.msg) == u.Attempts(it.msg) + if u.Attempts(it.msg) < 3 then 1 else 0
  {
    WorkerWaits(c, Next(c, s, Work(i, Return(outcome))), es, i);
  }
}
