/** Every event of subscriber.go's state machine as one assignment to its fields. `log` is left aside: what
    it holds is told by the events themselves in SubscriberDeeds. */
module SubscriberSteps {
  import opened Assignment
  import opened CommitBuffer
  import opened Subscriber

  /** The two states agree but for the history. */
  ghost predicate Becomes(t: State, u: State) {
    t.(log := u.log) == u
  }

  function Released(g: Gate, it: Item): Gate {
    g.(released := g.released + [it], counter := g.counter - 1, panicked := g.panicked || g.counter <= 0)
  }

  function Forgotten(replays: map<(TopicPartition, int), nat>, m: Msg): map<(TopicPartition, int), nat> {
    replays - {(m.key, m.offset)}
  }

  // ---- a worker ----

  lemma OnReceive(c: Config, s: State, i: nat)
    requires Shaped(c, s) && Enabled(c, s, Work(i, Receive))
    ensures Becomes(Next(c, s, Work(i, Receive)),
                 s.(channels := s.channels[i := s.channels[i][1..]],
                    workers := s.workers[i := Holding(s.channels[i][0])]))
  {
  }

  /** The assignment is checked before the listener runs. */
  lemma OnCheck(c: Config, s: State, i: nat, listens: bool)
    requires Shaped(c, s) && Enabled(c, s, Work(i, Check(listens)))
    ensures var (it, t) := (s.workers[i].item, Next(c, s, Work(i, Check(listens))));
            Becomes(t, s.(workers := s.workers[
                         i := if it.msg.epoch != s.epoch || it.msg.key !in s.owned then Finishing(it)
                              else if listens then Running(it) else Committing(it, false)]))
  {
  }

  /** A success is committed, a retryable failure replayed, and a failure the dead-letter queue takes is
      committed; a non-retryable one it refuses is replayed, and a panic it refuses is given up. */
  lemma OnReturn(c: Config, s: State, i: nat, outcome: Outcome)
    requires Shaped(c, s) && Enabled(c, s, Work(i, Return(outcome)))
    ensures var (it, t) := (s.workers[i].item, Next(c, s, Work(i, Return(outcome))));
            && (outcome in {Success, AlreadyProcessed, NonRetryable(true), Panicked(true)} ==>
                  Becomes(t, s.(workers := s.workers[i := Committing(it, true)])))
            && (outcome in {Retryable, NonRetryable(false)} ==>
                  Becomes(t, s.(workers := s.workers[i := Replaying(it)])))
            && (outcome == Panicked(false) ==>
                  Becomes(t, s.(workers := s.workers[i := Finishing(it)], replays := Forgotten(s.replays, it.msg))))
  {
  }

  /** Up to three replays are counted; then the dead-letter queue decides. */
  lemma OnReplay(c: Config, s: State, i: nat, accepted: bool)
    requires Shaped(c, s) && Enabled(c, s, Work(i, Replay(accepted)))
    ensures var (it, t) := (s.workers[i].item, Next(c, s, Work(i, Replay(accepted))));
            var key := (it.msg.key, it.msg.offset);
            var count := if key in s.replays then s.replays[key] else 0;
            if count < 3
            then Becomes(t, s.(workers := s.workers[i := Sleeping(it)], replays := s.replays[key := count + 1]))
            else Becomes(t, s.(workers := s.workers[i := if accepted then Committing(it, true) else Finishing(it)]))
  {
  }

  /** After the backoff the replay is admitted anew, unless its assignment or the subscriber is gone. */
  lemma OnWake(c: Config, s: State, i: nat, abort: bool)
    requires Shaped(c, s) && Enabled(c, s, Work(i, Wake(abort)))
    ensures var (it, t) := (s.workers[i].item, Next(c, s, Work(i, Wake(abort))));
            var again := Item(|s.gate.admitted|, it.msg);
            if abort || it.msg.epoch != s.epoch || it.msg.key !in s.owned || s.gate.closed
            then Becomes(t, s.(workers := s.workers[i := Finishing(it)]))
            else Becomes(t, s.(workers := s.workers[i := Admitted(it, again)],
                            gate := s.gate.(admitted := s.gate.admitted + [again], counter := s.gate.counter + 1)))
  {
  }

  lemma OnRecheck(c: Config, s: State, i: nat)
    requires Shaped(c, s) && Enabled(c, s, Work(i, Recheck))
    ensures var (w, t) := (s.workers[i], Next(c, s, Work(i, Recheck)));
            if w.item.msg.epoch == s.epoch && w.item.msg.key in s.owned
            then Becomes(t, s.(workers := s.workers[i := Resending(w.item, w.again)]))
            else Becomes(t, s.(workers := s.workers[i := Finishing(w.item)], gate := Released(s.gate, w.again)))
  {
  }

  lemma OnResend(c: Config, s: State, i: nat, abort: bool)
    requires Shaped(c, s) && Enabled(c, s, Work(i, Resend(abort)))
    ensures var (w, t) := (s.workers[i], Next(c, s, Work(i, Resend(abort))));
            var k := c.shardOf(w.again.msg.key, w.again.msg.offset) % c.shards;
            if abort
            then Becomes(t, s.(workers := s.workers[i := Finishing(w.item)], gate := Released(s.gate, w.again)))
            else Becomes(t, s.(workers := s.workers[i := Finishing(w.item)],
                            channels := s.channels[k := s.channels[k] + [w.again]],
                            gate := s.gate.(panicked := s.gate.panicked || s.gate.shut)))
  {
  }

  lemma OnCheckCommit(c: Config, s: State, i: nat)
    requires Shaped(c, s) && Enabled(c, s, Work(i, CheckCommit))
    ensures var (w, t) := (s.workers[i], Next(c, s, Work(i, CheckCommit)));
            if w.item.msg.epoch == s.epoch && w.item.msg.key in s.owned
            then Becomes(t, s.(workers := s.workers[i := Requesting(w.item, w.forget)]))
            else Becomes(t, s.(workers := s.workers[i := Finishing(w.item)],
                            replays := if w.forget then Forgotten(s.replays, w.item.msg) else s.replays))
  {
  }

  lemma OnRequest(c: Config, s: State, i: nat)
    requires Shaped(c, s) && Enabled(c, s, Work(i, RequestCommit))
    ensures var (w, t) := (s.workers[i], Next(c, s, Work(i, RequestCommit)));
            Becomes(t, s.(workers := s.workers[i := Finishing(w.item)], commits := s.commits + [w.item.msg],
                       gate := s.gate.(panicked := s.gate.panicked || s.gate.shut),
                       replays := if w.forget then Forgotten(s.replays, w.item.msg) else s.replays))
  {
  }

  lemma OnFinish(c: Config, s: State, i: nat)
    requires Shaped(c, s) && Enabled(c, s, Work(i, Finish))
    ensures Becomes(Next(c, s, Work(i, Finish)),
                 s.(workers := s.workers[i := Idle], gate := Released(s.gate, s.workers[i].item)))
  {
  }

  // ---- the poll loop ----

  /** A polled message of an owned partition is admitted and its offset registered. */
  lemma OnMessage(c: Config, s: State, key: TopicPartition, offset: int)
    requires Shaped(c, s) && Enabled(c, s, Poll(Message(key, offset)))
    ensures var (t, it) := (Next(c, s, Poll(Message(key, offset))), Item(|s.gate.admitted|, Msg(key, offset, s.epoch)));
            if key !in s.owned then Becomes(t, s)
            else if s.gate.closed then Becomes(t, s.(poll := Releasing))
            else Becomes(t, s.(poll := Prepared(it),
                            gate := s.gate.(admitted := s.gate.admitted + [it], counter := s.gate.counter + 1),
                            states := if key in s.states then s.states
                                      else s.states[key := CommitState(offset, map[])]))
  {
  }

  /** An invalid message the dead-letter queue refuses ends the loop. */
  lemma OnInvalid(c: Config, s: State, key: TopicPartition, offset: int, accepted: bool)
    requires Shaped(c, s) && Enabled(c, s, Poll(InvalidMessage(key, offset, accepted)))
    ensures var t := Next(c, s, Poll(InvalidMessage(key, offset, accepted)));
            if key !in s.owned then Becomes(t, s)
            else if accepted then Becomes(t, s.(poll := Reporting(Msg(key, offset, s.epoch))))
            else Becomes(t, s.(poll := Releasing, gate := s.gate.(closed := true)))
  {
  }

  lemma OnReport(c: Config, s: State)
    requires Shaped(c, s)
    ensures Enabled(c, s, Poll(CheckReport)) ==>
              var m := s.poll.msg;
              Becomes(Next(c, s, Poll(CheckReport)),
                   s.(poll := if m.epoch == s.epoch && m.key in s.owned then Sending(m) else Polling))
    ensures Enabled(c, s, Poll(SendReport)) ==>
              Becomes(Next(c, s, Poll(SendReport)),
                   s.(poll := Polling, commits := s.commits + [s.poll.msg],
                      gate := s.gate.(panicked := s.gate.panicked || s.gate.shut)))
  {
  }

  /** A message goes to the channel of its shard, or to the end of the backlog when that is full. */
  lemma OnDispatch(c: Config, s: State)
    requires Shaped(c, s) && Enabled(c, s, Poll(Dispatch))
    ensures var (t, it) := (Next(c, s, Poll(Dispatch)), s.poll.item);
            var k := c.shardOf(it.msg.key, it.msg.offset) % c.shards;
            if it.msg.epoch != s.epoch || it.msg.key !in s.owned
            then Becomes(t, s.(poll := Polling, gate := Released(s.gate, it)))
            else if |s.channels[k]| < c.capacity
            then Becomes(t, s.(poll := Polling, channels := s.channels[k := s.channels[k] + [it]],
                            gate := s.gate.(panicked := s.gate.panicked || s.gate.shut)))
            else Becomes(t, s.(poll := Polling, backlog := s.backlog + [it]))
  {
  }

  lemma OnDrain(c: Config, s: State)
    requires Shaped(c, s) && Enabled(c, s, Poll(DrainBacklog))
    ensures var (t, it) := (Next(c, s, Poll(DrainBacklog)), s.backlog[0]);
            var k := c.shardOf(it.msg.key, it.msg.offset) % c.shards;
            if it.msg.epoch != s.epoch || it.msg.key !in s.owned
            then Becomes(t, s.(backlog := s.backlog[1..], gate := Released(s.gate, it)))
            else Becomes(t, s.(backlog := s.backlog[1..], channels := s.channels[k := s.channels[k] + [it]],
                            gate := s.gate.(panicked := s.gate.panicked || s.gate.shut)))
  {
  }

  lemma OnPurge(c: Config, s: State)
    requires Shaped(c, s) && Enabled(c, s, Poll(Purge))
    ensures var (t, k) := (Next(c, s, Poll(Purge)), s.poll.shard);
            if k >= c.shards then Becomes(t, s.(poll := Polling))
            else if s.channels[k] == [] then Becomes(t, s.(poll := Purging(k + 1)))
            else Becomes(t, s.(channels := s.channels[k := s.channels[k][1..]],
                               gate := Released(s.gate, s.channels[k][0])))
  {
  }

  /** Shutting down: no more admissions, and the channels close once nothing is in flight. */
  lemma OnShutdown(c: Config, s: State)
    requires Shaped(c, s)
    ensures Enabled(c, s, Poll(Stop)) ==>
              Becomes(Next(c, s, Poll(Stop)), s.(poll := Releasing, gate := s.gate.(closed := true)))
    ensures Enabled(c, s, Poll(CloseChannels)) ==>
              && s.gate.counter == 0
              && Becomes(Next(c, s, Poll(CloseChannels)),
                         s.(poll := Closed, gate := s.gate.(shut := true, panicked := s.gate.panicked || s.gate.shut)))
  {
  }

  /** In between, the whole backlog is released. */
  lemma OnReleaseBacklog(c: Config, s: State)
    requires Shaped(c, s) && Enabled(c, s, Poll(ReleaseBacklog))
    ensures var (t, n) := (Next(c, s, Poll(ReleaseBacklog)), |s.backlog|);
            && Becomes(t, s.(poll := Waiting, backlog := [], gate := t.gate))
            && t.gate.released == s.gate.released + s.backlog && t.gate.counter == s.gate.counter - n
            && (s.gate.counter >= n ==> t.gate.panicked == s.gate.panicked)
            && t.gate.admitted == s.gate.admitted && t.gate.closed == s.gate.closed && t.gate.shut == s.gate.shut
  {
    DoneAllGate(s.gate, s.backlog);
  }

  // ---- rebalances ----

  /** `indices` picks, in order, exactly the items whose partition is not revoked. */
  ghost predicate Picks(items: seq<Item>, revoked: set<TopicPartition>, picked: seq<Item>, indices: seq<nat>,
                        keep: bool)
  {
    && |indices| == |picked|
    && (forall a, b :: 0 <= a < b < |indices| ==> indices[a] < indices[b])
    && (forall a {:trigger indices[a]} :: 0 <= a < |indices| ==>
          indices[a] < |items| && picked[a] == items[indices[a]] && (items[indices[a]].msg.key !in revoked <==> keep))
    && (forall i: nat :: i < |items| && (items[i].msg.key !in revoked <==> keep) ==> i in indices)
  }

  /** The filter keeps the items of the other partitions, and releases the rest, both in order. */
  lemma {:induction false} FilterMeaning(items: seq<Item>, revoked: set<TopicPartition>)
      returns (kept: seq<nat>, dropped: seq<nat>)
    ensures Picks(items, revoked, Kept(items, revoked), kept, true)
    ensures Picks(items, revoked, Dropped(items, revoked), dropped, false)
  {
    kept, dropped := [], [];
    if items != [] {
      var n := |items| - 1;
      kept, dropped := FilterMeaning(items[..n], revoked);
      if items[n].msg.key in revoked {
        dropped := dropped + [n];
      } else {
        kept := kept + [n];
      }
    }
  }

  /** A rebalance opens a new epoch; a revocation drops the work of the partitions it takes away. */
  lemma OnRebalance(s: State, partitions: seq<TopicPartition>)
    ensures Becomes(NextRebalance(s, AssignedCallback(partitions)),
                 s.(epoch := s.epoch + 1, owned := set p | p in partitions))
    ensures var gone := if s.owned == {} then (set p | p in partitions) else s.owned;
            && Becomes(NextRebalance(s, RevokedCallback(partitions)),
                    s.(epoch := s.epoch + 1, owned := {}, states := s.states - gone))
            && var t := NextRebalance(s, RevokedEvent(partitions));
            && Becomes(t, s.(epoch := s.epoch + 1, owned := {}, states := s.states - gone, poll := Purging(0),
                          backlog := Kept(s.backlog, gone), gate := t.gate))
            && t.gate.released == s.gate.released + Dropped(s.backlog, gone)
            && t.gate.counter == s.gate.counter - |Dropped(s.backlog, gone)|
            && t.gate.admitted == s.gate.admitted && t.gate.closed == s.gate.closed && t.gate.shut == s.gate.shut
  {
    DoneAllGate(s.gate, Dropped(s.backlog, s.Revoked(partitions)));
  }

  // ---- the coordinator ----

  /** A request that is still current enters its commit state, and the run it completes is handed on. */
  lemma OnCollect(c: Config, s: State)
    requires Shaped(c, s) && Enabled(c, s, Coordinate(Collect))
    ensures var (t, m) := (Next(c, s, Coordinate(Collect)), s.commits[0]);
            var start := if m.key in s.states then s.states[m.key] else CommitState(m.offset, map[]);
            var (ready, end) := Drain(start.(ready := start.ready[m.offset := Request(m.offset, m)]));
            if m.epoch != s.epoch || m.key !in s.owned then Becomes(t, s.(commits := s.commits[1..]))
            else Becomes(t, s.(commits := s.commits[1..], coordinator := Emitting(ready),
                            states := if end.ready == map[] then s.states - {m.key} else s.states[m.key := end]))
  {
  }

  /** What is handed on is checked once more and then tried; a failed attempt is repeated unless the
      subscriber is cancelled. */
  lemma OnCommit(c: Config, s: State, applied: bool, reported: bool)
    requires Shaped(c, s) && Enabled(c, s, Coordinate(Commit(applied, reported)))
    ensures var (t, pending) := (Next(c, s, Coordinate(Commit(applied, reported))), s.coordinator.pending);
            if pending == [] then Becomes(t, s.(coordinator := Receiving))
            else
              var m := pending[0].payload;
              if m.epoch != s.epoch || m.key !in s.owned then Becomes(t, s.(coordinator := Emitting(pending[1..])))
              else Becomes(t, s.(coordinator := if reported || s.cancelled then Emitting(pending[1..])
                                             else Retrying(pending[0], 1, pending[1..]),
                              broker := if applied then s.broker + [BrokerCommit(m, 1, s.epoch)] else s.broker))
  {
  }

  lemma OnRetry(c: Config, s: State, applied: bool, reported: bool)
    requires Shaped(c, s) && Enabled(c, s, Coordinate(Retry(applied, reported)))
    ensures s.coordinator.attempts < 3
    ensures var (t, r) := (Next(c, s, Coordinate(Retry(applied, reported))), s.coordinator);
            Becomes(t, s.(coordinator := if reported || s.cancelled then Emitting(r.rest)
                                      else Retrying(r.req, r.attempts + 1, r.rest),
                       broker := if applied then s.broker + [BrokerCommit(r.req.payload, r.attempts + 1, s.epoch)]
                                 else s.broker))
  {
  }

  lemma OnGiveUp(c: Config, s: State)
    requires Shaped(c, s) && Enabled(c, s, Coordinate(GiveUp))
    ensures Becomes(Next(c, s, Coordinate(GiveUp)), s.(coordinator := Emitting(s.coordinator.rest)))
    ensures s.coordinator.attempts >= 3 || s.cancelled
    ensures Becomes(Next(c, s, Cancel), s.(cancelled := true))
  {
  }
}
