/** The sharded Kafka subscriber of subscriber.go as a state machine: the poll loop, the shard
    workers with their FIFO channels and the backlog, replay and the dead-letter queue, the
    commit coordinator, rebalances and shutdown. An event is one step of one goroutine. */
module Subscriber {
  import opened Assignment
  import opened CommitBuffer

  const MAX_REPLAY_ATTEMPTS: nat := 3
  const MAX_COMMIT_ATTEMPTS: nat := 3

  /** A polled message. `epoch` is the number of rebalances before its token was taken. */
  datatype Msg = Msg(key: TopicPartition, offset: int, epoch: nat) {
    function ReplayKey(): (TopicPartition, int) {
      (key, offset)
    }
  }

  /** One admission to the wait group: its ticket, and the message it is for. */
  datatype Item = Item(ticket: nat, msg: Msg)

  /** `shardOf` is the hash of the resource key of the message stored at an offset. */
  datatype Config = Config(shards: nat, capacity: nat, shardOf: (TopicPartition, int) -> nat) {
    predicate Valid() {
      shards > 0 && capacity > 0
    }

    function Shard(m: Msg): nat
      requires Valid()
    {
      shardOf(m.key, m.offset) % shards
    }
  }

  datatype PollState =
    | Polling
    | Prepared(item: Item)
    | Reporting(msg: Msg) // an invalid message, on the dead-letter queue, about to request its commit
    | Sending(msg: Msg) // past the assignment test of that request
    | Purging(shard: nat) // emptying the channels after a revocation
    | Releasing
    | Waiting
    | Closed

  datatype Worker =
    | Idle
    | Holding(item: Item)
    | Running(item: Item)
    | Replaying(item: Item)
    | Sleeping(item: Item)
    | Admitted(item: Item, again: Item)
    | Resending(item: Item, again: Item)
    | Committing(item: Item, forget: bool)
    | Requesting(item: Item, forget: bool)
    | Finishing(item: Item)

  datatype Coordinator =
    | Receiving
    | Emitting(pending: seq<Request<Msg>>)
    | Retrying(req: Request<Msg>, attempts: nat, rest: seq<Request<Msg>>)

  /** A commit that reached the broker: on which attempt, and in which epoch. */
  datatype BrokerCommit = BrokerCommit(msg: Msg, attempt: nat, epoch: nat)

  /** The wait group and the channels' open flag. `panicked` is set by what panics in Go. */
  datatype Gate = Gate(admitted: seq<Item>, released: seq<Item>, counter: int, closed: bool, shut: bool,
                       panicked: bool) {
    function Next(m: Msg): Item {
      Item(|admitted|, m)
    }

    function Admit(m: Msg): Gate {
      this.(admitted := admitted + [Next(m)], counter := counter + 1)
    }

    function Done(it: Item): Gate {
      this.(released := released + [it], counter := counter - 1, panicked := panicked || counter <= 0)
    }

    function DoneAll(items: seq<Item>): Gate {
      if items == [] then this else DoneAll(items[..|items| - 1]).Done(items[|items| - 1])
    }

    function Send(): Gate {
      this.(panicked := panicked || shut)
    }

    function Shut(): Gate {
      this.(shut := true, panicked := panicked || shut)
    }
  }

  /** Releasing many at once is sound as long as the counter covers them. */
  lemma {:induction false} DoneAllGate(g: Gate, items: seq<Item>)
    ensures var h := g.DoneAll(items);
            && h.counter == g.counter - |items| && h.released == g.released + items
            && h.admitted == g.admitted && h.closed == g.closed && h.shut == g.shut
            && (g.counter >= |items| ==> h.panicked == g.panicked)
  {
    if items != [] {
      DoneAllGate(g, items[..|items| - 1]);
      assert g.released + items == g.released + items[..|items| - 1] + [items[|items| - 1]];
    } else {
      assert g.released + items == g.released;
    }
  }

  /** What happened to the messages; no step of the subscriber reads it. */
  datatype History = History(polled: set<Msg>, unheard: set<Msg>, handled: set<Msg>, deadLettered: set<Msg>,
                             refused: set<Msg>, requested: set<Msg>, tried: set<Msg>, runs: map<Msg, nat>) {
    function Runs(m: Msg): nat {
      if m in runs then runs[m] else 0
    }
  }

  datatype State = State(
    epoch: nat, owned: set<TopicPartition>, cancelled: bool, gate: Gate,
    poll: PollState, backlog: seq<Item>, channels: seq<seq<Item>>, workers: seq<Worker>,
    commits: seq<Msg>, states: States<Msg>, coordinator: Coordinator, broker: seq<BrokerCommit>,
    replays: map<(TopicPartition, int), nat>, log: History)
  {
    predicate Current(m: Msg) {
      m.epoch == epoch && m.key in owned
    }

    function Attempts(m: Msg): nat {
      if m.ReplayKey() in replays then replays[m.ReplayKey()] else 0
    }

    predicate Room(c: Config, m: Msg)
      requires c.Valid() && |channels| == c.shards
    {
      |channels[c.Shard(m)]| < c.capacity
    }

    predicate CommitRoom(c: Config) {
      |commits| < c.shards * c.capacity
    }

    /** The partitions whose work a revocation drops: the assigned ones, or the broker's list. */
    function Revoked(partitions: seq<TopicPartition>): set<TopicPartition> {
      if owned == {} then set p | p in partitions else owned
    }
  }

  function Init(c: Config): State
    requires c.Valid()
  {
    State(0, {}, false, Gate([], [], 0, false, false, false), Polling, [], seq(c.shards, i => []),
          seq(c.shards, i => Idle),
          [], map[], Receiving, [], map[], History({}, {}, {}, {}, {}, {}, {}, map[]))
  }

  // ---- what a step does to the shared state ----

  datatype GateStep = Keep | Admit(m: Msg) | Done(it: Item) | DoneAll(items: seq<Item>) | CloseAdmission | ShutChannels

  datatype QueueStep = Untouched | Push(it: Item) | Pop(shard: nat)

  datatype ReplayStep = Same | Count(m: Msg) | Forget(m: Msg)

  /** What is worth remembering about the step. */
  datatype Note =
    | Nothing
    | Registering(m: Msg)
    | Invalid(m: Msg, accepted: bool)
    | Unheard(m: Msg)
    | Ran(m: Msg)
    | Handled(m: Msg)
    | DeadLettered(m: Msg)
    | Refused(m: Msg)
    | Requested(m: Msg)

  datatype Effect = Effect(gate: GateStep, queue: QueueStep, replay: ReplayStep, note: Note)

  const NoEffect := Effect(Keep, Untouched, Same, Nothing)

  function GateAfter(g: Gate, step: GateStep): Gate {
    match step
    case Keep => g
    case Admit(m) => g.Admit(m)
    case Done(it) => g.Done(it)
    case DoneAll(items) => g.DoneAll(items)
    case CloseAdmission => g.(closed := true)
    case ShutChannels => g.Shut()
  }

  predicate Poppable(s: State, step: QueueStep) {
    step.Pop? ==> step.shard < |s.channels| && s.channels[step.shard] != []
  }

  function QueuesAfter(c: Config, channels: seq<seq<Item>>, step: QueueStep): (after: seq<seq<Item>>)
    requires c.Valid() && |channels| == c.shards
    requires step.Pop? ==> step.shard < |channels| && channels[step.shard] != []
    ensures |after| == |channels|
  {
    match step
    case Untouched => channels
    case Push(it) => channels[c.Shard(it.msg) := channels[c.Shard(it.msg)] + [it]]
    case Pop(k) => channels[k := channels[k][1..]]
  }

  function ReplaysAfter(s: State, step: ReplayStep): map<(TopicPartition, int), nat> {
    match step
    case Same => s.replays
    case Count(m) => s.replays[m.ReplayKey() := s.Attempts(m) + 1]
    case Forget(m) => s.replays - {m.ReplayKey()}
  }

  function Noted(log: History, note: Note): History {
    match note
    case Nothing => log
    case Registering(m) => log.(polled := log.polled + {m})
    case Invalid(m, accepted) =>
      if accepted then log.(polled := log.polled + {m}, deadLettered := log.deadLettered + {m})
      else log.(polled := log.polled + {m}, refused := log.refused + {m})
    case Unheard(m) => log.(unheard := log.unheard + {m})
    case Ran(m) => log.(runs := log.runs[m := log.Runs(m) + 1])
    case Handled(m) => log.(handled := log.handled + {m})
    case DeadLettered(m) => log.(deadLettered := log.deadLettered + {m})
    case Refused(m) => log.(refused := log.refused + {m})
    case Requested(m) => log.(requested := log.requested + {m})
  }

  /** Pushing on a shard channel and requesting a commit both send, which panics once closed. */
  function Apply(c: Config, s: State, eff: Effect): (t: State)
    requires c.Valid() && |s.channels| == c.shards && Poppable(s, eff.queue)
    ensures |t.channels| == |s.channels|
  {
    var g := GateAfter(s.gate, eff.gate);
    s.(gate := if eff.queue.Push? || eff.note.Requested? then g.Send() else g,
       channels := QueuesAfter(c, s.channels, eff.queue),
       commits := if eff.note.Requested? then s.commits + [eff.note.m] else s.commits,
       states := if eff.note.Registering? then Registered(s.states, eff.note.m.key, eff.note.m.offset) else s.states,
       replays := ReplaysAfter(s, eff.replay),
       log := Noted(s.log, eff.note))
  }

  // ---- the poll loop ----

  datatype PollEvent =
    | Message(key: TopicPartition, offset: int)
    | InvalidMessage(key: TopicPartition, offset: int, accepted: bool)
    | CheckReport
    | SendReport
    | Dispatch
    | DrainBacklog
    | Purge
    | Stop
    | ReleaseBacklog
    | CloseChannels

  /** The backlog filter: what stays, in order. */
  function Kept(items: seq<Item>, revoked: set<TopicPartition>): seq<Item> {
    if items == [] then []
    else if items[|items| - 1].msg.key in revoked then Kept(items[..|items| - 1], revoked)
    else Kept(items[..|items| - 1], revoked) + [items[|items| - 1]]
  }

  /** The other part: what is released. */
  function Dropped(items: seq<Item>, revoked: set<TopicPartition>): seq<Item> {
    if items == [] then []
    else if items[|items| - 1].msg.key in revoked then Dropped(items[..|items| - 1], revoked) + [items[|items| - 1]]
    else Dropped(items[..|items| - 1], revoked)
  }

  /** The in-place filter: the kept items overwrite the front of the same array. */
  method ReleaseBacklogForPartitions(backlog: array<Item>, revoked: set<TopicPartition>)
      returns (kept: nat, ghost released: seq<Item>)
    modifies backlog
    ensures kept <= backlog.Length && backlog[..kept] == Kept(old(backlog[..]), revoked)
    ensures released == Dropped(old(backlog[..]), revoked)
  {
    kept, released := 0, [];
    ghost var was := backlog[..];
    for i := 0 to backlog.Length
      invariant kept <= i && forall k :: i <= k < backlog.Length ==> backlog[k] == was[k]
      invariant backlog[..kept] == Kept(was[..i], revoked)
      invariant released == Dropped(was[..i], revoked)
    {
      assert was[..i + 1][..i] == was[..i];
      if backlog[i].msg.key in revoked {
        released := released + [backlog[i]];
      } else {
        backlog[kept] := backlog[i];
        kept := kept + 1;
      }
    }
    assert was[..backlog.Length] == was;
  }

  /** A message may be polled once an epoch: a partition's position only moves forward. */
  predicate PollEnabled(c: Config, s: State, e: PollEvent)
    requires c.Valid() && |s.channels| == c.shards
  {
    match e
    case Message(key, offset) => s.poll.Polling? && Msg(key, offset, s.epoch) !in s.log.polled
    case InvalidMessage(key, offset, _) => s.poll.Polling? && Msg(key, offset, s.epoch) !in s.log.polled
    case CheckReport => s.poll.Reporting?
    case SendReport => s.poll.Sending? && s.CommitRoom(c)
    case Dispatch => s.poll.Prepared?
    case DrainBacklog => s.poll.Polling? && s.backlog != [] &&
    (s.Current(s.backlog[0].msg) ==> s.Room(c, s.backlog[0].msg))
    case Purge => s.poll.Purging?
    case Stop => s.poll.Polling?
    case ReleaseBacklog => s.poll.Releasing?
    case CloseChannels => s.poll.Waiting? && s.gate.counter == 0
  }

  /** The loop's next state, its backlog, and the effect on what it shares. */
  datatype PollStep = PollStep(poll: PollState, backlog: seq<Item>, effect: Effect)

  function DecidePoll(c: Config, s: State, e: PollEvent): (d: PollStep)
    requires c.Valid() && |s.channels| == c.shards && PollEnabled(c, s, e)
    ensures Poppable(s, d.effect.queue)
  {
    match e
    case Message(key, offset) =>
      var m := Msg(key, offset, s.epoch);
      if key !in s.owned then PollStep(Polling, s.backlog, NoEffect)
      else if s.gate.closed then PollStep(Releasing, s.backlog, NoEffect.(gate := CloseAdmission))
      else PollStep(Prepared(s.gate.Next(m)), s.backlog, Effect(Admit(m), Untouched, Same, Registering(m)))
    case InvalidMessage(key, offset, accepted) =>
      var m := Msg(key, offset, s.epoch);
      if key !in s.owned then PollStep(Polling, s.backlog, NoEffect)
      else if accepted then PollStep(Reporting(m), s.backlog, NoEffect.(note := Invalid(m, true)))
      else PollStep(Releasing, s.backlog, Effect(CloseAdmission, Untouched, Same, Invalid(m, false)))
    case CheckReport => PollStep(if s.Current(s.poll.msg) then Sending(s.poll.msg) else Polling, s.backlog, NoEffect)
    case SendReport => PollStep(Polling, s.backlog, NoEffect.(note := Requested(s.poll.msg)))
    case Dispatch =>
      var it := s.poll.item;
      if !s.Current(it.msg) then PollStep(Polling, s.backlog, NoEffect.(gate := Done(it)))
      else if s.Room(c, it.msg) then PollStep(Polling, s.backlog, NoEffect.(queue := Push(it)))
      else PollStep(Polling, s.backlog + [it], NoEffect)
    case DrainBacklog =>
      var it := s.backlog[0];
      PollStep(Polling, s.backlog[1..], if !s.Current(it.msg) then NoEffect.(gate := Done(it))
                                        else NoEffect.(queue := Push(it)))
    case Purge =>
      var k := s.poll.shard;
      if k >= c.shards then PollStep(Polling, s.backlog, NoEffect)
      else if s.channels[k] == [] then PollStep(Purging(k + 1), s.backlog, NoEffect)
      else PollStep(s.poll, s.backlog, NoEffect.(gate := Done(s.channels[k][0]), queue := Pop(k)))
    case Stop => PollStep(Releasing, s.backlog, NoEffect.(gate := CloseAdmission))
    case ReleaseBacklog => PollStep(Waiting, [], NoEffect.(gate := DoneAll(s.backlog)))
    case CloseChannels => PollStep(Closed, s.backlog, NoEffect.(gate := ShutChannels))
  }

  function NextPoll(c: Config, s: State, e: PollEvent): (t: State)
    requires c.Valid() && |s.channels| == c.shards && PollEnabled(c, s, e)
    ensures |t.channels| == |s.channels| && t.workers == s.workers
  {
    var d := DecidePoll(c, s, e);
    Apply(c, s, d.effect).(poll := d.poll, backlog := d.backlog)
  }

  // ---- rebalances ----

  /** The callbacks may run at any time; the poll loop also acts on the revocation event itself. */
  datatype RebalanceEvent =
    | AssignedCallback(partitions: seq<TopicPartition>)
    | RevokedCallback(partitions: seq<TopicPartition>)
    | RevokedEvent(partitions: seq<TopicPartition>)

  function NextRebalance(s: State, e: RebalanceEvent): (t: State)
    ensures t.channels == s.channels && t.workers == s.workers
  {
    match e
    case AssignedCallback(partitions) => s.(epoch := s.epoch + 1, owned := set p | p in partitions)
    case RevokedCallback(partitions) =>
      s.(epoch := s.epoch + 1, owned := {}, states := s.states - s.Revoked(partitions))
    case RevokedEvent(partitions) =>
      s.(epoch := s.epoch + 1, owned := {}, states := s.states - s.Revoked(partitions),
         poll := Purging(0), backlog := Kept(s.backlog, s.Revoked(partitions)),
         gate := s.gate.DoneAll(Dropped(s.backlog, s.Revoked(partitions))))
  }

  // ---- a shard worker ----

  /** How a listener call ended; `accepted` says whether the dead-letter queue took the message. */
  datatype Outcome = Success | AlreadyProcessed | NonRetryable(accepted: bool) | Retryable | Panicked(accepted: bool)

  datatype WorkEvent =
    | Receive
    | Check(listens: bool)
    | Return(outcome: Outcome)
    | Replay(accepted: bool)
    | Wake(abort: bool)
    | Recheck
    | Resend(abort: bool)
    | CheckCommit
    | RequestCommit
    | Finish

  predicate WorkEnabled(c: Config, s: State, i: nat, e: WorkEvent)
    requires c.Valid() && |s.channels| == |s.workers| == c.shards && i < c.shards
  {
    match e
    case Receive => s.workers[i].Idle? && s.channels[i] != []
    case Check(_) => s.workers[i].Holding?
    case Return(_) => s.workers[i].Running?
    case Replay(_) => s.workers[i].Replaying?
    case Wake(abort) => s.workers[i].Sleeping? && (abort ==> s.cancelled)
    case Recheck => s.workers[i].Admitted?
    case Resend(abort) =>
      s.workers[i].Resending? && if abort then s.cancelled else s.Room(c, s.workers[i].again.msg)
    case CheckCommit => s.workers[i].Committing?
    case RequestCommit => s.workers[i].Requesting? && s.CommitRoom(c)
    case Finish => s.workers[i].Finishing?
  }

  /** The worker's next state, and the effect on what it shares. */
  datatype WorkStep = WorkStep(worker: Worker, effect: Effect)

  function DecideWork(c: Config, s: State, i: nat, e: WorkEvent): (d: WorkStep)
    requires c.Valid() && |s.channels| == |s.workers| == c.shards && i < c.shards && WorkEnabled(c, s, i, e)
    ensures Poppable(s, d.effect.queue)
  {
    var w := s.workers[i];
    match e
    case Receive => WorkStep(Holding(s.channels[i][0]), NoEffect.(queue := Pop(i)))
    case Check(listens) =>
      var m := w.item.msg;
      if !s.Current(m) then WorkStep(Finishing(w.item), NoEffect)
      else if !listens then WorkStep(Committing(w.item, false), NoEffect.(note := Unheard(m)))
      else WorkStep(Running(w.item), NoEffect.(note := Ran(m)))
    case Return(outcome) => DecideOutcome(w.item, outcome)
    case Replay(accepted) =>
      var m := w.item.msg;
      if s.Attempts(m) < MAX_REPLAY_ATTEMPTS then WorkStep(Sleeping(w.item), NoEffect.(replay := Count(m)))
      else if accepted then WorkStep(Committing(w.item, true), NoEffect.(note := DeadLettered(m)))
      else WorkStep(Finishing(w.item), NoEffect.(note := Refused(m)))
    case Wake(abort) =>
      var m := w.item.msg;
      if abort || !s.Current(m) || s.gate.closed then WorkStep(Finishing(w.item), NoEffect)
      else WorkStep(Admitted(w.item, s.gate.Next(m)), NoEffect.(gate := Admit(m)))
    case Recheck =>
      if s.Current(w.item.msg) then WorkStep(Resending(w.item, w.again), NoEffect)
      else WorkStep(Finishing(w.item), NoEffect.(gate := Done(w.again)))
    case Resend(abort) =>
      WorkStep(Finishing(w.item), if abort then NoEffect.(gate := Done(w.again)) else NoEffect.(queue := Push(w.again)))
    case CheckCommit =>
      if s.Current(w.item.msg) then WorkStep(Requesting(w.item, w.forget), NoEffect)
      else WorkStep(Finishing(w.item), NoEffect.(replay := if w.forget then Forget(w.item.msg) else Same))
    case RequestCommit =>
      WorkStep(Finishing(w.item), Effect(Keep, Untouched, if w.forget then Forget(w.item.msg)
                                                          else Same, Requested(w.item.msg)))
    case Finish => WorkStep(Idle, NoEffect.(gate := Done(w.item)))
  }

  function DecideOutcome(it: Item, outcome: Outcome): WorkStep {
    match outcome
    case Success => WorkStep(Committing(it, true), NoEffect.(note := Handled(it.msg)))
    case AlreadyProcessed => WorkStep(Committing(it, true), NoEffect.(note := Handled(it.msg)))
    case NonRetryable(accepted) =>
      if accepted then WorkStep(Committing(it, true), NoEffect.(note := DeadLettered(it.msg)))
      else WorkStep(Replaying(it), NoEffect)
    case Retryable => WorkStep(Replaying(it), NoEffect)
    case Panicked(accepted) =>
      if accepted then WorkStep(Committing(it, true), NoEffect.(note := DeadLettered(it.msg)))
      else WorkStep(Finishing(it), Effect(Keep, Untouched, Forget(it.msg), Refused(it.msg)))
  }

  function NextWork(c: Config, s: State, i: nat, e: WorkEvent): (t: State)
    requires c.Valid() && |s.channels| == |s.workers| == c.shards && i < c.shards && WorkEnabled(c, s, i, e)
    ensures |t.channels| == |s.channels| && |t.workers| == |s.workers|
  {
    var d := DecideWork(c, s, i, e);
    Apply(c, s, d.effect).(workers := s.workers[i := d.worker])
  }

  // ---- the commit coordinator ----

  datatype CommitEvent =
    | Collect
    | Commit(applied: bool, reported: bool) // the first attempt; an applied commit may be reported as failed
    | Retry(applied: bool, reported: bool)
    | GiveUp

  predicate CommitEnabled(s: State, e: CommitEvent) {
    match e
    case Collect => s.coordinator.Receiving? && s.commits != []
    case Commit(applied, reported) => s.coordinator.Emitting? && (reported ==> applied)
    case Retry(applied, reported) =>
      s.coordinator.Retrying? && s.coordinator.attempts < MAX_COMMIT_ATTEMPTS && (reported ==> applied)
    case GiveUp => s.coordinator.Retrying? && (s.coordinator.attempts >= MAX_COMMIT_ATTEMPTS || s.cancelled)
  }

  function Land(s: State, m: Msg, attempt: nat, applied: bool): seq<BrokerCommit> {
    if applied then s.broker + [BrokerCommit(m, attempt, s.epoch)] else s.broker
  }

  function NextCommit(s: State, e: CommitEvent): (t: State)
    requires CommitEnabled(s, e)
    ensures t.channels == s.channels && t.workers == s.workers && t.poll == s.poll && t.backlog == s.backlog
    ensures t.gate == s.gate
  {
    match e
    case Collect =>
      var m := s.commits[0];
      var req := Request(m.offset, m);
      if !s.Current(m) then s.(commits := s.commits[1..])
      else
        s.(commits := s.commits[1..], coordinator := Emitting(Complete(StateFor(s.states, m.key, m.offset), req).0),
           states := Settled(s.states, m.key, req))
    case Commit(applied, reported) =>
      var pending := s.coordinator.pending;
      if pending == [] then s.(coordinator := Receiving)
      else
        var m := pending[0].payload;
        if !s.Current(m) then s.(coordinator := Emitting(pending[1..]))
        else
          s.(coordinator := if reported || s.cancelled then Emitting(pending[1..])
                            else Retrying(pending[0], 1, pending[1..]),
             broker := Land(s, m, 1, applied), log := s.log.(tried := s.log.tried + {m}))
    case Retry(applied, reported) =>
      var r := s.coordinator;
      s.(coordinator := if reported || s.cancelled then Emitting(r.rest) else r.(attempts := r.attempts + 1),
         broker := Land(s, r.req.payload, r.attempts + 1, applied))
    case GiveUp => s.(coordinator := Emitting(s.coordinator.rest))
  }

  // ---- runs ----

  datatype Event = Rebalance(rebalance: RebalanceEvent) | Poll(poll: PollEvent) | Work(shard: nat, work: WorkEvent)
    | Coordinate(commit: CommitEvent) | Cancel

  predicate Shaped(c: Config, s: State) {
    c.Valid() && |s.channels| == |s.workers| == c.shards
  }

  predicate Enabled(c: Config, s: State, e: Event)
    requires Shaped(c, s)
  {
    match e
    case Rebalance(r) => r.RevokedEvent? ==> s.poll.Polling?
    case Poll(p) => PollEnabled(c, s, p)
    case Work(i, w) => i < c.shards && WorkEnabled(c, s, i, w)
    case Coordinate(k) => CommitEnabled(s, k)
    case Cancel => true
  }

  function Next(c: Config, s: State, e: Event): (t: State)
    requires Shaped(c, s) && Enabled(c, s, e)
    ensures Shaped(c, t)
  {
    match e
    case Rebalance(r) => NextRebalance(s, r)
    case Poll(p) => NextPoll(c, s, p)
    case Work(i, w) => NextWork(c, s, i, w)
    case Coordinate(k) => NextCommit(s, k)
    case Cancel => s.(cancelled := true)
  }

  /** The events can happen one after the other, in any interleaving of the goroutines. */
  predicate Possible(c: Config, s: State, es: seq<Event>)
    requires Shaped(c, s)
    decreases |es|
  {
    es == [] || (Enabled(c, s, es[0]) && Possible(c, Next(c, s, es[0]), es[1..]))
  }

  function After(c: Config, s: State, es: seq<Event>): (t: State)
    requires Shaped(c, s) && Possible(c, s, es)
    ensures Shaped(c, t)
    decreases |es|
  {
    if es == [] then s else After(c, Next(c, s, es[0]), es[1..])
  }
}
