/** The wait-group accounting of subscriber.go: every admission is held in exactly one place or
    has been released exactly once, so the channels close only when nothing is in flight. */
module SubscriberAccounting {
  import opened Assignment
  import opened CommitBuffer
  import opened Subscriber

  // ---- measuring what is in flight ----

  /** What to count: the copies of one admission, or all admissions. */
  datatype Measure = CopiesOf(item: Item) | Everything {
    function One(it: Item): nat {
      if this == CopiesOf(it) || this == Everything then 1 else 0
    }

    function Items(q: seq<Item>): nat {
      if q == [] then 0 else Items(q[..|q| - 1]) + One(q[|q| - 1])
    }

    function Queues(channels: seq<seq<Item>>): nat {
      if channels == [] then 0 else Queues(channels[..|channels| - 1]) + Items(channels[|channels| - 1])
    }

    function Load(w: Worker): nat {
      match w
      case Idle => 0
      case Admitted(it, again) => One(it) + One(again)
      case Resending(it, again) => One(it) + One(again)
      case _ => One(w.item)
    }

    function Loads(workers: seq<Worker>): nat {
      if workers == [] then 0 else Loads(workers[..|workers| - 1]) + Load(workers[|workers| - 1])
    }

    /** Prepared message, backlog, shard channels and workers. */
    function Held(s: State): nat {
      (if s.poll.Prepared? then One(s.poll.item) else 0) + Items(s.backlog) + Queues(s.channels) + Loads(s.workers)
    }

    /** Admitted and not yet released; for everything, that is the wait-group counter. */
    function Net(g: Gate): int {
      match this
      case CopiesOf(_) => Items(g.admitted) - Items(g.released)
      case Everything => g.counter
    }
  }

  lemma {:induction false} ItemsPop(mu: Measure, q: seq<Item>)
    requires q != []
    ensures mu.Items(q) == mu.One(q[0]) + mu.Items(q[1..])
  {
    var n := |q| - 1;
    if n > 0 {
      ItemsPop(mu, q[..n]);
      assert q[1..][..n - 1] == q[..n][1..];
    }
  }

  lemma {:induction false} QueuesUpdate(mu: Measure, channels: seq<seq<Item>>, i: nat, q: seq<Item>)
    requires i < |channels|
    ensures mu.Queues(channels[i := q]) + mu.Items(channels[i]) == mu.Queues(channels) + mu.Items(q)
  {
    var n := |channels| - 1;
    if i == n {
      assert channels[i := q][..n] == channels[..n];
    } else {
      QueuesUpdate(mu, channels[..n], i, q);
      assert channels[i := q][..n] == channels[..n][i := q];
    }
  }

  lemma {:induction false} LoadsUpdate(mu: Measure, workers: seq<Worker>, i: nat, w: Worker)
    requires i < |workers|
    ensures mu.Loads(workers[i := w]) + mu.Load(workers[i]) == mu.Loads(workers) + mu.Load(w)
    ensures mu.Load(workers[i]) <= mu.Loads(workers)
  {
    var n := |workers| - 1;
    if i == n {
      assert workers[i := w][..n] == workers[..n];
    } else {
      LoadsUpdate(mu, workers[..n], i, w);
      assert workers[i := w][..n] == workers[..n][i := w];
    }
  }

  lemma {:induction false} NothingHeld(mu: Measure, channels: seq<seq<Item>>, workers: seq<Worker>)
    requires forall i {:trigger channels[i]} :: 0 <= i < |channels| ==> channels[i] == []
    requires forall i {:trigger workers[i]} :: 0 <= i < |workers| ==> workers[i] == Idle
    ensures mu.Queues(channels) == 0 && mu.Loads(workers) == 0
    decreases |channels| + |workers|
  {
    if channels != [] {
      NothingHeld(mu, channels[..|channels| - 1], []);
    }
    if workers != [] {
      NothingHeld(mu, [], workers[..|workers| - 1]);
    }
  }

  // ---- the gate ----

  lemma {:induction false} DoneAllNet(mu: Measure, g: Gate, items: seq<Item>)
    ensures mu.Net(g.DoneAll(items)) == mu.Net(g) - mu.Items(items)
  {
    if items != [] {
      var n := |items| - 1;
      DoneAllNet(mu, g, items[..n]);
    }
  }

  lemma {:induction false} SplitBacklog(mu: Measure, items: seq<Item>, revoked: set<TopicPartition>)
    ensures mu.Items(items) == mu.Items(Kept(items, revoked)) + mu.Items(Dropped(items, revoked))
  {
    if items != [] {
      var n := |items| - 1;
      SplitBacklog(mu, items[..n], revoked);
    }
  }

  lemma {:induction false} ItemsLength(q: seq<Item>)
    ensures Everything.Items(q) == |q|
  {
    if q != [] {
      ItemsLength(q[..|q| - 1]);
    }
  }

  // ---- every step moves the gate and the held admissions together ----

  function GateDelta(mu: Measure, g: Gate, step: GateStep): int {
    match step
    case Admit(m) => mu.One(g.Next(m))
    case Done(it) => -(mu.One(it) as int)
    case DoneAll(items) => -(mu.Items(items) as int)
    case _ => 0
  }

  function QueueDelta(mu: Measure, s: State, step: QueueStep): int
    requires Poppable(s, step)
  {
    match step
    case Untouched => 0
    case Push(it) => mu.One(it)
    case Pop(k) => -(mu.One(s.channels[k][0]) as int)
  }

  lemma GateAfterNet(mu: Measure, g: Gate, step: GateStep)
    ensures mu.Net(GateAfter(g, step)) == mu.Net(g) + GateDelta(mu, g, step)
  {
    if step.DoneAll? {
      DoneAllNet(mu, g, step.items);
    }
  }

  lemma QueuesAfterTotal(mu: Measure, c: Config, s: State, step: QueueStep)
    requires Shaped(c, s) && Poppable(s, step)
    ensures mu.Queues(QueuesAfter(c, s.channels, step)) == mu.Queues(s.channels) + QueueDelta(mu, s, step)
  {
    match step
    case Untouched =>
    case Push(it) =>
      var k := c.Shard(it.msg);
      QueuesUpdate(mu, s.channels, k, s.channels[k] + [it]);
    case Pop(k) =>
      ItemsPop(mu, s.channels[k]);
      QueuesUpdate(mu, s.channels, k, s.channels[k][1..]);
  }

  /** What a worker holds changes by exactly what its effect admits, takes, sends and releases. */
  lemma WorkerBalance(mu: Measure, c: Config, s: State, i: nat, e: WorkEvent)
    requires Shaped(c, s) && i < c.shards && WorkEnabled(c, s, i, e)
    ensures var d := DecideWork(c, s, i, e);
            mu.Load(d.worker) - mu.Load(s.workers[i]) ==
            GateDelta(mu, s.gate, d.effect.gate) - QueueDelta(mu, s, d.effect.queue)
  {
  }

  function PollLoad(mu: Measure, p: PollState, backlog: seq<Item>): nat {
    (if p.Prepared? then mu.One(p.item) else 0) + mu.Items(backlog)
  }

  lemma PollBalance(mu: Measure, c: Config, s: State, e: PollEvent)
    requires Shaped(c, s) && PollEnabled(c, s, e)
    ensures var d := DecidePoll(c, s, e);
            PollLoad(mu, d.poll, d.backlog) == PollLoad(mu, s.poll, s.backlog) +
            GateDelta(mu, s.gate, d.effect.gate) - QueueDelta(mu, s, d.effect.queue)
  {
    if e.Dispatch? {
      DispatchBalance(mu, c, s);
    } else if e.DrainBacklog? {
      ItemsPop(mu, s.backlog);
    }
  }

  lemma DispatchBalance(mu: Measure, c: Config, s: State)
    requires Shaped(c, s) && PollEnabled(c, s, Dispatch)
    ensures var d := DecidePoll(c, s, Dispatch);
            PollLoad(mu, d.poll, d.backlog) == PollLoad(mu, s.poll, s.backlog) +
            GateDelta(mu, s.gate, d.effect.gate) - QueueDelta(mu, s, d.effect.queue)
  {
  }

  /** From s to t the gate and the held admissions changed by the same amount. */
  predicate Moved(mu: Measure, s: State, t: State) {
    mu.Net(t.gate) - mu.Net(s.gate) == mu.Held(t) - mu.Held(s)
  }

  lemma RebalanceDelta(mu: Measure, s: State, e: RebalanceEvent)
    requires e.RevokedEvent? ==> s.poll.Polling?
    ensures Moved(mu, s, NextRebalance(s, e))
  {
    if e.RevokedEvent? {
      SplitBacklog(mu, s.backlog, s.Revoked(e.partitions));
      DoneAllNet(mu, s.gate, Dropped(s.backlog, s.Revoked(e.partitions)));
    }
  }

  lemma PollDelta(mu: Measure, c: Config, s: State, e: PollEvent)
    requires Shaped(c, s) && PollEnabled(c, s, e)
    ensures Moved(mu, s, NextPoll(c, s, e))
  {
    var d := DecidePoll(c, s, e);
    PollBalance(mu, c, s, e);
    ApplyDelta(mu, c, s, d.effect);
  }

  lemma WorkDelta(mu: Measure, c: Config, s: State, i: nat, e: WorkEvent)
    requires Shaped(c, s) && i < c.shards && WorkEnabled(c, s, i, e)
    ensures Moved(mu, s, NextWork(c, s, i, e))
  {
    var d := DecideWork(c, s, i, e);
    WorkerBalance(mu, c, s, i, e);
    ApplyDelta(mu, c, s, d.effect);
    LoadsUpdate(mu, s.workers, i, d.worker);
  }

  lemma ApplyDelta(mu: Measure, c: Config, s: State, eff: Effect)
    requires Shaped(c, s) && Poppable(s, eff.queue)
    ensures mu.Net(Apply(c, s, eff).gate) == mu.Net(s.gate) + GateDelta(mu, s.gate, eff.gate)
    ensures mu.Queues(Apply(c, s, eff).channels) == mu.Queues(s.channels) + QueueDelta(mu, s, eff.queue)
  {
    GateAfterNet(mu, s.gate, eff.gate);
    QueuesAfterTotal(mu, c, s, eff.queue);
  }

  // ---- the invariant ----

  /** Tickets number the admissions, so no two admissions are the same item. */
  ghost predicate Numbered(admitted: seq<Item>) {
    forall i {:trigger admitted[i]} :: 0 <= i < |admitted| ==> admitted[i].ticket == i
  }

  /** Where shutdown stands: admission stops before the wait, and closing comes after it. */
  predicate Staged(s: State) {
    && s.gate.closed == (s.poll.Releasing? || s.poll.Waiting? || s.poll.Closed?)
    && s.gate.shut == s.poll.Closed?
    && (s.gate.shut ==> s.gate.counter == 0)
  }

  ghost predicate Balanced(s: State) {
    forall mu: Measure {:trigger mu.Net(s.gate)} {:trigger mu.Held(s)} :: mu.Net(s.gate) == mu.Held(s)
  }

  ghost predicate Accounted(c: Config, s: State) {
    Shaped(c, s) && Balanced(s) && !s.gate.panicked && Numbered(s.gate.admitted) && Staged(s)
  }

  lemma InitAccounted(c: Config)
    requires c.Valid()
    ensures Accounted(c, Init(c))
  {
    var s := Init(c);
    forall mu: Measure
      ensures mu.Net(s.gate) == mu.Held(s)
    {
      NothingHeld(mu, s.channels, s.workers);
    }
  }

  lemma ApplySafe(c: Config, s: State, eff: Effect)
    requires Shaped(c, s) && Poppable(s, eff.queue) && !s.gate.panicked && Numbered(s.gate.admitted)
    requires eff.gate.Done? ==> s.gate.counter > 0
    requires eff.gate.DoneAll? ==> s.gate.counter >= |eff.gate.items|
    requires eff.queue.Push? || eff.note.Requested? || eff.gate.ShutChannels? ==> !s.gate.shut
    requires eff.queue.Push? || eff.note.Requested? ==> !eff.gate.ShutChannels?
    ensures var g := Apply(c, s, eff).gate;
            && !g.panicked && Numbered(g.admitted)
            && g.closed == (s.gate.closed || eff.gate.CloseAdmission?)
            && g.shut == (s.gate.shut || eff.gate.ShutChannels?)
  {
    if eff.gate.DoneAll? {
      DoneAllGate(s.gate, eff.gate.items);
    }
  }

  /** What is about to be released is held, so the counter covers it. */
  lemma WorkerCovered(c: Config, s: State, i: nat)
    requires Accounted(c, s) && i < c.shards
    ensures Everything.Load(s.workers[i]) <= s.gate.counter
  {
    assert Everything.Net(s.gate) == Everything.Held(s);
    LoadsUpdate(Everything, s.workers, i, Idle);
  }

  lemma PollCovered(c: Config, s: State)
    requires Accounted(c, s)
    ensures PollLoad(Everything, s.poll, s.backlog) + Everything.Queues(s.channels) <= s.gate.counter
    ensures Everything.Items(s.backlog) == |s.backlog|
  {
    assert Everything.Net(s.gate) == Everything.Held(s);
    ItemsLength(s.backlog);
  }

  lemma ChannelCovered(c: Config, s: State, k: nat)
    requires Accounted(c, s) && k < c.shards && s.channels[k] != []
    ensures s.gate.counter > 0
  {
    PollCovered(c, s);
    QueuesUpdate(Everything, s.channels, k, []);
  }

  lemma WorkSafe(c: Config, s: State, i: nat, e: WorkEvent)
    requires Accounted(c, s) && i < c.shards && WorkEnabled(c, s, i, e)
    ensures var t := NextWork(c, s, i, e); !t.gate.panicked && Numbered(t.gate.admitted) && Staged(t)
  {
    WorkerCovered(c, s, i);
    if e.Receive? {
      ChannelCovered(c, s, i);
    }
    assert s.gate.counter > 0;
    ApplySafe(c, s, DecideWork(c, s, i, e).effect);
  }

  lemma PollSafe(c: Config, s: State, e: PollEvent)
    requires Accounted(c, s) && PollEnabled(c, s, e)
    ensures var t := NextPoll(c, s, e); !t.gate.panicked && Numbered(t.gate.admitted) && Staged(t)
  {
    PollCovered(c, s);
    if e.Purge? && s.poll.shard < c.shards && s.channels[s.poll.shard] != [] {
      ChannelCovered(c, s, s.poll.shard);
    }
    ApplySafe(c, s, DecidePoll(c, s, e).effect);
  }

  lemma {:induction false} DroppedAtMost(items: seq<Item>, revoked: set<TopicPartition>)
    ensures |Dropped(items, revoked)| <= |items|
  {
    if items != [] {
      DroppedAtMost(items[..|items| - 1], revoked);
    }
  }

  lemma RebalanceSafe(c: Config, s: State, e: RebalanceEvent)
    requires Accounted(c, s) && (e.RevokedEvent? ==> s.poll.Polling?)
    ensures var t := NextRebalance(s, e); !t.gate.panicked && Numbered(t.gate.admitted) && Staged(t)
  {
    PollCovered(c, s);
    if e.RevokedEvent? {
      DroppedAtMost(s.backlog, s.Revoked(e.partitions));
      DoneAllGate(s.gate, Dropped(s.backlog, s.Revoked(e.partitions)));
    }
  }

  lemma StepSafe(c: Config, s: State, e: Event)
    requires Accounted(c, s) && Enabled(c, s, e)
    ensures var t := Next(c, s, e); !t.gate.panicked && Numbered(t.gate.admitted) && Staged(t)
  {
    match e
    case Rebalance(r) => RebalanceSafe(c, s, r);
    case Poll(p) => PollSafe(c, s, p);
    case Work(i, w) => WorkSafe(c, s, i, w);
    case _ =>
  }

  lemma StepDelta(mu: Measure, c: Config, s: State, e: Event)
    requires Shaped(c, s) && Enabled(c, s, e)
    ensures Moved(mu, s, Next(c, s, e))
  {
    match e
    case Rebalance(r) => RebalanceDelta(mu, s, r);
    case Poll(p) => PollDelta(mu, c, s, p);
    case Work(i, w) => WorkDelta(mu, c, s, i, w);
    case _ =>
  }

  lemma StepAccounted(c: Config, s: State, e: Event)
    requires Accounted(c, s) && Enabled(c, s, e)
    ensures Accounted(c, Next(c, s, e))
  {
    var t := Next(c, s, e);
    StepSafe(c, s, e);
    forall mu: Measure
      ensures mu.Net(t.gate) == mu.Held(t)
    {
      StepDelta(mu, c, s, e);
      assert mu.Net(s.gate) == mu.Held(s);
    }
  }

  lemma {:induction false} RunAccounted(c: Config, s: State, es: seq<Event>)
    requires Accounted(c, s) && Possible(c, s, es)
    ensures Accounted(c, After(c, s, es))
    decreases |es|
  {
    if es != [] {
      StepAccounted(c, s, es[0]);
      RunAccounted(c, Next(c, s, es[0]), es[1..]);
    }
  }

  // ---- admission stops ----

  lemma GateStaysClosed(g: Gate, step: GateStep)
    requires g.closed && !step.Admit?
    ensures GateAfter(g, step).closed && GateAfter(g, step).admitted == g.admitted
  {
    if step.DoneAll? {
      DoneAllGate(g, step.items);
    }
  }

  lemma StepAdmitsNothing(c: Config, s: State, e: Event)
    requires Shaped(c, s) && Enabled(c, s, e) && s.gate.closed
    ensures Next(c, s, e).gate.closed && Next(c, s, e).gate.admitted == s.gate.admitted
  {
    match e
    case Rebalance(r) =>
      if r.RevokedEvent? {
        DoneAllGate(s.gate, Dropped(s.backlog, s.Revoked(r.partitions)));
      }
    case Poll(p) => GateStaysClosed(s.gate, DecidePoll(c, s, p).effect.gate);
    case Work(i, w) => GateStaysClosed(s.gate, DecideWork(c, s, i, w).effect.gate);
    case _ =>
  }

  /** Once the poll loop has stopped admission nothing is admitted any more, replays included. */
  lemma {:induction false} ClosedAdmitsNothing(c: Config, s: State, es: seq<Event>)
    requires Shaped(c, s) && Possible(c, s, es) && s.gate.closed
    ensures After(c, s, es).gate.closed && After(c, s, es).gate.admitted == s.gate.admitted
    decreases |es|
  {
    if es != [] {
      StepAdmitsNothing(c, s, es[0]);
      ClosedAdmitsNothing(c, Next(c, s, es[0]), es[1..]);
    }
  }

  // ---- what it means ----

  function InChannels(channels: seq<seq<Item>>): nat {
    if channels == [] then 0 else InChannels(channels[..|channels| - 1]) + |channels[|channels| - 1]|
  }

  /** Messages held by workers, and replays admitted but not yet sent. */
  function InWorkers(workers: seq<Worker>): nat {
    if workers == [] then 0
    else
      var w := workers[|workers| - 1];
      InWorkers(workers[..|workers| - 1]) + if w.Idle? then 0 else if w.Admitted? || w.Resending? then 2 else 1
  }

  lemma {:induction false} ChannelsLength(channels: seq<seq<Item>>)
    ensures Everything.Queues(channels) == InChannels(channels)
  {
    if channels != [] {
      ChannelsLength(channels[..|channels| - 1]);
      ItemsLength(channels[|channels| - 1]);
    }
  }

  lemma {:induction false} WorkersLength(workers: seq<Worker>)
    ensures Everything.Loads(workers) == InWorkers(workers)
  {
    if workers != [] {
      WorkersLength(workers[..|workers| - 1]);
    }
  }

  lemma {:induction false} ItemsMultiplicity(q: seq<Item>, it: Item)
    ensures CopiesOf(it).Items(q) == multiset(q)[it]
  {
    if q != [] {
      ItemsMultiplicity(q[..|q| - 1], it);
      assert q == q[..|q| - 1] + [q[|q| - 1]];
    }
  }

  lemma {:induction false} NumberedOnce(admitted: seq<Item>, k: nat)
    requires Numbered(admitted) && k < |admitted|
    ensures multiset(admitted)[admitted[k]] == 1
  {
    var rest := admitted[..k] + admitted[k + 1..];
    assert admitted == admitted[..k] + [admitted[k]] + admitted[k + 1..];
    assert admitted[k] !in rest;
    assert multiset(admitted) == multiset(admitted[..k]) + multiset{admitted[k]} + multiset(admitted[k + 1..]);
  }

  /** In every run the counter is exactly what is in flight, and nothing ever panics: no send on
      a closed channel, no second close, no negative counter. */
  lemma CounterIsInFlight(c: Config, es: seq<Event>)
    requires c.Valid() && Possible(c, Init(c), es)
    ensures var s := After(c, Init(c), es);
            && s.gate.counter == (if s.poll.Prepared? then 1 else 0) + |s.backlog| + InChannels(s.channels) +
               InWorkers(s.workers)
            && !s.gate.panicked
  {
    var s := After(c, Init(c), es);
    InitAccounted(c);
    RunAccounted(c, Init(c), es);
    assert Everything.Net(s.gate) == Everything.Held(s);
    ItemsLength(s.backlog);
    ChannelsLength(s.channels);
    WorkersLength(s.workers);
  }

  /** In every run each admission is held in one place or has been released once, never both. */
  lemma ReleasedExactlyOnce(c: Config, es: seq<Event>, k: nat)
    requires c.Valid() && Possible(c, Init(c), es) && k < |After(c, Init(c), es).gate.admitted|
    ensures var s := After(c, Init(c), es);
            CopiesOf(s.gate.admitted[k]).Held(s) + multiset(s.gate.released)[s.gate.admitted[k]] == 1
  {
    var s := After(c, Init(c), es);
    var it := s.gate.admitted[k];
    InitAccounted(c);
    RunAccounted(c, Init(c), es);
    assert CopiesOf(it).Net(s.gate) == CopiesOf(it).Held(s);
    ItemsMultiplicity(s.gate.admitted, it);
    ItemsMultiplicity(s.gate.released, it);
    NumberedOnce(s.gate.admitted, k);
  }

  /** Channels close only with nothing in flight: everything ever admitted has been released. */
  lemma ClosedMeansAllReleased(c: Config, es: seq<Event>)
    requires c.Valid() && Possible(c, Init(c), es) && After(c, Init(c), es).poll.Closed?
    ensures var s := After(c, Init(c), es);
            && multiset(s.gate.released) == multiset(s.gate.admitted)
            && s.backlog == [] && InChannels(s.channels) == 0 && InWorkers(s.workers) == 0
  {
    var s := After(c, Init(c), es);
    CounterIsInFlight(c, es);
    InitAccounted(c);
    RunAccounted(c, Init(c), es);
    ChannelsLength(s.channels);
    WorkersLength(s.workers);
    forall it
      ensures multiset(s.gate.released)[it] == multiset(s.gate.admitted)[it]
    {
      assert CopiesOf(it).Net(s.gate) == CopiesOf(it).Held(s);
      NoneHeld(it, s.channels, s.workers);
      ItemsMultiplicity(s.gate.admitted, it);
      ItemsMultiplicity(s.gate.released, it);
    }
  }

  lemma {:induction false} NoneHeld(it: Item, channels: seq<seq<Item>>, workers: seq<Worker>)
    requires InChannels(channels) == 0 && InWorkers(workers) == 0
    ensures CopiesOf(it).Queues(channels) == 0 && CopiesOf(it).Loads(workers) == 0
    decreases |channels| + |workers|
  {
    if channels != [] {
      NoneHeld(it, channels[..|channels| - 1], []);
    }
    if workers != [] {
      NoneHeld(it, [], workers[..|workers| - 1]);
    }
  }
}
