/** Runs of the commit table of subscriber.go: what one partition's state stands for, and when a drain
    commits past an offset whose work has not finished. */
module CommitLifetimes {
  import opened Assignment
  import opened CommitBuffer

  // ---- runs of the table ----

  datatype TableStep<M> =
    | Register(key: TopicPartition, offset: int)
    | Settle(key: TopicPartition, req: Request<M>)
    | Clear(keys: set<TopicPartition>)

  function TableNext<M>(states: States<M>, step: TableStep<M>): States<M> {
    match step
    case Register(key, offset) => Registered(states, key, offset)
    case Settle(key, req) => Settled(states, key, req)
    case Clear(keys) => states - keys
  }

  function TableAfter<M>(steps: seq<TableStep<M>>): States<M> {
    if steps == [] then map[] else TableNext(TableAfter(steps[..|steps| - 1]), steps[|steps| - 1])
  }

  /** What has happened to a partition since it was last cleared: which offsets were registered and
      which finished, where its lifetime in progress or last lifetime started, and whether a state
      was ever deleted while a registered offset was unfinished. A lifetime starts at the first
      registration or completion that finds no state. */
  datatype Track = Track(start: int, registered: set<int>, finished: set<int>, early: bool)

  predicate Unfinished(t: Track) {
    exists r :: r in t.registered && r !in t.finished
  }

  function TrackOf<M>(steps: seq<TableStep<M>>, key: TopicPartition): Track {
    if steps == [] then Track(0, {}, {}, false)
    else
      var (before, last) := (steps[..|steps| - 1], steps[|steps| - 1]);
      TrackNext(TrackOf(before, key), key in TableAfter(before), key in TableAfter(steps), last, key)
  }

  function TrackNext<M>(t: Track, existed: bool, remains: bool, step: TableStep<M>, key: TopicPartition): Track {
    match step
    case Register(k, offset) =>
      if k != key then t else t.(start := if existed then t.start else offset, registered := t.registered + {offset})
    case Settle(k, req) =>
      if k != key then t
      else
        var finished := t.finished + {req.offset};
        t.(start := if existed then t.start else req.offset, finished := finished,
           early := t.early || (!remains && Unfinished(t.(finished := finished))))
    case Clear(keys) => if key in keys then Track(0, {}, {}, false) else t
  }

  predicate Clears<M>(step: TableStep<M>, key: TopicPartition) {
    step.Clear? && key in step.keys
  }

  predicate Finishes<M>(step: TableStep<M>, key: TopicPartition, o: int) {
    step.Settle? && step.key == key && step.req.offset == o
  }

  /** The track counts what the steps since the partition's last clearing registered and finished. */
  lemma {:induction false} TrackMeaning<M>(steps: seq<TableStep<M>>, key: TopicPartition) returns (j: nat)
    ensures j <= |steps| && (j > 0 ==> Clears(steps[j - 1], key))
    ensures forall i :: j <= i < |steps| ==> !Clears(steps[i], key)
    ensures forall o :: o in TrackOf(steps, key).registered <==>
                        exists i :: j <= i < |steps| && steps[i] == Register(key, o)
    ensures forall o :: o in TrackOf(steps, key).finished <==>
                        exists i :: j <= i < |steps| && Finishes(steps[i], key, o)
  {
    j := 0;
    if steps != [] {
      var n := |steps| - 1;
      j := TrackMeaning(steps[..n], key);
      var (was, t) := (TrackOf(steps[..n], key), TrackOf(steps, key));
      if Clears(steps[n], key) {
        j := n + 1;
      } else {
        assert forall o :: o in t.registered <==> o in was.registered || steps[n] == Register(key, o);
        assert forall o :: o in t.finished <==> o in was.finished || Finishes(steps[n], key, o);
      }
    }
  }

  // ---- a state is a lifetime of finished work ----

  /** The state of a lifetime that started at `start`: what it emitted and what it buffers has finished. */
  ghost predicate Grounded<M>(start: int, state: CommitState<M>, finished: set<int>) {
    && Keyed(state) && start <= state.nextOffset
    && (forall o {:trigger o in finished} :: start <= o < state.nextOffset ==> o in finished)
    && (forall o {:trigger o in finished} {:trigger o in state.ready} :: o in state.ready ==> o in finished)
  }

  lemma CompleteGrounded<M>(start: int, state: CommitState<M>, finished: set<int>, req: Request<M>)
    requires Grounded(start, state, finished)
    ensures Grounded(start, Complete(state, req).1, finished + {req.offset})
  {
    var full := Insert(state, req);
    DrainMeaning(full);
    var end := Drain(full).1;
    forall o {:trigger o in finished + {req.offset}} | start <= o < end.nextOffset
      ensures o in finished + {req.offset}
    {
      if o >= state.nextOffset {
        assert o in full.ready;
      } else {
        assert o in finished;
      }
    }
  }

  /** In every run each partition's state is a lifetime in progress of finished work, started where
      the track says. */
  lemma {:induction false} TableGrounded<M>(steps: seq<TableStep<M>>, key: TopicPartition)
    requires key in TableAfter(steps)
    ensures Grounded(TrackOf(steps, key).start, TableAfter(steps)[key], TrackOf(steps, key).finished)
    ensures var t := TrackOf(steps, key); t.start in t.registered + t.finished
  {
    var (before, last) := (steps[..|steps| - 1], steps[|steps| - 1]);
    if key in TableAfter(before) {
      TableGrounded(before, key);
    }
    if last.Settle? && last.key == key {
      var t := TrackOf(before, key);
      var start := if key in TableAfter(before) then t.start else last.req.offset;
      CompleteGrounded(start, StateFor(TableAfter(before), key, last.req.offset), t.finished, last.req);
    }
  }

  // ---- committing past an unfinished offset ----

  /** Some registered offset below this one has not finished. */
  ghost predicate PassesUnfinished(offset: int, t: Track) {
    exists r :: r in t.registered && r < offset && r !in t.finished
  }

  /** In every run: a completion commits an offset past unfinished work exactly when some registered
      offset below the start of its lifetime has not finished. */
  lemma PassesUnfinishedIff<M>(steps: seq<TableStep<M>>, key: TopicPartition, req: Request<M>, i: nat)
    requires i < |Complete(StateFor(TableAfter(steps), key, req.offset), req).0|
    ensures var t := TrackOf(steps + [Settle(key, req)], key);
            PassesUnfinished(Complete(StateFor(TableAfter(steps), key, req.offset), req).0[i].offset, t) <==>
            PassesUnfinished(t.start, t)
  {
    var all := steps + [Settle(key, req)];
    assert all[..|steps|] == steps;
    var state := StateFor(TableAfter(steps), key, req.offset);
    if key in TableAfter(steps) {
      TableGrounded(steps, key);
    }
    var (was, t) := (TrackOf(steps, key), TrackOf(all, key));
    assert Grounded(t.start, state, was.finished);
    var full := Insert(state, req);
    DrainMeaning(full);
    var out := Drain(full).0;
    forall o | t.start <= o < out[i].offset
      ensures o in t.finished
    {
      if o >= state.nextOffset {
        assert o in full.ready;
        assert o in state.ready ==> o in was.finished;
      } else {
        assert o in was.finished;
      }
    }
  }

  /** The offset lies above everything registered or finished. */
  ghost predicate AboveAll(offset: int, t: Track) {
    forall o :: o in t.registered + t.finished ==> o < offset
  }

  /** The consumer's position moves forward: what is registered lies above all that came before. */
  ghost predicate InOrder<M>(steps: seq<TableStep<M>>, key: TopicPartition) {
    steps == [] ||
    var (before, last) := (steps[..|steps| - 1], steps[|steps| - 1]);
    && InOrder(before, key)
    && (last.Register? && last.key == key ==> AboveAll(last.offset, TrackOf(before, key)))
  }

  /** What a run keeps as long as no state is deleted early. */
  lemma {:induction false} NothingBelowStart<M>(steps: seq<TableStep<M>>, key: TopicPartition)
    requires InOrder(steps, key) && !TrackOf(steps, key).early
    ensures var t := TrackOf(steps, key);
            if key in TableAfter(steps) then !PassesUnfinished(t.start, t) else !Unfinished(t)
  {
    if steps != [] {
      var (before, last) := (steps[..|steps| - 1], steps[|steps| - 1]);
      if !TrackOf(before, key).early {
        NothingBelowStart(before, key);
        if key in TableAfter(before) {
          TableGrounded(before, key);
        }
      }
    }
  }

  /** Early deletion is the only cause: unless some state of the partition was deleted while a
      registered offset was unfinished, no completion ever commits past unfinished work. */
  lemma OnlyEarlyDeletionPasses<M>(steps: seq<TableStep<M>>, key: TopicPartition, req: Request<M>, i: nat)
    requires i < |Complete(StateFor(TableAfter(steps), key, req.offset), req).0|
    requires InOrder(steps, key) && !TrackOf(steps, key).early
    ensures !PassesUnfinished(Complete(StateFor(TableAfter(steps), key, req.offset), req).0[i].offset,
                              TrackOf(steps + [Settle(key, req)], key))
  {
    assert (steps + [Settle(key, req)])[..|steps|] == steps;
    PassesUnfinishedIff(steps, key, req, i);
    NothingBelowStart(steps, key);
  }

  lemma Snoc<M>(before: seq<TableStep<M>>, step: TableStep<M>, key: TopicPartition)
    ensures var steps := before + [step];
            && TableAfter(steps) == TableNext(TableAfter(before), step)
            && TrackOf(steps, key) == TrackNext(TrackOf(before, key), key in TableAfter(before),
                                                key in TableAfter(steps), step, key)
            && (InOrder(before, key) && !step.Register? ==> InOrder(steps, key))
            && (InOrder(before, key) && step.Register? && AboveAll(step.offset, TrackOf(before, key)) ==>
                  InOrder(steps, key))
  {
    assert (before + [step])[..|before|] == before;
  }

  /** And it always matters: with the state deleted, the next offset polled and finished is committed
      past unfinished work exactly when some registered offset is unfinished. */
  lemma DeletionExposesIff<M>(steps: seq<TableStep<M>>, key: TopicPartition, req: Request<M>)
    requires key !in TableAfter(steps)
    requires AboveAll(req.offset, TrackOf(steps, key))
    ensures var next := steps + [Register(key, req.offset)];
            && Complete(StateFor(TableAfter(next), key, req.offset), req).0 == [req]
            && (PassesUnfinished(req.offset, TrackOf(next + [Settle(key, req)], key))
                <==> Unfinished(TrackOf(steps, key)))
  {
    var next := steps + [Register(key, req.offset)];
    Snoc(steps, Register(key, req.offset), key);
    Snoc(next, Settle(key, req), key);
    AloneDrains(req);
    var (was, t) := (TrackOf(steps, key), TrackOf(next + [Settle(key, req)], key));
    assert StateFor(TableAfter(next), key, req.offset) == Fresh<M>(req.offset);
    Exposed(was, t, req.offset);
  }

  lemma Exposed(was: Track, t: Track, offset: int)
    requires t.registered == was.registered + {offset} && t.finished == was.finished + {offset}
    requires AboveAll(offset, was)
    ensures PassesUnfinished(offset, t) <==> Unfinished(was)
  {
    if r :| r in was.registered && r !in was.finished {
      assert r in was.registered + was.finished;
      assert r in t.registered && r !in t.finished;
    }
  }

  lemma AloneDrains<M>(req: Request<M>)
    ensures Complete(Fresh<M>(req.offset), req).0 == [req] && Complete(Fresh<M>(req.offset), req).1.ready == map[]
  {
    var full := Insert(Fresh<M>(req.offset), req);
    DrainMeaning(full);
    var (out, end) := Drain(full);
    assert full.ready == map[req.offset := req];
    assert Split(full, out, end);
    assert end.ready.Keys == {};
    assert req.offset in full.ready;
    assert |out| > 1 ==> req.offset + 1 in full.ready;
  }

  function FiveSixSeven(key: TopicPartition): seq<TableStep<()>> {
    [Register(key, 5)] + [Register(key, 6)] + [Register(key, 7)]
  }

  lemma ThreeRegistered(key: TopicPartition)
    ensures var steps := FiveSixSeven(key);
            && InOrder(steps, key) && TableAfter(steps) == map[key := Fresh(5)]
            && TrackOf(steps, key) == Track(5, {5, 6, 7}, {}, false)
  {
    var r5: TableStep<()> := Register(key, 5);
    assert [] + [r5] == [r5];
    Snoc([], r5, key);
    Snoc([r5], Register(key, 6), key);
    Snoc([r5] + [Register(key, 6)], Register(key, 7), key);
  }

  /** It happens: 5, 6 and 7 are registered, 5 finishes and the state is deleted; then 7 finishes, a
      new lifetime starts at 7, and 7 is committed while 6 is running. */
  lemma EarlyDeletionPassesSix(key: TopicPartition)
    ensures var steps := FiveSixSeven(key) + [Settle(key, Request(5, ()))];
            var seven := Request(7, ());
            && InOrder(steps, key) && TableAfter(steps) == map[]
            && Complete(StateFor(TableAfter(steps), key, 7), seven).0 == [seven]
            && PassesUnfinished(7, TrackOf(steps + [Settle(key, seven)], key))
  {
    var (five, seven) := (Request(5, ()), Request(7, ()));
    ThreeRegistered(key);
    Snoc(FiveSixSeven(key), Settle(key, five), key);
    AloneDrains(five);
    AloneDrains(seven);
    var steps := FiveSixSeven(key) + [Settle(key, five)];
    assert TableAfter(steps) == map[];
    Snoc(steps, Settle(key, seven), key);
    assert 6 in TrackOf(steps + [Settle(key, seven)], key).registered;
  }
}
