/** The per-partition reorder buffer of subscriber.go: offsets complete in any order and are
    handed to the broker as consecutive runs. */
module CommitBuffer {
  import opened Assignment

  datatype Request<M> = Request(offset: int, payload: M)

  datatype CommitState<M> = CommitState(nextOffset: int, ready: map<int, Request<M>>)

  /** The keys of the buffer are the offsets of the buffered requests. */
  ghost predicate Keyed<M>(st: CommitState<M>) {
    forall o {:trigger st.ready[o]} :: o in st.ready ==> st.ready[o].offset == o
  }

  function Fresh<M>(offset: int): CommitState<M> {
    CommitState(offset, map[])
  }

  /** Emits buffered requests from nextOffset on while there is no gap. */
  function Drain<M>(st: CommitState<M>): (out: (seq<Request<M>>, CommitState<M>))
    decreases |st.ready|
  {
    if st.nextOffset !in st.ready then ([], st)
    else
      var rest := st.ready - {st.nextOffset};
      assert rest.Keys == st.ready.Keys - {st.nextOffset};
      assert |rest.Keys| < |st.ready.Keys|;
      var (tail, end) := Drain(CommitState(st.nextOffset + 1, rest));
      ([st.ready[st.nextOffset]] + tail, end)
  }

  function Insert<M>(st: CommitState<M>, req: Request<M>): CommitState<M> {
    st.(ready := st.ready[req.offset := req])
  }

  /** One completion: buffer the request, then drain. */
  function Complete<M>(st: CommitState<M>, req: Request<M>): (seq<Request<M>>, CommitState<M>) {
    Drain(Insert(st, req))
  }

  /** The list is the run of offsets from start on. */
  ghost predicate Consecutive<M>(out: seq<Request<M>>, start: int) {
    forall i {:trigger out[i]} :: 0 <= i < |out| ==> out[i].offset == start + i
  }

  /** `out` and `end` split the buffer of `st`: below end.nextOffset emitted, the rest kept. */
  ghost predicate Split<M>(st: CommitState<M>, out: seq<Request<M>>, end: CommitState<M>) {
    && end.nextOffset == st.nextOffset + |out|
    && (forall o {:trigger o in st.ready} {:trigger o in end.ready} ::
          o in end.ready <==> o in st.ready && !(st.nextOffset <= o < end.nextOffset))
    && (forall o {:trigger end.ready[o]} :: o in end.ready ==> end.ready[o] == st.ready[o])
    && (forall o {:trigger o in st.ready} :: st.nextOffset <= o < end.nextOffset ==>
          o in st.ready && out[o - st.nextOffset] == st.ready[o])
  }

  lemma SplitCons<M>(st: CommitState<M>, rest: CommitState<M>, tail: seq<Request<M>>, end: CommitState<M>)
    requires st.nextOffset in st.ready && rest == CommitState(st.nextOffset + 1, st.ready - {st.nextOffset})
    requires Split(rest, tail, end)
    ensures Split(st, [st.ready[st.nextOffset]] + tail, end)
  {
    var out := [st.ready[st.nextOffset]] + tail;
    forall o {:trigger o in st.ready} {:trigger st.ready[o]} | st.nextOffset <= o < end.nextOffset
      ensures o in st.ready
      ensures out[o - st.nextOffset] == st.ready[o]
    {
      if o > st.nextOffset {
        assert o in rest.ready;
        assert out[o - st.nextOffset] == tail[o - rest.nextOffset];
      }
    }
    assert forall o {:trigger o in st.ready} :: st.nextOffset <= o < end.nextOffset ==> o in st.ready;
    forall o {:trigger o in st.ready}
      ensures o in end.ready <==> o in st.ready && !(st.nextOffset <= o < end.nextOffset)
    {
      assert o in rest.ready <==> o in st.ready && o != st.nextOffset;
    }
  }

  /** A drain emits the buffered run from nextOffset on, stops only at a gap, and keeps
      exactly the other requests. */
  lemma {:induction false} DrainMeaning<M>(st: CommitState<M>)
    requires Keyed(st)
    ensures var (out, end) := Drain(st);
            Split(st, out, end) && Consecutive(out, st.nextOffset) && end.nextOffset !in end.ready && Keyed(end)
    decreases |st.ready|
  {
    if st.nextOffset in st.ready {
      var rest := st.ready - {st.nextOffset};
      assert rest.Keys == st.ready.Keys - {st.nextOffset};
      assert |rest.Keys| < |st.ready.Keys|;
      var next := CommitState(st.nextOffset + 1, rest);
      assert Keyed(next);
      DrainMeaning(next);
      var (tail, end) := Drain(next);
      SplitCons(st, next, tail, end);
    }
  }

  // ---- one lifetime of a partition's state ----

  /** Requests emitted by a series of completions, one list a completion, and the state after. */
  function CompleteAll<M>(st: CommitState<M>, reqs: seq<Request<M>>): (seq<Request<M>>, CommitState<M>) {
    if reqs == [] then ([], st)
    else
      var (before, mid) := CompleteAll(st, reqs[..|reqs| - 1]);
      var (more, end) := Complete(mid, reqs[|reqs| - 1]);
      (before + more, end)
  }

  ghost predicate Completed<M>(reqs: seq<Request<M>>, o: int) {
    exists i :: 0 <= i < |reqs| && reqs[i].offset == o
  }

  lemma CompletedSnoc<M>(reqs: seq<Request<M>>, o: int)
    requires reqs != []
    ensures Completed(reqs, o) <==> Completed(reqs[..|reqs| - 1], o) || reqs[|reqs| - 1].offset == o
  {
    var init := reqs[..|reqs| - 1];
    if i :| 0 <= i < |reqs| && reqs[i].offset == o && i < |init| {
      assert init[i].offset == o;
    }
    if i :| 0 <= i < |init| && init[i].offset == o {
      assert reqs[i].offset == o;
    }
  }

  /** Over a whole lifetime the emitted offsets are start, start + 1, ... without gap or
      repeat, and a completed offset is either emitted or still buffered. */
  lemma {:induction false} LifetimeMeaning<M>(start: int, reqs: seq<Request<M>>)
    ensures var (out, end) := CompleteAll(Fresh(start), reqs);
            && Keyed(end) && end.nextOffset == start + |out|
            && (forall i :: 0 <= i < |out| ==> out[i].offset == start + i)
    ensures var (out, end) := CompleteAll(Fresh(start), reqs);
            forall o :: Completed(reqs, o) <==> o in end.ready || start <= o < end.nextOffset
    ensures var (out, end) := CompleteAll(Fresh(start), reqs);
            reqs != [] ==> end.nextOffset !in end.ready
  {
    if reqs != [] {
      var init, last := reqs[..|reqs| - 1], reqs[|reqs| - 1];
      LifetimeMeaning(start, init);
      var (before, mid) := CompleteAll(Fresh<M>(start), init);
      DrainMeaning(Insert(mid, last));
      var (more, end) := Complete(mid, last);
      var out := before + more;
      assert CompleteAll(Fresh(start), reqs) == (out, end);
      forall i | 0 <= i < |out|
        ensures out[i].offset == start + i
      {
        if i >= |before| {
          assert out[i] == more[i - |before|];
        }
      }
      forall o
        ensures Completed(reqs, o) <==> o in end.ready || start <= o < end.nextOffset
      {
        CompletedSnoc(reqs, o);
        OneMoreCompleted(start, mid, last, o);
      }
    }
  }

  /** One completion moves exactly its own offset into the emitted or the buffered ones. */
  lemma OneMoreCompleted<M>(start: int, mid: CommitState<M>, last: Request<M>, o: int)
    requires Keyed(mid) && start <= mid.nextOffset
    ensures var end := Complete(mid, last).1;
            (o in end.ready || start <= o < end.nextOffset) <==>
            (o in mid.ready || start <= o < mid.nextOffset || o == last.offset)
  {
    var full := Insert(mid, last);
    DrainMeaning(full);
    var (out, end) := Drain(full);
    assert o in full.ready <==> o in mid.ready || o == last.offset;
    assert o in end.ready <==> o in full.ready && !(full.nextOffset <= o < end.nextOffset);
    assert full.nextOffset <= o < end.nextOffset ==> o in full.ready;
  }

  // ---- the shared table ----

  type States<M> = map<TopicPartition, CommitState<M>>

  function StateFor<M>(states: States<M>, key: TopicPartition, offset: int): CommitState<M> {
    if key in states then states[key] else Fresh(offset)
  }

  function Registered<M>(states: States<M>, key: TopicPartition, offset: int): States<M> {
    if key in states then states else states[key := Fresh(offset)]
  }

  /** The table after a completion: an empty buffer is deleted. */
  function Settled<M>(states: States<M>, key: TopicPartition, req: Request<M>): States<M> {
    var end := Complete(StateFor(states, key, req.offset), req).1;
    if end.ready == map[] then states - {key} else states[key := end]
  }

  /** One request arrives at a partition that waits for offset `next` and, with the request, has `buffered`:
      the run it completes is handed on, the other requests wait, and a state nobody waits in is gone. */
  lemma SettledMeaning<M>(states: States<M>, key: TopicPartition, req: Request<M>, next: int,
                          buffered: map<int, Request<M>>, ready: seq<Request<M>>, after: States<M>)
    requires key in states ==> Keyed(states[key])
    requires next == if key in states then states[key].nextOffset else req.offset
    requires buffered == (if key in states then states[key].ready else map[])[req.offset := req]
    requires ready == Complete(StateFor(states, key, req.offset), req).0 && after == Settled(states, key, req)
    ensures forall o {:trigger buffered[o]} :: next <= o < next + |ready| ==>
              o in buffered && ready[o - next] == buffered[o]
    ensures next + |ready| !in buffered && after - {key} == states - {key}
    ensures key in after <==> exists o {:trigger o in buffered} :: o in buffered && !(next <= o < next + |ready|)
    ensures key in after ==>
              && after[key].nextOffset == next + |ready|
              && after[key].ready == map o | o in buffered && !(next <= o < next + |ready|) :: buffered[o]
  {
    var full := Insert(StateFor(states, key, req.offset), req);
    assert full == CommitState(next, buffered);
    var end := Drain(full).1;
    HandedOn(full, ready, end);
    Stored(states, key, end, after);
    WaitingIff(buffered, end.ready, next, next + |ready|);
  }

  lemma Stored<M>(states: States<M>, key: TopicPartition, end: CommitState<M>, after: States<M>)
    requires after == if end.ready == map[] then states - {key} else states[key := end]
    ensures after - {key} == states - {key} && (key in after <==> end.ready != map[])
    ensures key in after ==> after[key] == end
  {
  }

  lemma WaitingIff<M>(buffered: map<int, Request<M>>, waiting: map<int, Request<M>>, lo: int, hi: int)
    requires waiting == map o | o in buffered && !(lo <= o < hi) :: buffered[o]
    ensures waiting != map[] <==> exists o {:trigger o in buffered} :: o in buffered && !(lo <= o < hi)
  {
    if waiting != map[] {
      assert waiting.Keys != {};
      var o :| o in waiting.Keys;
      assert o in buffered;
    }
    if o :| o in buffered && !(lo <= o < hi) {
      assert o in waiting;
    }
  }

  lemma HandedOn<M>(full: CommitState<M>, ready: seq<Request<M>>, end: CommitState<M>)
    requires Keyed(full) && (ready, end) == Drain(full)
    ensures forall o {:trigger full.ready[o]} :: full.nextOffset <= o < full.nextOffset + |ready| ==>
              o in full.ready && ready[o - full.nextOffset] == full.ready[o]
    ensures end.nextOffset == full.nextOffset + |ready| && end.nextOffset !in full.ready
    ensures end.ready == map o | o in full.ready && !(full.nextOffset <= o < full.nextOffset + |ready|) :: full.ready[o]
  {
    DrainMeaning(full);
    SplitRest(full, ready, end);
    assert end.nextOffset in full.ready ==> end.nextOffset in end.ready;
  }

  lemma SplitRest<M>(st: CommitState<M>, out: seq<Request<M>>, end: CommitState<M>)
    requires Split(st, out, end)
    ensures end.ready == map o | o in st.ready && !(st.nextOffset <= o < st.nextOffset + |out|) :: st.ready[o]
  {
    var rest := map o | o in st.ready && !(st.nextOffset <= o < st.nextOffset + |out|) :: st.ready[o];
    forall o
      ensures o in end.ready <==> o in rest
      ensures o in rest ==> end.ready[o] == rest[o]
    {
      assert o in end.ready <==> o in st.ready && !(st.nextOffset <= o < end.nextOffset);
    }
    assert end.ready == rest;
  }

  class CommitTable<M> {
    var states: States<M>

    constructor ()
      ensures states == map[]
    {
      states := map[];
    }

    method RegisterInFlight(key: TopicPartition, offset: int)
      modifies this
      ensures states == Registered(old(states), key, offset)
      ensures states == if key in old(states) then old(states) else old(states)[key := CommitState(offset, map[])]
    {
      if key in states {
        return;
      }
      states := states[key := CommitState(offset, map[])];
    }

    /** `current` is the outcome of the assignment check. */
    method ReadyToCommit(key: TopicPartition, req: Request<M>, current: bool) returns (ready: seq<Request<M>>)
      modifies this
      ensures !current ==> ready == [] && states == old(states)
      ensures current ==>
                && ready == Complete(StateFor(old(states), key, req.offset), req).0
                && states == Settled(old(states), key, req)
    {
      ready := [];
      if !current {
        return;
      }
      var start := if key in states then states[key] else CommitState(req.offset, map[]);
      var state := start.(ready := start.ready[req.offset := req]);
      ghost var full := state;
      assert full == Insert(StateFor(old(states), key, req.offset), req);
      while state.nextOffset in state.ready
        invariant Drain(full).0 == ready + Drain(state).0
        invariant Drain(full).1 == Drain(state).1
        decreases |state.ready|
      {
        var rest := state.ready - {state.nextOffset};
        assert rest.Keys == state.ready.Keys - {state.nextOffset};
        assert |rest.Keys| < |state.ready.Keys|;
        ready := ready + [state.ready[state.nextOffset]];
        state := CommitState(state.nextOffset + 1, rest);
      }
      if state.ready == map[] {
        states := states - {key};
      } else {
        states := states[key := state];
      }
    }

    method ClearPartitions(partitions: seq<TopicPartition>)
      modifies this
      ensures states == old(states) - (set p | p in partitions)
    {
      for i := 0 to |partitions|
        invariant states == old(states) - (set p | p in partitions[..i])
      {
        assert partitions[..i + 1] == partitions[..i] + [partitions[i]];
        states := states - {partitions[i]};
      }
      assert partitions[..|partitions|] == partitions;
    }
  }
}
