/** The relay loop of outbox_relay.go: one batch, and the one-slot wakeups that start batches. */
module Relay {
  import opened Counting
  import opened Outbox

  // ---- one batch ----

  predicate Refused(deliveries: map<Id, bool>, id: Id) {
    !(id in deliveries && deliveries[id])
  }

  predicate AnyRefused(deliveries: map<Id, bool>, ids: seq<Id>) {
    ids != [] && (AnyRefused(deliveries, ids[..|ids| - 1]) || Refused(deliveries, ids[|ids| - 1]))
  }

  /** The table after the rows have been published and marked one after the other. */
  function Relayed(rows: Rows, ids: seq<Id>, deliveries: map<Id, bool>, claim: Claim, next: int): Rows {
    if ids == [] then rows
    else
      var (before, id) := (Relayed(rows, ids[..|ids| - 1], deliveries, claim, next), ids[|ids| - 1]);
      if Refused(deliveries, id) then MarkedFailed(before, id, claim, next) else MarkedSent(before, id, claim)
  }

  /** A batch with nobody else at work and no failing mark. `deliveries` says for each row whether
      the publisher takes it; a row it does not mention is refused. */
  method ProcessBatch(table: Table, max: int, claim: Claim, ttl: int, now: int, locked: set<Id>,
                      deliveries: map<Id, bool>, backoff: nat) returns (hadFailure: bool, ghost ids: seq<Id>)
    modifies table
    ensures OldestOf(old(table.rows), Available(old(table.rows), now, locked), if max <= 0 then 0 else max, ids)
    ensures table.rows == Relayed(Claimed(old(table.rows), Members(ids), claim, LeaseEnd(now, ttl)), ids, deliveries,
                                  claim, now + backoff)
    ensures hadFailure == AnyRefused(deliveries, ids)
  {
    var pending;
    pending, ids := table.ReadPending(max, claim, ttl, now, locked);
    ghost var claimed := table.rows;
    hadFailure := false;
    for i := 0 to |pending|
      invariant table.rows == Relayed(claimed, ids[..i], deliveries, claim, now + backoff)
      invariant hadFailure == AnyRefused(deliveries, ids[..i])
    {
      var item := pending[i];
      assert item.id == ids[i] && item.claim == claim;
      assert ids[..i + 1][..i] == ids[..i];
      if Refused(deliveries, item.id) {
        hadFailure := true;
        var marked := table.MarkFailed(item.id, item.claim, now + backoff);
      } else {
        var marked := table.MarkSent(item.id, item.claim);
      }
    }
    assert ids[..|ids|] == ids;
  }

  lemma {:induction false} RelayedRow(rows: Rows, ids: seq<Id>, deliveries: map<Id, bool>, claim: Claim, next: int,
                                      id: Id)
    requires Distinct(ids) && id in rows
    requires (forall i {:trigger ids[i]} :: 0 <= i < |ids| ==> Matches(rows, ids[i], claim))
    ensures var after := Relayed(rows, ids, deliveries, claim, next);
            && id in after
            && after[id] == if id !in ids then rows[id]
                            else if Refused(deliveries, id)
                                 then rows[id].(status := Pending, attempts := rows[id].attempts + 1,
                                                nextAttempt := next)
                            else rows[id].(status := Sent)
  {
    if ids != [] {
      var n := |ids| - 1;
      RelayedRow(rows, ids[..n], deliveries, claim, next, id);
      assert id in ids <==> id in ids[..n] || id == ids[n];
      assert ids[n] !in ids[..n];
    }
  }

  lemma {:induction false} AnyRefusedMeaning(deliveries: map<Id, bool>, ids: seq<Id>)
    ensures AnyRefused(deliveries, ids) <==> exists id :: id in ids && !(id in deliveries && deliveries[id])
  {
    if ids != [] {
      var n := |ids| - 1;
      AnyRefusedMeaning(deliveries, ids[..n]);
      assert forall id :: id in ids <==> id in ids[..n] || id == ids[n];
    }
  }

  /** After a batch every claimed row is SENT, or back with one more attempt and due exactly when
      the backoff is over; no other row has changed. */
  lemma BatchSettles(was: Rows, ids: seq<Id>, claim: Claim, lease: int, deliveries: map<Id, bool>, next: int, id: Id)
    requires id in was && Distinct(ids) && forall i {:trigger ids[i]} :: 0 <= i < |ids| ==> ids[i] in was
    ensures var after := Relayed(Claimed(was, Members(ids), claim, lease), ids, deliveries, claim, next);
            && id in after && after[id].key == was[id].key && after[id].content == was[id].content
            && (id !in ids ==> after[id] == was[id])
            && (id in ids && id in deliveries && deliveries[id] ==>
                  after[id].status.Sent? && after[id].attempts == was[id].attempts)
            && (id in ids && !(id in deliveries && deliveries[id]) ==>
                  after[id].attempts == was[id].attempts + 1 && forall t :: after[id].Claimable(t) <==> next <= t)
  {
    RelayedRow(Claimed(was, Members(ids), claim, lease), ids, deliveries, claim, next, id);
  }

  // ---- wakeups ----

  datatype Loop = Idle | Woken | Working

  /** Commits and batch reads are numbered. `tried` and `seen` are the numbers of commits before the
      last read, and before the last read that did not fail; `attempts` is the number of reads, `read`
      the last that did not fail. The two channels hold at most one token each. */
  datatype State = State(commits: nat, unnotified: set<nat>, notified: set<nat>, signal: bool, retry: bool, timers: nat,
                         loop: Loop, tried: nat, seen: nat, attempts: nat, read: nat, failures: set<nat>)

  const Init := State(0, {}, {}, false, false, 0, Idle, 0, 0, 0, 0, {})

  datatype Event =
    | Commit
    | Notify(commit: nat)
    | WriterCrash(commit: nat) // after the commit, before the notification
    | ReceiveSignal
    | ReceiveRetry
    | Read(ok: bool) // a failed read ends the batch: its token is gone, and no timer is set
    | EndBatch(hadFailure: bool)
    | TimerFires

  predicate Enabled(s: State, e: Event) {
    match e
    case Commit => true
    case Notify(commit) => commit in s.unnotified
    case WriterCrash(commit) => commit in s.unnotified
    case ReceiveSignal => s.loop.Idle? && s.signal
    case ReceiveRetry => s.loop.Idle? && s.retry
    case Read(_) => s.loop.Woken?
    case EndBatch(_) => s.loop.Working?
    case TimerFires => s.timers > 0
  }

  function Next(s: State, e: Event): State
    requires Enabled(s, e)
  {
    match e
    case Commit => s.(commits := s.commits + 1, unnotified := s.unnotified + {s.commits})
    case Notify(commit) => s.(unnotified := s.unnotified - {commit}, notified := s.notified + {commit}, signal := true)
    case WriterCrash(commit) => s.(unnotified := s.unnotified - {commit})
    case ReceiveSignal => s.(signal := false, loop := Woken)
    case ReceiveRetry => s.(retry := false, loop := Woken)
    case Read(ok) =>
      var t := s.(tried := s.commits, attempts := s.attempts + 1);
      if ok then t.(loop := Working, seen := s.commits, read := s.attempts + 1) else t.(loop := Idle)
    case EndBatch(hadFailure) =>
      if hadFailure then s.(loop := Idle, timers := s.timers + 1, failures := s.failures + {s.read})
      else s.(loop := Idle)
    case TimerFires => s.(timers := s.timers - 1, retry := true)
  }

  predicate Possible(s: State, es: seq<Event>)
    decreases |es|
  {
    es == [] || (Enabled(s, es[0]) && Possible(Next(s, es[0]), es[1..]))
  }

  function After(s: State, es: seq<Event>): State
    requires Possible(s, es)
    decreases |es|
  {
    if es == [] then s else After(Next(s, es[0]), es[1..])
  }

  /** A notified commit has a token waiting, or the relay is about to read, or a read has started
      since; the same for the retry after a failed batch. */
  ghost predicate Awake(s: State) {
    && (forall k {:trigger k in s.notified} :: k in s.notified ==>
          k < s.commits && (s.signal || s.loop.Woken? || k < s.tried))
    && (forall k {:trigger k in s.unnotified} :: k in s.unnotified ==> k < s.commits)
    && (forall r {:trigger r in s.failures} :: r in s.failures ==>
          r <= s.read && (s.timers > 0 || s.retry || s.loop.Woken? || r < s.attempts))
    && s.seen <= s.tried <= s.commits && s.read <= s.attempts && (s.read == s.attempts ==> s.seen == s.tried)
  }

  lemma StepAwake(s: State, e: Event)
    requires Awake(s) && Enabled(s, e)
    ensures Awake(Next(s, e))
  {
  }

  lemma {:induction false} RunAwake(s: State, es: seq<Event>)
    requires Awake(s) && Possible(s, es)
    ensures Awake(After(s, es))
    decreases |es|
  {
    if es != [] {
      StepAwake(s, es[0]);
      RunAwake(Next(s, es[0]), es[1..]);
    }
  }

  /** No wakeup is lost although notifications on a full channel are dropped: in every run a notified
      commit has a token waiting, or the relay is about to read, or it was made before the last read
      started; and that read saw it unless it failed. Likewise a failed batch has a timer, a token or
      a later read. */
  lemma NoLostWakeup(es: seq<Event>)
    requires Possible(Init, es)
    ensures var s := After(Init, es);
            && (forall k :: k in s.notified ==> s.signal || s.loop.Woken? || k < s.tried)
            && (forall r :: r in s.failures ==> s.timers > 0 || s.retry || s.loop.Woken? || r < s.attempts)
            && (s.read == s.attempts ==> s.seen == s.tried)
  {
    RunAwake(Init, es);
  }

  /** So while the relay waits on an empty signal channel and its last read did not fail, it has read
      since every notified commit. */
  lemma AllSeenWhenIdle(es: seq<Event>)
    requires Possible(Init, es)
    requires var s := After(Init, es); s.loop.Idle? && !s.signal && s.read == s.attempts
    ensures forall k :: k in After(Init, es).notified ==> k < After(Init, es).seen
  {
    NoLostWakeup(es);
  }

  // ---- the same, told by the events ----

  /** What the history remembers of an event. */
  lemma Remembered(s: State, e: Event)
    requires Enabled(s, e)
    ensures var t := Next(s, e);
            && t.commits == s.commits + (if e.Commit? then 1 else 0)
            && t.notified == s.notified + (if e.Notify? then {e.commit} else {})
            && t.failures == s.failures + (if e == EndBatch(true) then {s.read} else {})
            && t.attempts == s.attempts + (if e.Read? then 1 else 0)
            && t.tried == (if e.Read? then s.commits else s.tried)
            && t.seen == (if e == Read(true) then s.commits else s.seen)
            && t.read == (if e == Read(true) then t.attempts else s.read)
  {
  }

  lemma {:induction false} TokenIsRead(s: State, es: seq<Event>)
    requires Possible(s, es) && (s.signal || s.loop.Woken?)
    ensures var t := After(s, es); t.signal || t.loop.Woken? || exists j :: 0 <= j < |es| && es[j].Read?
    decreases |es|
  {
    if es != [] && !es[0].Read? {
      TokenIsRead(Next(s, es[0]), es[1..]);
      if j :| 0 <= j < |es[1..]| && es[1..][j].Read? {
        assert es[j + 1].Read?;
      }
    }
  }

  lemma {:induction false} TimerIsRead(s: State, es: seq<Event>)
    requires Possible(s, es) && (s.timers > 0 || s.retry || s.loop.Woken?)
    ensures var t := After(s, es);
            t.timers > 0 || t.retry || t.loop.Woken? || exists j :: 0 <= j < |es| && es[j].Read?
    decreases |es|
  {
    if es != [] && !es[0].Read? {
      TimerIsRead(Next(s, es[0]), es[1..]);
      if j :| 0 <= j < |es[1..]| && es[1..][j].Read? {
        assert es[j + 1].Read?;
      }
    }
  }

  /** After a notification the signal is waiting, or the relay has taken it and is about to read, or has
      read since; after a batch with a failure a timer or its token is. */
  lemma {:induction false} WakeupIsRead(s: State, es: seq<Event>, i: nat)
    requires Possible(s, es) && i < |es|
    ensures var t := After(s, es);
            && (es[i].Notify? ==> t.signal || t.loop.Woken? || exists j :: i < j < |es| && es[j].Read?)
            && (es[i] == EndBatch(true) ==>
                  t.timers > 0 || t.retry || t.loop.Woken? || exists j :: i < j < |es| && es[j].Read?)
    decreases |es|
  {
    var rest := es[1..];
    if i > 0 {
      WakeupIsRead(Next(s, es[0]), rest, i - 1);
      assert forall j :: i - 1 < j < |rest| ==> rest[j] == es[j + 1];
    } else {
      if es[0].Notify? { TokenIsRead(Next(s, es[0]), rest); }
      if es[0] == EndBatch(true) { TimerIsRead(Next(s, es[0]), rest); }
      assert forall j :: 0 <= j < |rest| ==> rest[j] == es[j + 1];
    }
  }

  function Count(es: seq<Event>, which: Event -> bool): nat {
    if es == [] then 0 else Count(es[..|es| - 1], which) + if which(es[|es| - 1]) then 1 else 0
  }

  lemma {:induction false} CountFirst(es: seq<Event>, which: Event -> bool)
    requires es != []
    ensures Count(es, which) == (if which(es[0]) then 1 else 0) + Count(es[1..], which)
  {
    var n := |es| - 1;
    if n > 0 {
      CountFirst(es[..n], which);
      assert es[..n][1..] == es[1..][..n - 1];
    }
  }

  function Tokens(s: State): nat {
    (if s.signal then 1 else 0) + (if s.retry then 1 else 0) + if s.loop.Woken? then 1 else 0
  }

  /** The relay does not spin: every read uses up a token, every token is a notification or a timer that
      fired, and every timer was set by a batch with a failure. */
  lemma {:induction false} ReadsAreAsked(s: State, es: seq<Event>, read: Event -> bool, asked: Event -> bool,
                                         fired: Event -> bool, failed: Event -> bool)
    requires Possible(s, es)
    requires forall e: Event :: read(e) == e.Read? && asked(e) == (e.Notify? || e.TimerFires?)
    requires forall e: Event :: fired(e) == e.TimerFires? && failed(e) == (e == EndBatch(true))
    ensures Count(es, read) + Tokens(After(s, es)) <= Count(es, asked) + Tokens(s)
    ensures Count(es, fired) + After(s, es).timers == Count(es, failed) + s.timers
    decreases |es|
  {
    if es != [] {
      ReadsAreAsked(Next(s, es[0]), es[1..], read, asked, fired, failed);
      CountFirst(es, read);
      CountFirst(es, asked);
      CountFirst(es, fired);
      CountFirst(es, failed);
    }
  }

  // ---- what a failed read costs ----

  /** Nothing but a notification can wake the relay. */
  predicate Asleep(s: State) {
    s.loop.Idle? && !s.signal && !s.retry && s.timers == 0
  }

  predicate NoNotice(es: seq<Event>) {
    forall i {:trigger es[i]} :: 0 <= i < |es| ==> !es[i].Notify?
  }

  lemma {:induction false} SleepsOn(s: State, es: seq<Event>)
    requires Asleep(s) && Possible(s, es) && NoNotice(es)
    ensures Asleep(After(s, es)) && After(s, es).seen == s.seen
    decreases |es|
  {
    if es != [] {
      assert es[0].Commit? || es[0].WriterCrash?;
      SleepsOn(Next(s, es[0]), es[1..]);
    }
  }

  lemma Cons(s: State, e: Event, es: seq<Event>)
    requires Enabled(s, e) && Possible(Next(s, e), es)
    ensures Possible(s, [e] + es) && After(s, [e] + es) == After(Next(s, e), es)
  {
    assert ([e] + es)[1..] == es;
  }

  /** Unless asleep, the relay can read again with no further notification. */
  lemma ReadsAgain(s: State) returns (es: seq<Event>)
    requires !Asleep(s)
    ensures Possible(s, es) && NoNotice(es) && After(s, es).seen == s.commits
    decreases if s.loop.Working? then 3 else if s.loop.Woken? then 0 else if s.signal || s.retry then 1 else 2
  {
    var e := match s.loop
      case Woken => Read(true)
      case Working => EndBatch(true)
      case Idle => if s.signal then ReceiveSignal else if s.retry then ReceiveRetry else TimerFires;
    var rest: seq<Event> := [];
    if !s.loop.Woken? {
      rest := ReadsAgain(Next(s, e));
    }
    Cons(s, e, rest);
    es := [e] + rest;
  }

  /** The relay reads commit k without any further notification. */
  ghost predicate ReadsUnasked(s: State, more: seq<Event>, k: nat) {
    Possible(s, more) && NoNotice(more) && k < After(s, more).seen
  }

  /** Exactly when a wakeup is lost: a commit will be read without any further notification unless the
      relay is asleep and has not read since; and if the commit was notified, its last read failed. */
  lemma LostIff(es: seq<Event>, k: nat)
    requires Possible(Init, es) && k < After(Init, es).commits
    ensures var s := After(Init, es);
            && ((exists more :: ReadsUnasked(s, more, k)) <==> k < s.seen || !Asleep(s))
            && (k in s.notified && k >= s.seen && Asleep(s) ==> s.read < s.attempts)
  {
    var s := After(Init, es);
    RunAwake(Init, es);
    if k < s.seen {
      assert ReadsUnasked(s, [], k);
    } else if !Asleep(s) {
      var more := ReadsAgain(s);
      assert ReadsUnasked(s, more, k);
    } else {
      forall more
        ensures !ReadsUnasked(s, more, k)
      {
        if Possible(s, more) && NoNotice(more) {
          SleepsOn(s, more);
        }
      }
    }
  }

  /** It happens: the read that takes the only token fails. */
  lemma FailedReadLoses()
    ensures var es := [Commit, Notify(0), ReceiveSignal, Read(false)];
            Possible(Init, es) && var s := After(Init, es); 0 in s.notified && s.seen == 0 && Asleep(s)
  {
    var s := Next(Init, Commit);
    var t := Next(s, Notify(0));
    var u := Next(t, ReceiveSignal);
    Cons(u, Read(false), []);
    Cons(t, ReceiveSignal, [Read(false)]);
    Cons(s, Notify(0), [ReceiveSignal] + [Read(false)]);
    Cons(Init, Commit, [Notify(0)] + ([ReceiveSignal] + [Read(false)]));
    assert [Commit] + ([Notify(0)] + ([ReceiveSignal] + [Read(false)])) ==
           [Commit, Notify(0), ReceiveSignal, Read(false)];
  }

  /** A writer that dies between its commit and its notification does lose the wakeup. */
  lemma CrashLosesWakeup()
    ensures var es := [Commit, WriterCrash(0)];
            Possible(Init, es) && var s := After(Init, es); s.commits == 1 && s.seen == 0 && Asleep(s)
  {
    var s := Next(Init, Commit);
    Cons(s, WriterCrash(0), []);
    Cons(Init, Commit, [WriterCrash(0)]);
    assert [Commit] + [WriterCrash(0)] == [Commit, WriterCrash(0)];
  }
}
