/** Exactly when a row of the outbox can be published again. */
module OutboxRepublish {
  import opened Counting
  import opened Outbox
  import opened OutboxProtocol
  import opened OutboxLaws

  /** The batch still has the row to publish: it has not come to it, or stands right before it. */
  predicate WillPublish(b: Batch, id: Id) {
    id in b.todo && (b.todo[0] != id || b.phase.Ready?)
  }

  ghost predicate SomeWillPublish(s: State, id: Id) {
    exists k {:trigger s.batches[k]} :: 0 <= k < |s.batches| && WillPublish(s.batches[k], id)
  }

  /** Another publish of the row follows in this run. */
  ghost predicate PublishesAgain(s: State, es: seq<Event>, id: Id) {
    Possible(s, es) && After(s, es).Published(id) > s.Published(id)
  }

  // ---- a row that is SENT and in nobody's hands is done ----

  ghost predicate Done(s: State, id: Id) {
    id in s.rows && s.rows[id].status.Sent? && !SomeWillPublish(s, id)
  }

  lemma TailKept(b: Batch, id: Id)
    requires BatchSound(b) && b.todo != [] && id in b.todo[1..]
    ensures WillPublish(b, id)
  {
    var i :| 0 <= i < |b.todo[1..]| && b.todo[1..][i] == id;
    assert b.todo[i + 1] == id;
  }

  lemma StepDone(s: State, e: Event, id: Id)
    requires Sound(s) && Enabled(s, e) && Done(s, id)
    ensures Done(Next(s, e), id) && Next(s, e).Published(id) == s.Published(id)
  {
    var t := Next(s, e);
    forall k | 0 <= k < |t.batches|
      ensures !WillPublish(t.batches[k], id)
    {
      if k < |s.batches| {
        assert !WillPublish(s.batches[k], id) && BatchSound(s.batches[k]);
        if id in t.batches[k].todo && t.batches[k].todo != s.batches[k].todo {
          TailKept(s.batches[k], id);
        }
      }
    }
  }

  lemma {:induction false} StaysDone(s: State, es: seq<Event>, id: Id)
    requires Sound(s) && Possible(s, es) && Done(s, id)
    ensures After(s, es).Published(id) == s.Published(id)
    decreases |es|
  {
    if es != [] {
      StepDone(s, es[0], id);
      StepSound(s, es[0]);
      StaysDone(Next(s, es[0]), es[1..], id);
    }
  }

  // ---- otherwise some run publishes it ----

  /** Batch k goes on, whatever its marks come to, until it publishes the row. */
  lemma GoesOn(s: State, k: nat, id: Id) returns (es: seq<Event>)
    requires k < |s.batches| && WillPublish(s.batches[k], id)
    ensures PublishesAgain(s, es, id)
    decreases |s.batches[k].todo|, if s.batches[k].phase.Ready? then 1 else 0
  {
    var b := s.batches[k];
    var e := match b.phase
      case Ready => Publish(k, true)
      case Delivered => MarkSent(k, false)
      case Undelivered => MarkFailed(k, 0, false);
    var t := Next(s, e);
    var rest: seq<Event> := [];
    if b.todo[0] != id {
      if !b.phase.Ready? {
        var i :| 0 <= i < |b.todo| && b.todo[i] == id;
        assert b.todo[1..][i - 1] == id;
      }
      rest := GoesOn(t, k, id);
    }
    Cons(s, e, rest);
    es := [e] + rest;
  }

  /** A row that is not SENT is claimed and published once its due time or lease has passed. */
  lemma ClaimedAgain(s: State, id: Id) returns (es: seq<Event>)
    requires id in s.rows && !s.rows[id].status.Sent?
    ensures PublishesAgain(s, es, id)
  {
    var row := s.rows[id];
    var due := if row.status.Pending? then row.nextAttempt else row.lease;
    var d := if due > s.now then due - s.now else 0;
    var t := Next(s, Tick(d));
    var e := ClaimBatch("relay", [id], 1);
    assert t.rows[id].Claimable(t.now);
    assert Enabled(t, e);
    var u := Next(t, e);
    assert u.batches[|s.batches|].todo == [id];
    var rest := GoesOn(u, |s.batches|, id);
    Cons(t, e, rest);
    Cons(s, Tick(d), [e] + rest);
    es := [Tick(d)] + ([e] + rest);
  }

  /** From every reachable state: another publish of a row can follow exactly when the row is not
      SENT, or an unfinished batch that claimed it before still has it to publish. */
  lemma RepublishedIff(before: seq<Event>, id: Id)
    requires Possible(Init, before) && id in After(Init, before).rows
    ensures var s := After(Init, before);
            (exists es :: PublishesAgain(s, es, id)) <==> !s.rows[id].status.Sent? || SomeWillPublish(s, id)
  {
    var s := After(Init, before);
    RunSound(Init, before);
    if !s.rows[id].status.Sent? {
      var es := ClaimedAgain(s, id);
    } else if SomeWillPublish(s, id) {
      var k :| 0 <= k < |s.batches| && WillPublish(s.batches[k], id);
      var es := GoesOn(s, k, id);
    } else {
      forall es
        ensures !PublishesAgain(s, es, id)
      {
        if Possible(s, es) {
          StaysDone(s, es, id);
        }
      }
    }
  }

  /** And a batch has a SENT row left to publish only after its own lease has run out. */
  lemma LeftAfterLease(before: seq<Event>, k: nat, id: Id)
    requires Possible(Init, before) && k < |After(Init, before).batches|
    requires WillPublish(After(Init, before).batches[k], id)
    requires id in After(Init, before).rows && After(Init, before).rows[id].status.Sent?
    ensures After(Init, before).batches[k].lease <= After(Init, before).now
  {
    RunSound(Init, before);
    assert Guarded(After(Init, before), k, id);
  }
}
