/** What the outbox guarantees over every run of the protocol. */
module OutboxLaws {
  import opened Counting
  import opened Outbox
  import opened OutboxProtocol

  // ---- counts ----

  /** A SENT row was published; every claim is used at most once, for a publish or for a counted
      failure; and `attempts` counts the failures. */
  lemma EffectsPerClaim(es: seq<Event>, id: Id)
    requires Possible(Init, es)
    ensures var s := After(Init, es);
            id in s.rows ==>
              && (s.rows[id].status.Sent? ==> s.Published(id) >= 1)
              && s.rows[id].attempts == Tally(s.batches, id, Failures)
              && s.rows[id].attempts + s.Published(id) <= Tally(s.batches, id, Claims)
  {
    RunSound(Init, es);
    var s := After(Init, es);
    assert RowSound(s, id) && s.Published(id) == Tally(s.batches, id, Publishes);
    TermwiseAtMost(s.batches, id);
  }

  // ---- rows persist, and SENT is final ----

  ghost predicate Persists(a: State, b: State, id: Id) {
    id in a.rows ==>
      && id in b.rows && b.rows[id].key == a.rows[id].key && b.rows[id].content == a.rows[id].content
      && a.rows[id].attempts <= b.rows[id].attempts && (a.rows[id].status.Sent? ==> b.rows[id] == a.rows[id])
  }

  /** No committed row disappears or changes its message, and a SENT row never changes again. */
  lemma {:induction false} RowsPersist(s: State, es: seq<Event>, id: Id)
    requires Possible(s, es)
    ensures Persists(s, After(s, es), id)
    decreases |es|
  {
    if es != [] {
      RowsPersist(Next(s, es[0]), es[1..], id);
    }
  }

  lemma {:induction false} RunEnqueued(s: State, es: seq<Event>, id: Id) returns (i: nat)
    requires Possible(s, es) && id in After(s, es).rows
    ensures id !in s.rows ==>
              i < |es| && es[i] == Enqueue(id, After(s, es).rows[id].key, After(s, es).rows[id].content)
    ensures id in s.rows ==>
              s.rows[id].key == After(s, es).rows[id].key && s.rows[id].content == After(s, es).rows[id].content
    decreases |es|
  {
    i := 0;
    if es != [] {
      var j := RunEnqueued(Next(s, es[0]), es[1..], id);
      i := if id in Next(s, es[0]).rows then 0 else j + 1;
    }
  }

  /** Every row carries the key and the message it was enqueued with. */
  lemma RowsAreEnqueued(es: seq<Event>, id: Id) returns (i: nat)
    requires Possible(Init, es) && id in After(Init, es).rows
    ensures var row := After(Init, es).rows[id]; i < |es| && es[i] == Enqueue(id, row.key, row.content)
  {
    i := RunEnqueued(Init, es, id);
  }

  // ---- claim fencing ----

  /** A mark takes effect exactly when the batch's claim is the row's current one, and then the row is SENT,
      or due after the backoff with one more attempt; a superseded claim changes no row. */
  lemma MarkTakesEffectIff(s: State, k: nat, backoff: nat)
    requires Sound(s) && k < |s.batches| && s.batches[k].todo != []
    ensures var id := s.batches[k].todo[0];
            && id in s.rows
            && (AfterMarkSent(s, k, true).rows != s.rows <==> s.rows[id].HeldBy(s.ClaimOf(k)))
            && (AfterMarkFailed(s, k, backoff, true).rows != s.rows <==> s.rows[id].HeldBy(s.ClaimOf(k)))
            && (s.rows[id].HeldBy(s.ClaimOf(k)) ==>
                  && AfterMarkSent(s, k, true).rows == s.rows[id := s.rows[id].(status := Sent)]
                  && AfterMarkFailed(s, k, backoff, true).rows ==
                     s.rows[id := s.rows[id].(status := Pending, attempts := s.rows[id].attempts + 1,
                                              nextAttempt := s.now + backoff)])
  {
    var id := s.batches[k].todo[0];
    assert Guarded(s, k, id);
    if s.rows[id].HeldBy(s.ClaimOf(k)) {
      assert AfterMarkSent(s, k, true).rows[id] != s.rows[id] &&
             AfterMarkFailed(s, k, backoff, true).rows[id] != s.rows[id];
    }
  }

  /** Until its lease runs out, an unfinished batch owns its rows: any other batch's mark leaves
      them alone. */
  lemma LeaseProtects(es: seq<Event>, j: nat, k: nat, id: Id)
    requires Possible(Init, es)
    requires var s := After(Init, es);
             j < |s.batches| && k < |s.batches| && j != k && s.batches[k].todo != []
             && Unfinished(s.batches[j], id) && s.now < s.batches[j].lease
    ensures var s := After(Init, es);
            && id in s.rows && s.rows[id].HeldBy(s.ClaimOf(j))
            && AfterMarkSent(s, k, true).rows[id] == s.rows[id] && AfterMarkFailed(s, k, 0, true).rows[id] == s.rows[id]
  {
    RunSound(Init, es);
    assert Guarded(After(Init, es), j, id);
  }

  /** Two batches publish the same row only if the earlier one's lease ran out before the later
      claim; the same for two batches that both still have it to do. */
  lemma SharedOnlyAfterExpiry(es: seq<Event>, j: nat, k: nat, id: Id)
    requires Possible(Init, es)
    requires var s := After(Init, es);
             j < k < |s.batches| && Active(s.batches[j], id) && Active(s.batches[k], id)
    ensures var s := After(Init, es); s.batches[j].lease <= s.batches[k].at
  {
    RunSound(Init, es);
    var s := After(Init, es);
    assert Separate(s, j, k, id) && BatchSound(s.batches[k]);
    if Unfinished(s.batches[k], id) {
      var i :| 0 <= i < |s.batches[k].todo| && s.batches[k].todo[i] == id;
    }
  }

  /** A claim takes the rows for the batch's own token until its lease ends, and the batch does them in order. */
  lemma OnClaim(s: State, owner: string, ids: seq<Id>, ttl: nat)
    requires Enabled(s, ClaimBatch(owner, ids, ttl))
    ensures var (t, n) := (Next(s, ClaimBatch(owner, ids, ttl)), |s.batches|);
            && t.batches == s.batches + [Batch(owner, ids, Ready, s.now, s.now + ttl, Members(ids), {}, {})]
            && t.now == s.now && t.publishes == s.publishes && t.rows.Keys == s.rows.Keys
            && (forall id: Id {:trigger t.rows[id]} :: id in s.rows && id in ids ==>
                  t.rows[id] == s.rows[id].(status := Processing, owner := owner, token := n, lease := s.now + ttl))
            && (forall id: Id {:trigger t.rows[id]} :: id in s.rows && id !in ids ==> t.rows[id] == s.rows[id])
  {
  }

  /** Publishing concerns the first row left to do, marking ends it. */
  lemma OnPublish(s: State, k: nat, ok: bool)
    requires Enabled(s, Publish(k, ok))
    ensures var (b, t) := (s.batches[k], Next(s, Publish(k, ok)));
            && t.rows == s.rows && t.now == s.now && |t.batches| == |s.batches|
            && t.batches[k].todo == b.todo && t.batches[k].phase == (if ok then Delivered else Undelivered)
            && (forall id: Id :: t.Published(id) == s.Published(id) + if ok && id == b.todo[0] then 1 else 0)
  {
  }

  lemma OnMark(s: State, k: nat, e: Event)
    requires Enabled(s, e) && ((e.MarkSent? && e.k == k) || (e.MarkFailed? && e.k == k))
    ensures var (b, t) := (s.batches[k], Next(s, e));
            && t.now == s.now && t.publishes == s.publishes && |t.batches| == |s.batches|
            && t.batches[k].todo == b.todo[1..] && t.batches[k].phase == Ready
            && (!e.applied ==> t.rows == s.rows)
  {
  }

  /** A crashed batch does nothing any more. */
  lemma {:induction false} CrashedIsSilent(s: State, k: nat, es: seq<Event>, i: nat)
    requires k < |s.batches| && s.batches[k].todo == [] && Possible(s, es) && i < |es|
    ensures !(es[i].Publish? && es[i].k == k) && !(es[i].MarkSent? && es[i].k == k)
    ensures !(es[i].MarkFailed? && es[i].k == k)
    decreases |es|
  {
    if i > 0 {
      CrashedIsSilent(Next(s, es[0]), k, es[1..], i - 1);
    }
  }

  /** So after a crash the batch's rows are left as they are until another relay claims them. */
  lemma CrashEnds(s: State, k: nat, es: seq<Event>, i: nat)
    requires k < |s.batches| && Possible(Next(s, Crash(k)), es) && i < |es|
    ensures Next(s, Crash(k)).rows == s.rows && Next(s, Crash(k)).publishes == s.publishes
    ensures !(es[i].Publish? && es[i].k == k) && !(es[i].MarkSent? && es[i].k == k)
    ensures !(es[i].MarkFailed? && es[i].k == k)
  {
    CrashedIsSilent(Next(s, Crash(k)), k, es, i);
  }

  // ---- no row is stuck ----

  /** Leases are at most `longest`, and so are retry delays. */
  predicate Prompt(es: seq<Event>, longest: nat) {
    forall i :: 0 <= i < |es| ==>
      (es[i].ClaimBatch? ==> es[i].ttl <= longest) && (es[i].MarkFailed? ==> es[i].backoff <= longest)
  }

  ghost predicate DueWithin(s: State, longest: nat) {
    forall id: Id {:trigger s.rows[id]} :: id in s.rows ==>
      (s.rows[id].status.Pending? ==> s.rows[id].nextAttempt <= s.now + longest) &&
      (s.rows[id].status.Processing? ==> s.rows[id].lease <= s.now + longest)
  }

  lemma {:induction false} RunDue(s: State, es: seq<Event>, longest: nat)
    requires Possible(s, es) && DueWithin(s, longest) && Prompt(es, longest)
    ensures DueWithin(After(s, es), longest)
    decreases |es|
  {
    if es != [] {
      RunDue(Next(s, es[0]), es[1..], longest);
    }
  }

  /** Whatever crashed or failed, `longest` after any moment every row that is not SENT can be
      claimed, and a SENT row never can. */
  lemma ClaimableInTime(es: seq<Event>, longest: nat, id: Id)
    requires Possible(Init, es) && Prompt(es, longest) && id in After(Init, es).rows
    ensures var s := After(Init, es);
            s.rows[id].Claimable(s.now + longest) <==> !s.rows[id].status.Sent?
  {
    RunDue(Init, es, longest);
  }

  // ---- at most one publish, when nothing goes wrong ----

  /** No lease runs out early, no MarkSent fails, no crash between publishing and marking. */
  ghost predicate Clean(s: State, e: Event) {
    match e
    case ClaimBatch(_, ids, _) =>
      forall i, k {:trigger Unfinished(s.batches[k], ids[i])} :: 0 <= i < |ids| && 0 <= k < |s.batches| ==>
        !Unfinished(s.batches[k], ids[i])
    case MarkSent(_, applied) => applied
    case Crash(k) => k < |s.batches| && (s.batches[k].phase.Delivered? ==> s.batches[k].todo == [])
    case _ => true
  }

  ghost predicate CleanRun(s: State, es: seq<Event>)
    requires Possible(s, es)
    decreases |es|
  {
    es == [] || (Clean(s, es[0]) && CleanRun(Next(s, es[0]), es[1..]))
  }

  /** The row's current batch has published it and is about to mark it. */
  predicate Marking(s: State, row: Row, id: Id) {
    row.status.Processing? && row.token < |s.batches| && s.batches[row.token].phase.Delivered?
    && s.batches[row.token].todo != [] && s.batches[row.token].todo[0] == id
  }

  ghost predicate Once(s: State, id: Id) {
    && s.Published(id) <= 1
    && (s.Published(id) == 1 ==> id in s.rows && (s.rows[id].status.Sent? || Marking(s, s.rows[id], id)))
    && (forall k {:trigger Unfinished(s.batches[k], id)} :: 0 <= k < |s.batches| && Unfinished(s.batches[k], id) ==>
          id in s.rows && s.rows[id].HeldBy(s.ClaimOf(k)))
  }

  lemma StepOnce(s: State, e: Event, id: Id)
    requires Sound(s) && Enabled(s, e) && Clean(s, e) && Once(s, id)
    ensures Once(Next(s, e), id)
  {
    match e
    case Enqueue(_, _, _) =>
    case Tick(_) =>
    case ClaimBatch(owner, ids, ttl) => ClaimOnce(s, owner, ids, ttl, id);
    case Publish(k, ok) => PublishOnce(s, k, ok, id);
    case MarkSent(k, _) => FinishOnce(s, e, k, id);
    case MarkFailed(k, _, _) => FinishOnce(s, e, k, id);
    case Crash(k) =>
  }

  lemma ClaimOnce(s: State, owner: string, ids: seq<Id>, ttl: nat, id: Id)
    requires Sound(s) && Once(s, id)
    requires var e := ClaimBatch(owner, ids, ttl); Enabled(s, e) && Clean(s, e)
    ensures Once(Next(s, ClaimBatch(owner, ids, ttl)), id)
  {
    if id in ids {
      var i :| 0 <= i < |ids| && ids[i] == id;
      var row := s.rows[id];
      assert row.Claimable(s.now);
      if Marking(s, row, id) {
        assert Unfinished(s.batches[row.token], ids[i]);
        assert false;
      }
      assert s.Published(id) == 0;
      forall k | 0 <= k < |s.batches|
        ensures !Unfinished(s.batches[k], id)
      {
        assert !Unfinished(s.batches[k], ids[i]);
      }
    }
  }

  /** A step of batch k that changes no row of another batch. */
  lemma StillHeld(s: State, t: State, k: nat, id: Id)
    requires Once(s, id) && k < |s.batches| == |t.batches| && t.batches == s.batches[k := t.batches[k]]
    requires t.batches[k].owner == s.batches[k].owner
    requires Unfinished(t.batches[k], id) ==> Unfinished(s.batches[k], id)
    requires id in s.rows ==> id in t.rows && (t.rows[id] == s.rows[id] ||
                                               (s.rows[id].HeldBy(s.ClaimOf(k)) && !Unfinished(t.batches[k], id)))
    ensures forall j {:trigger Unfinished(t.batches[j], id)} :: 0 <= j < |t.batches| && Unfinished(t.batches[j], id) ==>
              id in t.rows && t.rows[id].HeldBy(t.ClaimOf(j))
  {
    forall j | 0 <= j < |t.batches| && Unfinished(t.batches[j], id)
      ensures id in t.rows && t.rows[id].HeldBy(t.ClaimOf(j))
    {
      assert Unfinished(s.batches[j], id);
    }
  }

  lemma PublishOnce(s: State, k: nat, ok: bool, id: Id)
    requires Sound(s) && Once(s, id) && Enabled(s, Publish(k, ok))
    ensures Once(Next(s, Publish(k, ok)), id)
  {
    var t := Next(s, Publish(k, ok));
    assert t.batches[k].todo == s.batches[k].todo;
    assert id == s.batches[k].todo[0] ==> Unfinished(s.batches[k], id);
    StillHeld(s, t, k, id);
  }

  lemma FinishOnce(s: State, e: Event, k: nat, id: Id)
    requires Sound(s) && Once(s, id) && Enabled(s, e) && Clean(s, e)
    requires e == MarkSent(k, true) || (e.MarkFailed? && e.k == k)
    ensures Once(Next(s, e), id)
  {
    var t := Next(s, e);
    var b := s.batches[k];
    assert BatchSound(b);
    assert Unfinished(b, b.todo[0]);
    StillHeld(s, t, k, id);
  }

  lemma {:induction false} CleanRunOnce(s: State, es: seq<Event>, id: Id)
    requires Sound(s) && Possible(s, es) && CleanRun(s, es) && Once(s, id)
    ensures Once(After(s, es), id)
    decreases |es|
  {
    if es != [] {
      StepOnce(s, es[0], id);
      StepSound(s, es[0]);
      CleanRunOnce(Next(s, es[0]), es[1..], id);
    }
  }

  /** In a clean run every row is published at most once, and exactly once if it is SENT. */
  lemma PublishedAtMostOnce(es: seq<Event>, id: Id)
    requires Possible(Init, es) && CleanRun(Init, es)
    ensures var s := After(Init, es);
            s.Published(id) <= 1 && (id in s.rows && s.rows[id].status.Sent? ==> s.Published(id) == 1)
  {
    CleanRunOnce(Init, es, id);
    EffectsPerClaim(es, id);
  }

  /** Early expiry alone lets a row be published twice: the second claim is made while the first
      batch is still at work. */
  lemma RepublishedAfterExpiry(key: string, content: Content)
    ensures exists es :: Possible(Init, es) && After(Init, es).Published(0) == 2
  {
    var s := TwoClaims(key, content);
    var t := Next(s, Publish(0, true));
    var u := Next(t, Publish(1, true));
    assert u.Published(0) == 2;
    Snoc([Enqueue(0, key, content), ClaimBatch("a", [0], 5), Tick(5), ClaimBatch("b", [0], 5)], s, Publish(0, true));
    Snoc([Enqueue(0, key, content), ClaimBatch("a", [0], 5), Tick(5), ClaimBatch("b", [0], 5)] + [Publish(0, true)], t,
         Publish(1, true));
  }

  ghost function TwoClaims(key: string, content: Content): (s: State)
    ensures var es := [Enqueue(0, key, content), ClaimBatch("a", [0], 5), Tick(5), ClaimBatch("b", [0], 5)];
            Possible(Init, es) && After(Init, es) == s
    ensures |s.batches| == 2 && s.batches[0].phase.Ready? && s.batches[1].phase.Ready?
    ensures s.batches[0].todo == s.batches[1].todo == [0]
    ensures s.Published(0) == 0
  {
    assert !HasKey(Init.rows, key);
    var s1 := Next(Init, Enqueue(0, key, content));
    var s2 := Next(s1, ClaimBatch("a", [0], 5));
    var s3 := Next(s2, Tick(5));
    var s4 := Next(s3, ClaimBatch("b", [0], 5));
    Cons(s3, ClaimBatch("b", [0], 5), []);
    Cons(s2, Tick(5), [ClaimBatch("b", [0], 5)]);
    Cons(s1, ClaimBatch("a", [0], 5), [Tick(5), ClaimBatch("b", [0], 5)]);
    Cons(Init, Enqueue(0, key, content), [ClaimBatch("a", [0], 5), Tick(5), ClaimBatch("b", [0], 5)]);
    s4
  }

  lemma Cons(s: State, e: Event, es: seq<Event>)
    requires Enabled(s, e) && Possible(Next(s, e), es)
    ensures Possible(s, [e] + es) && After(s, [e] + es) == After(Next(s, e), es)
  {
    assert ([e] + es)[1..] == es;
  }

  lemma Snoc(es: seq<Event>, s: State, e: Event)
    requires Possible(Init, es) && After(Init, es) == s && Enabled(s, e)
    ensures Possible(Init, es + [e]) && After(Init, es + [e]) == Next(s, e)
  {
    SnocFrom(Init, es, e);
  }

  lemma {:induction false} SnocFrom(a: State, es: seq<Event>, e: Event)
    requires Possible(a, es) && Enabled(After(a, es), e)
    ensures Possible(a, es + [e]) && After(a, es + [e]) == Next(After(a, es), e)
    decreases |es|
  {
    if es == [] {
      Cons(a, e, []);
      assert es + [e] == [e] + [];
    } else {
      SnocFrom(Next(a, es[0]), es[1..], e);
      assert (es + [e])[1..] == es[1..] + [e];
    }
  }
}
