/** The outbox protocol: any number of relays (outbox_relay.go) claim, publish and mark rows of one
    table (postgres_outbox.go), with failures, crashes and lease expiry in any order. */
module OutboxProtocol {
  import opened Counting
  import opened Outbox

  /** Between publishing a row and marking it. */
  datatype Phase = Ready | Delivered | Undelivered

  /** One processBatch run, numbered with its claim token. A finished or crashed one has an empty
      `todo`. `claimed`, `published` and `failed` are history. */
  datatype Batch = Batch(owner: string, todo: seq<Id>, phase: Phase, at: int, lease: int,
                         claimed: set<Id>, published: set<Id>, failed: set<Id>) {
    function Finish(): Batch {
      this.(todo := if todo == [] then [] else todo[1..], phase := Ready)
    }
  }

  datatype State = State(rows: Rows, now: int, batches: seq<Batch>, publishes: map<Id, nat>) {
    function Published(id: Id): nat {
      if id in publishes then publishes[id] else 0
    }

    function ClaimOf(k: nat): Claim
      requires k < |batches|
    {
      Claim(batches[k].owner, k)
    }
  }

  const Init := State(map[], 0, [], map[])

  /** How a mark statement ended for the database, whatever was reported to the relay. */
  datatype Event =
    | Enqueue(id: Id, key: string, content: Content)
    | Tick(d: nat)
    | ClaimBatch(owner: string, ids: seq<Id>, ttl: nat)
    | Publish(k: nat, ok: bool)
    | MarkSent(k: nat, applied: bool)
    | MarkFailed(k: nat, backoff: nat, applied: bool)
    | Crash(k: nat)

  /** A relay has an identity and a lease, and may get any set of claimable rows: others may be locked,
      and batches are limited. */
  ghost predicate Enabled(s: State, e: Event) {
    match e
    case Enqueue(id, _, _) => id !in s.rows
    case Tick(_) => true
    case ClaimBatch(owner, ids, ttl) =>
      && owner != "" && ttl > 0 && Distinct(ids)
      && forall i {:trigger ids[i]} :: 0 <= i < |ids| ==> ids[i] in s.rows && s.rows[ids[i]].Claimable(s.now)
    case Publish(k, _) => k < |s.batches| && s.batches[k].phase.Ready? && s.batches[k].todo != []
    case MarkSent(k, _) => k < |s.batches| && s.batches[k].phase.Delivered? && s.batches[k].todo != []
    case MarkFailed(k, _, _) => k < |s.batches| && s.batches[k].phase.Undelivered? && s.batches[k].todo != []
    case Crash(k) => k < |s.batches|
  }

  function Next(s: State, e: Event): State
    requires Enabled(s, e)
  {
    match e
    case Enqueue(id, key, content) => s.(rows := Inserted(s.rows, id, key, content, s.now))
    case Tick(d) => s.(now := s.now + d)
    case ClaimBatch(owner, ids, ttl) =>
      s.(rows := Claimed(s.rows, Members(ids), Claim(owner, |s.batches|), s.now + ttl),
         batches := s.batches + [Batch(owner, ids, Ready, s.now, s.now + ttl, Members(ids), {}, {})])
    case Publish(k, ok) => AfterPublish(s, k, ok)
    case MarkSent(k, applied) => AfterMarkSent(s, k, applied)
    case MarkFailed(k, backoff, applied) => AfterMarkFailed(s, k, backoff, applied)
    case Crash(k) => s.(batches := s.batches[k := s.batches[k].(todo := [], phase := Ready)])
  }

  function AfterPublish(s: State, k: nat, ok: bool): State
    requires k < |s.batches| && s.batches[k].todo != []
  {
    var b := s.batches[k];
    var id := b.todo[0];
    if ok then
      s.(publishes := s.publishes[id := s.Published(id) + 1],
         batches := s.batches[k := b.(phase := Delivered, published := b.published + {id})])
    else s.(batches := s.batches[k := b.(phase := Undelivered)])
  }

  function AfterMarkSent(s: State, k: nat, applied: bool): State
    requires k < |s.batches| && s.batches[k].todo != []
  {
    var b := s.batches[k];
    s.(rows := if applied then MarkedSent(s.rows, b.todo[0], s.ClaimOf(k)) else s.rows,
       batches := s.batches[k := b.Finish()])
  }

  function AfterMarkFailed(s: State, k: nat, backoff: nat, applied: bool): State
    requires k < |s.batches| && s.batches[k].todo != []
  {
    var b := s.batches[k];
    var id := b.todo[0];
    if applied && Matches(s.rows, id, s.ClaimOf(k)) then
      s.(rows := MarkedFailed(s.rows, id, s.ClaimOf(k), s.now + backoff),
         batches := s.batches[k := b.Finish().(failed := b.failed + {id})])
    else s.(batches := s.batches[k := b.Finish()])
  }

  ghost predicate Possible(s: State, es: seq<Event>)
    decreases |es|
  {
    es == [] || (Enabled(s, es[0]) && Possible(Next(s, es[0]), es[1..]))
  }

  ghost function After(s: State, es: seq<Event>): State
    requires Possible(s, es)
    decreases |es|
  {
    if es == [] then s else After(Next(s, es[0]), es[1..])
  }

  // ---- counting ----

  datatype What = Claims | Publishes | Failures

  predicate Has(b: Batch, id: Id, what: What) {
    match what
    case Claims => id in b.claimed
    case Publishes => id in b.published
    case Failures => id in b.failed
  }

  function Tally(batches: seq<Batch>, id: Id, what: What): nat {
    if batches == [] then 0
    else Tally(batches[..|batches| - 1], id, what) + if Has(batches[|batches| - 1], id, what) then 1 else 0
  }

  lemma {:induction false} TallyUpdate(batches: seq<Batch>, k: nat, b: Batch, id: Id, what: What)
    requires k < |batches|
    ensures Tally(batches[k := b], id, what) + (if Has(batches[k], id, what) then 1 else 0)
         == Tally(batches, id, what) + if Has(b, id, what) then 1 else 0
  {
    var n := |batches| - 1;
    if k == n {
      assert batches[k := b][..n] == batches[..n];
    } else {
      TallyUpdate(batches[..n], k, b, id, what);
      assert batches[k := b][..n] == batches[..n][k := b];
    }
  }

  // ---- a batch on its own ----

  /** What a batch has not finished: its head may already be published but not marked. */
  predicate Unfinished(b: Batch, id: Id) {
    id in b.todo
  }

  ghost predicate BatchSound(b: Batch) {
    && Distinct(b.todo) && (forall i {:trigger b.todo[i]} :: 0 <= i < |b.todo| ==> b.todo[i] in b.claimed)
    && b.published <= b.claimed && b.failed <= b.claimed && b.published !! b.failed
    && (forall i {:trigger b.todo[i]} :: 0 <= i < |b.todo| ==> b.todo[i] !in b.failed)
    && (forall i {:trigger b.todo[i]} :: 0 <= i < |b.todo| && (i > 0 || !b.phase.Delivered?) ==>
          b.todo[i] !in b.published)
    && (b.phase.Delivered? && b.todo != [] ==> b.todo[0] in b.published)
  }

  lemma {:induction false} TermwiseAtMost(batches: seq<Batch>, id: Id)
    requires forall k {:trigger batches[k]} :: 0 <= k < |batches| ==> BatchSound(batches[k])
    ensures Tally(batches, id, Publishes) + Tally(batches, id, Failures) <= Tally(batches, id, Claims)
  {
    if batches != [] {
      TermwiseAtMost(batches[..|batches| - 1], id);
      assert BatchSound(batches[|batches| - 1]);
    }
  }

  // ---- the invariant ----

  predicate OwnedByBatch(s: State, row: Row) {
    row.token < |s.batches| && s.batches[row.token].owner == row.owner && s.batches[row.token].lease == row.lease
  }

  /** A row's current token is a claim of its, and its counters are what its batches did. */
  ghost predicate RowSound(s: State, id: Id) {
    id in s.rows ==>
      && s.rows[id].attempts == Tally(s.batches, id, Failures)
      && (s.rows[id].status.Sent? ==> s.Published(id) >= 1)
      && (s.rows[id].status.Processing? ==> OwnedByBatch(s, s.rows[id]))
  }

  /** The batch may still publish the row, or has published it. */
  predicate Active(b: Batch, id: Id) {
    Unfinished(b, id) || id in b.published
  }

  /** Such a row is still held with the batch's own claim, or the lease has run out, or the row
      is published and marked. */
  ghost predicate Guarded(s: State, k: nat, id: Id)
    requires k < |s.batches|
  {
    Active(s.batches[k], id) ==>
      && id in s.rows
      && (s.rows[id].HeldBy(s.ClaimOf(k)) || s.batches[k].lease <= s.now ||
          (s.rows[id].status.Sent? && !Unfinished(s.batches[k], id)))
  }

  /** A row an earlier batch may publish, or has published, is claimed only after that batch's lease. */
  ghost predicate Separate(s: State, j: nat, k: nat, id: Id)
    requires j < |s.batches| && k < |s.batches|
  {
    j < k && Active(s.batches[j], id) && id in s.batches[k].claimed ==> s.batches[j].lease <= s.batches[k].at
  }

  ghost predicate Sound(s: State) {
    && UniqueKeys(s.rows)
    && (forall k {:trigger s.batches[k]} :: 0 <= k < |s.batches| ==>
          BatchSound(s.batches[k]) && s.batches[k].at <= s.now)
    && (forall id: Id {:trigger RowSound(s, id)} :: RowSound(s, id))
    && (forall id: Id {:trigger s.Published(id)} :: s.Published(id) == Tally(s.batches, id, Publishes))
    && (forall k: nat, id: Id {:trigger Guarded(s, k, id)} :: k < |s.batches| ==> Guarded(s, k, id))
    && (forall j: nat, k: nat, id: Id {:trigger Separate(s, j, k, id)} :: j < |s.batches| && k < |s.batches| ==>
          Separate(s, j, k, id))
    && (forall id: Id {:trigger id in s.rows} :: id !in s.rows ==> Tally(s.batches, id, Claims) == 0)
  }

  // ---- the invariant holds in every run ----

  /** The batch's progress may change, not what it is. */
  ghost predicate SameClaim(a: Batch, b: Batch) {
    && b.owner == a.owner && b.at == a.at && b.lease == a.lease && b.claimed == a.claimed && BatchSound(b)
    && (forall id {:trigger id in b.todo} :: id in b.todo ==> id in a.todo)
    && (forall id {:trigger id in b.published} :: id in b.published ==> Active(a, id))
  }

  /** The batch is through with the row: it is marked sent, or was not published. */
  predicate Closes(t: State, k: nat, id: Id)
    requires k < |t.batches|
  {
    id in t.rows && id !in t.batches[k].todo && (t.rows[id].status.Sent? || id !in t.batches[k].published)
  }

  /** A batch step: batch k makes progress, and only rows it holds and finishes change. */
  ghost predicate Progress(s: State, t: State, k: nat) {
    && k < |s.batches| == |t.batches| && t.now == s.now && t.rows.Keys == s.rows.Keys
    && t.batches == s.batches[k := t.batches[k]] && SameClaim(s.batches[k], t.batches[k])
    && (forall id: Id {:trigger t.rows[id]} :: id in s.rows ==>
          t.rows[id] == s.rows[id] || (s.rows[id].HeldBy(s.ClaimOf(k)) && t.rows[id].key == s.rows[id].key &&
                                       Closes(t, k, id)))
  }

  lemma ProgressGuarded(s: State, t: State, k: nat)
    requires Sound(s) && Progress(s, t, k)
    ensures forall j: nat, id: Id {:trigger Guarded(t, j, id)} :: j < |t.batches| ==> Guarded(t, j, id)
    ensures forall i: nat, j: nat, id: Id {:trigger Separate(t, i, j, id)} ::
              i < |t.batches| && j < |t.batches| ==> Separate(t, i, j, id)
    ensures UniqueKeys(t.rows)
  {
    forall j: nat, id: Id | j < |t.batches|
      ensures Guarded(t, j, id)
    {
      assert Guarded(s, j, id);
      assert id in s.rows ==> t.rows[id] == s.rows[id] || (s.rows[id].HeldBy(s.ClaimOf(k)) && Closes(t, k, id));
    }
    forall i: nat, j: nat, id: Id | i < |t.batches| && j < |t.batches|
      ensures Separate(t, i, j, id)
    {
      assert Separate(s, i, j, id);
    }
    forall i: Id, j: Id | i in t.rows && j in t.rows && t.rows[i].key == t.rows[j].key
      ensures i == j
    {
      assert t.rows[i].key == s.rows[i].key && t.rows[j].key == s.rows[j].key;
    }
  }

  lemma TallyHas(batches: seq<Batch>, k: nat, id: Id, what: What)
    requires k < |batches| && Has(batches[k], id, what)
    ensures Tally(batches, id, what) >= 1
  {
    TallyUpdate(batches, k, Batch("", [], Ready, 0, 0, {}, {}, {}), id, what);
  }

  lemma TalliesAfter(batches: seq<Batch>, k: nat, b: Batch, id: Id)
    requires k < |batches| && b.claimed == batches[k].claimed && batches[k].published <= b.published
    requires batches[k].failed <= b.failed
    ensures Tally(batches[k := b], id, Claims) == Tally(batches, id, Claims)
    ensures Tally(batches[k := b], id, Publishes) == Tally(batches, id, Publishes) +
            if id in b.published - batches[k].published then 1 else 0
    ensures Tally(batches[k := b], id, Failures) == Tally(batches, id, Failures) +
            if id in b.failed - batches[k].failed then 1 else 0
  {
    TallyUpdate(batches, k, b, id, Claims);
    TallyUpdate(batches, k, b, id, Publishes);
    TallyUpdate(batches, k, b, id, Failures);
  }

  /** Every batch step keeps the invariant once its rows and counters are in step. */
  lemma ProgressSound(s: State, t: State, k: nat)
    requires Sound(s) && Progress(s, t, k)
    requires forall id: Id {:trigger RowSound(t, id)} :: RowSound(t, id)
    requires forall id: Id {:trigger t.Published(id)} :: t.Published(id) == Tally(t.batches, id, Publishes)
    requires s.batches[k].published <= t.batches[k].published && s.batches[k].failed <= t.batches[k].failed
    ensures Sound(t)
  {
    ProgressGuarded(s, t, k);
    forall id: Id | id !in t.rows
      ensures Tally(t.batches, id, Claims) == 0
    {
      TalliesAfter(s.batches, k, t.batches[k], id);
    }
  }

  lemma PublishSound(s: State, k: nat, ok: bool)
    requires Sound(s) && Enabled(s, Publish(k, ok))
    ensures Sound(Next(s, Publish(k, ok)))
  {
    var t := Next(s, Publish(k, ok));
    var b := s.batches[k];
    assert BatchSound(b);
    assert BatchSound(t.batches[k]);
    forall id: Id
      ensures RowSound(t, id) && t.Published(id) == Tally(t.batches, id, Publishes)
    {
      assert RowSound(s, id) && s.Published(id) == Tally(s.batches, id, Publishes);
      TalliesAfter(s.batches, k, t.batches[k], id);
    }
    ProgressSound(s, t, k);
  }

  lemma SentSound(s: State, k: nat, applied: bool)
    requires Sound(s) && Enabled(s, MarkSent(k, applied))
    ensures Sound(Next(s, MarkSent(k, applied)))
  {
    var t := Next(s, MarkSent(k, applied));
    var b := s.batches[k];
    assert BatchSound(b);
    TallyHas(s.batches, k, b.todo[0], Publishes);
    forall id: Id
      ensures RowSound(t, id) && t.Published(id) == Tally(t.batches, id, Publishes)
    {
      SentRow(s, k, applied, id);
    }
    ProgressSound(s, t, k);
  }

  lemma SentRow(s: State, k: nat, applied: bool, id: Id)
    requires k < |s.batches| && s.batches[k].todo != [] && Tally(s.batches, s.batches[k].todo[0], Publishes) >= 1
    requires forall other: Id {:trigger s.Published(other)} :: s.Published(other) == Tally(s.batches, other, Publishes)
    requires RowSound(s, id)
    ensures RowSound(AfterMarkSent(s, k, applied), id)
    ensures AfterMarkSent(s, k, applied).Published(id) == Tally(AfterMarkSent(s, k, applied).batches, id, Publishes)
  {
    var t := AfterMarkSent(s, k, applied);
    var b := s.batches[k].Finish();
    TalliesAfter(s.batches, k, b, id);
    assert t.batches == s.batches[k := b];
    assert t.publishes == s.publishes;
    assert t.Published(id) == s.Published(id);
    assert s.Published(s.batches[k].todo[0]) == Tally(s.batches, s.batches[k].todo[0], Publishes);
  }

  lemma FailedSound(s: State, k: nat, backoff: nat, applied: bool)
    requires Sound(s) && Enabled(s, MarkFailed(k, backoff, applied))
    ensures Sound(Next(s, MarkFailed(k, backoff, applied)))
  {
    var t := Next(s, MarkFailed(k, backoff, applied));
    var b := s.batches[k];
    assert BatchSound(b);
    assert b.todo[0] in b.claimed && b.todo[0] !in b.published && b.todo[0] !in b.failed;
    assert BatchSound(t.batches[k]);
    forall id: Id
      ensures RowSound(t, id) && t.Published(id) == Tally(t.batches, id, Publishes)
    {
      FailedRow(s, k, backoff, applied, id);
    }
    ProgressSound(s, t, k);
  }

  lemma CrashSound(s: State, k: nat)
    requires Sound(s) && Enabled(s, Crash(k))
    ensures Sound(Next(s, Crash(k)))
  {
    var t := Next(s, Crash(k));
    assert BatchSound(s.batches[k]);
    forall id: Id
      ensures RowSound(t, id) && t.Published(id) == Tally(t.batches, id, Publishes)
    {
      assert RowSound(s, id) && s.Published(id) == Tally(s.batches, id, Publishes);
      TalliesAfter(s.batches, k, t.batches[k], id);
    }
    ProgressSound(s, t, k);
  }

  lemma EnqueueSound(s: State, id: Id, key: string, content: Content)
    requires Sound(s) && Enabled(s, Enqueue(id, key, content))
    ensures Sound(Next(s, Enqueue(id, key, content)))
  {
    var t := Next(s, Enqueue(id, key, content));
    InsertKeepsUnique(s.rows, id, key, content, s.now);
    TermwiseAtMost(s.batches, id);
    forall other: Id
      ensures RowSound(t, other) && t.Published(other) == Tally(t.batches, other, Publishes)
    {
      assert RowSound(s, other) && s.Published(other) == Tally(s.batches, other, Publishes);
    }
    forall k: nat, other: Id | k < |t.batches|
      ensures Guarded(t, k, other)
    {
      assert Guarded(s, k, other);
    }
    forall j: nat, k: nat, other: Id | j < |t.batches| && k < |t.batches|
      ensures Separate(t, j, k, other)
    {
      assert Separate(s, j, k, other);
    }
  }

  lemma TickSound(s: State, d: nat)
    requires Sound(s)
    ensures Sound(Next(s, Tick(d)))
  {
    var t := Next(s, Tick(d));
    forall id: Id
      ensures RowSound(t, id) && t.Published(id) == Tally(t.batches, id, Publishes)
    {
      assert RowSound(s, id) && s.Published(id) == Tally(s.batches, id, Publishes);
    }
    forall k: nat, id: Id | k < |t.batches|
      ensures Guarded(t, k, id)
    {
      assert Guarded(s, k, id);
    }
    forall j: nat, k: nat, id: Id | j < |t.batches| && k < |t.batches|
      ensures Separate(t, j, k, id)
    {
      assert Separate(s, j, k, id);
    }
  }

  lemma NewBatchSound(owner: string, ids: seq<Id>, at: int, lease: int)
    requires Distinct(ids)
    ensures BatchSound(Batch(owner, ids, Ready, at, lease, Members(ids), {}, {}))
  {
  }

  lemma ClaimSound(s: State, owner: string, ids: seq<Id>, ttl: nat)
    requires Sound(s) && Enabled(s, ClaimBatch(owner, ids, ttl))
    ensures Sound(Next(s, ClaimBatch(owner, ids, ttl)))
  {
    var t := Next(s, ClaimBatch(owner, ids, ttl));
    ClaimGuarded(s, owner, ids, ttl);
    NewBatchSound(owner, ids, s.now, s.now + ttl);
    ClaimKeepsKeys(s.rows, Members(ids), Claim(owner, |s.batches|), s.now + ttl);
    assert forall k {:trigger t.batches[k]} :: 0 <= k < |s.batches| ==> t.batches[k] == s.batches[k];
    forall id: Id
      ensures RowSound(t, id) && t.Published(id) == Tally(t.batches, id, Publishes)
      ensures id !in t.rows ==> Tally(t.batches, id, Claims) == 0
    {
      ClaimRow(s, owner, ids, ttl, id);
    }
  }

  lemma ClaimKeepsKeys(rows: Rows, ids: set<Id>, claim: Claim, lease: int)
    requires UniqueKeys(rows)
    ensures UniqueKeys(Claimed(rows, ids, claim, lease))
  {
    var after := Claimed(rows, ids, claim, lease);
    forall i: Id, j: Id | i in after && j in after && after[i].key == after[j].key
      ensures i == j
    {
      assert rows[i].key == after[i].key && rows[j].key == after[j].key;
    }
  }

  lemma ClaimRow(s: State, owner: string, ids: seq<Id>, ttl: nat, id: Id)
    requires Enabled(s, ClaimBatch(owner, ids, ttl))
    requires RowSound(s, id) && s.Published(id) == Tally(s.batches, id, Publishes)
    requires id !in s.rows ==> Tally(s.batches, id, Claims) == 0
    ensures var t := Next(s, ClaimBatch(owner, ids, ttl));
            RowSound(t, id) && t.Published(id) == Tally(t.batches, id, Publishes) &&
            (id !in t.rows ==> Tally(t.batches, id, Claims) == 0)
  {
    var t := Next(s, ClaimBatch(owner, ids, ttl));
    var b := t.batches[|s.batches|];
    assert id in t.rows <==> id in s.rows;
    NewBatchTally(s.batches, b, id, Publishes);
    NewBatchTally(s.batches, b, id, Failures);
    NewBatchTally(s.batches, b, id, Claims);
    if id in ids {
      var i :| 0 <= i < |ids| && ids[i] == id;
      assert s.rows[ids[i]].Claimable(s.now);
    }
  }

  lemma NewBatchTally(batches: seq<Batch>, b: Batch, id: Id, what: What)
    ensures Tally(batches + [b], id, what) == Tally(batches, id, what) + if Has(b, id, what) then 1 else 0
  {
    assert (batches + [b])[..|batches|] == batches;
  }

  lemma ClaimGuarded(s: State, owner: string, ids: seq<Id>, ttl: nat)
    requires Sound(s) && Enabled(s, ClaimBatch(owner, ids, ttl))
    ensures var t := Next(s, ClaimBatch(owner, ids, ttl));
            && (forall k: nat, id: Id {:trigger Guarded(t, k, id)} :: k < |t.batches| ==> Guarded(t, k, id))
            && (forall j: nat, k: nat, id: Id {:trigger Separate(t, j, k, id)} ::
                  j < |t.batches| && k < |t.batches| ==> Separate(t, j, k, id))
  {
    var t := Next(s, ClaimBatch(owner, ids, ttl));
    forall k: nat, id: Id | k < |t.batches|
      ensures Guarded(t, k, id)
    {
      if k < |s.batches| && Active(s.batches[k], id) {
        ReclaimExpired(s, ids, k, id);
      }
    }
    forall j: nat, k: nat, id: Id | j < |t.batches| && k < |t.batches|
      ensures Separate(t, j, k, id)
    {
      if k < |s.batches| && j < k {
        assert Separate(s, j, k, id);
      } else if j < k && Active(s.batches[j], id) {
        ReclaimExpired(s, ids, j, id);
      }
    }
  }

  /** Such a row becomes claimable only by the expiry of that batch's lease. */
  lemma ReclaimExpired(s: State, ids: seq<Id>, k: nat, id: Id)
    requires Sound(s) && k < |s.batches| && Active(s.batches[k], id)
    requires forall i {:trigger ids[i]} :: 0 <= i < |ids| ==> ids[i] in s.rows && s.rows[ids[i]].Claimable(s.now)
    ensures id in ids ==> s.batches[k].lease <= s.now
    ensures Guarded(s, k, id)
  {
    assert Guarded(s, k, id) && RowSound(s, id);
  }

  lemma StepSound(s: State, e: Event)
    requires Sound(s) && Enabled(s, e)
    ensures Sound(Next(s, e))
  {
    match e
    case Enqueue(id, key, content) => EnqueueSound(s, id, key, content);
    case Tick(d) => TickSound(s, d);
    case ClaimBatch(owner, ids, ttl) => ClaimSound(s, owner, ids, ttl);
    case Publish(k, ok) => PublishSound(s, k, ok);
    case MarkSent(k, applied) => SentSound(s, k, applied);
    case MarkFailed(k, backoff, applied) => FailedSound(s, k, backoff, applied);
    case Crash(k) => CrashSound(s, k);
  }

  lemma {:induction false} RunSound(s: State, es: seq<Event>)
    requires Sound(s) && Possible(s, es)
    ensures Sound(After(s, es))
    decreases |es|
  {
    if es != [] {
      StepSound(s, es[0]);
      RunSound(Next(s, es[0]), es[1..]);
    }
  }

  lemma FailedRow(s: State, k: nat, backoff: nat, applied: bool, id: Id)
    requires k < |s.batches| && s.batches[k].todo != [] && s.batches[k].todo[0] !in s.batches[k].failed
    requires s.Published(id) == Tally(s.batches, id, Publishes) && RowSound(s, id)
    ensures RowSound(AfterMarkFailed(s, k, backoff, applied), id)
    ensures AfterMarkFailed(s, k, backoff, applied).Published(id) ==
            Tally(AfterMarkFailed(s, k, backoff, applied).batches, id, Publishes)
  {
    TalliesAfter(s.batches, k, AfterMarkFailed(s, k, backoff, applied).batches[k], id);
  }
}
