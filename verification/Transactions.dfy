/** The retried transaction of tx_runner.go, and the unit of work of uow.go that joins business
    writes, outbox rows and the after-commit signal. */
module Transactions {
  import opened Options
  import opened Outbox

  /** `retryable` is a lock, deadlock or serialization code somewhere in the error chain. */
  datatype Error = Error(retryable: bool)

  datatype Write = Write(key: string, value: string)

  /** One enqueue: `accepted` says whether the INSERT statement succeeded. */
  datatype Enqueue = Enqueue(id: Id, key: string, content: Content, now: int, accepted: bool)

  /** How the caller's function ends. */
  datatype End = Returns | Fails(error: Error) | Panics

  /** What happens on one attempt: the function's statements and result, what BEGIN and COMMIT
      answer, and whether the context is cancelled right after or during the backoff. */
  datatype Attempt = Attempt(begin: Option<Error>, writes: seq<Write>, enqueues: seq<Enqueue>, end: End,
                             commit: Option<Error>, cancelled: bool, cancelledWaiting: bool)

  datatype Data = Data(business: map<string, string>, rows: Rows)

  // ---- what a transaction does ----

  function Written(business: map<string, string>, writes: seq<Write>): map<string, string> {
    if writes == [] then business
    else Written(business, writes[..|writes| - 1])[writes[|writes| - 1].key := writes[|writes| - 1].value]
  }

  /** A primary key that is taken fails the INSERT. */
  predicate Takes(rows: Rows, q: Enqueue) {
    q.accepted && q.id !in rows
  }

  function Enqueued(rows: Rows, qs: seq<Enqueue>): Rows {
    if qs == [] then rows
    else
      var (before, q) := (Enqueued(rows, qs[..|qs| - 1]), qs[|qs| - 1]);
      if Takes(before, q) then Inserted(before, q.id, q.key, q.content, q.now) else before
  }

  /** The data with all of one attempt's statements, and nothing else. */
  function Applied(data: Data, a: Attempt): Data {
    Data(Written(data.business, a.writes), Enqueued(data.rows, a.enqueues))
  }

  predicate AnyTaken(rows: Rows, qs: seq<Enqueue>) {
    qs != [] && (AnyTaken(rows, qs[..|qs| - 1]) || Takes(Enqueued(rows, qs[..|qs| - 1]), qs[|qs| - 1]))
  }

  /** The attempt set the unit of work's enqueued flag: some EnqueueTx returned nil. */
  predicate Flags(data: Data, a: Attempt) {
    a.begin.None? && AnyTaken(data.rows, a.enqueues)
  }

  // ---- the runner ----

  class Database {
    var data: Data

    constructor (data: Data)
      ensures this.data == data
    {
      this.data := data;
    }

    /** BEGIN, the function, COMMIT; every error path rolls back. */
    method DoOnce(a: Attempt) returns (err: Option<Error>, flagged: bool)
      modifies this
      ensures err.None? <==> a.begin.None? && a.end.Returns? && a.commit.None?
      ensures a.begin.Some? ==> err == a.begin
      ensures a.begin.None? && a.end.Fails? ==> err == Some(a.end.error)
      ensures a.begin.None? && a.end.Panics? ==> err == Some(Error(false))
      ensures a.begin.None? && a.end.Returns? ==> err == a.commit
      ensures flagged <==> a.begin.None? && AnyTaken(old(data).rows, a.enqueues)
      ensures data == if err.Some? then old(data)
                      else Data(Written(old(data).business, a.writes), Enqueued(old(data).rows, a.enqueues))
    {
      flagged := false;
      if a.begin.Some? {
        return a.begin, false;
      }
      var tx := data;
      for i := 0 to |a.writes|
        invariant tx == Data(Written(data.business, a.writes[..i]), data.rows)
      {
        assert a.writes[..i + 1][..i] == a.writes[..i];
        tx := tx.(business := tx.business[a.writes[i].key := a.writes[i].value]);
      }
      assert a.writes[..|a.writes|] == a.writes;
      for i := 0 to |a.enqueues|
        invariant tx == Data(Written(data.business, a.writes), Enqueued(data.rows, a.enqueues[..i]))
        invariant flagged == AnyTaken(data.rows, a.enqueues[..i])
      {
        assert a.enqueues[..i + 1][..i] == a.enqueues[..i];
        var q := a.enqueues[i];
        if Takes(tx.rows, q) {
          flagged := true;
          tx := tx.(rows := Inserted(tx.rows, q.id, q.key, q.content, q.now));
        }
      }
      assert a.enqueues[..|a.enqueues|] == a.enqueues;
      match a.end {
        case Fails(error) => err := Some(error);
        case Panics => err := Some(Error(false));
        case Returns =>
          err := a.commit;
          if err.None? {
            data := tx;
          }
      }
    }

    /** The retry loop; `script(k)` is what happens on attempt k + 1. `flagged` is the flag the
        caller's closure sets, which no attempt resets. */
    method Do(script: nat -> Attempt, retryAttempts: int) returns (err: Option<Error>, flagged: bool, ghost used: nat)
      modifies this
      ensures 1 <= used <= (if retryAttempts <= 0 then 1 else retryAttempts)
      ensures var a := script(used - 1); err.None? <==> a.begin.None? && a.end.Returns? && a.commit.None?
      ensures var a := script(used - 1);
              && (a.begin.Some? ==> err == a.begin)
              && (a.begin.None? && a.end.Fails? ==> err == Some(a.end.error))
              && (a.begin.None? && a.end.Panics? ==> err == Some(Error(false)))
              && (a.begin.None? && a.end.Returns? ==> err == a.commit)
      ensures var a := script(used - 1);
              data == if err.Some? then old(data)
                      else Data(Written(old(data).business, a.writes), Enqueued(old(data).rows, a.enqueues))
      ensures forall k: nat {:trigger script(k)} :: k < used - 1 ==>
                var a := script(k);
                && !a.cancelled && !a.cancelledWaiting
                && (|| a.begin == Some(Error(true))
                    || (a.begin.None? && a.end == Fails(Error(true)))
                    || (a.begin.None? && a.end.Returns? && a.commit == Some(Error(true))))
      ensures used < (if retryAttempts <= 0 then 1 else retryAttempts) ==>
                || err.None? || !err.value.retryable || script(used - 1).cancelled || script(used - 1).cancelledWaiting
      ensures flagged <==> exists k: nat ::
                             k < used && script(k).begin.None? && AnyTaken(old(data).rows, script(k).enqueues)
    {
      var attempts := if retryAttempts <= 0 then 1 else retryAttempts;
      flagged, used := false, 0;
      err := None;
      var attempt := 1;
      while attempt <= attempts
        invariant 1 <= attempt <= attempts && used == attempt - 1 && data == old(data)
        invariant forall k: nat {:trigger script(k)} :: k < used ==>
          var a := script(k);
          && !a.cancelled && !a.cancelledWaiting
          && (|| a.begin == Some(Error(true))
              || (a.begin.None? && a.end == Fails(Error(true)))
              || (a.begin.None? && a.end.Returns? && a.commit == Some(Error(true))))
        invariant flagged <==> exists k: nat ::
                                 k < used && script(k).begin.None? && AnyTaken(data.rows, script(k).enqueues)
        decreases attempts - attempt
      {
        var a := script(attempt - 1);
        var f;
        err, f := DoOnce(a);
        flagged, used := flagged || f, attempt;
        if err.None? || !err.value.retryable || attempt == attempts || a.cancelled {
          return;
        }
        if a.cancelledWaiting {
          return;
        }
        attempt := attempt + 1;
      }
    }

    /** The unit of work: its runner has no retry attempts set, so it makes one attempt; the signal is
        sent after a commit if that attempt enqueued anything. */
    method DoWork(a: Attempt, hasSignal: bool) returns (err: Option<Error>, signalled: bool)
      modifies this
      ensures err.None? <==> a.begin.None? && a.end.Returns? && a.commit.None?
      ensures a.begin.Some? ==> err == a.begin
      ensures a.begin.None? && a.end.Fails? ==> err == Some(a.end.error)
      ensures a.begin.None? && a.end.Panics? ==> err == Some(Error(false))
      ensures a.begin.None? && a.end.Returns? ==> err == a.commit
      ensures data == if err.Some? then old(data)
                      else Data(Written(old(data).business, a.writes), Enqueued(old(data).rows, a.enqueues))
      ensures signalled <==> err.None? && hasSignal && AnyTaken(old(data).rows, a.enqueues)
    {
      var script := (k: nat) => a;
      var flagged;
      ghost var used;
      err, flagged, used := Do(script, 0);
      assert script(0) == a;
      signalled := err.None? && flagged && hasSignal;
    }
  }

  // ---- laws ----

  /** Every enqueue that was accepted had a key that was already in the table. */
  predicate AllKnown(rows: Rows, qs: seq<Enqueue>) {
    qs == []
    || (AllKnown(rows, qs[..|qs| - 1]) && (Takes(Enqueued(rows, qs[..|qs| - 1]), qs[|qs| - 1]) ==>
          HasKey(rows, qs[|qs| - 1].key)))
  }

  /** A list of enqueues leaves the rows as they are exactly when it accepts known keys only. */
  lemma {:induction false} UnchangedIffKnown(rows: Rows, qs: seq<Enqueue>)
    ensures Enqueued(rows, qs) == rows <==> AllKnown(rows, qs)
  {
    if qs != [] {
      var mid := Enqueued(rows, qs[..|qs| - 1]);
      UnchangedIffKnown(rows, qs[..|qs| - 1]);
      EnqueuedKeeps(rows, qs[..|qs| - 1]);
      if Enqueued(rows, qs) == rows {
        assert mid.Keys == rows.Keys;
        assert mid == rows;
      }
    }
  }

  /** Rows appear only when something was accepted, so a commit that adds a row always signals. */
  lemma {:induction false} NewRowsAreFlagged(rows: Rows, qs: seq<Enqueue>)
    ensures !AnyTaken(rows, qs) ==> Enqueued(rows, qs) == rows
  {
    if qs != [] {
      NewRowsAreFlagged(rows, qs[..|qs| - 1]);
    }
  }

  /** A committed unit of work that added a row signals; and one that signals has added none exactly
      when every key it enqueued was already in the table. */
  lemma SignalMeaning(before: Data, a: Attempt)
    requires a.begin.None? && a.end.Returns? && a.commit.None?
    ensures Applied(before, a).rows != before.rows ==> Flags(before, a)
    ensures Applied(before, a).rows == before.rows <==> AllKnown(before.rows, a.enqueues)
  {
    NewRowsAreFlagged(before.rows, a.enqueues);
    UnchangedIffKnown(before.rows, a.enqueues);
  }

  /** That happens: a unit of work that enqueues a key again signals, and changes nothing. */
  lemma SignalWithoutRow(key: string, content: Content)
    ensures var (a, again) := (OneEnqueue(0, key, content), OneEnqueue(1, key, content));
            var before := Applied(Data(map[], map[]), a);
            before.rows != map[] && Flags(before, again) &&
            Applied(before, again) == before
  {
    var (a, again) := (OneEnqueue(0, key, content), OneEnqueue(1, key, content));
    assert a.enqueues[..0] == [] && again.enqueues[..0] == [];
    var rows: Rows := map[];
    var row := Row(key, content, Pending, 0, 0, "", 0, 0, 0);
    assert !HasKey(rows, key);
    assert Enqueued(rows, []) == rows;
    assert Enqueued(rows, a.enqueues) == map[0 := row];
    assert map[0 := row][0].key == key;
    assert HasKey(map[0 := row], key);
    assert Enqueued(map[0 := row], []) == map[0 := row];
  }

  function OneEnqueue(id: Id, key: string, content: Content): Attempt {
    Attempt(None, [], [Enqueue(id, key, content, 0, true)], Returns, None, false, false)
  }

  /** The outbox keeps one row per dispatch key through any transaction. */
  lemma {:induction false} EnqueuedUnique(rows: Rows, qs: seq<Enqueue>)
    requires UniqueKeys(rows)
    ensures UniqueKeys(Enqueued(rows, qs))
  {
    if qs != [] {
      var (before, q) := (Enqueued(rows, qs[..|qs| - 1]), qs[|qs| - 1]);
      EnqueuedUnique(rows, qs[..|qs| - 1]);
      if Takes(before, q) {
        InsertKeepsUnique(before, q.id, q.key, q.content, q.now);
      }
    }
  }

  // ---- what a committed attempt leaves ----

  /** A business key holds what the last write of it wrote, and otherwise what it held. */
  lemma {:induction false} WrittenMeaning(business: map<string, string>, writes: seq<Write>, key: string)
      returns (i: nat)
    ensures i < |writes| ==>
              && writes[i].key == key && (forall j :: i < j < |writes| ==> writes[j].key != key)
              && key in Written(business, writes) && Written(business, writes)[key] == writes[i].value
    ensures i >= |writes| ==>
              && (forall j :: 0 <= j < |writes| ==> writes[j].key != key)
              && (key in Written(business, writes) <==> key in business)
              && (key in business ==> Written(business, writes)[key] == business[key])
  {
    i := 0;
    if writes != [] {
      var n := |writes| - 1;
      i := WrittenMeaning(business, writes[..n], key);
      if writes[n].key == key {
        i := n;
      } else if i >= n {
        i := n + 1;
      }
    }
  }

  /** Enqueue i is accepted under a free primary key, and its dispatch key is not in the table yet. */
  ghost predicate Adds(rows: Rows, qs: seq<Enqueue>, i: nat) {
    && i < |qs| && qs[i].accepted
    && var before := Enqueued(rows, qs[..i]);
    && qs[i].id !in before && forall id: Id :: id in before ==> before[id].key != qs[i].key
  }

  /** The rows afterwards are the rows before, and one pending row for every enqueue that adds one: with its
      content, no attempts, and due at once. */
  lemma {:induction false} EnqueuedMeaning(rows: Rows, qs: seq<Enqueue>, id: Id)
    ensures id in rows ==> id in Enqueued(rows, qs) && Enqueued(rows, qs)[id] == rows[id]
    ensures id !in rows ==>
              (id in Enqueued(rows, qs) <==> exists i: nat :: Adds(rows, qs, i) && qs[i].id == id)
    ensures forall i: nat :: Adds(rows, qs, i) && qs[i].id == id && id !in rows ==>
              id in Enqueued(rows, qs) && Enqueued(rows, qs)[id] ==
                                          Row(qs[i].key, qs[i].content, Pending, 0, qs[i].now, "", 0, 0, qs[i].now)
  {
    if qs != [] {
      var n := |qs| - 1;
      EnqueuedMeaning(rows, qs[..n], id);
      forall i: nat
        ensures i < n ==> (Adds(rows, qs, i) <==> Adds(rows, qs[..n], i))
      {
        if i < n {
          assert qs[..n][..i] == qs[..i];
        }
      }
      var before := Enqueued(rows, qs[..n]);
      assert Adds(rows, qs, n) <==> Takes(before, qs[n]) && !HasKey(before, qs[n].key);
      if id !in rows && id in Enqueued(rows, qs) && id !in before {
        assert Adds(rows, qs, n) && qs[n].id == id;
      }
    }
  }

  /** Some enqueue was accepted exactly when the flag of the unit of work is set. */
  lemma {:induction false} AnyTakenMeaning(rows: Rows, qs: seq<Enqueue>)
    ensures AnyTaken(rows, qs) <==> exists i: nat :: i < |qs| && qs[i].accepted && qs[i].id !in Enqueued(rows, qs[..i])
  {
    if qs != [] {
      var n := |qs| - 1;
      AnyTakenMeaning(rows, qs[..n]);
      forall i: nat | i < n
        ensures qs[..n][..i] == qs[..i]
      {
      }
      if i: nat :| i < |qs| && qs[i].accepted && qs[i].id !in Enqueued(rows, qs[..i]) {
        if i < n {
          assert qs[..n][i].accepted && qs[..n][i].id !in Enqueued(rows, qs[..n][..i]);
        }
      }
    }
  }

  lemma {:induction false} EnqueuedKeeps(rows: Rows, qs: seq<Enqueue>)
    ensures forall id: Id {:trigger rows[id]} :: id in rows ==>
              id in Enqueued(rows, qs) && Enqueued(rows, qs)[id] == rows[id]
  {
    if qs != [] {
      EnqueuedKeeps(rows, qs[..|qs| - 1]);
    }
  }

  /** Enqueueing only keys that are in the table changes nothing. */
  lemma {:induction false} KnownKeysChangeNothing(rows: Rows, qs: seq<Enqueue>)
    requires forall i {:trigger qs[i]} :: 0 <= i < |qs| ==> HasKey(rows, qs[i].key)
    ensures Enqueued(rows, qs) == rows
  {
    if qs != [] {
      KnownKeysChangeNothing(rows, qs[..|qs| - 1]);
    }
  }

  lemma {:induction false} AcceptedKeysPresent(rows: Rows, qs: seq<Enqueue>, i: nat)
    requires i < |qs| && Takes(Enqueued(rows, qs[..i]), qs[i])
    ensures HasKey(Enqueued(rows, qs), qs[i].key)
  {
    var n := |qs| - 1;
    if i == n {
      var before := Enqueued(rows, qs[..n]);
      if !HasKey(before, qs[n].key) {
        assert Enqueued(rows, qs)[qs[n].id].key == qs[n].key;
      }
    } else {
      assert qs[..n][..i] == qs[..i];
      AcceptedKeysPresent(rows, qs[..n], i);
      var id :| id in Enqueued(rows, qs[..n]) && Enqueued(rows, qs[..n])[id].key == qs[i].key;
      assert qs == qs[..n] + [qs[n]];
      EnqueuedKeeps(Enqueued(rows, qs[..n]), [qs[n]]);
      assert [qs[n]][..0] == [];
      assert Enqueued(rows, qs) == Enqueued(Enqueued(rows, qs[..n]), [qs[n]]);
    }
  }

  /** Repeating a committed unit of work, with whatever new primary keys and contents, leaves the
      outbox as it is. */
  lemma RepeatChangesNothing(rows: Rows, qs: seq<Enqueue>, again: seq<Enqueue>)
    requires forall i {:trigger qs[i]} :: 0 <= i < |qs| ==> Takes(Enqueued(rows, qs[..i]), qs[i])
    requires forall j {:trigger again[j]} :: 0 <= j < |again| ==> exists i :: 0 <= i < |qs| && qs[i].key == again[j].key
    ensures Enqueued(Enqueued(rows, qs), again) == Enqueued(rows, qs)
  {
    forall j | 0 <= j < |again|
      ensures HasKey(Enqueued(rows, qs), again[j].key)
    {
      var i :| 0 <= i < |qs| && qs[i].key == again[j].key;
      AcceptedKeysPresent(rows, qs, i);
    }
    KnownKeysChangeNothing(Enqueued(rows, qs), again);
  }
}
