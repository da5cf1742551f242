/** The outbox table of postgres_outbox.go: its row state machine, and the operations on it. */
module Outbox {
  import opened Counting
  import Text

  type Id = nat

  datatype Status = Pending | Processing | Sent

  datatype Content = Content(topic: string, payload: string, headers: string)

  datatype Row = Row(key: string, content: Content, status: Status, attempts: nat, nextAttempt: int,
                     owner: string, token: nat, lease: int, created: int) {
    predicate Claimable(now: int) {
      (status.Pending? && nextAttempt <= now) || (status.Processing? && lease <= now)
    }

    predicate HeldBy(claim: Claim) {
      status.Processing? && owner == claim.owner && token == claim.token
    }
  }

  type Rows = map<Id, Row>

  /** What a relay needs to finish a row: the owner and the fresh token it claimed it with. */
  datatype Claim = Claim(owner: string, token: nat)

  datatype PendingMessage = PendingMessage(id: Id, key: string, content: Content, attempts: nat, claim: Claim)

  // ---- the statements ----

  predicate HasKey(rows: Rows, key: string) {
    exists id :: id in rows && rows[id].key == key
  }

  function DispatchKey(requested: string, derived: string): string {
    var key := Text.TrimSpace(requested);
    if key == "" then derived else key
  }

  /** INSERT ... ON CONFLICT (dispatch_key) DO NOTHING. */
  function Inserted(rows: Rows, id: Id, key: string, content: Content, now: int): Rows
    requires id !in rows
  {
    if HasKey(rows, key) then rows
    else rows[id := Row(key, content, Pending, 0, now, "", 0, 0, now)]
  }

  /** UPDATE ... SET status = 'PROCESSING' of the candidates. */
  function Claimed(rows: Rows, ids: set<Id>, claim: Claim, lease: int): Rows {
    map id | id in rows ::
      if id in ids then rows[id].(status := Processing, owner := claim.owner, token := claim.token, lease := lease)
      else rows[id]
  }

  predicate Matches(rows: Rows, id: Id, claim: Claim) {
    id in rows && rows[id].HeldBy(claim)
  }

  function MarkedSent(rows: Rows, id: Id, claim: Claim): Rows {
    if Matches(rows, id, claim) then rows[id := rows[id].(status := Sent)] else rows
  }

  function MarkedFailed(rows: Rows, id: Id, claim: Claim, next: int): Rows {
    if Matches(rows, id, claim)
    then rows[id := rows[id].(status := Pending, attempts := rows[id].attempts + 1, nextAttempt := next)]
    else rows
  }

  ghost predicate UniqueKeys(rows: Rows) {
    forall i: Id, j: Id {:trigger rows[i], rows[j]} :: i in rows && j in rows && rows[i].key == rows[j].key ==> i == j
  }

  lemma InsertKeepsUnique(rows: Rows, id: Id, key: string, content: Content, now: int)
    requires UniqueKeys(rows) && id !in rows
    ensures UniqueKeys(Inserted(rows, id, key, content, now)) && HasKey(Inserted(rows, id, key, content, now), key)
  {
    var after := Inserted(rows, id, key, content, now);
    if !HasKey(rows, key) {
      assert after[id].key == key;
      forall i: Id | i in rows
        ensures rows[i].key != key
      {
      }
    }
  }

  /** Repeating an enqueue whose key is already committed leaves the table as it is. */
  lemma EnqueueIdempotent(rows: Rows, id: Id, again: Id, key: string, content: Content, other: Content, now: int,
                          later: int)
    requires id !in rows && again !in Inserted(rows, id, key, content, now)
    ensures Inserted(Inserted(rows, id, key, content, now), again, key, other, later) ==
            Inserted(rows, id, key, content, now)
  {
    if !HasKey(rows, key) {
      assert Inserted(rows, id, key, content, now)[id].key == key;
    }
  }

  // ---- choosing the candidates ----

  /** The unlocked rows a relay may claim now. */
  function Available(rows: Rows, now: int, locked: set<Id>): set<Id> {
    set id | id in rows && rows[id].Claimable(now) && id !in locked
  }

  /** ORDER BY created_at LIMIT n. */
  ghost predicate OldestOf(rows: Rows, avail: set<Id>, limit: nat, ids: seq<Id>) {
    && avail <= rows.Keys
    && Distinct(ids) && (forall i {:trigger ids[i]} :: 0 <= i < |ids| ==> ids[i] in avail)
    && |ids| == (if limit <= |avail| then limit else |avail|)
    && forall i, other: Id {:trigger ids[i], other in avail} ::
         0 <= i < |ids| && other in avail && other !in ids ==> rows[ids[i]].created <= rows[other].created
  }

  function Members(ids: seq<Id>): set<Id> {
    set id | id in ids
  }

  /** The default lease, in milliseconds. */
  const DEFAULT_LEASE := 30000

  function LeaseEnd(now: int, ttl: int): int {
    now + if ttl <= 0 then DEFAULT_LEASE else ttl
  }

  method Oldest(rows: Rows, avail: set<Id>) returns (id: Id)
    requires avail != {} && avail <= rows.Keys
    ensures id in avail && forall other: Id :: other in avail ==> rows[id].created <= rows[other].created
  {
    id :| id in avail;
    var rest := avail - {id};
    while rest != {}
      invariant id in avail && rest <= avail
      invariant forall other: Id :: other in avail - rest ==> rows[id].created <= rows[other].created
      decreases |rest|
    {
      var next: Id :| next in rest;
      if rows[next].created < rows[id].created {
        id := next;
      }
      rest := rest - {next};
    }
  }

  method SelectOldest(rows: Rows, avail: set<Id>, limit: nat) returns (ids: seq<Id>)
    requires avail <= rows.Keys
    ensures OldestOf(rows, avail, limit, ids)
  {
    ids := [];
    var rest := avail;
    while |ids| < limit && rest != {}
      invariant |ids| <= limit && Distinct(ids) && rest <= avail && |ids| + |rest| == |avail|
      invariant forall i {:trigger ids[i]} :: 0 <= i < |ids| ==> ids[i] in avail && ids[i] !in rest
      invariant forall id: Id :: id in avail && id !in rest ==> id in ids
      invariant forall i, other: Id {:trigger ids[i], other in rest} ::
        0 <= i < |ids| && other in rest ==> rows[ids[i]].created <= rows[other].created
      decreases |rest|
    {
      var id := Oldest(rows, rest);
      ids := ids + [id];
      rest := rest - {id};
    }
  }

  class Table {
    var rows: Rows

    constructor ()
      ensures rows == map[]
    {
      rows := map[];
    }

    /** `id` is the fresh primary key, `derived` the fallback key. */
    method WriteMessage(id: Id, requested: string, derived: string, content: Content, now: int)
      requires id !in rows
      modifies this
      ensures rows == Inserted(old(rows), id, DispatchKey(requested, derived), content, now)
      ensures var key := if Text.Blank(requested) then derived else Text.TrimSpace(requested);
              if exists other :: other in old(rows) && old(rows)[other].key == key then rows == old(rows)
              else rows == old(rows)[id := Row(key, content, Pending, 0, now, "", 0, 0, now)]
    {
      var key := DispatchKey(requested, derived);
      if HasKey(rows, key) {
        return;
      }
      rows := rows[id := Row(key, content, Pending, 0, now, "", 0, 0, now)];
    }

    /** `locked` are the rows other transactions hold a lock on; `ids` the rows that are claimed. */
    method ReadPending(max: int, claim: Claim, ttl: int, now: int, locked: set<Id>)
        returns (pending: seq<PendingMessage>, ghost ids: seq<Id>)
      modifies this
      ensures OldestOf(old(rows), Available(old(rows), now, locked), if max <= 0 then 0 else max, ids)
      ensures rows == Claimed(old(rows), Members(ids), claim, LeaseEnd(now, ttl))
      ensures rows.Keys == old(rows).Keys
      ensures forall id: Id {:trigger rows[id]} :: id in rows ==>
                var row := old(rows)[id];
                if id in ids then
                  && (|| (row.status == Pending && row.nextAttempt <= now)
                      || (row.status == Processing && row.lease <= now))
                  && id !in locked
                  && rows[id] == row.(status := Processing, owner := claim.owner, token := claim.token,
                                      lease := now + if ttl <= 0 then 30000 else ttl)
                else rows[id] == row
      ensures |pending| == |ids|
      ensures forall i {:trigger pending[i]} :: 0 <= i < |ids| ==>
                pending[i] == PendingMessage(ids[i], old(rows)[ids[i]].key, old(rows)[ids[i]].content,
                                             old(rows)[ids[i]].attempts, claim)
    {
      pending, ids := [], [];
      if max <= 0 {
        return;
      }
      var lease := LeaseEnd(now, ttl);
      var chosen := SelectOldest(rows, Available(rows, now, locked), max);
      var updated := rows;
      for i := 0 to |chosen|
        invariant |pending| == i
        invariant forall k {:trigger pending[k]} :: 0 <= k < i ==>
          pending[k] == PendingMessage(chosen[k], rows[chosen[k]].key, rows[chosen[k]].content,
                                       rows[chosen[k]].attempts, claim)
        invariant updated == Claimed(rows, Members(chosen[..i]), claim, lease)
      {
        var row := rows[chosen[i]];
        assert chosen[..i + 1] == chosen[..i] + [chosen[i]];
        updated := updated[chosen[i] := row.(status := Processing, owner := claim.owner, token := claim.token,
                                             lease := lease)];
        pending := pending + [PendingMessage(chosen[i], row.key, row.content, row.attempts, claim)];
      }
      assert chosen[..|chosen|] == chosen;
      rows, ids := updated, chosen;
    }

    method MarkSent(id: Id, claim: Claim) returns (ok: bool)
      modifies this
      ensures rows == MarkedSent(old(rows), id, claim)
      ensures ok <==> id in old(rows) && old(rows)[id].status == Processing && old(rows)[id].owner == claim.owner &&
                      old(rows)[id].token == claim.token
      ensures rows == if ok then old(rows)[id := old(rows)[id].(status := Sent)] else old(rows)
    {
      if id !in rows || !rows[id].HeldBy(claim) {
        return false;
      }
      rows := rows[id := rows[id].(status := Sent)];
      return true;
    }

    method MarkFailed(id: Id, claim: Claim, next: int) returns (ok: bool)
      modifies this
      ensures rows == MarkedFailed(old(rows), id, claim, next)
      ensures ok <==> id in old(rows) && old(rows)[id].status == Processing && old(rows)[id].owner == claim.owner &&
                      old(rows)[id].token == claim.token
      ensures rows == if ok
                      then old(rows)[id := old(rows)[id].(status := Pending, attempts := old(rows)[id].attempts + 1,
                                                          nextAttempt := next)]
                      else old(rows)
    {
      if id !in rows || !rows[id].HeldBy(claim) {
        return false;
      }
      var row := rows[id];
      rows := rows[id := row.(status := Pending, attempts := row.attempts + 1, nextAttempt := next)];
      return true;
    }
  }
}
