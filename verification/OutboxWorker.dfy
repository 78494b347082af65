/** The outbox worker's statements on the delivery table, each one a move of `Outbox`. */
module OutboxWorker {
  import opened Common
  import opened Outbox

  lemma {:induction false} AtPrefix(ms: seq<Move>, m: Move, n: nat)
    requires n <= |ms|
    ensures At(ms + [m], n) == At(ms, n)
  {
    hide Next;
    if n > 0 {
      AtPrefix(ms, m, n - 1);
    }
  }

  class Deliveries {
    var rows: Table
    ghost var log: seq<Move>

    ghost predicate Valid()
      reads this
    {
      rows == At(log, |log|)
    }

    constructor ()
      ensures Valid() && rows == map[] && log == []
    {
      rows, log := map[], [];
    }

    ghost method Record(before: Table, m: Move)
      requires before == At(log, |log|) && rows == Next(before, m)
      modifies this`log
      ensures log == old(log) + [m] && Valid()
    {
      hide Next;
      AtPrefix(log, m, |log|);
      log := log + [m];
    }

    method Insert(id: DeliveryId, now: int)
      requires Valid()
      modifies this
      ensures Valid() && log == old(log) + [Enqueue(id, now)] && rows == Next(old(rows), Enqueue(id, now))
    {
      ghost var before := rows;
      if id !in rows {
        rows := rows[id := Row(Pending, None, None, 0, now)];
      }
      Record(before, Enqueue(id, now));
    }

    /** The locking query: up to a batch of available or stale rows, short only when no such row is left. */
    method SelectBatch(now: int) returns (ids: set<DeliveryId>)
      ensures BatchOk(rows, ids, now)
      ensures |ids| == BATCH_SIZE || forall id :: id in rows && Claimable(rows[id], now) ==> id in ids
    {
      var free := set id | id in rows && Claimable(rows[id], now);
      ids := {};
      while free != {} && |ids| < BATCH_SIZE
        invariant |ids| <= BATCH_SIZE && ids !! free
        invariant ids + free == set id | id in rows && Claimable(rows[id], now)
        decreases |free|
      {
        var id :| id in free;
        free, ids := free - {id}, ids + {id};
      }
      assert forall id :: id in ids ==> id in ids + free;
    }

    /** Leases the selected batch to `worker`. */
    method ClaimBatch(worker: WorkerId, now: int) returns (ids: set<DeliveryId>)
      requires Valid()
      modifies this
      ensures Valid() && log == old(log) + [Claim(worker, ids, now)]
      ensures BatchOk(old(rows), ids, now) && rows == Next(old(rows), Claim(worker, ids, now))
      ensures |ids| == BATCH_SIZE || forall id :: id in old(rows) && Claimable(old(rows)[id], now) ==> id in ids
    {
      ghost var before := rows;
      ids := SelectBatch(now);
      rows := map id | id in rows :: if id in ids then Leased(rows[id], worker, now) else rows[id];
      Record(before, Claim(worker, ids, now));
    }

    /** The update is fenced: it touches the row exactly when `worker` made the last claim and nothing completed it since. */
    method RecordSent(id: DeliveryId, worker: WorkerId) returns (took: bool)
      requires Valid()
      modifies this
      ensures Valid() && log == old(log) + [MarkSent(id, worker)] && rows == Next(old(rows), MarkSent(id, worker))
      ensures took <==> exists j: nat :: j < |old(log)| && LastClaim(old(log), j, |old(log)|, id, worker)
      ensures took ==> id in rows && rows[id].status == Sent
      ensures !took ==> rows == old(rows)
    {
      ghost var before := rows;
      took := id in rows && rows[id].holder == Some(worker);
      FencedByClaim(log, id, worker);
      if took {
        rows := rows[id := rows[id].(status := Sent, holder := None, lockedAt := None)];
      }
      Record(before, MarkSent(id, worker));
    }

    method RecordFailed(id: DeliveryId, worker: WorkerId, now: int) returns (took: bool)
      requires Valid()
      modifies this
      ensures Valid() && log == old(log) + [MarkFailed(id, worker, now)]
      ensures rows == Next(old(rows), MarkFailed(id, worker, now))
      ensures took <==> exists j: nat :: j < |old(log)| && LastClaim(old(log), j, |old(log)|, id, worker)
      ensures took ==> id in rows && rows[id].status == if Failures(old(log), |old(log)|, id) == MAX_ATTEMPTS - 1 then Dead else Pending
      ensures took ==> rows[id].attempts == Failures(old(log), |old(log)|, id) + 1
      ensures took && rows[id].status == Pending ==> rows[id].availableAt == now + Pow2(rows[id].attempts)
      ensures !took ==> rows == old(rows)
    {
      ghost var before := rows;
      took := id in rows && rows[id].holder == Some(worker);
      FencedByClaim(log, id, worker);
      if took {
        if rows[id].attempts + 1 < MAX_ATTEMPTS {
          BackoffsBelowDeath(rows[id].attempts + 1);
        }
        AttemptsCountFailures(log, |log|, id);
        RowsOk(log, |log|, id);
        var n := rows[id].attempts + 1;
        var status := if n >= MAX_ATTEMPTS then Dead else Pending;
        rows := rows[id := Row(status, None, None, n, now + Backoff(n))];
      }
      Record(before, MarkFailed(id, worker, now));
    }
  }

  lemma FencedByClaim(ms: seq<Move>, id: DeliveryId, worker: WorkerId)
    ensures Holds(At(ms, |ms|), id, worker) <==> exists j: nat :: j < |ms| && LastClaim(ms, j, |ms|, id, worker)
  {
    hide At, LastClaim;
    if Holds(At(ms, |ms|), id, worker) {
      var j := HolderIsLastClaimer(ms, |ms|, id, worker);
    }
    if j: nat :| j < |ms| && LastClaim(ms, j, |ms|, id, worker) {
      LastClaimerHolds(ms, j, |ms|, id, worker);
    }
  }
}
