/**
 The push outbox: delivery rows leased to workers, with worker fencing, stale
 lease takeover and bounded retries. Moves of any number of workers interleave.
 */
module Outbox {
  import opened Common

  const BATCH_SIZE := 50
  const MAX_ATTEMPTS := 8
  const LEASE_SECS := 900
  const MAX_BACKOFF_SECS := 3600

  type DeliveryId = nat
  type WorkerId = nat

  datatype Status = Pending | Processing | Sent | Dead

  datatype Row = Row(status: Status, holder: Option<WorkerId>, lockedAt: Option<int>, attempts: nat, availableAt: int)

  type Table = map<DeliveryId, Row>

  datatype Move =
    | Enqueue(id: DeliveryId, now: int)
      /** `ids` is the batch the claim query locked; rows locked by others are skipped. */
    | Claim(worker: WorkerId, ids: set<DeliveryId>, now: int)
    | MarkSent(id: DeliveryId, worker: WorkerId)
    | MarkFailed(id: DeliveryId, worker: WorkerId, now: int)

  /** Seconds until a row that has failed `attempts` times is available again. */
  function Backoff(attempts: nat): nat {
    if Pow2(attempts) < MAX_BACKOFF_SECS then Pow2(attempts) else MAX_BACKOFF_SECS
  }

  predicate Claimable(r: Row, now: int) {
    || (r.status == Pending && r.availableAt <= now)
    || (r.status == Processing && r.lockedAt.Some? && r.lockedAt.value < now - LEASE_SECS)
  }

  function Leased(r: Row, worker: WorkerId, now: int): Row {
    r.(status := Processing, holder := Some(worker), lockedAt := Some(now))
  }

  function SentRow(r: Row): Row {
    r.(status := Sent, holder := None, lockedAt := None)
  }

  function FailedRow(r: Row, now: int): Row {
    var n := r.attempts + 1;
    Row(if n >= MAX_ATTEMPTS then Dead else Pending, None, None, n, now + Backoff(n))
  }

  predicate BatchOk(t: Table, ids: set<DeliveryId>, now: int) {
    |ids| <= BATCH_SIZE && forall id :: id in ids ==> id in t && Claimable(t[id], now)
  }

  predicate Holds(t: Table, id: DeliveryId, worker: WorkerId) {
    id in t && t[id].holder == Some(worker)
  }

  function Next(t: Table, m: Move): Table {
    match m
    case Enqueue(id, now) => if id in t then t else t[id := Row(Pending, None, None, 0, now)]
    case Claim(worker, ids, now) =>
      if BatchOk(t, ids, now)
      then map id | id in t :: if id in ids then Leased(t[id], worker, now) else t[id]
      else t
    case MarkSent(id, worker) => if Holds(t, id, worker) then t[id := SentRow(t[id])] else t
    case MarkFailed(id, worker, now) => if Holds(t, id, worker) then t[id := FailedRow(t[id], now)] else t
  }

  /** The table after the first `n` moves; every sequence of moves is a run. */
  function At(ms: seq<Move>, n: nat): Table
    requires n <= |ms|
  {
    if n == 0 then map[] else Next(At(ms, n - 1), ms[n - 1])
  }

  // ----- moves that take effect on one delivery

  predicate ClaimsAt(ms: seq<Move>, k: nat, id: DeliveryId)
    requires k < |ms|
  {
    ms[k].Claim? && id in ms[k].ids && BatchOk(At(ms, k), ms[k].ids, ms[k].now)
  }

  predicate SentAt(ms: seq<Move>, k: nat, id: DeliveryId)
    requires k < |ms|
  {
    ms[k].MarkSent? && ms[k].id == id && Holds(At(ms, k), id, ms[k].worker)
  }

  predicate FailedAt(ms: seq<Move>, k: nat, id: DeliveryId)
    requires k < |ms|
  {
    ms[k].MarkFailed? && ms[k].id == id && Holds(At(ms, k), id, ms[k].worker)
  }

  predicate CompletedAt(ms: seq<Move>, k: nat, id: DeliveryId)
    requires k < |ms|
  {
    SentAt(ms, k, id) || FailedAt(ms, k, id)
  }

  /** How often delivery `id` has failed so far. */
  function Failures(ms: seq<Move>, n: nat, id: DeliveryId): nat
    requires n <= |ms|
  {
    if n == 0 then 0 else Failures(ms, n - 1, id) + if FailedAt(ms, n - 1, id) then 1 else 0
  }

  /** How long failures have put delivery `id` off so far, death not counted. */
  function Waited(ms: seq<Move>, n: nat, id: DeliveryId): int
    requires n <= |ms|
  {
    if n == 0 then 0
    else
      Waited(ms, n - 1, id) +
      if FailedAt(ms, n - 1, id) && id in At(ms, n) && At(ms, n)[id].status == Pending
      then At(ms, n)[id].availableAt - ms[n - 1].now else 0
  }

  // ----- rows

  predicate RowOk(r: Row) {
    && (r.status == Processing <==> r.holder.Some?)
    && (r.status == Processing <==> r.lockedAt.Some?)
    && (r.status == Dead <==> r.attempts == MAX_ATTEMPTS)
    && r.attempts <= MAX_ATTEMPTS
  }

  /** The row of `id` after move `k`: leased, sent, failed, or as it was. */
  lemma RowMoves(ms: seq<Move>, k: nat, id: DeliveryId)
    requires k < |ms| && id in At(ms, k)
    ensures id in At(ms, k + 1)
    ensures At(ms, k + 1)[id] ==
            if ClaimsAt(ms, k, id) then Leased(At(ms, k)[id], ms[k].worker, ms[k].now)
            else if SentAt(ms, k, id) then SentRow(At(ms, k)[id])
            else if FailedAt(ms, k, id) then FailedRow(At(ms, k)[id], ms[k].now)
            else At(ms, k)[id]
  {
  }

  /** In every reachable state a row is processing exactly when it has a holder and a lock time, and dead exactly at the eighth failure. */
  lemma {:induction false} RowsOk(ms: seq<Move>, n: nat, id: DeliveryId)
    requires n <= |ms| && id in At(ms, n)
    ensures RowOk(At(ms, n)[id])
  {
    if id in At(ms, n - 1) {
      RowsOk(ms, n - 1, id);
      RowMoves(ms, n - 1, id);
    }
  }

  // ----- leases

  /** Move `j` is the last claim of `id` before `n`, by `worker`, and nothing has claimed or completed it since. */
  predicate LastClaim(ms: seq<Move>, j: nat, n: nat, id: DeliveryId, worker: WorkerId)
    requires j < n <= |ms|
  {
    && ClaimsAt(ms, j, id) && ms[j].worker == worker
    && forall k :: j < k < n ==> !ClaimsAt(ms, k, id) && !CompletedAt(ms, k, id)
  }

  /** The holder of a row is whoever claimed it last. */
  lemma {:induction false} HolderIsLastClaimer(ms: seq<Move>, n: nat, id: DeliveryId, worker: WorkerId) returns (j: nat)
    requires n <= |ms| && Holds(At(ms, n), id, worker)
    ensures j < n && LastClaim(ms, j, n, id, worker)
  {
    hide Next, BatchOk;
    var k := n - 1;
    if id in At(ms, k) {
      RowMoves(ms, k, id);
      if ClaimsAt(ms, k, id) {
        j := k;
      } else {
        assert !CompletedAt(ms, k, id);
        j := HolderIsLastClaimer(ms, k, id, worker);
      }
    } else {
      NewRowsAreFree(ms, k, id);
    }
  }

  /** Conversely, the last claimer holds the row until it is claimed again or completed. */
  lemma {:induction false} LastClaimerHolds(ms: seq<Move>, j: nat, n: nat, id: DeliveryId, worker: WorkerId)
    requires j < n <= |ms| && LastClaim(ms, j, n, id, worker)
    ensures Holds(At(ms, n), id, worker)
  {
    hide Next, BatchOk;
    assert ClaimsAt(ms, j, id);
    if n == j + 1 {
      ClaimedIsThere(ms, j, id);
      RowMoves(ms, j, id);
    } else {
      LastClaimerHolds(ms, j, n - 1, id, worker);
      RowMoves(ms, n - 1, id);
    }
  }

  lemma ClaimedIsThere(ms: seq<Move>, k: nat, id: DeliveryId)
    requires k < |ms| && ClaimsAt(ms, k, id)
    ensures id in At(ms, k)
  {
  }

  lemma NewRowsAreFree(ms: seq<Move>, k: nat, id: DeliveryId)
    requires k < |ms| && id !in At(ms, k) && id in At(ms, k + 1)
    ensures At(ms, k + 1)[id] == Row(Pending, None, None, 0, ms[k].now)
  {
  }

  /**
   Fencing: a completion takes effect only for the worker whose claim is the latest,
   and only if nothing has completed that claim yet.
   */
  lemma CompletionIsFenced(ms: seq<Move>, k: nat, id: DeliveryId)
    requires k < |ms| && CompletedAt(ms, k, id)
    ensures exists j :: 0 <= j < k && LastClaim(ms, j, k, id, ms[k].worker)
  {
    var j := HolderIsLastClaimer(ms, k, id, ms[k].worker);
  }

  /** At most one completion takes effect per claim: two completions have a claim between them. */
  lemma OneCompletionPerClaim(ms: seq<Move>, i: nat, k: nat, id: DeliveryId)
    requires i < k < |ms| && CompletedAt(ms, i, id) && CompletedAt(ms, k, id)
    ensures exists j :: i < j < k && ClaimsAt(ms, j, id)
  {
    var j := HolderIsLastClaimer(ms, k, id, ms[k].worker);
    assert i <= j;
  }

  /** Sent and dead are terminal: such a row never changes again. */
  lemma {:induction false} SettledRowsStay(ms: seq<Move>, i: nat, n: nat, id: DeliveryId)
    requires i <= n <= |ms| && id in At(ms, i) && At(ms, i)[id].status in {Sent, Dead}
    ensures id in At(ms, n) && At(ms, n)[id] == At(ms, i)[id]
  {
    hide Next;
    if i < n {
      SettledRowsStay(ms, i, n - 1, id);
      RowsOk(ms, n - 1, id);
      RowMoves(ms, n - 1, id);
    }
  }

  // ----- retries

  lemma {:induction false} AbsentHasNoHistory(ms: seq<Move>, n: nat, id: DeliveryId)
    requires n <= |ms| && id !in At(ms, n)
    ensures Failures(ms, n, id) == 0 && Waited(ms, n, id) == 0
  {
    hide Next, BatchOk;
    if n > 0 {
      if id in At(ms, n - 1) {
        RowMoves(ms, n - 1, id);
      } else {
        AbsentHasNoHistory(ms, n - 1, id);
      }
    }
  }

  /** The attempts column counts the failures of the run, and dead means exactly eight of them. */
  lemma {:induction false} AttemptsCountFailures(ms: seq<Move>, n: nat, id: DeliveryId)
    requires n <= |ms| && id in At(ms, n)
    ensures At(ms, n)[id].attempts == Failures(ms, n, id)
    ensures At(ms, n)[id].status == Dead <==> Failures(ms, n, id) == MAX_ATTEMPTS
  {
    hide Next, BatchOk;
    RowsOk(ms, n, id);
    if id in At(ms, n - 1) {
      AttemptsCountFailures(ms, n - 1, id);
      RowMoves(ms, n - 1, id);
    } else {
      NewRowsAreFree(ms, n - 1, id);
      AbsentHasNoHistory(ms, n - 1, id);
    }
  }

  lemma BackoffsBelowDeath(attempts: nat)
    requires attempts <= MAX_ATTEMPTS - 1
    ensures Backoff(attempts) == Pow2(attempts) && Pow2(attempts + 1) <= 256
  {
    assert Pow2(8) == 256 by {
      assert Pow2(4) == 16;
    }
    Pow2Monotone(attempts + 1, 8);
  }

  /** Backoffs double from two seconds, so all the waiting before death adds up to at most 254 seconds. */
  lemma {:induction false} WaitingIsBounded(ms: seq<Move>, n: nat, id: DeliveryId)
    requires n <= |ms| && id in At(ms, n)
    ensures At(ms, n)[id].attempts < MAX_ATTEMPTS ==> Waited(ms, n, id) == Pow2(At(ms, n)[id].attempts + 1) - 2
    ensures Waited(ms, n, id) <= 254
  {
    hide Next, BatchOk;
    RowsOk(ms, n, id);
    if id in At(ms, n - 1) {
      WaitingIsBounded(ms, n - 1, id);
      RowsOk(ms, n - 1, id);
      RowMoves(ms, n - 1, id);
    } else {
      NewRowsAreFree(ms, n - 1, id);
      AbsentHasNoHistory(ms, n - 1, id);
    }
    if At(ms, n)[id].attempts < MAX_ATTEMPTS {
      BackoffsBelowDeath(At(ms, n)[id].attempts);
    }
  }

  // ----- when a row may be claimed

  predicate EnqueuedAt(ms: seq<Move>, k: nat, id: DeliveryId)
    requires k < |ms|
  {
    ms[k].Enqueue? && ms[k].id == id && id !in At(ms, k)
  }

  /** Nothing in `(j, k)` claims or completes `id`. */
  predicate Undisturbed(ms: seq<Move>, j: nat, k: nat, id: DeliveryId)
    requires k <= |ms|
  {
    forall i :: j < i < k ==> !ClaimsAt(ms, i, id) && !CompletedAt(ms, i, id)
  }

  lemma {:induction false} UndisturbedRow(ms: seq<Move>, j: nat, k: nat, id: DeliveryId)
    requires j < k <= |ms| && Undisturbed(ms, j, k, id) && id in At(ms, j + 1)
    ensures id in At(ms, k) && At(ms, k)[id] == At(ms, j + 1)[id]
  {
    hide Next, BatchOk;
    if j + 1 < k {
      UndisturbedRow(ms, j, k - 1, id);
      RowMoves(ms, k - 1, id);
    }
  }

  /** At time `now` the row that move `j` enqueued, failed or claimed is due. */
  predicate Due(ms: seq<Move>, j: nat, id: DeliveryId, now: int)
    requires j < |ms|
  {
    || (EnqueuedAt(ms, j, id) && now >= ms[j].now)
    || (FailedAt(ms, j, id) && Failures(ms, j + 1, id) < 8 && now >= ms[j].now + Pow2(Failures(ms, j + 1, id)))
    || (ClaimsAt(ms, j, id) && now > ms[j].now + 900)
  }

  /** The row right after a move touched it is claimable exactly when it is due. */
  lemma ClaimableIffDue(ms: seq<Move>, j: nat, id: DeliveryId, now: int)
    requires j < |ms| && (EnqueuedAt(ms, j, id) || CompletedAt(ms, j, id) || ClaimsAt(ms, j, id))
    ensures id in At(ms, j + 1) && (Claimable(At(ms, j + 1)[id], now) <==> Due(ms, j, id, now))
  {
    if EnqueuedAt(ms, j, id) {
      NewRowsAreFree(ms, j, id);
    } else {
      if ClaimsAt(ms, j, id) {
        ClaimedIsThere(ms, j, id);
      }
      RowMoves(ms, j, id);
      hide Next, BatchOk;
      AttemptsCountFailures(ms, j, id);
      RowsOk(ms, j, id);
      RowsOk(ms, j + 1, id);
      if At(ms, j + 1)[id].attempts < 8 {
        BackoffsBelowDeath(At(ms, j + 1)[id].attempts);
      }
    }
  }

  /**
   Exactly when a claim takes a row: whatever batch it is in, the row must be due by
   its last enqueuing, failure or claim; and alone in a batch a due row is taken.
   */
  lemma ClaimTakesIffDue(ms: seq<Move>, j: nat, k: nat, id: DeliveryId)
    requires j < k < |ms| && Undisturbed(ms, j, k, id) && ms[k].Claim?
    requires EnqueuedAt(ms, j, id) || CompletedAt(ms, j, id) || ClaimsAt(ms, j, id)
    ensures ClaimsAt(ms, k, id) ==> Due(ms, j, id, ms[k].now)
    ensures ms[k].ids == {id} && Due(ms, j, id, ms[k].now) ==> ClaimsAt(ms, k, id)
  {
    ClaimableIffDue(ms, j, id, ms[k].now);
    UndisturbedRow(ms, j, k, id);
    hide At, Due, Claimable;
  }

  lemma ClaimsAtMostFifty(ms: seq<Move>, k: nat, id: DeliveryId)
    requires k < |ms| && ClaimsAt(ms, k, id)
    ensures |ms[k].ids| <= 50
  {
  }

  /** And up to fifty due rows are claimed together, no more. */
  lemma BatchIsTaken(ms: seq<Move>, k: nat, last: map<DeliveryId, nat>)
    requires k < |ms| && ms[k].Claim? && ms[k].ids <= last.Keys
    requires forall id :: id in ms[k].ids ==>
               && last[id] < k && Undisturbed(ms, last[id], k, id)
               && (EnqueuedAt(ms, last[id], id) || CompletedAt(ms, last[id], id) || ClaimsAt(ms, last[id], id))
               && Due(ms, last[id], id, ms[k].now)
    ensures forall id :: id in ms[k].ids ==> (ClaimsAt(ms, k, id) <==> |ms[k].ids| <= 50)
  {
    forall id | id in ms[k].ids
      ensures id in At(ms, k) && Claimable(At(ms, k)[id], ms[k].now)
    {
      ClaimableIffDue(ms, last[id], id, ms[k].now);
      UndisturbedRow(ms, last[id], k, id);
    }
    hide At, Due, Claimable;
  }

  /** After its f-th failure a row really waits: the next claim comes at least 2^f seconds later. */
  lemma RetryWaits(ms: seq<Move>, j: nat, k: nat, id: DeliveryId)
    requires j < k < |ms| && FailedAt(ms, j, id) && ClaimsAt(ms, k, id)
    requires forall i :: j < i < k ==> !ClaimsAt(ms, i, id)
    ensures Failures(ms, j + 1, id) < 8 && ms[k].now >= ms[j].now + Pow2(Failures(ms, j + 1, id))
  {
    forall i | j < i < k
      ensures !CompletedAt(ms, i, id)
    {
      if CompletedAt(ms, i, id) {
        OneCompletionPerClaim(ms, j, i, id);
      }
    }
    ClaimTakesIffDue(ms, j, k, id);
  }

  /** A lease lasts: two claims with no completion between them are more than 900 seconds apart. */
  lemma LeaseLasts(ms: seq<Move>, j: nat, k: nat, id: DeliveryId)
    requires j < k < |ms| && ClaimsAt(ms, j, id) && ClaimsAt(ms, k, id) && Undisturbed(ms, j, k, id)
    ensures ms[k].now > ms[j].now + 900
  {
    ClaimTakesIffDue(ms, j, k, id);
  }
}
