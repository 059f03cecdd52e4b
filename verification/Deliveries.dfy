/** The webhook delivery table of src/webhooks.js: claiming due rows and recording outcomes. */
module Deliveries {
  import opened Options

  const DELIVERY_LEASE_MS := 60_000
  const DELIVERY_BATCH := 50
  /** Index 0 is the initial attempt; the rest are retry delays. */
  const RETRY_DELAYS_MS := [0, 5_000, 30_000, 300_000]

  datatype Status = Pending | Retrying | Delivering | Delivered | Failed

  datatype Delivery = Delivery(status: Status, attempt: nat, maxAttempts: nat, nextAttemptAt: Option<int>)

  predicate IsDueBy(at: Option<int>, now: int) {
    at.Some? && at.value <= now
  }

  predicate Due(d: Delivery, now: int) {
    || (d.status in {Pending, Retrying} && (d.nextAttemptAt.None? || IsDueBy(d.nextAttemptAt, now)))
    || (d.status == Delivering && IsDueBy(d.nextAttemptAt, now))
  }

  /** The row a claim leaves and returns: its deadline is the holder's token. */
  function Claimed(d: Delivery, now: int): Delivery {
    d.(status := Delivering, nextAttemptAt := Some(now + DELIVERY_LEASE_MS))
  }

  function RetryDelay(attempt: nat): int {
    if attempt < |RETRY_DELAYS_MS| then RETRY_DELAYS_MS[attempt] else RETRY_DELAYS_MS[|RETRY_DELAYS_MS| - 1]
  }

  lemma RetriesBackOff(attempt: nat)
    requires attempt >= 1
    ensures RetryDelay(attempt) >= 5_000
  {
  }

  /** The WHERE clause of the outcome update; NULL equals nothing. */
  predicate HoldsClaim(row: Delivery, claim: Delivery) {
    row.status == Delivering && row.nextAttemptAt.Some? && row.nextAttemptAt == claim.nextAttemptAt
  }

  function WithOutcome(row: Delivery, claim: Delivery, ok: bool, completedAt: int): Delivery {
    var attempt := claim.attempt + 1;
    var retrying := !ok && attempt < claim.maxAttempts;
    var delay := if ok then 0 else RetryDelay(attempt);
    row.(status := if ok then Delivered else if retrying then Retrying else Failed,
         attempt := attempt,
         nextAttemptAt := if retrying then Some(completedAt + delay) else None)
  }

  function Recorded(row: Delivery, claim: Delivery, ok: bool, completedAt: int): Delivery {
    if HoldsClaim(row, claim) then WithOutcome(row, claim, ok, completedAt) else row
  }

  /** ORDER BY next_attempt_at NULLS FIRST. */
  predicate NotAfter(a: Option<int>, b: Option<int>) {
    a.None? || (b.Some? && a.value <= b.value)
  }

  function ClaimedRows(rows: map<nat, Delivery>, ids: seq<nat>, now: int): map<nat, Delivery> {
    map id | id in rows :: if id in ids then Claimed(rows[id], now) else rows[id]
  }

  function Attempts(results: seq<nat>, id: nat): nat {
    if results == [] then 0
    else Attempts(results[..|results| - 1], id) + if results[|results| - 1] == id then 1 else 0
  }

  lemma NoAttempts()
    ensures forall id :: Attempts([], id) == 0
  {
  }

  lemma AttemptsAppend(results: seq<nat>, id: nat)
    ensures forall other :: Attempts(results + [id], other) == Attempts(results, other) + if other == id then 1 else 0
  {
    assert (results + [id])[..|results|] == results;
  }

  /** What one attempt reads: the clock at its claim, the response, and the clock at its end. */
  datatype Reading = Reading(claimedAt: int, ok: bool, completedAt: int)

  class DeliveryTable {
    var rows: map<nat, Delivery>

    /** The due row outside `taken` that the claim's ORDER BY puts first, if there is one. */
    method EarliestDue(now: int, taken: seq<nat>) returns (found: Option<nat>)
      ensures found.None? ==> forall id :: id in rows && id !in taken ==> !Due(rows[id], now)
      ensures found.Some? ==>
                && found.value in rows && found.value !in taken && Due(rows[found.value], now)
                && forall id :: id in rows && id !in taken && Due(rows[id], now) ==>
                     NotAfter(rows[found.value].nextAttemptAt, rows[id].nextAttemptAt)
    {
      found := None;
      var left := rows.Keys;
      while left != {}
        invariant left <= rows.Keys
        invariant found.None? ==> forall id :: id in rows && id !in left && id !in taken ==> !Due(rows[id], now)
        invariant found.Some? ==>
                    && found.value in rows && found.value !in taken && Due(rows[found.value], now)
                    && forall id :: id in rows && id !in left && id !in taken && Due(rows[id], now) ==>
                         NotAfter(rows[found.value].nextAttemptAt, rows[id].nextAttemptAt)
        decreases |left|
      {
        var id :| id in left;
        left := left - {id};
        if id !in taken && Due(rows[id], now)
           && (found.None? || !NotAfter(rows[found.value].nextAttemptAt, rows[id].nextAttemptAt)) {
          found := Some(id);
        }
      }
    }

    /** claimDue: the first `limit` due rows, stamped with a fresh lease; nothing else changes. Due are
        a pending or retrying row without a deadline and any unfinished row whose deadline, of a
        retry or of a lapsed lease, has come; rows without a deadline go first, then the earliest. */
    method ClaimDue(now: int, limit: nat) returns (claimed: seq<nat>)
      modifies this
      ensures |claimed| <= limit
      ensures forall i, j :: 0 <= i < j < |claimed| ==> claimed[i] != claimed[j]
      ensures forall id :: id in claimed ==>
                && id in old(rows) && old(rows)[id].status in {Pending, Retrying, Delivering}
                && (old(rows)[id].nextAttemptAt == None ==> old(rows)[id].status != Delivering)
                && (old(rows)[id].nextAttemptAt.Some? ==> old(rows)[id].nextAttemptAt.value <= now)
      ensures |claimed| < limit ==> forall id :: id in old(rows) && id !in claimed ==>
                || old(rows)[id].status in {Delivered, Failed}
                || (old(rows)[id].nextAttemptAt == None && old(rows)[id].status == Delivering)
                || (old(rows)[id].nextAttemptAt.Some? && now < old(rows)[id].nextAttemptAt.value)
      ensures forall id, other :: id in claimed && other in old(rows) && other !in claimed && Due(old(rows)[other], now) ==>
                && |claimed| == limit
                && (old(rows)[other].nextAttemptAt == None ==> old(rows)[id].nextAttemptAt == None)
                && (old(rows)[id].nextAttemptAt.Some? && old(rows)[other].nextAttemptAt.Some? ==>
                      old(rows)[id].nextAttemptAt.value <= old(rows)[other].nextAttemptAt.value)
      ensures rows.Keys == old(rows).Keys
      ensures forall id :: id in rows ==>
                rows[id] == if id in claimed then old(rows)[id].(status := Delivering, nextAttemptAt := Some(now + 60_000))
                            else old(rows)[id]
      ensures rows == ClaimedRows(old(rows), claimed, now)
      ensures forall id :: id in claimed ==> Due(old(rows)[id], now)
      ensures claimed == [] && limit > 0 ==> forall id :: id in old(rows) ==> !Due(old(rows)[id], now)
    {
      claimed := [];
      while |claimed| < limit
        invariant rows == old(rows) && |claimed| <= limit
        invariant forall i, j :: 0 <= i < j < |claimed| ==> claimed[i] != claimed[j]
        invariant forall id :: id in claimed ==> id in rows && Due(rows[id], now)
        invariant forall id, other :: id in claimed && other in rows && other !in claimed && Due(rows[other], now) ==>
                    NotAfter(rows[id].nextAttemptAt, rows[other].nextAttemptAt)
      {
        var next := EarliestDue(now, claimed);
        if next.None? {
          break;
        }
        claimed := claimed + [next.value];
      }
      rows := ClaimedRows(rows, claimed, now);
    }

    /** attemptDelivery's update: a result whose lease has moved on is dropped. One that holds ends the
        delivery, or schedules a retry 5 seconds, 30 seconds or 5 minutes after the attempt. */
    method RecordOutcome(id: nat, claim: Delivery, ok: bool, completedAt: int)
      modifies this
      ensures rows.Keys == old(rows).Keys && forall other :: other in rows && other != id ==> rows[other] == old(rows)[other]
      ensures id in rows ==>
                var was := old(rows)[id];
                if was.status == Delivering && was.nextAttemptAt.Some? && was.nextAttemptAt == claim.nextAttemptAt then
                  && rows[id].attempt == claim.attempt + 1 && rows[id].maxAttempts == was.maxAttempts
                  && (ok ==> rows[id].status == Delivered && rows[id].nextAttemptAt == None)
                  && (!ok && claim.attempt + 1 >= claim.maxAttempts ==> rows[id].status == Failed && rows[id].nextAttemptAt == None)
                  && (!ok && claim.attempt + 1 < claim.maxAttempts ==>
                        && rows[id].status == Retrying
                        && rows[id].nextAttemptAt
                           == Some(completedAt + if claim.attempt == 0 then 5_000 else if claim.attempt == 1 then 30_000 else 300_000))
                else rows[id] == was
      ensures rows == if id in old(rows) then old(rows)[id := Recorded(old(rows)[id], claim, ok, completedAt)]
                      else old(rows)
    {
      if id in rows && HoldsClaim(rows[id], claim) {
        rows := rows[id := WithOutcome(rows[id], claim, ok, completedAt)];
      }
    }

    /** One turn of deliverDue's loop: claim a row, attempt it, record the result. */
    method DeliverOne(reading: Reading) returns (sent: Option<nat>)
      modifies this
      ensures sent.None? ==> rows == old(rows) && forall id :: id in rows ==>
                || rows[id].status in {Delivered, Failed}
                || (rows[id].nextAttemptAt == None && rows[id].status == Delivering)
                || (rows[id].nextAttemptAt.Some? && reading.claimedAt < rows[id].nextAttemptAt.value)
      ensures sent.Some? ==>
                && sent.value in old(rows)
                && var claim := Claimed(old(rows)[sent.value], reading.claimedAt);
                   rows == old(rows)[sent.value := WithOutcome(claim, claim, reading.ok, reading.completedAt)]
    {
      hide Due, NotAfter;
      var claimed := ClaimDue(reading.claimedAt, 1);
      if claimed == [] {
        assert rows == old(rows);
        return None;
      }
      var id := claimed[0];
      assert claimed == [id];
      assert rows == old(rows)[id := Claimed(old(rows)[id], reading.claimedAt)];
      RecordOutcome(id, rows[id], reading.ok, reading.completedAt);
      return Some(id);
    }

    /** A deliverDue pass with no other worker: every claim it makes records exactly one attempt,
        and a pass that stops early stops because nothing was due. */
    method DeliverDue(readings: seq<Reading>) returns (results: seq<nat>)
      requires |readings| == DELIVERY_BATCH
      modifies this
      ensures |results| <= 50 && rows.Keys == old(rows).Keys
      ensures forall id :: id in rows ==> rows[id].attempt == old(rows)[id].attempt + Attempts(results, id)
      ensures forall id :: id in rows && id in results ==> rows[id].status != Delivering
      ensures forall id :: id in rows && id !in results ==> rows[id] == old(rows)[id]
      ensures |results| < 50 ==>
                forall id :: id in rows ==>
                  || rows[id].status in {Delivered, Failed}
                  || (rows[id].nextAttemptAt == None && rows[id].status == Delivering)
                  || (rows[id].nextAttemptAt.Some? && readings[|results|].claimedAt < rows[id].nextAttemptAt.value)
    {
      hide Attempts, Due, NotAfter;
      NoAttempts();
      results := [];
      var sent := 0;
      while sent < DELIVERY_BATCH
        invariant sent == |results| <= DELIVERY_BATCH && rows.Keys == old(rows).Keys
        invariant forall id :: id in rows ==> rows[id].attempt == old(rows)[id].attempt + Attempts(results, id)
        invariant forall id :: id in rows && id in results ==> rows[id].status != Delivering
        invariant forall id :: id in rows && id !in results ==> rows[id] == old(rows)[id]
      {
        ghost var before := results;
        var id := DeliverOne(readings[sent]);
        if id.None? {
          break;
        }
        results := results + [id.value];
        AttemptsAppend(before, id.value);
        sent := sent + 1;
      }
    }
  }
}
