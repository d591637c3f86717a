/** The leased outbox (apps/api/repository.py, actions.py, notifications.py).
  * Notifications and approved actions go through the same steps, so one table stands for either. */
module Outbox {
  import opened Options
  import opened Seqs

  type RowId = nat
  type ClaimId = nat

  /** Done is DELIVERED for a notification and DISPATCHED for an action; only notifications are acknowledged. */
  datatype Status = Queued | RetryScheduled | Done | Failed | Acknowledged

  datatype Lease = Lease(id: ClaimId, worker: string, claimedAt: int, expiresAt: int)

  datatype Row = Row(
    id: RowId, tenant: string, payload: string, status: Status, attemptCount: nat, nextAttemptAt: int,
    lastError: Option<string>, doneAt: Option<int>, acknowledgedBy: Option<string>, updatedAt: int,
    lease: Option<Lease>)
  {
    predicate Pending() {
      status.Queued? || status.RetryScheduled?
    }
  }

  datatype AttemptOutcome = Succeeded | Retry | GaveUp

  datatype Attempt = Attempt(
    number: nat, outcome: AttemptOutcome, at: int, reference: Option<string>, error: Option<string>)

  /** What the sender does with one message. */
  datatype Reply = Raises | Replies(ok: bool, reference: Option<string>, error: Option<string>)

  const MAX_ATTEMPTS: nat := 5
  const MINUTE: int := 60_000_000

  /* One attempt. */

  function Power2(n: nat): nat {
    if n == 0 then 1 else 2 * Power2(n - 1)
  }

  /** Minutes to wait after attempt n. */
  function Delay(n: int): int {
    var raw := Power2(if n - 1 > 0 then n - 1 else 0);
    if raw < 60 then raw else 60
  }

  function RetryAt(attemptNumber: int, now: int): int {
    now + Delay(attemptNumber) * MINUTE
  }

  /** Doubling from one minute, capped at an hour. */
  lemma DelayDoubles(n: int)
    requires n >= 1
    ensures Delay(1) == 1
    ensures Delay(n + 1) == if 2 * Delay(n) < 60 then 2 * Delay(n) else 60
  {
    assert Power2(n) == 2 * Power2(n - 1);
  }

  /** Whether a worker goes ahead with its copy at the given time. */
  predicate Ready(row: Row, timestamp: int) {
    && row.Pending()
    && row.nextAttemptAt <= timestamp
    && (row.lease.Some? ==> row.lease.value.expiresAt > timestamp)
  }

  function ErrorOf(reply: Reply): Option<string> {
    if reply.Raises? then Some("sender_exception") else reply.error
  }

  function Delivered(reply: Reply): bool {
    reply.Replies? && reply.ok
  }

  function ShownError(reply: Reply): string {
    var e := ErrorOf(reply);
    if e.Some? && e.value != "" then e.value else "delivery_failed"
  }

  function AttemptedOutcome(row: Row, reply: Reply): AttemptOutcome {
    if Delivered(reply) then Succeeded
    else if row.attemptCount + 1 >= MAX_ATTEMPTS then GaveUp
    else Retry
  }

  function AttemptedRow(row: Row, reply: Reply, timestamp: int): Row {
    var number := row.attemptCount + 1;
    var counted := row.(attemptCount := number, updatedAt := timestamp);
    match AttemptedOutcome(row, reply)
    case Succeeded => counted.(status := Done, doneAt := Some(timestamp), lastError := None)
    case GaveUp => counted.(status := Failed, lastError := Some(ShownError(reply)))
    case Retry =>
      counted.(status := RetryScheduled, nextAttemptAt := RetryAt(number, timestamp),
               lastError := Some(ShownError(reply)))
  }

  function AttemptRecord(row: Row, reply: Reply, timestamp: int): Attempt {
    Attempt(row.attemptCount + 1, AttemptedOutcome(row, reply), timestamp,
            if reply.Replies? then reply.reference else None, ErrorOf(reply))
  }

  /** What one attempt makes of a row, reply by reply. Only a reply that says so is a delivery; every other one,
    * exceptions included, is retried after 1, 2, 4 and 8 minutes and fails the fifth time. */
  lemma AttemptExactly(row: Row, reply: Reply, timestamp: int)
    ensures var after, n := AttemptedRow(row, reply, timestamp), row.attemptCount + 1;
            var sent := match reply case Raises => false case Replies(ok, _, _) => ok;
            && (after.status == Done <==> sent)
            && (after.status == Failed <==> !sent && n >= 5)
            && (after.status == RetryScheduled <==> !sent && n < 5)
            && after == row.(attemptCount := n, updatedAt := timestamp, status := after.status,
                             doneAt := if sent then Some(timestamp) else row.doneAt,
                             nextAttemptAt := after.nextAttemptAt, lastError := after.lastError)
            && after.nextAttemptAt == (
                 if sent || n >= 5 then row.nextAttemptAt
                 else timestamp + 60_000_000 * (if n == 1 then 1 else if n == 2 then 2 else if n == 3 then 4 else 8))
            && after.lastError == (match reply
                 case Raises => Some("sender_exception")
                 case Replies(ok, _, error) =>
                   if ok then None
                   else if error.Some? && error.value != "" then error
                   else Some("delivery_failed"))
    ensures var record, n := AttemptRecord(row, reply, timestamp), row.attemptCount + 1;
            && record.number == n && record.at == timestamp
            && (record.outcome == Succeeded <==> reply.Replies? && reply.ok)
            && (record.outcome == GaveUp <==> !(reply.Replies? && reply.ok) && n >= 5)
            && record.reference == (match reply case Raises => None case Replies(_, reference, _) => reference)
            && record.error == (match reply case Raises => Some("sender_exception") case Replies(_, _, error) => error)
  {
    DelayDoubles(1);
    DelayDoubles(2);
    DelayDoubles(3);
  }

  /* The table. Rows are kept in insertion order, as a Python dictionary keeps them. */

  datatype Store = Store(
    order: seq<RowId>, rows: map<RowId, Row>, attempts: map<RowId, seq<Attempt>>, nextClaim: ClaimId)
  {
    ghost predicate Indexed() {
      && NoDuplicates(order)
      && (forall id :: id in order <==> id in rows)
      && (forall id | id in rows :: rows[id].id == id)
      && attempts.Keys <= rows.Keys
    }

    function AttemptsOf(id: RowId): seq<Attempt> {
      if id in attempts then attempts[id] else []
    }
  }

  /** A row that may be leased now: of the tenant asked for (none asked for when empty), due, and not under
    * an unexpired lease. */
  predicate Claimable(row: Row, tenant: string, now: int) {
    && (tenant != "" ==> row.tenant == tenant)
    && row.Pending()
    && row.nextAttemptAt <= now
    && (row.lease.Some? ==> row.lease.value.expiresAt <= now)
  }

  function ClaimableIn(rows: map<RowId, Row>, tenant: string, now: int): RowId -> bool {
    id => id in rows && Claimable(rows[id], tenant, now)
  }

  function Eligible(s: Store, tenant: string, now: int): seq<RowId> {
    Filter(ClaimableIn(s.rows, tenant, now), s.order)
  }

  /** The rows a claim may lease: of the tenant asked for, queued or to be retried, due, and under no lease that still
    * runs. They come in the order of the table. */
  lemma EligibleExactly(s: Store, tenant: string, now: int, id: RowId)
    requires s.Indexed()
    ensures id in Eligible(s, tenant, now) <==>
              && id in s.rows
              && (tenant == "" || s.rows[id].tenant == tenant)
              && (s.rows[id].status == Queued || s.rows[id].status == RetryScheduled)
              && s.rows[id].nextAttemptAt <= now
              && (s.rows[id].lease == None || s.rows[id].lease.value.expiresAt <= now)
    ensures Subsequence(Eligible(s, tenant, now), s.order)
  {
    FilterMembers(ClaimableIn(s.rows, tenant, now), s.order);
    FilterIsSubsequence(ClaimableIn(s.rows, tenant, now), s.order);
  }

  function BatchSize(eligible: nat, limit: int): nat {
    if limit <= 0 then 0 else if limit < eligible then limit else eligible
  }

  function Batch(s: Store, tenant: string, now: int, limit: int): (ids: seq<RowId>) {
    var eligible := Eligible(s, tenant, now);
    eligible[..BatchSize(|eligible|, limit)]
  }

  function Leased(row: Row, claim: ClaimId, worker: string, now: int, ttl: int): Row {
    row.(lease := Some(Lease(claim, worker, now, now + ttl)))
  }

  /** Lease the listed rows, numbering the claims from the given one. */
  function LeaseAll(rows: map<RowId, Row>, ids: seq<RowId>, first: ClaimId, worker: string, now: int, ttl: int)
    : map<RowId, Row>
    requires forall id | id in ids :: id in rows
  {
    if ids == [] then rows
    else
      var last := |ids| - 1;
      LeaseAll(rows, ids[..last], first, worker, now, ttl)
        [ids[last] := Leased(rows[ids[last]], first + last, worker, now, ttl)]
  }

  /** The copies of those rows handed to the worker. */
  function Copies(rows: map<RowId, Row>, ids: seq<RowId>, first: ClaimId, worker: string, now: int, ttl: int)
    : (copies: seq<Row>)
    requires forall id | id in ids :: id in rows
    ensures |copies| == |ids|
  {
    if ids == [] then []
    else
      var last := |ids| - 1;
      Copies(rows, ids[..last], first, worker, now, ttl)
        + [Leased(rows[ids[last]], first + last, worker, now, ttl)]
  }

  function LeaseRows(s: Store, ids: seq<RowId>, worker: string, ttl: int, now: int): Store
    requires forall id | id in ids :: id in s.rows
  {
    s.(rows := LeaseAll(s.rows, ids, s.nextClaim, worker, now, ttl), nextClaim := s.nextClaim + |ids|)
  }

  function ClaimDue(s: Store, tenant: string, worker: string, ttl: int, now: int, limit: int): Store
    requires s.Indexed()
  {
    BatchFacts(s, tenant, now, limit);
    LeaseRows(s, Batch(s, tenant, now, limit), worker, ttl, now)
  }

  function Claimed(s: Store, tenant: string, worker: string, ttl: int, now: int, limit: int): seq<Row>
    requires s.Indexed()
  {
    BatchFacts(s, tenant, now, limit);
    Copies(s.rows, Batch(s, tenant, now, limit), s.nextClaim, worker, now, ttl)
  }

  predicate Fenced(s: Store, id: RowId, claim: ClaimId) {
    id in s.rows && s.rows[id].lease.Some? && s.rows[id].lease.value.id == claim
  }

  /** Commit a finished attempt if the claim still holds the row; otherwise nothing changes. */
  function Complete(s: Store, row: Row, attempt: Attempt, claim: ClaimId): Store {
    if !Fenced(s, row.id, claim) then s
    else s.(rows := s.rows[row.id := row.(lease := None)],
            attempts := s.attempts[row.id := s.AttemptsOf(row.id) + [attempt]])
  }

  function Save(s: Store, row: Row): Store {
    s.(order := if row.id in s.rows then s.order else s.order + [row.id], rows := s.rows[row.id := row])
  }

  function RecordAttempt(s: Store, id: RowId, attempt: Attempt): Store {
    s.(attempts := s.attempts[id := s.AttemptsOf(id) + [attempt]])
  }

  function Acknowledge(s: Store, id: RowId, actor: string, now: int): Store {
    if id in s.rows && s.rows[id].status.Done? then
      Save(s, s.rows[id].(status := Acknowledged, acknowledgedBy := Some(actor), updatedAt := now))
    else s
  }

  function Outside(ids: set<RowId>): RowId -> bool {
    id => id !in ids
  }

  /** Erasure or retention: the rows go, and their attempts with them. */
  function Erase(s: Store, ids: set<RowId>): Store {
    s.(order := Filter(Outside(ids), s.order), rows := s.rows - ids, attempts := s.attempts - ids)
  }

  lemma {:induction false} LeaseAllAt(
      rows: map<RowId, Row>, ids: seq<RowId>, first: ClaimId, worker: string, now: int, ttl: int)
    requires NoDuplicates(ids) && forall id | id in ids :: id in rows
    ensures var leased := LeaseAll(rows, ids, first, worker, now, ttl);
            && leased.Keys == rows.Keys
            && (forall i :: 0 <= i < |ids| ==> leased[ids[i]] == Leased(rows[ids[i]], first + i, worker, now, ttl))
            && (forall id | id in rows && id !in ids :: leased[id] == rows[id])
  {
    if ids != [] {
      var last := |ids| - 1;
      assert ids == ids[..last] + [ids[last]];
      LeaseAllAt(rows, ids[..last], first, worker, now, ttl);
      var before := LeaseAll(rows, ids[..last], first, worker, now, ttl);
      var leased := LeaseAll(rows, ids, first, worker, now, ttl);
      forall i | 0 <= i < last
        ensures leased[ids[i]] == Leased(rows[ids[i]], first + i, worker, now, ttl)
      {
        assert ids[i] != ids[last] && ids[..last][i] == ids[i];
        assert before[ids[..last][i]] == Leased(rows[ids[..last][i]], first + i, worker, now, ttl);
      }
    }
  }

  lemma {:induction false} CopiesAt(
      rows: map<RowId, Row>, ids: seq<RowId>, first: ClaimId, worker: string, now: int, ttl: int)
    requires forall id | id in ids :: id in rows
    ensures forall i :: 0 <= i < |ids| ==>
              Copies(rows, ids, first, worker, now, ttl)[i] == Leased(rows[ids[i]], first + i, worker, now, ttl)
  {
    if ids != [] {
      var last := |ids| - 1;
      CopiesAt(rows, ids[..last], first, worker, now, ttl);
    }
  }

  lemma BatchFacts(s: Store, tenant: string, now: int, limit: int)
    requires s.Indexed()
    ensures var ids := Batch(s, tenant, now, limit);
            && NoDuplicates(ids)
            && forall id | id in ids :: id in s.rows && Claimable(s.rows[id], tenant, now)
  {
    FilterNoDuplicates(ClaimableIn(s.rows, tenant, now), s.order);
    FilterMembers(ClaimableIn(s.rows, tenant, now), s.order);
    forall id | id in Batch(s, tenant, now, limit)
      ensures id in s.rows && Claimable(s.rows[id], tenant, now)
    {
      assert id in Eligible(s, tenant, now);
    }
  }

  /** What leasing does to each row, and what the worker receives. */
  ghost predicate LeasesExactly(
      s: Store, ids: seq<RowId>, worker: string, ttl: int, now: int, s': Store, copies: seq<Row>)
  {
    && s'.order == s.order && s'.attempts == s.attempts
    && s'.rows.Keys == s.rows.Keys && s'.nextClaim == s.nextClaim + |ids| && |copies| == |ids|
    && (forall i :: 0 <= i < |ids| ==>
          && ids[i] in s.rows
          && s'.rows[ids[i]] == s.rows[ids[i]].(lease := Some(Lease(s.nextClaim + i, worker, now, now + ttl)))
          && copies[i] == s'.rows[ids[i]])
    && (forall id | id in s.rows && id !in ids :: s'.rows[id] == s.rows[id])
  }

  lemma LeaseRowsEffect(s: Store, ids: seq<RowId>, worker: string, ttl: int, now: int)
    requires NoDuplicates(ids) && forall id | id in ids :: id in s.rows
    ensures LeasesExactly(s, ids, worker, ttl, now, LeaseRows(s, ids, worker, ttl, now),
                          Copies(s.rows, ids, s.nextClaim, worker, now, ttl))
  {
    LeaseAllAt(s.rows, ids, s.nextClaim, worker, now, ttl);
    CopiesAt(s.rows, ids, s.nextClaim, worker, now, ttl);
    assert forall i :: 0 <= i < |ids| ==> ids[i] in ids;
  }

  lemma LeasedIndexed(s: Store, ids: seq<RowId>, worker: string, ttl: int, now: int, s': Store, copies: seq<Row>)
    requires s.Indexed() && LeasesExactly(s, ids, worker, ttl, now, s', copies)
    ensures s'.Indexed()
  {
    forall id | id in s'.rows
      ensures s'.rows[id].id == id
    {
      if id in ids {
        var i :| 0 <= i < |ids| && ids[i] == id;
      }
    }
  }

  /** One claim leases exactly its batch, all of it claimable. */
  lemma ClaimEffect(s: Store, tenant: string, worker: string, ttl: int, now: int, limit: int)
    requires s.Indexed()
    ensures var s' := ClaimDue(s, tenant, worker, ttl, now, limit);
            && s'.Indexed() && NoDuplicates(Batch(s, tenant, now, limit))
            && LeasesExactly(s, Batch(s, tenant, now, limit), worker, ttl, now, s',
                             Claimed(s, tenant, worker, ttl, now, limit))
    ensures forall id | id in Batch(s, tenant, now, limit) :: id in s.rows && Claimable(s.rows[id], tenant, now)
  {
    BatchFacts(s, tenant, now, limit);
    var ids := Batch(s, tenant, now, limit);
    LeaseRowsEffect(s, ids, worker, ttl, now);
    LeasedIndexed(s, ids, worker, ttl, now, LeaseRows(s, ids, worker, ttl, now),
                  Copies(s.rows, ids, s.nextClaim, worker, now, ttl));
  }

  /** The claimable rows among the first i. */
  function Found(s: Store, tenant: string, now: int, i: nat): seq<RowId>
    requires i <= |s.order|
  {
    Filter(ClaimableIn(s.rows, tenant, now), s.order[..i])
  }

  lemma FoundFacts(s: Store, tenant: string, now: int, i: nat)
    requires s.Indexed() && i <= |s.order|
    ensures NoDuplicates(Found(s, tenant, now, i))
    ensures forall id | id in Found(s, tenant, now, i) :: id in s.rows && id in s.order[..i]
    ensures i < |s.order| ==> s.order[i] !in Found(s, tenant, now, i)
  {
    FilterNoDuplicates(ClaimableIn(s.rows, tenant, now), s.order[..i]);
    FilterMembers(ClaimableIn(s.rows, tenant, now), s.order[..i]);
  }

  lemma FoundStep(s: Store, tenant: string, now: int, i: nat)
    requires s.Indexed() && i < |s.order|
    ensures s.order[i] in s.rows
    ensures Found(s, tenant, now, i + 1)
         == Found(s, tenant, now, i) + if Claimable(s.rows[s.order[i]], tenant, now) then [s.order[i]] else []
  {
    var test, id := ClaimableIn(s.rows, tenant, now), s.order[i];
    assert id in s.order;
    FilterAppend(test, s.order[..i], [id]);
    assert s.order[..i + 1] == s.order[..i] + [id];
    assert [id][1..] == [];
    assert Filter(test, [id]) == if test(id) then [id] else [];
  }

  /** Leasing one more row, which is as it stood at the start. */
  lemma LeaseOneMore(s: Store, ids: seq<RowId>, id: RowId, worker: string, ttl: int, now: int)
    requires NoDuplicates(ids) && id !in ids && id in s.rows && forall k | k in ids :: k in s.rows
    ensures var t := LeaseRows(s, ids, worker, ttl, now);
            && id in t.rows && t.rows[id] == s.rows[id]
            && (var copy := Leased(t.rows[id], t.nextClaim, worker, now, ttl);
                && LeaseRows(s, ids + [id], worker, ttl, now)
                   == t.(rows := t.rows[id := copy], nextClaim := t.nextClaim + 1)
                && Copies(s.rows, ids + [id], s.nextClaim, worker, now, ttl)
                   == Copies(s.rows, ids, s.nextClaim, worker, now, ttl) + [copy])
  {
    LeaseRowsEffect(s, ids, worker, ttl, now);
    assert (ids + [id])[..|ids|] == ids;
  }

  /** Where a walk stands after i rows: what it found is leased and handed out, the rest is untouched. */
  ghost predicate Walked(
      s: Store, t: Store, claimed: seq<Row>, tenant: string, worker: string, ttl: int, now: int, i: nat)
  {
    && s.Indexed() && i <= |s.order|
    && (forall id | id in Found(s, tenant, now, i) :: id in s.rows)
    && t == LeaseRows(s, Found(s, tenant, now, i), worker, ttl, now)
    && claimed == Copies(s.rows, Found(s, tenant, now, i), s.nextClaim, worker, now, ttl)
  }

  lemma WalkStep(s: Store, t: Store, claimed: seq<Row>, tenant: string, worker: string, ttl: int, now: int, i: nat)
    requires Walked(s, t, claimed, tenant, worker, ttl, now, i) && i < |s.order|
    ensures s.order[i] in t.rows
    ensures var id := s.order[i];
            var copy := Leased(t.rows[id], t.nextClaim, worker, now, ttl);
            if Claimable(t.rows[id], tenant, now) then
              Walked(s, t.(rows := t.rows[id := copy], nextClaim := t.nextClaim + 1), claimed + [copy],
                     tenant, worker, ttl, now, i + 1)
            else Walked(s, t, claimed, tenant, worker, ttl, now, i + 1)
  {
    var ids := Found(s, tenant, now, i);
    FoundFacts(s, tenant, now, i);
    FoundStep(s, tenant, now, i);
    LeaseOneMore(s, ids, s.order[i], worker, ttl, now);
    assert ids + [] == ids;
  }

  lemma FoundIsBatch(s: Store, tenant: string, now: int, limit: int, i: nat)
    requires i <= |s.order|
    requires |Found(s, tenant, now, i)| <= limit || i == 0
    requires i == |s.order| || |Found(s, tenant, now, i)| >= limit
    ensures Found(s, tenant, now, i) == Batch(s, tenant, now, limit)
  {
    FilterAppend(ClaimableIn(s.rows, tenant, now), s.order[..i], s.order[i..]);
    assert s.order[..i] + s.order[i..] == s.order;
  }

  /** The table as the repository holds it. */
  class Table {
    var order: seq<RowId>
    var rows: map<RowId, Row>
    var attempts: map<RowId, seq<Attempt>>
    var nextClaim: ClaimId

    ghost function View(): Store
      reads this
    {
      Store(order, rows, attempts, nextClaim)
    }

    constructor ()
      ensures View() == Store([], map[], map[], 0)
    {
      order, rows, attempts, nextClaim := [], map[], map[], 0;
    }

    /** Walk the table in order and lease rows until the batch is full. */
    method ClaimDueRows(tenant: string, worker: string, ttl: int, now: int, limit: int) returns (claimed: seq<Row>)
      requires View().Indexed()
      modifies this
      ensures View() == ClaimDue(old(View()), tenant, worker, ttl, now, limit)
      ensures claimed == Claimed(old(View()), tenant, worker, ttl, now, limit)
    {
      ghost var s := View();
      claimed := [];
      var i := 0;
      while i < |order| && |claimed| < limit
        invariant Walked(s, View(), claimed, tenant, worker, ttl, now, i)
        invariant |claimed| <= limit || i == 0
        decreases |order| - i
      {
        WalkStep(s, View(), claimed, tenant, worker, ttl, now, i);
        var id := order[i];
        if Claimable(rows[id], tenant, now) {
          var leased := Leased(rows[id], nextClaim, worker, now, ttl);
          rows := rows[id := leased];
          nextClaim := nextClaim + 1;
          claimed := claimed + [leased];
        }
        i := i + 1;
      }
      FoundIsBatch(s, tenant, now, limit, i);
    }

    /** Commit under the claim; the answer is None, and nothing changes, when the claim no longer holds the row. */
    method CompleteAttempt(row: Row, attempt: Attempt, claim: ClaimId) returns (completed: Option<Row>)
      modifies this
      ensures View() == Complete(old(View()), row, attempt, claim)
      ensures completed == if Fenced(old(View()), row.id, claim) then Some(row.(lease := None)) else None
    {
      if row.id !in rows || rows[row.id].lease.None? || rows[row.id].lease.value.id != claim {
        return None;
      }
      var stored := row.(lease := None);
      rows := rows[row.id := stored];
      attempts := attempts[row.id := (if row.id in attempts then attempts[row.id] else []) + [attempt]];
      completed := Some(stored);
    }

    method SaveRow(row: Row)
      modifies this
      ensures View() == Save(old(View()), row)
    {
      if row.id !in rows {
        order := order + [row.id];
      }
      rows := rows[row.id := row];
    }

    method AppendAttempt(id: RowId, attempt: Attempt)
      modifies this
      ensures View() == RecordAttempt(old(View()), id, attempt)
    {
      attempts := attempts[id := (if id in attempts then attempts[id] else []) + [attempt]];
    }

    /** The status step of an acknowledgement: refused before delivery, repeated after it without effect. */
    method AcknowledgeRow(id: RowId, actor: string, now: int) returns (accepted: bool)
      requires View().Indexed()
      modifies this
      ensures View() == Acknowledge(old(View()), id, actor, now)
      ensures accepted <==> id in rows && rows[id].status.Acknowledged?
    {
      if id !in rows || !(rows[id].status.Done? || rows[id].status.Acknowledged?) {
        return false;
      }
      if rows[id].status.Done? {
        SaveRow(rows[id].(status := Acknowledged, acknowledgedBy := Some(actor), updatedAt := now));
      }
      accepted := true;
    }

    /** Erasure or retention rebuilds both dictionaries without the listed rows. */
    method RemoveRows(ids: set<RowId>)
      modifies this
      ensures View() == Erase(old(View()), ids)
    {
      order := Filter(Outside(ids), order);
      rows := map id | id in rows && id !in ids :: rows[id];
      attempts := map id | id in attempts && id !in ids :: attempts[id];
      assert rows == old(rows) - ids && attempts == old(attempts) - ids;
    }

    /** One worker's attempt with its copy of a row: nothing happens unless the copy is ready; a leased copy is
      * committed under its claim, a copy without a lease is saved outright. */
    method DeliverOnce(row: Row, reply: Reply, timestamp: int) returns (result: Row)
      modifies this
      ensures Ready(row, timestamp) <==>
                && (row.status == Queued || row.status == RetryScheduled)
                && row.nextAttemptAt <= timestamp
                && (row.lease == None || timestamp < row.lease.value.expiresAt)
      ensures !Ready(row, timestamp) ==> View() == old(View()) && result == row
      ensures Ready(row, timestamp) && row.lease.Some? ==>
        && View() == Complete(old(View()), AttemptedRow(row, reply, timestamp),
                              AttemptRecord(row, reply, timestamp), row.lease.value.id)
        && result == (if Fenced(old(View()), row.id, row.lease.value.id)
                      then AttemptedRow(row, reply, timestamp).(lease := None)
                      else AttemptedRow(row, reply, timestamp))
      ensures Ready(row, timestamp) && row.lease.None? ==>
        && View() == RecordAttempt(Save(old(View()), AttemptedRow(row, reply, timestamp)), row.id,
                                   AttemptRecord(row, reply, timestamp))
        && result == AttemptedRow(row, reply, timestamp)
    {
      result := row;
      if !row.Pending() || row.nextAttemptAt > timestamp {
        return;
      }
      if row.lease.Some? && row.lease.value.expiresAt <= timestamp {
        return;
      }
      result := result.(attemptCount := row.attemptCount + 1);
      result := result.(updatedAt := timestamp);
      var outcome;
      if Delivered(reply) {
        result := result.(status := Done, doneAt := Some(timestamp), lastError := None);
        outcome := Succeeded;
      } else if result.attemptCount >= MAX_ATTEMPTS {
        result := result.(status := Failed, lastError := Some(ShownError(reply)));
        outcome := GaveUp;
      } else {
        result := result.(status := RetryScheduled);
        result := result.(nextAttemptAt := RetryAt(result.attemptCount, timestamp));
        result := result.(lastError := Some(ShownError(reply)));
        outcome := Retry;
      }
      var attempt := Attempt(result.attemptCount, outcome, timestamp,
                             if reply.Replies? then reply.reference else None, ErrorOf(reply));
      if row.lease.Some? {
        var completed := CompleteAttempt(result, attempt, row.lease.value.id);
        if completed.Some? {
          result := completed.value;
        }
      } else {
        SaveRow(result);
        AppendAttempt(row.id, attempt);
      }
    }
  }

  /* Draining a queue at one instant. */

  lemma {:induction false} FilterDropTaken<T>(p: T -> bool, q: T -> bool, xs: seq<T>, b: nat)
    requires NoDuplicates(xs) && b <= |Filter(p, xs)|
    requires forall x | x in xs :: q(x) <==> p(x) && x !in Filter(p, xs)[..b]
    ensures Filter(q, xs) == Filter(p, xs)[b..]
  {
    if xs != [] {
      assert xs[0] in xs && xs[0] !in xs[1..];
      FilterMembers(p, xs[1..]);
      if p(xs[0]) && b > 0 {
        assert Filter(p, xs)[..b] == [xs[0]] + Filter(p, xs[1..])[..b - 1];
        assert xs[0] in Filter(p, xs)[..b];
        FilterDropTaken(p, q, xs[1..], b - 1);
      } else {
        if p(xs[0]) {
          assert Filter(p, xs)[..0] == [] && Filter(p, xs[1..])[..0] == [];
          FilterDropTaken(p, q, xs[1..], 0);
          assert Filter(p, xs[1..])[0..] == Filter(p, xs[1..]);
        } else {
          FilterDropTaken(p, q, xs[1..], b);
        }
      }
    }
  }

  /** With a positive lease time, what was just claimed is exactly what stops being eligible. */
  lemma ClaimConsumesBatch(s: Store, tenant: string, worker: string, ttl: int, now: int, limit: int)
    requires s.Indexed() && ttl > 0
    ensures var eligible := Eligible(s, tenant, now);
            Eligible(ClaimDue(s, tenant, worker, ttl, now, limit), tenant, now)
            == eligible[BatchSize(|eligible|, limit)..]
  {
    var eligible := Eligible(s, tenant, now);
    var ids, s' := Batch(s, tenant, now, limit), ClaimDue(s, tenant, worker, ttl, now, limit);
    var p, q := ClaimableIn(s.rows, tenant, now), ClaimableIn(s'.rows, tenant, now);
    ClaimEffect(s, tenant, worker, ttl, now, limit);
    forall id | id in s.order
      ensures q(id) <==> p(id) && id !in ids
    {
      if id in ids {
        var i :| 0 <= i < |ids| && ids[i] == id;
      }
    }
    FilterDropTaken(p, q, s.order, BatchSize(|eligible|, limit));
  }

  /** The table after a number of claims in a row, all at one instant. */
  function ClaimRounds(s: Store, tenant: string, worker: string, ttl: int, now: int, limit: int, rounds: nat)
    : (t: Store)
    requires s.Indexed()
    ensures t.Indexed()
  {
    if rounds == 0 then s
    else
      var before := ClaimRounds(s, tenant, worker, ttl, now, limit, rounds - 1);
      ClaimEffect(before, tenant, worker, ttl, now, limit);
      ClaimDue(before, tenant, worker, ttl, now, limit)
  }

  /** How many of n rows are gone after a number of rounds. */
  function Taken(n: nat, limit: nat, rounds: nat): (k: nat)
    ensures k <= n
  {
    if rounds * limit < n then rounds * limit else n
  }

  lemma {:induction false} RoundsConsume(
      s: Store, tenant: string, worker: string, ttl: int, now: int, limit: nat, rounds: nat)
    requires s.Indexed() && ttl > 0 && limit > 0
    ensures Eligible(ClaimRounds(s, tenant, worker, ttl, now, limit, rounds), tenant, now)
         == Eligible(s, tenant, now)[Taken(|Eligible(s, tenant, now)|, limit, rounds)..]
  {
    var all := Eligible(s, tenant, now);
    if rounds > 0 {
      var last := rounds - 1;
      var before := ClaimRounds(s, tenant, worker, ttl, now, limit, last);
      RoundsConsume(s, tenant, worker, ttl, now, limit, last);
      RoundConsumes(before, all, tenant, worker, ttl, now, limit, last);
      assert ClaimRounds(s, tenant, worker, ttl, now, limit, rounds)
          == ClaimDue(before, tenant, worker, ttl, now, limit);
    }
  }

  lemma RoundConsumes(
      before: Store, all: seq<RowId>, tenant: string, worker: string, ttl: int, now: int, limit: nat, round: nat)
    requires before.Indexed() && ttl > 0 && limit > 0
    requires Eligible(before, tenant, now) == all[Taken(|all|, limit, round)..]
    ensures Eligible(ClaimDue(before, tenant, worker, ttl, now, limit), tenant, now)
         == all[Taken(|all|, limit, round + 1)..]
  {
    ClaimConsumesBatch(before, tenant, worker, ttl, now, limit);
    NextSlice(all, Eligible(before, tenant, now), limit, round);
  }

  /** The next batch is the next slice of the rows first eligible, empty once ceil(n / limit) batches are gone. */
  ghost predicate NextInLine(t: Store, all: seq<RowId>, tenant: string, now: int, limit: nat, round: nat)
    requires limit > 0
  {
    var from, to := Taken(|all|, limit, round), Taken(|all|, limit, round + 1);
    && from <= to && Batch(t, tenant, now, limit) == all[from..to]
    && (Batch(t, tenant, now, limit) == [] <==> round >= (|all| + limit - 1) / limit)
  }

  /** Claims at one instant hand out consecutive slices of the rows eligible at the start: the batches are disjoint,
    * leave nothing out, and n rows are gone after ceil(n / limit) calls, no earlier call being empty. */
  lemma ClaimsPartitionEligible(
      s: Store, tenant: string, worker: string, ttl: int, now: int, limit: nat, round: nat)
    requires s.Indexed() && ttl > 0 && limit > 0
    ensures NextInLine(ClaimRounds(s, tenant, worker, ttl, now, limit, round), Eligible(s, tenant, now),
                       tenant, now, limit, round)
  {
    RoundsConsume(s, tenant, worker, ttl, now, limit, round);
    NextBatch(ClaimRounds(s, tenant, worker, ttl, now, limit, round), Eligible(s, tenant, now),
              tenant, now, limit, round);
  }

  lemma NextBatch(t: Store, all: seq<RowId>, tenant: string, now: int, limit: nat, round: nat)
    requires limit > 0 && Eligible(t, tenant, now) == all[Taken(|all|, limit, round)..]
    ensures NextInLine(t, all, tenant, now, limit, round)
  {
    NextSlice(all, Eligible(t, tenant, now), limit, round);
    CeilingDivision(|all|, limit, round);
  }

  /** Taking a batch off what is left after some rounds leaves what is left after one more. */
  lemma NextSlice(all: seq<RowId>, left: seq<RowId>, limit: nat, round: nat)
    requires limit > 0 && left == all[Taken(|all|, limit, round)..]
    ensures var from, to := Taken(|all|, limit, round), Taken(|all|, limit, round + 1);
            var size := BatchSize(|left|, limit);
            && from <= to && left[..size] == all[from..to] && left[size..] == all[to..]
            && (left[..size] == [] <==> round * limit >= |all|)
  {
    SliceBounds(|all|, limit, round);
  }

  lemma SliceBounds(n: nat, limit: nat, round: nat)
    requires limit > 0
    ensures var from, to := Taken(n, limit, round), Taken(n, limit, round + 1);
            && 0 <= from <= to <= n && BatchSize(n - from, limit) == to - from
            && (from == to <==> round * limit >= n)
  {
    assert (round + 1) * limit == round * limit + limit;
  }

  lemma CeilingDivision(n: nat, limit: nat, round: nat)
    requires limit > 0
    ensures round * limit >= n <==> round >= (n + limit - 1) / limit
  {
    var q := (n + limit - 1) / limit;
    var r := (n + limit - 1) % limit;
    assert q * limit + r == n + limit - 1;
    if round >= q {
      assert round * limit >= q * limit;
    } else {
      assert round * limit <= (q - 1) * limit == q * limit - limit;
    }
  }
}
