/** Every run of the outbox: workers claim, send and commit in any interleaving with each other, with new rows,
  * acknowledgements, erasures and the clock. Workers hold copies and may finish late, repeatedly or never. */
module OutboxRuns {
  import opened Options
  import opened Seqs
  import opened Outbox

  /** One committed attempt. */
  datatype Commit = Commit(claim: ClaimId, row: RowId, attempt: Attempt)

  /** The table, the clock, every copy ever handed out, every commit, and every row identifier ever used. */
  datatype System = System(
    store: Store, now: int, copies: map<ClaimId, Row>, log: seq<Commit>, used: set<RowId>)

  datatype Event =
    | Tick(elapsed: nat)
    | Enqueue(row: Row)
    | Claim(tenant: string, worker: string, ttl: int, limit: int)
    | Finish(claim: ClaimId, sentAt: int, reply: Reply)
    | Ack(id: RowId, actor: string)
    | Remove(ids: set<RowId>)

  function NewCopies(first: ClaimId, batch: seq<Row>): map<ClaimId, Row> {
    if batch == [] then map[]
    else NewCopies(first, batch[..|batch| - 1])[first + |batch| - 1 := batch[|batch| - 1]]
  }

  /** The copies are numbered from the given claim on, and there are no others. */
  ghost predicate Numbers(m: map<ClaimId, Row>, first: ClaimId, batch: seq<Row>) {
    && (forall c :: c in m <==> first <= c < first + |batch|)
    && (forall c | c in m :: m[c] == batch[c - first])
  }

  lemma {:induction false} NewCopiesNumber(first: ClaimId, batch: seq<Row>)
    ensures Numbers(NewCopies(first, batch), first, batch)
  {
    if batch != [] {
      NewCopiesNumber(first, batch[..|batch| - 1]);
    }
  }

  /** A worker finishes with its copy at any time after it sent, and it sent while the copy was ready. */
  ghost predicate Enabled(sys: System, e: Event) {
    match e
    case Tick(_) => true
    case Enqueue(row) =>
      row.id !in sys.used && row.status.Queued? && row.attemptCount == 0 && row.lease.None?
    case Claim(_, _, _, _) => sys.store.Indexed()
    case Finish(claim, sentAt, _) =>
      && claim in sys.copies && sys.copies[claim].lease.Some?
      && sys.copies[claim].lease.value.claimedAt <= sentAt <= sys.now
      && Ready(sys.copies[claim], sentAt)
    case Ack(_, _) => true
    case Remove(_) => true
  }

  function Apply(sys: System, e: Event): System
    requires Enabled(sys, e)
  {
    match e
    case Tick(elapsed) => sys.(now := sys.now + elapsed)
    case Enqueue(row) => sys.(store := Save(sys.store, row), used := sys.used + {row.id})
    case Claim(tenant, worker, ttl, limit) =>
      sys.(store := ClaimDue(sys.store, tenant, worker, ttl, sys.now, limit),
           copies := sys.copies
             + NewCopies(sys.store.nextClaim, Claimed(sys.store, tenant, worker, ttl, sys.now, limit)))
    case Finish(claim, sentAt, reply) =>
      var copy := sys.copies[claim];
      var attempt := AttemptRecord(copy, reply, sentAt);
      sys.(store := Complete(sys.store, AttemptedRow(copy, reply, sentAt), attempt, claim),
           log := if Fenced(sys.store, copy.id, claim) then sys.log + [Commit(claim, copy.id, attempt)] else sys.log)
    case Ack(id, actor) => sys.(store := Acknowledge(sys.store, id, actor, sys.now))
    case Remove(ids) => sys.(store := Erase(sys.store, ids))
  }

  ghost predicate Run(a: System, events: seq<Event>, b: System)
    decreases |events|
  {
    if events == [] then a == b
    else Enabled(a, events[0]) && Run(Apply(a, events[0]), events[1..], b)
  }

  const EMPTY := System(Store([], map[], map[], 0), 0, map[], [], {})

  /* What every step keeps. */

  ghost predicate CopyFits(sys: System, c: ClaimId)
    requires c in sys.copies
  {
    var copy := sys.copies[c];
    && c < sys.store.nextClaim && copy.id in sys.used && copy.Pending()
    && copy.lease.Some? && copy.lease.value.id == c && copy.lease.value.claimedAt <= sys.now
  }

  /** No lost update: a row under a lease is still the copy the lease was given out with. */
  ghost predicate RowFits(sys: System, id: RowId)
    requires id in sys.store.rows
  {
    var row := sys.store.rows[id];
    row.lease.Some? ==> row.lease.value.id in sys.copies && sys.copies[row.lease.value.id] == row
  }

  ghost predicate Consistent(sys: System) {
    && sys.store.Indexed() && sys.store.rows.Keys <= sys.used
    && (forall c | c in sys.copies :: CopyFits(sys, c))
    && (forall id | id in sys.store.rows :: RowFits(sys, id))
  }

  /** What a claim does, seen from the copies. */
  ghost predicate Leases(sys: System, sys': System) {
    && sys'.now == sys.now && sys'.log == sys.log && sys'.used == sys.used
    && sys'.store.attempts == sys.store.attempts && sys'.store.rows.Keys == sys.store.rows.Keys
    && sys.store.nextClaim <= sys'.store.nextClaim && sys'.store.Indexed()
    && sys.copies.Keys <= sys'.copies.Keys
    && (forall c | c in sys.copies :: sys'.copies[c] == sys.copies[c])
    && (forall c | c in sys'.copies && c !in sys.copies :: NewLease(sys, sys', c))
    && (forall id | id in sys.store.rows :: RowKeptOrLeased(sys, sys', id))
  }

  ghost predicate NewLease(sys: System, sys': System, c: ClaimId)
    requires c in sys'.copies
  {
    var copy := sys'.copies[c];
    && sys.store.nextClaim <= c < sys'.store.nextClaim
    && copy.id in sys.store.rows && copy.id in sys'.store.rows
    && sys'.store.rows[copy.id] == copy
    && copy.lease.Some? && copy.lease.value.id == c && copy.lease.value.claimedAt == sys.now
    && copy == sys.store.rows[copy.id].(lease := copy.lease)
    && Claimable(sys.store.rows[copy.id], "", sys.now)
  }

  ghost predicate RowKeptOrLeased(sys: System, sys': System, id: RowId)
    requires id in sys.store.rows && id in sys'.store.rows
  {
    var row := sys'.store.rows[id];
    row == sys.store.rows[id]
    || (row.lease.Some? && row.lease.value.id in sys'.copies && row.lease.value.id !in sys.copies
        && sys'.copies[row.lease.value.id] == row)
  }

  lemma ClaimLeases(sys: System, e: Event)
    requires Consistent(sys) && e.Claim?
    ensures Leases(sys, Apply(sys, e))
  {
    var s, now := sys.store, sys.now;
    var ids := Batch(s, e.tenant, now, e.limit);
    var copies := Claimed(s, e.tenant, e.worker, e.ttl, now, e.limit);
    ClaimEffect(s, e.tenant, e.worker, e.ttl, now, e.limit);
    NewCopiesNumber(s.nextClaim, copies);
    CopiesExtended(sys, NewCopies(s.nextClaim, copies), copies);
    BatchLeases(sys, Apply(sys, e), ids, copies, e);
  }

  lemma BatchLeases(sys: System, sys': System, ids: seq<RowId>, copies: seq<Row>, e: Event)
    requires Consistent(sys) && e.Claim? && sys'.store.Indexed()
    requires sys' == sys.(store := sys'.store, copies := sys'.copies)
    requires Extends(sys, sys'.copies, copies)
    requires LeasesExactly(sys.store, ids, e.worker, e.ttl, sys.now, sys'.store, copies)
    requires forall id | id in ids :: id in sys.store.rows && Claimable(sys.store.rows[id], e.tenant, sys.now)
    ensures Leases(sys, sys')
  {
    forall c | c in sys'.copies && c !in sys.copies
      ensures NewLease(sys, sys', c)
    {
      NewCopyLeases(sys, sys', ids, copies, e, c - sys.store.nextClaim);
    }
    forall id | id in sys.store.rows
      ensures RowKeptOrLeased(sys, sys', id)
    {
      if id in ids {
        var i :| 0 <= i < |ids| && ids[i] == id;
        assert sys.store.nextClaim + i in sys'.copies;
        RowNowLeased(sys, sys', ids, copies, e, i);
      }
    }
  }

  /** The old copies are kept, and the batch joins them under new numbers. */
  ghost predicate Extends(sys: System, copies': map<ClaimId, Row>, batch: seq<Row>) {
    && (forall c | c in sys.copies :: c in copies' && copies'[c] == sys.copies[c])
    && (forall c | c in copies' && c !in sys.copies ::
          0 <= c - sys.store.nextClaim < |batch| && copies'[c] == batch[c - sys.store.nextClaim])
    && (forall c | sys.store.nextClaim <= c < sys.store.nextClaim + |batch| ::
          c in copies' && c !in sys.copies && copies'[c] == batch[c - sys.store.nextClaim])
  }

  lemma CopiesExtended(sys: System, added: map<ClaimId, Row>, batch: seq<Row>)
    requires Consistent(sys) && Numbers(added, sys.store.nextClaim, batch)
    ensures Extends(sys, sys.copies + added, batch)
  {
    forall c | c in sys.copies
      ensures c < sys.store.nextClaim
    {
      assert CopyFits(sys, c);
    }
  }

  lemma RowNowLeased(sys: System, sys': System, ids: seq<RowId>, copies: seq<Row>, e: Event, i: nat)
    requires e.Claim? && i < |ids| && ids[i] in sys.store.rows && ids[i] in sys'.store.rows
    requires LeasesExactly(sys.store, ids, e.worker, e.ttl, sys.now, sys'.store, copies)
    requires sys.store.nextClaim + i in sys'.copies && sys.store.nextClaim + i !in sys.copies
    requires sys'.copies[sys.store.nextClaim + i] == copies[i]
    ensures RowKeptOrLeased(sys, sys', ids[i])
  {
    assert sys'.store.rows[ids[i]] == copies[i];
  }

  lemma NewCopyLeases(sys: System, sys': System, ids: seq<RowId>, copies: seq<Row>, e: Event, i: nat)
    requires sys.store.Indexed() && e.Claim? && i < |ids| && ids[i] in sys.store.rows
    requires LeasesExactly(sys.store, ids, e.worker, e.ttl, sys.now, sys'.store, copies)
    requires Claimable(sys.store.rows[ids[i]], e.tenant, sys.now)
    requires sys.store.nextClaim + i in sys'.copies && sys'.copies[sys.store.nextClaim + i] == copies[i]
    ensures NewLease(sys, sys', sys.store.nextClaim + i)
  {
    assert copies[i] == Leased(sys.store.rows[ids[i]], sys.store.nextClaim + i, e.worker, sys.now, e.ttl);
  }

  lemma LeasesConsistent(sys: System, sys': System)
    requires Consistent(sys) && Leases(sys, sys')
    ensures Consistent(sys')
  {
    forall c | c in sys'.copies
      ensures CopyFits(sys', c)
    {
      if c in sys.copies {
        assert CopyFits(sys, c);
      } else {
        assert NewLease(sys, sys', c);
      }
    }
    forall id | id in sys'.store.rows
      ensures RowFits(sys', id)
    {
      assert RowFits(sys, id) && RowKeptOrLeased(sys, sys', id);
    }
  }

  lemma FinishConsistent(sys: System, e: Event)
    requires Consistent(sys) && e.Finish? && Enabled(sys, e)
    ensures Consistent(Apply(sys, e))
  {
    var sys' := Apply(sys, e);
    var copy := sys.copies[e.claim];
    assert CopyFits(sys, e.claim);
    forall c | c in sys'.copies
      ensures CopyFits(sys', c)
    {
      assert CopyFits(sys, c);
    }
    forall id | id in sys'.store.rows
      ensures RowFits(sys', id)
    {
      if id != copy.id || !Fenced(sys.store, copy.id, e.claim) {
        assert RowFits(sys, id);
      }
    }
  }

  lemma OtherConsistent(sys: System, e: Event)
    requires Consistent(sys) && Enabled(sys, e) && !e.Claim? && !e.Finish?
    ensures Consistent(Apply(sys, e))
  {
    var sys' := Apply(sys, e);
    forall c | c in sys'.copies
      ensures CopyFits(sys', c)
    {
      assert CopyFits(sys, c);
    }
    forall id | id in sys'.store.rows
      ensures RowFits(sys', id)
    {
      if id in sys.store.rows {
        assert RowFits(sys, id);
        if sys.store.rows[id].lease.Some? {
          assert CopyFits(sys, sys.store.rows[id].lease.value.id);
        }
      }
    }
    if e.Remove? {
      FilterNoDuplicates(Outside(e.ids), sys.store.order);
      FilterMembers(Outside(e.ids), sys.store.order);
    }
  }

  lemma StepConsistent(sys: System, e: Event)
    requires Consistent(sys) && Enabled(sys, e)
    ensures Consistent(Apply(sys, e))
  {
    match e
    case Claim(_, _, _, _) =>
      ClaimLeases(sys, e);
      LeasesConsistent(sys, Apply(sys, e));
    case Finish(_, _, _) => FinishConsistent(sys, e);
    case _ => OtherConsistent(sys, e);
  }

  /* Commits. */

  ghost predicate IsCommitted(log: seq<Commit>, c: ClaimId) {
    exists k :: 0 <= k < |log| && log[k].claim == c
  }

  ghost predicate Logged(sys: System) {
    && (forall k :: 0 <= k < |sys.log| ==>
          sys.log[k].claim in sys.copies && sys.copies[sys.log[k].claim].id == sys.log[k].row)
    && (forall j, k :: 0 <= j < k < |sys.log| ==> sys.log[j].claim != sys.log[k].claim)
    && (forall id | id in sys.store.rows && sys.store.rows[id].lease.Some? ::
          !IsCommitted(sys.log, sys.store.rows[id].lease.value.id))
  }

  lemma StepLogged(sys: System, e: Event)
    requires Consistent(sys) && Enabled(sys, e) && Logged(sys)
    ensures Logged(Apply(sys, e))
  {
    var sys' := Apply(sys, e);
    match e
    case Claim(_, _, _, _) =>
      ClaimLeases(sys, e);
      LeasesLogged(sys, sys');
    case Finish(claim, _, _) =>
      FinishLogged(sys, e);
    case _ =>
      assert sys'.log == sys.log && sys'.copies == sys.copies;
  }

  lemma LeasesLogged(sys: System, sys': System)
    requires Consistent(sys) && Leases(sys, sys') && Logged(sys)
    ensures Logged(sys')
  {
    forall id | id in sys'.store.rows && sys'.store.rows[id].lease.Some?
      ensures !IsCommitted(sys'.log, sys'.store.rows[id].lease.value.id)
    {
      assert RowKeptOrLeased(sys, sys', id);
    }
  }

  lemma FinishLogged(sys: System, e: Event)
    requires Consistent(sys) && e.Finish? && Enabled(sys, e) && Logged(sys)
    ensures Logged(Apply(sys, e))
  {
    var sys', copy := Apply(sys, e), sys.copies[e.claim];
    if Fenced(sys.store, copy.id, e.claim) {
      assert !IsCommitted(sys.log, e.claim);
      forall id | id in sys'.store.rows && sys'.store.rows[id].lease.Some?
        ensures !IsCommitted(sys'.log, sys'.store.rows[id].lease.value.id)
      {
        assert id != copy.id && RowFits(sys, id) && RowFits(sys, copy.id);
      }
    }
  }

  /** A finishing worker changes the table exactly when its claim still holds the row, and then only that row. */
  lemma FinishIsFenced(sys: System, e: Event)
    requires Consistent(sys) && e.Finish? && Enabled(sys, e)
    ensures var copy, sys' := sys.copies[e.claim], Apply(sys, e);
            && (copy.id !in sys.store.rows || sys.store.rows[copy.id].lease != copy.lease ==> sys' == sys)
            && (copy.id in sys.store.rows && sys.store.rows[copy.id].lease == copy.lease ==>
                  && sys.store.rows[copy.id] == copy
                  && sys'.store.rows == sys.store.rows[
                       copy.id := AttemptedRow(copy, e.reply, e.sentAt).(lease := None)]
                  && sys'.log == sys.log + [Commit(e.claim, copy.id, AttemptRecord(copy, e.reply, e.sentAt))])
  {
    assert CopyFits(sys, e.claim);
    var copy := sys.copies[e.claim];
    if copy.id in sys.store.rows {
      assert RowFits(sys, copy.id);
    }
  }

  /* Lease exclusion. */

  /** A claim whose lease has not run out and which has not been used. */
  ghost predicate Live(sys: System, c: ClaimId) {
    && c in sys.copies && sys.copies[c].lease.Some?
    && sys.copies[c].lease.value.expiresAt > sys.now && !IsCommitted(sys.log, c)
  }

  ghost predicate HoldsRow(sys: System, c: ClaimId)
    requires c in sys.copies
  {
    var id := sys.copies[c].id;
    id in sys.store.rows ==> sys.store.rows[id].lease.Some? && sys.store.rows[id].lease.value.id == c
  }

  ghost predicate Exclusive(sys: System) {
    && (forall c | Live(sys, c) :: HoldsRow(sys, c))
    && (forall c, d | Live(sys, c) && Live(sys, d) && sys.copies[c].id == sys.copies[d].id :: c == d)
  }

  lemma LeasesExclusive(sys: System, sys': System)
    requires Consistent(sys) && Leases(sys, sys') && Exclusive(sys)
    ensures Exclusive(sys')
  {
    forall c | Live(sys', c)
      ensures HoldsRow(sys', c)
    {
      if c in sys.copies {
        assert Live(sys, c) && HoldsRow(sys, c);
        var id := sys.copies[c].id;
        if id in sys.store.rows {
          assert RowFits(sys, id) && RowKeptOrLeased(sys, sys', id);
          StillLeased(sys, sys', id);
        }
      } else {
        assert NewLease(sys, sys', c);
      }
    }
    forall c, d | Live(sys', c) && Live(sys', d) && sys'.copies[c].id == sys'.copies[d].id
      ensures c == d
    {
      assert HoldsRow(sys', c) && HoldsRow(sys', d);
      assert c !in sys.copies ==> NewLease(sys, sys', c);
      assert d !in sys.copies ==> NewLease(sys, sys', d);
      assert c in sys.copies && d in sys.copies ==> Live(sys, c) && Live(sys, d);
    }
  }

  /** A row under an unexpired lease is not leased again. */
  lemma StillLeased(sys: System, sys': System, id: RowId)
    requires Leases(sys, sys') && id in sys.store.rows
    requires sys.store.rows[id].lease.Some? && sys.store.rows[id].lease.value.expiresAt > sys.now
    ensures sys'.store.rows[id] == sys.store.rows[id]
  {
    assert RowKeptOrLeased(sys, sys', id);
    var row := sys'.store.rows[id];
    assert row.lease.Some? && row.lease.value.id in sys'.copies && row.lease.value.id !in sys.copies ==>
      NewLease(sys, sys', row.lease.value.id);
  }

  lemma FinishExclusive(sys: System, e: Event)
    requires Consistent(sys) && e.Finish? && Enabled(sys, e) && Exclusive(sys)
    ensures Exclusive(Apply(sys, e))
  {
    var sys', copy := Apply(sys, e), sys.copies[e.claim];
    assert forall k :: 0 <= k < |sys.log| ==> sys'.log[k] == sys.log[k];
    forall c | Live(sys', c)
      ensures Live(sys, c) && HoldsRow(sys', c)
    {
      assert Live(sys, c) && HoldsRow(sys, c);
      if Fenced(sys.store, copy.id, e.claim) {
        assert sys'.log[|sys.log|].claim == e.claim;
      }
    }
  }

  lemma OtherExclusive(sys: System, e: Event)
    requires Consistent(sys) && Enabled(sys, e) && Exclusive(sys) && !e.Claim? && !e.Finish?
    ensures Exclusive(Apply(sys, e))
  {
    var sys' := Apply(sys, e);
    forall c | Live(sys', c)
      ensures Live(sys, c) && HoldsRow(sys', c)
    {
      assert Live(sys, c) && HoldsRow(sys, c) && CopyFits(sys, c);
    }
  }

  lemma StepExclusive(sys: System, e: Event)
    requires Consistent(sys) && Enabled(sys, e) && Exclusive(sys)
    ensures Exclusive(Apply(sys, e))
  {
    match e
    case Claim(_, _, _, _) =>
      ClaimLeases(sys, e);
      LeasesExclusive(sys, Apply(sys, e));
    case Finish(_, _, _) => FinishExclusive(sys, e);
    case _ => OtherExclusive(sys, e);
  }

  /* The attempt ledger. */

  /** The attempts of a row are numbered 1 to its count, spaced by the retry delays, and end as its status says. */
  ghost predicate Ledger(row: Row, attempts: seq<Attempt>, now: int) {
    && |attempts| == row.attemptCount <= MAX_ATTEMPTS
    && (forall i :: 0 <= i < |attempts| ==> attempts[i].number == i + 1 && attempts[i].at <= now)
    && (forall i :: 0 <= i < |attempts| - 1 ==> attempts[i].outcome == Retry)
    && (forall i :: 0 <= i < |attempts| - 1 ==> attempts[i + 1].at >= RetryAt(i + 1, attempts[i].at))
    && EndsAs(row, attempts)
  }

  ghost predicate EndsAs(row: Row, attempts: seq<Attempt>) {
    match row.status
    case Queued => attempts == []
    case RetryScheduled =>
      0 < |attempts| < MAX_ATTEMPTS && attempts[|attempts| - 1].outcome == Retry
      && row.nextAttemptAt == RetryAt(|attempts|, attempts[|attempts| - 1].at)
    case Failed => |attempts| == MAX_ATTEMPTS && attempts[|attempts| - 1].outcome == GaveUp
    case _ => attempts != [] && attempts[|attempts| - 1].outcome == Succeeded
  }

  function ForRow(id: RowId): Commit -> bool {
    (c: Commit) => c.row == id
  }

  function AttemptOf(c: Commit): Attempt {
    c.attempt
  }

  /** The ledger of one row: its stored attempts are its commits, and they agree with the row. */
  ghost predicate Balanced(sys: System, id: RowId)
    requires id in sys.store.rows
  {
    && sys.store.AttemptsOf(id) == Map(AttemptOf, Filter(ForRow(id), sys.log))
    && Ledger(sys.store.rows[id], sys.store.AttemptsOf(id), sys.now)
  }

  ghost predicate Ledgers(sys: System) {
    forall id | id in sys.store.rows :: Balanced(sys, id)
  }

  /** One more attempt on a balanced row leaves it balanced. */
  lemma AttemptKeepsLedger(row: Row, attempts: seq<Attempt>, reply: Reply, sentAt: int, now: int)
    requires Ledger(row, attempts, now) && Ready(row, sentAt) && sentAt <= now
    ensures Ledger(AttemptedRow(row, reply, sentAt).(lease := None),
                   attempts + [AttemptRecord(row, reply, sentAt)], now)
  {
  }

  lemma LogStep(log: seq<Commit>, c: Commit, id: RowId)
    ensures Map(AttemptOf, Filter(ForRow(id), log + [c]))
         == Map(AttemptOf, Filter(ForRow(id), log)) + if c.row == id then [c.attempt] else []
  {
    FilterAppend(ForRow(id), log, [c]);
    assert [c][1..] == [];
    assert Filter(ForRow(id), [c]) == if c.row == id then [c] else [];
  }

  lemma FinishLedgers(sys: System, e: Event)
    requires Consistent(sys) && e.Finish? && Enabled(sys, e) && Ledgers(sys)
    ensures Ledgers(Apply(sys, e))
  {
    var copy := sys.copies[e.claim];
    FinishIsFenced(sys, e);
    assert CopyFits(sys, e.claim);
    if Fenced(sys.store, copy.id, e.claim) {
      assert RowFits(sys, copy.id);
      CommitBalanced(sys, Apply(sys, e), copy, e);
    }
  }

  lemma CommitBalanced(sys: System, sys': System, copy: Row, e: Event)
    requires e.Finish? && Ready(copy, e.sentAt) && e.sentAt <= sys.now
    requires Ledgers(sys) && copy.id in sys.store.rows && sys.store.rows[copy.id] == copy
    requires var attempt := AttemptRecord(copy, e.reply, e.sentAt);
             && sys'.store.rows == sys.store.rows[copy.id := AttemptedRow(copy, e.reply, e.sentAt).(lease := None)]
             && sys'.store.attempts == sys.store.attempts[copy.id := sys.store.AttemptsOf(copy.id) + [attempt]]
             && sys'.log == sys.log + [Commit(e.claim, copy.id, attempt)] && sys'.now == sys.now
    ensures Ledgers(sys')
  {
    var attempt := AttemptRecord(copy, e.reply, e.sentAt);
    assert Balanced(sys, copy.id);
    AttemptKeepsLedger(copy, sys.store.AttemptsOf(copy.id), e.reply, e.sentAt, sys.now);
    forall id | id in sys'.store.rows
      ensures Balanced(sys', id)
    {
      LogStep(sys.log, Commit(e.claim, copy.id, attempt), id);
      assert id != copy.id ==> Balanced(sys, id) && sys'.store.AttemptsOf(id) == sys.store.AttemptsOf(id);
    }
  }

  lemma LeasesLedgers(sys: System, sys': System)
    requires Consistent(sys) && Leases(sys, sys') && Ledgers(sys)
    ensures Ledgers(sys')
  {
    forall id | id in sys'.store.rows
      ensures Balanced(sys', id)
    {
      assert Balanced(sys, id);
      OnlyLeaseChanges(sys, sys', id);
      LedgerIgnoresLease(sys.store.rows[id], sys'.store.rows[id], sys.store.AttemptsOf(id), sys.now);
    }
  }

  /** A claim touches nothing of a row but its lease, and only of a pending row. */
  lemma OnlyLeaseChanges(sys: System, sys': System, id: RowId)
    requires Leases(sys, sys') && id in sys.store.rows
    ensures sys'.store.rows[id] == sys.store.rows[id].(lease := sys'.store.rows[id].lease)
    ensures sys'.store.rows[id] == sys.store.rows[id] || sys.store.rows[id].Pending()
  {
    assert RowKeptOrLeased(sys, sys', id);
    var row := sys'.store.rows[id];
    assert row.lease.Some? && row.lease.value.id in sys'.copies && row.lease.value.id !in sys.copies ==>
      NewLease(sys, sys', row.lease.value.id);
  }

  lemma LedgerIgnoresLease(row: Row, row': Row, attempts: seq<Attempt>, now: int)
    requires Ledger(row, attempts, now) && row' == row.(lease := row'.lease)
    ensures Ledger(row', attempts, now)
  {
  }

  lemma NoCommitsYet(sys: System, id: RowId)
    requires Consistent(sys) && Logged(sys) && id !in sys.used
    ensures Filter(ForRow(id), sys.log) == []
  {
    forall c | c in sys.log
      ensures c.row != id
    {
      var k :| 0 <= k < |sys.log| && sys.log[k] == c;
      assert CopyFits(sys, sys.log[k].claim);
    }
    FilterNone(ForRow(id), sys.log);
  }

  lemma EnqueueLedgers(sys: System, e: Event)
    requires Consistent(sys) && Enabled(sys, e) && Ledgers(sys) && Logged(sys) && e.Enqueue?
    ensures Ledgers(Apply(sys, e))
  {
    var sys' := Apply(sys, e);
    forall id | id in sys'.store.rows
      ensures Balanced(sys', id)
    {
      if id == e.row.id {
        NoCommitsYet(sys, id);
      } else {
        assert Balanced(sys, id);
      }
    }
  }

  lemma TickLedgers(sys: System, e: Event)
    requires Enabled(sys, e) && Ledgers(sys) && e.Tick?
    ensures Ledgers(Apply(sys, e))
  {
    forall id | id in sys.store.rows
      ensures Balanced(Apply(sys, e), id)
    {
      assert Balanced(sys, id);
    }
  }

  lemma RemoveLedgers(sys: System, e: Event)
    requires Enabled(sys, e) && Ledgers(sys) && e.Remove?
    ensures Ledgers(Apply(sys, e))
  {
    var sys' := Apply(sys, e);
    forall id | id in sys'.store.rows
      ensures Balanced(sys', id)
    {
      assert Balanced(sys, id);
      assert sys'.store.AttemptsOf(id) == sys.store.AttemptsOf(id);
    }
  }

  lemma OneRowChanges(sys: System, sys': System, id: RowId)
    requires Ledgers(sys) && id in sys.store.rows && sys'.log == sys.log && sys'.now == sys.now
    requires sys'.store.attempts == sys.store.attempts && sys'.store.rows.Keys == sys.store.rows.Keys
    requires forall i | i in sys.store.rows && i != id :: sys'.store.rows[i] == sys.store.rows[i]
    requires Ledger(sys'.store.rows[id], sys.store.AttemptsOf(id), sys.now)
    ensures Ledgers(sys')
  {
    forall i | i in sys'.store.rows
      ensures Balanced(sys', i)
    {
      assert Balanced(sys, i);
    }
  }

  lemma AckKeepsLedger(row: Row, attempts: seq<Attempt>, now: int, actor: string, at: int)
    requires Ledger(row, attempts, now) && row.status.Done?
    ensures Ledger(row.(status := Acknowledged, acknowledgedBy := Some(actor), updatedAt := at), attempts, now)
  {
  }

  lemma AckLedgers(sys: System, e: Event)
    requires Consistent(sys) && Enabled(sys, e) && Ledgers(sys) && e.Ack?
    ensures Ledgers(Apply(sys, e))
  {
    if e.id in sys.store.rows && sys.store.rows[e.id].status.Done? {
      var sys' := Apply(sys, e);
      assert Balanced(sys, e.id);
      AckKeepsLedger(sys.store.rows[e.id], sys.store.AttemptsOf(e.id), sys.now, e.actor, sys.now);
      OneRowChanges(sys, sys', e.id);
    } else {
      assert Apply(sys, e) == sys;
    }
  }

  lemma StepLedgers(sys: System, e: Event)
    requires Consistent(sys) && Enabled(sys, e) && Ledgers(sys) && Logged(sys)
    ensures Ledgers(Apply(sys, e))
  {
    match e
    case Claim(_, _, _, _) =>
      ClaimLeases(sys, e);
      LeasesLedgers(sys, Apply(sys, e));
    case Finish(_, _, _) => FinishLedgers(sys, e);
    case Enqueue(_) => EnqueueLedgers(sys, e);
    case Tick(_) => TickLedgers(sys, e);
    case Ack(_, _) => AckLedgers(sys, e);
    case Remove(_) => RemoveLedgers(sys, e);
  }

  /* All of it, over runs. */

  ghost predicate Sound(sys: System) {
    Consistent(sys) && Logged(sys) && Exclusive(sys) && Ledgers(sys)
  }

  lemma {:induction false} RunSound(a: System, events: seq<Event>, b: System)
    requires Sound(a) && Run(a, events, b)
    ensures Sound(b)
    decreases |events|
  {
    if events != [] {
      StepConsistent(a, events[0]);
      StepLogged(a, events[0]);
      StepExclusive(a, events[0]);
      StepLedgers(a, events[0]);
      RunSound(Apply(a, events[0]), events[1..], b);
    }
  }

  /** Lease exclusion and fencing, whatever the interleaving: a row has at most one live claim, and no claim
    * commits twice. */
  lemma LeasesExclude(events: seq<Event>, sys: System)
    requires Run(EMPTY, events, sys)
    ensures forall c, d | Live(sys, c) && Live(sys, d) && sys.copies[c].id == sys.copies[d].id :: c == d
    ensures forall j, k :: 0 <= j < k < |sys.log| ==> sys.log[j].claim != sys.log[k].claim
  {
    RunSound(EMPTY, events, sys);
  }

  /** The stored attempts of every row agree with it: numbered 1 to its count, at most five, all but the last
    * retried, the last as its status says, each no earlier than the retry delay after the one before. */
  lemma LedgerAgrees(events: seq<Event>, sys: System, id: RowId)
    requires Run(EMPTY, events, sys) && id in sys.store.rows
    ensures Ledger(sys.store.rows[id], sys.store.AttemptsOf(id), sys.now)
    ensures sys.store.AttemptsOf(id) == Map(AttemptOf, Filter(ForRow(id), sys.log))
  {
    RunSound(EMPTY, events, sys);
    assert Balanced(sys, id);
  }

  /** The handler of an acknowledgement reads the row, awaits its claim, and only then marks and saves what it read. */
  function AcknowledgeHeld(s: Store, held: Row, actor: string, now: int): Store {
    if held.status.Done? then
      Save(s, held.(status := Acknowledged, acknowledgedBy := Some(actor), updatedAt := now))
    else s
  }

  /** That is one step, as in the runs here, if and only if the row was not erased in between. If it was, the save
    * brings the row back without its attempts, and row and attempts disagree. */
  lemma LateAcknowledgementRevives(s: Store, held: Row, actor: string, at: int, now: int)
    requires s.Indexed() && held.status.Done? && (held.id in s.rows ==> s.rows[held.id] == held)
    ensures AcknowledgeHeld(s, held, actor, at) == Acknowledge(s, held.id, actor, at) <==> held.id in s.rows
    ensures var t := AcknowledgeHeld(s, held, actor, at);
            held.id !in s.rows ==>
              held.id in t.rows && t.AttemptsOf(held.id) == [] && !Ledger(t.rows[held.id], t.AttemptsOf(held.id), now)
  {
  }

  /* Terminal states. */

  predicate Terminal(s: Status) {
    s.Done? || s.Failed? || s.Acknowledged?
  }

  /** A row in a terminal state and what may become of it: only a delivery can still be acknowledged. */
  ghost predicate Absorbed(row: Row, row': Row) {
    Terminal(row.status) ==>
      && row'.attemptCount == row.attemptCount
      && (row'.status == row.status || (row.status.Done? && row'.status.Acknowledged?))
  }

  lemma StepAbsorbs(sys: System, e: Event, id: RowId)
    requires Consistent(sys) && Enabled(sys, e)
    requires id in sys.store.rows && id in Apply(sys, e).store.rows
    ensures Absorbed(sys.store.rows[id], Apply(sys, e).store.rows[id])
  {
    match e
    case Claim(_, _, _, _) =>
      ClaimLeases(sys, e);
      OnlyLeaseChanges(sys, Apply(sys, e), id);
    case Finish(claim, _, _) =>
      assert CopyFits(sys, claim) && RowFits(sys, id);
    case _ =>
  }

  lemma StepForgets(sys: System, e: Event, id: RowId)
    requires Consistent(sys) && Enabled(sys, e) && id in sys.used && id !in sys.store.rows
    ensures id in Apply(sys, e).used && id !in Apply(sys, e).store.rows
  {
    if e.Claim? {
      ClaimLeases(sys, e);
    }
  }

  lemma {:induction false} ForgottenStays(a: System, events: seq<Event>, b: System, id: RowId)
    requires Consistent(a) && Run(a, events, b) && id in a.used && id !in a.store.rows
    ensures id !in b.store.rows
    decreases |events|
  {
    if events != [] {
      StepConsistent(a, events[0]);
      StepForgets(a, events[0], id);
      ForgottenStays(Apply(a, events[0]), events[1..], b, id);
    }
  }

  /** A terminal row stays as it ended for the rest of the run, and an erased row never comes back. */
  lemma {:induction false} TerminalAbsorbs(a: System, events: seq<Event>, b: System, id: RowId)
    requires Consistent(a) && Run(a, events, b)
    requires id in a.used && (id in a.store.rows ==> Terminal(a.store.rows[id].status))
    ensures id in b.store.rows ==> id in a.store.rows && Absorbed(a.store.rows[id], b.store.rows[id])
    decreases |events|
  {
    if events != [] {
      var a' := Apply(a, events[0]);
      StepConsistent(a, events[0]);
      if id !in a.store.rows {
        ForgottenStays(a, events, b, id);
      } else if id !in a'.store.rows {
        assert id in a'.used;
        ForgottenStays(a', events[1..], b, id);
      } else {
        StepAbsorbs(a, events[0], id);
        TerminalAbsorbs(a', events[1..], b, id);
      }
    }
  }

  /* The retry schedule. */

  /** The waits before attempt n + 1, in minutes. */
  function TotalDelay(n: nat): int {
    if n == 0 then 0 else TotalDelay(n - 1) + Delay(n)
  }

  lemma {:induction false} AttemptsSpaced(row: Row, attempts: seq<Attempt>, now: int, n: nat)
    requires Ledger(row, attempts, now) && n < |attempts|
    ensures attempts[n].at >= attempts[0].at + TotalDelay(n) * MINUTE
  {
    if n > 0 {
      AttemptsSpaced(row, attempts, now, n - 1);
      assert attempts[n - 1 + 1].at >= RetryAt(n, attempts[n - 1].at);
      assert TotalDelay(n) * MINUTE == TotalDelay(n - 1) * MINUTE + Delay(n) * MINUTE;
    }
  }

  /** Attempt n + 1 comes no sooner than the first n delays after the first, so five failures take 15 minutes,
    * whatever the claims, expiries and repeated leases. */
  lemma RetriesTakeTime(events: seq<Event>, sys: System, id: RowId, n: nat)
    requires Run(EMPTY, events, sys) && id in sys.store.rows && n < |sys.store.AttemptsOf(id)|
    ensures sys.store.AttemptsOf(id)[n].at >= sys.store.AttemptsOf(id)[0].at + TotalDelay(n) * MINUTE
    ensures sys.store.rows[id].status.Failed? ==>
              && |sys.store.AttemptsOf(id)| == 5
              && sys.store.AttemptsOf(id)[4].at - sys.store.AttemptsOf(id)[0].at >= 900_000_000
  {
    LedgerAgrees(events, sys, id);
    AttemptsSpaced(sys.store.rows[id], sys.store.AttemptsOf(id), sys.now, n);
    if sys.store.rows[id].status.Failed? {
      AttemptsSpaced(sys.store.rows[id], sys.store.AttemptsOf(id), sys.now, 4);
      DelayDoubles(1);
      DelayDoubles(2);
      DelayDoubles(3);
      assert TotalDelay(1) == 1 && TotalDelay(2) == 3 && TotalDelay(3) == 7 && TotalDelay(4) == 15;
    }
  }
}
