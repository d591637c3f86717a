/** The in-memory repository as it runs: dictionaries popped, rebuilt and reassigned in place. */
module Repository {
  import opened Options
  import opened Seqs
  import opened Retention
  import opened Purge
  import opened Privacy
  import I = Idempotency

  function SubmittedAt(requests: map<Id, Request>, r: Id): int {
    if r in requests then requests[r].submittedAt else 0
  }

  /** By time of submission, then by identifier. */
  predicate Earlier(requests: map<Id, Request>, a: Id, b: Id) {
    SubmittedAt(requests, a) < SubmittedAt(requests, b)
    || (SubmittedAt(requests, a) == SubmittedAt(requests, b) && a < b)
  }

  function BySubmission(requests: map<Id, Request>): (Id, Id) -> bool {
    (a: Id, b: Id) => Earlier(requests, a, b)
  }

  predicate Waiting(r: Request) {
    r.status.Pending? || r.status.BlockedByLegalHold?
  }

  /** The waiting requests, each once, in order of submission. */
  ghost predicate Lists(requests: map<Id, Request>, ids: seq<Id>) {
    && NoDuplicates(ids)
    && (forall r :: r in ids <==> r in requests && Waiting(requests[r]))
    && StrictlySorted(BySubmission(requests), ids)
  }

  /** The listing: every request that is pending or blocked, by submission and then by identifier. */
  lemma ListsExactly(requests: map<Id, Request>, ids: seq<Id>, i: nat, j: nat, r: Id)
    requires Lists(requests, ids)
    ensures r in ids <==>
              r in requests && (requests[r].status == Pending || requests[r].status == BlockedByLegalHold)
    ensures i < j < |ids| ==>
              ids[i] in requests && ids[j] in requests && ids[i] != ids[j]
              && (requests[ids[i]].submittedAt < requests[ids[j]].submittedAt
                  || (requests[ids[i]].submittedAt == requests[ids[j]].submittedAt && ids[i] < ids[j]))
  {
    assert forall k :: 0 <= k < |ids| ==> ids[k] in ids;
    assert i < j < |ids| ==> BySubmission(requests)(ids[i], ids[j]);
  }

  /* What each helper does to the whole state. */

  function WithoutTrips(db: Db, ids: set<Id>, withSegments: bool): Db {
    db.(trips := db.trips - ids, evidence := db.evidence - ids, assessments := db.assessments - ids,
        segments := if withSegments then db.segments - ids else db.segments)
  }

  function WithoutIncidents(db: Db, ids: set<Id>): Db {
    db.(incidents := db.incidents - ids, approvals := db.approvals - ids)
  }

  function WithoutRecoveries(db: Db, ids: set<Id>): Db {
    db.(candidateSets := NotUnder(db.candidateSets, ids), outcomes := NotUnder(db.outcomes, ids),
        feedback := NotUnder(db.feedback, ids))
  }

  function WithoutDispatches(db: Db, ids: set<Id>): Db {
    var dispatches := NotUnder(db.dispatches, ids);
    db.(dispatches := dispatches, dispatchAttempts := Within(db.dispatchAttempts, dispatches.Keys))
  }

  function WithoutClosure(db: Db, trips: set<Id>, incidents: set<Id>, withSegments: bool): Db {
    WithoutDispatches(WithoutRecoveries(WithoutIncidents(WithoutTrips(db, trips, withSegments), incidents), incidents),
                      incidents)
  }

  function WithoutNotificationsOf(db: Db, o: Owner): Db {
    var notifications := NotOwned(db.notifications, o);
    db.(notifications := notifications,
        notificationAttempts := Within(db.notificationAttempts, notifications.Keys))
  }

  /** The travelers and the tenants under hold as a whole. */
  ghost predicate HeldBy(db: Db, now: int, travelers: set<Owner>, tenants: set<string>) {
    && (forall o :: o in travelers <==> HeldOwner(db, now, o))
    && (forall tenant :: tenant in tenants <==> HeldTenant(db, now, tenant))
  }

  lemma StillHeld(db: Db, db': Db, now: int, travelers: set<Owner>, tenants: set<string>)
    requires HeldBy(db, now, travelers, tenants) && db'.holds == db.holds
    ensures HeldBy(db', now, travelers, tenants)
  {
    assert forall o :: HeldOwner(db', now, o) == HeldOwner(db, now, o);
    assert forall tenant :: HeldTenant(db', now, tenant) == HeldTenant(db, now, tenant);
  }

  lemma KeptMemory(db: Db, now: int, before: int, travelers: set<Owner>, tenants: set<string>)
    requires HeldBy(db, now, travelers, tenants)
    ensures KeptProfiles(db, now, before)
         == db.profiles - set o | o in db.profiles && db.profiles[o].at < before
                                  && o !in travelers && db.profiles[o].owner.tenant !in tenants
    ensures KeptProposals(db, now, before)
         == db.proposals - set p | p in db.proposals && db.proposals[p].at < before
                                   && db.proposals[p].owner !in travelers
                                   && db.proposals[p].owner.tenant !in tenants
  {
  }

  lemma KeptFiles(db: Db, now: int, before: int, travelers: set<Owner>, tenants: set<string>)
    requires HeldBy(db, now, travelers, tenants)
    ensures KeptUploads(db, now, before)
         == db.uploads - set u | u in db.uploads && db.uploads[u].createdAt < before && db.uploads[u].tenant !in tenants
  {
  }

  lemma KeysInBoth<K, V>(m: map<K, V>, ids: set<K>)
    ensures m.Keys * ids == KeysIn(m, ids)
  {
  }

  lemma Lapsed(db: Db, now: int, c: Cutoffs, travelers: set<Owner>, tenants: set<string>)
    requires HeldBy(db, now, travelers, tenants)
    ensures LapsedProfiles(db, now, c.before)
         == set o | o in db.profiles && db.profiles[o].at < c.before
                    && db.profiles[o].owner !in travelers && db.profiles[o].owner.tenant !in tenants
    ensures LapsedProposals(db, now, c.before)
         == set p | p in db.proposals && db.proposals[p].at < c.before
                    && db.proposals[p].owner !in travelers && db.proposals[p].owner.tenant !in tenants
    ensures LapsedUploads(db, now, c.Upload())
         == set u | u in db.uploads && db.uploads[u].createdAt < c.Upload() && db.uploads[u].tenant !in tenants
  {
  }

  /** What carrying out one request deletes; nothing when it is blocked or fails. */
  function DeletedBy(db: Db, r: Id, now: int, raises: set<Id>): Option<EraseCounts>
    requires r in db.requests
  {
    var request := db.requests[r];
    if Erases(db, r, now, raises) then Some(EraseCountsOf(db, request.owner, request.scope)) else None
  }

  function DeletedByAll(db: Db, ids: seq<Id>, now: int, raises: set<Id>): seq<Option<EraseCounts>>
    requires Known(db, ids)
  {
    if ids == [] then []
    else
      var last := |ids| - 1;
      DeletedByAll(db, ids[..last], now, raises)
        + [DeletedBy(ProcessAll(db, ids[..last], now, raises), ids[last], now, raises)]
  }

  lemma NextProcessed(was: Db, db: Db, ids: seq<Id>, i: nat, now: int, raises: set<Id>)
    requires Known(was, ids) && i < |ids| && db == ProcessAll(was, ids[..i], now, raises)
    ensures ids[i] in db.requests
    ensures ProcessRequest(db, ids[i], now, raises) == ProcessAll(was, ids[..i + 1], now, raises)
    ensures DeletedByAll(was, ids[..i + 1], now, raises)
         == DeletedByAll(was, ids[..i], now, raises) + [DeletedBy(db, ids[i], now, raises)]
  {
    assert ids[..i + 1][..i] == ids[..i];
    assert ids[..i + 1] == ids[..i] + [ids[i]];
    assert forall x | x in ids[..i + 1] :: x in ids;
    ProcessAppend(was, ids[..i], ids[i], now, raises);
  }

  lemma ClosureInSteps(db: Db, trips: set<Id>, incidents: set<Id>, withSegments: bool)
    ensures WithoutClosure(db, trips, incidents, withSegments)
         == DropRows(db, trips, incidents).(
              segments := if withSegments then db.segments - trips else db.segments)
  {
  }

  lemma DropInSteps(db: Db, o: Owner, trips: set<Id>, incidents: set<Id>)
    ensures WithoutNotificationsOf(WithoutClosure(db, trips, incidents, true), o) == DropData(db, o, trips, incidents)
  {
    ClosureInSteps(db, trips, incidents, true);
  }

  /** The tables that hang on no trip, after a purge. */
  ghost predicate Lapse(db: Db, db': Db, now: int, c: Cutoffs) {
    && db'.profiles == KeptProfiles(db, now, c.before) && db'.proposals == KeptProposals(db, now, c.before)
    && db'.notifications == db.notifications - OldNotifications(db, c.before)
    && db'.notificationAttempts == db.notificationAttempts - OldNotifications(db, c.before)
    && db'.uploads == KeptUploads(db, now, c.Upload())
    && db'.events == Filter(NotBefore(c.Audit()), db.events)
    && db'.memoryAudits == Filter(NotBefore(c.Audit()), db.memoryAudits)
  }

  /** Dropping trips first does not change what else has lapsed, and the rest of a purge completes it. */
  lemma PurgeInSteps(was: Db, dropped: Db, end: Db, now: int, c: Cutoffs)
    requires dropped == WithoutClosure(was, ExpiredTrips(was, now, c.before),
                                       IncidentsUnder(was, ExpiredTrips(was, now, c.before)), false)
    requires end == dropped.(profiles := end.profiles, proposals := end.proposals,
                             notifications := end.notifications, notificationAttempts := end.notificationAttempts,
                             uploads := end.uploads, events := end.events, memoryAudits := end.memoryAudits)
    requires Lapse(dropped, end, now, c)
    ensures end == PurgeExpired(was, now, c)
  {
    var trips := ExpiredTrips(was, now, c.before);
    ClosureInSteps(was, trips, IncidentsUnder(was, trips), false);
    SameKept(was, dropped, now, c);
  }

  class InMemoryRepository {
    var trips: map<Id, Trip>
    var segments: map<Id, string>
    var evidence: map<Id, string>
    var assessments: map<Id, string>
    var incidents: map<Id, Incident>
    var approvals: map<Id, string>
    var candidateSets: map<Id, IncidentRow>
    var outcomes: map<Id, IncidentRow>
    var feedback: map<Id, IncidentRow>
    var dispatches: map<Id, IncidentRow>
    var dispatchAttempts: map<Id, string>
    var profiles: map<Owner, OwnedRow>
    var proposals: map<Id, OwnedRow>
    var notifications: map<Id, OwnedRow>
    var notificationAttempts: map<Id, string>
    var uploads: map<Id, Upload>
    var events: seq<Event>
    var memoryAudits: seq<Event>
    var holds: map<Id, Hold>
    var requests: map<Id, Request>
    var idempotency: I.Records

    function View(): Db
      reads this
    {
      Db(trips, segments, evidence, assessments, incidents, approvals, candidateSets, outcomes, feedback,
         dispatches, dispatchAttempts, profiles, proposals, notifications, notificationAttempts,
         uploads, events, memoryAudits, holds, requests)
    }

    method PopProposals(ids: set<Id>)
      modifies this`proposals
      ensures proposals == old(proposals) - ids
    {
      var left := ids;
      while left != {}
        invariant left <= ids && proposals == old(proposals) - (ids - left)
        decreases left
      {
        var p :| p in left;
        proposals := proposals - {p};
        left := left - {p};
      }
    }

    method DeleteTravelerMemory(o: Owner) returns (deletedProfiles: nat, deletedProposals: nat)
      modifies this`profiles, this`proposals
      ensures View() == DeleteMemory(old(View()), o)
      ensures deletedProfiles == (if o in old(profiles) then 1 else 0)
      ensures deletedProposals == |ProposalsOf(old(View()), o)|
    {
      deletedProfiles := if o in profiles then 1 else 0;
      profiles := profiles - {o};
      var ids := ProposalsOf(View(), o);
      deletedProposals := |ids|;
      PopProposals(ids);
      assert proposals == NotOwned(old(proposals), o);
    }

    method PopTrips(ids: set<Id>, withSegments: bool)
      modifies this`trips, this`segments, this`evidence, this`assessments
      ensures trips == old(trips) - ids && evidence == old(evidence) - ids && assessments == old(assessments) - ids
      ensures segments == if withSegments then old(segments) - ids else old(segments)
    {
      var left := ids;
      while left != {}
        invariant left <= ids && trips == old(trips) - (ids - left)
        invariant evidence == old(evidence) - (ids - left) && assessments == old(assessments) - (ids - left)
        invariant segments == if withSegments then old(segments) - (ids - left) else old(segments)
        decreases left
      {
        var t :| t in left;
        trips, evidence, assessments := trips - {t}, evidence - {t}, assessments - {t};
        if withSegments {
          segments := segments - {t};
        }
        left := left - {t};
      }
    }

    method PopIncidents(ids: set<Id>)
      modifies this`incidents, this`approvals
      ensures incidents == old(incidents) - ids && approvals == old(approvals) - ids
    {
      var left := ids;
      while left != {}
        invariant left <= ids
        invariant incidents == old(incidents) - (ids - left) && approvals == old(approvals) - (ids - left)
        decreases left
      {
        var i :| i in left;
        incidents, approvals := incidents - {i}, approvals - {i};
        left := left - {i};
      }
    }

    method DropTrips(ids: set<Id>, withSegments: bool)
      modifies this`trips, this`segments, this`evidence, this`assessments
      ensures View() == WithoutTrips(old(View()), ids, withSegments)
    {
      PopTrips(ids, withSegments);
    }

    method DropIncidents(ids: set<Id>)
      modifies this`incidents, this`approvals
      ensures View() == WithoutIncidents(old(View()), ids)
    {
      PopIncidents(ids);
    }

    method Others(rows: map<Id, IncidentRow>, ids: set<Id>) returns (kept: map<Id, IncidentRow>)
      ensures kept == NotUnder(rows, ids)
    {
      kept := map k | k in rows && rows[k].incidentId !in ids :: rows[k];
    }

    method DropRecoveries(ids: set<Id>)
      modifies this`candidateSets, this`outcomes, this`feedback
      ensures View() == WithoutRecoveries(old(View()), ids)
    {
      var keptSets := Others(candidateSets, ids);
      var keptOutcomes := Others(outcomes, ids);
      var keptFeedback := Others(feedback, ids);
      candidateSets, outcomes, feedback := keptSets, keptOutcomes, keptFeedback;
    }

    method DropDispatches(ids: set<Id>)
      modifies this`dispatches, this`dispatchAttempts
      ensures View() == WithoutDispatches(old(View()), ids)
    {
      dispatches := Others(dispatches, ids);
      dispatchAttempts := map k | k in dispatchAttempts && k in dispatches :: dispatchAttempts[k];
    }

    /** Trips and incidents go with all that hangs on them. */
    method DropClosure(tripIds: set<Id>, incidentIds: set<Id>, withSegments: bool)
      modifies this`trips, this`segments, this`evidence, this`assessments, this`incidents, this`approvals
      modifies this`candidateSets, this`outcomes, this`feedback, this`dispatches, this`dispatchAttempts
      ensures View() == WithoutClosure(old(View()), tripIds, incidentIds, withSegments)
    {
      DropTrips(tripIds, withSegments);
      DropIncidents(incidentIds);
      DropRecoveries(incidentIds);
      DropDispatches(incidentIds);
    }

    method DropNotificationsOf(o: Owner)
      modifies this`notifications, this`notificationAttempts
      ensures View() == WithoutNotificationsOf(old(View()), o)
    {
      notifications := map k | k in notifications && notifications[k].owner != o :: notifications[k];
      notificationAttempts := map k | k in notificationAttempts && k in notifications :: notificationAttempts[k];
    }

    /** Erase an owner's memory or all of the owner's data, and report how much there was. */
    method EraseTravelerData(o: Owner, scope: RequestScope) returns (counts: EraseCounts)
      modifies this`trips, this`segments, this`evidence, this`assessments, this`incidents, this`approvals
      modifies this`candidateSets, this`outcomes, this`feedback, this`dispatches, this`dispatchAttempts
      modifies this`profiles, this`proposals, this`notifications, this`notificationAttempts
      ensures View() == Erase(old(View()), o, scope)
      ensures counts == EraseCountsOf(old(View()), o, scope)
    {
      var was := View();
      var deletedProfiles, deletedProposals := DeleteTravelerMemory(o);
      counts := EraseCounts(deletedProfiles, deletedProposals, None);
      if scope == PreferenceMemory {
        return;
      }
      var forgotten := View();
      ForgetKeepsSets(was, o, o);
      var tripIds, incidentIds := TripsOf(forgotten, o), IncidentsOf(forgotten, o);
      counts := counts.(data := Some(DataCounts(
        |tripIds|, |KeysIn(forgotten.evidence, tripIds)|, |KeysIn(forgotten.assessments, tripIds)|, |incidentIds|)));
      DropClosure(tripIds, incidentIds, true);
      DropNotificationsOf(o);
      DropInSteps(forgotten, o, tripIds, incidentIds);
    }

    /** The travelers and the tenants that an active hold covers as a whole. */
    method Held(now: int) returns (travelers: set<Owner>, tenants: set<string>)
      ensures HeldBy(View(), now, travelers, tenants)
    {
      travelers := set k | k in holds && IsActive(holds[k], now) && holds[k].scope.TravelerHold?
                   :: Owner(holds[k].tenant, holds[k].scope.traveler);
      tenants := set k | k in holds && IsActive(holds[k], now) && holds[k].scope.TenantHold? :: holds[k].tenant;
    }

    method DropLapsedMemory(now: int, before: int, travelers: set<Owner>, tenants: set<string>)
      requires HeldBy(View(), now, travelers, tenants)
      modifies this`profiles, this`proposals
      ensures profiles == KeptProfiles(old(View()), now, before)
      ensures proposals == KeptProposals(old(View()), now, before)
    {
      ghost var was := View();
      KeptMemory(was, now, before, travelers, tenants);
      profiles := profiles - set o | o in profiles && profiles[o].at < before
                                     && o !in travelers && profiles[o].owner.tenant !in tenants;
      proposals := proposals - set p | p in proposals && proposals[p].at < before
                                       && proposals[p].owner !in travelers
                                       && proposals[p].owner.tenant !in tenants;
    }

    method DropOldNotifications(before: int)
      modifies this`notifications, this`notificationAttempts
      ensures notifications == old(notifications) - OldNotifications(old(View()), before)
      ensures notificationAttempts == old(notificationAttempts) - OldNotifications(old(View()), before)
    {
      var aged := OldNotifications(View(), before);
      notifications := notifications - aged;
      notificationAttempts := notificationAttempts - aged;
    }

    method DropOldRecords(now: int, c: Cutoffs, travelers: set<Owner>, tenants: set<string>)
      requires HeldBy(View(), now, travelers, tenants)
      modifies this`uploads, this`events, this`memoryAudits
      ensures uploads == KeptUploads(old(View()), now, c.Upload())
      ensures events == Filter(NotBefore(c.Audit()), old(events))
      ensures memoryAudits == Filter(NotBefore(c.Audit()), old(memoryAudits))
    {
      ghost var was := View();
      KeptFiles(was, now, c.Upload(), travelers, tenants);
      uploads := uploads - set u | u in uploads && uploads[u].createdAt < c.Upload() && uploads[u].tenant !in tenants;
      assert uploads == KeptUploads(was, now, c.Upload());
      events := Filter(NotBefore(c.Audit()), events);
      memoryAudits := Filter(NotBefore(c.Audit()), memoryAudits);
    }

    method DropLapsed(now: int, c: Cutoffs, travelers: set<Owner>, tenants: set<string>)
      requires HeldBy(View(), now, travelers, tenants)
      modifies this`profiles, this`proposals, this`notifications, this`notificationAttempts
      modifies this`uploads, this`events, this`memoryAudits
      ensures Lapse(old(View()), View(), now, c)
    {
      ghost var was := View();
      DropLapsedMemory(now, c.before, travelers, tenants);
      DropOldNotifications(c.before);
      StillHeld(was, View(), now, travelers, tenants);
      SameUploads(was, View(), now, c);
      DropOldRecords(now, c, travelers, tenants);
    }

    /** Counted before anything is removed. */
    method CountExpired(now: int, c: Cutoffs, tripIds: set<Id>, incidentIds: set<Id>,
                        travelers: set<Owner>, tenants: set<string>)
      returns (counts: PurgeCounts)
      requires HeldBy(View(), now, travelers, tenants)
      requires tripIds == ExpiredTrips(View(), now, c.before) && incidentIds == IncidentsUnder(View(), tripIds)
      ensures counts == PurgeCountsOf(View(), now, c)
    {
      Lapsed(View(), now, c, travelers, tenants);
      var lapsedProfiles := set o | o in profiles && profiles[o].at < c.before
                                    && profiles[o].owner !in travelers && profiles[o].owner.tenant !in tenants;
      var lapsedProposals := set p | p in proposals && proposals[p].at < c.before
                                     && proposals[p].owner !in travelers && proposals[p].owner.tenant !in tenants;
      var aged := set n | n in notifications && notifications[n].at < c.before;
      var lapsedUploads := set u | u in uploads && uploads[u].createdAt < c.Upload() && uploads[u].tenant !in tenants;
      assert aged == OldNotifications(View(), c.before);
      KeysInBoth(evidence, tripIds);
      KeysInBoth(assessments, tripIds);
      counts := PurgeCounts(
        |tripIds|, |evidence.Keys * tripIds|, |assessments.Keys * tripIds|, |incidentIds|,
        |lapsedProfiles|, |lapsedProposals|, |aged|, |lapsedUploads|,
        |Filter(Older(c.Audit()), events)|, |Filter(Older(c.Audit()), memoryAudits)|);
    }

    method PurgeTables(now: int, c: Cutoffs, tripIds: set<Id>, incidentIds: set<Id>,
                       travelers: set<Owner>, tenants: set<string>)
      requires HeldBy(View(), now, travelers, tenants)
      requires tripIds == ExpiredTrips(View(), now, c.before) && incidentIds == IncidentsUnder(View(), tripIds)
      modifies this`trips, this`segments, this`evidence, this`assessments, this`incidents, this`approvals
      modifies this`candidateSets, this`outcomes, this`feedback, this`dispatches, this`dispatchAttempts
      modifies this`profiles, this`proposals, this`notifications, this`notificationAttempts
      modifies this`uploads, this`events, this`memoryAudits
      ensures View() == PurgeExpired(old(View()), now, c)
    {
      ghost var was := View();
      DropClosure(tripIds, incidentIds, false);
      ghost var dropped := View();
      StillHeld(was, dropped, now, travelers, tenants);
      DropLapsed(now, c, travelers, tenants);
      PurgeInSteps(was, dropped, View(), now, c);
    }

    /** The retention purge, and how much it removes. */
    method PurgeExpiredRecords(now: int, c: Cutoffs) returns (counts: PurgeCounts)
      modifies this`trips, this`segments, this`evidence, this`assessments, this`incidents, this`approvals
      modifies this`candidateSets, this`outcomes, this`feedback, this`dispatches, this`dispatchAttempts
      modifies this`profiles, this`proposals, this`notifications, this`notificationAttempts
      modifies this`uploads, this`events, this`memoryAudits, this`idempotency
      ensures View() == PurgeExpired(old(View()), now, c)
      ensures idempotency == I.PurgeRecords(old(idempotency), c.before)
      ensures counts == PurgeCountsOf(old(View()), now, c)
    {
      var was := View();
      var tripIds := ExpiredTrips(was, now, c.before);
      var incidentIds := IncidentsUnder(was, tripIds);
      var travelers, tenants := Held(now);
      counts := CountExpired(now, c, tripIds, incidentIds, travelers, tenants);
      PurgeTables(now, c, tripIds, incidentIds, travelers, tenants);
      idempotency := map key | key in idempotency && idempotency[key].expiresAt >= c.before :: idempotency[key];
    }

    /** The waiting requests by submission. */
    method ListPendingDeletionRequests() returns (ids: seq<Id>)
      ensures Lists(requests, ids)
    {
      var left := set r | r in requests && Waiting(requests[r]);
      ghost var all := left;
      var found: seq<Id> := [];
      while left != {}
        invariant left <= all && NoDuplicates(found)
        invariant forall r :: r in found <==> r in all && r !in left
        decreases left
      {
        var r :| r in left;
        found := found + [r];
        left := left - {r};
      }
      ids := Sort(BySubmission(requests), found);
      SortedListing(requests, found);
    }

    /** Take the waiting requests in order; each is blocked, fails or is carried out. */
    method ProcessDueDeletionRequests(now: int, raises: set<Id>)
      returns (processed: seq<Id>, deleted: seq<Option<EraseCounts>>)
      modifies this`trips, this`segments, this`evidence, this`assessments, this`incidents, this`approvals
      modifies this`candidateSets, this`outcomes, this`feedback, this`dispatches, this`dispatchAttempts
      modifies this`profiles, this`proposals, this`notifications, this`notificationAttempts
      modifies this`requests
      ensures Lists(old(requests), processed)
      ensures View() == ProcessAll(old(View()), processed, now, raises)
      ensures deleted == DeletedByAll(old(View()), processed, now, raises)
    {
      processed := ListPendingDeletionRequests();
      deleted := [];
      ghost var was := View();
      assert Known(was, processed);
      var i := 0;
      while i < |processed|
        invariant 0 <= i <= |processed|
        invariant Known(was, processed[..i]) && View() == ProcessAll(was, processed[..i], now, raises)
        invariant deleted == DeletedByAll(was, processed[..i], now, raises)
      {
        NextProcessed(was, View(), processed, i, now, raises);
        var counts := ProcessOne(processed[i], now, raises);
        deleted := deleted + [counts];
        i := i + 1;
      }
      assert processed[..i] == processed;
    }

    method ProcessOne(r: Id, now: int, raises: set<Id>) returns (deleted: Option<EraseCounts>)
      requires r in requests
      modifies this`trips, this`segments, this`evidence, this`assessments, this`incidents, this`approvals
      modifies this`candidateSets, this`outcomes, this`feedback, this`dispatches, this`dispatchAttempts
      modifies this`profiles, this`proposals, this`notifications, this`notificationAttempts
      modifies this`requests
      ensures View() == ProcessRequest(old(View()), r, now, raises)
      ensures deleted == DeletedBy(old(View()), r, now, raises)
    {
      var was := View();
      var request := requests[r];
      var blocking := ActiveHolds(View(), request.owner, now);
      if blocking != {} {
        request := request.(status := BlockedByLegalHold, blockedBy := blocking, failed := false);
        requests := requests[r := request];
        return None;
      }
      if r in raises {
        requests := requests[r := request.(status := RequestFailed, failed := true)];
        return None;
      }
      var counts := EraseTravelerData(request.owner, request.scope);
      EraseKeepsControl(was, request.owner, request.scope);
      request := request.(status := Completed, completedAt := Some(now), blockedBy := {}, failed := false);
      requests := requests[r := request];
      deleted := Some(counts);
    }
  }

  /** What the kept tables are worked out from. */
  ghost predicate HoldsSeen(db: Db, db': Db) {
    && db'.holds == db.holds && db'.profiles == db.profiles && db'.proposals == db.proposals
    && db'.notifications == db.notifications && db'.notificationAttempts == db.notificationAttempts
    && db'.uploads == db.uploads && db'.events == db.events && db'.memoryAudits == db.memoryAudits
  }

  lemma SameKept(db: Db, db': Db, now: int, c: Cutoffs)
    requires HoldsSeen(db, db')
    ensures KeptProfiles(db', now, c.before) == KeptProfiles(db, now, c.before)
    ensures KeptProposals(db', now, c.before) == KeptProposals(db, now, c.before)
    ensures KeptUploads(db', now, c.Upload()) == KeptUploads(db, now, c.Upload())
    ensures OldNotifications(db', c.before) == OldNotifications(db, c.before)
  {
    assert forall o :: HeldOwner(db', now, o) == HeldOwner(db, now, o);
    assert forall s :: HeldTenant(db', now, s) == HeldTenant(db, now, s);
  }

  lemma SameUploads(db: Db, db': Db, now: int, c: Cutoffs)
    requires db'.uploads == db.uploads && db'.holds == db.holds
    ensures KeptUploads(db', now, c.Upload()) == KeptUploads(db, now, c.Upload())
  {
    assert forall s :: HeldTenant(db', now, s) == HeldTenant(db, now, s);
  }

  lemma SortedListing(requests: map<Id, Request>, found: seq<Id>)
    requires NoDuplicates(found)
    requires forall r :: r in found <==> r in requests && Waiting(requests[r])
    ensures Lists(requests, Sort(BySubmission(requests), found))
  {
    var less := BySubmission(requests);
    var ids := Sort(less, found);
    forall a | a in multiset(found)
      ensures multiset(found)[a] == 1
    {
      NoDuplicatesBag(found, a);
    }
    SubmissionOrders(requests);
    SortCanonical(less, found, found);
    ListingSorted(less, found);
  }

  lemma SubmissionOrders(requests: map<Id, Request>)
    ensures WeakOrder(BySubmission(requests))
    ensures forall a, b | a != b :: BySubmission(requests)(a, b) || BySubmission(requests)(b, a)
  {
  }

  lemma ListingSorted(less: (Id, Id) -> bool, found: seq<Id>)
    requires StrictlySorted(less, Sort(less, found)) && WeakOrder(less)
    ensures NoDuplicates(Sort(less, found))
    ensures forall r :: r in Sort(less, found) <==> r in found
  {
    SortBag(less, found);
    var ids := Sort(less, found);
    assert forall r :: r in ids <==> r in multiset(ids);
    assert forall r :: r in found <==> r in multiset(found);
    assert forall i, j :: 0 <= i < j < |ids| ==> less(ids[i], ids[j]);
  }
}
