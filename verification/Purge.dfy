/** Retention purges under legal hold (apps/api/repository.py). */
module Purge {
  import opened Options
  import opened Seqs
  import opened Retention

  predicate IsActive(h: Hold, now: int) {
    !h.released && (h.expiresAt.Some? ==> h.expiresAt.value > now)
  }

  predicate Covers(h: Hold, tripId: Id, trip: Trip) {
    && h.tenant == trip.owner.tenant
    && match h.scope
       case TenantHold => true
       case TravelerHold(traveler) => traveler == trip.owner.traveler
       case TripHold(id) => id == tripId
  }

  predicate HeldTrip(db: Db, now: int, t: Id)
    requires t in db.trips
  {
    exists k :: k in db.holds && IsActive(db.holds[k], now) && Covers(db.holds[k], t, db.trips[t])
  }

  predicate HeldOwner(db: Db, now: int, o: Owner) {
    exists k :: k in db.holds && IsActive(db.holds[k], now)
                && db.holds[k].tenant == o.tenant && db.holds[k].scope == TravelerHold(o.traveler)
  }

  predicate HeldTenant(db: Db, now: int, tenant: string) {
    exists k :: k in db.holds && IsActive(db.holds[k], now)
                && db.holds[k].tenant == tenant && db.holds[k].scope == TenantHold
  }

  function ExpiredTrips(db: Db, now: int, before: int): set<Id> {
    set t | t in db.trips && db.trips[t].createdAt < before && !HeldTrip(db, now, t)
  }

  function IncidentsUnder(db: Db, trips: set<Id>): set<Id> {
    set i | i in db.incidents && db.incidents[i].tripId in trips
  }

  predicate KeepsProfile(db: Db, now: int, before: int, o: Owner)
    requires o in db.profiles
  {
    db.profiles[o].at >= before || HeldOwner(db, now, o) || HeldTenant(db, now, db.profiles[o].owner.tenant)
  }

  predicate KeepsProposal(db: Db, now: int, before: int, p: Id)
    requires p in db.proposals
  {
    var row := db.proposals[p];
    row.at >= before || HeldOwner(db, now, row.owner) || HeldTenant(db, now, row.owner.tenant)
  }

  predicate KeepsUpload(db: Db, now: int, before: int, u: Id)
    requires u in db.uploads
  {
    db.uploads[u].createdAt >= before || HeldTenant(db, now, db.uploads[u].tenant)
  }

  function OldNotifications(db: Db, before: int): set<Id> {
    set n | n in db.notifications && db.notifications[n].at < before
  }

  function NotBefore(cutoff: int): Event -> bool {
    (e: Event) => e.at >= cutoff
  }

  function KeptProfiles(db: Db, now: int, before: int): map<Owner, OwnedRow> {
    map o | o in db.profiles && KeepsProfile(db, now, before, o) :: db.profiles[o]
  }

  function KeptProposals(db: Db, now: int, before: int): map<Id, OwnedRow> {
    map p | p in db.proposals && KeepsProposal(db, now, before, p) :: db.proposals[p]
  }

  function KeptUploads(db: Db, now: int, before: int): map<Id, Upload> {
    map u | u in db.uploads && KeepsUpload(db, now, before, u) :: db.uploads[u]
  }

  /** The cutoffs of one purge; uploads and audit records have their own. */
  datatype Cutoffs = Cutoffs(before: int, upload: Option<int>, audit: Option<int>) {
    function Upload(): int {
      upload.GetOr(before)
    }

    function Audit(): int {
      audit.GetOr(before)
    }
  }

  function PurgeExpired(db: Db, now: int, c: Cutoffs): Db {
    var trips := ExpiredTrips(db, now, c.before);
    var aged := OldNotifications(db, c.before);
    DropRows(db, trips, IncidentsUnder(db, trips)).(
      profiles := KeptProfiles(db, now, c.before), proposals := KeptProposals(db, now, c.before),
      notifications := db.notifications - aged, notificationAttempts := db.notificationAttempts - aged,
      uploads := KeptUploads(db, now, c.Upload()),
      events := Filter(NotBefore(c.Audit()), db.events),
      memoryAudits := Filter(NotBefore(c.Audit()), db.memoryAudits))
  }

  /* Which rows a purge leaves. */

  /** A hold in force: not released, not run out, of the tenant, and of one of the scopes. */
  ghost predicate Shelters(h: Hold, now: int, tenant: string, scopes: set<HoldScope>) {
    && !h.released
    && (match h.expiresAt case None => true case Some(end) => now < end)
    && h.tenant == tenant && h.scope in scopes
  }

  ghost predicate Sheltered(db: Db, now: int, tenant: string, scopes: set<HoldScope>) {
    exists k :: k in db.holds && Shelters(db.holds[k], now, tenant, scopes)
  }

  /** A trip stays if it is young enough, or under a hold of its tenant, of its traveler or of itself. */
  lemma TripStays(db: Db, now: int, c: Cutoffs, t: Id)
    ensures var trips := PurgeExpired(db, now, c).trips;
            && (t in trips <==>
                  t in db.trips
                  && (db.trips[t].createdAt >= c.before
                      || Sheltered(db, now, db.trips[t].owner.tenant,
                                   {TenantHold, TravelerHold(db.trips[t].owner.traveler), TripHold(t)})))
            && (t in trips ==> trips[t] == db.trips[t])
  {
    assert t in db.trips ==>
      (HeldTrip(db, now, t) <==>
       Sheltered(db, now, db.trips[t].owner.tenant,
                 {TenantHold, TravelerHold(db.trips[t].owner.traveler), TripHold(t)}));
  }

  lemma HeldExactly(db: Db, now: int, o: Owner)
    ensures HeldOwner(db, now, o) <==> Sheltered(db, now, o.tenant, {TravelerHold(o.traveler)})
    ensures HeldTenant(db, now, o.tenant) <==> Sheltered(db, now, o.tenant, {TenantHold})
  {
  }

  /** A profile stays if it is young enough, or its key's traveler or its owner's tenant is under hold; a proposal if it
    * is young enough or its owner is. */
  lemma MemoryStays(db: Db, now: int, c: Cutoffs, o: Owner, p: Id)
    ensures var profiles := PurgeExpired(db, now, c).profiles;
            && (o in profiles <==>
                  o in db.profiles
                  && (db.profiles[o].at >= c.before || Sheltered(db, now, o.tenant, {TravelerHold(o.traveler)})
                      || Sheltered(db, now, db.profiles[o].owner.tenant, {TenantHold})))
            && (o in profiles ==> profiles[o] == db.profiles[o])
    ensures var proposals := PurgeExpired(db, now, c).proposals;
            && (p in proposals <==>
                  p in db.proposals
                  && (var owner := db.proposals[p].owner;
                      db.proposals[p].at >= c.before || Sheltered(db, now, owner.tenant, {TravelerHold(owner.traveler)})
                      || Sheltered(db, now, owner.tenant, {TenantHold})))
            && (p in proposals ==> proposals[p] == db.proposals[p])
  {
    HeldExactly(db, now, o);
    if o in db.profiles {
      HeldExactly(db, now, db.profiles[o].owner);
    }
    if p in db.proposals {
      HeldExactly(db, now, db.proposals[p].owner);
    }
  }

  /** An upload stays by its own cutoff, or under a hold of its tenant; a notification by age alone, and its attempts
    * with it. */
  lemma FilesStay(db: Db, now: int, c: Cutoffs, u: Id, n: Id)
    ensures var uploads := PurgeExpired(db, now, c).uploads;
            && (u in uploads <==>
                  u in db.uploads
                  && (db.uploads[u].createdAt >= (if c.upload.Some? then c.upload.value else c.before)
                      || Sheltered(db, now, db.uploads[u].tenant, {TenantHold})))
            && (u in uploads ==> uploads[u] == db.uploads[u])
    ensures var db' := PurgeExpired(db, now, c);
            && (n in db'.notifications <==> n in db.notifications && db.notifications[n].at >= c.before)
            && (n in db'.notifications ==> db'.notifications[n] == db.notifications[n])
            && (n in db'.notificationAttempts <==>
                  n in db.notificationAttempts && (n in db.notifications ==> n in db'.notifications))
            && (n in db'.notificationAttempts ==> db'.notificationAttempts[n] == db.notificationAttempts[n])
  {
    if u in db.uploads {
      HeldExactly(db, now, Owner(db.uploads[u].tenant, ""));
    }
  }

  /** Of either history everything since its cutoff stays, as often as it was there and in the order it was in.
    * Segments, holds and requests stay as they are. */
  lemma HistoryStays(db: Db, now: int, c: Cutoffs, e: Event)
    ensures var db', cutoff := PurgeExpired(db, now, c), if c.audit.Some? then c.audit.value else c.before;
            && Subsequence(db'.events, db.events) && Subsequence(db'.memoryAudits, db.memoryAudits)
            && multiset(db'.events)[e] == (if e.at >= cutoff then multiset(db.events)[e] else 0)
            && multiset(db'.memoryAudits)[e] == (if e.at >= cutoff then multiset(db.memoryAudits)[e] else 0)
            && db'.segments == db.segments && db'.holds == db.holds && db'.requests == db.requests
  {
    FilterIsSubsequence(NotBefore(c.Audit()), db.events);
    FilterIsSubsequence(NotBefore(c.Audit()), db.memoryAudits);
    FilterBag(NotBefore(c.Audit()), db.events, e);
    FilterBag(NotBefore(c.Audit()), db.memoryAudits, e);
  }

  /** What hangs on a trip or an incident stays exactly if that, if it was there, does. */
  lemma DependentsStay(db: Db, now: int, c: Cutoffs, k: Id)
    ensures var db' := PurgeExpired(db, now, c);
            && (k in db'.evidence <==> k in db.evidence && (k in db.trips ==> k in db'.trips))
            && (k in db'.evidence ==> db'.evidence[k] == db.evidence[k])
            && (k in db'.assessments <==> k in db.assessments && (k in db.trips ==> k in db'.trips))
            && (k in db'.assessments ==> db'.assessments[k] == db.assessments[k])
            && (k in db'.incidents <==>
                  k in db.incidents
                  && (db.incidents[k].tripId in db.trips ==> db.incidents[k].tripId in db'.trips))
            && (k in db'.incidents ==> db'.incidents[k] == db.incidents[k])
            && FollowsIncidents(db, db', k)
  {
    var trips := ExpiredTrips(db, now, c.before);
    DropFollows(db, trips, IncidentsUnder(db, trips), k);
  }

  /* References. */

  ghost predicate RowsLinked(rows: map<Id, IncidentRow>, incidents: map<Id, Incident>) {
    forall k | k in rows :: rows[k].incidentId in incidents
  }

  /** Every dependent row refers to a row that is there. */
  ghost predicate Linked(db: Db) {
    && db.evidence.Keys <= db.trips.Keys && db.assessments.Keys <= db.trips.Keys
    && (forall i | i in db.incidents ::
          db.incidents[i].tripId in db.trips && db.incidents[i].tenant == db.trips[db.incidents[i].tripId].owner.tenant)
    && db.approvals.Keys <= db.incidents.Keys
    && RowsLinked(db.candidateSets, db.incidents) && RowsLinked(db.outcomes, db.incidents)
    && RowsLinked(db.feedback, db.incidents) && RowsLinked(db.dispatches, db.incidents)
    && db.dispatchAttempts.Keys <= db.dispatches.Keys
    && db.notificationAttempts.Keys <= db.notifications.Keys
  }

  lemma NotUnderLinked(rows: map<Id, IncidentRow>, incidents: map<Id, Incident>, gone: set<Id>)
    requires RowsLinked(rows, incidents)
    ensures RowsLinked(NotUnder(rows, gone), incidents - gone)
  {
  }

  /** A purge leaves no dangling reference. */
  lemma PurgeKeepsLinks(db: Db, now: int, c: Cutoffs)
    requires Linked(db)
    ensures Linked(PurgeExpired(db, now, c))
  {
    var gone := IncidentsUnder(db, ExpiredTrips(db, now, c.before));
    NotUnderLinked(db.candidateSets, db.incidents, gone);
    NotUnderLinked(db.outcomes, db.incidents, gone);
    NotUnderLinked(db.feedback, db.incidents, gone);
    NotUnderLinked(db.dispatches, db.incidents, gone);
  }

  /** Nor does an erasure. */
  lemma EraseKeepsLinks(db: Db, o: Owner, scope: RequestScope)
    requires Linked(db)
    ensures Linked(Erase(db, o, scope))
  {
    var forgotten := DeleteMemory(db, o);
    assert Linked(forgotten);
    if scope == TravelerData {
      var gone := IncidentsOf(forgotten, o);
      assert forall i | i in forgotten.incidents && forgotten.incidents[i].tripId in TripsOf(forgotten, o) :: i in gone;
      DropLinked(forgotten, o, TripsOf(forgotten, o), gone);
    }
  }

  lemma DropLinked(db: Db, o: Owner, trips: set<Id>, gone: set<Id>)
    requires Linked(db)
    requires forall i | i in db.incidents && db.incidents[i].tripId in trips :: i in gone
    ensures Linked(DropData(db, o, trips, gone))
  {
    NotUnderLinked(db.candidateSets, db.incidents, gone);
    NotUnderLinked(db.outcomes, db.incidents, gone);
    NotUnderLinked(db.feedback, db.incidents, gone);
    NotUnderLinked(db.dispatches, db.incidents, gone);
  }

  /** Trip segments are the exception: a purge leaves them referring to existing trips exactly when no trip it
    * removes has any. */
  lemma SegmentsMayDangle(db: Db, now: int, c: Cutoffs)
    requires db.segments.Keys <= db.trips.Keys
    ensures PurgeExpired(db, now, c).segments.Keys <= PurgeExpired(db, now, c).trips.Keys
       <==> db.segments.Keys !! ExpiredTrips(db, now, c.before)
  {
    var db' := PurgeExpired(db, now, c);
    assert db'.trips.Keys == db.trips.Keys - ExpiredTrips(db, now, c.before);
  }

  /* Composition. */

  lemma HoldsOnlyLapse(db: Db, now: int, now': int)
    requires now <= now'
    ensures forall t | t in db.trips && HeldTrip(db, now', t) :: HeldTrip(db, now, t)
    ensures forall o | HeldOwner(db, now', o) :: HeldOwner(db, now, o)
    ensures forall s | HeldTenant(db, now', s) :: HeldTenant(db, now, s)
  {
  }

  lemma ExpiredCompose(db: Db, now: int, c: Cutoffs, now': int, c': Cutoffs)
    requires now <= now' && c.before <= c'.before
    ensures var gone, all := ExpiredTrips(db, now, c.before), ExpiredTrips(db, now', c'.before);
            var db' := PurgeExpired(db, now, c);
            && gone <= all && IncidentsUnder(db, gone) <= IncidentsUnder(db, all)
            && ExpiredTrips(db', now', c'.before) == all - gone
            && IncidentsUnder(db', all - gone) == IncidentsUnder(db, all) - IncidentsUnder(db, gone)
  {
    HoldsOnlyLapse(db, now, now');
    var db' := PurgeExpired(db, now, c);
    ExpiredAfter(db, db', now, c.before, now', c'.before);
    assert db'.incidents == db.incidents - IncidentsUnder(db, ExpiredTrips(db, now, c.before));
  }

  lemma ExpiredAfter(db: Db, db': Db, now: int, before: int, now': int, before': int)
    requires db'.trips == db.trips - ExpiredTrips(db, now, before) && db'.holds == db.holds
    ensures ExpiredTrips(db', now', before') == ExpiredTrips(db, now', before') - ExpiredTrips(db, now, before)
  {
    assert forall t | t in db'.trips :: HeldTrip(db', now', t) == HeldTrip(db, now', t);
  }

  lemma NotUnderMore(rows: map<Id, IncidentRow>, some: set<Id>, all: set<Id>)
    requires some <= all
    ensures NotUnder(NotUnder(rows, some), all - some) == NotUnder(rows, all)
  {
  }

  lemma MinusMore<K, V>(m: map<K, V>, some: set<K>, all: set<K>)
    requires some <= all
    ensures m - some - (all - some) == m - all
  {
  }

  lemma DropMore(db: Db, trips: set<Id>, incidents: set<Id>, trips': set<Id>, incidents': set<Id>)
    requires trips <= trips' && incidents <= incidents'
    ensures DropRows(DropRows(db, trips, incidents), trips' - trips, incidents' - incidents)
         == DropRows(db, trips', incidents')
  {
    MinusMore(db.trips, trips, trips');
    MinusMore(db.evidence, trips, trips');
    MinusMore(db.assessments, trips, trips');
    MinusMore(db.incidents, incidents, incidents');
    MinusMore(db.approvals, incidents, incidents');
    NotUnderMore(db.candidateSets, incidents, incidents');
    NotUnderMore(db.outcomes, incidents, incidents');
    NotUnderMore(db.feedback, incidents, incidents');
    NotUnderMore(db.dispatches, incidents, incidents');
    WithinWithin(db.dispatchAttempts,
                 NotUnder(db.dispatches, incidents).Keys, NotUnder(db.dispatches, incidents').Keys);
  }

  lemma ProfilesCompose(db: Db, db': Db, now: int, before: int, now': int, before': int)
    requires now <= now' && before <= before'
    requires db'.holds == db.holds && db'.profiles == KeptProfiles(db, now, before)
    ensures KeptProfiles(db', now', before') == KeptProfiles(db, now', before')
  {
    HoldsOnlyLapse(db, now, now');
    assert forall o :: HeldOwner(db', now', o) == HeldOwner(db, now', o);
    assert forall s :: HeldTenant(db', now', s) == HeldTenant(db, now', s);
  }

  lemma ProposalsCompose(db: Db, db': Db, now: int, before: int, now': int, before': int)
    requires now <= now' && before <= before'
    requires db'.holds == db.holds && db'.proposals == KeptProposals(db, now, before)
    ensures KeptProposals(db', now', before') == KeptProposals(db, now', before')
  {
    HoldsOnlyLapse(db, now, now');
    assert forall o :: HeldOwner(db', now', o) == HeldOwner(db, now', o);
    assert forall s :: HeldTenant(db', now', s) == HeldTenant(db, now', s);
  }

  lemma UploadsCompose(db: Db, db': Db, now: int, before: int, now': int, before': int)
    requires now <= now' && before <= before'
    requires db'.holds == db.holds && db'.uploads == KeptUploads(db, now, before)
    ensures KeptUploads(db', now', before') == KeptUploads(db, now', before')
  {
    HoldsOnlyLapse(db, now, now');
    assert forall s :: HeldTenant(db', now', s) == HeldTenant(db, now', s);
  }

  lemma OldCompose(db: Db, now: int, c: Cutoffs, now': int, c': Cutoffs)
    requires c.before <= c'.before && c.Audit() <= c'.Audit()
    ensures var db' := PurgeExpired(db, now, c);
            var aged, aged' := OldNotifications(db', c'.before), OldNotifications(db, c'.before);
            && db'.notifications - aged == db.notifications - aged'
            && db'.notificationAttempts - aged == db.notificationAttempts - aged'
            && Filter(NotBefore(c'.Audit()), db'.events) == Filter(NotBefore(c'.Audit()), db.events)
            && Filter(NotBefore(c'.Audit()), db'.memoryAudits) == Filter(NotBefore(c'.Audit()), db.memoryAudits)
  {
    FilterTwice(NotBefore(c'.Audit()), NotBefore(c.Audit()), db.events);
    FilterTwice(NotBefore(c'.Audit()), NotBefore(c.Audit()), db.memoryAudits);
    AgedCompose(db, c.before, c'.before);
  }

  lemma AgedCompose(db: Db, before: int, before': int)
    requires before <= before'
    ensures var db' := db.(notifications := db.notifications - OldNotifications(db, before));
            OldNotifications(db, before) + OldNotifications(db', before') == OldNotifications(db, before')
  {
  }

  /** An earlier purge is absorbed by a later one with later cutoffs; purging twice is purging once. */
  lemma PurgesCompose(db: Db, now: int, c: Cutoffs, now': int, c': Cutoffs)
    requires now <= now' && c.before <= c'.before && c.Upload() <= c'.Upload() && c.Audit() <= c'.Audit()
    ensures PurgeExpired(PurgeExpired(db, now, c), now', c') == PurgeExpired(db, now', c')
  {
    var gone, all := ExpiredTrips(db, now, c.before), ExpiredTrips(db, now', c'.before);
    ExpiredCompose(db, now, c, now', c');
    var db' := PurgeExpired(db, now, c);
    ProfilesCompose(db, db', now, c.before, now', c'.before);
    ProposalsCompose(db, db', now, c.before, now', c'.before);
    UploadsCompose(db, db', now, c.Upload(), now', c'.Upload());
    OldCompose(db, now, c, now', c');
    DropMore(db, gone, IncidentsUnder(db, gone), all, IncidentsUnder(db, all));
  }

  /* Counts. */

  datatype PurgeCounts = PurgeCounts(
    trips: nat, evidence: nat, assessments: nat, incidents: nat, profiles: nat, proposals: nat,
    notifications: nat, uploads: nat, events: nat, memoryAudits: nat)

  /** The stored owner of a profile, rather than its key, is what the count looks at. */
  function LapsedProfiles(db: Db, now: int, before: int): set<Owner> {
    set o | o in db.profiles && db.profiles[o].at < before
            && !HeldOwner(db, now, db.profiles[o].owner) && !HeldTenant(db, now, db.profiles[o].owner.tenant)
  }

  function LapsedProposals(db: Db, now: int, before: int): set<Id> {
    set p | p in db.proposals && !KeepsProposal(db, now, before, p)
  }

  function LapsedUploads(db: Db, now: int, before: int): set<Id> {
    set u | u in db.uploads && !KeepsUpload(db, now, before, u)
  }

  function Older(cutoff: int): Event -> bool {
    (e: Event) => e.at < cutoff
  }

  function PurgeCountsOf(db: Db, now: int, c: Cutoffs): PurgeCounts {
    var trips := ExpiredTrips(db, now, c.before);
    PurgeCounts(
      |trips|, |KeysIn(db.evidence, trips)|, |KeysIn(db.assessments, trips)|, |IncidentsUnder(db, trips)|,
      |LapsedProfiles(db, now, c.before)|, |LapsedProposals(db, now, c.before)|,
      |OldNotifications(db, c.before)|, |LapsedUploads(db, now, c.Upload())|,
      |Filter(Older(c.Audit()), db.events)|, |Filter(Older(c.Audit()), db.memoryAudits)|)
  }

  ghost predicate WellKeyed(db: Db) {
    forall o | o in db.profiles :: db.profiles[o].owner == o
  }

  lemma {:induction false} EventsSplit(cutoff: int, events: seq<Event>)
    ensures |Filter(NotBefore(cutoff), events)| + |Filter(Older(cutoff), events)| == |events|
  {
    if events != [] {
      EventsSplit(cutoff, events[1..]);
    }
  }

  /** Each count is what its table lost. */
  lemma PurgeCountsAreExact(db: Db, now: int, c: Cutoffs)
    requires WellKeyed(db)
    ensures var db', n := PurgeExpired(db, now, c), PurgeCountsOf(db, now, c);
            && |db'.trips| == |db.trips| - n.trips && |db'.evidence| == |db.evidence| - n.evidence
            && |db'.assessments| == |db.assessments| - n.assessments
            && |db'.incidents| == |db.incidents| - n.incidents
            && |db'.profiles| == |db.profiles| - n.profiles && |db'.proposals| == |db.proposals| - n.proposals
            && |db'.notifications| == |db.notifications| - n.notifications
            && |db'.uploads| == |db.uploads| - n.uploads
            && |db'.events| == |db.events| - n.events && |db'.memoryAudits| == |db.memoryAudits| - n.memoryAudits
  {
    var trips := ExpiredTrips(db, now, c.before);
    DropSizes(db, trips, IncidentsUnder(db, trips));
    OwnedSizes(db, now, c);
    EventsSplit(c.Audit(), db.events);
    EventsSplit(c.Audit(), db.memoryAudits);
  }

  lemma OwnedSizes(db: Db, now: int, c: Cutoffs)
    requires WellKeyed(db)
    ensures |KeptProfiles(db, now, c.before)| == |db.profiles| - |LapsedProfiles(db, now, c.before)|
    ensures |KeptProposals(db, now, c.before)| == |db.proposals| - |LapsedProposals(db, now, c.before)|
    ensures |KeptUploads(db, now, c.Upload())| == |db.uploads| - |LapsedUploads(db, now, c.Upload())|
    ensures |db.notifications - OldNotifications(db, c.before)|
         == |db.notifications| - |OldNotifications(db, c.before)|
  {
    var profiles, proposals := KeptProfiles(db, now, c.before), KeptProposals(db, now, c.before);
    var uploads := KeptUploads(db, now, c.Upload());
    assert profiles.Keys == db.profiles.Keys - LapsedProfiles(db, now, c.before);
    RemovedSize(db.profiles, profiles, LapsedProfiles(db, now, c.before));
    assert proposals.Keys == db.proposals.Keys - LapsedProposals(db, now, c.before);
    RemovedSize(db.proposals, proposals, LapsedProposals(db, now, c.before));
    assert uploads.Keys == db.uploads.Keys - LapsedUploads(db, now, c.Upload());
    RemovedSize(db.uploads, uploads, LapsedUploads(db, now, c.Upload()));
    RemovedSize(db.notifications, db.notifications - OldNotifications(db, c.before), OldNotifications(db, c.before));
  }
}
