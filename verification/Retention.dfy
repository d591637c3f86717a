/** Stored traveler data: erasure, retention and legal holds (apps/api/repository.py). */
module Retention {
  import opened Options

  type Id = nat

  datatype Owner = Owner(tenant: string, traveler: string)

  datatype Trip = Trip(owner: Owner, createdAt: int, body: string)
  datatype Incident = Incident(tenant: string, tripId: Id, body: string)
  /** A candidate set, candidate outcome, manager feedback or action dispatch. */
  datatype IncidentRow = IncidentRow(tenant: string, incidentId: Id, body: string)
  /** A profile, memory proposal or notification, with the time its retention counts from. */
  datatype OwnedRow = OwnedRow(owner: Owner, at: int, body: string)
  datatype Upload = Upload(tenant: string, createdAt: int)
  datatype Event = Event(at: int, body: string)

  datatype HoldScope = TenantHold | TravelerHold(traveler: string) | TripHold(tripId: Id)
  datatype Hold = Hold(tenant: string, scope: HoldScope, expiresAt: Option<int>, released: bool)

  datatype RequestScope = PreferenceMemory | TravelerData
  datatype RequestStatus = Pending | BlockedByLegalHold | Completed | RequestFailed
  datatype Request = Request(
    owner: Owner, scope: RequestScope, status: RequestStatus, submittedAt: int,
    completedAt: Option<int>, blockedBy: set<Id>, failed: bool)

  datatype Db = Db(
    trips: map<Id, Trip>, segments: map<Id, string>, evidence: map<Id, string>, assessments: map<Id, string>,
    incidents: map<Id, Incident>, approvals: map<Id, string>,
    candidateSets: map<Id, IncidentRow>, outcomes: map<Id, IncidentRow>, feedback: map<Id, IncidentRow>,
    dispatches: map<Id, IncidentRow>, dispatchAttempts: map<Id, string>,
    profiles: map<Owner, OwnedRow>, proposals: map<Id, OwnedRow>,
    notifications: map<Id, OwnedRow>, notificationAttempts: map<Id, string>,
    uploads: map<Id, Upload>, events: seq<Event>, memoryAudits: seq<Event>,
    holds: map<Id, Hold>, requests: map<Id, Request>)

  /* Erasure. */

  function TripsOf(db: Db, o: Owner): set<Id> {
    set t | t in db.trips && db.trips[t].owner == o
  }

  function IncidentsOf(db: Db, o: Owner): set<Id> {
    set i | i in db.incidents && db.incidents[i].tenant == o.tenant && db.incidents[i].tripId in TripsOf(db, o)
  }

  function NotUnder(rows: map<Id, IncidentRow>, incidents: set<Id>): map<Id, IncidentRow> {
    map k | k in rows && rows[k].incidentId !in incidents :: rows[k]
  }

  function NotOwned(rows: map<Id, OwnedRow>, o: Owner): map<Id, OwnedRow> {
    map k | k in rows && rows[k].owner != o :: rows[k]
  }

  function Within(attempts: map<Id, string>, parents: set<Id>): map<Id, string> {
    map k | k in attempts && k in parents :: attempts[k]
  }

  function DeleteMemory(db: Db, o: Owner): Db {
    db.(profiles := db.profiles - {o}, proposals := NotOwned(db.proposals, o))
  }

  /** Drop trips and incidents with what hangs on them. */
  function DropRows(db: Db, trips: set<Id>, incidents: set<Id>): Db {
    var dispatches := NotUnder(db.dispatches, incidents);
    db.(trips := db.trips - trips, evidence := db.evidence - trips, assessments := db.assessments - trips,
        incidents := db.incidents - incidents, approvals := db.approvals - incidents,
        candidateSets := NotUnder(db.candidateSets, incidents), outcomes := NotUnder(db.outcomes, incidents),
        feedback := NotUnder(db.feedback, incidents), dispatches := dispatches,
        dispatchAttempts := Within(db.dispatchAttempts, dispatches.Keys))
  }

  /** The trips' segments go too, and the owner's notifications. */
  function DropData(db: Db, o: Owner, trips: set<Id>, incidents: set<Id>): Db {
    var notifications := NotOwned(db.notifications, o);
    DropRows(db, trips, incidents).(
      segments := db.segments - trips, notifications := notifications,
      notificationAttempts := Within(db.notificationAttempts, notifications.Keys))
  }

  function Erase(db: Db, o: Owner, scope: RequestScope): Db {
    var forgotten := DeleteMemory(db, o);
    if scope == PreferenceMemory then forgotten
    else DropData(forgotten, o, TripsOf(forgotten, o), IncidentsOf(forgotten, o))
  }

  datatype DataCounts = DataCounts(trips: nat, evidence: nat, assessments: nat, incidents: nat)
  datatype EraseCounts = EraseCounts(profiles: nat, proposals: nat, data: Option<DataCounts>)

  function KeysIn<K, V>(m: map<K, V>, ids: set<K>): set<K> {
    set k | k in m && k in ids
  }

  function ProposalsOf(db: Db, o: Owner): set<Id> {
    set k | k in db.proposals && db.proposals[k].owner == o
  }

  function EraseCountsOf(db: Db, o: Owner, scope: RequestScope): EraseCounts {
    var trips := TripsOf(db, o);
    EraseCounts(
      if o in db.profiles then 1 else 0,
      |ProposalsOf(db, o)|,
      if scope == PreferenceMemory then None
      else Some(DataCounts(|trips|, |KeysIn(db.evidence, trips)|, |KeysIn(db.assessments, trips)|,
                           |IncidentsOf(db, o)|)))
  }

  /** An attempt, an approval or a row stays exactly if what it hangs on, if that was there, does. */
  ghost predicate FollowsIncidents(db: Db, db': Db, k: Id) {
    && (k in db'.approvals <==> k in db.approvals && (k in db.incidents ==> k in db'.incidents))
    && (k in db'.approvals ==> db'.approvals[k] == db.approvals[k])
    && RowFollows(db.candidateSets, db'.candidateSets, db, db', k) && RowFollows(db.outcomes, db'.outcomes, db, db', k)
    && RowFollows(db.feedback, db'.feedback, db, db', k) && RowFollows(db.dispatches, db'.dispatches, db, db', k)
    && (k in db'.dispatchAttempts <==> k in db.dispatchAttempts && k in db'.dispatches)
    && (k in db'.dispatchAttempts ==> db'.dispatchAttempts[k] == db.dispatchAttempts[k])
  }

  ghost predicate RowFollows(rows: map<Id, IncidentRow>, rows': map<Id, IncidentRow>, db: Db, db': Db, k: Id) {
    && (k in rows' <==> k in rows && (rows[k].incidentId in db.incidents ==> rows[k].incidentId in db'.incidents))
    && (k in rows' ==> rows'[k] == rows[k])
  }

  lemma DropFollows(db: Db, trips: set<Id>, incidents: set<Id>, k: Id)
    requires incidents <= db.incidents.Keys
    ensures FollowsIncidents(db, DropRows(db, trips, incidents), k)
  {
  }

  /** Which profile and proposals an erasure leaves; of the memory scope, all that it changes. */
  lemma EraseKeepsMemoryOf(db: Db, o: Owner, scope: RequestScope, p: Owner, k: Id)
    ensures var db' := Erase(db, o, scope);
            && (p in db'.profiles <==> p in db.profiles && p != o)
            && (p in db'.profiles ==> db'.profiles[p] == db.profiles[p])
            && (k in db'.proposals <==> k in db.proposals && db.proposals[k].owner != o)
            && (k in db'.proposals ==> db'.proposals[k] == db.proposals[k])
            && (scope == PreferenceMemory ==> db' == db.(profiles := db'.profiles, proposals := db'.proposals))
  {
  }

  /** Which rows an erasure of all data leaves, table by table. */
  lemma EraseExactly(db: Db, o: Owner, k: Id)
    ensures var db' := Erase(db, o, TravelerData);
            && (k in db'.trips <==> k in db.trips && db.trips[k].owner != o)
            && (k in db'.trips ==> db'.trips[k] == db.trips[k])
            && (k in db'.segments <==> k in db.segments && (k in db.trips ==> k in db'.trips))
            && (k in db'.evidence <==> k in db.evidence && (k in db.trips ==> k in db'.trips))
            && (k in db'.assessments <==> k in db.assessments && (k in db.trips ==> k in db'.trips))
            && (k in db'.incidents <==>
                  k in db.incidents
                  && !(db.incidents[k].tenant == o.tenant && db.incidents[k].tripId in db.trips
                       && db.trips[db.incidents[k].tripId].owner == o))
            && (k in db'.incidents ==> db'.incidents[k] == db.incidents[k])
            && FollowsIncidents(db, db', k)
    ensures var db' := Erase(db, o, TravelerData);
            && (k in db'.notifications <==> k in db.notifications && db.notifications[k].owner != o)
            && (k in db'.notifications ==> db'.notifications[k] == db.notifications[k])
            && (k in db'.notificationAttempts <==> k in db.notificationAttempts && k in db'.notifications)
            && db'.uploads == db.uploads && db'.events == db.events && db'.memoryAudits == db.memoryAudits
  {
    ForgetKeepsSets(db, o, o);
    DropFollows(DeleteMemory(db, o), TripsOf(db, o), IncidentsOf(db, o), k);
  }

  /** Nothing of the owner is left, and nothing that hung on the owner's trips or incidents. */
  lemma EraseRemovesAll(db: Db, o: Owner)
    ensures var db' := Erase(db, o, TravelerData);
            && TripsOf(db', o) == {} && IncidentsOf(db', o) == {}
            && o !in db'.profiles
            && (forall k | k in db'.proposals :: db'.proposals[k].owner != o)
            && (forall k | k in db'.notifications :: db'.notifications[k].owner != o)
            && (forall t | t in TripsOf(db, o) ::
                  t !in db'.trips && t !in db'.segments && t !in db'.evidence && t !in db'.assessments)
            && (forall i | i in IncidentsOf(db, o) :: i !in db'.incidents && i !in db'.approvals)
            && (forall k | k in db'.candidateSets :: db'.candidateSets[k].incidentId !in IncidentsOf(db, o))
            && (forall k | k in db'.outcomes :: db'.outcomes[k].incidentId !in IncidentsOf(db, o))
            && (forall k | k in db'.feedback :: db'.feedback[k].incidentId !in IncidentsOf(db, o))
            && (forall k | k in db'.dispatches :: db'.dispatches[k].incidentId !in IncidentsOf(db, o))
            && db'.notificationAttempts.Keys <= db'.notifications.Keys
            && db'.dispatchAttempts.Keys <= db'.dispatches.Keys
  {
  }

  /* Everything that belongs to one trip. */

  datatype Closure = Closure(
    trip: Option<Trip>, evidence: Option<string>, assessments: Option<string>, segments: Option<string>,
    incidents: map<Id, Incident>, approvals: map<Id, string>,
    candidateSets: map<Id, IncidentRow>, outcomes: map<Id, IncidentRow>, feedback: map<Id, IncidentRow>,
    dispatches: map<Id, IncidentRow>, dispatchAttempts: map<Id, string>)

  function Lookup<K, V>(m: map<K, V>, k: K): Option<V> {
    if k in m then Some(m[k]) else None
  }

  function IncidentsOn(db: Db, t: Id): set<Id> {
    set i | i in db.incidents && db.incidents[i].tripId == t
  }

  function Under(rows: map<Id, IncidentRow>, incidents: set<Id>): map<Id, IncidentRow> {
    map k | k in rows && rows[k].incidentId in incidents :: rows[k]
  }

  function ClosureOf(db: Db, t: Id): Closure {
    var incidents := IncidentsOn(db, t);
    var dispatches := Under(db.dispatches, incidents);
    Closure(
      Lookup(db.trips, t), Lookup(db.evidence, t), Lookup(db.assessments, t), Lookup(db.segments, t),
      map i | i in incidents :: db.incidents[i], map i | i in incidents && i in db.approvals :: db.approvals[i],
      Under(db.candidateSets, incidents), Under(db.outcomes, incidents), Under(db.feedback, incidents),
      dispatches, Within(db.dispatchAttempts, dispatches.Keys))
  }

  lemma UnderNotUnder(rows: map<Id, IncidentRow>, gone: set<Id>, kept: set<Id>)
    requires gone !! kept
    ensures Under(NotUnder(rows, gone), kept) == Under(rows, kept)
  {
  }

  lemma WithinWithin(attempts: map<Id, string>, p: set<Id>, q: set<Id>)
    requires q <= p
    ensures Within(Within(attempts, p), q) == Within(attempts, q)
  {
  }

  lemma DropRowsKeepsClosure(db: Db, trips: set<Id>, incidents: set<Id>, t: Id)
    requires t !in trips && incidents !! IncidentsOn(db, t)
    ensures ClosureOf(DropRows(db, trips, incidents), t) == ClosureOf(db, t)
  {
    var db' := DropRows(db, trips, incidents);
    var on := IncidentsOn(db, t);
    assert IncidentsOn(db', t) == on;
    UnderNotUnder(db.candidateSets, incidents, on);
    UnderNotUnder(db.outcomes, incidents, on);
    UnderNotUnder(db.feedback, incidents, on);
    UnderNotUnder(db.dispatches, incidents, on);
    var dispatches := Under(db.dispatches, on);
    WithinWithin(db.dispatchAttempts, NotUnder(db.dispatches, incidents).Keys, dispatches.Keys);
    IncidentTablesKept(db, db', on);
  }

  lemma ClosureIgnores(db: Db, segments: map<Id, string>, rows: map<Id, OwnedRow>, attempts: map<Id, string>, t: Id)
    requires Lookup(segments, t) == Lookup(db.segments, t)
    ensures ClosureOf(db.(segments := segments, notifications := rows, notificationAttempts := attempts), t)
         == ClosureOf(db, t)
  {
    var db' := db.(segments := segments, notifications := rows, notificationAttempts := attempts);
    assert IncidentsOn(db', t) == IncidentsOn(db, t);
  }

  /** Dropping other trips and incidents of other trips leaves a trip's closure alone. */
  lemma DropKeepsClosure(db: Db, o: Owner, trips: set<Id>, incidents: set<Id>, t: Id)
    requires t !in trips && incidents !! IncidentsOn(db, t)
    ensures ClosureOf(DropData(db, o, trips, incidents), t) == ClosureOf(db, t)
  {
    var db' := DropData(db, o, trips, incidents);
    DropRowsKeepsClosure(db, trips, incidents, t);
    ClosureIgnores(DropRows(db, trips, incidents), db'.segments, db'.notifications, db'.notificationAttempts, t);
  }

  lemma IncidentTablesKept(db: Db, db': Db, on: set<Id>)
    requires on <= db.incidents.Keys && on <= db'.incidents.Keys
    requires forall i | i in on ::
               db'.incidents[i] == db.incidents[i] && Lookup(db'.approvals, i) == Lookup(db.approvals, i)
    ensures (map i | i in on :: db'.incidents[i]) == map i | i in on :: db.incidents[i]
    ensures (map i | i in on && i in db'.approvals :: db'.approvals[i])
         == map i | i in on && i in db.approvals :: db.approvals[i]
  {
    assert forall i | i in on :: Lookup(db'.approvals, i) == Lookup(db.approvals, i);
  }

  /** What no erasure of another owner touches: a trip's closure, an owner's own rows, the records kept for audit. */
  ghost predicate KeepsFor(db: Db, db': Db, t: Id, p: Owner) {
    && ClosureOf(db', t) == ClosureOf(db, t)
    && Lookup(db'.profiles, p) == Lookup(db.profiles, p)
    && OwnedBy(db'.proposals, p) == OwnedBy(db.proposals, p)
    && OwnedBy(db'.notifications, p) == OwnedBy(db.notifications, p)
    && Within(db'.notificationAttempts, OwnedBy(db.notifications, p).Keys)
       == Within(db.notificationAttempts, OwnedBy(db.notifications, p).Keys)
    && db'.uploads == db.uploads && db'.events == db.events && db'.memoryAudits == db.memoryAudits
    && db'.holds == db.holds && db'.requests == db.requests
  }

  /** Erasing one owner leaves every trip of the others with its whole closure, and their profiles, proposals and
    * notifications with the attempts, exactly as they were. */
  lemma EraseKeepsOthers(db: Db, o: Owner, scope: RequestScope, t: Id, p: Owner)
    requires t !in TripsOf(db, o) && p != o
    ensures KeepsFor(db, Erase(db, o, scope), t, p)
  {
    var forgotten := DeleteMemory(db, o);
    ForgetKeepsOthers(db, o, t, p);
    if scope == TravelerData {
      DropKeepsOthers(forgotten, o, TripsOf(forgotten, o), IncidentsOf(forgotten, o), t, p);
    }
  }

  lemma ForgetKeepsOthers(db: Db, o: Owner, t: Id, p: Owner)
    requires p != o
    ensures KeepsFor(db, DeleteMemory(db, o), t, p)
  {
    ForgetKeepsClosure(db, o, t);
    OwnedByOthers(db.proposals, o, p);
  }

  lemma DropKeepsOthers(db: Db, o: Owner, trips: set<Id>, incidents: set<Id>, t: Id, p: Owner)
    requires t !in trips && incidents !! IncidentsOn(db, t) && p != o
    ensures KeepsFor(db, DropData(db, o, trips, incidents), t, p)
  {
    DropKeepsClosure(db, o, trips, incidents, t);
    OwnedByOthers(db.notifications, o, p);
    WithinWithin(db.notificationAttempts, NotOwned(db.notifications, o).Keys, OwnedBy(db.notifications, p).Keys);
  }

  lemma ForgetKeepsClosure(db: Db, o: Owner, t: Id)
    ensures ClosureOf(DeleteMemory(db, o), t) == ClosureOf(db, t)
  {
    assert IncidentsOn(DeleteMemory(db, o), t) == IncidentsOn(db, t);
  }

  lemma OwnedByOthers(rows: map<Id, OwnedRow>, o: Owner, p: Owner)
    requires o != p
    ensures OwnedBy(NotOwned(rows, o), p) == OwnedBy(rows, p)
    ensures OwnedBy(rows, p).Keys <= NotOwned(rows, o).Keys
  {
  }

  function OwnedBy(rows: map<Id, OwnedRow>, o: Owner): map<Id, OwnedRow> {
    map k | k in rows && rows[k].owner == o :: rows[k]
  }

  /* Erasures commute. */

  lemma NotUnderTwice(rows: map<Id, IncidentRow>, a: set<Id>, b: set<Id>)
    ensures NotUnder(NotUnder(rows, a), b) == NotUnder(NotUnder(rows, b), a)
  {
  }

  lemma NotOwnedTwice(rows: map<Id, OwnedRow>, o: Owner, p: Owner)
    ensures NotOwned(NotOwned(rows, o), p) == NotOwned(NotOwned(rows, p), o)
  {
  }

  lemma MinusTwice<K, V>(m: map<K, V>, a: set<K>, b: set<K>)
    ensures m - a - b == m - b - a
  {
  }

  lemma WithinTwice(attempts: map<Id, string>, p: set<Id>, q: set<Id>, both: set<Id>)
    requires both <= p && both <= q
    ensures Within(Within(attempts, p), both) == Within(Within(attempts, q), both)
  {
  }

  lemma TripTablesCommute(
      db: Db, o: Owner, trips: set<Id>, incidents: set<Id>, p: Owner, trips': set<Id>, incidents': set<Id>)
    ensures var a := DropData(DropData(db, o, trips, incidents), p, trips', incidents');
            var b := DropData(DropData(db, p, trips', incidents'), o, trips, incidents);
            && a.trips == b.trips && a.segments == b.segments && a.evidence == b.evidence
            && a.assessments == b.assessments && a.incidents == b.incidents && a.approvals == b.approvals
  {
    MinusTwice(db.trips, trips, trips');
    MinusTwice(db.segments, trips, trips');
    MinusTwice(db.evidence, trips, trips');
    MinusTwice(db.assessments, trips, trips');
    MinusTwice(db.incidents, incidents, incidents');
    MinusTwice(db.approvals, incidents, incidents');
  }

  lemma RowTablesCommute(
      db: Db, o: Owner, trips: set<Id>, incidents: set<Id>, p: Owner, trips': set<Id>, incidents': set<Id>)
    ensures var a := DropData(DropData(db, o, trips, incidents), p, trips', incidents');
            var b := DropData(DropData(db, p, trips', incidents'), o, trips, incidents);
            && a.candidateSets == b.candidateSets && a.outcomes == b.outcomes && a.feedback == b.feedback
            && a.dispatches == b.dispatches && a.notifications == b.notifications
  {
    NotUnderTwice(db.candidateSets, incidents, incidents');
    NotUnderTwice(db.outcomes, incidents, incidents');
    NotUnderTwice(db.feedback, incidents, incidents');
    NotUnderTwice(db.dispatches, incidents, incidents');
    NotOwnedTwice(db.notifications, o, p);
  }

  lemma NotificationAttemptsCommute(attempts: map<Id, string>, rows: map<Id, OwnedRow>, o: Owner, p: Owner)
    ensures Within(Within(attempts, NotOwned(rows, o).Keys), NotOwned(NotOwned(rows, o), p).Keys)
         == Within(Within(attempts, NotOwned(rows, p).Keys), NotOwned(NotOwned(rows, p), o).Keys)
  {
    NotOwnedTwice(rows, o, p);
    WithinTwice(attempts, NotOwned(rows, o).Keys, NotOwned(rows, p).Keys, NotOwned(NotOwned(rows, o), p).Keys);
  }

  lemma DispatchAttemptsCommute(attempts: map<Id, string>, rows: map<Id, IncidentRow>, a: set<Id>, b: set<Id>)
    ensures Within(Within(attempts, NotUnder(rows, a).Keys), NotUnder(NotUnder(rows, a), b).Keys)
         == Within(Within(attempts, NotUnder(rows, b).Keys), NotUnder(NotUnder(rows, b), a).Keys)
  {
    NotUnderTwice(rows, a, b);
    WithinTwice(attempts, NotUnder(rows, a).Keys, NotUnder(rows, b).Keys, NotUnder(NotUnder(rows, a), b).Keys);
  }

  lemma DropsCommute(
      db: Db, o: Owner, trips: set<Id>, incidents: set<Id>, p: Owner, trips': set<Id>, incidents': set<Id>)
    ensures DropData(DropData(db, o, trips, incidents), p, trips', incidents')
         == DropData(DropData(db, p, trips', incidents'), o, trips, incidents)
  {
    TripTablesCommute(db, o, trips, incidents, p, trips', incidents');
    RowTablesCommute(db, o, trips, incidents, p, trips', incidents');
    NotificationAttemptsCommute(db.notificationAttempts, db.notifications, o, p);
    DispatchAttemptsCommute(db.dispatchAttempts, db.dispatches, incidents, incidents');
  }

  lemma DropForgets(db: Db, o: Owner, trips: set<Id>, incidents: set<Id>, p: Owner)
    ensures DeleteMemory(DropData(db, o, trips, incidents), p) == DropData(DeleteMemory(db, p), o, trips, incidents)
    ensures DeleteMemory(DeleteMemory(db, o), p) == DeleteMemory(DeleteMemory(db, p), o)
  {
    MinusTwice(db.profiles, {o}, {p});
    NotOwnedTwice(db.proposals, o, p);
  }

  /** What an erasure leaves of an owner's trips and incidents. */
  lemma ErasedSets(db: Db, o: Owner, scope: RequestScope, p: Owner)
    ensures TripsOf(Erase(db, o, scope), p)
         == if scope == TravelerData && o == p then {} else TripsOf(db, p)
    ensures IncidentsOf(Erase(db, o, scope), p)
         == if scope == TravelerData && o == p then {} else IncidentsOf(db, p)
  {
  }

  lemma EmptyDrop(db: Db, o: Owner)
    requires (forall k | k in db.notifications :: db.notifications[k].owner != o)
    requires db.notificationAttempts.Keys <= db.notifications.Keys && db.dispatchAttempts.Keys <= db.dispatches.Keys
    ensures DropData(db, o, {}, {}) == db
  {
    var db' := DropData(db, o, {}, {});
    assert db'.notifications == db.notifications && db'.dispatches == db.dispatches;
    assert db'.candidateSets == db.candidateSets && db'.outcomes == db.outcomes && db'.feedback == db.feedback;
    assert db'.trips == db.trips && db'.segments == db.segments && db'.evidence == db.evidence;
    assert db'.assessments == db.assessments && db'.incidents == db.incidents && db'.approvals == db.approvals;
  }

  lemma ForgetAgain(db: Db, o: Owner)
    requires o !in db.profiles && forall k | k in db.proposals :: db.proposals[k].owner != o
    ensures DeleteMemory(db, o) == db
  {
    assert db.profiles - {o} == db.profiles;
    assert NotOwned(db.proposals, o) == db.proposals;
  }

  /** Erasing again changes nothing and counts nothing. */
  lemma EraseIsIdempotent(db: Db, o: Owner, scope: RequestScope)
    ensures var db' := Erase(db, o, scope);
            && Erase(db', o, scope) == db'
            && EraseCountsOf(db', o, scope)
               == EraseCounts(0, 0, if scope == PreferenceMemory then None else Some(DataCounts(0, 0, 0, 0)))
  {
    var db' := Erase(db, o, scope);
    ErasedSets(db, o, scope, o);
    ForgetAgain(db', o);
    if scope == TravelerData {
      DropLeavesNothing(DeleteMemory(db, o), o, TripsOf(DeleteMemory(db, o), o), IncidentsOf(DeleteMemory(db, o), o));
      EmptyDrop(db', o);
      assert KeysIn(db'.evidence, {}) == {} && KeysIn(db'.assessments, {}) == {};
    }
    assert ProposalsOf(db', o) == {};
  }

  lemma DropLeavesNothing(db: Db, o: Owner, trips: set<Id>, incidents: set<Id>)
    ensures var db' := DropData(db, o, trips, incidents);
            && (forall k | k in db'.notifications :: db'.notifications[k].owner != o)
            && db'.notificationAttempts.Keys <= db'.notifications.Keys
            && db'.dispatchAttempts.Keys <= db'.dispatches.Keys
  {
  }

  /** Any two erasures may be done in either order, whoever they are for and whatever their scopes. */
  lemma ErasesCommute(db: Db, o: Owner, s: RequestScope, p: Owner, s': RequestScope)
    ensures Erase(Erase(db, o, s), p, s') == Erase(Erase(db, p, s'), o, s)
  {
    if o != p {
      EraseAfter(db, o, s, p, s');
      EraseAfter(db, p, s', o, s);
      var both := DeleteMemory(DeleteMemory(db, o), p);
      DropForgets(db, o, {}, {}, p);
      DropsCommute(both, o, TripsOf(db, o), IncidentsOf(db, o), p, TripsOf(db, p), IncidentsOf(db, p));
    } else if s != s' {
      SameOwnerCommutes(db, o);
    }
  }

  function DropIf(db: Db, scope: RequestScope, o: Owner, trips: set<Id>, incidents: set<Id>): Db {
    if scope == TravelerData then DropData(db, o, trips, incidents) else db
  }

  /** A second erasure, for another owner, finds that owner's trips and incidents as they were at the start. */
  lemma EraseAfter(db: Db, o: Owner, s: RequestScope, p: Owner, s': RequestScope)
    requires o != p
    ensures Erase(Erase(db, o, s), p, s')
         == DropIf(DropIf(DeleteMemory(DeleteMemory(db, o), p), s, o, TripsOf(db, o), IncidentsOf(db, o)),
                   s', p, TripsOf(db, p), IncidentsOf(db, p))
  {
    var a := Erase(db, o, s);
    ErasedSets(db, o, s, p);
    ForgetKeepsSets(db, o, o);
    ForgetKeepsSets(a, p, p);
    DropForgets(DeleteMemory(db, o), o, TripsOf(db, o), IncidentsOf(db, o), p);
  }

  lemma ForgetKeepsSets(db: Db, o: Owner, p: Owner)
    ensures TripsOf(DeleteMemory(db, o), p) == TripsOf(db, p)
    ensures IncidentsOf(DeleteMemory(db, o), p) == IncidentsOf(db, p)
  {
  }

  lemma SameOwnerCommutes(db: Db, o: Owner)
    ensures Erase(Erase(db, o, PreferenceMemory), o, TravelerData) == Erase(db, o, TravelerData)
    ensures Erase(Erase(db, o, TravelerData), o, PreferenceMemory) == Erase(db, o, TravelerData)
  {
    var forgotten := DeleteMemory(db, o);
    ForgetAgain(forgotten, o);
    DropForgets(forgotten, o, TripsOf(forgotten, o), IncidentsOf(forgotten, o), o);
  }

  /* Sizes. */

  lemma RemovedSize<K, V>(m: map<K, V>, m': map<K, V>, gone: set<K>)
    requires gone <= m.Keys && m'.Keys == m.Keys - gone
    ensures |m'| == |m| - |gone|
  {
    assert |m'| == |m'.Keys| && |m| == |m.Keys|;
    assert m.Keys == m'.Keys + gone;
  }

  /** The counts reported are what each table has lost. */
  lemma EraseCountsAreExact(db: Db, o: Owner, scope: RequestScope)
    ensures var db', counts := Erase(db, o, scope), EraseCountsOf(db, o, scope);
            && |db'.profiles| == |db.profiles| - counts.profiles
            && |db'.proposals| == |db.proposals| - counts.proposals
            && (counts.data.Some? <==> scope == TravelerData)
            && (counts.data.Some? ==>
                  && |db'.trips| == |db.trips| - counts.data.value.trips
                  && |db'.evidence| == |db.evidence| - counts.data.value.evidence
                  && |db'.assessments| == |db.assessments| - counts.data.value.assessments
                  && |db'.incidents| == |db.incidents| - counts.data.value.incidents)
  {
    var db' := Erase(db, o, scope);
    var trips := TripsOf(db, o);
    ForgetKeepsSets(db, o, o);
    ForgetSizes(db, o);
    if scope == TravelerData {
      DropSizes(DeleteMemory(db, o), trips, IncidentsOf(db, o));
    }
  }

  lemma ForgetSizes(db: Db, o: Owner)
    ensures |DeleteMemory(db, o).profiles| == |db.profiles| - if o in db.profiles then 1 else 0
    ensures |DeleteMemory(db, o).proposals| == |db.proposals| - |ProposalsOf(db, o)|
  {
    if o in db.profiles {
      RemovedSize(db.profiles, db.profiles - {o}, {o});
    } else {
      assert db.profiles - {o} == db.profiles;
    }
    var kept := NotOwned(db.proposals, o);
    assert kept.Keys == db.proposals.Keys - ProposalsOf(db, o);
    RemovedSize(db.proposals, kept, ProposalsOf(db, o));
  }

  lemma DropSizes(db: Db, trips: set<Id>, incidents: set<Id>)
    requires trips <= db.trips.Keys && incidents <= db.incidents.Keys
    ensures var db' := DropRows(db, trips, incidents);
            && |db'.trips| == |db.trips| - |trips| && |db'.incidents| == |db.incidents| - |incidents|
            && |db'.evidence| == |db.evidence| - |KeysIn(db.evidence, trips)|
            && |db'.assessments| == |db.assessments| - |KeysIn(db.assessments, trips)|
  {
    MinusSize(db.trips, trips);
    MinusSize(db.evidence, trips);
    MinusSize(db.assessments, trips);
    MinusSize(db.incidents, incidents);
    assert KeysIn(db.trips, trips) == trips && KeysIn(db.incidents, incidents) == incidents;
  }

  lemma MinusSize<K, V>(m: map<K, V>, ids: set<K>)
    ensures |m - ids| == |m| - |KeysIn(m, ids)|
  {
    RemovedSize(m, m - ids, KeysIn(m, ids));
  }
}
