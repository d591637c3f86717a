/** Deletion requests and what legal holds protect (workers/privacy.py, apps/api/repository.py). */
module Privacy {
  import opened Options
  import opened Seqs
  import opened Retention
  import opened Purge

  /** The active holds that stand in the way of erasing an owner. */
  function ActiveHolds(db: Db, o: Owner, now: int): set<Id> {
    set k | k in db.holds && db.holds[k].tenant == o.tenant && IsActive(db.holds[k], now)
            && match db.holds[k].scope
               case TenantHold => true
               case TravelerHold(traveler) => traveler == o.traveler
               case TripHold(t) => t in TripsOf(db, o)
  }

  predicate Erases(db: Db, r: Id, now: int, raises: set<Id>)
    requires r in db.requests
  {
    ActiveHolds(db, db.requests[r].owner, now) == {} && r !in raises
  }

  function Updated(db: Db, r: Id, now: int, raises: set<Id>): Request
    requires r in db.requests
  {
    var request := db.requests[r];
    var holds := ActiveHolds(db, request.owner, now);
    if holds != {} then request.(status := BlockedByLegalHold, blockedBy := holds, failed := false)
    else if r in raises then request.(status := RequestFailed, failed := true)
    else request.(status := Completed, completedAt := Some(now), blockedBy := {}, failed := false)
  }

  function DataStep(db: Db, r: Id, now: int, raises: set<Id>): Db
    requires r in db.requests
  {
    if Erases(db, r, now, raises) then Erase(db, db.requests[r].owner, db.requests[r].scope) else db
  }

  /** One deletion request: blocked by a hold, failed, or carried out. */
  function ProcessRequest(db: Db, r: Id, now: int, raises: set<Id>): Db
    requires r in db.requests
  {
    DataStep(db, r, now, raises).(requests := db.requests[r := Updated(db, r, now, raises)])
  }

  ghost predicate Known(db: Db, ids: seq<Id>) {
    forall r | r in ids :: r in db.requests
  }

  function ProcessAll(db: Db, ids: seq<Id>, now: int, raises: set<Id>): (db': Db)
    requires Known(db, ids)
    ensures db'.requests.Keys == db.requests.Keys && db'.holds == db.holds
  {
    if ids == [] then db
    else
      var last := |ids| - 1;
      var before := ProcessAll(db, ids[..last], now, raises);
      EraseKeepsControl(before, before.requests[ids[last]].owner, before.requests[ids[last]].scope);
      ProcessRequest(before, ids[last], now, raises)
  }

  lemma EraseKeepsControl(db: Db, o: Owner, scope: RequestScope)
    ensures Erase(db, o, scope).holds == db.holds && Erase(db, o, scope).requests == db.requests
  {
  }

  /** What stands in the way of an erasure: the holds in force of the tenant, of the traveler, or of one of the
    * traveler's trips. A released hold, or one that has run out, does not. */
  lemma BlocksExactly(db: Db, o: Owner, now: int, k: Id)
    ensures k in ActiveHolds(db, o, now) <==>
              k in db.holds
              && !db.holds[k].released && (db.holds[k].expiresAt.Some? ==> now < db.holds[k].expiresAt.value)
              && db.holds[k].tenant == o.tenant
              && (db.holds[k].scope == TenantHold || db.holds[k].scope == TravelerHold(o.traveler)
                  || exists t :: t in db.trips && db.trips[t].owner == o && db.holds[k].scope == TripHold(t))
  {
  }

  /** A request is blocked, with the holds named, if any stands in its way; else fails if the erasure raises; else is
    * completed now. The data is erased in the last case only, and no other request changes. */
  lemma RequestExactly(db: Db, r: Id, now: int, raises: set<Id>)
    requires r in db.requests
    ensures var holds, was := ActiveHolds(db, db.requests[r].owner, now), db.requests[r];
            var db' := ProcessRequest(db, r, now, raises);
            && db'.requests.Keys == db.requests.Keys
            && (forall q | q in db.requests && q != r :: db'.requests[q] == db.requests[q])
            && (var left := db'.requests[r];
                && left == was.(status := left.status, completedAt := left.completedAt, blockedBy := left.blockedBy,
                              failed := left.failed)
                && (left.status == BlockedByLegalHold <==> holds != {})
                && (left.status == RequestFailed <==> holds == {} && r in raises)
                && (left.status == Completed <==> holds == {} && r !in raises)
                && (left.failed <==> left.status == RequestFailed)
                && left.completedAt == (if left.status == Completed then Some(now) else was.completedAt)
                && left.blockedBy == (if left.status == RequestFailed then was.blockedBy else holds)
                && db' == (if left.status == Completed then Erase(db, was.owner, was.scope) else db).(
                            requests := db'.requests))
  {
    EraseKeepsControl(db, db.requests[r].owner, db.requests[r].scope);
  }

  /* Order independence. */

  lemma EraseIgnoresRequests(db: Db, requests: map<Id, Request>, o: Owner, scope: RequestScope)
    ensures Erase(db.(requests := requests), o, scope) == Erase(db, o, scope).(requests := requests)
  {
    var other := db.(requests := requests);
    assert TripsOf(DeleteMemory(other, o), o) == TripsOf(DeleteMemory(db, o), o);
    assert IncidentsOf(DeleteMemory(other, o), o) == IncidentsOf(DeleteMemory(db, o), o);
  }

  lemma HoldsReadTrips(db: Db, db': Db, o: Owner, now: int)
    requires db'.holds == db.holds && TripsOf(db', o) == TripsOf(db, o)
    ensures ActiveHolds(db', o, now) == ActiveHolds(db, o, now)
  {
  }

  lemma FewerTripsFewerHolds(db: Db, db': Db, o: Owner, now: int)
    requires db'.holds == db.holds && TripsOf(db', o) <= TripsOf(db, o)
    ensures ActiveHolds(db', o, now) <= ActiveHolds(db, o, now)
  {
  }

  /** Processing one request does not change which holds stand in the way of another. */
  lemma HoldsStable(db: Db, r: Id, now: int, raises: set<Id>, o: Owner)
    requires r in db.requests
    ensures ActiveHolds(ProcessRequest(db, r, now, raises), o, now) == ActiveHolds(db, o, now)
  {
    var db' := ProcessRequest(db, r, now, raises);
    var request := db.requests[r];
    EraseKeepsControl(db, request.owner, request.scope);
    if Erases(db, r, now, raises) {
      ErasedSets(db, request.owner, request.scope, o);
      var erased := Erase(db, request.owner, request.scope);
      assert TripsOf(db', o) == TripsOf(erased, o);
      if o == request.owner {
        FewerTripsFewerHolds(db, db', o, now);
      } else {
        HoldsReadTrips(db, db', o, now);
      }
    } else {
      assert TripsOf(db', o) == TripsOf(db, o);
      HoldsReadTrips(db, db', o, now);
    }
  }

  function EraseIf(db: Db, really: bool, request: Request): Db {
    if really then Erase(db, request.owner, request.scope) else db
  }

  /** Two requests in a row, each judged by the state at the start. */
  lemma TwoRequests(db: Db, a: Id, b: Id, now: int, raises: set<Id>)
    requires a in db.requests && b in db.requests && a != b
    ensures b in ProcessRequest(db, a, now, raises).requests
    ensures ProcessRequest(ProcessRequest(db, a, now, raises), b, now, raises)
         == EraseIf(EraseIf(db, Erases(db, a, now, raises), db.requests[a]),
                    Erases(db, b, now, raises), db.requests[b]).(
              requests := db.requests[a := Updated(db, a, now, raises)][b := Updated(db, b, now, raises)])
  {
    var first := ProcessRequest(db, a, now, raises);
    HoldsStable(db, a, now, raises, db.requests[b].owner);
    var data := DataStep(db, a, now, raises);
    EraseIgnoresRequests(data, first.requests, db.requests[b].owner, db.requests[b].scope);
    EraseKeepsControl(db, db.requests[a].owner, db.requests[a].scope);
  }

  lemma RequestsCommute(db: Db, a: Id, b: Id, now: int, raises: set<Id>)
    requires a in db.requests && b in db.requests && a != b
    ensures b in ProcessRequest(db, a, now, raises).requests && a in ProcessRequest(db, b, now, raises).requests
    ensures ProcessRequest(ProcessRequest(db, a, now, raises), b, now, raises)
         == ProcessRequest(ProcessRequest(db, b, now, raises), a, now, raises)
  {
    TwoRequests(db, a, b, now, raises);
    TwoRequests(db, b, a, now, raises);
    var ra, rb := db.requests[a], db.requests[b];
    ErasesCommute(db, ra.owner, ra.scope, rb.owner, rb.scope);
    var ua, ub := Updated(db, a, now, raises), Updated(db, b, now, raises);
    assert db.requests[a := ua][b := ub] == db.requests[b := ub][a := ua];
  }

  lemma ProcessAppend(db: Db, ids: seq<Id>, x: Id, now: int, raises: set<Id>)
    requires Known(db, ids + [x])
    ensures Known(db, ids) && x in db.requests
    ensures ProcessAll(db, ids + [x], now, raises) == ProcessRequest(ProcessAll(db, ids, now, raises), x, now, raises)
  {
    assert (ids + [x])[..|ids|] == ids;
    assert forall r | r in ids :: r in ids + [x];
    assert x in ids + [x];
  }

  lemma {:induction false} MoveToEnd(db: Db, p: seq<Id>, x: Id, q: seq<Id>, now: int, raises: set<Id>)
    requires Known(db, p + [x] + q) && x !in q
    ensures Known(db, p + q + [x])
    ensures ProcessAll(db, p + [x] + q, now, raises) == ProcessAll(db, p + q + [x], now, raises)
    decreases |q|
  {
    forall r | r in p + q + [x]
      ensures r in db.requests
    {
      assert r in p + [x] + q;
    }
    if q == [] {
      assert p + [x] + q == p + [x] && p + q + [x] == p + [x];
    } else {
      var last := |q| - 1;
      var y, q' := q[last], q[..last];
      assert p + [x] + q == (p + [x] + q') + [y];
      assert p + q + [x] == (p + q' + [y]) + [x];
      assert y in q;
      ProcessAppend(db, p + [x] + q', y, now, raises);
      MoveToEnd(db, p, x, q', now, raises);
      ProcessAppend(db, p + q', x, now, raises);
      ProcessAppend(db, p + q' + [y], x, now, raises);
      ProcessAppend(db, p + q', y, now, raises);
      RequestsCommute(ProcessAll(db, p + q', now, raises), x, y, now, raises);
    }
  }

  lemma SameLast(db: Db, rest: seq<Id>, x: Id, p: seq<Id>, q: seq<Id>, now: int, raises: set<Id>)
    requires Known(db, rest + [x]) && Known(db, p + [x] + q) && x !in q
    requires Known(db, rest) && Known(db, p + q)
    requires ProcessAll(db, rest, now, raises) == ProcessAll(db, p + q, now, raises)
    ensures ProcessAll(db, rest + [x], now, raises) == ProcessAll(db, p + [x] + q, now, raises)
  {
    MoveToEnd(db, p, x, q, now, raises);
    ProcessAppend(db, p + q, x, now, raises);
    ProcessAppend(db, rest, x, now, raises);
  }

  lemma KnownRest(db: Db, p: seq<Id>, x: Id, q: seq<Id>)
    requires Known(db, p + [x] + q)
    ensures Known(db, p + q)
  {
    assert forall r | r in p + q :: r in p + [x] + q;
  }

  /** The state after a deletion run does not depend on the order in which the requests were taken. */
  lemma {:induction false} OrderDoesNotMatter(db: Db, xs: seq<Id>, ys: seq<Id>, now: int, raises: set<Id>)
    requires Known(db, xs) && Known(db, ys) && NoDuplicates(xs) && multiset(xs) == multiset(ys)
    ensures ProcessAll(db, xs, now, raises) == ProcessAll(db, ys, now, raises)
    decreases |xs|
  {
    SameBagSameLength(xs, ys);
    if xs != [] {
      var x, rest := xs[|xs| - 1], xs[..|xs| - 1];
      var k := TakeOut(xs, ys);
      var p, q := ys[..k], ys[k + 1..];
      assert xs == rest + [x] && ys == p + [x] + q;
      KnownRest(db, p, x, q);
      OrderDoesNotMatter(db, rest, p + q, now, raises);
      SameLast(db, rest, x, p, q, now, raises);
    }
  }

  /* What a hold preserves. */

  datatype Op =
    | PurgeRun(cutoffs: Cutoffs)
    | DeletionRun(ids: seq<Id>, raises: set<Id>)
    | Wait(elapsed: nat)
    | Submit(id: Id, request: Request)
    | PlaceHold(id: Id, hold: Hold)

  datatype State = State(db: Db, now: int)

  /** Deletion runs take requests that are on file; the hold in question is not touched. */
  ghost predicate Allowed(s: State, op: Op, kept: Id) {
    match op
    case DeletionRun(ids, _) => Known(s.db, ids)
    case PlaceHold(id, _) => id != kept
    case _ => true
  }

  function Do(s: State, op: Op, kept: Id): State
    requires Allowed(s, op, kept)
  {
    match op
    case PurgeRun(c) => s.(db := PurgeExpired(s.db, s.now, c))
    case DeletionRun(ids, raises) => s.(db := ProcessAll(s.db, ids, s.now, raises))
    case Wait(elapsed) => s.(now := s.now + elapsed)
    case Submit(id, request) => s.(db := s.db.(requests := s.db.requests[id := request]))
    case PlaceHold(id, hold) => s.(db := s.db.(holds := s.db.holds[id := hold]))
  }

  ghost predicate Leads(a: State, ops: seq<Op>, b: State, kept: Id)
    decreases |ops|
  {
    if ops == [] then a == b
    else Allowed(a, ops[0], kept) && Leads(Do(a, ops[0], kept), ops[1..], b, kept)
  }

  /** An owner's profile and proposals. */
  datatype Memory = Memory(profile: Option<OwnedRow>, proposals: map<Id, OwnedRow>)

  function MemoryOf(db: Db, o: Owner): Memory {
    Memory(Lookup(db.profiles, o), OwnedBy(db.proposals, o))
  }

  predicate CoversOwner(h: Hold, o: Owner) {
    h.tenant == o.tenant && (h.scope == TenantHold || h.scope == TravelerHold(o.traveler))
  }

  ghost predicate Protected(db: Db, now: int, kept: Id, h: Hold) {
    kept in db.holds && db.holds[kept] == h && IsActive(h, now)
  }

  lemma PurgeKeepsHeldTrip(db: Db, now: int, c: Cutoffs, kept: Id, h: Hold, t: Id)
    requires Protected(db, now, kept, h) && t in db.trips && Covers(h, t, db.trips[t])
    ensures ClosureOf(PurgeExpired(db, now, c), t) == ClosureOf(db, t)
  {
    assert HeldTrip(db, now, t);
    var gone := ExpiredTrips(db, now, c.before);
    DropRowsKeepsClosure(db, gone, IncidentsUnder(db, gone), t);
  }

  lemma PurgeKeepsHeldMemory(db: Db, now: int, c: Cutoffs, kept: Id, h: Hold, o: Owner)
    requires Protected(db, now, kept, h) && CoversOwner(h, o) && WellKeyed(db)
    ensures MemoryOf(PurgeExpired(db, now, c), o) == MemoryOf(db, o)
  {
    assert HeldOwner(db, now, o) || HeldTenant(db, now, o.tenant);
    assert forall p | p in db.proposals && db.proposals[p].owner == o :: KeepsProposal(db, now, c.before, p);
    assert OwnedBy(KeptProposals(db, now, c.before), o) == OwnedBy(db.proposals, o);
  }

  lemma RequestKeepsHeldTrip(db: Db, now: int, r: Id, raises: set<Id>, kept: Id, h: Hold, t: Id)
    requires Protected(db, now, kept, h) && r in db.requests && t in db.trips && Covers(h, t, db.trips[t])
    ensures ClosureOf(ProcessRequest(db, r, now, raises), t) == ClosureOf(db, t)
  {
    var request := db.requests[r];
    if Erases(db, r, now, raises) {
      assert kept !in ActiveHolds(db, request.owner, now);
      assert t !in TripsOf(db, request.owner);
      var someoneElse := Owner(request.owner.tenant + "x", "");
      EraseKeepsOthers(db, request.owner, request.scope, t, someoneElse);
    }
    RequestsOutsideClosure(DataStep(db, r, now, raises), ProcessRequest(db, r, now, raises).requests, t);
  }

  lemma RequestsOutsideClosure(db: Db, requests: map<Id, Request>, t: Id)
    ensures ClosureOf(db.(requests := requests), t) == ClosureOf(db, t)
  {
    assert IncidentsOn(db.(requests := requests), t) == IncidentsOn(db, t);
  }

  lemma EraseKeepsMemory(db: Db, p: Owner, scope: RequestScope, o: Owner)
    ensures o != p ==> MemoryOf(Erase(db, p, scope), o) == MemoryOf(db, o)
    ensures WellKeyed(db) ==> WellKeyed(Erase(db, p, scope))
  {
    if o != p {
      OwnedByOthers(db.proposals, p, o);
    }
  }

  lemma RequestKeepsControl(db: Db, now: int, r: Id, raises: set<Id>, kept: Id, h: Hold)
    requires Protected(db, now, kept, h) && r in db.requests
    ensures Protected(ProcessRequest(db, r, now, raises), now, kept, h)
    ensures WellKeyed(db) ==> WellKeyed(ProcessRequest(db, r, now, raises))
  {
    var request := db.requests[r];
    EraseKeepsControl(db, request.owner, request.scope);
    EraseKeepsMemory(db, request.owner, request.scope, request.owner);
  }

  lemma RequestKeepsHeldMemory(db: Db, now: int, r: Id, raises: set<Id>, kept: Id, h: Hold, o: Owner)
    requires Protected(db, now, kept, h) && r in db.requests && CoversOwner(h, o)
    ensures MemoryOf(ProcessRequest(db, r, now, raises), o) == MemoryOf(db, o)
  {
    var request := db.requests[r];
    var data := DataStep(db, r, now, raises);
    if Erases(db, r, now, raises) {
      assert kept !in ActiveHolds(db, request.owner, now);
      EraseKeepsMemory(db, request.owner, request.scope, o);
    }
    SameMemory(data, ProcessRequest(db, r, now, raises), o);
  }

  lemma SameMemory(db: Db, db': Db, o: Owner)
    requires db'.profiles == db.profiles && db'.proposals == db.proposals
    ensures MemoryOf(db', o) == MemoryOf(db, o)
  {
  }

  /** What a hold covers, and the hold itself, unchanged from one database to the next. */
  ghost predicate Keeps(db: Db, db': Db, now: int, kept: Id, h: Hold, t: Id, o: Owner) {
    && Protected(db', now, kept, h) && (WellKeyed(db) ==> WellKeyed(db'))
    && (t in db.trips && Covers(h, t, db.trips[t]) ==> ClosureOf(db', t) == ClosureOf(db, t))
    && (CoversOwner(h, o) ==> MemoryOf(db', o) == MemoryOf(db, o))
  }

  lemma RequestKeepsHeld(db: Db, now: int, r: Id, raises: set<Id>, kept: Id, h: Hold, t: Id, o: Owner)
    requires Protected(db, now, kept, h) && r in db.requests
    ensures Keeps(db, ProcessRequest(db, r, now, raises), now, kept, h, t, o)
  {
    RequestKeepsControl(db, now, r, raises, kept, h);
    if t in db.trips && Covers(h, t, db.trips[t]) {
      RequestKeepsHeldTrip(db, now, r, raises, kept, h, t);
    }
    if CoversOwner(h, o) {
      RequestKeepsHeldMemory(db, now, r, raises, kept, h, o);
    }
  }

  lemma {:induction false} DeletionKeepsHeld(
      db: Db, now: int, ids: seq<Id>, raises: set<Id>, kept: Id, h: Hold, t: Id, o: Owner)
    requires Protected(db, now, kept, h) && Known(db, ids)
    ensures Keeps(db, ProcessAll(db, ids, now, raises), now, kept, h, t, o)
  {
    if ids != [] {
      var last := |ids| - 1;
      DeletionKeepsHeld(db, now, ids[..last], raises, kept, h, t, o);
      var before := ProcessAll(db, ids[..last], now, raises);
      if t in db.trips && Covers(h, t, db.trips[t]) {
        assert ClosureOf(before, t).trip == ClosureOf(db, t).trip;
      }
      RequestKeepsHeld(before, now, ids[last], raises, kept, h, t, o);
    }
  }

  lemma StepKeepsHeld(s: State, op: Op, kept: Id, h: Hold, t: Id, o: Owner)
    requires Allowed(s, op, kept) && Protected(s.db, s.now, kept, h) && WellKeyed(s.db)
    ensures var s' := Do(s, op, kept);
            s'.now >= s.now && Keeps(s.db, s'.db, s.now, kept, h, t, o)
  {
    match op
    case PurgeRun(c) =>
      if t in s.db.trips && Covers(h, t, s.db.trips[t]) {
        PurgeKeepsHeldTrip(s.db, s.now, c, kept, h, t);
      }
      if CoversOwner(h, o) {
        PurgeKeepsHeldMemory(s.db, s.now, c, kept, h, o);
      }
    case DeletionRun(ids, raises) =>
      DeletionKeepsHeld(s.db, s.now, ids, raises, kept, h, t, o);
    case _ =>
  }

  lemma {:induction false} TimeAdvances(a: State, ops: seq<Op>, b: State, kept: Id)
    requires Leads(a, ops, b, kept)
    ensures a.now <= b.now
    decreases |ops|
  {
    if ops != [] {
      TimeAdvances(Do(a, ops[0], kept), ops[1..], b, kept);
    }
  }

  /** While a hold stays in force, no interleaving of purges, deletion runs, new requests and other holds changes
    * anything of a trip it covers, nor, for a tenant or traveler hold, the profile and proposals it covers. */
  lemma {:induction false} HoldsPreserve(a: State, ops: seq<Op>, b: State, kept: Id, h: Hold, t: Id, o: Owner)
    requires Leads(a, ops, b, kept) && WellKeyed(a.db)
    requires kept in a.db.holds && a.db.holds[kept] == h && IsActive(h, b.now)
    ensures t in a.db.trips && Covers(h, t, a.db.trips[t]) ==> ClosureOf(b.db, t) == ClosureOf(a.db, t)
    ensures CoversOwner(h, o) ==> MemoryOf(b.db, o) == MemoryOf(a.db, o)
    decreases |ops|
  {
    if ops != [] {
      var a' := Do(a, ops[0], kept);
      TimeAdvances(a, ops, b, kept);
      StepKeepsHeld(a, ops[0], kept, h, t, o);
      if t in a.db.trips && Covers(h, t, a.db.trips[t]) {
        assert ClosureOf(a'.db, t).trip == ClosureOf(a.db, t).trip;
      }
      HoldsPreserve(a', ops[1..], b, kept, h, t, o);
    }
  }
}
