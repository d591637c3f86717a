/** Scheduled assessments before departure (workers/monitor_due_trips.py, apps/api/main.py). */
module Schedule {
  import opened Seqs
  import opened Idempotency

  const MINUTE: int := 60_000_000
  const HOUR: int := 60 * MINUTE
  const GRACE: int := 20 * MINUTE
  const WINDOWS: seq<int> := [24, 6, 2]
  const SCOPE := "internal:assessment-due"

  /** A trip as the monitor sees it: the departure of its first segment, and that instant as text. */
  datatype Trip = Trip(tenant: string, id: string, departure: int, departureText: string)

  function WindowStart(trip: Trip, hours: int): int {
    trip.departure - hours * HOUR
  }

  predicate IsDue(trip: Trip, hours: int, now: int) {
    0 <= now - WindowStart(trip, hours) < GRACE
  }

  function DueAt(trip: Trip, now: int): int -> bool {
    hours => IsDue(trip, hours, now)
  }

  function DueWindows(trip: Trip, now: int): seq<int> {
    Filter(DueAt(trip, now), WINDOWS)
  }

  /** In microseconds: the windows are 24, 6 and 2 hours before departure and last twenty minutes, so none is due once
    * the trip has left. */
  lemma DueExactly(trip: Trip, now: int, h: int)
    ensures h in DueWindows(trip, now) <==>
              (h == 24 || h == 6 || h == 2)
              && trip.departure - h * 3_600_000_000 <= now < trip.departure - h * 3_600_000_000 + 1_200_000_000
    ensures h in DueWindows(trip, now) ==> now < trip.departure
  {
    FilterMembers(DueAt(trip, now), WINDOWS);
  }

  function Numeral(hours: int): string {
    if hours == 24 then "24" else if hours == 6 then "6" else "2"
  }

  function WindowLabel(trip: Trip, hours: int): string {
    "T-" + Numeral(hours) + ":" + trip.departureText
  }

  function AssessmentKey(trip: Trip, hours: int): Key {
    Key(trip.tenant, "assessment-due:" + (trip.id + (":" + WindowLabel(trip, hours))))
  }

  lemma KeyExactly(trip: Trip)
    ensures AssessmentKey(trip, 24) == Key(trip.tenant, "assessment-due:" + trip.id + ":T-24:" + trip.departureText)
    ensures AssessmentKey(trip, 6) == Key(trip.tenant, "assessment-due:" + trip.id + ":T-6:" + trip.departureText)
    ensures AssessmentKey(trip, 2) == Key(trip.tenant, "assessment-due:" + trip.id + ":T-2:" + trip.departureText)
  {
    assert ":" + WindowLabel(trip, 24) == ":T-24:" + trip.departureText;
    assert ":" + WindowLabel(trip, 6) == ":T-6:" + trip.departureText;
    assert ":" + WindowLabel(trip, 2) == ":T-2:" + trip.departureText;
  }

  /** Stands for the request hash: the scope and payload themselves, so that different requests differ. */
  function Fingerprint(trip: Trip, hours: int): string {
    AssessmentKey(trip, hours).name
  }

  /** No poll finds two windows of one trip due. */
  lemma OneWindowAtATime(trip: Trip, now: int)
    ensures |DueWindows(trip, now)| <= 1
  {
    FilterSingle(DueAt(trip, now), WINDOWS);
  }

  lemma PrefixCancels(p: string, a: string, b: string)
    requires p + a == p + b
    ensures a == b
  {
    assert a == (p + a)[|p|..];
    assert b == (p + b)[|p|..];
  }

  /** Trip identifiers are 36-character UUIDs, so a key names one trip, one window and one departure. */
  lemma KeysAreDistinct(a: Trip, h: int, b: Trip, k: int)
    requires |a.id| == |b.id| == 36 && h in WINDOWS && k in WINDOWS
    requires AssessmentKey(a, h) == AssessmentKey(b, k)
    ensures a.tenant == b.tenant && a.id == b.id && h == k && a.departureText == b.departureText
  {
    var x, y := ":" + WindowLabel(a, h), ":" + WindowLabel(b, k);
    PrefixCancels("assessment-due:", a.id + x, b.id + y);
    assert a.id == (a.id + x)[..36] && b.id == (b.id + y)[..36];
    PrefixCancels(a.id, x, y);
    assert x[3] == Numeral(h)[0] && y[3] == Numeral(k)[0];
    assert x[4] == (if h == 24 then '4' else ':') && y[4] == (if k == 24 then '4' else ':');
    var n := 3 + |Numeral(h)| + 1;
    assert a.departureText == x[n..] && b.departureText == y[n..];
  }

  /* One poll. */

  datatype Counters = Counters(assessed: nat, replayed: nat, skipped: nat)

  datatype Progress = Progress(sys: System, counters: Counters, aborted: bool)

  function ClaimFor(trip: Trip, hours: int, lifetime: int): Event {
    Claim(AssessmentKey(trip, hours), SCOPE, Fingerprint(trip, hours), lifetime)
  }

  /** Claim one due window and assess it if told to execute. A failed assessment, like a claim in conflict or in
    * progress, is raised and ends the poll. */
  function PollWindow(p: Progress, trip: Trip, hours: int, lifetime: int, failing: set<Key>): Progress {
    var key := AssessmentKey(trip, hours);
    var claimed := Apply(p.sys, ClaimFor(trip, hours, lifetime), true);
    match claimed.log[|p.sys.log|].answer
    case Execute =>
      if key in failing then p.(sys := claimed, aborted := true)
      else p.(sys := Apply(claimed, Complete(|p.sys.log|, Response(200, key.name)), true),
              counters := p.counters.(assessed := p.counters.assessed + 1))
    case Replay => p.(sys := claimed, counters := p.counters.(replayed := p.counters.replayed + 1))
    case _ => p.(sys := claimed, aborted := true)
  }

  function PollWindows(p: Progress, trip: Trip, hours: seq<int>, lifetime: int, failing: set<Key>): Progress {
    if hours == [] then p
    else
      var last := |hours| - 1;
      var before := PollWindows(p, trip, hours[..last], lifetime, failing);
      if before.aborted then before else PollWindow(before, trip, hours[last], lifetime, failing)
  }

  function PollTrip(p: Progress, trip: Trip, enabled: set<string>, lifetime: int, failing: set<Key>): Progress {
    if trip.tenant !in enabled then p.(counters := p.counters.(skipped := p.counters.skipped + 1))
    else PollWindows(p, trip, DueWindows(trip, p.sys.now), lifetime, failing)
  }

  function PollTrips(p: Progress, trips: seq<Trip>, enabled: set<string>, lifetime: int, failing: set<Key>): Progress {
    if trips == [] then p
    else
      var last := |trips| - 1;
      var before := PollTrips(p, trips[..last], enabled, lifetime, failing);
      if before.aborted then before else PollTrip(before, trips[last], enabled, lifetime, failing)
  }

  function Start(sys: System): Progress {
    Progress(sys, Counters(0, 0, 0), false)
  }

  lemma {:induction false} AbortedWindows(
      p: Progress, trip: Trip, hours: seq<int>, n: nat, lifetime: int, failing: set<Key>)
    requires n <= |hours| && PollWindows(p, trip, hours[..n], lifetime, failing).aborted
    ensures PollWindows(p, trip, hours, lifetime, failing) == PollWindows(p, trip, hours[..n], lifetime, failing)
  {
    if n < |hours| {
      var before := hours[..|hours| - 1];
      assert before[..n] == hours[..n];
      AbortedWindows(p, trip, before, n, lifetime, failing);
      assert PollWindows(p, trip, hours, lifetime, failing) == PollWindows(p, trip, before, lifetime, failing);
    } else {
      assert hours[..n] == hours;
    }
  }

  lemma {:induction false} AbortedTrips(
      p: Progress, trips: seq<Trip>, n: nat, enabled: set<string>, lifetime: int, failing: set<Key>)
    requires n <= |trips| && PollTrips(p, trips[..n], enabled, lifetime, failing).aborted
    ensures PollTrips(p, trips, enabled, lifetime, failing) == PollTrips(p, trips[..n], enabled, lifetime, failing)
  {
    if n < |trips| {
      var before := trips[..|trips| - 1];
      assert before[..n] == trips[..n];
      AbortedTrips(p, before, n, enabled, lifetime, failing);
      assert PollTrips(p, trips, enabled, lifetime, failing) == PollTrips(p, before, enabled, lifetime, failing);
    } else {
      assert trips[..n] == trips;
    }
  }

  method ProcessWindows(p: Progress, trip: Trip, hours: seq<int>, lifetime: int, failing: set<Key>)
    returns (result: Progress)
    ensures result == PollWindows(p, trip, hours, lifetime, failing)
  {
    result := p;
    var i := 0;
    while i < |hours|
      invariant 0 <= i <= |hours| && result == PollWindows(p, trip, hours[..i], lifetime, failing)
    {
      assert hours[..i + 1][..i] == hours[..i];
      if result.aborted {
        AbortedWindows(p, trip, hours, i, lifetime, failing);
        return;
      }
      result := PollWindow(result, trip, hours[i], lifetime, failing);
      i := i + 1;
    }
    assert hours[..i] == hours;
  }

  /** The poll as it runs: over the trips, and for each over its due windows, until something is raised. */
  method ProcessDueAssessments(
      sys: System, trips: seq<Trip>, enabled: set<string>, lifetime: int, failing: set<Key>)
    returns (result: Progress)
    ensures result == PollTrips(Start(sys), trips, enabled, lifetime, failing)
  {
    result := Start(sys);
    var i := 0;
    while i < |trips|
      invariant 0 <= i <= |trips| && result == PollTrips(Start(sys), trips[..i], enabled, lifetime, failing)
    {
      assert trips[..i + 1][..i] == trips[..i];
      if result.aborted {
        AbortedTrips(Start(sys), trips, i, enabled, lifetime, failing);
        return;
      }
      if trips[i].tenant !in enabled {
        result := result.(counters := result.counters.(skipped := result.counters.skipped + 1));
      } else {
        result := ProcessWindows(result, trips[i], DueWindows(trips[i], result.sys.now), lifetime, failing);
      }
      i := i + 1;
    }
    assert trips[..i] == trips;
  }

  /* Many polls. */

  /** A poll, and whatever happened to the table since the one before: ticks, purges, other requests. */
  datatype Poll = Poll(between: seq<Event>, trips: seq<Trip>, enabled: set<string>, failing: set<Key>)

  function AtPoll(sys: System, poll: Poll): System {
    RunAll(sys, poll.between, true)
  }

  function RunPoll(sys: System, poll: Poll, lifetime: int): System {
    PollTrips(Start(AtPoll(sys, poll)), poll.trips, poll.enabled, lifetime, poll.failing).sys
  }

  function RunPolls(polls: seq<Poll>, lifetime: int): System {
    if polls == [] then EMPTY
    else RunPoll(RunPolls(polls[..|polls| - 1], lifetime), polls[|polls| - 1], lifetime)
  }

  /** When the n-th poll looks at the clock. */
  function PollTime(polls: seq<Poll>, n: nat, lifetime: int): int
    requires n < |polls|
  {
    AtPoll(RunPolls(polls[..n], lifetime), polls[n]).now
  }

  /** Every version of every trip: an itinerary change gives a trip another departure. */
  ghost predicate WellFormed(fleet: set<Trip>) {
    && (forall t | t in fleet :: |t.id| == 36)
    && (forall t, u | t in fleet && u in fleet && t.departureText == u.departureText :: t.departure == u.departure)
  }

  lemma OneTripPerKey(fleet: set<Trip>, t: Trip, h: int, u: Trip, k: int)
    requires WellFormed(fleet) && t in fleet && u in fleet && h in WINDOWS && k in WINDOWS
    requires AssessmentKey(t, h) == AssessmentKey(u, k)
    ensures t == u && h == k
  {
    KeysAreDistinct(t, h, u, k);
  }

  ghost predicate Watched(fleet: set<Trip>, key: Key) {
    exists t, h :: t in fleet && h in WINDOWS && key == AssessmentKey(t, h)
  }

  /** Nothing but the polls claims or completes an assessment key. */
  ghost predicate Foreign(fleet: set<Trip>, sys: System, e: Event) {
    && (e.Claim? ==> !Watched(fleet, e.key))
    && (e.Complete? && IsExecution(sys, e.execution) ==> !Watched(fleet, sys.log[e.execution].key))
  }

  ghost predicate AllForeign(fleet: set<Trip>, sys: System, events: seq<Event>)
    decreases |events|
  {
    events != [] ==>
      Past(sys, events[0]) && Foreign(fleet, sys, events[0])
      && AllForeign(fleet, Apply(sys, events[0], true), events[1..])
  }

  ghost predicate Orderly(fleet: set<Trip>, polls: seq<Poll>, lifetime: int) {
    polls != [] ==>
      var last := |polls| - 1;
      && Orderly(fleet, polls[..last], lifetime)
      && AllForeign(fleet, RunPolls(polls[..last], lifetime), polls[last].between)
      && forall t | t in polls[last].trips :: t in fleet
  }

  /* At most one execution. */

  /** Entries under a key fall in its window, or no later than the lag after it, and its executions live for the
    * lifetime. */
  ghost predicate InWindow(log: seq<Entry>, trip: Trip, hours: int, lifetime: int, lag: nat) {
    forall i | 0 <= i < |log| && log[i].key == AssessmentKey(trip, hours) ::
      0 <= log[i].at - WindowStart(trip, hours) < GRACE + lag
      && (log[i].answer == Execute ==> log[i].record.expiresAt == log[i].at + lifetime)
  }

  ghost predicate Windowed(fleet: set<Trip>, sys: System, lifetime: int, lag: nat) {
    Sound(sys) && forall t, h | t in fleet && h in WINDOWS :: InWindow(sys.log, t, h, lifetime, lag)
  }

  /** An assessment key is claimed only by a poll that saw its window due, at most the lag before. */
  ghost predicate DueClaim(fleet: set<Trip>, sys: System, e: Event, lifetime: int, lag: nat) {
    e.Claim? && Watched(fleet, e.key) ==>
      exists t, h, seen ::
        t in fleet && h in WINDOWS && e == ClaimFor(t, h, lifetime)
        && IsDue(t, h, seen) && seen <= sys.now <= seen + lag
  }

  ghost predicate AllDue(fleet: set<Trip>, sys: System, events: seq<Event>, lifetime: int, lag: nat)
    decreases |events|
  {
    events != [] ==>
      Past(sys, events[0]) && DueClaim(fleet, sys, events[0], lifetime, lag)
      && AllDue(fleet, Apply(sys, events[0], true), events[1..], lifetime, lag)
  }

  lemma StepWindowed(fleet: set<Trip>, sys: System, e: Event, lifetime: int, lag: nat)
    requires WellFormed(fleet) && Windowed(fleet, sys, lifetime, lag)
    requires Past(sys, e) && DueClaim(fleet, sys, e, lifetime, lag)
    ensures Windowed(fleet, Apply(sys, e, true), lifetime, lag)
  {
    var sys' := Apply(sys, e, true);
    StepSound(sys, e, true);
    forall t, h | t in fleet && h in WINDOWS
      ensures InWindow(sys'.log, t, h, lifetime, lag)
    {
      assert InWindow(sys.log, t, h, lifetime, lag);
      if e.Claim? && e.key == AssessmentKey(t, h) {
        assert Watched(fleet, e.key);
        var u, k, seen :|
          u in fleet && k in WINDOWS && e == ClaimFor(u, k, lifetime)
          && IsDue(u, k, seen) && seen <= sys.now <= seen + lag;
        OneTripPerKey(fleet, t, h, u, k);
      }
    }
  }

  lemma {:induction false} RunWindowed(fleet: set<Trip>, sys: System, events: seq<Event>, lifetime: int, lag: nat)
    requires WellFormed(fleet) && Windowed(fleet, sys, lifetime, lag) && AllDue(fleet, sys, events, lifetime, lag)
    ensures Windowed(fleet, RunAll(sys, events, true), lifetime, lag)
    decreases |events|
  {
    if events != [] {
      StepWindowed(fleet, sys, events[0], lifetime, lag);
      RunWindowed(fleet, Apply(sys, events[0], true), events[1..], lifetime, lag);
    }
  }

  function ExecutionOf(key: Key): Entry -> bool {
    (entry: Entry) => entry.key == key && entry.answer == Execute
  }

  lemma WindowHoldsOne(fleet: set<Trip>, sys: System, trip: Trip, hours: int, lifetime: int, lag: nat)
    requires Windowed(fleet, sys, lifetime, lag) && trip in fleet && hours in WINDOWS && lifetime >= GRACE + lag
    ensures |Filter(ExecutionOf(AssessmentKey(trip, hours)), sys.log)| <= 1
    ensures forall i: nat | IsExecution(sys, i) && sys.log[i].key == AssessmentKey(trip, hours) ::
              |Filter(ExecutionOf(AssessmentKey(trip, hours)), sys.log)| == 1
  {
    var test := ExecutionOf(AssessmentKey(trip, hours));
    assert InWindow(sys.log, trip, hours, lifetime, lag);
    forall i, j | 0 <= i < j < |sys.log|
      ensures !test(sys.log[i]) || !test(sys.log[j])
    {
    }
    FilterSingle(test, sys.log);
    forall i: nat | IsExecution(sys, i) && sys.log[i].key == AssessmentKey(trip, hours)
      ensures |Filter(test, sys.log)| == 1
    {
      assert sys.log[i] in sys.log && test(sys.log[i]);
    }
  }

  /** Each window of a trip is executed at most once, however polls overlap, fail, complete late or never, and
    * whatever else is claimed and purged, when claims outlive the window by the lag between seeing a window due and
    * claiming it. */
  lemma AtMostOnce(fleet: set<Trip>, events: seq<Event>, lifetime: int, lag: nat, trip: Trip, hours: int)
    requires WellFormed(fleet) && AllDue(fleet, EMPTY, events, lifetime, lag) && lifetime >= GRACE + lag
    requires trip in fleet && hours in WINDOWS
    ensures |Filter(ExecutionOf(AssessmentKey(trip, hours)), RunAll(EMPTY, events, true).log)| <= 1
  {
    RunWindowed(fleet, EMPTY, events, lifetime, lag);
    WindowHoldsOne(fleet, RunAll(EMPTY, events, true), trip, hours, lifetime, lag);
  }

  /** Claimed at the start of the window, and again as soon as that claim has run out. */
  function ClaimedTwice(trip: Trip, hours: int, lifetime: int): seq<Event>
    requires WindowStart(trip, hours) >= 0
  {
    var claim := ClaimFor(trip, hours, lifetime);
    [Tick(WindowStart(trip, hours)), claim, Tick(if lifetime > 0 then lifetime else 0), claim]
  }

  lemma ShortLifetime(fleet: set<Trip>, trip: Trip, hours: int, lifetime: int, lag: nat)
    requires trip in fleet && hours in WINDOWS && WindowStart(trip, hours) >= 0 && lifetime < GRACE + lag
    ensures var events := ClaimedTwice(trip, hours, lifetime);
            && AllDue(fleet, EMPTY, events, lifetime, lag)
            && |Filter(ExecutionOf(AssessmentKey(trip, hours)), RunAll(EMPTY, events, true).log)| == 2
  {
    var e0 := ClaimedTwice(trip, hours, lifetime);
    var claim, start := e0[1], WindowStart(trip, hours);
    var e1 := e0[1..];
    var e2 := e1[1..];
    var e3 := e2[1..];
    assert e3 == [claim] && e3[1..] == [];
    var s1 := Apply(EMPTY, e0[0], true);
    var s2 := Apply(s1, claim, true);
    var s3 := Apply(s2, e2[0], true);
    var s4 := Apply(s3, claim, true);
    var seen := if s3.now < start + GRACE then s3.now else start + GRACE - 1;
    assert IsDue(trip, hours, start) && IsDue(trip, hours, seen);
    assert DueClaim(fleet, s1, claim, lifetime, lag) && DueClaim(fleet, s3, claim, lifetime, lag);
    assert RunAll(s3, e3, true) == s4 && AllDue(fleet, s3, e3, lifetime, lag);
    assert RunAll(s2, e2, true) == s4 && AllDue(fleet, s2, e2, lifetime, lag);
    assert RunAll(s1, e1, true) == s4 && AllDue(fleet, s1, e1, lifetime, lag);
    var test := ExecutionOf(AssessmentKey(trip, hours));
    var first, second := s4.log[0], s4.log[1];
    assert s4.log == [first] + [second] && test(first) && test(second);
    FilterAppend(test, [first], [second]);
    assert [first][1..] == [] && [second][1..] == [];
    assert Filter(test, [first]) == [first] && Filter(test, [second]) == [second];
  }

  /** The exact condition: every run executes a window at most once if and only if the lifetime covers grace and lag. */
  lemma AtMostOnceExactly(fleet: set<Trip>, lifetime: int, lag: nat, trip: Trip, hours: int)
    requires WellFormed(fleet) && trip in fleet && hours in WINDOWS && WindowStart(trip, hours) >= 0
    ensures (forall events | AllDue(fleet, EMPTY, events, lifetime, lag) ::
               |Filter(ExecutionOf(AssessmentKey(trip, hours)), RunAll(EMPTY, events, true).log)| <= 1)
       <==> lifetime >= 1_200_000_000 + lag
  {
    if lifetime >= GRACE + lag {
      forall events | AllDue(fleet, EMPTY, events, lifetime, lag)
        ensures |Filter(ExecutionOf(AssessmentKey(trip, hours)), RunAll(EMPTY, events, true).log)| <= 1
      {
        AtMostOnce(fleet, events, lifetime, lag, trip, hours);
      }
    } else {
      ShortLifetime(fleet, trip, hours, lifetime, lag);
    }
  }

  /* Polls stay in the windows. */

  lemma {:induction false} BetweenWindowed(fleet: set<Trip>, sys: System, events: seq<Event>, lifetime: int)
    requires WellFormed(fleet) && Windowed(fleet, sys, lifetime, 0) && AllForeign(fleet, sys, events)
    ensures Windowed(fleet, RunAll(sys, events, true), lifetime, 0)
    decreases |events|
  {
    if events != [] {
      StepWindowed(fleet, sys, events[0], lifetime, 0);
      BetweenWindowed(fleet, Apply(sys, events[0], true), events[1..], lifetime);
    }
  }

  lemma PollWindowWindowed(fleet: set<Trip>, p: Progress, trip: Trip, hours: int, lifetime: int, failing: set<Key>)
    requires WellFormed(fleet) && Windowed(fleet, p.sys, lifetime, 0) && trip in fleet && hours in WINDOWS
    requires IsDue(trip, hours, p.sys.now)
    ensures Windowed(fleet, PollWindow(p, trip, hours, lifetime, failing).sys, lifetime, 0)
    ensures PollWindow(p, trip, hours, lifetime, failing).sys.now == p.sys.now
  {
    var claimed := Apply(p.sys, ClaimFor(trip, hours, lifetime), true);
    StepWindowed(fleet, p.sys, ClaimFor(trip, hours, lifetime), lifetime, 0);
    StepWindowed(fleet, claimed, Complete(|p.sys.log|, Response(200, AssessmentKey(trip, hours).name)), lifetime, 0);
  }

  lemma {:induction false} PollWindowsWindowed(
      fleet: set<Trip>, p: Progress, trip: Trip, hours: seq<int>, lifetime: int, failing: set<Key>)
    requires WellFormed(fleet) && Windowed(fleet, p.sys, lifetime, 0) && trip in fleet
    requires forall h | h in hours :: h in WINDOWS && IsDue(trip, h, p.sys.now)
    ensures Windowed(fleet, PollWindows(p, trip, hours, lifetime, failing).sys, lifetime, 0)
    ensures PollWindows(p, trip, hours, lifetime, failing).sys.now == p.sys.now
  {
    if hours != [] {
      var last := |hours| - 1;
      PollWindowsWindowed(fleet, p, trip, hours[..last], lifetime, failing);
      var before := PollWindows(p, trip, hours[..last], lifetime, failing);
      if !before.aborted {
        PollWindowWindowed(fleet, before, trip, hours[last], lifetime, failing);
      }
    }
  }

  lemma {:induction false} PollTripsWindowed(
      fleet: set<Trip>, p: Progress, trips: seq<Trip>, enabled: set<string>, lifetime: int, failing: set<Key>)
    requires WellFormed(fleet) && Windowed(fleet, p.sys, lifetime, 0) && forall t | t in trips :: t in fleet
    ensures Windowed(fleet, PollTrips(p, trips, enabled, lifetime, failing).sys, lifetime, 0)
    ensures PollTrips(p, trips, enabled, lifetime, failing).sys.now == p.sys.now
  {
    if trips != [] {
      var last := |trips| - 1;
      PollTripsWindowed(fleet, p, trips[..last], enabled, lifetime, failing);
      var before := PollTrips(p, trips[..last], enabled, lifetime, failing);
      FilterMembers(DueAt(trips[last], before.sys.now), WINDOWS);
      if !before.aborted && trips[last].tenant in enabled {
        PollWindowsWindowed(fleet, before, trips[last], DueWindows(trips[last], before.sys.now), lifetime, failing);
      }
    }
  }

  lemma {:induction false} RunPollsWindowed(fleet: set<Trip>, polls: seq<Poll>, lifetime: int)
    requires WellFormed(fleet) && Orderly(fleet, polls, lifetime)
    ensures Windowed(fleet, RunPolls(polls, lifetime), lifetime, 0)
  {
    if polls != [] {
      var last := |polls| - 1;
      RunPollsWindowed(fleet, polls[..last], lifetime);
      BetweenWindowed(fleet, RunPolls(polls[..last], lifetime), polls[last].between, lifetime);
      PollTripsWindowed(fleet, Start(AtPoll(RunPolls(polls[..last], lifetime), polls[last])),
                        polls[last].trips, polls[last].enabled, lifetime, polls[last].failing);
    }
  }

  /* At least one execution, when nothing fails. */

  /** Between polls, every assessment on file has been answered for its own request. */
  ghost predicate Settled(fleet: set<Trip>, sys: System) {
    forall key | Watched(fleet, key) && key in sys.records ::
      sys.records[key].scope == SCOPE && sys.records[key].hash == key.name && sys.records[key].response.Some?
  }

  ghost predicate Executed(sys: System, key: Key) {
    exists i: nat :: IsExecution(sys, i) && sys.log[i].key == key
  }

  ghost predicate Grows(sys: System, sys': System) {
    |sys.log| <= |sys'.log| && forall i :: 0 <= i < |sys.log| ==> sys'.log[i] == sys.log[i]
  }

  ghost predicate Continues(sys: System, sys': System) {
    Sound(sys') && Grows(sys, sys') && sys'.now == sys.now
  }

  lemma ExecutedStays(sys: System, sys': System, key: Key)
    requires Grows(sys, sys') && Executed(sys, key)
    ensures Executed(sys', key)
  {
    var i: nat :| IsExecution(sys, i) && sys.log[i].key == key;
    assert IsExecution(sys', i);
  }

  lemma {:induction false} BetweenSettled(fleet: set<Trip>, sys: System, events: seq<Event>)
    requires Settled(fleet, sys) && AllForeign(fleet, sys, events)
    ensures Settled(fleet, RunAll(sys, events, true)) && Grows(sys, RunAll(sys, events, true))
    decreases |events|
  {
    if events != [] {
      BetweenSettled(fleet, Apply(sys, events[0], true), events[1..]);
    }
  }

  /** An assessment that is made or replayed has been claimed for execution, now or before. */
  lemma ClaimCovers(sys: System, trip: Trip, hours: int, lifetime: int)
    requires Sound(sys)
    ensures var claimed := Apply(sys, ClaimFor(trip, hours, lifetime), true);
            claimed.log[|sys.log|].answer in {Execute, Replay} ==> Executed(claimed, AssessmentKey(trip, hours))
  {
    var key := AssessmentKey(trip, hours);
    var claimed := Apply(sys, ClaimFor(trip, hours, lifetime), true);
    if LiveAt(sys.records, key, sys.now).None? {
      assert IsExecution(claimed, |sys.log|);
    } else {
      var i: nat :| Originates(sys, key, i);
      assert Executed(sys, key) && Grows(sys, claimed);
      ExecutedStays(sys, claimed, key);
    }
  }

  lemma PollWindowCovers(p: Progress, trip: Trip, hours: int, lifetime: int, failing: set<Key>)
    requires Sound(p.sys)
    ensures var p' := PollWindow(p, trip, hours, lifetime, failing);
            && Continues(p.sys, p'.sys)
            && (!p'.aborted ==> Executed(p'.sys, AssessmentKey(trip, hours)))
  {
    var p' := PollWindow(p, trip, hours, lifetime, failing);
    var claimed := Apply(p.sys, ClaimFor(trip, hours, lifetime), true);
    StepSound(p.sys, ClaimFor(trip, hours, lifetime), true);
    StepSound(claimed, Complete(|p.sys.log|, Response(200, AssessmentKey(trip, hours).name)), true);
    ClaimCovers(p.sys, trip, hours, lifetime);
    if Executed(claimed, AssessmentKey(trip, hours)) {
      ExecutedStays(claimed, p'.sys, AssessmentKey(trip, hours));
    }
  }

  lemma PollWindowSettles(fleet: set<Trip>, p: Progress, trip: Trip, hours: int, lifetime: int)
    requires Settled(fleet, p.sys) && !p.aborted && trip in fleet && hours in WINDOWS
    ensures var p' := PollWindow(p, trip, hours, lifetime, {});
            !p'.aborted && Settled(fleet, p'.sys)
  {
    assert Watched(fleet, AssessmentKey(trip, hours));
  }

  /** The windows of a trip that are due are claimed for execution. */
  ghost predicate Covered(sys: System, trip: Trip, enabled: set<string>, now: int) {
    trip.tenant in enabled ==> forall h | h in WINDOWS && IsDue(trip, h, now) :: Executed(sys, AssessmentKey(trip, h))
  }

  lemma CoveredStays(sys: System, sys': System, trip: Trip, enabled: set<string>, now: int)
    requires Grows(sys, sys') && Covered(sys, trip, enabled, now)
    ensures Covered(sys', trip, enabled, now)
  {
    if trip.tenant in enabled {
      forall h | h in WINDOWS && IsDue(trip, h, now)
        ensures Executed(sys', AssessmentKey(trip, h))
      {
        ExecutedStays(sys, sys', AssessmentKey(trip, h));
      }
    }
  }

  lemma {:induction false} PollWindowsCover(p: Progress, trip: Trip, hours: seq<int>, lifetime: int, failing: set<Key>)
    requires Sound(p.sys)
    ensures var p' := PollWindows(p, trip, hours, lifetime, failing);
            && Continues(p.sys, p'.sys)
            && (!p'.aborted ==> forall h | h in hours :: Executed(p'.sys, AssessmentKey(trip, h)))
  {
    if hours != [] {
      var last := |hours| - 1;
      PollWindowsCover(p, trip, hours[..last], lifetime, failing);
      var before := PollWindows(p, trip, hours[..last], lifetime, failing);
      var p' := PollWindows(p, trip, hours, lifetime, failing);
      if !before.aborted {
        PollWindowCovers(before, trip, hours[last], lifetime, failing);
        forall h | h in hours && !p'.aborted
          ensures Executed(p'.sys, AssessmentKey(trip, h))
        {
          if h in hours[..last] {
            ExecutedStays(before.sys, p'.sys, AssessmentKey(trip, h));
          }
        }
      }
    }
  }

  lemma PollTripCovers(p: Progress, trip: Trip, enabled: set<string>, lifetime: int, failing: set<Key>)
    requires Sound(p.sys)
    ensures var p' := PollTrip(p, trip, enabled, lifetime, failing);
            Continues(p.sys, p'.sys) && (!p'.aborted ==> Covered(p'.sys, trip, enabled, p.sys.now))
  {
    FilterMembers(DueAt(trip, p.sys.now), WINDOWS);
    if trip.tenant in enabled {
      PollWindowsCover(p, trip, DueWindows(trip, p.sys.now), lifetime, failing);
    }
  }

  /* What a poll claims and counts. */

  function KeyOf(entry: Entry): Key {
    entry.key
  }

  /** The keys of the due windows of the automated trips, in order. */
  function DueKeys(trips: seq<Trip>, enabled: set<string>, now: int): seq<Key> {
    if trips == [] then []
    else
      var trip := trips[|trips| - 1];
      DueKeys(trips[..|trips| - 1], enabled, now)
      + if trip.tenant in enabled && DueWindows(trip, now) != [] then [AssessmentKey(trip, DueWindows(trip, now)[0])]
        else []
  }

  function IsReplay(entry: Entry): bool {
    entry.answer == Replay
  }

  function Replays(sys: System): nat {
    |Filter(IsReplay, sys.log)|
  }

  function Skipped(trips: seq<Trip>, enabled: set<string>): nat {
    if trips == [] then 0
    else Skipped(trips[..|trips| - 1], enabled) + if trips[|trips| - 1].tenant in enabled then 0 else 1
  }

  ghost predicate Numbered(sys: System) {
    forall i | i in sys.completions :: i < |sys.log|
  }

  /** From one point of a poll to another: the keys claimed, all for assessments; and one assessment counted for each
    * completion, one replay for each replayed claim. */
  ghost predicate Accounts(p: Progress, p': Progress, keys: seq<Key>, skipped: nat) {
    && p'.sys.now == p.sys.now && Numbered(p'.sys) && Grows(p.sys, p'.sys)
    && Map(KeyOf, p'.sys.log) == Map(KeyOf, p.sys.log) + keys
    && (forall i :: |p.sys.log| <= i < |p'.sys.log| ==> p'.sys.log[i].scope == "internal:assessment-due")
    && p'.counters.assessed - p.counters.assessed == |p'.sys.completions| - |p.sys.completions|
    && p'.counters.replayed - p.counters.replayed == Replays(p'.sys) - Replays(p.sys)
    && p'.counters.skipped - p.counters.skipped == skipped
  }

  lemma WindowAccounts(p: Progress, trip: Trip, hours: int, lifetime: int, failing: set<Key>)
    requires Numbered(p.sys)
    ensures Accounts(p, PollWindow(p, trip, hours, lifetime, failing), [AssessmentKey(trip, hours)], 0)
  {
    var p' := PollWindow(p, trip, hours, lifetime, failing);
    var entry := EntryFor(p.sys, ClaimFor(trip, hours, lifetime));
    assert p'.sys.log == p.sys.log + [entry];
    FilterAppend(IsReplay, p.sys.log, [entry]);
    assert [entry][1..] == [];
    assert Map(KeyOf, p.sys.log + [entry]) == Map(KeyOf, p.sys.log) + [entry.key];
    assert |p.sys.log| !in p.sys.completions;
  }

  lemma TripAccounts(p: Progress, trip: Trip, enabled: set<string>, lifetime: int, failing: set<Key>)
    requires Numbered(p.sys) && !p.aborted
    ensures Accounts(p, PollTrip(p, trip, enabled, lifetime, failing), DueKeys([trip], enabled, p.sys.now),
                     if trip.tenant in enabled then 0 else 1)
  {
    var due := DueWindows(trip, p.sys.now);
    OneWindowAtATime(trip, p.sys.now);
    assert [trip][..0] == [] && DueKeys([], enabled, p.sys.now) == [];
    if trip.tenant in enabled && due != [] {
      assert due == [due[0]] && due[..0] == [];
      assert PollWindows(p, trip, due[..0], lifetime, failing) == p;
      WindowAccounts(p, trip, due[0], lifetime, failing);
    } else {
      assert Map(KeyOf, p.sys.log) + [] == Map(KeyOf, p.sys.log);
    }
  }

  ghost predicate AccountsTo(
      p: Progress, trips: seq<Trip>, enabled: set<string>, lifetime: int, failing: set<Key>, n: nat)
    requires n <= |trips|
  {
    var p' := PollTrips(p, trips, enabled, lifetime, failing);
    var reached := if n < |trips| then trips[..n + 1] else trips;
    (p'.aborted <==> n < |trips|) && Accounts(p, p', DueKeys(reached, enabled, p.sys.now), Skipped(reached, enabled))
  }

  /** A poll claims the due windows of the automated trips in order, up to and including the trip it ends at, and its
    * counters are the assessments completed, the claims replayed and the trips skipped. */
  lemma {:induction false} PollAccounts(
      p: Progress, trips: seq<Trip>, enabled: set<string>, lifetime: int, failing: set<Key>)
    requires Numbered(p.sys) && !p.aborted
    ensures AccountsTo(p, trips, enabled, lifetime, failing, Served(p, trips, enabled, lifetime, failing))
  {
    if trips == [] {
      assert Map(KeyOf, p.sys.log) + [] == Map(KeyOf, p.sys.log);
    } else {
      var front := trips[..|trips| - 1];
      PollAccounts(p, front, enabled, lifetime, failing);
      if PollTrips(p, front, enabled, lifetime, failing).aborted {
        var n := Served(p, front, enabled, lifetime, failing);
        assert front[..n + 1] == trips[..n + 1];
      } else {
        NextAccounts(p, trips, enabled, lifetime, failing);
      }
    }
  }

  lemma NextAccounts(p: Progress, trips: seq<Trip>, enabled: set<string>, lifetime: int, failing: set<Key>)
    requires trips != [] && !PollTrips(p, trips[..|trips| - 1], enabled, lifetime, failing).aborted
    requires AccountsTo(p, trips[..|trips| - 1], enabled, lifetime, failing, |trips| - 1)
    ensures AccountsTo(p, trips, enabled, lifetime, failing, Served(p, trips, enabled, lifetime, failing))
  {
    var last := |trips| - 1;
    var before := PollTrips(p, trips[..last], enabled, lifetime, failing);
    TripAccounts(before, trips[last], enabled, lifetime, failing);
    AccountsAdd(p, before, PollTrip(before, trips[last], enabled, lifetime, failing), trips, enabled);
    assert trips[..last + 1] == trips;
  }

  lemma AccountsAdd(p: Progress, before: Progress, p': Progress, trips: seq<Trip>, enabled: set<string>)
    requires trips != []
    requires Accounts(p, before, DueKeys(trips[..|trips| - 1], enabled, p.sys.now),
                      Skipped(trips[..|trips| - 1], enabled))
    requires Accounts(before, p', DueKeys([trips[|trips| - 1]], enabled, p.sys.now),
                      if trips[|trips| - 1].tenant in enabled then 0 else 1)
    ensures Accounts(p, p', DueKeys(trips, enabled, p.sys.now), Skipped(trips, enabled))
  {
    var trip := trips[|trips| - 1];
    assert [trip][..0] == [] && DueKeys([], enabled, p.sys.now) == [];
    assert DueKeys(trips, enabled, p.sys.now)
        == DueKeys(trips[..|trips| - 1], enabled, p.sys.now) + DueKeys([trip], enabled, p.sys.now);
  }

  /* Polls with failures. */

  /** What ends a poll: a claim in conflict or in progress, or an assessment that fails. */
  predicate Stops(sys: System, trip: Trip, hours: int, failing: set<Key>) {
    var key := AssessmentKey(trip, hours);
    var answer := AnswerTo(LiveAt(sys.records, key, sys.now), SCOPE, Fingerprint(trip, hours));
    answer == Conflict || answer == InProgress || (answer == Execute && key in failing)
  }

  predicate Stuck(sys: System, trip: Trip, enabled: set<string>, failing: set<Key>) {
    trip.tenant in enabled && exists h :: h in WINDOWS && IsDue(trip, h, sys.now) && Stops(sys, trip, h, failing)
  }

  lemma TripStops(p: Progress, trip: Trip, enabled: set<string>, lifetime: int, failing: set<Key>)
    requires !p.aborted
    ensures PollTrip(p, trip, enabled, lifetime, failing).aborted <==> Stuck(p.sys, trip, enabled, failing)
  {
    var due := DueWindows(trip, p.sys.now);
    OneWindowAtATime(trip, p.sys.now);
    FilterMembers(DueAt(trip, p.sys.now), WINDOWS);
    if due != [] {
      assert due == [due[0]] && due[..0] == [];
      assert forall h | h in WINDOWS && IsDue(trip, h, p.sys.now) :: h in due && h == due[0];
      WindowStops(p, trip, due[0], lifetime, failing);
      assert PollWindows(p, trip, due[..0], lifetime, failing) == p;
    }
  }

  lemma WindowStops(p: Progress, trip: Trip, hours: int, lifetime: int, failing: set<Key>)
    requires !p.aborted
    ensures PollWindow(p, trip, hours, lifetime, failing).aborted <==> Stops(p.sys, trip, hours, failing)
  {
  }

  /** How many trips a poll gets through before it ends. */
  function Served(p: Progress, trips: seq<Trip>, enabled: set<string>, lifetime: int, failing: set<Key>): (n: nat)
    ensures n <= |trips|
  {
    if trips == [] then 0
    else
      var last := |trips| - 1;
      var before := PollTrips(p, trips[..last], enabled, lifetime, failing);
      if before.aborted then Served(p, trips[..last], enabled, lifetime, failing)
      else if PollTrip(before, trips[last], enabled, lifetime, failing).aborted then last
      else last + 1
  }

  /** Every trip before the n-th is covered, and the n-th, if there is one, is where the poll ended. */
  ghost predicate EndsAt(
      p: Progress, trips: seq<Trip>, enabled: set<string>, lifetime: int, failing: set<Key>, n: nat)
    requires n <= |trips|
  {
    var p' := PollTrips(p, trips, enabled, lifetime, failing);
    && Continues(p.sys, p'.sys)
    && (p'.aborted <==> n < |trips|)
    && !PollTrips(p, trips[..n], enabled, lifetime, failing).aborted
    && (forall t | t in trips[..n] :: Covered(p'.sys, t, enabled, p.sys.now))
    && (n < |trips| ==>
          && p' == PollTrips(p, trips[..n + 1], enabled, lifetime, failing)
          && Stuck(PollTrips(p, trips[..n], enabled, lifetime, failing).sys, trips[n], enabled, failing))
  }

  /** A poll covers every trip listed before the first one that is stuck, ends there, and does nothing for the trips
    * listed after it. */
  lemma {:induction false} PollCoverage(
      p: Progress, trips: seq<Trip>, enabled: set<string>, lifetime: int, failing: set<Key>)
    requires Sound(p.sys) && !p.aborted
    ensures EndsAt(p, trips, enabled, lifetime, failing, Served(p, trips, enabled, lifetime, failing))
  {
    if trips == [] {
      assert trips[..0] == [];
    } else {
      var front := trips[..|trips| - 1];
      PollCoverage(p, front, enabled, lifetime, failing);
      if PollTrips(p, front, enabled, lifetime, failing).aborted {
        EndedBefore(p, trips, enabled, lifetime, failing, Served(p, front, enabled, lifetime, failing));
      } else {
        GoesOn(p, trips, enabled, lifetime, failing);
      }
    }
  }

  lemma EndedBefore(p: Progress, trips: seq<Trip>, enabled: set<string>, lifetime: int, failing: set<Key>, n: nat)
    requires n < |trips| && PollTrips(p, trips[..|trips| - 1], enabled, lifetime, failing).aborted
    requires EndsAt(p, trips[..|trips| - 1], enabled, lifetime, failing, n)
    ensures EndsAt(p, trips, enabled, lifetime, failing, n)
  {
    var front := trips[..|trips| - 1];
    assert front[..n] == trips[..n] && front[..n + 1] == trips[..n + 1] && front[n] == trips[n];
    assert PollTrips(p, trips, enabled, lifetime, failing) == PollTrips(p, front, enabled, lifetime, failing);
  }

  lemma GoesOn(p: Progress, trips: seq<Trip>, enabled: set<string>, lifetime: int, failing: set<Key>)
    requires trips != [] && EndsAt(p, trips[..|trips| - 1], enabled, lifetime, failing, |trips| - 1)
    ensures EndsAt(p, trips, enabled, lifetime, failing, Served(p, trips, enabled, lifetime, failing))
  {
    var last := |trips| - 1;
    var before := PollTrips(p, trips[..last], enabled, lifetime, failing);
    assert trips[..last][..last] == trips[..last] && trips[..last + 1] == trips;
    PollTripCovers(before, trips[last], enabled, lifetime, failing);
    TripStops(before, trips[last], enabled, lifetime, failing);
    LastCovered(before, p, trips, enabled, lifetime, failing);
    assert PollTrips(p, trips, enabled, lifetime, failing) == PollTrip(before, trips[last], enabled, lifetime, failing);
  }

  lemma LastCovered(
      before: Progress, p: Progress, trips: seq<Trip>, enabled: set<string>, lifetime: int, failing: set<Key>)
    requires trips != [] && Sound(before.sys) && !before.aborted
    requires before == PollTrips(p, trips[..|trips| - 1], enabled, lifetime, failing) && before.sys.now == p.sys.now
    requires forall t | t in trips[..|trips| - 1] :: Covered(before.sys, t, enabled, p.sys.now)
    ensures var p' := PollTrips(p, trips, enabled, lifetime, failing);
            && (forall t | t in trips[..|trips| - 1] :: Covered(p'.sys, t, enabled, p.sys.now))
            && (!p'.aborted ==> forall t | t in trips :: Covered(p'.sys, t, enabled, p.sys.now))
  {
    var last := |trips| - 1;
    var p' := PollTrips(p, trips, enabled, lifetime, failing);
    PollTripCovers(before, trips[last], enabled, lifetime, failing);
    forall t | t in trips[..last]
      ensures Covered(p'.sys, t, enabled, p.sys.now)
    {
      CoveredStays(before.sys, p'.sys, t, enabled, p.sys.now);
    }
    assert trips == trips[..last] + [trips[last]];
  }

  /** Nobody completes an execution of the key. */
  ghost predicate LeftOpen(sys: System, events: seq<Event>, key: Key)
    decreases |events|
  {
    events != [] ==>
      && Past(sys, events[0])
      && (events[0].Complete? && IsExecution(sys, events[0].execution) ==> sys.log[events[0].execution].key != key)
      && LeftOpen(Apply(sys, events[0], true), events[1..], key)
  }

  lemma {:induction false} OpenStays(sys: System, events: seq<Event>, key: Key)
    requires LeftOpen(sys, events, key) && key in sys.records
    requires RunAll(sys, events, true).now < sys.records[key].expiresAt
    ensures key in RunAll(sys, events, true).records
    ensures RunAll(sys, events, true).records[key] == sys.records[key]
    decreases |events|
  {
    if events != [] {
      TimePasses(Apply(sys, events[0], true), events[1..]);
      OpenStays(Apply(sys, events[0], true), events[1..], key);
    }
  }

  lemma {:induction false} TimePasses(sys: System, events: seq<Event>)
    ensures RunAll(sys, events, true).now >= sys.now
    decreases |events|
  {
    if events != [] {
      TimePasses(Apply(sys, events[0], true), events[1..]);
    }
  }

  /** A failed assessment leaves its claim open, and while the claim lives the trip stops every poll of the window. */
  lemma FailureBlocks(
      p: Progress, trip: Trip, hours: int, lifetime: int, failing: set<Key>, events: seq<Event>,
      enabled: set<string>, failing': set<Key>)
    requires !p.aborted && hours in WINDOWS && trip.tenant in enabled && AssessmentKey(trip, hours) in failing
    requires LiveAt(p.sys.records, AssessmentKey(trip, hours), p.sys.now).None?
    requires var failed := PollWindow(p, trip, hours, lifetime, failing).sys;
             && LeftOpen(failed, events, AssessmentKey(trip, hours))
             && RunAll(failed, events, true).now < p.sys.now + lifetime
             && IsDue(trip, hours, RunAll(failed, events, true).now)
    ensures var failed := PollWindow(p, trip, hours, lifetime, failing);
            failed.aborted && Stuck(RunAll(failed.sys, events, true), trip, enabled, failing')
  {
    var failed := PollWindow(p, trip, hours, lifetime, failing).sys;
    OpenStays(failed, events, AssessmentKey(trip, hours));
    assert Stops(RunAll(failed, events, true), trip, hours, failing');
  }

  /* Polls without failures. */

  lemma {:induction false} PollTripsSettle(
      fleet: set<Trip>, p: Progress, trips: seq<Trip>, enabled: set<string>, lifetime: int)
    requires Settled(fleet, p.sys) && !p.aborted && forall t | t in trips :: t in fleet
    ensures var p' := PollTrips(p, trips, enabled, lifetime, {});
            !p'.aborted && Settled(fleet, p'.sys)
  {
    if trips != [] {
      var last := |trips| - 1;
      PollTripsSettle(fleet, p, trips[..last], enabled, lifetime);
      var before := PollTrips(p, trips[..last], enabled, lifetime, {});
      FilterMembers(DueAt(trips[last], before.sys.now), WINDOWS);
      PollWindowsSettle(fleet, before, trips[last], DueWindows(trips[last], before.sys.now), lifetime);
    }
  }

  lemma {:induction false} PollWindowsSettle(fleet: set<Trip>, p: Progress, trip: Trip, hours: seq<int>, lifetime: int)
    requires Settled(fleet, p.sys) && !p.aborted && trip in fleet && forall h | h in hours :: h in WINDOWS
    ensures var p' := PollWindows(p, trip, hours, lifetime, {});
            !p'.aborted && Settled(fleet, p'.sys)
  {
    if hours != [] {
      var last := |hours| - 1;
      PollWindowsSettle(fleet, p, trip, hours[..last], lifetime);
      PollWindowSettles(fleet, PollWindows(p, trip, hours[..last], lifetime, {}), trip, hours[last], lifetime);
    }
  }

  lemma PollSettles(fleet: set<Trip>, before: System, poll: Poll, lifetime: int)
    requires WellFormed(fleet) && Windowed(fleet, before, lifetime, 0) && Settled(fleet, before)
    requires AllForeign(fleet, before, poll.between) && (forall t | t in poll.trips :: t in fleet)
    requires poll.failing == {}
    ensures var sys := RunPoll(before, poll, lifetime);
            && Settled(fleet, sys) && Grows(before, sys)
            && forall t | t in poll.trips :: Covered(sys, t, poll.enabled, AtPoll(before, poll).now)
  {
    var p := Start(AtPoll(before, poll));
    BetweenWindowed(fleet, before, poll.between, lifetime);
    BetweenSettled(fleet, before, poll.between);
    PollTripsSettle(fleet, p, poll.trips, poll.enabled, lifetime);
    PollCoverage(p, poll.trips, poll.enabled, lifetime, {});
    var n := Served(p, poll.trips, poll.enabled, lifetime, {});
    assert poll.trips[..n] == poll.trips;
  }

  ghost predicate NoFailures(polls: seq<Poll>) {
    forall p | p in polls :: p.failing == {}
  }

  /** Poll n finds the window due, and has the trip on its list and its tenant automated. */
  ghost predicate Reaches(polls: seq<Poll>, n: nat, lifetime: int, trip: Trip, hours: int) {
    && n < |polls| && IsDue(trip, hours, PollTime(polls, n, lifetime))
    && trip in polls[n].trips && trip.tenant in polls[n].enabled
  }

  lemma ReachesInPrefix(polls: seq<Poll>, n: nat, lifetime: int, trip: Trip, hours: int)
    requires n < |polls| - 1
    ensures Reaches(polls[..|polls| - 1], n, lifetime, trip, hours) <==> Reaches(polls, n, lifetime, trip, hours)
  {
    assert polls[..|polls| - 1][..n] == polls[..n];
  }

  lemma {:induction false} PollsSettle(fleet: set<Trip>, polls: seq<Poll>, lifetime: int, trip: Trip, hours: int)
    requires WellFormed(fleet) && Orderly(fleet, polls, lifetime) && NoFailures(polls) && hours in WINDOWS
    ensures Settled(fleet, RunPolls(polls, lifetime))
    ensures forall n: nat | Reaches(polls, n, lifetime, trip, hours) ::
              Executed(RunPolls(polls, lifetime), AssessmentKey(trip, hours))
  {
    if polls != [] {
      var last := |polls| - 1;
      var before, sys := RunPolls(polls[..last], lifetime), RunPolls(polls, lifetime);
      PollsSettle(fleet, polls[..last], lifetime, trip, hours);
      RunPollsWindowed(fleet, polls[..last], lifetime);
      assert polls[last] in polls;
      PollSettles(fleet, before, polls[last], lifetime);
      forall n: nat | Reaches(polls, n, lifetime, trip, hours)
        ensures Executed(sys, AssessmentKey(trip, hours))
      {
        if n < last {
          ReachesInPrefix(polls, n, lifetime, trip, hours);
          ExecutedStays(before, sys, AssessmentKey(trip, hours));
        } else {
          assert Covered(sys, trip, polls[last].enabled, AtPoll(before, polls[last]).now);
        }
      }
    }
  }

  /* Where executions come from. */

  /** No new entry is about the key. */
  ghost predicate Spares(sys: System, sys': System, key: Key) {
    forall entry | entry in sys'.log && entry.key == key :: entry in sys.log
  }

  lemma {:induction false} BetweenSpares(fleet: set<Trip>, sys: System, events: seq<Event>, key: Key)
    requires AllForeign(fleet, sys, events) && Watched(fleet, key)
    ensures Spares(sys, RunAll(sys, events, true), key)
    decreases |events|
  {
    if events != [] {
      BetweenSpares(fleet, Apply(sys, events[0], true), events[1..], key);
    }
  }

  lemma {:induction false} PollWindowsSpare(
      p: Progress, trip: Trip, hours: seq<int>, lifetime: int, failing: set<Key>, key: Key)
    ensures var p' := PollWindows(p, trip, hours, lifetime, failing);
            p'.sys.now == p.sys.now
            && (Spares(p.sys, p'.sys, key) || exists h :: h in hours && AssessmentKey(trip, h) == key)
  {
    if hours != [] {
      var last := |hours| - 1;
      PollWindowsSpare(p, trip, hours[..last], lifetime, failing, key);
      assert hours[last] in hours && forall h | h in hours[..last] :: h in hours;
    }
  }

  lemma {:induction false} PollTripsSpare(
      fleet: set<Trip>, p: Progress, trips: seq<Trip>, enabled: set<string>, lifetime: int, failing: set<Key>,
      trip: Trip, hours: int)
    requires WellFormed(fleet) && (forall t | t in trips :: t in fleet) && trip in fleet && hours in WINDOWS
    ensures var p' := PollTrips(p, trips, enabled, lifetime, failing);
            p'.sys.now == p.sys.now
            && (Spares(p.sys, p'.sys, AssessmentKey(trip, hours))
                || (trip in trips && trip.tenant in enabled && IsDue(trip, hours, p.sys.now)))
  {
    if trips != [] {
      var last := |trips| - 1;
      var t, key := trips[last], AssessmentKey(trip, hours);
      PollTripsSpare(fleet, p, trips[..last], enabled, lifetime, failing, trip, hours);
      var before := PollTrips(p, trips[..last], enabled, lifetime, failing);
      var due := DueWindows(t, before.sys.now);
      FilterMembers(DueAt(t, before.sys.now), WINDOWS);
      PollWindowsSpare(before, t, due, lifetime, failing, key);
      assert t in trips && forall u | u in trips[..last] :: u in trips;
      if h :| h in due && AssessmentKey(t, h) == key {
        OneTripPerKey(fleet, t, h, trip, hours);
      }
    }
  }

  lemma {:induction false} EntriesComeFromPolls(
      fleet: set<Trip>, polls: seq<Poll>, lifetime: int, trip: Trip, hours: int)
    requires WellFormed(fleet) && Orderly(fleet, polls, lifetime) && trip in fleet && hours in WINDOWS
    ensures forall entry | entry in RunPolls(polls, lifetime).log && entry.key == AssessmentKey(trip, hours) ::
              exists n: nat :: Reaches(polls, n, lifetime, trip, hours)
  {
    if polls != [] {
      var last, key := |polls| - 1, AssessmentKey(trip, hours);
      var before := RunPolls(polls[..last], lifetime);
      var at := AtPoll(before, polls[last]);
      EntriesComeFromPolls(fleet, polls[..last], lifetime, trip, hours);
      assert Watched(fleet, key);
      BetweenSpares(fleet, before, polls[last].between, key);
      PollTripsSpare(fleet, Start(at), polls[last].trips, polls[last].enabled, lifetime, polls[last].failing,
                     trip, hours);
      if Spares(before, RunPolls(polls, lifetime), key) {
        if n: nat :| Reaches(polls[..last], n, lifetime, trip, hours) {
          ReachesInPrefix(polls, n, lifetime, trip, hours);
          assert Reaches(polls, n, lifetime, trip, hours);
        }
      } else {
        assert Reaches(polls, last, lifetime, trip, hours);
      }
    }
  }

  /** When nothing fails and claims outlive the window, a window of a trip, as it then departs, is executed exactly
    * once if some poll inside the window lists it, and never otherwise. */
  lemma ExecutedExactly(fleet: set<Trip>, polls: seq<Poll>, lifetime: int, trip: Trip, hours: int)
    requires WellFormed(fleet) && Orderly(fleet, polls, lifetime) && lifetime >= GRACE && NoFailures(polls)
    requires trip in fleet && hours in WINDOWS
    ensures |Filter(ExecutionOf(AssessmentKey(trip, hours)), RunPolls(polls, lifetime).log)|
         == if exists n: nat :: Reaches(polls, n, lifetime, trip, hours) then 1 else 0
  {
    var sys, key := RunPolls(polls, lifetime), AssessmentKey(trip, hours);
    if exists n: nat :: Reaches(polls, n, lifetime, trip, hours) {
      PollsSettle(fleet, polls, lifetime, trip, hours);
      RunPollsWindowed(fleet, polls, lifetime);
      WindowHoldsOne(fleet, sys, trip, hours, lifetime, 0);
      var i: nat :| IsExecution(sys, i) && sys.log[i].key == key;
    } else {
      EntriesComeFromPolls(fleet, polls, lifetime, trip, hours);
      FilterNone(ExecutionOf(key), sys.log);
    }
  }

  /** The first poll at or after the start of a window falls inside it, if polls are close enough together. */
  lemma {:induction false} SomePollIsDue(polls: seq<Poll>, lifetime: int, trip: Trip, hours: int, n: nat)
    requires n < |polls| && PollTime(polls, 0, lifetime) <= WindowStart(trip, hours) <= PollTime(polls, n, lifetime)
    requires forall i: nat | 0 < i < |polls| ::
               PollTime(polls, i, lifetime) <= PollTime(polls, i - 1, lifetime) + GRACE
    ensures exists k: nat :: k < |polls| && IsDue(trip, hours, PollTime(polls, k, lifetime))
  {
    if n == 0 || PollTime(polls, n - 1, lifetime) < WindowStart(trip, hours) {
      assert IsDue(trip, hours, PollTime(polls, n, lifetime));
    } else {
      SomePollIsDue(polls, lifetime, trip, hours, n - 1);
    }
  }

  /** Every poll that finds the window due lists the trip, and its tenant is automated. */
  ghost predicate ListedWhenDue(polls: seq<Poll>, lifetime: int, trip: Trip, hours: int) {
    forall n: nat | n < |polls| ::
      0 <= PollTime(polls, n, lifetime) - (trip.departure - hours * 3_600_000_000) < 1_200_000_000 ==>
        trip in polls[n].trips && trip.tenant in polls[n].enabled
  }

  lemma PollInWindow(polls: seq<Poll>, lifetime: int, trip: Trip, hours: int) returns (n: nat)
    requires polls != []
    requires PollTime(polls, 0, lifetime) <= trip.departure - hours * 3_600_000_000
             <= PollTime(polls, |polls| - 1, lifetime)
    requires forall i: nat | 0 < i < |polls| ::
               PollTime(polls, i, lifetime) <= PollTime(polls, i - 1, lifetime) + 1_200_000_000
    ensures n < |polls| && IsDue(trip, hours, PollTime(polls, n, lifetime))
  {
    assert WindowStart(trip, hours) == trip.departure - hours * 3_600_000_000 && GRACE == 1_200_000_000;
    SomePollIsDue(polls, lifetime, trip, hours, |polls| - 1);
    n :| n < |polls| && IsDue(trip, hours, PollTime(polls, n, lifetime));
  }

  /** When the polls span the start of a window with gaps of at most twenty minutes, claims live at least as long,
    * nothing fails, and the trip departs as it does while the window lasts, the window is assessed exactly once. */
  lemma ExactlyOnce(fleet: set<Trip>, polls: seq<Poll>, lifetime: int, trip: Trip, hours: int)
    requires WellFormed(fleet) && Orderly(fleet, polls, lifetime) && lifetime >= 1_200_000_000 && NoFailures(polls)
    requires trip in fleet && hours in {24, 6, 2} && ListedWhenDue(polls, lifetime, trip, hours) && polls != []
    requires PollTime(polls, 0, lifetime) <= trip.departure - hours * 3_600_000_000
             <= PollTime(polls, |polls| - 1, lifetime)
    requires forall i: nat | 0 < i < |polls| ::
               PollTime(polls, i, lifetime) <= PollTime(polls, i - 1, lifetime) + 1_200_000_000
    ensures |Filter(ExecutionOf(AssessmentKey(trip, hours)), RunPolls(polls, lifetime).log)| == 1
  {
    var n := PollInWindow(polls, lifetime, trip, hours);
    assert Reaches(polls, n, lifetime, trip, hours);
    ExecutedExactly(fleet, polls, lifetime, trip, hours);
  }
}
