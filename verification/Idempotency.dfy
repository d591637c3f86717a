/** Durable idempotency claims with a lifetime (apps/api/repository.py, apps/api/main.py). */
module Idempotency {
  import opened Options

  datatype Key = Key(tenant: string, name: string)

  datatype Response = Response(statusCode: int, payload: string)

  /** A record is in progress until it has a response. */
  datatype Record = Record(scope: string, hash: string, expiresAt: int, response: Option<Response>)

  datatype Answer = Execute | Replay | Conflict | InProgress

  type Records = map<Key, Record>

  /** The record that still counts. */
  function LiveAt(records: Records, key: Key, now: int): Option<Record> {
    if key in records && records[key].expiresAt > now then Some(records[key]) else None
  }

  function AnswerTo(live: Option<Record>, scope: string, hash: string): Answer {
    if live.None? then Execute
    else if live.value.scope != scope || live.value.hash != hash then Conflict
    else if live.value.response.Some? then Replay
    else InProgress
  }

  /** How a claim is answered: by the record on file while it has time left, and otherwise with leave to execute. */
  lemma AnswersExactly(records: Records, key: Key, scope: string, hash: string, now: int)
    ensures var answer := AnswerTo(LiveAt(records, key, now), scope, hash);
            if key !in records || records[key].expiresAt <= now then answer == Execute
            else if records[key].scope != scope || records[key].hash != hash then answer == Conflict
            else if records[key].response == None then answer == InProgress
            else answer == Replay
  {
  }

  function ClaimRecord(records: Records, key: Key, scope: string, hash: string, expiresAt: int, now: int): Record {
    LiveAt(records, key, now).GetOr(Record(scope, hash, expiresAt, None))
  }

  function CompleteRecords(records: Records, key: Key, hash: string, response: Response): Records {
    if key in records && records[key].hash == hash then
      records[key := records[key].(response := Some(response))]
    else records
  }

  function PurgeRecords(records: Records, before: int): Records {
    map key | key in records && records[key].expiresAt >= before :: records[key]
  }

  class Ledger {
    var records: Records

    constructor ()
      ensures records == map[]
    {
      records := map[];
    }

    /** Only an execution is recorded; every other answer leaves the table as it was. */
    method Claim(key: Key, scope: string, hash: string, expiresAt: int, now: int)
      returns (answer: Answer, record: Record)
      modifies this
      ensures answer == AnswerTo(LiveAt(old(records), key, now), scope, hash)
      ensures record == ClaimRecord(old(records), key, scope, hash, expiresAt, now)
      ensures records == if answer == Execute then old(records)[key := record] else old(records)
    {
      var existing := if key in records then Some(records[key]) else None;
      if existing.Some? && existing.value.expiresAt <= now {
        existing := None;
        records := records - {key};
      }
      if existing.None? {
        record := Record(scope, hash, expiresAt, None);
        records := records[key := record];
        assert records == old(records)[key := record];
        return Execute, record;
      }
      record := existing.value;
      if record.scope != scope || record.hash != hash {
        return Conflict, record;
      }
      answer := if record.response.Some? then Replay else InProgress;
    }

    method Complete(key: Key, hash: string, response: Response) returns (found: bool)
      modifies this
      ensures found <==> key in old(records) && old(records)[key].hash == hash
      ensures records == CompleteRecords(old(records), key, hash, response)
    {
      if key !in records || records[key].hash != hash {
        return false;
      }
      records := records[key := records[key].(response := Some(response))];
      found := true;
    }

    method Purge(before: int)
      modifies this
      ensures records == PurgeRecords(old(records), before)
    {
      records := map key | key in records && records[key].expiresAt >= before :: records[key];
    }
  }

  /* Runs. */

  /** One answered claim: who asked what, when, and the record that decided it. */
  datatype Entry = Entry(key: Key, at: int, scope: string, hash: string, answer: Answer, record: Record)

  datatype System = System(records: Records, now: int, log: seq<Entry>, completions: map<nat, Response>)

  /** A completion names the execution it belongs to by its place in the log. */
  datatype Event =
    | Tick(elapsed: nat)
    | Claim(key: Key, scope: string, hash: string, lifetime: int)
    | Complete(execution: nat, response: Response)
    | Purge(before: int)

  const EMPTY := System(map[], 0, [], map[])

  predicate IsExecution(sys: System, i: nat) {
    i < |sys.log| && sys.log[i].answer == Execute
  }

  function EntryFor(sys: System, e: Event): Entry
    requires e.Claim?
  {
    Entry(e.key, sys.now, e.scope, e.hash,
          AnswerTo(LiveAt(sys.records, e.key, sys.now), e.scope, e.hash),
          ClaimRecord(sys.records, e.key, e.scope, e.hash, sys.now + e.lifetime, sys.now))
  }

  function Apply(sys: System, e: Event, purging: bool): System {
    match e
    case Tick(elapsed) => sys.(now := sys.now + elapsed)
    case Claim(key, _, _, _) =>
      var entry := EntryFor(sys, e);
      sys.(records := if entry.answer == Execute then sys.records[key := entry.record] else sys.records,
           log := sys.log + [entry])
    case Complete(i, response) =>
      if IsExecution(sys, i) then
        sys.(records := CompleteRecords(sys.records, sys.log[i].key, sys.log[i].hash, response),
             completions := if i in sys.completions then sys.completions else sys.completions[i := response])
      else sys
    case Purge(before) => if purging then sys.(records := PurgeRecords(sys.records, before)) else sys
  }

  function RunAll(sys: System, events: seq<Event>, purging: bool): System
    decreases |events|
  {
    if events == [] then sys else RunAll(Apply(sys, events[0], purging), events[1..], purging)
  }

  /** Purges remove only what has already run out. */
  predicate Past(sys: System, e: Event) {
    e.Purge? ==> e.before <= sys.now
  }

  /** An executor completes once, while its own claim is alive. */
  predicate Prompt(sys: System, e: Event) {
    e.Complete? ==>
      && IsExecution(sys, e.execution) && e.execution !in sys.completions
      && sys.now < sys.log[e.execution].record.expiresAt
  }

  /** A completion that cannot answer for anything but its own execution: it finds no live record of its request, or
    * the record already holds this very response, or the record is its own and it is the first to complete it. */
  predicate Harmless(sys: System, e: Event) {
    e.Complete? && IsExecution(sys, e.execution) ==>
      var entry := sys.log[e.execution];
      var live := LiveAt(sys.records, entry.key, sys.now);
      || live.None? || live.value.hash != entry.hash || live.value.response == Some(e.response)
      || (sys.now < entry.record.expiresAt && e.execution !in sys.completions)
  }

  lemma PromptIsHarmless(sys: System, e: Event)
    requires Prompt(sys, e)
    ensures Harmless(sys, e)
  {
  }

  ghost predicate AllPast(sys: System, events: seq<Event>, purging: bool)
    decreases |events|
  {
    events != [] ==> Past(sys, events[0]) && AllPast(Apply(sys, events[0], purging), events[1..], purging)
  }

  ghost predicate AllPrompt(sys: System, events: seq<Event>, purging: bool)
    decreases |events|
  {
    events != [] ==> Prompt(sys, events[0]) && AllPrompt(Apply(sys, events[0], purging), events[1..], purging)
  }

  ghost predicate AllHarmless(sys: System, events: seq<Event>, purging: bool)
    decreases |events|
  {
    events != [] ==> Harmless(sys, events[0]) && AllHarmless(Apply(sys, events[0], purging), events[1..], purging)
  }

  lemma {:induction false} AllPromptIsHarmless(sys: System, events: seq<Event>, purging: bool)
    requires AllPrompt(sys, events, purging)
    ensures AllHarmless(sys, events, purging)
    decreases |events|
  {
    if events != [] {
      PromptIsHarmless(sys, events[0]);
      AllPromptIsHarmless(Apply(sys, events[0], purging), events[1..], purging);
    }
  }

  /* Invariants. */

  ghost predicate SameClaim(a: Record, b: Record) {
    a.scope == b.scope && a.hash == b.hash && a.expiresAt == b.expiresAt
  }

  /** While an execution's record is alive it is the one on file. */
  ghost predicate Held(sys: System, i: nat)
    requires i < |sys.log|
  {
    var entry := sys.log[i];
    entry.answer == Execute && entry.record.expiresAt > sys.now ==>
      entry.key in sys.records && SameClaim(sys.records[entry.key], entry.record)
  }

  ghost predicate Originates(sys: System, key: Key, i: nat)
    requires key in sys.records
  {
    IsExecution(sys, i) && sys.log[i].key == key && SameClaim(sys.records[key], sys.log[i].record)
  }

  ghost predicate Apart(log: seq<Entry>) {
    forall i, j | 0 <= i < j < |log| && log[i].answer == Execute && log[j].answer == Execute
                  && log[i].key == log[j].key :: log[i].record.expiresAt <= log[j].at
  }

  ghost predicate Chronological(sys: System) {
    forall i, j :: 0 <= i <= j < |sys.log| ==> sys.log[i].at <= sys.log[j].at <= sys.now
  }

  ghost predicate AllHeld(sys: System) {
    forall i: nat | i < |sys.log| :: Held(sys, i)
  }

  ghost predicate AllOriginate(sys: System) {
    forall key | key in sys.records :: exists i: nat :: Originates(sys, key, i)
  }

  ghost predicate AllAsAsked(sys: System) {
    forall i: nat | IsExecution(sys, i) ::
      sys.log[i].record == Record(sys.log[i].scope, sys.log[i].hash, sys.log[i].record.expiresAt, None)
  }

  ghost predicate Sound(sys: System) {
    Chronological(sys) && Apart(sys.log) && AllHeld(sys) && AllOriginate(sys) && AllAsAsked(sys)
  }

  lemma ClaimHeld(sys: System, e: Event, purging: bool)
    requires AllHeld(sys) && e.Claim?
    ensures AllHeld(Apply(sys, e, purging))
  {
    var sys' := Apply(sys, e, purging);
    forall i: nat | i < |sys'.log|
      ensures Held(sys', i)
    {
      assert i < |sys.log| ==> sys'.log[i] == sys.log[i] && Held(sys, i);
    }
  }

  lemma ClaimApart(sys: System, e: Event, purging: bool)
    requires AllHeld(sys) && Apart(sys.log) && e.Claim?
    ensures Apart(Apply(sys, e, purging).log)
  {
    var log := Apply(sys, e, purging).log;
    forall i, j | 0 <= i < j < |log| && log[i].answer == Execute && log[j].answer == Execute
                  && log[i].key == log[j].key
      ensures log[i].record.expiresAt <= log[j].at
    {
      assert log[i] == sys.log[i] && Held(sys, i);
      assert j < |sys.log| ==> log[j] == sys.log[j];
    }
  }

  lemma ClaimOriginates(sys: System, e: Event, purging: bool)
    requires AllOriginate(sys) && e.Claim?
    ensures AllOriginate(Apply(sys, e, purging))
  {
    var sys' := Apply(sys, e, purging);
    var n := |sys.log|;
    forall key | key in sys'.records
      ensures exists i: nat :: Originates(sys', key, i)
    {
      if sys'.log[n].answer == Execute && key == e.key {
        assert Originates(sys', key, n);
      } else {
        var i: nat :| Originates(sys, key, i);
        assert sys'.log[i] == sys.log[i];
        assert Originates(sys', key, i);
      }
    }
  }

  lemma ClaimSound(sys: System, e: Event, purging: bool)
    requires Sound(sys) && e.Claim?
    ensures Sound(Apply(sys, e, purging))
  {
    ClaimHeld(sys, e, purging);
    ClaimApart(sys, e, purging);
    ClaimOriginates(sys, e, purging);
    assert forall i :: 0 <= i < |sys.log| ==> Apply(sys, e, purging).log[i] == sys.log[i];
  }

  /** Records only change by gaining a response or by being removed after they have run out. */
  ghost predicate Ages(sys: System, sys': System) {
    && sys'.log == sys.log && sys'.now >= sys.now
    && (forall key | key in sys'.records :: key in sys.records && SameClaim(sys'.records[key], sys.records[key]))
    && (forall key | key in sys.records && sys.records[key].expiresAt > sys'.now :: key in sys'.records)
  }

  lemma OtherAges(sys: System, e: Event, purging: bool)
    requires !e.Claim? && Past(sys, e)
    ensures Ages(sys, Apply(sys, e, purging))
  {
  }

  lemma AgesSound(sys: System, sys': System)
    requires Sound(sys) && Ages(sys, sys')
    ensures Sound(sys')
  {
    forall i: nat | i < |sys'.log|
      ensures Held(sys', i)
    {
      assert Held(sys, i);
    }
    forall key | key in sys'.records
      ensures exists i: nat :: Originates(sys', key, i)
    {
      var i: nat :| Originates(sys, key, i);
      assert Originates(sys', key, i);
    }
  }

  lemma StepSound(sys: System, e: Event, purging: bool)
    requires Sound(sys) && Past(sys, e)
    ensures Sound(Apply(sys, e, purging))
  {
    if e.Claim? {
      ClaimSound(sys, e, purging);
    } else {
      OtherAges(sys, e, purging);
      AgesSound(sys, Apply(sys, e, purging));
    }
  }

  lemma {:induction false} RunSound(sys: System, events: seq<Event>, purging: bool)
    requires Sound(sys) && AllPast(sys, events, purging)
    ensures Sound(RunAll(sys, events, purging))
    decreases |events|
  {
    if events != [] {
      StepSound(sys, events[0], purging);
      RunSound(Apply(sys, events[0], purging), events[1..], purging);
    }
  }

  /** Two executions of one key are separated by the earlier record's expiry. */
  lemma ExecutionsApart(events: seq<Event>, i: nat, j: nat)
    requires AllPast(EMPTY, events, true)
    requires var log := RunAll(EMPTY, events, true).log;
             i < j < |log| && log[i].answer == Execute && log[j].answer == Execute && log[i].key == log[j].key
    ensures var log := RunAll(EMPTY, events, true).log;
            log[i].record.expiresAt <= log[j].at
  {
    RunSound(EMPTY, events, true);
  }

  /* Replays. */

  /** The response on file of a live execution is the one its executor gave. */
  ghost predicate Answered(sys: System, i: nat)
    requires IsExecution(sys, i)
  {
    var entry := sys.log[i];
    entry.record.expiresAt > sys.now && entry.key in sys.records ==>
      sys.records[entry.key].response
      == if i in sys.completions then Some(sys.completions[i]) else None
  }

  /** Entry j replays what execution i, still alive, completed with. */
  ghost predicate Replays(sys: System, j: nat, i: nat)
    requires j < |sys.log|
  {
    var entry := sys.log[j];
    && i < j && IsExecution(sys, i) && sys.log[i].key == entry.key
    && sys.log[i].scope == entry.scope && sys.log[i].hash == entry.hash
    && entry.at < sys.log[i].record.expiresAt
    && i in sys.completions && entry.record.response == Some(sys.completions[i])
  }

  ghost predicate Faithful(sys: System) {
    AllAnswered(sys) && AllReplayed(sys) && forall i | i in sys.completions :: IsExecution(sys, i)
  }

  lemma LiveUnique(sys: System, i: nat, j: nat)
    requires Sound(sys) && IsExecution(sys, i) && IsExecution(sys, j) && sys.log[i].key == sys.log[j].key
    requires sys.log[i].record.expiresAt > sys.now && sys.log[j].record.expiresAt > sys.now
    ensures i == j
  {
  }

  lemma ReplaysKept(sys: System, sys': System, j: nat, i: nat)
    requires j < |sys.log| && Replays(sys, j, i)
    requires |sys.log| <= |sys'.log| && forall k :: 0 <= k < |sys.log| ==> sys'.log[k] == sys.log[k]
    requires forall k | k in sys.completions :: k in sys'.completions && sys'.completions[k] == sys.completions[k]
    ensures Replays(sys', j, i)
  {
  }

  ghost predicate AllAnswered(sys: System) {
    forall i: nat | IsExecution(sys, i) :: Answered(sys, i)
  }

  ghost predicate AllReplayed(sys: System) {
    forall j: nat | j < |sys.log| && sys.log[j].answer == Replay :: exists i: nat :: Replays(sys, j, i)
  }

  lemma AllReplayedKept(sys: System, sys': System)
    requires AllReplayed(sys) && sys'.log == sys.log
    requires forall k | k in sys.completions :: k in sys'.completions && sys'.completions[k] == sys.completions[k]
    ensures AllReplayed(sys')
  {
    forall j: nat | j < |sys'.log| && sys'.log[j].answer == Replay
      ensures exists i: nat :: Replays(sys', j, i)
    {
      var i: nat :| Replays(sys, j, i);
      ReplaysKept(sys, sys', j, i);
    }
  }

  lemma ClaimAnswered(sys: System, e: Event, purging: bool)
    requires AllHeld(sys) && Faithful(sys) && e.Claim?
    ensures AllAnswered(Apply(sys, e, purging))
  {
    var sys' := Apply(sys, e, purging);
    forall i: nat | IsExecution(sys', i)
      ensures Answered(sys', i)
    {
      assert i < |sys.log| ==> sys'.log[i] == sys.log[i] && IsExecution(sys, i) && Answered(sys, i) && Held(sys, i);
    }
  }

  lemma ClaimReplayed(sys: System, e: Event, purging: bool)
    requires Sound(sys) && Faithful(sys) && e.Claim?
    ensures AllReplayed(Apply(sys, e, purging))
  {
    var sys' := Apply(sys, e, purging);
    var n := |sys.log|;
    assert forall k :: 0 <= k < n ==> sys'.log[k] == sys.log[k];
    forall j: nat | j < |sys'.log| && sys'.log[j].answer == Replay
      ensures exists i: nat :: Replays(sys', j, i)
    {
      if j < n {
        var i: nat :| Replays(sys, j, i);
        ReplaysKept(sys, sys', j, i);
      } else {
        var i: nat :| Originates(sys, e.key, i);
        assert Answered(sys, i);
        assert Replays(sys', j, i);
      }
    }
  }

  lemma CompleteFaithful(sys: System, e: Event, purging: bool)
    requires Sound(sys) && Faithful(sys) && e.Complete? && Harmless(sys, e)
    ensures Faithful(Apply(sys, e, purging))
  {
    var sys' := Apply(sys, e, purging);
    forall i: nat | IsExecution(sys', i)
      ensures Answered(sys', i)
    {
      if IsExecution(sys, e.execution) {
        CompleteAnswered(sys, e, purging, i);
      } else {
        assert Answered(sys, i);
      }
    }
    AllReplayedKept(sys, sys');
  }

  lemma CompleteAnswered(sys: System, e: Event, purging: bool, i: nat)
    requires Sound(sys) && AllAnswered(sys) && e.Complete? && Harmless(sys, e)
    requires IsExecution(sys, e.execution) && IsExecution(sys, i)
    ensures Answered(Apply(sys, e, purging), i)
  {
    assert Held(sys, e.execution) && Held(sys, i) && Answered(sys, i) && Answered(sys, e.execution);
    if sys.log[i].record.expiresAt > sys.now && sys.log[i].key == sys.log[e.execution].key
       && sys.log[e.execution].record.expiresAt > sys.now {
      LiveUnique(sys, i, e.execution);
    }
  }

  /** A harmful completion shows at once: the next claim of the same request is answered with a response that no
    * live execution of it gave. */
  lemma HarmIsSeen(sys: System, e: Event, purging: bool, lifetime: int)
    requires Sound(sys) && Faithful(sys) && !Harmless(sys, e)
    ensures var entry, sys' := sys.log[e.execution], Apply(sys, e, purging);
            var live := LiveAt(sys.records, entry.key, sys.now);
            && live.Some? && live.value.response != Some(e.response)
            && (var seen := Apply(sys', Claim(entry.key, live.value.scope, entry.hash, lifetime), purging);
                var n := |sys.log|;
                && |seen.log| == n + 1 && seen.log[n].answer == Replay
                && seen.log[n].record.response == Some(e.response)
                && forall i: nat :: !Replays(seen, n, i))
  {
    var entry, sys' := sys.log[e.execution], Apply(sys, e, purging);
    var live := LiveAt(sys.records, entry.key, sys.now).value;
    var seen := Apply(sys', Claim(entry.key, live.scope, entry.hash, lifetime), purging);
    forall i: nat
      ensures !Replays(seen, |sys.log|, i)
    {
      if IsExecution(sys, i) && sys.log[i].key == entry.key && sys.now < sys.log[i].record.expiresAt {
        assert seen.log[i] == sys.log[i] && Held(sys, i) && Answered(sys, i);
        if sys.now < entry.record.expiresAt {
          LiveUnique(sys, i, e.execution);
        }
      }
    }
  }

  lemma OtherFaithful(sys: System, e: Event, purging: bool)
    requires Sound(sys) && Faithful(sys) && (e.Tick? || e.Purge?)
    ensures Faithful(Apply(sys, e, purging))
  {
    var sys' := Apply(sys, e, purging);
    forall i: nat | IsExecution(sys', i)
      ensures Answered(sys', i)
    {
      assert Answered(sys, i);
    }
    AllReplayedKept(sys, sys');
  }

  lemma ClaimFaithful(sys: System, e: Event, purging: bool)
    requires Sound(sys) && Faithful(sys) && e.Claim?
    ensures Faithful(Apply(sys, e, purging))
  {
    ClaimAnswered(sys, e, purging);
    ClaimReplayed(sys, e, purging);
    assert forall i: nat | IsExecution(sys, i) :: Apply(sys, e, purging).log[i] == sys.log[i];
  }

  lemma StepFaithful(sys: System, e: Event, purging: bool)
    requires Sound(sys) && Faithful(sys) && Harmless(sys, e)
    ensures Faithful(Apply(sys, e, purging))
  {
    match e
    case Claim(_, _, _, _) => ClaimFaithful(sys, e, purging);
    case Complete(_, _) => CompleteFaithful(sys, e, purging);
    case _ => OtherFaithful(sys, e, purging);
  }

  /** The exact condition: a step keeps the records faithful if and only if it is harmless. */
  lemma FaithfulExactly(sys: System, e: Event, purging: bool)
    requires Sound(sys) && Past(sys, e) && Faithful(sys)
    ensures Faithful(Apply(sys, e, purging)) <==> Harmless(sys, e)
  {
    if Harmless(sys, e) {
      StepFaithful(sys, e, purging);
    } else {
      var sys' := Apply(sys, e, purging);
      var entry := sys.log[e.execution];
      var claim := Claim(entry.key, LiveAt(sys.records, entry.key, sys.now).value.scope, entry.hash, 0);
      HarmIsSeen(sys, e, purging, 0);
      StepSound(sys, e, purging);
      NextClaimReplays(sys', claim, purging);
      assert !AllReplayed(Apply(sys', claim, purging));
    }
  }

  lemma NextClaimReplays(sys: System, e: Event, purging: bool)
    requires Sound(sys) && e.Claim?
    ensures Faithful(sys) ==> AllReplayed(Apply(sys, e, purging))
  {
    if Faithful(sys) {
      ClaimReplayed(sys, e, purging);
    }
  }

  lemma {:induction false} RunFaithful(sys: System, events: seq<Event>, purging: bool)
    requires Sound(sys) && Faithful(sys)
    requires AllPast(sys, events, purging) && AllHarmless(sys, events, purging)
    ensures Sound(RunAll(sys, events, purging)) && Faithful(RunAll(sys, events, purging))
    decreases |events|
  {
    if events != [] {
      StepSound(sys, events[0], purging);
      StepFaithful(sys, events[0], purging);
      RunFaithful(Apply(sys, events[0], purging), events[1..], purging);
    }
  }

  /** At every point of a run, whatever is claimed next, all replays are faithful. */
  ghost predicate AlwaysReplays(sys: System, events: seq<Event>, purging: bool)
    decreases |events|
  {
    && (forall e: Event | e.Claim? :: AllReplayed(Apply(sys, e, purging)))
    && (events != [] ==> AlwaysReplays(Apply(sys, events[0], purging), events[1..], purging))
  }

  lemma {:induction false} HarmlessRuns(sys: System, events: seq<Event>, purging: bool)
    requires Sound(sys) && Faithful(sys) && AllPast(sys, events, purging)
    ensures AlwaysReplays(sys, events, purging) <==> AllHarmless(sys, events, purging)
    decreases |events|
  {
    forall e: Event | e.Claim?
      ensures AllReplayed(Apply(sys, e, purging))
    {
      ClaimReplayed(sys, e, purging);
    }
    if events != [] {
      var e, sys' := events[0], Apply(sys, events[0], purging);
      StepSound(sys, e, purging);
      if Harmless(sys, e) {
        StepFaithful(sys, e, purging);
        HarmlessRuns(sys', events[1..], purging);
      } else {
        HarmIsSeen(sys, e, purging, 0);
        var entry := sys.log[e.execution];
        var claim := Claim(entry.key, LiveAt(sys.records, entry.key, sys.now).value.scope, entry.hash, 0);
        assert !AllReplayed(Apply(sys', claim, purging));
      }
    }
  }

  /** No claim of a run, nor any that could be made along the way, is ever answered with a response that its one live
    * execution did not give, if and only if every completion of the run is harmless. */
  lemma ReplaysFaithfulExactly(events: seq<Event>)
    requires AllPast(EMPTY, events, true)
    ensures AlwaysReplays(EMPTY, events, true) <==> AllHarmless(EMPTY, events, true)
  {
    HarmlessRuns(EMPTY, events, true);
  }

  /** In a run of harmless completions every replay returns to the same request what its one live execution completed
    * with; so replays with no execution in between agree. */
  lemma ReplaysAreFaithful(events: seq<Event>, j: nat, k: nat)
    requires AllPast(EMPTY, events, true) && AllHarmless(EMPTY, events, true)
    requires var log := RunAll(EMPTY, events, true).log;
             j < |log| && k < |log| && log[j].answer == Replay && log[k].answer == Replay
    ensures exists i: nat :: Replays(RunAll(EMPTY, events, true), j, i)
    ensures var log := RunAll(EMPTY, events, true).log;
            j <= k && log[j].key == log[k].key
            && (forall i :: j < i < k && log[i].key == log[j].key ==> log[i].answer != Execute) ==>
              log[j].record.response == log[k].record.response
  {
    RunFaithful(EMPTY, events, true);
    var sys := RunAll(EMPTY, events, true);
    var i: nat :| Replays(sys, j, i);
    var i': nat :| Replays(sys, k, i');
    if j <= k && sys.log[j].key == sys.log[k].key
       && forall m :: j < m < k && sys.log[m].key == sys.log[j].key ==> sys.log[m].answer != Execute {
      assert i' < j;
      SameOrigin(sys, i, i', j, k);
    }
  }

  lemma SameOrigin(sys: System, i: nat, i': nat, j: nat, k: nat)
    requires Chronological(sys) && Apart(sys.log) && i < j <= k < |sys.log| && i' < j
    requires IsExecution(sys, i) && IsExecution(sys, i') && sys.log[i].key == sys.log[i'].key
    requires sys.log[j].at < sys.log[i].record.expiresAt && sys.log[k].at < sys.log[i'].record.expiresAt
    ensures i == i'
  {
  }

  const JOB := Key("acme", "job")
  const LATE: seq<Event> :=
    [Claim(JOB, "s", "h", 10), Tick(20), Claim(JOB, "s", "h", 10), Complete(0, Response(200, "first")),
     Claim(JOB, "s", "h", 10), Complete(1, Response(200, "second")), Claim(JOB, "s", "h", 10)]

  /** A harmful run: an executor that outlives its claim answers for its successor. */
  lemma LateCompletionLeaks()
    ensures AllPast(EMPTY, LATE, true) && !AllHarmless(EMPTY, LATE, true)
    ensures var log := RunAll(EMPTY, LATE, true).log;
            && |log| == 4 && log[2].answer == Replay && log[3].answer == Replay
            && log[2].record.response == Some(Response(200, "first"))
            && log[3].record.response == Some(Response(200, "second"))
  {
    LateIsHarmful();
    var r1, r2 := LATE[1..], LATE[1..][1..];
    var r3 := r2[1..];
    var r4 := r3[1..];
    var r5 := r4[1..];
    var r6 := r5[1..];
    assert r6[1..] == [];
    var s1 := Apply(EMPTY, LATE[0], true);
    var s2 := Apply(s1, r1[0], true);
    var s3 := Apply(s2, r2[0], true);
    var s4 := Apply(s3, r3[0], true);
    var s5 := Apply(s4, r4[0], true);
    var s6 := Apply(s5, r5[0], true);
    var s7 := Apply(s6, r6[0], true);
    assert RunAll(s6, r6, true) == s7 && AllPast(s6, r6, true);
    assert RunAll(s5, r5, true) == s7 && AllPast(s5, r5, true);
    assert RunAll(s4, r4, true) == s7 && AllPast(s4, r4, true);
    assert RunAll(s3, r3, true) == s7 && AllPast(s3, r3, true);
    assert RunAll(s2, r2, true) == s7 && AllPast(s2, r2, true);
    assert RunAll(s1, r1, true) == s7 && AllPast(s1, r1, true);
  }

  lemma LateIsHarmful()
    ensures !AllHarmless(EMPTY, LATE, true)
  {
    var r1 := LATE[1..];
    var r2 := r1[1..];
    var r3 := r2[1..];
    var s1 := Apply(EMPTY, LATE[0], true);
    var s2 := Apply(s1, r1[0], true);
    var s3 := Apply(s2, r2[0], true);
    assert !Harmless(s3, r3[0]) && !AllHarmless(s3, r3, true);
    assert !AllHarmless(s2, r2, true) && !AllHarmless(s1, r1, true);
  }

  /* Purging. */

  /** A purge can be noticed by a later claim exactly when it takes a record that was still alive. */
  lemma PurgeVisibility(records: Records, before: int, now: int)
    ensures (forall key, scope, hash ::
               AnswerTo(LiveAt(PurgeRecords(records, before), key, now), scope, hash)
               == AnswerTo(LiveAt(records, key, now), scope, hash))
       <==> (forall key | key in records :: !(now < records[key].expiresAt < before))
  {
    var purged := PurgeRecords(records, before);
    if key :| key in records && now < records[key].expiresAt < before {
      var r := records[key];
      assert AnswerTo(LiveAt(purged, key, now), r.scope, r.hash) == Execute;
      assert AnswerTo(LiveAt(records, key, now), r.scope, r.hash) != Execute;
    }
  }

  /** Purging again later is purging later. */
  lemma RecordPurgesCompose(records: Records, before: int, before': int)
    requires before <= before'
    ensures PurgeRecords(PurgeRecords(records, before), before') == PurgeRecords(records, before')
  {
  }

  /** Two stores that no claim can tell apart. */
  ghost predicate Alike(a: System, b: System) {
    && a.now == b.now && a.log == b.log && a.completions == b.completions
    && forall key :: LiveAt(a.records, key, a.now) == LiveAt(b.records, key, b.now)
  }

  lemma StepAlike(a: System, b: System, e: Event)
    requires Alike(a, b) && Past(a, e)
    ensures Alike(Apply(a, e, true), Apply(b, e, false))
  {
    var a', b' := Apply(a, e, true), Apply(b, e, false);
    if e.Claim? {
      assert EntryFor(a, e) == EntryFor(b, e);
    }
    forall key
      ensures LiveAt(a'.records, key, a'.now) == LiveAt(b'.records, key, b'.now)
    {
      assert LiveAt(a.records, key, a.now) == LiveAt(b.records, key, b.now);
    }
  }

  /** A store that is purged of past records answers every claim as one that is never purged. */
  lemma {:induction false} PurgingIsInvisible(a: System, b: System, events: seq<Event>)
    requires Alike(a, b) && AllPast(a, events, true)
    ensures RunAll(a, events, true).log == RunAll(b, events, false).log
    ensures Alike(RunAll(a, events, true), RunAll(b, events, false))
    decreases |events|
  {
    if events != [] {
      StepAlike(a, b, events[0]);
      PurgingIsInvisible(Apply(a, events[0], true), Apply(b, events[0], false), events[1..]);
    }
  }
}
