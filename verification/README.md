# RouteShield: a verified model

RouteShield watches business trips, scores disruption risk, investigates incidents with a bounded graph, ranks
alternatives, and queues messages and actions that a manager has approved. This project models the deterministic core
of that workflow and the in-memory repository under it, and proves what holds over every input and every run.

`dafny verify dfyconfig.toml` checks the whole project.

| file | what it models |
|---|---|
| `Outbox.dfy`, `OutboxRuns.dfy` | leased delivery of notifications and approved actions: claim, send, commit under a claim; then every interleaving of workers, clock, acknowledgements and erasures |
| `Idempotency.dfy`, `Schedule.dfy` | idempotency records with a lifetime; monitoring windows and polls on top of them |
| `Retention.dfy`, `Purge.dfy`, `Privacy.dfy`, `Repository.dfy` | erasure, retention purge, legal holds and deletion requests over some twenty linked tables, as transformations of a database value and as the class that updates the tables in place |
| `Graph.dfy` | the investigation graph, node by node, with the language model as an adversary |
| `Recovery.dfy`, `Outcomes.dfy` | candidate evaluation, policy, ranking; the append-only outcome log and its projected view |
| `Risk.dfy`, `Assessment.dfy` | the weighted risk score; from evidence to score, disposition and graph route |
| `RateLimit.dfy` | the process-local sliding window and the Redis fixed window |
| `Seqs.dfy`, `Options.dfy`, `Rounding.dfy` | filtering, sorting, order and rounding (half to even) used by the others |

## How it is stated

- Code that changes state is a class whose methods are specified by functions on the state's value: `Outbox.Table`,
  `Idempotency.Ledger`, `Outcomes.OutcomeLog`, `Repository.InMemoryRepository` and both rate limiters. The properties
  are proved about those functions, so the methods have them too.
- Concurrency is a state machine: each body under a lock is one step, and workers keep copies between steps.
- Time is an integer number of microseconds. A fresh UUID is the next number of a counter.
- The language model, the message sender, the manager's answer, the collected flights, and whether an assessment or an
  erasure fails are parameters about which nothing is assumed.
- Scores, costs and weights are exact decimals.
- What an operation answers is also stated case by case, in the numbers of the source and without the functions that
  compute it, so that both readings have to agree: the results whose names end in `Exactly`, and with them
  `Risk.SeverityBands`, `Recovery.RankedBestFirst`, `Outcomes.ViewShowsLast`, `Outcomes.ViewNamesSelection`,
  `Purge.TripStays`, `Purge.MemoryStays`, `Purge.FilesStay`, `Purge.HistoryStays`, `Purge.DependentsStay` and
  `Schedule.PollAccounts`.

## What was found

Several expected properties hold only under a condition. Each is stated with its exact condition, and with an input or a
run that breaks it.

- `Assessment.DispositionSurvives`: losing evidence never raises a score, but it can lower a disposition. It cannot, for
  any loss, if and only if no usable number is negative and the disposition is Monitor, or two core sources are out
  already, or the floor carries it: the score left when every retained core source keeps its lowest usable item alone,
  with no further core source lost and, if all are there, with any one of them.
  `Assessment.DegradationCanLowerDisposition` takes a trip out of investigation;
  `Assessment.DegradationCanUndoReview` undoes a human review that was called for.
- `Idempotency.ReplaysFaithfulExactly`: a completion is matched by key and request hash only. Replays are faithful
  throughout a run if and only if each of its completions, when it is made, finds no live record of its request, or finds
  its own response there already, or is the first of an execution whose record is still alive. Completing once and in
  time is enough for that. `Idempotency.HarmIsSeen`: any other completion is seen by the next claim.
  `Idempotency.LateCompletionLeaks` is such a run.
- `Idempotency.PurgeVisibility`: a purge changes an answer if and only if it removes a record that is still alive.
- `Schedule.AtMostOnceExactly`: a poll reads the clock before it claims. With any overlap of polls, a window is executed
  at most once if and only if claims live at least twenty minutes plus the longest time from seeing a window due to
  claiming it.
- `Schedule.FailureBlocks`, `Schedule.PollCoverage`: a failed assessment leaves its claim open, so each later poll in the
  window stops at that trip. A poll covers the trips listed before the first one that is stuck and does nothing for
  those after it.
- `OutboxRuns.LateAcknowledgementRevives`: an acknowledgement that read its notification before an erasure and saves after
  it brings the erased notification back.
- `Purge.SegmentsMayDangle`: the retention purge leaves trip segments behind. They refer to existing trips if and only if
  no removed trip had any.
- `RateLimit.RedisBound`, `RateLimit.RedisOverrun`: the Redis window is truncated to whole seconds. The bound of twice the
  limit holds for a configured window up to one tick longer than the counted one and fails, at three times the limit,
  beyond that.

## Model

| member | source | states |
|---|---|---|
| Outbox.DelayDoubles | apps/api/notifications.py:46-49 | the wait is one minute after the first attempt and doubles after each later one, capped at an hour |
| Outbox.AttemptExactly | apps/api/notifications.py:68-113 | reply by reply: delivered if and only if the reply says so, failed if and only if not and this is the fifth attempt, otherwise retried after 1, 2, 4 or 8 minutes, with the error and the attempt record each reply calls for and nothing else of the row changed |
| Outbox.EligibleExactly | apps/api/repository.py:436-448 | a claim may lease exactly the rows of its tenant that are queued or to be retried, due, and under no running lease, in table order |
| Outbox.Table.constructor | apps/api/repository.py:47-66 | the table starts empty |
| Outbox.Table.ClaimDueRows | apps/api/repository.py:425-462 | the walk over the table leases exactly the first eligible rows, up to the limit, in insertion order, and returns their leased copies |
| Outbox.Table.CompleteAttempt | apps/api/repository.py:464-485 | the commit stores row and attempt and drops the lease if the claim still holds the row; otherwise it answers None and changes nothing |
| Outbox.Table.SaveRow | apps/api/repository.py:412-414 | a new row joins at the end of the table, a known one is replaced where it stands |
| Outbox.Table.AppendAttempt | apps/api/repository.py:487-491 | one attempt joins the end of the row's attempts |
| Outbox.Table.AcknowledgeRow | apps/api/main.py:2992-3005 | accepted for delivered and acknowledged rows only, and changes only a delivered one |
| Outbox.Table.RemoveRows | apps/api/repository.py:721-730 | erasure removes the rows with their attempts and keeps all others in order |
| Outbox.Table.DeliverOnce | apps/api/notifications.py:52-116 | one worker's attempt: nothing unless its copy is ready, else success, retry with delay, or failure at the fifth attempt, committed under the claim when there is one |
| Outbox.ClaimEffect | apps/api/repository.py:335-373 | a claim gives every row of its batch a lease with its own new claim id, hands out copies equal to the stored rows, and touches no other row |
| Outbox.ClaimConsumesBatch | apps/api/repository.py:436-462 | with a positive lease time the claimed rows are exactly those that stop being eligible |
| Outbox.ClaimsPartitionEligible | apps/api/repository.py:436-462 | repeated claims at one instant take consecutive disjoint slices of the eligible rows; n rows are gone after exactly ceil(n / limit) calls |
| OutboxRuns.StepConsistent | apps/api/repository.py:442-458 | no lost update: across every step a leased row still equals the copy handed out with its lease |
| OutboxRuns.StepLogged | apps/api/repository.py:476-484 | every step keeps that each claim has committed at most once and that no lease in force has committed |
| OutboxRuns.StepExclusive | apps/api/repository.py:440-441 | every step keeps that a live claim holds its row, if the row is still there, and shares it with no other live claim |
| OutboxRuns.StepLedgers | apps/api/notifications.py:68-113 | every step keeps all rows in agreement with their attempts |
| OutboxRuns.LeasesExclude | apps/api/repository.py:425-485 | in every run a row has at most one live claim, and each claim commits at most once |
| OutboxRuns.FinishIsFenced | apps/api/repository.py:375-397 | a worker's late commit changes nothing when the row is erased or leased anew, and otherwise updates the very row it copied |
| OutboxRuns.LedgerAgrees | apps/api/actions.py:53-98 | in every run the attempts of a row are its commits, numbered 1 to its attempt count, at most five, all but the last retried and the last as the status says |
| OutboxRuns.LateAcknowledgementRevives | apps/api/main.py:2968-3005 | reading before and saving after another step equals the one-step acknowledgement if and only if the row was not erased in between; if it was, the row returns with no attempts and its ledger no longer agrees |
| OutboxRuns.TerminalAbsorbs | apps/api/actions.py:53-55 | in every run a terminal row keeps status and count, but for delivered becoming acknowledged, and an erased row never returns |
| OutboxRuns.RetriesTakeTime | apps/api/notifications.py:68-97 | in every run attempt n + 1 is at least the first n delays after the first attempt; five attempts to failure take 15 minutes or more |
| Idempotency.Ledger.constructor | apps/api/repository.py:47-66 | no records at first |
| Idempotency.Ledger.Claim | apps/api/repository.py:133-164 | execute records the claim; conflict, replay and in-progress answer from the live record and change nothing |
| Idempotency.AnswersExactly | apps/api/repository.py:143-163 | execute without a record that has time left; else conflict on another scope or hash, in progress without a response, and replay with one |
| Idempotency.Ledger.Complete | apps/api/repository.py:166-184 | a response is stored only under a record of the same request hash; otherwise nothing changes |
| Idempotency.Ledger.Purge | apps/api/repository.py:885-889 | records that ran out before the cutoff go, the others stay |
| Idempotency.ExecutionsApart | apps/api/repository.py:146-163 | in every run two executions of one key are separated by the earlier record's expiry |
| Idempotency.PromptIsHarmless | apps/api/main.py:287-301 | completing once, while one's own claim is alive, is harmless |
| Idempotency.FaithfulExactly | apps/api/repository.py:166-184 | a step keeps every live record equal to what its own execution gave, and every replay so far faithful, if and only if it is harmless |
| Idempotency.HarmIsSeen | apps/api/repository.py:148-184 | after a harmful completion the next claim of the request is answered with a response that no live execution of it gave |
| Idempotency.ReplaysFaithfulExactly | apps/api/repository.py:133-184 | all replays of a run, and all that could be asked for along the way, are faithful if and only if every completion is harmless |
| Idempotency.ReplaysAreFaithful | apps/api/repository.py:148-156 | in a run of harmless completions all replays of one live record match its scope and hash and return the response its executor gave |
| Idempotency.LateCompletionLeaks | apps/api/repository.py:175-184 | a run in which an executor that outlived its claim supplies the response of the next execution |
| Idempotency.RecordPurgesCompose | apps/api/repository.py:885-889 | purging records at one cutoff and then at a later one is purging them at the later one |
| Idempotency.PurgeVisibility | apps/api/repository.py:885-889 | some claim is answered differently after a purge if and only if the purge removed a live record |
| Idempotency.PurgingIsInvisible | apps/api/repository.py:885-889 | a store purged of past records gives every claim of every run the same answer as one never purged |
| Schedule.OneWindowAtATime | workers/monitor_due_trips.py:20-30 | no instant lies in two windows of one trip |
| Schedule.DueExactly | workers/monitor_due_trips.py:20-30 | in microseconds, a window is due exactly in the twenty minutes from 24, 6 or 2 hours before departure, hence never after it |
| Schedule.KeyExactly | workers/monitor_due_trips.py:16-30 | the text of the key of each window |
| Schedule.KeysAreDistinct | workers/monitor_due_trips.py:16-17 | equal assessment keys come from one tenant, one trip, one window and one departure |
| Schedule.ProcessWindows | apps/api/main.py:607-646 | the loop claims and completes the due windows of one trip in order and stops at the first thing raised, as the poll function says |
| Schedule.ProcessDueAssessments | apps/api/main.py:598-647 | the loop over all trips skips tenants without automation, and ends with the claims, completions and three counters of the poll function |
| Schedule.PollAccounts | apps/api/main.py:598-647 | a poll claims the due windows of automated trips in order, up to the trip it ends at; its counters are the completions made, the claims replayed and the trips skipped |
| Schedule.StepWindowed | apps/api/main.py:607-618 | any single claim, completion, purge or tick keeps every entry of an assessment key inside its window and lag |
| Schedule.AtMostOnce | apps/api/main.py:598-618 | over any interleaving of due claims by overlapping polls, late or missing completions, purges and other claims, a window is executed at most once when claims outlive grace and lag |
| Schedule.AtMostOnceExactly | apps/api/main.py:260-271 | every such interleaving executes a window at most once if and only if the lifetime is at least grace plus lag |
| Schedule.TripStops | apps/api/main.py:277-284 | a poll ends at a trip if and only if a due window of it is in conflict, in progress, or fails |
| Schedule.PollCoverage | apps/api/main.py:598-647 | a poll covers every automated trip listed before the first stuck one, ends there, and does nothing for the later ones |
| Schedule.FailureBlocks | apps/api/main.py:611-634 | after a failed assessment the trip stops every poll while its claim is alive and nobody completes it |
| Schedule.EntriesComeFromPolls | apps/api/main.py:607-618 | an assessment key is in the log only if a poll inside its window listed the trip with its tenant automated |
| Schedule.ExecutedExactly | apps/api/main.py:598-647 | without failures and with a lifetime of at least twenty minutes, a window of a trip as it then departs is executed once if some poll inside the window lists it, and otherwise never |
| Schedule.SomePollIsDue | workers/monitor_due_trips.py:20-30 | polls at most twenty minutes apart that span the start of a window include one inside it |
| Schedule.ExactlyOnce | apps/api/main.py:598-647 | with such polls, no failure, a lifetime of at least twenty minutes, and the trip listed while the window lasts, the window is executed exactly once, whatever the trip's itinerary was before or is afterwards |
| Retention.EraseRemovesAll | apps/api/repository.py:649-731 | after erasing all data nothing of the owner is left in any table, nor any row under the owner's trips and incidents |
| Retention.EraseExactly | apps/api/repository.py:664-731 | for each table, the rows an erasure of all data leaves, and that they are unchanged |
| Retention.EraseKeepsMemoryOf | apps/api/repository.py:649-663 | the profiles and proposals an erasure leaves, and that the memory scope changes nothing else |
| Retention.EraseKeepsOthers | apps/api/repository.py:664-731 | every other owner keeps each trip with its whole closure, and profile, proposals and notifications |
| Retention.EraseIsIdempotent | apps/api/repository.py:649-731 | erasing twice is erasing once, and the second counts are all zero |
| Retention.ErasesCommute | apps/api/repository.py:649-731 | any two erasures, of any owners and scopes, may be done in either order |
| Retention.EraseCountsAreExact | apps/api/repository.py:654-690 | each reported count is what its table lost |
| Purge.TripStays | apps/api/repository.py:747-774 | a trip stays if and only if it is no older than the cutoff or under an unreleased, unexpired hold of its tenant, its traveler or itself |
| Purge.MemoryStays | apps/api/repository.py:837-850 | the same for profiles and proposals, with holds of the tenant or the traveler |
| Purge.FilesStay | apps/api/repository.py:851-872 | uploads stay by their own cutoff or under a hold of the tenant; notifications by age alone, with their attempts |
| Purge.HistoryStays | apps/api/repository.py:881-884 | of both histories everything since the audit cutoff stays, in order and as often as before; segments, holds and requests stay |
| Purge.DependentsStay | apps/api/repository.py:815-836 | what hangs on a trip or an incident stays if and only if that does |
| Purge.PurgeKeepsLinks | apps/api/repository.py:745-850 | a purge leaves no dangling reference among the dependent tables |
| Purge.EraseKeepsLinks | apps/api/repository.py:649-731 | nor does an erasure |
| Purge.SegmentsMayDangle | apps/api/repository.py:815-818 | after a purge the segments refer to existing trips if and only if no removed trip had segments |
| Purge.HoldsOnlyLapse | apps/api/repository.py:747-766 | what no active hold covers at one time is covered by none later, holds being unchanged |
| Purge.PurgesCompose | apps/api/repository.py:733-890 | a purge followed by one with later cutoffs equals the later one alone |
| Purge.PurgeCountsAreExact | apps/api/repository.py:767-814 | each reported count is the decrease in its table |
| Privacy.BlocksExactly | apps/api/repository.py:595-613 | the holds that block an erasure: unreleased, unexpired, of the tenant, and of tenant scope, this traveler, or a trip of the traveler |
| Privacy.RequestExactly | workers/privacy.py:22-48 | blocked with the holds named if there are any, else failed if the erasure raises, else completed now; the data is erased in the last case only and no other request changes |
| Privacy.HoldsStable | workers/privacy.py:23-26 | handling one request does not change which holds block another |
| Privacy.RequestsCommute | workers/privacy.py:22-48 | two requests may be handled in either order |
| Privacy.OrderDoesNotMatter | workers/privacy.py:22-48 | a deletion run ends in the same state for every order of its requests |
| Privacy.PurgeKeepsHeldTrip | apps/api/repository.py:747-781 | a purge leaves a held trip and its closure as they were |
| Privacy.PurgeKeepsHeldMemory | apps/api/repository.py:819-838 | a purge leaves profile and proposals of an owner under a tenant or traveler hold |
| Privacy.HoldsPreserve | workers/privacy.py:21-49 | while a hold is in force no interleaving of purges, deletion runs, new requests and other holds changes a held trip, its closure, or a held owner's profile and proposals |
| Repository.InMemoryRepository.DeleteTravelerMemory | apps/api/repository.py:294-303 | profile and proposals go, and the counts are what was there |
| Repository.InMemoryRepository.EraseTravelerData | apps/api/repository.py:649-731 | the tables end as the erasure function says, and the counts as the count function says |
| Repository.InMemoryRepository.PurgeExpiredRecords | apps/api/repository.py:733-890 | the tables end as the purge function says, idempotency records included, with its counts |
| Repository.InMemoryRepository.DropClosure | apps/api/repository.py:691-720 | trips and incidents go with every row that hangs on them, attempts of dropped dispatches included |
| Repository.InMemoryRepository.ListPendingDeletionRequests | apps/api/repository.py:638-647 | the waiting requests, each once, by submission time and then identifier |
| Repository.ListsExactly | apps/api/repository.py:638-647 | a listing holds every pending or blocked request and no other, by submission and then identifier |
| Repository.InMemoryRepository.ProcessOne | workers/privacy.py:22-48 | one request: blocked with the holds named, failed, or carried out and its counts reported |
| Repository.InMemoryRepository.ProcessDueDeletionRequests | workers/privacy.py:10-49 | the loop handles the waiting requests in order, and reports with each what it deleted |
| Graph.StepReached | agent/graph.py:514-538 | every node keeps the budget, audit, citation and approval invariants, only appends to the audit, and uses up a decreasing measure |
| Graph.StepBounded | agent/graph.py:178-311 | the assistant and tools loop stays within its budget and always comes closer to its end |
| Graph.StepAudited | agent/graph.py:281-311 | the loop's lookups are distinct read-only tools, one per iteration, and the audit only grows at its end |
| Graph.InvestigationIsBounded | agent/graph.py:178-311 | whatever the model answers, a run ends within 19 nodes, with at most 3 lookups, 5 assistant turns and one model call of each kind |
| Graph.LookupsExactly | agent/graph.py:67-86 | the lookups of every run: those the evidence calls for, in order; behind a permitted tool of the model's choice two more of them; none if the model names none or raises; none without an investigation |
| Graph.DispatchNeedsApproval | agent/graph.py:467-506 | an action is queued if and only if the gate was passed with an approval carrying both identities, and then exactly that action |
| Graph.AuditExactly | agent/graph.py:178-311 | the audit of every run, entry by entry, the first lookup marked exactly if it was the model's, the questions put to the model, and the final selection mode |
| Graph.ShownRecommendationCitesEvidence | agent/graph.py:312-361 | the recommendation shown at the gate cites only identifiers of the input evidence |
| Graph.ShownExactly | agent/graph.py:312-361 | the recommendation shown is the model's if all it cites is in evidence, otherwise the graph's own, with the ranking attached; a trip sent straight to review shows the graph's own |
| Graph.EvidenceIdsExactly | agent/graph.py:89-104 | the graph's own recommendation cites exactly the identifiers in evidence |
| Graph.EndsExactly | agent/graph.py:467-512 | approval and final status follow the manager's answer, any other answer being a rejection; a trip not sent to the gate ends as assessed |
| Graph.OffersExactly | agent/graph.py:365-465 | the gate offers exactly the flights available, feasible, compliant, accessible, of at most 500 in cost, with 45 minutes to connect and as many as the traveler asks for; the decision records that minimum, its memory version and the playbooks |
| Graph.AlternativesExactly | agent/graph.py:407-434 | the alternatives are the evaluated flights in order, each with its place in the ranking if it has one, and the eligible ones are the ranking |
| Graph.RunIsReference | agent/graph.py:365-465 | every run ends with the candidates, ranking, decision and gate worked out without assistant, tools or model |
| Graph.ModelCannotInterfere | agent/graph.py:312-465 | two runs that differ only in model, key or switch agree on candidates, ranking, decision, gate and ranked alternatives shown |
| Graph.GateOffersRanked | agent/graph.py:407-465 | the gate offers exactly the identifiers that were ranked |
| Recovery.CheckCandidate | domain/recovery.py:117-161 | the checks in their order yield the evaluation that the other results speak of |
| Recovery.CheckPolicy | domain/policies.py:28-36 | the policy's two checks, in order |
| Recovery.PipelineDecides | domain/policies.py:39-83 | eligible, no reason against it, a score and the eligible state coincide, for exactly the candidates meeting every constraint |
| Recovery.ReasonsAreExact | domain/policies.py:39-83 | each reason is given once, if and only if its situation applies |
| Recovery.StateExactly | domain/policies.py:39-83 | the state of an evaluated flight: policy first, then availability, compliance, feasibility and access, then the traveler's minimum |
| Recovery.ScoreExactly | domain/recovery.py:131-136 | a hundred less half a point a minute and a tenth a unit of cost, at least 0, rounded to hundredths |
| Recovery.DistinctMembers | domain/policies.py:51-51 | removing repeats keeps exactly the members |
| Recovery.RankingIsComplete | domain/recovery.py:164-174 | the ranking is a sorted permutation of exactly the eligible candidates, numbered from 1 |
| Recovery.RankedBestFirst | domain/recovery.py:166-174 | of two places in a ranking the earlier has the higher score, or the same score and the greater identifier |
| Recovery.RankingIsCanonical | domain/recovery.py:164-174 | with unique identifiers the ranking does not depend on the input order, and positions are never shared |
| Recovery.DominatorScores | domain/recovery.py:131-136 | a candidate no later and no dearer than another never scores less |
| Recovery.DominatorRanksFirst | domain/recovery.py:164-174 | a flight no later and no dearer than another stands before it in the ranking, unless their scores are equal |
| Recovery.ScoreRange | domain/recovery.py:131-136 | an exposed score lies between 0 and 100 |
| Recovery.TighteningOnlyRemoves | domain/policies.py:28-83 | a stricter policy or traveler minimum leaves a subsequence of the old ranking |
| Outcomes.IndexByCandidate | domain/recovery.py:181-183 | the loop keeps each candidate's last outcome |
| Outcomes.ProjectCandidateSetOutcomes | domain/recovery.py:177-216 | the projection with that loop yields the view the other results speak of |
| Outcomes.ProjectionIgnoresOrder | domain/recovery.py:177-216 | a log with distinct keys gives the same view in every order |
| Outcomes.ProjectionKeepsSnapshot | domain/recovery.py:185-196 | eligibility, reasons, score and position of every candidate stay those of the snapshot |
| Outcomes.ViewShowsLast | domain/recovery.py:181-196 | each candidate is shown in the state of its last outcome by time and identifier, or as it was if it has none |
| Outcomes.ViewNamesSelection | domain/recovery.py:197-216 | outcomes are listed oldest first; the selected candidate and the reason are those of the last selection |
| Outcomes.RepliesExactly | apps/api/main.py:1428-1488 | the reply to every request for a candidate of the set, by payload, role, selection, position and transition |
| Seqs.TextLessExactly | domain/recovery.py:164-170 | texts compare by the first letter in which they differ, or by which ends first |
| Outcomes.RepliesNotFound | apps/api/main.py:1432-1436 | a request for another candidate is never accepted |
| Outcomes.ProjectionIsIncremental | domain/recovery.py:177-216 | recording a later outcome moves states, selection and override reason by that outcome alone |
| Outcomes.ProjectionRefinesReplay | domain/recovery.py:177-216 | the projection of a log with distinct keys, in any order, equals replaying it in order, one outcome at a time |
| Outcomes.AcceptedStep | apps/api/main.py:1428-1488 | an accepted request moves one candidate along an allowed transition and nothing else |
| Outcomes.CandidateLifecycle | domain/recovery.py:219-236 | in every accepted log each candidate runs eligible, offered, perhaps viewed, then rejected, or selected and perhaps completed; the others have no outcome |
| Outcomes.SelectionIsUnique | apps/api/main.py:1456-1464 | at most one selection exists in a set, and only the candidate it names can be completed |
| Outcomes.LogIsBounded | apps/api/main.py:1428-1499 | a set of n candidates admits at most 3n + 1 outcomes |
| Outcomes.OutcomeLog.constructor | apps/api/repository.py:194-198 | a new set has an empty log |
| Outcomes.OutcomeLog.Record | apps/api/main.py:1428-1499 | an accepted request appends exactly its outcome and shows it; a refused one changes nothing |
| Risk.ScoreMonotone | domain/risk_engine.py:28-47 | raising any factor never lowers score or severity |
| Risk.ScoreInRange | domain/risk_engine.py:28-47 | the score lies between 0 and 100, and both ends are reached |
| Risk.SumOfEqual | domain/risk_engine.py:8-15 | the weights add up to one |
| Risk.WholeSum | domain/risk_engine.py:32-38 | for whole factors the rounded contributions add up to the weighted sum |
| Risk.ScoreExactly | domain/risk_engine.py:28-47 | each contribution is the factor by its published weight, rounded; the score is within 0.03 of the weighted sum; uncertainty is high if and only if a factor is unknown |
| Risk.SeverityBands | domain/risk_engine.py:18-25 | low, watch, high and critical are exactly the scores below 25, 50, 75 and the rest |
| Rounding.RoundExactly | domain/risk_engine.py:34-37 | rounding gives the nearest whole number, and of two the even one |
| Risk.ScoreAccuracy | domain/risk_engine.py:28-47 | the score is within 0.03 of the unrounded weighted sum, and equal to it for whole factors |
| Risk.SeverityAccuracy | domain/risk_engine.py:18-25 | the severity is that of the unrounded sum, by the same bands, except within 0.03 of 25, 50 or 75, where a case shows that it can differ |
| Assessment.UsableValues | apps/api/main.py:541-556 | one pass finds whether a source has usable evidence, and its numeric scores |
| Assessment.ScoreOneField | apps/api/main.py:540-557 | a field's score and whether it is known |
| Assessment.ScoreFields | apps/api/main.py:531-557 | the loop over the fields fills in every score and lists the unknown fields |
| Assessment.GetScoringInput | apps/api/main.py:527-563 | factors and unknown fields, with the criticality score |
| Assessment.FactorScoreIsTop | apps/api/main.py:551-556 | a field's score is the largest usable number offered, or 0 when there is none |
| Assessment.FactorExactly | apps/api/main.py:541-556 | a field scores the largest number that fresh or cached evidence of its source carries, a missing one counting as 0 |
| Assessment.AssessExactly | apps/api/main.py:566-580 | exactly the fields without fresh or cached evidence are unknown, exactly such core sources are out, and the disposition is the one the score and they call for |
| Assessment.AssessmentIgnoresOrder | apps/api/main.py:527-580 | score, unknown fields, unavailable sources and disposition do not depend on evidence order |
| Assessment.DegradationIsSafe | apps/api/main.py:527-580 | items going stale or unavailable never raise the score, never shrink the unknown or unavailable sets, never cause an error, and never undo a review for two lost sources |
| Assessment.DispositionSurvives | apps/api/main.py:527-580 | every loss of evidence leaves a valid assessment of no lower disposition if and only if no usable number is negative and the disposition is carried by the floor that the evidence at hand guarantees |
| Assessment.FloorReached | apps/api/main.py:527-580 | for each choice of lost core sources the floor is what some loss of evidence leaves |
| Assessment.DegradationCanLowerDisposition | apps/api/main.py:650-665 | an input where a lost source takes a trip from investigation to the manager queue |
| Assessment.DegradationCanUndoReview | apps/api/main.py:650-665 | an input where two lost sources take a trip from human review to the manager queue |
| Assessment.RouteMatchesDisposition | agent/graph.py:48-64 | the graph's entry route and the API's disposition classify every severity and outage alike |
| RateLimit.FixedWindowRateLimiter.constructor | apps/api/security.py:78-85 | no requests at first |
| RateLimit.FixedWindowRateLimiter.Check | apps/api/security.py:90-109 | one check prunes and perhaps extends the list of its key, leaves other keys alone, and answers as specified |
| RateLimit.LocalBound | apps/api/security.py:90-109 | with a clock that does not go back, no interval as long as the window holds more than the limit of admissions |
| RateLimit.LocalRefusal | apps/api/security.py:95-102 | a check is refused if and only if the limit was admitted in the preceding window; the wait given is within a second of the true one, until which every check is refused; an admitted one leaves one fewer |
| RateLimit.RedisFixedWindowRateLimiter.constructor | apps/api/security.py:120-125 | the window is counted in whole seconds, at least one |
| RateLimit.RedisFixedWindowRateLimiter.Check | apps/api/security.py:127-141 | one check counts in its window's counter, sets the expiry on the first count, and answers as specified |
| RateLimit.RedisCountsEveryCheck | apps/api/security.py:129-141 | a counter never expires inside its own window: a check is allowed if and only if fewer than the limit came before it in that window |
| RateLimit.RedisAnswersExactly | apps/api/security.py:127-141 | the whole answer from the checks made since the window began: allowed, remaining, and for a refused check the seconds to its end, rounded up |
| RateLimit.RedisBound | apps/api/security.py:127-141 | an interval of the configured window admits at most twice the limit, if that window is at most one tick longer than the counted one |
| RateLimit.RedisBurst | apps/api/security.py:127-141 | twice the limit is reached, around a window start |
| RateLimit.RedisOverrun | apps/api/security.py:120-125 | a configured window longer than that admits three times the limit in some run |

## Left out

- The SQL repository (apps/api/postgres_repository.py). Its claim applies the limit before the due filter, so it does not
  hand out the same batches.
- HTTP, sign-in and roles other than those the outcome guards look at, webhooks, storage, the web console, live providers.
- One table stands for notifications and for action dispatches, whose code differs only in names; error texts follow
  the notifications. Statuses that no modelled operation writes (suppressed, cancelled) are not states of the model, and
  the attempt limit is the default of five.
- Outbox.Table.AcknowledgeRow: the handler's reading and saving are one step here and in the runs of `OutboxRuns.dfy`;
  what an erasure between the two does is OutboxRuns.LateAcknowledgementRevives. The time of acknowledgement is kept as
  the time of the last update.
- Deliveries are bounded by commits, not sends: a worker whose lease ran out may already have sent its message.
- Idempotency.Ledger.Claim: creation and completion times are not kept; a record is completed when it has a response. The
  request hash is taken to be different for different requests.
- Schedule.ProcessDueAssessments: a poll reads the clock once and is one uninterrupted step, as is each window in
  Schedule.ProcessWindows; overlapping polls and a clock that moves between seeing and claiming are in
  Schedule.AtMostOnce. The assessment itself succeeds or fails as given, and the event emitted after it is not modelled.
- Schedule.ExactlyOnce: the polls do not overlap each other, so a poll never meets the open claim of another one.
- Decimal arithmetic is exact; binary floating-point error is not modelled.
- Recovery.CheckCandidate: normalized features, feature schema and ranker fields, which nothing reads back, are not kept.
- Outcomes.OutcomeLog.Record: the idempotency replay of the handler, manager feedback and the audit event are left out;
  one request is handled at a time, and outcomes have strictly increasing time and identifier keys.
- Purge.PurgesCompose: the idempotency records that the same call drops are not part of the composed state; they compose
  by Idempotency.RecordPurgesCompose. Notifications of held travelers are not exempt in the source, and not in the model.
- Repository.InMemoryRepository.ProcessOne: an erasure that raises is taken to have done nothing. The holds that block a
  request are a set, without their order. Identifiers are compared as numbers where the source compares UUID text.
- Graph guards against malformed state, audit payload details, and the checkpointer; the interrupt receives an arbitrary
  decision.
- RateLimit.RedisFixedWindowRateLimiter.Check: counting and setting the expiry are one step, and failures of Redis are not
  modelled. Constructor arguments the source rejects with ValueError are excluded by `requires`.
- Redaction, circuit breaker, provider cache, fixtures, runtime controls, CSV import, playbooks and memory proposals, which
  would add easy members only.
