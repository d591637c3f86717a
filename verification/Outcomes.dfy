/** The append-only outcome log of a candidate set: its projected view, and the requests that may extend it
  * (domain/recovery.py, apps/api/main.py). */
module Outcomes {
  import opened Seqs
  import opened Options
  import opened Recovery

  datatype OutcomeState = Offer | View | Select | Reject | Complete

  datatype Outcome = Outcome(
    occurredAt: int, outcomeId: string, candidateId: string, state: OutcomeState,
    reason: Option<string>, overrideReason: Option<string>, hasMaterialOutcome: bool)

  datatype CandidateSet = CandidateSet(
    candidates: seq<Evaluated>, outcomes: seq<Outcome>,
    selectedId: Option<string>, overrideReason: Option<string>)

  function AsCandidateState(o: OutcomeState): CandidateState {
    match o
    case Offer => Offered
    case View => Viewed
    case Select => Selected
    case Reject => Rejected
    case Complete => Completed
  }

  /* Log order: by time, then by outcome identifier. */

  predicate Earlier(a: Outcome, b: Outcome) {
    a.occurredAt < b.occurredAt || (a.occurredAt == b.occurredAt && TextLess(a.outcomeId, b.outcomeId))
  }

  lemma EarlierIsWeakOrder()
    ensures WeakOrder(Earlier)
  {
    TextLessOrders();
    forall a, b, c
      ensures Splits(Earlier, a, b, c)
    {
      assert Splits(TextLess, a.outcomeId, b.outcomeId, c.outcomeId);
    }
  }

  ghost predicate DistinctKeys(log: seq<Outcome>) {
    forall i, j :: 0 <= i < j < |log| ==>
      log[i].occurredAt != log[j].occurredAt || log[i].outcomeId != log[j].outcomeId
  }

  lemma DistinctKeysSeparate(log: seq<Outcome>)
    requires DistinctKeys(log)
    ensures Separated(Earlier, multiset(log))
  {
    TextLessOrders();
    assert NoDuplicates(log);
    forall a | a in multiset(log)
      ensures multiset(log)[a] == 1
    {
      NoDuplicatesBag(log, a);
    }
    forall a, b | a in multiset(log) && b in multiset(log) && a != b
      ensures Earlier(a, b) || Earlier(b, a)
    {
      assert a in log && b in log;
      var i :| 0 <= i < |log| && log[i] == a;
      var j :| 0 <= j < |log| && log[j] == b;
    }
  }

  /* Projection. */

  function LastByCandidate(log: seq<Outcome>): map<string, Outcome> {
    if log == [] then map[]
    else
      var last := log[|log| - 1];
      LastByCandidate(log[..|log| - 1])[last.candidateId := last]
  }

  function Shown(latest: map<string, Outcome>): Evaluated -> Evaluated {
    (c: Evaluated) =>
      if c.base.id in latest then c.(state := AsCandidateState(latest[c.base.id].state)) else c
  }

  predicate IsSelection(o: Outcome) {
    o.state == Select
  }

  /** Python's max: the first of the latest. */
  function Latest(log: seq<Outcome>): Option<Outcome> {
    if log == [] then None
    else
      var last := log[|log| - 1];
      var before := Latest(log[..|log| - 1]);
      if before.None? || Earlier(before.value, last) then Some(last) else before
  }

  function Project(snapshot: CandidateSet, log: seq<Outcome>): CandidateSet {
    var sorted := Sort(Earlier, log);
    var selection := Latest(Filter(IsSelection, log));
    CandidateSet(
      Map(Shown(LastByCandidate(sorted)), snapshot.candidates), sorted,
      if selection.Some? then Some(selection.value.candidateId) else None,
      if selection.Some? then selection.value.overrideReason else None)
  }

  method IndexByCandidate(sorted: seq<Outcome>) returns (latest: map<string, Outcome>)
    ensures latest == LastByCandidate(sorted)
  {
    latest := map[];
    for i := 0 to |sorted|
      invariant latest == LastByCandidate(sorted[..i])
    {
      assert sorted[..i + 1][..i] == sorted[..i];
      latest := latest[sorted[i].candidateId := sorted[i]];
    }
    assert sorted[..|sorted|] == sorted;
  }

  /** The projection as it runs, with the loop that keeps the last outcome of each candidate. */
  method ProjectCandidateSetOutcomes(snapshot: CandidateSet, log: seq<Outcome>) returns (view: CandidateSet)
    ensures view == Project(snapshot, log)
  {
    var sorted := Sort(Earlier, log);
    var latest := IndexByCandidate(sorted);
    var selection := Latest(Filter(IsSelection, log));
    view := CandidateSet(
      Map(Shown(latest), snapshot.candidates), sorted,
      if selection.Some? then Some(selection.value.candidateId) else None,
      if selection.Some? then selection.value.overrideReason else None);
  }

  lemma {:induction false} LatestIsTop(log: seq<Outcome>)
    requires log != []
    ensures Latest(log).Some? && Latest(log).value in log
    ensures forall o | o in log :: !Earlier(Latest(log).value, o)
  {
    EarlierIsWeakOrder();
    var last := |log| - 1;
    if last > 0 {
      LatestIsTop(log[..last]);
      forall o | o in log
        ensures !Earlier(Latest(log).value, o)
      {
        assert o in log[..last] || o == log[last];
        var before := Latest(log[..last]).value;
        if Earlier(before, log[last]) && o in log[..last] {
          assert Splits(Earlier, log[last], before, o);
        }
      }
    }
  }

  lemma LatestIgnoresOrder(a: seq<Outcome>, b: seq<Outcome>)
    requires Separated(Earlier, multiset(a)) && multiset(a) == multiset(b)
    ensures Latest(a) == Latest(b)
  {
    assert |a| == |multiset(a)| == |multiset(b)| == |b|;
    if a != [] {
      LatestIsTop(a);
      LatestIsTop(b);
      var x, y := Latest(a).value, Latest(b).value;
      assert x in multiset(a) && y in multiset(b);
    }
  }

  lemma SeparatedFilter(log: seq<Outcome>)
    requires Separated(Earlier, multiset(log))
    ensures Separated(Earlier, multiset(Filter(IsSelection, log)))
  {
    forall o
      ensures multiset(Filter(IsSelection, log))[o] <= multiset(log)[o]
    {
      FilterBag(IsSelection, log, o);
    }
  }

  /** The view depends on which outcomes were recorded, not on the order in which they are listed. */
  lemma ProjectionIgnoresOrder(snapshot: CandidateSet, a: seq<Outcome>, b: seq<Outcome>)
    requires DistinctKeys(a) && multiset(a) == multiset(b)
    ensures Project(snapshot, a) == Project(snapshot, b)
  {
    EarlierIsWeakOrder();
    DistinctKeysSeparate(a);
    SortCanonical(Earlier, a, b);
    SeparatedFilter(a);
    FilterSameBag(IsSelection, a, b);
    LatestIgnoresOrder(Filter(IsSelection, a), Filter(IsSelection, b));
  }

  /** Only the lifecycle state of a candidate can differ from the ranked snapshot. */
  lemma ProjectionKeepsSnapshot(snapshot: CandidateSet, log: seq<Outcome>)
    ensures var view := Project(snapshot, log).candidates;
            && |view| == |snapshot.candidates|
            && forall i :: 0 <= i < |view| ==> view[i] == snapshot.candidates[i].(state := view[i].state)
  {
  }

  /* What a view shows. */

  /** The outcome is the last of those given: later, or at the same time with the greater identifier. */
  ghost predicate IsLast(o: Outcome, log: seq<Outcome>) {
    o in log
    && forall p | p in log && p != o ::
         p.occurredAt < o.occurredAt || (p.occurredAt == o.occurredAt && TextLess(p.outcomeId, o.outcomeId))
  }

  function Of(id: string): Outcome -> bool {
    (o: Outcome) => o.candidateId == id
  }

  lemma {:induction false} LastByCandidateIs(sorted: seq<Outcome>, id: string)
    ensures id in LastByCandidate(sorted) <==> exists o :: o in sorted && o.candidateId == id
    ensures id in LastByCandidate(sorted) ==>
              exists k :: 0 <= k < |sorted| && sorted[k].candidateId == id && sorted[k] == LastByCandidate(sorted)[id]
                          && forall m :: k < m < |sorted| ==> sorted[m].candidateId != id
  {
    if sorted != [] {
      var last := |sorted| - 1;
      var front := sorted[..last];
      LastByCandidateIs(front, id);
      assert sorted == front + [sorted[last]];
      if sorted[last].candidateId != id && id in LastByCandidate(front) {
        var k :| 0 <= k < |front| && front[k].candidateId == id && front[k] == LastByCandidate(front)[id]
                 && forall m :: k < m < |front| ==> front[m].candidateId != id;
        assert sorted[k] == front[k];
        assert forall m :: k < m < last ==> sorted[m] == front[m];
      }
    }
  }

  /** A view shows each candidate in the state of the last outcome recorded for it, or as it was when there is none,
    * whatever order the log is in. */
  lemma ViewShowsLast(snapshot: CandidateSet, log: seq<Outcome>, i: nat, o: Outcome)
    requires DistinctKeys(log) && i < |snapshot.candidates|
    ensures var was, shown := snapshot.candidates[i], Project(snapshot, log).candidates[i];
            && ((forall p | p in log :: p.candidateId != was.base.id) ==> shown == was)
            && (o.candidateId == was.base.id && IsLast(o, Filter(Of(was.base.id), log)) ==>
                  shown == was.(state := match o.state
                                         case Offer => Offered
                                         case View => Viewed
                                         case Select => Selected
                                         case Reject => Rejected
                                         case Complete => Completed))
  {
    var id := snapshot.candidates[i].base.id;
    var sorted := Sort(Earlier, log);
    LogIsSorted(log);
    LastByCandidateIs(sorted, id);
    assert forall p :: p in log <==> p in multiset(log);
    assert forall p :: p in sorted <==> p in multiset(sorted);
    FilterMembers(Of(id), log);
    if o.candidateId == id && IsLast(o, Filter(Of(id), log)) {
      LastIsLast(log, sorted, id, o);
    }
  }

  lemma LogIsSorted(log: seq<Outcome>)
    requires DistinctKeys(log)
    ensures multiset(Sort(Earlier, log)) == multiset(log) && StrictlySorted(Earlier, Sort(Earlier, log))
  {
    EarlierIsWeakOrder();
    DistinctKeysSeparate(log);
    SortCanonical(Earlier, log, log);
    SortBag(Earlier, log);
  }

  lemma LastIsLast(log: seq<Outcome>, sorted: seq<Outcome>, id: string, o: Outcome)
    requires multiset(sorted) == multiset(log) && StrictlySorted(Earlier, sorted)
    requires o.candidateId == id && IsLast(o, Filter(Of(id), log))
    ensures id in LastByCandidate(sorted) && LastByCandidate(sorted)[id] == o
  {
    LastByCandidateIs(sorted, id);
    FilterMembers(Of(id), log);
    assert o in multiset(log) && o in sorted;
    var k :| 0 <= k < |sorted| && sorted[k].candidateId == id && sorted[k] == LastByCandidate(sorted)[id]
             && forall m :: k < m < |sorted| ==> sorted[m].candidateId != id;
    assert sorted[k] in multiset(sorted) && sorted[k] in multiset(log);
    LastAt(Filter(Of(id), log), sorted, id, o, k);
  }

  lemma LastAt(mine: seq<Outcome>, sorted: seq<Outcome>, id: string, o: Outcome, k: nat)
    requires StrictlySorted(Earlier, sorted) && k < |sorted| && o in sorted && o.candidateId == id
    requires IsLast(o, mine) && sorted[k] in mine && forall m :: k < m < |sorted| ==> sorted[m].candidateId != id
    ensures sorted[k] == o
  {
    var at :| 0 <= at < |sorted| && sorted[at] == o;
    if at < k {
      var p := sorted[k];
      assert Earlier(o, p);
      if o.occurredAt == p.occurredAt {
        TextLessAsymmetric(o.outcomeId, p.outcomeId);
      }
    }
  }

  /** A view lists the outcomes oldest first, and names the candidate and the reason of the last selection. */
  lemma ViewNamesSelection(snapshot: CandidateSet, log: seq<Outcome>, o: Outcome, j: nat, k: nat)
    requires DistinctKeys(log)
    ensures var view := Project(snapshot, log);
            && multiset(view.outcomes) == multiset(log)
            && (j < k < |view.outcomes| ==>
                  view.outcomes[j].occurredAt < view.outcomes[k].occurredAt
                  || (view.outcomes[j].occurredAt == view.outcomes[k].occurredAt
                      && TextLess(view.outcomes[j].outcomeId, view.outcomes[k].outcomeId)))
            && ((forall p | p in log :: p.state != Select) ==> view.selectedId == None && view.overrideReason == None)
            && (o.state == Select && IsLast(o, Filter(IsSelection, log)) ==>
                  view.selectedId == Some(o.candidateId) && view.overrideReason == o.overrideReason)
  {
    var selections := Filter(IsSelection, log);
    LogIsSorted(log);
    FilterMembers(IsSelection, log);
    if o.state == Select && IsLast(o, selections) {
      LatestIsTop(selections);
      assert Latest(selections).value == o;
    } else if forall p | p in log :: p.state != Select {
      FilterNone(IsSelection, log);
    }
  }

  /** What one more outcome does to a view. */
  function Advance(view: CandidateSet, o: Outcome): CandidateSet {
    CandidateSet(
      Map(Shown(map[o.candidateId := o]), view.candidates), view.outcomes + [o],
      if o.state == Select then Some(o.candidateId) else view.selectedId,
      if o.state == Select then o.overrideReason else view.overrideReason)
  }

  ghost predicate Follows(log: seq<Outcome>, o: Outcome) {
    forall p | p in log :: Earlier(p, o)
  }

  lemma SelectionsStep(log: seq<Outcome>, o: Outcome)
    ensures Filter(IsSelection, log + [o]) == Filter(IsSelection, log) + if o.state == Select then [o] else []
  {
    FilterAppend(IsSelection, log, [o]);
    assert [o][1..] == [];
    assert Filter(IsSelection, [o]) == if o.state == Select then [o] else [];
  }

  lemma LatestStep(log: seq<Outcome>, o: Outcome)
    requires Follows(log, o)
    ensures Latest(Filter(IsSelection, log + [o]))
         == if o.state == Select then Some(o) else Latest(Filter(IsSelection, log))
  {
    var selections := Filter(IsSelection, log);
    SelectionsStep(log, o);
    FilterMembers(IsSelection, log);
    if o.state == Select {
      LatestAppend(selections, o);
    } else {
      assert selections + [] == selections;
    }
  }

  lemma LatestAppend(log: seq<Outcome>, o: Outcome)
    requires Follows(log, o)
    ensures Latest(log + [o]) == Some(o)
  {
    assert (log + [o])[..|log|] == log;
    if log != [] {
      LatestIsTop(log);
    }
  }

  lemma ShownStep(candidates: seq<Evaluated>, sorted: seq<Outcome>, o: Outcome)
    ensures Map(Shown(LastByCandidate(sorted + [o])), candidates)
         == Map(Shown(map[o.candidateId := o]), Map(Shown(LastByCandidate(sorted)), candidates))
  {
    assert (sorted + [o])[..|sorted|] == sorted;
  }

  /** Recording a later outcome moves the view by that outcome alone. */
  lemma ProjectionIsIncremental(snapshot: CandidateSet, log: seq<Outcome>, o: Outcome)
    requires Follows(log, o)
    ensures Project(snapshot, log + [o]) == Advance(Project(snapshot, log), o)
  {
    EarlierIsWeakOrder();
    SortAppendMaximum(Earlier, log, o);
    LatestStep(log, o);
    ShownStep(snapshot.candidates, Sort(Earlier, log), o);
  }

  function Replay(view: CandidateSet, log: seq<Outcome>): CandidateSet {
    if log == [] then view
    else Advance(Replay(view, log[..|log| - 1]), log[|log| - 1])
  }

  lemma {:induction false} SortedReplay(snapshot: CandidateSet, log: seq<Outcome>)
    requires StrictlySorted(Earlier, log)
    ensures Project(snapshot, log) == Replay(Project(snapshot, []), log)
  {
    if log != [] {
      var last := |log| - 1;
      var before, o := log[..last], log[last];
      SortedReplay(snapshot, before);
      LastFollows(log);
      ProjectionIsIncremental(snapshot, before, o);
      ReplayStep(Project(snapshot, []), log);
    }
  }

  lemma LastFollows(log: seq<Outcome>)
    requires StrictlySorted(Earlier, log) && log != []
    ensures log == log[..|log| - 1] + [log[|log| - 1]]
    ensures StrictlySorted(Earlier, log[..|log| - 1]) && Follows(log[..|log| - 1], log[|log| - 1])
  {
  }

  lemma ReplayStep(view: CandidateSet, log: seq<Outcome>)
    requires log != []
    ensures Replay(view, log) == Advance(Replay(view, log[..|log| - 1]), log[|log| - 1])
  {
  }

  /** The one-pass projection of a log in any order is the step-by-step replay of the ordered log. */
  lemma ProjectionRefinesReplay(snapshot: CandidateSet, log: seq<Outcome>)
    requires DistinctKeys(log)
    ensures Project(snapshot, log) == Replay(Project(snapshot, []), Sort(Earlier, log))
  {
    EarlierIsWeakOrder();
    DistinctKeysSeparate(log);
    SortCanonical(Earlier, log, log);
    SortBag(Earlier, log);
    ProjectionIgnoresOrder(snapshot, log, Sort(Earlier, log));
    SortedReplay(snapshot, Sort(Earlier, log));
  }

  /* Requests. */

  datatype Role = Traveler | TravelManager | TenantAdmin | OtherRole

  datatype Request = Request(
    candidateId: string, role: Role, state: OutcomeState,
    reason: Option<string>, overrideReason: Option<string>, hasMaterialOutcome: bool)

  datatype Reply = Accepted | NotFound | Forbidden | Conflict | Unprocessable

  predicate Given(text: Option<string>) {
    text.Some? && text.value != ""
  }

  predicate IsManager(role: Role) {
    role == TravelManager || role == TenantAdmin
  }

  predicate PayloadValid(r: Request) {
    && (r.state == Reject ==> Given(r.reason))
    && (Given(r.overrideReason) ==> r.state == Select)
    && (r.state == Complete ==> r.hasMaterialOutcome)
  }

  predicate TransitionAllowed(current: CandidateState, target: OutcomeState) {
    match current
    case Eligible => target == Offer
    case Offered => target == View || target == Select || target == Reject
    case Viewed => target == Select || target == Reject
    case Selected => target == Complete
    case _ => false
  }

  /** The first candidate with the identifier, if any. */
  function Find(candidates: seq<Evaluated>, id: string): (at: Option<nat>)
    ensures at.Some? ==> at.value < |candidates| && candidates[at.value].base.id == id
    ensures at.None? ==> forall c | c in candidates :: c.base.id != id
  {
    if candidates == [] then None
    else if candidates[0].base.id == id then Some(0)
    else
      var rest := Find(candidates[1..], id);
      if rest.Some? then Some(rest.value + 1) else None
  }

  /** The guards on one outcome request, in the order they are checked. */
  function Decide(view: CandidateSet, r: Request): Reply {
    var at := Find(view.candidates, r.candidateId);
    if !PayloadValid(r) then Unprocessable
    else if r.role == OtherRole then Forbidden
    else if at.None? then NotFound
    else
      var candidate := view.candidates[at.value];
      if r.role == Traveler && (r.state == Offer || r.state == Complete) then Forbidden
      else if Given(r.overrideReason) && !IsManager(r.role) then Forbidden
      else if r.state == Select && Given(view.selectedId) && view.selectedId.value != r.candidateId then Conflict
      else if r.state == Select && candidate.position.Some? && candidate.position.value != 1
              && IsManager(r.role) && !Given(r.overrideReason) then Unprocessable
      else if !TransitionAllowed(candidate.state, r.state) then Conflict
      else Accepted
  }

  /** The reply to a request for a candidate of the set, case by case. */
  lemma RepliesExactly(view: CandidateSet, r: Request, i: nat)
    requires UniqueIds(view.candidates) && i < |view.candidates| && view.candidates[i].base.id == r.candidateId
    ensures var c, reply := view.candidates[i], Decide(view, r);
            var reason := r.reason.Some? && r.reason.value != "";
            var override := r.overrideReason.Some? && r.overrideReason.value != "";
            var manager := r.role == TravelManager || r.role == TenantAdmin;
            var malformed := (r.state == Reject && !reason) || (override && r.state != Select)
                             || (r.state == Complete && !r.hasMaterialOutcome);
            var barred := r.role == OtherRole || (r.role == Traveler && r.state in {Offer, Complete})
                          || (override && !manager);
            var taken := r.state == Select && view.selectedId.Some? && view.selectedId.value != ""
                         && view.selectedId.value != r.candidateId;
            var unexplained := r.state == Select && manager && !override && c.position.Some? && c.position.value != 1;
            var follows := (c.state == Eligible && r.state == Offer)
                           || (c.state == Offered && r.state in {View, Select, Reject})
                           || (c.state == Viewed && r.state in {Select, Reject})
                           || (c.state == Selected && r.state == Complete);
            reply == if malformed then Unprocessable else if barred then Forbidden else if taken then Conflict
                     else if unexplained then Unprocessable else if !follows then Conflict else Accepted
  {
    var at := Find(view.candidates, r.candidateId);
    assert view.candidates[i] in view.candidates;
    assert at == Some(i);
  }

  /** And to a request for any other: there is none, unless the request is refused before that is looked at. */
  lemma RepliesNotFound(view: CandidateSet, r: Request)
    requires forall c | c in view.candidates :: c.base.id != r.candidateId
    ensures Decide(view, r) != Accepted && Decide(view, r) != Conflict
    ensures Decide(view, r) == Forbidden ==> r.role == OtherRole
  {
  }

  function OutcomeOf(r: Request, occurredAt: int, outcomeId: string): Outcome {
    Outcome(occurredAt, outcomeId, r.candidateId, r.state, r.reason, r.overrideReason, r.hasMaterialOutcome)
  }

  /* Runs: every log that accepted requests can build. */

  ghost predicate Recordable(snapshot: CandidateSet, log: seq<Outcome>, o: Outcome) {
    exists r :: Decide(Project(snapshot, log), r) == Accepted && o == OutcomeOf(r, o.occurredAt, o.outcomeId)
  }

  ghost predicate Accumulated(snapshot: CandidateSet, log: seq<Outcome>) {
    log == []
    || (var last := |log| - 1;
        && Accumulated(snapshot, log[..last])
        && Follows(log[..last], log[last])
        && Recordable(snapshot, log[..last], log[last]))
  }

  /** A ranked snapshot: named, distinct candidates straight from evaluation. */
  ghost predicate ValidSnapshot(snapshot: CandidateSet) {
    && UniqueIds(snapshot.candidates)
    && forall c | c in snapshot.candidates ::
         && c.base.id != ""
         && c.state in {Unavailable, PolicyIneligible, Ineligible, Eligible}
         && (c.eligible <==> c.state == Eligible)
  }

  function For(id: string): Outcome -> bool {
    (o: Outcome) => o.candidateId == id
  }

  function StateOf(o: Outcome): OutcomeState {
    o.state
  }

  /** The states recorded for one candidate, oldest first. */
  function Path(log: seq<Outcome>, id: string): seq<OutcomeState> {
    Map(StateOf, Filter(For(id), log))
  }

  function LastState(start: CandidateState, path: seq<OutcomeState>): CandidateState {
    if path == [] then start else AsCandidateState(path[|path| - 1])
  }

  ghost predicate Lifecycle(path: seq<OutcomeState>) {
    path in {
      [], [Offer], [Offer, View], [Offer, Reject], [Offer, View, Reject],
      [Offer, Select], [Offer, View, Select], [Offer, Select, Complete], [Offer, View, Select, Complete]}
  }

  /** What a view has to do with the log it was projected from. */
  ghost predicate Agrees(snapshot: CandidateSet, log: seq<Outcome>, view: CandidateSet) {
    && |view.candidates| == |snapshot.candidates|
    && (forall i :: 0 <= i < |snapshot.candidates| ==> Tracks(snapshot.candidates[i], view.candidates[i], log))
    && (forall o | o in log :: Known(snapshot, o.candidateId))
  }

  ghost predicate Known(snapshot: CandidateSet, id: string) {
    exists c :: c in snapshot.candidates && c.base.id == id
  }

  ghost predicate Tracks(was: Evaluated, shown: Evaluated, log: seq<Outcome>) {
    var path := Path(log, was.base.id);
    && shown == was.(state := LastState(was.state, path))
    && (if was.eligible then Lifecycle(path) else path == [])
  }

  lemma PathStep(log: seq<Outcome>, o: Outcome, id: string)
    ensures Path(log + [o], id) == if o.candidateId == id then Path(log, id) + [o.state] else Path(log, id)
  {
    FilterAppend(For(id), log, [o]);
    assert [o][1..] == [];
    if o.candidateId == id {
      assert Filter(For(id), [o]) == [o];
    } else {
      assert Filter(For(id), [o]) == [];
      assert Filter(For(id), log) + [] == Filter(For(id), log);
    }
  }

  lemma LifecycleStep(path: seq<OutcomeState>, target: OutcomeState)
    requires Lifecycle(path) && TransitionAllowed(LastState(Eligible, path), target)
    ensures Lifecycle(path + [target])
  {
    if path == [] {
      assert path + [target] == [Offer];
    } else if |path| == 1 {
      assert path + [target] == [Offer, target];
    } else if |path| == 2 {
      assert path + [target] == [Offer, path[1], target];
    } else if |path| == 3 {
      assert path + [target] == [Offer, View, Select, Complete];
    }
  }

  /** One candidate of a view moves along an allowed transition; nothing else of it changes. */
  ghost predicate Moves(view: CandidateSet, view': CandidateSet, at: nat, o: Outcome) {
    && at < |view.candidates|
    && view.candidates[at].base.id == o.candidateId
    && TransitionAllowed(view.candidates[at].state, o.state)
    && (o.state == Select && Given(view.selectedId) ==> view.selectedId.value == o.candidateId)
    && view'.candidates == view.candidates[at := view.candidates[at].(state := AsCandidateState(o.state))]
    && view'.selectedId == if o.state == Select then Some(o.candidateId) else view.selectedId
  }

  lemma AcceptedStep(snapshot: CandidateSet, before: seq<Outcome>, o: Outcome) returns (at: nat)
    requires ValidSnapshot(snapshot) && Follows(before, o) && Recordable(snapshot, before, o)
    ensures Moves(Project(snapshot, before), Project(snapshot, before + [o]), at, o)
  {
    var view := Project(snapshot, before);
    var r :| Decide(view, r) == Accepted && o == OutcomeOf(r, o.occurredAt, o.outcomeId);
    at := Find(view.candidates, r.candidateId).value;
    ProjectionIsIncremental(snapshot, before, o);
    ProjectionKeepsSnapshot(snapshot, before);
    AdvanceMovesOne(view, at, o);
  }

  lemma AdvanceMovesOne(view: CandidateSet, at: nat, o: Outcome)
    requires UniqueIds(view.candidates)
    requires at < |view.candidates| && view.candidates[at].base.id == o.candidateId
    ensures Advance(view, o).candidates
         == view.candidates[at := view.candidates[at].(state := AsCandidateState(o.state))]
  {
    forall i | 0 <= i < |view.candidates|
      ensures view.candidates[i].base.id == o.candidateId <==> i == at
    {
      if i < at {
        assert view.candidates[i].base.id != view.candidates[at].base.id;
      } else if at < i {
        assert view.candidates[at].base.id != view.candidates[i].base.id;
      }
    }
  }

  lemma TracksStep(was: Evaluated, shown: Evaluated, log: seq<Outcome>, o: Outcome)
    requires Tracks(was, shown, log) && (was.eligible <==> was.state == Eligible)
    requires was.state in {Unavailable, PolicyIneligible, Ineligible, Eligible}
    requires was.base.id == o.candidateId && TransitionAllowed(shown.state, o.state)
    ensures Tracks(was, shown.(state := AsCandidateState(o.state)), log + [o])
  {
    PathStep(log, o, was.base.id);
    if was.eligible {
      LifecycleStep(Path(log, was.base.id), o.state);
    }
  }

  lemma AgreesStep(
      snapshot: CandidateSet, log: seq<Outcome>, view: CandidateSet, view': CandidateSet, at: nat, o: Outcome)
    requires ValidSnapshot(snapshot) && Agrees(snapshot, log, view) && Moves(view, view', at, o)
    ensures Agrees(snapshot, log + [o], view')
  {
    forall i | 0 <= i < |snapshot.candidates|
      ensures Tracks(snapshot.candidates[i], view'.candidates[i], log + [o])
    {
      var c := snapshot.candidates[i];
      assert c in snapshot.candidates && Tracks(c, view.candidates[i], log);
      assert Tracks(snapshot.candidates[at], view.candidates[at], log);
      if i == at {
        TracksStep(c, view.candidates[i], log, o);
      } else {
        assert c.base.id != snapshot.candidates[at].base.id;
        PathStep(log, o, c.base.id);
      }
    }
    assert snapshot.candidates[at] in snapshot.candidates;
    assert Tracks(snapshot.candidates[at], view.candidates[at], log);
  }

  lemma {:induction false} ViewTracksLog(snapshot: CandidateSet, log: seq<Outcome>)
    requires ValidSnapshot(snapshot) && Accumulated(snapshot, log)
    ensures Agrees(snapshot, log, Project(snapshot, log))
  {
    if log == [] {
      EmptyAgrees(snapshot, Project(snapshot, []));
    } else {
      var before, o := log[..|log| - 1], log[|log| - 1];
      assert log == before + [o];
      ViewTracksLog(snapshot, before);
      AcceptedAgrees(snapshot, before, o);
    }
  }

  lemma AcceptedAgrees(snapshot: CandidateSet, before: seq<Outcome>, o: Outcome)
    requires ValidSnapshot(snapshot) && Follows(before, o) && Recordable(snapshot, before, o)
    requires Agrees(snapshot, before, Project(snapshot, before))
    ensures Agrees(snapshot, before + [o], Project(snapshot, before + [o]))
  {
    var at := AcceptedStep(snapshot, before, o);
    AgreesStep(snapshot, before, Project(snapshot, before), Project(snapshot, before + [o]), at, o);
  }

  lemma EmptyAgrees(snapshot: CandidateSet, view: CandidateSet)
    requires ValidSnapshot(snapshot) && view.candidates == snapshot.candidates
    ensures Agrees(snapshot, [], view)
  {
    forall i | 0 <= i < |snapshot.candidates|
      ensures Tracks(snapshot.candidates[i], view.candidates[i], [])
    {
      assert Path([], snapshot.candidates[i].base.id) == [];
    }
  }

  /** Every log is made of lifecycle paths: an eligible candidate is offered, perhaps viewed, then rejected, or
    * selected and perhaps completed; an ineligible or unknown candidate has no outcome at all. */
  lemma CandidateLifecycle(snapshot: CandidateSet, log: seq<Outcome>, id: string)
    requires ValidSnapshot(snapshot) && Accumulated(snapshot, log)
    ensures Lifecycle(Path(log, id))
    ensures Path(log, id) != [] ==> exists c :: c in snapshot.candidates && c.base.id == id && c.eligible
  {
    ViewTracksLog(snapshot, log);
    AgreedPath(snapshot, log, Project(snapshot, log), id);
  }

  lemma AgreedPath(snapshot: CandidateSet, log: seq<Outcome>, view: CandidateSet, id: string)
    requires Agrees(snapshot, log, view)
    ensures Lifecycle(Path(log, id))
    ensures Path(log, id) != [] ==> exists c :: c in snapshot.candidates && c.base.id == id && c.eligible
  {
    var mine := Filter(For(id), log);
    FilterMembers(For(id), log);
    if mine != [] {
      assert mine[0] in mine && mine[0] in log && Known(snapshot, mine[0].candidateId);
      var c :| c in snapshot.candidates && c.base.id == id;
      var i :| 0 <= i < |snapshot.candidates| && snapshot.candidates[i] == c;
      assert Tracks(c, view.candidates[i], log);
    }
  }

  /* One selection. */

  ghost predicate Chosen(log: seq<Outcome>, view: CandidateSet) {
    var selections := Filter(IsSelection, log);
    && |selections| <= 1
    && (view.selectedId.None? <==> selections == [])
    && (selections != [] ==> view.selectedId == Some(selections[0].candidateId) && selections[0].candidateId != "")
    && SelectedIsNamed(view)
    && (forall o | o in log && o.state == Complete :: view.selectedId == Some(o.candidateId))
  }

  lemma OnlyOneMoves(
      snapshot: CandidateSet, log: seq<Outcome>, view: CandidateSet, view': CandidateSet, at: nat, o: Outcome)
    requires ValidSnapshot(snapshot) && Agrees(snapshot, log, view) && Moves(view, view', at, o)
    ensures forall i :: 0 <= i < |view.candidates| && i != at ==> view.candidates[i].base.id != o.candidateId
    ensures o.candidateId != ""
  {
    assert snapshot.candidates[at] in snapshot.candidates;
    assert Tracks(snapshot.candidates[at], view.candidates[at], log);
    forall i | 0 <= i < |view.candidates| && i != at
      ensures view.candidates[i].base.id != o.candidateId
    {
      assert Tracks(snapshot.candidates[i], view.candidates[i], log);
      assert snapshot.candidates[i].base.id != snapshot.candidates[at].base.id;
    }
  }

  /** The selected or completed candidate is the one the view names. */
  ghost predicate SelectedIsNamed(view: CandidateSet) {
    forall i :: 0 <= i < |view.candidates| ==>
      (view.candidates[i].state in {Selected, Completed} <==> view.selectedId == Some(view.candidates[i].base.id))
  }

  lemma ChosenIsSelected(view: CandidateSet, view': CandidateSet, at: nat, o: Outcome)
    requires Moves(view, view', at, o) && SelectedIsNamed(view)
    requires Given(view.selectedId) || view.selectedId.None?
    requires forall i :: 0 <= i < |view.candidates| && i != at ==> view.candidates[i].base.id != o.candidateId
    ensures SelectedIsNamed(view')
  {
    assert view.candidates[at].base.id == o.candidateId;
  }

  lemma ChosenStep(
      snapshot: CandidateSet, log: seq<Outcome>, view: CandidateSet, view': CandidateSet, at: nat, o: Outcome)
    requires ValidSnapshot(snapshot) && Agrees(snapshot, log, view) && Moves(view, view', at, o)
    requires Chosen(log, view)
    ensures Chosen(log + [o], view')
  {
    SelectionsStep(log, o);
    OnlyOneMoves(snapshot, log, view, view', at, o);
    ChosenIsSelected(view, view', at, o);
    forall p | p in log + [o] && p.state == Complete
      ensures view'.selectedId == Some(p.candidateId)
    {
      assert p in log || p == o;
    }
  }

  lemma {:induction false} AtMostOneSelection(snapshot: CandidateSet, log: seq<Outcome>)
    requires ValidSnapshot(snapshot) && Accumulated(snapshot, log)
    ensures Chosen(log, Project(snapshot, log))
  {
    if log == [] {
      EmptyChosen(snapshot, Project(snapshot, []));
    } else {
      var before, o := log[..|log| - 1], log[|log| - 1];
      assert log == before + [o];
      AtMostOneSelection(snapshot, before);
      ViewTracksLog(snapshot, before);
      AcceptedChosen(snapshot, before, o);
    }
  }

  lemma AcceptedChosen(snapshot: CandidateSet, before: seq<Outcome>, o: Outcome)
    requires ValidSnapshot(snapshot) && Follows(before, o) && Recordable(snapshot, before, o)
    requires Agrees(snapshot, before, Project(snapshot, before)) && Chosen(before, Project(snapshot, before))
    ensures Chosen(before + [o], Project(snapshot, before + [o]))
  {
    var at := AcceptedStep(snapshot, before, o);
    ChosenStep(snapshot, before, Project(snapshot, before), Project(snapshot, before + [o]), at, o);
  }

  lemma EmptyChosen(snapshot: CandidateSet, view: CandidateSet)
    requires ValidSnapshot(snapshot) && view.candidates == snapshot.candidates && view.selectedId == None
    ensures Chosen([], view)
  {
    forall i | 0 <= i < |view.candidates|
      ensures view.candidates[i].state !in {Selected, Completed}
    {
      assert view.candidates[i] in snapshot.candidates;
    }
  }

  /** At most one SELECTED outcome exists in a set, and only the candidate it names can be COMPLETED. */
  lemma SelectionIsUnique(snapshot: CandidateSet, log: seq<Outcome>)
    requires ValidSnapshot(snapshot) && Accumulated(snapshot, log)
    ensures |Filter(IsSelection, log)| <= 1
    ensures forall o | o in log && o.state == Complete ::
              Filter(IsSelection, log) != [] && Filter(IsSelection, log)[0].candidateId == o.candidateId
  {
    AtMostOneSelection(snapshot, log);
  }

  /* Size of a log. */

  function Rung(s: CandidateState): nat {
    match s
    case Offered => 1
    case Viewed => 2
    case Rejected => 3
    case Selected => 3
    case Completed => 4
    case _ => 0
  }

  function Climbed(candidates: seq<Evaluated>): nat {
    if candidates == [] then 0 else Rung(candidates[0].state) + Climbed(candidates[1..])
  }

  lemma {:induction false} ClimbedUpdate(candidates: seq<Evaluated>, i: nat, c: Evaluated)
    requires i < |candidates|
    ensures Climbed(candidates[i := c]) == Climbed(candidates) - Rung(candidates[i].state) + Rung(c.state)
  {
    if i == 0 {
      assert candidates[i := c][1..] == candidates[1..];
    } else {
      assert candidates[i := c][1..] == candidates[1..][i - 1 := c];
      ClimbedUpdate(candidates[1..], i - 1, c);
    }
  }

  lemma {:induction false} LogIsClimb(snapshot: CandidateSet, log: seq<Outcome>)
    requires ValidSnapshot(snapshot) && Accumulated(snapshot, log)
    ensures |log| <= Climbed(Project(snapshot, log).candidates)
  {
    if log != [] {
      var before, o := log[..|log| - 1], log[|log| - 1];
      assert log == before + [o];
      LogIsClimb(snapshot, before);
      var at := AcceptedStep(snapshot, before, o);
      ClimbStep(Project(snapshot, before), Project(snapshot, log), at, o);
    }
  }

  lemma ClimbStep(view: CandidateSet, view': CandidateSet, at: nat, o: Outcome)
    requires Moves(view, view', at, o)
    ensures Climbed(view'.candidates) >= Climbed(view.candidates) + 1
  {
    ClimbedUpdate(view.candidates, at, view.candidates[at].(state := AsCandidateState(o.state)));
  }

  lemma {:induction false} ClimbBound(candidates: seq<Evaluated>)
    requires forall i, j :: 0 <= i < j < |candidates| ==>
               candidates[i].state != Completed || candidates[j].state != Completed
    ensures Climbed(candidates) <= 3 * |candidates| + 1
    ensures (forall c | c in candidates :: c.state != Completed) ==> Climbed(candidates) <= 3 * |candidates|
  {
    if candidates != [] {
      ClimbBound(candidates[1..]);
      if candidates[0].state == Completed {
        forall c | c in candidates[1..]
          ensures c.state != Completed
        {
          var j :| 1 <= j < |candidates| && candidates[j] == c;
        }
      }
      assert candidates[0] in candidates && forall c | c in candidates[1..] :: c in candidates;
    }
  }

  /** A set of n candidates admits at most 3n + 1 outcomes. */
  lemma LogIsBounded(snapshot: CandidateSet, log: seq<Outcome>)
    requires ValidSnapshot(snapshot) && Accumulated(snapshot, log)
    ensures |log| <= 3 * |snapshot.candidates| + 1
  {
    LogIsClimb(snapshot, log);
    AtMostOneSelection(snapshot, log);
    ProjectionKeepsSnapshot(snapshot, log);
    OneCompleted(snapshot, log, Project(snapshot, log));
    ClimbBound(Project(snapshot, log).candidates);
  }

  lemma OneCompleted(snapshot: CandidateSet, log: seq<Outcome>, view: CandidateSet)
    requires ValidSnapshot(snapshot) && Chosen(log, view)
    requires |view.candidates| == |snapshot.candidates|
    requires forall i :: 0 <= i < |view.candidates| ==> view.candidates[i].base == snapshot.candidates[i].base
    ensures forall i, j :: 0 <= i < j < |view.candidates| ==>
              view.candidates[i].state != Completed || view.candidates[j].state != Completed
  {
    forall i, j | 0 <= i < j < |view.candidates|
      ensures view.candidates[i].state != Completed || view.candidates[j].state != Completed
    {
      assert snapshot.candidates[i].base.id != snapshot.candidates[j].base.id;
    }
  }

  /** The stored log of one candidate set. */
  class OutcomeLog {
    const snapshot: CandidateSet
    var log: seq<Outcome>

    constructor (snapshot: CandidateSet)
      ensures this.snapshot == snapshot && log == []
    {
      this.snapshot, log := snapshot, [];
    }

    /** An accepted request appends exactly its outcome and shows it; a refused one changes nothing. */
    method Record(r: Request, occurredAt: int, outcomeId: string) returns (reply: Reply, view: CandidateSet)
      modifies this
      ensures reply == Decide(Project(snapshot, old(log)), r)
      ensures log == if reply != Accepted then old(log)
                     else old(log) + [Outcome(occurredAt, outcomeId, r.candidateId, r.state, r.reason, r.overrideReason,
                                              r.hasMaterialOutcome)]
      ensures view == Project(snapshot, log)
    {
      reply := Decide(Project(snapshot, log), r);
      if reply == Accepted {
        log := log + [OutcomeOf(r, occurredAt, outcomeId)];
      }
      view := ProjectCandidateSetOutcomes(snapshot, log);
    }
  }
}
