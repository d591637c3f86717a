/** The bounded investigation graph (agent/graph.py), one node at a time.
  * The language model is an adversary: its n-th answer to either question may be anything, or an exception. */
module Graph {
  import opened Options
  import opened Seqs
  import opened Recovery
  import Risk
  import A = Assessment

  /* State. */

  datatype ToolName =
    | GetTripContext | GetFlightStatus | GetConnectionFeasibility | GetAirportWeather
    | GetGroundRouteRisk | GetDestinationAdvisory | FindAlternativeFlights | GetCorporateTravelPolicy
    | LoadMemory | ModelToolSelection | OtherTool(name: string)

  const READ_ONLY_TOOLS: set<ToolName> :=
    {GetTripContext, GetFlightStatus, GetConnectionFeasibility, GetAirportWeather,
     GetGroundRouteRisk, GetDestinationAdvisory, FindAlternativeFlights, GetCorporateTravelPolicy}

  const MAX_REACT_ITERATIONS: nat := 3

  datatype AuditOutcome =
    | MemoryLoaded(profile: bool, playbooks: bool)
    | SelectionFailed | SelectedTool | SelectedNoTool
    | ModelSelectedSnapshot | DeterministicSnapshot
    | PolicyEvaluated

  datatype AuditEntry = AuditEntry(tool: ToolName, evidenceIds: seq<string>, outcome: AuditOutcome)

  datatype ModelAuditEntry = ModelAuditEntry(forSelection: bool, failed: bool)

  datatype EvidenceItem = EvidenceItem(id: Option<string>, source: A.Source)

  datatype Call = Call(name: ToolName, tripId: Option<string>)

  datatype Uncertainty = MediumUncertainty | HighUncertainty | StatedUncertainty(text: string)

  datatype Recommendation = Recommendation(
    evidenceIds: seq<string>, uncertainty: Uncertainty, requiresHumanApproval: bool,
    rankedIds: seq<string>, message: string, rankedCount: Option<nat>)

  datatype Memory = Memory(minimumConnection: Option<int>, version: int)

  datatype PolicyDecision = PolicyDecision(
    eligibleIds: seq<string>, minimumConnection: Option<int>, memoryVersion: Option<int>, playbooks: seq<string>)

  datatype Approval = Approval(decision: string, dispatchId: Option<string>, idempotencyKey: Option<string>)

  datatype Dispatch = Dispatch(dispatchId: string, idempotencyKey: string)

  datatype Mode = NoMode | DeterministicFallback | ModelSelected | ModelSelectedNoTool | DeterministicFollowUp

  datatype State = State(
    tripId: string, severity: Risk.Severity, unavailable: set<A.Source>, evidence: seq<EvidenceItem>,
    traveler: Option<Memory>, playbookContext: seq<string>, llmEnabled: bool,
    memory: Option<Memory>, approvedPlaybooks: seq<string>,
    reactIterations: nat, toolAudit: seq<AuditEntry>, modelAudit: seq<ModelAuditEntry>,
    selectionAttempted: bool, mode: Mode, pending: Option<Call>, recommendation: Option<Recommendation>,
    alternatives: seq<Evaluated>, eligible: seq<Evaluated>, ranking: Option<seq<string>>,
    policyDecision: Option<PolicyDecision>, policyGate: Option<seq<string>>,
    approval: Option<Approval>, dispatched: seq<Dispatch>, finalStatus: Option<string>)

  /** The state the API starts an investigation with. */
  predicate Initial(s: State) {
    && s.memory.None? && s.approvedPlaybooks == []
    && s.reactIterations == 0 && s.toolAudit == [] && s.modelAudit == []
    && !s.selectionAttempted && s.mode == NoMode && s.pending.None? && s.recommendation.None?
    && s.alternatives == [] && s.eligible == [] && s.ranking.None?
    && s.policyDecision.None? && s.policyGate.None?
    && s.approval.None? && s.dispatched == [] && s.finalStatus.None?
  }

  /* Surroundings. */

  datatype Selection = SelectionRaises | SelectNothing | SelectTool(call: Call)

  datatype Advice = AdviceRaises | Advise(recommendation: Recommendation)

  datatype Model = Model(select: nat -> Selection, advise: nat -> Advice)

  datatype Decision = NotAnObject | Payload(
    decision: Option<string>, dispatchId: Option<string>, idempotencyKey: Option<string>)

  datatype World = World(model: Model, apiKey: bool, flights: seq<Candidate>, decision: Decision)

  datatype Node =
    | Start | LoadMemoryContext | ReactAssistant | Tools | RecommendationNode
    | VerifyAlternatives | RankOptions | AttachRanking | PolicyGate | ApprovalGate
    | QueueAction | Finalize | End

  /** A run in progress: the graph state with what an observer counts. */
  datatype Machine = Machine(
    node: Node, state: State, selects: nat, advises: nat, assistantRuns: nat, shown: Option<Recommendation>)

  /* Node bodies. */

  function EvidenceIds(evidence: seq<EvidenceItem>): seq<string> {
    if evidence == [] then []
    else (if evidence[0].id.Some? then [evidence[0].id.value] else []) + EvidenceIds(evidence[1..])
  }

  function Fallback(s: State): Recommendation {
    Recommendation(
      EvidenceIds(s.evidence), if s.unavailable != {} then HighUncertainty else MediumUncertainty,
      true, [], "review the cited evidence", None)
  }

  function NextTool(s: State): Option<ToolName> {
    var called := set e | e in s.toolAudit :: e.tool;
    var types := set i | i in s.evidence :: i.source;
    if s.reactIterations >= MAX_REACT_ITERATIONS then None
    else if A.FlightStatus in types && GetFlightStatus !in called then Some(GetFlightStatus)
    else if A.ConnectionFeasibility in types && GetConnectionFeasibility !in called then
      Some(GetConnectionFeasibility)
    else if A.WeatherAtAirport in types && GetAirportWeather !in called then Some(GetAirportWeather)
    else None
  }

  function LoadMemoryNode(s: State): State {
    s.(memory := s.traveler, approvedPlaybooks := s.playbookContext,
       toolAudit := s.toolAudit
         + [AuditEntry(LoadMemory, [], MemoryLoaded(s.traveler.Some?, s.playbookContext != []))])
  }

  predicate ModelAvailable(w: World, s: State) {
    s.llmEnabled && w.apiKey
  }

  predicate AsksForTool(w: World, s: State) {
    !s.selectionAttempted && ModelAvailable(w, s)
  }

  function SelectionNode(s: State, answer: Selection): State {
    match answer
    case SelectionRaises =>
      s.(selectionAttempted := true, mode := DeterministicFallback,
         toolAudit := s.toolAudit + [AuditEntry(ModelToolSelection, [], SelectionFailed)],
         modelAudit := s.modelAudit + [ModelAuditEntry(true, true)])
    case SelectTool(call) =>
      s.(selectionAttempted := true, mode := ModelSelected, pending := Some(call),
         toolAudit := s.toolAudit + [AuditEntry(ModelToolSelection, [], SelectedTool)],
         modelAudit := s.modelAudit + [ModelAuditEntry(true, false)])
    case SelectNothing =>
      s.(selectionAttempted := true, mode := ModelSelectedNoTool, pending := None,
         recommendation := Some(Fallback(s)),
         toolAudit := s.toolAudit + [AuditEntry(ModelToolSelection, [], SelectedNoTool)],
         modelAudit := s.modelAudit + [ModelAuditEntry(true, false)])
  }

  function FollowUpNode(s: State): State {
    var tool := NextTool(s);
    if tool.None? then s.(pending := None, recommendation := Some(Fallback(s)))
    else s.(mode := DeterministicFollowUp, pending := Some(Call(tool.value, Some(s.tripId))))
  }

  predicate CallValid(s: State) {
    s.pending.Some? && s.pending.value.name in READ_ONLY_TOOLS && s.pending.value.tripId == Some(s.tripId)
  }

  function ToolsNode(s: State): State {
    if !CallValid(s) then s.(pending := None, recommendation := Some(Fallback(s)))
    else
      s.(reactIterations := s.reactIterations + 1, pending := None,
         toolAudit := s.toolAudit
           + [AuditEntry(s.pending.value.name, EvidenceIds(s.evidence),
                if s.mode == ModelSelected then ModelSelectedSnapshot else DeterministicSnapshot)])
  }

  predicate AsksForAdvice(w: World, s: State) {
    ModelAvailable(w, s) && (s.severity == Risk.High || s.severity == Risk.Critical)
  }

  function Cautious(s: State): Recommendation {
    Fallback(s).(uncertainty := HighUncertainty)
  }

  function RecommendNode(s: State, asked: bool, answer: Advice): State {
    var proposed :=
      if !asked then s.recommendation.GetOr(Fallback(s))
      else if answer.Advise? then answer.recommendation
      else Cautious(s);
    var known := set id | id in EvidenceIds(s.evidence);
    var cited := set id | id in proposed.evidenceIds;
    s.(recommendation := Some(if cited <= known then proposed else Cautious(s)),
       modelAudit := if asked then s.modelAudit + [ModelAuditEntry(false, answer.AdviceRaises?)] else s.modelAudit)
  }

  function MinimumConnection(memory: Option<Memory>): Option<int> {
    if memory.Some? then memory.value.minimumConnection else None
  }

  function VerifyNode(s: State, flights: seq<Candidate>): State {
    var minimum := MinimumConnection(s.memory);
    var evaluated := Map(Evaluator(DEFAULT_POLICY, minimum), flights);
    s.(alternatives := evaluated, eligible := [],
       policyDecision := Some(PolicyDecision(
         Map(Id, Filter(IsEligible, evaluated)), minimum,
         if s.memory.Some? then Some(s.memory.value.version) else None, s.approvedPlaybooks)),
       toolAudit := s.toolAudit
         + [AuditEntry(FindAlternativeFlights, EvidenceIds(s.evidence), PolicyEvaluated)])
  }

  /** The displayed position of an identifier in a ranking; the last one, should it occur twice. */
  function PositionOf(ranked: seq<Evaluated>, id: string): Option<nat> {
    if ranked == [] then None
    else
      var last := ranked[|ranked| - 1];
      if last.base.id == id then last.position else PositionOf(ranked[..|ranked| - 1], id)
  }

  function Positioned(ranked: seq<Evaluated>): Evaluated -> Evaluated {
    (c: Evaluated) => c.(position := PositionOf(ranked, c.base.id))
  }

  function RankNode(s: State): State {
    var ranked := RankEligible(s.alternatives);
    s.(alternatives := Map(Positioned(ranked), s.alternatives), eligible := ranked,
       ranking := Some(Map(Id, ranked)))
  }

  function AttachNode(s: State): State {
    var ids := s.ranking.GetOr([]);
    s.(recommendation := Some(s.recommendation.GetOr(Fallback(s)).(rankedIds := ids, rankedCount := Some(|ids|))))
  }

  function PolicyGateNode(s: State): State {
    s.(policyGate := Some(if s.policyDecision.Some? then s.policyDecision.value.eligibleIds else []))
  }

  function Answer(d: Decision): Approval {
    if d.Payload? && (d.decision == Some("approve") || d.decision == Some("reject")) then
      Approval(d.decision.value, d.dispatchId, d.idempotencyKey)
    else Approval("reject", None, None)
  }

  predicate Given(text: Option<string>) {
    text.Some? && text.value != ""
  }

  function QueueNode(s: State): State {
    var approval := s.approval.GetOr(Approval("", None, None));
    if approval.decision != "approve" || !Given(approval.dispatchId) || !Given(approval.idempotencyKey) then
      s.(dispatched := [])
    else s.(dispatched := [Dispatch(approval.dispatchId.value, approval.idempotencyKey.value)])
  }

  function FinalizeNode(s: State): State {
    s.(finalStatus := Some(if s.approval.Some? then s.approval.value.decision else "assessed"))
  }

  /* The edges. */

  function Entry(s: State): Node {
    match A.RouteBySeverity(s.severity, s.unavailable)
    case LoadMemoryContext => LoadMemoryContext
    case ApprovalGate => ApprovalGate
    case Finalize => Finalize
  }

  function Step(w: World, m: Machine): Machine {
    var s := m.state;
    match m.node
    case Start => m.(node := Entry(s))
    case LoadMemoryContext => m.(node := ReactAssistant, state := LoadMemoryNode(s))
    case ReactAssistant =>
      var asks := AsksForTool(w, s);
      var s' := if asks then SelectionNode(s, w.model.select(m.selects)) else FollowUpNode(s);
      m.(node := if s'.pending.Some? then Tools else RecommendationNode, state := s',
         selects := if asks then m.selects + 1 else m.selects, assistantRuns := m.assistantRuns + 1)
    case Tools => m.(node := ReactAssistant, state := ToolsNode(s))
    case RecommendationNode =>
      var asks := AsksForAdvice(w, s);
      m.(node := VerifyAlternatives, state := RecommendNode(s, asks, w.model.advise(m.advises)),
         advises := if asks then m.advises + 1 else m.advises)
    case VerifyAlternatives => m.(node := RankOptions, state := VerifyNode(s, w.flights))
    case RankOptions => m.(node := AttachRanking, state := RankNode(s))
    case AttachRanking => m.(node := PolicyGate, state := AttachNode(s))
    case PolicyGate => m.(node := ApprovalGate, state := PolicyGateNode(s))
    case ApprovalGate =>
      m.(node := QueueAction, state := s.(approval := Some(Answer(w.decision))),
         shown := Some(s.recommendation.GetOr(Fallback(s))))
    case QueueAction => m.(node := Finalize, state := QueueNode(s))
    case Finalize => m.(node := End, state := FinalizeNode(s))
    case End => m
  }

  function Begin(s: State): Machine {
    Machine(Start, s, 0, 0, 0, None)
  }

  /* Every reachable configuration. */

  predicate IsLoopEntry(e: AuditEntry) {
    e.outcome == ModelSelectedSnapshot || e.outcome == DeterministicSnapshot
  }

  function ToolOf(e: AuditEntry): ToolName {
    e.tool
  }

  /** The tools the loop has run, in order. */
  function LoopTools(s: State): seq<ToolName> {
    Map(ToolOf, Filter(IsLoopEntry, s.toolAudit))
  }

  /** What no node writes. */
  ghost predicate SameInput(s: State, s0: State) {
    && s.tripId == s0.tripId && s.severity == s0.severity && s.unavailable == s0.unavailable
    && s.evidence == s0.evidence && s.traveler == s0.traveler
    && s.playbookContext == s0.playbookContext && s.llmEnabled == s0.llmEnabled
  }

  predicate InLoop(n: Node) {
    n == Start || n == LoadMemoryContext || n == ReactAssistant || n == Tools
  }

  ghost predicate LoopBounded(w: World, m: Machine) {
    var s := m.state;
    var attempted: nat := if s.selectionAttempted then 1 else 0;
    && s.reactIterations <= MAX_REACT_ITERATIONS
    && (AsksForTool(w, s) ==> s.reactIterations == 0)
    && (s.pending.Some? ==> m.node == Tools)
    && (m.node == Tools ==> !AsksForTool(w, s))
    && m.selects == attempted
    && m.advises <= (if InLoop(m.node) || m.node == RecommendationNode then 0 else 1)
    && (match m.node
        case Start => m.assistantRuns == s.reactIterations == attempted == 0
        case LoadMemoryContext => m.assistantRuns == s.reactIterations == attempted == 0
        case ReactAssistant => m.assistantRuns <= s.reactIterations + attempted
        case Tools =>
          if CallValid(s) then
            s.reactIterations < MAX_REACT_ITERATIONS && m.assistantRuns <= s.reactIterations + 1 + attempted
          else s.selectionAttempted && m.assistantRuns <= s.reactIterations + 1
        case _ => m.assistantRuns <= s.reactIterations + 1 + attempted)
  }

  ghost predicate LoopAudited(m: Machine) {
    var tools := LoopTools(m.state);
    && |tools| == m.state.reactIterations
    && NoDuplicates(tools)
    && (forall t | t in tools :: t in READ_ONLY_TOOLS)
    && (m.node == Tools && CallValid(m.state) ==> m.state.pending.value.name !in tools)
  }

  ghost predicate Cites(r: Recommendation, s0: State) {
    forall id | id in r.evidenceIds :: id in EvidenceIds(s0.evidence)
  }

  ghost predicate Cited(m: Machine, s0: State) {
    && (m.state.recommendation.Some? ==> Cites(m.state.recommendation.value, s0))
    && (m.shown.Some? ==> Cites(m.shown.value, s0))
  }

  predicate Approves(d: Decision) {
    d.Payload? && d.decision == Some("approve") && Given(d.dispatchId) && Given(d.idempotencyKey)
  }

  predicate PastGate(n: Node) {
    n == QueueAction || n == Finalize || n == End
  }

  predicate PastQueue(n: Node) {
    n == Finalize || n == End
  }

  ghost predicate Gated(w: World, m: Machine, s0: State) {
    var s := m.state;
    && s.approval == (if PastGate(m.node) && Entry(s0) != Finalize then Some(Answer(w.decision)) else None)
    && s.dispatched == (
         if PastQueue(m.node) && Entry(s0) != Finalize && Approves(w.decision) then
           [Dispatch(w.decision.dispatchId.value, w.decision.idempotencyKey.value)]
         else [])
    && (Entry(s0) == Finalize ==> m.node == Start || m.node == Finalize || m.node == End)
    && (Entry(s0) == ApprovalGate ==> m.node == Start || m.node == ApprovalGate || PastGate(m.node))
    && (m.shown.Some? <==> PastGate(m.node) && Entry(s0) != Finalize)
  }

  /** Steps left, at most. */
  function Fuel(m: Machine): int {
    var s := m.state;
    var loop := 2 * (MAX_REACT_ITERATIONS - s.reactIterations) + if s.selectionAttempted then 0 else 2;
    match m.node
    case Start => 19
    case LoadMemoryContext => 18
    case ReactAssistant => 9 + loop
    case Tools => if CallValid(s) then 8 + loop else 10 + loop
    case RecommendationNode => 8
    case VerifyAlternatives => 7
    case RankOptions => 6
    case AttachRanking => 5
    case PolicyGate => 4
    case ApprovalGate => 3
    case QueueAction => 2
    case Finalize => 1
    case End => 0
  }

  ghost predicate Reached(w: World, m: Machine, s0: State) {
    && SameInput(m.state, s0)
    && LoopBounded(w, m) && LoopAudited(m)
    && Cited(m, s0) && Gated(w, m, s0)
  }

  lemma BeginReached(w: World, s0: State)
    requires Initial(s0)
    ensures Reached(w, Begin(s0), s0)
  {
    assert LoopTools(s0) == [];
  }

  lemma StepKeepsInput(w: World, m: Machine, s0: State)
    requires SameInput(m.state, s0)
    ensures SameInput(Step(w, m).state, s0)
  {
    if InLoop(m.node) {
      LoopKeepsInput(w, m, s0);
    } else {
      TailKeepsInput(w, m, s0);
    }
  }

  lemma LoopKeepsInput(w: World, m: Machine, s0: State)
    requires SameInput(m.state, s0) && InLoop(m.node)
    ensures SameInput(Step(w, m).state, s0)
  {
  }

  lemma TailKeepsInput(w: World, m: Machine, s0: State)
    requires SameInput(m.state, s0) && !InLoop(m.node)
    ensures SameInput(Step(w, m).state, s0)
  {
  }

  lemma AssistantBounded(w: World, m: Machine)
    requires LoopBounded(w, m) && m.node == ReactAssistant
    ensures LoopBounded(w, Step(w, m)) && 0 <= Fuel(Step(w, m)) < Fuel(m)
  {
    if !AsksForTool(w, m.state) && NextTool(m.state).Some? {
      NextToolFits(m.state);
    }
  }

  lemma ToolsBounded(w: World, m: Machine)
    requires LoopBounded(w, m) && m.node == Tools
    ensures LoopBounded(w, Step(w, m)) && 0 <= Fuel(Step(w, m)) < Fuel(m)
  {
  }

  lemma StepBounded(w: World, m: Machine)
    requires LoopBounded(w, m)
    ensures LoopBounded(w, Step(w, m))
    ensures m.node != End ==> 0 <= Fuel(Step(w, m)) < Fuel(m)
  {
    match m.node
    case ReactAssistant => AssistantBounded(w, m);
    case Tools => ToolsBounded(w, m);
    case Start => StartBounded(w, m);
    case LoadMemoryContext =>
    case _ => TailBounded(w, m);
  }

  lemma StartBounded(w: World, m: Machine)
    requires LoopBounded(w, m) && m.node == Start
    ensures LoopBounded(w, Step(w, m)) && 0 <= Fuel(Step(w, m)) < Fuel(m)
  {
  }

  lemma TailBounded(w: World, m: Machine)
    requires LoopBounded(w, m) && !InLoop(m.node)
    ensures LoopBounded(w, Step(w, m))
    ensures m.node != End ==> 0 <= Fuel(Step(w, m)) < Fuel(m)
  {
    var s, s' := m.state, Step(w, m).state;
    assert s'.reactIterations == s.reactIterations && s'.selectionAttempted == s.selectionAttempted
           && s'.pending == s.pending && s'.llmEnabled == s.llmEnabled;
  }

  lemma NextToolFits(s: State)
    requires NextTool(s).Some?
    ensures NextTool(s).value in READ_ONLY_TOOLS && s.reactIterations < MAX_REACT_ITERATIONS
    ensures NextTool(s).value !in LoopTools(s)
  {
    FilterMembers(IsLoopEntry, s.toolAudit);
  }

  lemma AuditAppended(s: State, e: AuditEntry)
    ensures LoopTools(s.(toolAudit := s.toolAudit + [e]))
         == LoopTools(s) + if IsLoopEntry(e) then [e.tool] else []
  {
    FilterAppend(IsLoopEntry, s.toolAudit, [e]);
    assert [e][1..] == [];
    assert Filter(IsLoopEntry, [e]) == if IsLoopEntry(e) then [e] else [];
  }

  lemma StepAudited(w: World, m: Machine)
    requires LoopAudited(m) && LoopBounded(w, m)
    ensures LoopAudited(Step(w, m))
    ensures m.state.toolAudit <= Step(w, m).state.toolAudit
  {
    var s, s' := m.state, Step(w, m).state;
    match m.node
    case LoadMemoryContext =>
      AuditAppended(s, s'.toolAudit[|s.toolAudit|]);
    case ReactAssistant =>
      AssistantAudited(w, m);
    case Tools =>
      ToolsAudited(w, m);
    case VerifyAlternatives =>
      AuditAppended(s, s'.toolAudit[|s.toolAudit|]);
    case _ =>
  }

  lemma AssistantAudited(w: World, m: Machine)
    requires LoopAudited(m) && LoopBounded(w, m) && m.node == ReactAssistant
    ensures LoopAudited(Step(w, m))
    ensures m.state.toolAudit <= Step(w, m).state.toolAudit
  {
    var s, s' := m.state, Step(w, m).state;
    if AsksForTool(w, s) {
      var e := s'.toolAudit[|s.toolAudit|];
      AuditAppended(s, e);
      assert s'.toolAudit == s.toolAudit + [e];
    } else if NextTool(s).Some? {
      NextToolFits(s);
    }
  }

  lemma ToolsAudited(w: World, m: Machine)
    requires LoopAudited(m) && m.node == Tools
    ensures LoopAudited(Step(w, m))
    ensures m.state.toolAudit <= Step(w, m).state.toolAudit
  {
    var s, s' := m.state, Step(w, m).state;
    if CallValid(s) {
      var e := s'.toolAudit[|s.toolAudit|];
      AuditAppended(s, e);
      assert s'.toolAudit == s.toolAudit + [e];
    }
  }

  lemma RecommendCited(s: State, s0: State, asked: bool, answer: Advice)
    requires s.evidence == s0.evidence && (s.recommendation.Some? ==> Cites(s.recommendation.value, s0))
    ensures Cites(RecommendNode(s, asked, answer).recommendation.value, s0)
  {
    var r := RecommendNode(s, asked, answer).recommendation.value;
    var known := set i | i in EvidenceIds(s.evidence);
    forall id | id in r.evidenceIds
      ensures id in EvidenceIds(s0.evidence)
    {
      var cited := set i | i in r.evidenceIds;
      assert id in cited;
      if cited <= known {
        assert id in known;
      }
    }
  }

  lemma LoopCited(w: World, m: Machine, s0: State)
    requires Cited(m, s0) && m.state.evidence == s0.evidence && InLoop(m.node)
    ensures Cited(Step(w, m), s0)
  {
    assert Cites(Fallback(m.state), s0);
  }

  lemma TailCited(w: World, m: Machine, s0: State)
    requires Cited(m, s0) && m.state.evidence == s0.evidence && !InLoop(m.node) && m.node != RecommendationNode
    ensures Cited(Step(w, m), s0)
  {
    var s, s' := m.state, Step(w, m).state;
    assert Cites(Fallback(s), s0);
    if m.node == AttachRanking {
      assert s'.recommendation.value.evidenceIds == s.recommendation.GetOr(Fallback(s)).evidenceIds;
    } else {
      assert s'.recommendation == s.recommendation;
    }
  }

  lemma StepCited(w: World, m: Machine, s0: State)
    requires Cited(m, s0) && m.state.evidence == s0.evidence
    ensures Cited(Step(w, m), s0)
  {
    if InLoop(m.node) {
      LoopCited(w, m, s0);
    } else if m.node == RecommendationNode {
      RecommendCited(m.state, s0, AsksForAdvice(w, m.state), w.model.advise(m.advises));
    } else {
      TailCited(w, m, s0);
    }
  }

  lemma GatePassed(w: World, m: Machine, s0: State)
    requires Gated(w, m, s0) && (m.node == ApprovalGate || PastGate(m.node))
    ensures Gated(w, Step(w, m), s0)
  {
  }

  lemma GateAhead(w: World, m: Machine, s0: State)
    requires Gated(w, m, s0) && m.node != Start && m.node != ApprovalGate && !PastGate(m.node)
    ensures Gated(w, Step(w, m), s0)
  {
    var s, m' := m.state, Step(w, m);
    assert m'.state.approval == s.approval && m'.state.dispatched == s.dispatched && m'.shown == m.shown;
    assert !PastGate(m'.node);
  }

  lemma StepGated(w: World, m: Machine, s0: State)
    requires Gated(w, m, s0) && SameInput(m.state, s0)
    ensures Gated(w, Step(w, m), s0)
  {
    if m.node == Start {
      assert Entry(m.state) == Entry(s0);
    } else if m.node == ApprovalGate || PastGate(m.node) {
      GatePassed(w, m, s0);
    } else {
      GateAhead(w, m, s0);
    }
  }

  lemma StepReached(w: World, m: Machine, s0: State)
    requires Reached(w, m, s0)
    ensures Reached(w, Step(w, m), s0)
    ensures m.node != End ==> 0 <= Fuel(Step(w, m)) < Fuel(m)
    ensures m.state.toolAudit <= Step(w, m).state.toolAudit
  {
    StepKeepsInput(w, m, s0);
    StepBounded(w, m);
    StepAudited(w, m);
    StepCited(w, m, s0);
    StepGated(w, m, s0);
  }

  /* Whole runs. */

  /** The run to its end; that it has one is the termination check of this function. */
  function Run(w: World, m: Machine): Machine
    requires LoopBounded(w, m)
    decreases Fuel(m)
  {
    if m.node == End then m
    else
      StepBounded(w, m);
      Run(w, Step(w, m))
  }

  function Steps(w: World, m: Machine): nat
    requires LoopBounded(w, m)
    decreases Fuel(m)
  {
    if m.node == End then 0
    else
      StepBounded(w, m);
      1 + Steps(w, Step(w, m))
  }

  lemma {:induction false} RunReached(w: World, m: Machine, s0: State)
    requires Reached(w, m, s0)
    ensures Reached(w, Run(w, m), s0) && Run(w, m).node == End
    ensures Steps(w, m) <= Fuel(m)
    ensures m.state.toolAudit <= Run(w, m).state.toolAudit
    decreases Fuel(m)
  {
    if m.node != End {
      StepReached(w, m, s0);
      RunReached(w, Step(w, m), s0);
    }
  }

  /** Whatever the model answers, an investigation ends within 19 node runs and within its budget:
    * at most 3 lookups by distinct read-only tools, 5 assistant turns, and one model call of each kind. */
  lemma InvestigationIsBounded(w: World, s0: State)
    requires Initial(s0)
    ensures LoopBounded(w, Begin(s0))
    ensures var end := Run(w, Begin(s0));
            && end.node == End && Steps(w, Begin(s0)) <= 19
            && |LoopTools(end.state)| == end.state.reactIterations <= 3
            && NoDuplicates(LoopTools(end.state))
            && (forall t | t in LoopTools(end.state) :: t in READ_ONLY_TOOLS)
            && end.assistantRuns <= 5 && end.selects <= 1 && end.advises <= 1
  {
    BeginReached(w, s0);
    RunReached(w, Begin(s0), s0);
  }

  /** An action is queued exactly when the gate was passed with an approval carrying both identities. */
  lemma DispatchNeedsApproval(w: World, s0: State)
    requires Initial(s0)
    ensures LoopBounded(w, Begin(s0))
    ensures var end := Run(w, Begin(s0)).state;
            && (end.dispatched != [] <==> Entry(s0) != Finalize && Approves(w.decision))
            && (end.dispatched != [] ==>
                  end.dispatched == [Dispatch(w.decision.dispatchId.value, w.decision.idempotencyKey.value)])
  {
    BeginReached(w, s0);
    RunReached(w, Begin(s0), s0);
  }

  /** The recommendation shown at the approval gate cites input evidence only. */
  lemma ShownRecommendationCitesEvidence(w: World, s0: State)
    requires Initial(s0)
    ensures LoopBounded(w, Begin(s0))
    ensures var shown := Run(w, Begin(s0)).shown;
            && (shown.Some? <==> Entry(s0) != Finalize)
            && (shown.Some? ==> forall id | id in shown.value.evidenceIds :: id in EvidenceIds(s0.evidence))
  {
    BeginReached(w, s0);
    RunReached(w, Begin(s0), s0);
  }

  /* Non-interference. */

  /** The part of the state that decides what a manager may approve. */
  datatype Low = Low(
    memory: Option<Memory>, playbooks: seq<string>, alternatives: seq<Evaluated>, eligible: seq<Evaluated>,
    ranking: Option<seq<string>>, policyDecision: Option<PolicyDecision>, policyGate: Option<seq<string>>)

  function LowOf(s: State): Low {
    Low(s.memory, s.approvedPlaybooks, s.alternatives, s.eligible, s.ranking, s.policyDecision, s.policyGate)
  }

  /** That part before each node, worked out with no assistant, no tools and no model. */
  ghost function Reference(n: Node, s0: State, flights: seq<Candidate>): State {
    if Entry(s0) != LoadMemoryContext then s0 else AtStage(StageOf(n), s0, flights)
  }

  datatype Stage = Fresh | Loaded | Verified | Ordered | Gate

  function Depth(stage: Stage): nat {
    match stage
    case Fresh => 0
    case Loaded => 1
    case Verified => 2
    case Ordered => 3
    case Gate => 4
  }

  function StageOf(n: Node): Stage {
    match n
    case Start => Fresh
    case LoadMemoryContext => Fresh
    case RankOptions => Verified
    case AttachRanking => Ordered
    case PolicyGate => Ordered
    case _ => if RankingAttached(n) then Gate else Loaded
  }

  ghost function AtStage(stage: Stage, s0: State, flights: seq<Candidate>): State
    decreases Depth(stage)
  {
    match stage
    case Fresh => s0
    case Loaded => LoadMemoryNode(s0)
    case Verified => VerifyNode(AtStage(Loaded, s0, flights), flights)
    case Ordered => RankNode(AtStage(Verified, s0, flights))
    case Gate => PolicyGateNode(AtStage(Ordered, s0, flights))
  }

  ghost predicate Undisturbed(w: World, m: Machine, s0: State) {
    LowOf(m.state) == LowOf(Reference(m.node, s0, w.flights))
  }

  lemma VerifyLow(a: State, b: State, flights: seq<Candidate>)
    requires LowOf(a) == LowOf(b)
    ensures LowOf(VerifyNode(a, flights)) == LowOf(VerifyNode(b, flights))
  {
  }

  lemma RankLow(a: State, b: State)
    requires LowOf(a) == LowOf(b)
    ensures LowOf(RankNode(a)) == LowOf(RankNode(b))
  {
  }

  lemma AssistantLow(w: World, m: Machine)
    requires m.node == ReactAssistant
    ensures LowOf(Step(w, m).state) == LowOf(m.state)
  {
  }

  lemma ToolsLow(w: World, m: Machine)
    requires m.node == Tools || m.node == RecommendationNode
    ensures LowOf(Step(w, m).state) == LowOf(m.state)
  {
  }

  lemma LoopUndisturbed(w: World, m: Machine, s0: State)
    requires Undisturbed(w, m, s0) && Gated(w, m, s0)
    requires m.node == ReactAssistant || m.node == Tools || m.node == RecommendationNode
    ensures Undisturbed(w, Step(w, m), s0)
  {
    assert Entry(s0) == LoadMemoryContext;
    if m.node == ReactAssistant {
      AssistantLow(w, m);
    } else {
      ToolsLow(w, m);
    }
  }

  lemma EntryUndisturbed(w: World, m: Machine, s0: State)
    requires Undisturbed(w, m, s0) && Gated(w, m, s0) && SameInput(m.state, s0)
    requires m.node == Start || m.node == LoadMemoryContext
    ensures Undisturbed(w, Step(w, m), s0)
  {
    assert Entry(m.state) == Entry(s0);
  }

  lemma VerifyUndisturbed(w: World, m: Machine, s0: State)
    requires Undisturbed(w, m, s0) && Gated(w, m, s0) && m.node == VerifyAlternatives
    ensures Undisturbed(w, Step(w, m), s0)
  {
    VerifyLow(m.state, LoadMemoryNode(s0), w.flights);
  }

  lemma RankUndisturbed(w: World, m: Machine, s0: State)
    requires Undisturbed(w, m, s0) && Gated(w, m, s0) && m.node == RankOptions
    ensures Undisturbed(w, Step(w, m), s0)
  {
    RankLow(m.state, VerifyNode(LoadMemoryNode(s0), w.flights));
  }

  lemma GateUndisturbed(w: World, m: Machine, s0: State)
    requires Undisturbed(w, m, s0) && Gated(w, m, s0) && RankingAttached(m.node)
    ensures Undisturbed(w, Step(w, m), s0)
  {
    if m.node == PolicyGate {
      PolicyUndisturbed(w, m, s0);
    } else {
      PastGateLow(w, m);
      ReferenceGated(m.node, s0, w.flights);
      ReferenceGated(Step(w, m).node, s0, w.flights);
    }
  }

  lemma PolicyUndisturbed(w: World, m: Machine, s0: State)
    requires Undisturbed(w, m, s0) && Gated(w, m, s0) && m.node == PolicyGate
    ensures Undisturbed(w, Step(w, m), s0)
  {
    var ranked := AtStage(Ordered, s0, w.flights);
    assert Entry(s0) == LoadMemoryContext;
    assert LowOf(m.state) == LowOf(ranked);
    PolicyGateLow(m.state, ranked);
    assert AtStage(Gate, s0, w.flights) == PolicyGateNode(ranked);
    ReferenceGated(ApprovalGate, s0, w.flights);
    assert Step(w, m).state == PolicyGateNode(m.state) && Step(w, m).node == ApprovalGate;
  }

  lemma ReferenceGated(n: Node, s0: State, flights: seq<Candidate>)
    requires n == ApprovalGate || PastGate(n)
    ensures Reference(n, s0, flights)
         == if Entry(s0) != LoadMemoryContext then s0 else AtStage(Gate, s0, flights)
  {
    assert StageOf(n) == Gate;
  }

  lemma PolicyGateLow(a: State, b: State)
    requires LowOf(a) == LowOf(b)
    ensures LowOf(PolicyGateNode(a)) == LowOf(PolicyGateNode(b))
  {
  }

  lemma PastGateLow(w: World, m: Machine)
    requires m.node == ApprovalGate || PastGate(m.node)
    ensures LowOf(Step(w, m).state) == LowOf(m.state)
  {
  }

  lemma AttachUndisturbed(w: World, m: Machine, s0: State)
    requires Undisturbed(w, m, s0) && Gated(w, m, s0) && m.node == AttachRanking
    ensures Undisturbed(w, Step(w, m), s0)
  {
  }

  lemma StepUndisturbed(w: World, m: Machine, s0: State)
    requires Undisturbed(w, m, s0) && Gated(w, m, s0) && SameInput(m.state, s0)
    ensures Undisturbed(w, Step(w, m), s0)
  {
    match m.node
    case VerifyAlternatives => VerifyUndisturbed(w, m, s0);
    case RankOptions => RankUndisturbed(w, m, s0);
    case AttachRanking => AttachUndisturbed(w, m, s0);
    case _ =>
      if RankingAttached(m.node) {
        GateUndisturbed(w, m, s0);
      } else if m.node == Start || m.node == LoadMemoryContext {
        EntryUndisturbed(w, m, s0);
      } else {
        LoopUndisturbed(w, m, s0);
      }
  }

  lemma {:induction false} RunUndisturbed(w: World, m: Machine, s0: State)
    requires Reached(w, m, s0) && Undisturbed(w, m, s0)
    ensures Undisturbed(w, Run(w, m), s0) && Run(w, m).node == End
    decreases Fuel(m)
  {
    if m.node != End {
      StepReached(w, m, s0);
      StepUndisturbed(w, m, s0);
      RunUndisturbed(w, Step(w, m), s0);
    }
  }

  predicate RankingAttached(n: Node) {
    n == PolicyGate || n == ApprovalGate || PastGate(n)
  }

  /** Once attached, the ranked identifiers of the recommendation are those of the ranking. */
  ghost predicate Ranked(m: Machine, s0: State) {
    Entry(s0) == LoadMemoryContext && RankingAttached(m.node) ==>
      && m.state.ranking.Some? && m.state.recommendation.Some?
      && m.state.recommendation.value.rankedIds == m.state.ranking.value
      && (PastGate(m.node) ==> m.shown == m.state.recommendation)
  }

  lemma {:induction false} RunRanked(w: World, m: Machine, s0: State)
    requires Reached(w, m, s0) && Undisturbed(w, m, s0) && Ranked(m, s0)
    ensures Ranked(Run(w, m), s0)
    decreases Fuel(m)
  {
    if m.node != End {
      StepReached(w, m, s0);
      StepUndisturbed(w, m, s0);
      StepRanked(w, m, s0);
      RunRanked(w, Step(w, m), s0);
    }
  }

  lemma AttachRanked(w: World, m: Machine, s0: State)
    requires Gated(w, m, s0) && Undisturbed(w, m, s0) && m.node == AttachRanking
    ensures Ranked(Step(w, m), s0)
  {
    assert m.state.ranking == LowOf(m.state).ranking;
    assert m.state.ranking == LowOf(Reference(AttachRanking, s0, w.flights)).ranking;
  }

  lemma StepRanked(w: World, m: Machine, s0: State)
    requires Gated(w, m, s0) && Undisturbed(w, m, s0) && Ranked(m, s0) && SameInput(m.state, s0)
    ensures Ranked(Step(w, m), s0)
  {
    if m.node == AttachRanking {
      AttachRanked(w, m, s0);
    } else if RankingAttached(m.node) {
      KeepRanked(w, m, s0);
    } else {
      assert Entry(m.state) == Entry(s0);
      assert Entry(s0) == LoadMemoryContext ==> !RankingAttached(Step(w, m).node);
    }
  }

  lemma KeepRanked(w: World, m: Machine, s0: State)
    requires Ranked(m, s0) && RankingAttached(m.node)
    ensures Ranked(Step(w, m), s0)
  {
  }

  /** The ranking a run must end with: that of the flights under the standard policy and the traveler's minimum. */
  ghost function ExpectedRanking(s0: State, flights: seq<Candidate>): seq<string> {
    Map(Id, RankEligible(Evaluations(s0, flights)))
  }

  ghost function Evaluations(s0: State, flights: seq<Candidate>): seq<Evaluated> {
    Map(Evaluator(DEFAULT_POLICY, MinimumConnection(s0.traveler)), flights)
  }

  lemma VerifiedStage(s0: State, flights: seq<Candidate>)
    ensures var s := AtStage(Verified, s0, flights);
            s.alternatives == Evaluations(s0, flights) && s.policyDecision.Some?
            && s.policyDecision.value.eligibleIds == Map(Id, Filter(IsEligible, Evaluations(s0, flights)))
  {
    var loaded := AtStage(Loaded, s0, flights);
    assert loaded.memory == s0.traveler;
    assert AtStage(Verified, s0, flights) == VerifyNode(loaded, flights);
  }

  lemma OrderedStage(s0: State, flights: seq<Candidate>)
    ensures var before, s := AtStage(Verified, s0, flights), AtStage(Ordered, s0, flights);
            s.ranking == Some(Map(Id, RankEligible(before.alternatives))) && s.policyDecision == before.policyDecision
  {
  }

  lemma GateStage(s0: State, flights: seq<Candidate>)
    ensures var before, s := AtStage(Ordered, s0, flights), AtStage(Gate, s0, flights);
            s.ranking == before.ranking
            && (before.policyDecision.Some? ==> s.policyGate == Some(before.policyDecision.value.eligibleIds))
  {
  }

  /** What the reference ends with. */
  lemma ReferenceOutcome(s0: State, flights: seq<Candidate>)
    requires Entry(s0) == LoadMemoryContext
    ensures Reference(End, s0, flights).ranking == Some(ExpectedRanking(s0, flights))
    ensures Reference(End, s0, flights).policyGate == Some(Map(Id, Filter(IsEligible, Evaluations(s0, flights))))
  {
    VerifiedStage(s0, flights);
    OrderedStage(s0, flights);
    GateStage(s0, flights);
    ReferenceGated(End, s0, flights);
  }

  lemma RunIsReference(w: World, s0: State)
    requires Initial(s0)
    ensures LoopBounded(w, Begin(s0))
    ensures var end := Run(w, Begin(s0));
            && LowOf(end.state) == LowOf(Reference(End, s0, w.flights))
            && (Entry(s0) == LoadMemoryContext ==>
                  && end.state.ranking == Some(ExpectedRanking(s0, w.flights))
                  && end.shown.Some? && end.shown.value.rankedIds == ExpectedRanking(s0, w.flights))
  {
    BeginReached(w, s0);
    RunReached(w, Begin(s0), s0);
    RunUndisturbed(w, Begin(s0), s0);
    RunRanked(w, Begin(s0), s0);
    if Entry(s0) == LoadMemoryContext {
      ReferenceOutcome(s0, w.flights);
      assert LowOf(Run(w, Begin(s0)).state).ranking == LowOf(Reference(End, s0, w.flights)).ranking;
    }
  }

  /** Two investigations that differ only in the model, its key and whether it is switched on end with the same
    * candidates, ranking, policy decision and gate, and show the same ranked alternatives. */
  lemma ModelCannotInterfere(w: World, w': World, s0: State, llmEnabled: bool)
    requires Initial(s0) && w.flights == w'.flights
    ensures var s0' := s0.(llmEnabled := llmEnabled);
            && LoopBounded(w, Begin(s0)) && LoopBounded(w', Begin(s0'))
            && (var end, end' := Run(w, Begin(s0)), Run(w', Begin(s0'));
                && LowOf(end.state) == LowOf(end'.state)
                && (end.shown.Some? <==> end'.shown.Some?)
                && (end.shown.Some? && Entry(s0) == LoadMemoryContext ==>
                      end.shown.value.rankedIds == end'.shown.value.rankedIds))
  {
    var s0' := s0.(llmEnabled := llmEnabled);
    RunIsReference(w, s0);
    RunIsReference(w', s0');
    ShownRecommendationCitesEvidence(w, s0);
    ShownRecommendationCitesEvidence(w', s0');
    ReferenceIgnoresSwitch(End, s0, llmEnabled, w.flights);
    assert ExpectedRanking(s0, w.flights) == ExpectedRanking(s0', w.flights);
  }

  lemma ReferenceIgnoresSwitch(n: Node, s0: State, llmEnabled: bool, flights: seq<Candidate>)
    ensures LowOf(Reference(n, s0, flights)) == LowOf(Reference(n, s0.(llmEnabled := llmEnabled), flights))
  {
    StageIgnoresSwitch(StageOf(n), s0, llmEnabled, flights);
    assert Entry(s0) == Entry(s0.(llmEnabled := llmEnabled));
  }

  lemma StageIgnoresSwitch(stage: Stage, s0: State, llmEnabled: bool, flights: seq<Candidate>)
    ensures LowOf(AtStage(stage, s0, flights)) == LowOf(AtStage(stage, s0.(llmEnabled := llmEnabled), flights))
    decreases Depth(stage)
  {
    var s0' := s0.(llmEnabled := llmEnabled);
    match stage
    case Fresh =>
    case Loaded =>
    case Verified =>
      StageIgnoresSwitch(Loaded, s0, llmEnabled, flights);
      VerifyLow(AtStage(Loaded, s0, flights), AtStage(Loaded, s0', flights), flights);
    case Ordered =>
      StageIgnoresSwitch(Verified, s0, llmEnabled, flights);
      RankLow(AtStage(Verified, s0, flights), AtStage(Verified, s0', flights));
    case Gate =>
      StageIgnoresSwitch(Ordered, s0, llmEnabled, flights);
      PolicyGateLow(AtStage(Ordered, s0, flights), AtStage(Ordered, s0', flights));
  }

  /** What the gate offers for approval is what was ranked. */
  lemma GateOffersRanked(w: World, s0: State, id: string)
    requires Initial(s0) && Entry(s0) == LoadMemoryContext
    ensures LoopBounded(w, Begin(s0))
    ensures var end := Run(w, Begin(s0)).state;
            && end.policyGate.Some? && end.ranking.Some?
            && (id in end.policyGate.value <==> id in end.ranking.value)
  {
    RunIsReference(w, s0);
    ReferenceOutcome(s0, w.flights);
    assert LowOf(Run(w, Begin(s0)).state).policyGate == LowOf(Reference(End, s0, w.flights)).policyGate;
    RankedAreEligible(Evaluations(s0, w.flights), id);
  }

  lemma RankedAreEligible(evaluated: seq<Evaluated>, id: string)
    ensures id in Map(Id, Filter(IsEligible, evaluated)) <==> id in Map(Id, RankEligible(evaluated))
  {
    var kept, ranked := Filter(IsEligible, evaluated), RankEligible(evaluated);
    RankingIsComplete(evaluated);
    if id in Map(Id, kept) {
      var i :| 0 <= i < |kept| && kept[i].base.id == id;
      assert kept[i] in multiset(Order(evaluated));
      var j :| 0 <= j < |ranked| && Order(evaluated)[j] == kept[i];
      assert Map(Id, ranked)[j] == id;
    }
    if id in Map(Id, ranked) {
      var j :| 0 <= j < |ranked| && ranked[j].base.id == id;
      assert Order(evaluated)[j] in multiset(kept);
      var i :| 0 <= i < |kept| && kept[i] == Order(evaluated)[j];
      assert Map(Id, kept)[i] == id;
    }
  }

  /* Which lookups are made. */

  function Types(evidence: seq<EvidenceItem>): set<A.Source> {
    set i | i in evidence :: i.source
  }

  /** The lookups the evidence calls for, in order. */
  ghost function Wanted(evidence: seq<EvidenceItem>): seq<ToolName> {
    (if A.FlightStatus in Types(evidence) then [GetFlightStatus] else [])
    + (if A.ConnectionFeasibility in Types(evidence) then [GetConnectionFeasibility] else [])
    + (if A.WeatherAtAirport in Types(evidence) then [GetAirportWeather] else [])
  }

  function NotIn(done: seq<ToolName>): ToolName -> bool {
    t => t !in done
  }

  ghost function Upto(tools: seq<ToolName>, n: int): seq<ToolName> {
    if n <= 0 then [] else if |tools| <= n then tools else tools[..n]
  }

  ghost function Pending(evidence: seq<EvidenceItem>, done: seq<ToolName>, n: int): seq<ToolName> {
    Upto(Filter(NotIn(done), Wanted(evidence)), n)
  }

  /** The lookups of a whole run. Without a model they are those wanted. A model may put one read-only tool, asked for
    * this trip, in front, and two of the others follow; a call it may not make is ignored; if it names none or raises,
    * there are no lookups. */
  ghost function Plan(w: World, s0: State): seq<ToolName> {
    if !(s0.llmEnabled && w.apiKey) then Wanted(s0.evidence)
    else
      match w.model.select(0)
      case SelectionRaises => []
      case SelectNothing => []
      case SelectTool(call) =>
        if call.tripId == Some(s0.tripId)
           && call.name in {GetTripContext, GetFlightStatus, GetConnectionFeasibility, GetAirportWeather,
                            GetGroundRouteRisk, GetDestinationAdvisory, FindAlternativeFlights,
                            GetCorporateTravelPolicy} then
          [call.name] + Pending(s0.evidence, [call.name], 2)
        else Wanted(s0.evidence)
  }

  /** Before the recommendation, only lookups, the loaded memory and the model's choice are in the audit. */
  ghost predicate KindsOf(s: State) {
    forall e | e in s.toolAudit :: IsLoopEntry(e) || e.tool == LoadMemory || e.tool == ModelToolSelection
  }

  ghost predicate Planned(w: World, m: Machine, s0: State) {
    var s, done := m.state, LoopTools(m.state);
    && (InLoop(m.node) ==> KindsOf(s))
    && (match m.node
        case Start => done == []
        case LoadMemoryContext => done == []
        case ReactAssistant =>
          if AsksForTool(w, s) then done == []
          else done + Pending(s0.evidence, done, 3 - s.reactIterations) == Plan(w, s0)
        case Tools =>
          if CallValid(s) then
            var next := done + [s.pending.value.name];
            next + Pending(s0.evidence, next, 2 - s.reactIterations) == Plan(w, s0)
          else done + Pending(s0.evidence, done, 3 - s.reactIterations) == Plan(w, s0)
        case _ => done == if Entry(s0) == LoadMemoryContext then Plan(w, s0) else [])
  }

  lemma WantedFits(evidence: seq<EvidenceItem>, done: seq<ToolName>)
    requires done == []
    ensures Filter(NotIn(done), Wanted(evidence)) == Wanted(evidence) && |Wanted(evidence)| <= 3
    ensures Pending(evidence, done, 3) == Wanted(evidence)
  {
    FilterEverything(NotIn(done), Wanted(evidence));
  }

  lemma {:induction false} FilterEverything<T>(p: T -> bool, xs: seq<T>)
    requires forall x | x in xs :: p(x)
    ensures Filter(p, xs) == xs
  {
    if xs != [] {
      FilterEverything(p, xs[1..]);
    }
  }

  lemma CalledExactly(s: State, t: ToolName)
    requires KindsOf(s) && t in {GetFlightStatus, GetConnectionFeasibility, GetAirportWeather}
    ensures t in (set e | e in s.toolAudit :: e.tool) <==> t in LoopTools(s)
  {
    FilterMembers(IsLoopEntry, s.toolAudit);
    var loop := Filter(IsLoopEntry, s.toolAudit);
    if e :| e in s.toolAudit && e.tool == t {
      assert e in loop;
      var i :| 0 <= i < |loop| && loop[i] == e;
      assert LoopTools(s)[i] == t;
    }
    if i :| 0 <= i < |LoopTools(s)| && LoopTools(s)[i] == t {
      assert loop[i] in loop && loop[i].tool == t;
    }
  }

  /** The next lookup is the first one wanted that has not been made, while there is room. */
  lemma NextToolExactly(s: State)
    requires KindsOf(s)
    ensures var rest := Filter(NotIn(LoopTools(s)), Wanted(s.evidence));
            NextTool(s) == if s.reactIterations >= 3 || rest == [] then None else Some(rest[0])
  {
    CalledExactly(s, GetFlightStatus);
    CalledExactly(s, GetConnectionFeasibility);
    CalledExactly(s, GetAirportWeather);
    RestOf(s.evidence, LoopTools(s));
  }

  lemma RestOf(evidence: seq<EvidenceItem>, done: seq<ToolName>)
    ensures var types, rest := Types(evidence), Filter(NotIn(done), Wanted(evidence));
            var f := A.FlightStatus in types && GetFlightStatus !in done;
            var c := A.ConnectionFeasibility in types && GetConnectionFeasibility !in done;
            var a := A.WeatherAtAirport in types && GetAirportWeather !in done;
            if f then rest != [] && rest[0] == GetFlightStatus
            else if c then rest != [] && rest[0] == GetConnectionFeasibility
            else if a then rest == [GetAirportWeather]
            else rest == []
  {
    var types := Types(evidence);
    var x := if A.FlightStatus in types then [GetFlightStatus] else [];
    var y := if A.ConnectionFeasibility in types then [GetConnectionFeasibility] else [];
    var z := if A.WeatherAtAirport in types then [GetAirportWeather] else [];
    FilterAppend(NotIn(done), x + y, z);
    FilterAppend(NotIn(done), x, y);
    FilterOne(NotIn(done), x);
    FilterOne(NotIn(done), y);
    FilterOne(NotIn(done), z);
  }

  lemma FilterOne(p: ToolName -> bool, xs: seq<ToolName>)
    requires |xs| <= 1
    ensures Filter(p, xs) == if xs != [] && p(xs[0]) then xs else []
  {
    if xs != [] {
      assert xs[1..] == [] && xs == [xs[0]];
    }
  }

  /** Making the first of the pending lookups leaves the others. */
  lemma PendingStep(evidence: seq<EvidenceItem>, done: seq<ToolName>, n: int)
    requires n > 0 && Filter(NotIn(done), Wanted(evidence)) != []
    ensures var next := Filter(NotIn(done), Wanted(evidence))[0];
            [next] + Pending(evidence, done + [next], n - 1) == Pending(evidence, done, n)
  {
    var rest := Filter(NotIn(done), Wanted(evidence));
    var next := rest[0];
    WantedDistinct(evidence);
    FilterNoDuplicates(NotIn(done), Wanted(evidence));
    FilterAgain(NotIn(done), NotIn(done + [next]), Wanted(evidence), next);
    assert Filter(NotIn(done + [next]), Wanted(evidence)) == rest[1..];
    assert rest == [next] + rest[1..];
  }

  lemma WantedDistinct(evidence: seq<EvidenceItem>)
    ensures NoDuplicates(Wanted(evidence))
  {
  }

  lemma {:induction false} FilterAgain<T>(p: T -> bool, q: T -> bool, xs: seq<T>, x: T)
    requires forall y | y in xs :: q(y) <==> p(y) && y != x
    requires NoDuplicates(Filter(p, xs)) && Filter(p, xs) != [] && Filter(p, xs)[0] == x
    ensures Filter(q, xs) == Filter(p, xs)[1..]
  {
    if p(xs[0]) {
      var all, rest := Filter(p, xs), Filter(p, xs[1..]);
      assert all == [xs[0]] + rest;
      forall y | y in rest
        ensures y != x
      {
        var i :| 0 <= i < |rest| && rest[i] == y;
        assert all[i + 1] == y && all[0] != all[i + 1];
      }
      FilterMembers(p, xs[1..]);
      FilterSame(p, q, xs[1..]);
    } else {
      FilterAgain(p, q, xs[1..], x);
    }
  }

  lemma StartPlanned(w: World, m: Machine, s0: State)
    requires Planned(w, m, s0) && LoopBounded(w, m) && SameInput(m.state, s0) && Gated(w, m, s0)
    requires m.node == Start || m.node == LoadMemoryContext
    ensures Planned(w, Step(w, m), s0)
  {
    var s, s' := m.state, Step(w, m).state;
    assert Entry(s) == Entry(s0);
    if m.node == LoadMemoryContext {
      AuditAppended(s, s'.toolAudit[|s.toolAudit|]);
      assert s'.toolAudit == s.toolAudit + [s'.toolAudit[|s.toolAudit|]];
      WantedFits(s0.evidence, []);
      assert [] + Wanted(s0.evidence) == Wanted(s0.evidence);
    }
  }

  lemma SelectionAudited(s: State, answer: Selection)
    requires KindsOf(s) && LoopTools(s) == []
    ensures KindsOf(SelectionNode(s, answer)) && LoopTools(SelectionNode(s, answer)) == []
  {
    var s' := SelectionNode(s, answer);
    var e := s'.toolAudit[|s.toolAudit|];
    AuditAppended(s, e);
    assert s'.toolAudit == s.toolAudit + [e];
  }

  lemma PlanOfCall(w: World, s0: State, call: Call)
    requires s0.llmEnabled && w.apiKey && w.model.select(0) == SelectTool(call)
    ensures if call.name in READ_ONLY_TOOLS && call.tripId == Some(s0.tripId) then
              Plan(w, s0) == [] + [call.name] + Pending(s0.evidence, [] + [call.name], 2)
            else Plan(w, s0) == [] + Pending(s0.evidence, [], 3)
  {
    WantedFits(s0.evidence, []);
    assert [] + [call.name] == [call.name];
    assert [] + Wanted(s0.evidence) == Wanted(s0.evidence);
  }

  lemma SelectionPlanned(w: World, m: Machine, s0: State)
    requires Planned(w, m, s0) && LoopBounded(w, m) && SameInput(m.state, s0) && Gated(w, m, s0)
    requires m.node == ReactAssistant && AsksForTool(w, m.state)
    ensures Planned(w, Step(w, m), s0)
  {
    var answer := w.model.select(0);
    SelectionAudited(m.state, answer);
    assert Step(w, m).state == SelectionNode(m.state, answer) && Entry(s0) == LoadMemoryContext;
    if answer.SelectTool? {
      PlanOfCall(w, s0, answer.call);
    }
  }

  lemma FollowUpPlanned(w: World, m: Machine, s0: State)
    requires Planned(w, m, s0) && LoopBounded(w, m) && SameInput(m.state, s0) && Gated(w, m, s0)
    requires m.node == ReactAssistant && !AsksForTool(w, m.state)
    ensures Planned(w, Step(w, m), s0)
  {
    var s, s' := m.state, FollowUpNode(m.state);
    assert Step(w, m).state == s' && LoopTools(s') == LoopTools(s) && s'.toolAudit == s.toolAudit;
    assert s'.reactIterations == s.reactIterations && Entry(s0) == LoadMemoryContext;
    FollowUpPending(s);
    if NextTool(s).Some? {
      NextToolFits(s);
      assert CallValid(s') && s'.pending.value.name == NextTool(s).value && Step(w, m).node == Tools;
    } else {
      assert LoopTools(s) + [] == LoopTools(s);
    }
  }

  lemma FollowUpPending(s: State)
    requires KindsOf(s)
    ensures var done, n := LoopTools(s), 3 - s.reactIterations;
            match NextTool(s)
            case None => Pending(s.evidence, done, n) == []
            case Some(t) => done + [t] + Pending(s.evidence, done + [t], n - 1) == done + Pending(s.evidence, done, n)
  {
    var done, n := LoopTools(s), 3 - s.reactIterations;
    NextToolExactly(s);
    if NextTool(s).Some? {
      PendingStep(s.evidence, done, n);
      NextPlanned(done, NextTool(s).value, Pending(s.evidence, done + [NextTool(s).value], n - 1),
                  Pending(s.evidence, done, n));
    }
  }

  lemma NextPlanned(done: seq<ToolName>, next: ToolName, rest: seq<ToolName>, pending: seq<ToolName>)
    requires [next] + rest == pending
    ensures done + [next] + rest == done + pending
  {
    assert done + [next] + rest == done + ([next] + rest);
  }

  lemma ToolsPlanned(w: World, m: Machine, s0: State)
    requires Planned(w, m, s0) && LoopBounded(w, m) && SameInput(m.state, s0) && m.node == Tools
    ensures Planned(w, Step(w, m), s0)
  {
    var s, s' := m.state, Step(w, m).state;
    if CallValid(s) {
      var e := s'.toolAudit[|s.toolAudit|];
      AuditAppended(s, e);
      assert s'.toolAudit == s.toolAudit + [e];
    }
  }

  lemma VerifyAudited(s: State, flights: seq<Candidate>)
    ensures LoopTools(VerifyNode(s, flights)) == LoopTools(s)
  {
    var e := AuditEntry(FindAlternativeFlights, EvidenceIds(s.evidence), PolicyEvaluated);
    FilterAppend(IsLoopEntry, s.toolAudit, [e]);
    assert [e][1..] == [];
    assert Filter(IsLoopEntry, s.toolAudit) + [] == Filter(IsLoopEntry, s.toolAudit);
  }

  lemma TailPlanned(w: World, m: Machine, s0: State)
    requires Planned(w, m, s0) && !InLoop(m.node)
    ensures Planned(w, Step(w, m), s0)
  {
    var s, s' := m.state, Step(w, m).state;
    if m.node == VerifyAlternatives {
      VerifyAudited(s, w.flights);
    } else {
      assert s'.toolAudit == s.toolAudit;
    }
  }

  lemma StepPlanned(w: World, m: Machine, s0: State)
    requires Planned(w, m, s0) && LoopBounded(w, m) && SameInput(m.state, s0) && Gated(w, m, s0)
    ensures Planned(w, Step(w, m), s0)
  {
    match m.node
    case Start => StartPlanned(w, m, s0);
    case LoadMemoryContext => StartPlanned(w, m, s0);
    case ReactAssistant =>
      if AsksForTool(w, m.state) {
        SelectionPlanned(w, m, s0);
      } else {
        FollowUpPlanned(w, m, s0);
      }
    case Tools => ToolsPlanned(w, m, s0);
    case _ => TailPlanned(w, m, s0);
  }

  lemma {:induction false} RunPlanned(w: World, m: Machine, s0: State)
    requires Reached(w, m, s0) && Planned(w, m, s0)
    ensures Planned(w, Run(w, m), s0)
    decreases Fuel(m)
  {
    if m.node != End {
      StepReached(w, m, s0);
      StepPlanned(w, m, s0);
      RunPlanned(w, Step(w, m), s0);
    }
  }

  /** An investigation makes exactly the planned lookups; a trip that is not investigated has none. */
  lemma LookupsExactly(w: World, s0: State)
    requires Initial(s0)
    ensures LoopBounded(w, Begin(s0))
    ensures LoopTools(Run(w, Begin(s0)).state)
         == if (s0.severity == Risk.High || s0.severity == Risk.Critical) && |s0.unavailable| <= 1
               && A.FlightStatus !in s0.unavailable
            then Plan(w, s0) else []
  {
    BeginReached(w, s0);
    assert LoopTools(s0) == [];
    RunReached(w, Begin(s0), s0);
    RunPlanned(w, Begin(s0), s0);
  }

  /* What the manager is shown. */

  /** What the graph itself says: it cites all the evidence, and is very uncertain exactly if a core source is out. */
  function Plain(s0: State): Recommendation {
    Recommendation(EvidenceIds(s0.evidence), if s0.unavailable == {} then MediumUncertainty else HighUncertainty,
                   true, [], "review the cited evidence", None)
  }

  lemma {:induction false} EvidenceIdsExactly(evidence: seq<EvidenceItem>, id: string)
    ensures id in EvidenceIds(evidence) <==> exists e :: e in evidence && e.id == Some(id)
  {
    if evidence != [] {
      EvidenceIdsExactly(evidence[1..], id);
      assert evidence == [evidence[0]] + evidence[1..];
      if evidence[0].id == Some(id) {
        assert evidence[0] in evidence;
      }
      if e :| e in evidence[1..] && e.id == Some(id) {
        assert e in evidence;
      }
    }
  }

  /** Advice is taken as given if all it cites is in evidence; without a model, or in place of other advice, the graph
    * speaks for itself, the more cautiously if the model was asked. */
  ghost function Advised(w: World, s0: State): Recommendation {
    if !(s0.llmEnabled && w.apiKey) then Plain(s0)
    else
      match w.model.advise(0)
      case AdviceRaises => Plain(s0).(uncertainty := HighUncertainty)
      case Advise(r) =>
        if forall id | id in r.evidenceIds :: id in EvidenceIds(s0.evidence) then r
        else Plain(s0).(uncertainty := HighUncertainty)
  }

  ghost predicate Worded(w: World, m: Machine, s0: State) {
    var r := m.state.recommendation;
    if Entry(s0) != LoadMemoryContext then
      r == None && (PastGate(m.node) && Entry(s0) == ApprovalGate ==> m.shown == Some(Plain(s0)))
    else if InLoop(m.node) || m.node == RecommendationNode then m.advises == 0 && (r == None || r == Some(Plain(s0)))
    else if m.node == VerifyAlternatives || m.node == RankOptions || m.node == AttachRanking then
      r == Some(Advised(w, s0))
    else
      r.Some? && r == Some(Advised(w, s0).(rankedIds := r.value.rankedIds, rankedCount := Some(|r.value.rankedIds|)))
  }

  lemma PlainExactly(s: State, s0: State)
    requires SameInput(s, s0)
    ensures Fallback(s) == Plain(s0) && Cautious(s) == Plain(s0).(uncertainty := HighUncertainty)
  {
  }

  lemma LoopWorded(w: World, m: Machine, s0: State)
    requires Worded(w, m, s0) && SameInput(m.state, s0) && Gated(w, m, s0) && InLoop(m.node)
    ensures Worded(w, Step(w, m), s0)
  {
    assert Entry(m.state) == Entry(s0);
    PlainExactly(m.state, s0);
  }

  lemma AdviceWorded(w: World, m: Machine, s0: State)
    requires Worded(w, m, s0) && SameInput(m.state, s0) && Gated(w, m, s0) && m.node == RecommendationNode
    ensures Worded(w, Step(w, m), s0)
  {
    assert Entry(s0) == LoadMemoryContext && Entry(m.state) == Entry(s0);
    PlainExactly(m.state, s0);
    var s, answer := m.state, w.model.advise(0);
    AdviceTaken(s, s0, AsksForAdvice(w, s), answer);
  }

  lemma AdviceTaken(s: State, s0: State, asked: bool, answer: Advice)
    requires SameInput(s, s0) && (s.recommendation == None || s.recommendation == Some(Plain(s0)))
    ensures RecommendNode(s, asked, answer).recommendation == Some(
              if !asked then Plain(s0)
              else match answer
                   case AdviceRaises => Plain(s0).(uncertainty := HighUncertainty)
                   case Advise(r) =>
                     if forall id | id in r.evidenceIds :: id in EvidenceIds(s0.evidence) then r
                     else Plain(s0).(uncertainty := HighUncertainty))
  {
    PlainExactly(s, s0);
    var known := set id | id in EvidenceIds(s.evidence);
    if asked && answer.Advise? {
      var cited := set id | id in answer.recommendation.evidenceIds;
      if cited <= known {
        assert forall id | id in answer.recommendation.evidenceIds :: id in cited && id in known;
      } else {
        var id :| id in cited && id !in known;
        assert id in answer.recommendation.evidenceIds && id !in EvidenceIds(s0.evidence);
      }
    }
  }

  lemma TailWorded(w: World, m: Machine, s0: State)
    requires Worded(w, m, s0) && SameInput(m.state, s0) && Gated(w, m, s0)
    requires !InLoop(m.node) && m.node != RecommendationNode
    ensures Worded(w, Step(w, m), s0)
  {
    PlainExactly(m.state, s0);
    if m.node == AttachRanking {
      AttachWorded(w, m, s0);
    } else {
      assert Step(w, m).state.recommendation == m.state.recommendation;
    }
  }

  lemma AttachWorded(w: World, m: Machine, s0: State)
    requires Worded(w, m, s0) && Gated(w, m, s0) && m.node == AttachRanking
    ensures Worded(w, Step(w, m), s0)
  {
    assert Entry(s0) == LoadMemoryContext;
  }

  lemma StepWorded(w: World, m: Machine, s0: State)
    requires Worded(w, m, s0) && SameInput(m.state, s0) && Gated(w, m, s0)
    ensures Worded(w, Step(w, m), s0)
  {
    if InLoop(m.node) {
      LoopWorded(w, m, s0);
    } else if m.node == RecommendationNode {
      AdviceWorded(w, m, s0);
    } else {
      TailWorded(w, m, s0);
    }
  }

  lemma {:induction false} RunWorded(w: World, m: Machine, s0: State)
    requires Reached(w, m, s0) && Worded(w, m, s0)
    ensures Worded(w, Run(w, m), s0)
    decreases Fuel(m)
  {
    if m.node != End {
      StepReached(w, m, s0);
      StepWorded(w, m, s0);
      RunWorded(w, Step(w, m), s0);
    }
  }

  /** The recommendation shown: that of an investigation is the advice with the ranking attached; that of a trip sent
    * straight to review is the graph's own; no other trip has one. */
  lemma ShownExactly(w: World, s0: State)
    requires Initial(s0)
    ensures LoopBounded(w, Begin(s0))
    ensures var severe := s0.severity == Risk.High || s0.severity == Risk.Critical;
            var review := |s0.unavailable| >= 2 || (severe && A.FlightStatus in s0.unavailable);
            var ranking := ExpectedRanking(s0, w.flights);
            Run(w, Begin(s0)).shown
            == if review then Some(Plain(s0))
               else if severe then Some(Advised(w, s0).(rankedIds := ranking, rankedCount := Some(|ranking|)))
               else None
  {
    BeginReached(w, s0);
    RunReached(w, Begin(s0), s0);
    RunWorded(w, Begin(s0), s0);
    RunUndisturbed(w, Begin(s0), s0);
    RunRanked(w, Begin(s0), s0);
    RunIsReference(w, s0);
    EntryExactly(s0);
    EndWorded(w, Run(w, Begin(s0)), s0);
  }

  lemma EndWorded(w: World, end: Machine, s0: State)
    requires Gated(w, end, s0) && Worded(w, end, s0) && Ranked(end, s0) && end.node == End
    ensures Entry(s0) == ApprovalGate ==> end.shown == Some(Plain(s0))
    ensures Entry(s0) == LoadMemoryContext && end.state.ranking.Some? ==>
              var ranking := end.state.ranking.value;
              end.shown == Some(Advised(w, s0).(rankedIds := ranking, rankedCount := Some(|ranking|)))
    ensures Entry(s0) == Finalize ==> end.shown == None
  {
  }

  lemma EntryExactly(s0: State)
    ensures var severe := s0.severity == Risk.High || s0.severity == Risk.Critical;
            var review := |s0.unavailable| >= 2 || (severe && A.FlightStatus in s0.unavailable);
            Entry(s0) == if review then ApprovalGate else if severe then LoadMemoryContext else Finalize
  {
  }

  /* How a run ends. */

  /** The decision recorded at the policy gate, the approval taken from the manager's answer, and the final status. */
  lemma EndsExactly(w: World, s0: State)
    requires Initial(s0)
    ensures LoopBounded(w, Begin(s0))
    ensures var severe := s0.severity == Risk.High || s0.severity == Risk.Critical;
            var review := |s0.unavailable| >= 2 || (severe && A.FlightStatus in s0.unavailable);
            var end := Run(w, Begin(s0)).state;
            if !severe && !review then
              end.approval == None && end.finalStatus == Some("assessed") && end.dispatched == []
            else
              var d := w.decision;
              var answered := d.Payload? && (d.decision == Some("approve") || d.decision == Some("reject"));
              && end.approval == Some(if answered then Approval(d.decision.value, d.dispatchId, d.idempotencyKey)
                                      else Approval("reject", None, None))
              && end.finalStatus == Some(if answered then d.decision.value else "reject")
  {
    BeginReached(w, s0);
    RunReached(w, Begin(s0), s0);
    assert Finished(Begin(s0));
    RunFinished(w, Begin(s0), s0);
  }

  ghost predicate Finished(m: Machine) {
    m.node == End ==>
      m.state.finalStatus == Some(if m.state.approval.Some? then m.state.approval.value.decision else "assessed")
  }

  lemma {:induction false} RunFinished(w: World, m: Machine, s0: State)
    requires Reached(w, m, s0) && Finished(m)
    ensures Finished(Run(w, m))
    decreases Fuel(m)
  {
    if m.node != End {
      StepReached(w, m, s0);
      OnlyFinalizeEnds(w, m);
      RunFinished(w, Step(w, m), s0);
    }
  }

  lemma OnlyFinalizeEnds(w: World, m: Machine)
    requires m.node != End
    ensures Finished(Step(w, m))
  {
    if m.node != Finalize {
      assert Step(w, m).node != End;
    }
  }

  /** A flight that may be offered: available, feasible, compliant, accessible, of at most 500 in cost, with 45 minutes
    * to connect or more, and as many as the traveler asks for. */
  ghost predicate Bookable(c: Candidate, minimum: Option<int>) {
    && c.available && c.feasible && c.policyCompliant && c.accessibilityCompliant
    && c.cost <= 500.0 && c.connection >= 45
    && (match minimum case None => true case Some(m) => c.connection >= m)
  }

  /** What an investigation decides: it offers exactly the bookable flights, and records the traveler's minimum, the
    * version of the memory it came from and the playbooks it went by. */
  lemma OffersExactly(w: World, s0: State, id: string)
    requires Initial(s0) && (s0.severity == Risk.High || s0.severity == Risk.Critical)
    requires |s0.unavailable| <= 1 && A.FlightStatus !in s0.unavailable
    ensures LoopBounded(w, Begin(s0))
    ensures var end := Run(w, Begin(s0)).state;
            var minimum := if s0.traveler.Some? then s0.traveler.value.minimumConnection else None;
            && end.policyGate.Some? && end.policyDecision.Some?
            && (id in end.policyGate.value <==> exists c :: c in w.flights && c.id == id && Bookable(c, minimum))
            && end.policyDecision.value
               == PolicyDecision(end.policyGate.value, minimum,
                                 if s0.traveler.Some? then Some(s0.traveler.value.version) else None,
                                 s0.playbookContext)
  {
    RunIsReference(w, s0);
    ReferenceOutcome(s0, w.flights);
    ReferenceDecision(s0, w.flights);
    var end := Run(w, Begin(s0)).state;
    assert LowOf(end).policyGate == LowOf(Reference(End, s0, w.flights)).policyGate;
    assert LowOf(end).policyDecision == LowOf(Reference(End, s0, w.flights)).policyDecision;
    OfferedAreBookable(w.flights, MinimumConnection(s0.traveler), id);
    BookableAreOffered(w.flights, MinimumConnection(s0.traveler), id);
  }

  lemma ReferenceDecision(s0: State, flights: seq<Candidate>)
    requires Entry(s0) == LoadMemoryContext
    ensures Reference(End, s0, flights).policyDecision
         == Some(PolicyDecision(
              Map(Id, Filter(IsEligible, Evaluations(s0, flights))), MinimumConnection(s0.traveler),
              if s0.traveler.Some? then Some(s0.traveler.value.version) else None, s0.playbookContext))
  {
    var loaded := AtStage(Loaded, s0, flights);
    assert loaded.memory == s0.traveler && loaded.approvedPlaybooks == s0.playbookContext;
    assert AtStage(Verified, s0, flights) == VerifyNode(loaded, flights);
    OrderedStage(s0, flights);
    assert AtStage(Gate, s0, flights) == PolicyGateNode(AtStage(Ordered, s0, flights));
    ReferenceGated(End, s0, flights);
  }

  lemma OfferedAreBookable(flights: seq<Candidate>, minimum: Option<int>, id: string)
    ensures id in Map(Id, Filter(IsEligible, Map(Evaluator(DEFAULT_POLICY, minimum), flights))) ==>
              exists c :: c in flights && c.id == id && Bookable(c, minimum)
  {
    var evaluated := Map(Evaluator(DEFAULT_POLICY, minimum), flights);
    var kept := Filter(IsEligible, evaluated);
    FilterMembers(IsEligible, evaluated);
    if i :| 0 <= i < |kept| && kept[i].base.id == id {
      assert kept[i] in kept && kept[i] in evaluated;
      var k :| 0 <= k < |flights| && evaluated[k] == kept[i];
      PipelineDecides(flights[k], DEFAULT_POLICY, minimum);
      assert flights[k] in flights && Bookable(flights[k], minimum);
    }
  }

  lemma BookableAreOffered(flights: seq<Candidate>, minimum: Option<int>, id: string)
    ensures (exists c :: c in flights && c.id == id && Bookable(c, minimum)) ==>
              id in Map(Id, Filter(IsEligible, Map(Evaluator(DEFAULT_POLICY, minimum), flights)))
  {
    var evaluated := Map(Evaluator(DEFAULT_POLICY, minimum), flights);
    if c :| c in flights && c.id == id && Bookable(c, minimum) {
      var k :| 0 <= k < |flights| && flights[k] == c;
      BookableIsEligible(c, minimum);
      assert evaluated[k] == Evaluate(c, DEFAULT_POLICY, minimum);
      EligibleIsListed(evaluated, k);
    }
  }

  lemma BookableIsEligible(c: Candidate, minimum: Option<int>)
    requires Bookable(c, minimum)
    ensures Evaluate(c, DEFAULT_POLICY, minimum).eligible && Evaluate(c, DEFAULT_POLICY, minimum).base == c
  {
    PipelineDecides(c, DEFAULT_POLICY, minimum);
  }

  lemma EligibleIsListed(evaluated: seq<Evaluated>, k: nat)
    requires k < |evaluated| && evaluated[k].eligible
    ensures evaluated[k].base.id in Map(Id, Filter(IsEligible, evaluated))
  {
    var kept := Filter(IsEligible, evaluated);
    FilterMembers(IsEligible, evaluated);
    assert evaluated[k] in evaluated && evaluated[k] in kept;
    var i :| 0 <= i < |kept| && kept[i] == evaluated[k];
    assert Map(Id, kept)[i] == evaluated[k].base.id;
  }

  /** The alternatives listed: every flight as evaluated, in the order given, those ranked with their place in the
    * ranking, and the ranking itself. */
  lemma AlternativesExactly(w: World, s0: State, i: nat, k: nat)
    requires Initial(s0) && (s0.severity == Risk.High || s0.severity == Risk.Critical)
    requires |s0.unavailable| <= 1 && A.FlightStatus !in s0.unavailable && i < |w.flights|
    ensures LoopBounded(w, Begin(s0))
    ensures var end, evaluated := Run(w, Begin(s0)).state, Evaluations(s0, w.flights);
            var ranked := RankEligible(evaluated);
            && end.eligible == ranked && |end.alternatives| == |w.flights|
            && end.alternatives[i]
               == Evaluate(w.flights[i], DEFAULT_POLICY, MinimumConnection(s0.traveler)).(
                    position := end.alternatives[i].position)
            && ((forall m :: 0 <= m < |ranked| ==> ranked[m].base.id != w.flights[i].id) ==>
                  end.alternatives[i].position == None)
            && (k < |ranked| && ranked[k].base.id == w.flights[i].id
                && (forall m :: k < m < |ranked| ==> ranked[m].base.id != w.flights[i].id) ==>
                  end.alternatives[i].position == Some(k + 1))
  {
    RunIsReference(w, s0);
    VerifiedStage(s0, w.flights);
    ListedAlternatives(s0, w.flights);
    var end, evaluated := Run(w, Begin(s0)).state, Evaluations(s0, w.flights);
    assert LowOf(end).alternatives == LowOf(Reference(End, s0, w.flights)).alternatives;
    assert LowOf(end).eligible == LowOf(Reference(End, s0, w.flights)).eligible;
    PlaceOf(w.flights, MinimumConnection(s0.traveler), i, k);
  }

  lemma PlaceOf(flights: seq<Candidate>, minimum: Option<int>, i: nat, k: nat)
    requires i < |flights|
    ensures var evaluated := Map(Evaluator(DEFAULT_POLICY, minimum), flights);
            var ranked := RankEligible(evaluated);
            var shown := Positioned(ranked)(evaluated[i]);
            && shown == Evaluate(flights[i], DEFAULT_POLICY, minimum).(position := shown.position)
            && ((forall m :: 0 <= m < |ranked| ==> ranked[m].base.id != flights[i].id) ==> shown.position == None)
            && (k < |ranked| && ranked[k].base.id == flights[i].id
                && (forall m :: k < m < |ranked| ==> ranked[m].base.id != flights[i].id) ==>
                  shown.position == Some(k + 1))
  {
    var evaluated := Map(Evaluator(DEFAULT_POLICY, minimum), flights);
    var ranked, id := RankEligible(evaluated), flights[i].id;
    StateExactly(flights[i], DEFAULT_POLICY, minimum);
    RankingIsComplete(evaluated);
    if forall m :: 0 <= m < |ranked| ==> ranked[m].base.id != id {
      NoPosition(ranked, id);
    } else if k < |ranked| && ranked[k].base.id == id && forall m :: k < m < |ranked| ==> ranked[m].base.id != id {
      PositionExactly(ranked, id, k);
    }
  }

  lemma ListedAlternatives(s0: State, flights: seq<Candidate>)
    requires Entry(s0) == LoadMemoryContext
    ensures var ranked := RankEligible(Evaluations(s0, flights));
            && Reference(End, s0, flights).eligible == ranked
            && Reference(End, s0, flights).alternatives == Map(Positioned(ranked), Evaluations(s0, flights))
  {
    VerifiedStage(s0, flights);
    assert AtStage(Ordered, s0, flights) == RankNode(AtStage(Verified, s0, flights));
    assert AtStage(Gate, s0, flights) == PolicyGateNode(AtStage(Ordered, s0, flights));
    ReferenceGated(End, s0, flights);
  }

  lemma {:induction false} NoPosition(ranked: seq<Evaluated>, id: string)
    requires forall k :: 0 <= k < |ranked| ==> ranked[k].base.id != id
    ensures PositionOf(ranked, id) == None
  {
    if ranked != [] {
      NoPosition(ranked[..|ranked| - 1], id);
    }
  }

  lemma {:induction false} PositionExactly(ranked: seq<Evaluated>, id: string, k: nat)
    requires k < |ranked| && ranked[k].base.id == id
    requires forall m :: k < m < |ranked| ==> ranked[m].base.id != id
    ensures PositionOf(ranked, id) == ranked[k].position
  {
    var last := |ranked| - 1;
    if k < last {
      PositionExactly(ranked[..last], id, k);
    }
  }

  /* The audit trail. */

  ghost predicate Asked(w: World, s0: State) {
    s0.llmEnabled && w.apiKey
  }

  /** The model named a tool it may use. */
  ghost predicate Chosen(w: World, s0: State) {
    Asked(w, s0)
    && match w.model.select(0)
       case SelectTool(call) => call.name in READ_ONLY_TOOLS && call.tripId == Some(s0.tripId)
       case _ => false
  }

  ghost function Preamble(w: World, s0: State): seq<AuditEntry> {
    [AuditEntry(LoadMemory, [], MemoryLoaded(s0.traveler.Some?, s0.playbookContext != []))]
    + if !Asked(w, s0) then []
      else [AuditEntry(ModelToolSelection, [],
              match w.model.select(0)
              case SelectionRaises => SelectionFailed
              case SelectNothing => SelectedNoTool
              case SelectTool(_) => SelectedTool)]
  }

  /** One entry for each lookup, with all the evidence; only a first one can be the model's. */
  ghost function Entries(tools: seq<ToolName>, chosen: bool, ids: seq<string>): seq<AuditEntry> {
    if tools == [] then []
    else
      Entries(tools[..|tools| - 1], chosen, ids)
      + [AuditEntry(tools[|tools| - 1], ids,
           if chosen && |tools| == 1 then ModelSelectedSnapshot else DeterministicSnapshot)]
  }

  /** The selection mode once the given number of lookups has been called for. */
  ghost function ModeAfter(w: World, s0: State, lookups: nat): Mode {
    if !Asked(w, s0) then if lookups == 0 then NoMode else DeterministicFollowUp
    else
      match w.model.select(0)
      case SelectionRaises => DeterministicFallback
      case SelectNothing => ModelSelectedNoTool
      case SelectTool(_) =>
        if lookups > (if Chosen(w, s0) then 1 else 0) then DeterministicFollowUp else ModelSelected
  }

  ghost function Questions(w: World, s0: State): seq<ModelAuditEntry> {
    if Asked(w, s0) then [ModelAuditEntry(true, w.model.select(0).SelectionRaises?)] else []
  }

  ghost function Trail(w: World, s0: State, tools: seq<ToolName>): seq<AuditEntry> {
    Preamble(w, s0) + Entries(tools, Chosen(w, s0), EvidenceIds(s0.evidence))
  }

  ghost predicate Recorded(w: World, m: Machine, s0: State) {
    var s, done := m.state, LoopTools(m.state);
    if Entry(s0) != LoadMemoryContext || m.node == Start || m.node == LoadMemoryContext then
      s.toolAudit == [] && s.modelAudit == [] && s.mode == NoMode
    else if m.node == ReactAssistant && AsksForTool(w, s) then
      s.modelAudit == [] && s.mode == NoMode
      && s.toolAudit == [AuditEntry(LoadMemory, [], MemoryLoaded(s0.traveler.Some?, s0.playbookContext != []))]
    else if InLoop(m.node) || m.node == RecommendationNode then
      s.toolAudit == Trail(w, s0, done) && s.modelAudit == Questions(w, s0)
      && s.mode == ModeAfter(w, s0, |done| + if m.node == Tools && CallValid(s) then 1 else 0)
      && (InLoop(m.node) && Asked(w, s0) ==> w.model.select(0).SelectTool?)
      && (Chosen(w, s0) ==> done != [] || (m.node == Tools && CallValid(s)))
    else
      && s.mode == ModeAfter(w, s0, |done|)
      && s.modelAudit == Questions(w, s0)
                         + (if Asked(w, s0) then [ModelAuditEntry(false, w.model.advise(0).AdviceRaises?)] else [])
      && s.toolAudit == Trail(w, s0, done)
                        + if m.node == VerifyAlternatives then []
                          else [AuditEntry(FindAlternativeFlights, EvidenceIds(s0.evidence), PolicyEvaluated)]
  }

  lemma AsideRecorded(w: World, m: Machine, s0: State)
    requires Recorded(w, m, s0) && Gated(w, m, s0) && SameInput(m.state, s0) && Entry(s0) != LoadMemoryContext
    ensures Recorded(w, Step(w, m), s0)
  {
    assert Entry(m.state) == Entry(s0);
  }

  lemma StartRecorded(w: World, m: Machine, s0: State)
    requires Recorded(w, m, s0) && SameInput(m.state, s0) && Gated(w, m, s0) && LoopBounded(w, m)
    requires Entry(s0) == LoadMemoryContext && (m.node == Start || m.node == LoadMemoryContext)
    ensures Recorded(w, Step(w, m), s0)
  {
    assert Entry(m.state) == Entry(s0);
    if m.node == LoadMemoryContext {
      LoadedRecorded(w, m.state, s0);
    }
  }

  lemma LoadedRecorded(w: World, s: State, s0: State)
    requires s.toolAudit == [] && SameInput(s, s0)
    ensures var loaded := [AuditEntry(LoadMemory, [], MemoryLoaded(s0.traveler.Some?, s0.playbookContext != []))];
            && LoadMemoryNode(s).toolAudit == loaded && LoopTools(LoadMemoryNode(s)) == []
            && (!Asked(w, s0) ==> Trail(w, s0, []) == loaded)
  {
    var e := AuditEntry(LoadMemory, [], MemoryLoaded(s0.traveler.Some?, s0.playbookContext != []));
    assert s.toolAudit + [e] == [e] && [e][1..] == [];
    assert Filter(IsLoopEntry, [e]) == [];
    assert [e] + [] + [] == [e];
  }

  lemma SelectionRecorded(w: World, m: Machine, s0: State)
    requires Recorded(w, m, s0) && SameInput(m.state, s0) && Gated(w, m, s0) && LoopBounded(w, m)
    requires Planned(w, m, s0) && m.node == ReactAssistant && AsksForTool(w, m.state)
    ensures Recorded(w, Step(w, m), s0)
  {
    var s, answer := m.state, w.model.select(0);
    SelectionAudited(s, answer);
    var s' := SelectionNode(s, answer);
    assert Step(w, m).state == s' && Asked(w, s0) && LoopTools(s') == [];
    assert Preamble(w, s0) + [] == Preamble(w, s0);
    assert s'.toolAudit == Trail(w, s0, []);
    assert [] + Questions(w, s0) == Questions(w, s0);
  }

  lemma FollowUpRecorded(w: World, m: Machine, s0: State)
    requires Recorded(w, m, s0) && Entry(s0) == LoadMemoryContext && LoopBounded(w, m)
    requires m.node == ReactAssistant && !AsksForTool(w, m.state)
    ensures Recorded(w, Step(w, m), s0)
  {
    var s := m.state;
    if NextTool(s).Some? {
      NextToolFits(s);
      var s' := FollowUpNode(s);
      assert LoopTools(s') == LoopTools(s) && CallValid(s') && Step(w, m).node == Tools;
    } else {
      assert Step(w, m).node == RecommendationNode && LoopTools(Step(w, m).state) == LoopTools(s);
    }
  }

  lemma ToolsRecorded(w: World, m: Machine, s0: State)
    requires Recorded(w, m, s0) && SameInput(m.state, s0) && Entry(s0) == LoadMemoryContext && LoopBounded(w, m)
    requires m.node == Tools
    ensures Recorded(w, Step(w, m), s0)
  {
    var s, s' := m.state, ToolsNode(m.state);
    if CallValid(s) {
      var done, e := LoopTools(s), s'.toolAudit[|s.toolAudit|];
      AuditAppended(s, e);
      assert s'.toolAudit == s.toolAudit + [e] && LoopTools(s') == done + [e.tool];
      LookupMarked(w, s, s0);
      TrailGrows(w, s0, done, e);
    }
  }

  /** The lookup about to be made is marked as the model's exactly if it is the model's, and the first. */
  lemma LookupMarked(w: World, s: State, s0: State)
    requires s.mode == ModeAfter(w, s0, |LoopTools(s)| + 1)
    requires Asked(w, s0) ==> w.model.select(0).SelectTool?
    ensures s.mode == ModelSelected <==> Chosen(w, s0) && LoopTools(s) == []
  {
  }

  lemma TrailGrows(w: World, s0: State, done: seq<ToolName>, e: AuditEntry)
    requires e == AuditEntry(e.tool, EvidenceIds(s0.evidence),
                             if Chosen(w, s0) && done == [] then ModelSelectedSnapshot else DeterministicSnapshot)
    ensures Trail(w, s0, done) + [e] == Trail(w, s0, done + [e.tool])
  {
    var ids := EvidenceIds(s0.evidence);
    assert (done + [e.tool])[..|done|] == done;
    assert Entries(done + [e.tool], Chosen(w, s0), ids) == Entries(done, Chosen(w, s0), ids) + [e];
  }

  lemma AdviceRecorded(w: World, m: Machine, s0: State)
    requires Recorded(w, m, s0) && SameInput(m.state, s0) && Entry(s0) == LoadMemoryContext
    requires m.node == RecommendationNode && m.advises == 0
    ensures Recorded(w, Step(w, m), s0)
  {
    EntryExactly(s0);
    var s, s' := m.state, Step(w, m).state;
    assert AsksForAdvice(w, s) <==> Asked(w, s0);
    assert s'.toolAudit == s.toolAudit && LoopTools(s') == LoopTools(s) && s'.mode == s.mode;
    assert Trail(w, s0, LoopTools(s)) + [] == Trail(w, s0, LoopTools(s));
    assert Questions(w, s0) + [] == Questions(w, s0);
  }

  lemma TailRecorded(w: World, m: Machine, s0: State)
    requires Recorded(w, m, s0) && SameInput(m.state, s0) && Entry(s0) == LoadMemoryContext
    requires !InLoop(m.node) && m.node != RecommendationNode
    ensures Recorded(w, Step(w, m), s0)
  {
    var s, s' := m.state, Step(w, m).state;
    if m.node == VerifyAlternatives {
      VerifyAudited(s, w.flights);
      assert Trail(w, s0, LoopTools(s)) + [] == Trail(w, s0, LoopTools(s));
    } else {
      assert s'.toolAudit == s.toolAudit && s'.modelAudit == s.modelAudit && s'.mode == s.mode;
    }
  }

  lemma StepRecorded(w: World, m: Machine, s0: State)
    requires Recorded(w, m, s0) && SameInput(m.state, s0) && Gated(w, m, s0) && LoopBounded(w, m)
    requires Planned(w, m, s0)
    ensures Recorded(w, Step(w, m), s0)
  {
    if Entry(s0) != LoadMemoryContext {
      AsideRecorded(w, m, s0);
    } else {
      match m.node
      case Start => StartRecorded(w, m, s0);
      case LoadMemoryContext => StartRecorded(w, m, s0);
      case ReactAssistant =>
        if AsksForTool(w, m.state) {
          SelectionRecorded(w, m, s0);
        } else {
          FollowUpRecorded(w, m, s0);
        }
      case Tools => ToolsRecorded(w, m, s0);
      case RecommendationNode => AdviceRecorded(w, m, s0);
      case _ => TailRecorded(w, m, s0);
    }
  }

  lemma {:induction false} RunRecorded(w: World, m: Machine, s0: State)
    requires Reached(w, m, s0) && Planned(w, m, s0) && Recorded(w, m, s0)
    ensures Recorded(w, Run(w, m), s0)
    decreases Fuel(m)
  {
    if m.node != End {
      StepReached(w, m, s0);
      StepPlanned(w, m, s0);
      StepRecorded(w, m, s0);
      RunRecorded(w, Step(w, m), s0);
    }
  }

  /** The audit of an investigation, entry by entry: the memory loaded, what became of the model's choice, every lookup
    * with all the evidence and the first marked if it was the model's, and the policy evaluation; and the questions put
    * to the model. Any other trip leaves none. */
  lemma AuditExactly(w: World, s0: State)
    requires Initial(s0)
    ensures LoopBounded(w, Begin(s0))
    ensures var severe := s0.severity == Risk.High || s0.severity == Risk.Critical;
            var investigated := severe && |s0.unavailable| <= 1 && A.FlightStatus !in s0.unavailable;
            var end := Run(w, Begin(s0)).state;
            if investigated then
              && end.toolAudit == Trail(w, s0, Plan(w, s0))
                                  + [AuditEntry(FindAlternativeFlights, EvidenceIds(s0.evidence), PolicyEvaluated)]
              && end.modelAudit == Questions(w, s0)
                   + (if Asked(w, s0) then [ModelAuditEntry(false, w.model.advise(0).AdviceRaises?)] else [])
              && end.mode == ModeAfter(w, s0, |Plan(w, s0)|)
            else end.toolAudit == [] && end.modelAudit == [] && end.mode == NoMode
  {
    BeginReached(w, s0);
    assert LoopTools(s0) == [];
    EntryExactly(s0);
    RunReached(w, Begin(s0), s0);
    RunRecorded(w, Begin(s0), s0);
    LookupsExactly(w, s0);
  }
}
