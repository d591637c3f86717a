/** Recovery candidates: eligibility, corporate policy, and the deterministic ranking
  * (domain/recovery.py, domain/policies.py). Scores are whole hundredths. */
module Recovery {
  import opened Rounding
  import opened Seqs
  import opened Options

  datatype CandidateState =
    | Unavailable | PolicyIneligible | Ineligible | Eligible
    | Offered | Viewed | Selected | Rejected | Completed

  datatype Reason =
    | NotAvailable | ItineraryInfeasible | PolicyIneligibleReason | AccessibilityIneligible
    | ConnectionBelowMinimum | CostExceedsPolicy | ConnectionBelowPolicyMinimum
    | TravelerMinimumConnectionNotMet

  datatype Candidate = Candidate(
    id: string, available: bool, policyCompliant: bool, accessibilityCompliant: bool, feasible: bool,
    arrivalDelay: nat, cost: real, connection: nat)

  datatype Evaluated = Evaluated(
    base: Candidate, eligible: bool, reasons: seq<Reason>, score: Option<int>,
    position: Option<nat>, state: CandidateState)

  datatype Policy = Policy(maximumCost: real, minimumConnection: nat)

  const DEFAULT_POLICY := Policy(500.0, 45)

  function Score(c: Candidate): int {
    var raw := 100.0 - c.arrivalDelay as real * 0.5 - c.cost * 0.1;
    Round(100.0 * if raw > 0.0 then raw else 0.0)
  }

  function When<T>(b: bool, x: T): seq<T> {
    if b then [x] else []
  }

  function EvaluateCandidate(c: Candidate, minimumConnection: nat): Evaluated {
    var reasons :=
      When(!c.available, NotAvailable) + When(!c.feasible, ItineraryInfeasible)
      + When(!c.policyCompliant, PolicyIneligibleReason)
      + When(!c.accessibilityCompliant, AccessibilityIneligible)
      + When(c.connection < minimumConnection, ConnectionBelowMinimum);
    Evaluated(
      c, reasons == [], reasons, if reasons == [] then Some(Score(c)) else None, None,
      if !c.available then Unavailable
      else if !c.policyCompliant then PolicyIneligible
      else if reasons != [] then Ineligible
      else Eligible)
  }

  /** The reasons a corporate policy has against a candidate. */
  function PolicyReasons(c: Candidate, policy: Policy): seq<Reason> {
    When(c.cost > policy.maximumCost, CostExceedsPolicy)
    + When(c.connection < policy.minimumConnection, ConnectionBelowPolicyMinimum)
  }

  /** The candidate's checks as they run, each adding its reason. */
  method CheckCandidate(c: Candidate, minimumConnection: nat) returns (e: Evaluated)
    ensures e == EvaluateCandidate(c, minimumConnection)
  {
    var reasons := AddWhen([], !c.available, NotAvailable);
    reasons := AddWhen(reasons, !c.feasible, ItineraryInfeasible);
    reasons := AddWhen(reasons, !c.policyCompliant, PolicyIneligibleReason);
    reasons := AddWhen(reasons, !c.accessibilityCompliant, AccessibilityIneligible);
    reasons := AddWhen(reasons, c.connection < minimumConnection, ConnectionBelowMinimum);
    var score := None;
    if reasons == [] {
      score := Some(Score(c));
    }
    var state := Eligible;
    if !c.available {
      state := Unavailable;
    } else if !c.policyCompliant {
      state := PolicyIneligible;
    } else if reasons != [] {
      state := Ineligible;
    }
    assert EvaluateCandidate(c, minimumConnection).reasons == reasons;
    e := Evaluated(c, reasons == [], reasons, score, None, state);
  }

  method AddWhen(reasons: seq<Reason>, fails: bool, reason: Reason) returns (added: seq<Reason>)
    ensures added == reasons + When(fails, reason)
  {
    added := reasons;
    if fails {
      added := added + [reason];
    }
  }

  /** The policy's checks, likewise. */
  method CheckPolicy(c: Candidate, policy: Policy) returns (reasons: seq<Reason>)
    ensures reasons == PolicyReasons(c, policy)
  {
    reasons := [];
    if c.cost > policy.maximumCost {
      reasons := reasons + [CostExceedsPolicy];
    }
    if c.connection < policy.minimumConnection {
      reasons := reasons + [ConnectionBelowPolicyMinimum];
    }
  }

  /** Each element once, where it first occurs. */
  function Distinct<T(==)>(xs: seq<T>): (r: seq<T>)
    ensures r == [] <==> xs == []
  {
    if xs == [] then []
    else
      var last := |xs| - 1;
      var before := Distinct(xs[..last]);
      if xs[last] in xs[..last] then before else before + [xs[last]]
  }

  function EvaluatePolicyCandidate(c: Candidate, policy: Policy): Evaluated {
    var against := PolicyReasons(c, policy);
    var evaluated :=
      EvaluateCandidate(c.(policyCompliant := c.policyCompliant && against == []), policy.minimumConnection);
    var reasons := Distinct(evaluated.reasons + against);
    if against != [] then
      evaluated.(eligible := false, reasons := reasons, score := None, state := PolicyIneligible)
    else evaluated.(reasons := reasons)
  }

  function ApplyTravelerMinimum(e: Evaluated, minimum: Option<int>): Evaluated {
    if minimum.None? || minimum.value == 0 || e.base.connection >= minimum.value || !e.eligible then e
    else e.(eligible := false, reasons := e.reasons + [TravelerMinimumConnectionNotMet],
            score := None, state := Ineligible)
  }

  function Evaluate(c: Candidate, policy: Policy, minimum: Option<int>): Evaluated {
    ApplyTravelerMinimum(EvaluatePolicyCandidate(c, policy), minimum)
  }

  /** What the whole pipeline asks of a candidate. */
  predicate Meets(c: Candidate, policy: Policy, minimum: Option<int>) {
    && c.available && c.feasible && c.policyCompliant && c.accessibilityCompliant
    && c.cost <= policy.maximumCost
    && c.connection >= policy.minimumConnection
    && (minimum.Some? ==> c.connection >= minimum.value)
  }

  /** Eligible, no reason against it, and a score exposed are one and the same thing, and they hold of
    * exactly the candidates that meet every constraint. */
  lemma PipelineDecides(c: Candidate, policy: Policy, minimum: Option<int>)
    ensures var e := Evaluate(c, policy, minimum);
            && (e.eligible <==> Meets(c, policy, minimum))
            && (e.eligible <==> e.reasons == [])
            && (e.eligible <==> e.score.Some?)
            && (e.eligible <==> e.state == Eligible)
            && (e.eligible ==> e == Evaluated(c, true, [], Some(Score(c)), None, Eligible))
  {
    var against := PolicyReasons(c, policy);
    if against == [] {
      assert c.policyCompliant && against == [] ==> c.(policyCompliant := true) == c;
    }
  }

  /** The state of an evaluated flight: the policy comes first, then availability, then the rest. Of the flight itself
    * only its compliance can change, and it has no position yet. */
  lemma StateExactly(c: Candidate, policy: Policy, minimum: Option<int>)
    ensures var e := Evaluate(c, policy, minimum);
            && e.base == c.(policyCompliant := c.policyCompliant && c.cost <= policy.maximumCost
                                               && c.connection >= policy.minimumConnection)
            && e.position == None
            && e.state == (
                 if c.cost > policy.maximumCost || c.connection < policy.minimumConnection then PolicyIneligible
                 else if !c.available then Unavailable
                 else if !c.policyCompliant then PolicyIneligible
                 else if !c.feasible || !c.accessibilityCompliant then Ineligible
                 else if minimum.Some? && c.connection < minimum.value then Ineligible
                 else Eligible)
  {
    var against := PolicyReasons(c, policy);
    PolicyOwnReasons(c, policy, CostExceedsPolicy);
    assert c.policyCompliant && against == [] ==> c.(policyCompliant := true) == c;
    assert against == [] ==> c.(policyCompliant := c.policyCompliant) == c;
    if against == [] {
      PipelineDecides(c, policy, minimum);
    }
  }

  lemma {:induction false} DistinctMembers<T(!new)>(xs: seq<T>)
    ensures NoDuplicates(Distinct(xs)) && forall x :: x in Distinct(xs) <==> x in xs
  {
    if xs != [] {
      var last := |xs| - 1;
      DistinctMembers(xs[..last]);
      assert xs == xs[..last] + [xs[last]];
    }
  }

  lemma OwnReasons(c: Candidate, minimumConnection: nat, r: Reason)
    ensures r in EvaluateCandidate(c, minimumConnection).reasons <==>
              match r
              case NotAvailable => !c.available
              case ItineraryInfeasible => !c.feasible
              case PolicyIneligibleReason => !c.policyCompliant
              case AccessibilityIneligible => !c.accessibilityCompliant
              case ConnectionBelowMinimum => c.connection < minimumConnection
              case _ => false
  {
    var a := When(!c.available, NotAvailable);
    var b := a + When(!c.feasible, ItineraryInfeasible);
    var d := b + When(!c.policyCompliant, PolicyIneligibleReason);
    var e := d + When(!c.accessibilityCompliant, AccessibilityIneligible);
    assert r in b <==> r in a || (r == ItineraryInfeasible && !c.feasible);
    assert r in d <==> r in b || (r == PolicyIneligibleReason && !c.policyCompliant);
    assert r in e <==> r in d || (r == AccessibilityIneligible && !c.accessibilityCompliant);
    assert EvaluateCandidate(c, minimumConnection).reasons
        == e + When(c.connection < minimumConnection, ConnectionBelowMinimum);
  }

  /** When a reason is to be given. */
  predicate Applies(r: Reason, c: Candidate, policy: Policy, minimum: Option<int>) {
    match r
    case NotAvailable => !c.available
    case ItineraryInfeasible => !c.feasible
    case PolicyIneligibleReason =>
      !c.policyCompliant || c.cost > policy.maximumCost || c.connection < policy.minimumConnection
    case AccessibilityIneligible => !c.accessibilityCompliant
    case CostExceedsPolicy => c.cost > policy.maximumCost
    case ConnectionBelowMinimum => c.connection < policy.minimumConnection
    case ConnectionBelowPolicyMinimum => c.connection < policy.minimumConnection
    case TravelerMinimumConnectionNotMet =>
      Meets(c, policy, None) && minimum.Some? && c.connection < minimum.value
  }

  lemma PolicyCandidateReasons(c: Candidate, policy: Policy, r: Reason)
    ensures NoDuplicates(EvaluatePolicyCandidate(c, policy).reasons)
    ensures r in EvaluatePolicyCandidate(c, policy).reasons <==> Applies(r, c, policy, None)
  {
    var against := PolicyReasons(c, policy);
    var c' := c.(policyCompliant := c.policyCompliant && against == []);
    OwnReasons(c', policy.minimumConnection, r);
    PolicyOwnReasons(c, policy, r);
    AllReasons(c, policy, r);
    assert c'.policyCompliant <==> c.policyCompliant && c.cost <= policy.maximumCost
                                   && c.connection >= policy.minimumConnection;
  }

  /** The candidate's own reasons and the policy's, each once. */
  lemma AllReasons(c: Candidate, policy: Policy, r: Reason)
    ensures var against := PolicyReasons(c, policy);
            var own := EvaluateCandidate(c.(policyCompliant := c.policyCompliant && against == []),
                                         policy.minimumConnection).reasons;
            var reasons := EvaluatePolicyCandidate(c, policy).reasons;
            NoDuplicates(reasons) && (r in reasons <==> r in own || r in against)
  {
    var against := PolicyReasons(c, policy);
    var own := EvaluateCandidate(c.(policyCompliant := c.policyCompliant && against == []),
                                 policy.minimumConnection).reasons;
    DistinctMembers(own + against);
    assert r in own + against <==> r in own || r in against;
  }

  lemma PolicyOwnReasons(c: Candidate, policy: Policy, r: Reason)
    ensures r in PolicyReasons(c, policy) <==>
              (r == CostExceedsPolicy && c.cost > policy.maximumCost)
              || (r == ConnectionBelowPolicyMinimum && c.connection < policy.minimumConnection)
    ensures PolicyReasons(c, policy) == [] <==> c.cost <= policy.maximumCost && c.connection >= policy.minimumConnection
  {
  }

  /** Each reason is given, once, in exactly the situation it names. */
  lemma ReasonsAreExact(c: Candidate, policy: Policy, minimum: Option<int>, r: Reason)
    ensures NoDuplicates(Evaluate(c, policy, minimum).reasons)
    ensures r in Evaluate(c, policy, minimum).reasons <==> Applies(r, c, policy, minimum)
  {
    var e := EvaluatePolicyCandidate(c, policy);
    PolicyCandidateReasons(c, policy, r);
    PipelineDecides(c, policy, None);
    assert Evaluate(c, policy, None) == e;
    TravelerReason(e, minimum, r);
    assert r == TravelerMinimumConnectionNotMet ==> r !in e.reasons;
    assert r != TravelerMinimumConnectionNotMet ==> (Applies(r, c, policy, minimum) <==> Applies(r, c, policy, None));
  }

  lemma TravelerReason(e: Evaluated, minimum: Option<int>, r: Reason)
    requires e.eligible ==> e.reasons == []
    ensures NoDuplicates(e.reasons) ==> NoDuplicates(ApplyTravelerMinimum(e, minimum).reasons)
    ensures r in ApplyTravelerMinimum(e, minimum).reasons
       <==> r in e.reasons
            || (r == TravelerMinimumConnectionNotMet && e.eligible && minimum.Some? && minimum.value != 0
                && e.base.connection < minimum.value)
  {
    assert [] + [TravelerMinimumConnectionNotMet] == [TravelerMinimumConnectionNotMet];
  }

  /* Ranking. */

  function KeyScore(e: Evaluated): int {
    e.score.GetOr(0)
  }

  /** Higher score first; equal scores by descending identifier. */
  predicate Before(a: Evaluated, b: Evaluated) {
    KeyScore(a) > KeyScore(b) || (KeyScore(a) == KeyScore(b) && TextLess(b.base.id, a.base.id))
  }

  predicate IsEligible(e: Evaluated) {
    e.eligible
  }

  function Order(candidates: seq<Evaluated>): seq<Evaluated> {
    Sort(Before, Filter(IsEligible, candidates))
  }

  function RankEligible(candidates: seq<Evaluated>): seq<Evaluated> {
    var ranked := Order(candidates);
    seq(|ranked|, i requires 0 <= i < |ranked| => ranked[i].(position := Some(i + 1)))
  }

  function Id(e: Evaluated): string {
    e.base.id
  }

  ghost predicate UniqueIds(candidates: seq<Evaluated>) {
    forall i, j :: 0 <= i < j < |candidates| ==> candidates[i].base.id != candidates[j].base.id
  }

  lemma BeforeIsWeakOrder()
    ensures WeakOrder(Before)
  {
    TextLessOrders();
    forall a, b, c
      ensures Splits(Before, a, b, c)
    {
      assert Splits(TextLess, c.base.id, b.base.id, a.base.id);
    }
  }

  /** The ranking lists every eligible candidate once, best first, numbered from 1; nothing else changes. */
  lemma RankingIsComplete(candidates: seq<Evaluated>)
    ensures var ranked := RankEligible(candidates);
            && |ranked| == |Filter(IsEligible, candidates)|
            && multiset(Order(candidates)) == multiset(Filter(IsEligible, candidates))
            && (forall i :: 0 <= i < |ranked| ==>
                  ranked[i] == Order(candidates)[i].(position := Some(i + 1)) && ranked[i].eligible)
            && Sorted(Before, Order(candidates))
  {
    OrderIsSorted(candidates);
    SameBagSameLength(Order(candidates), Filter(IsEligible, candidates));
    Numbered(candidates);
  }

  lemma Numbered(candidates: seq<Evaluated>)
    ensures var ranked := RankEligible(candidates);
            |ranked| == |Order(candidates)|
            && forall i :: 0 <= i < |ranked| ==>
                 ranked[i] == Order(candidates)[i].(position := Some(i + 1)) && ranked[i].eligible
  {
    OrderedAreEligible(candidates);
    assert forall i :: 0 <= i < |Order(candidates)| ==> Order(candidates)[i] in Order(candidates);
  }

  lemma OrderIsSorted(candidates: seq<Evaluated>)
    ensures multiset(Order(candidates)) == multiset(Filter(IsEligible, candidates))
    ensures Sorted(Before, Order(candidates))
  {
    SortBag(Before, Filter(IsEligible, candidates));
    BeforeIsWeakOrder();
    SortSorted(Before, Filter(IsEligible, candidates));
  }

  lemma OrderedAreEligible(candidates: seq<Evaluated>)
    ensures forall c | c in Order(candidates) :: c.eligible
  {
    var kept := Filter(IsEligible, candidates);
    SortBag(Before, kept);
    FilterMembers(IsEligible, candidates);
    forall c | c in Order(candidates)
      ensures c.eligible
    {
      assert c in multiset(Order(candidates)) && c in multiset(kept) && c in kept;
      assert IsEligible(c);
    }
  }

  lemma EligibleSeparated(candidates: seq<Evaluated>)
    requires UniqueIds(candidates)
    ensures Separated(Before, multiset(Filter(IsEligible, candidates)))
  {
    var kept := Filter(IsEligible, candidates);
    TextLessOrders();
    FilterNoDuplicates(IsEligible, candidates);
    FilterMembers(IsEligible, candidates);
    forall a | a in multiset(kept)
      ensures multiset(kept)[a] == 1
    {
      NoDuplicatesBag(kept, a);
    }
    forall a, b | a in multiset(kept) && b in multiset(kept) && a != b
      ensures Before(a, b) || Before(b, a)
    {
      assert a in kept && b in kept;
      var i :| 0 <= i < |candidates| && candidates[i] == a;
      var j :| 0 <= j < |candidates| && candidates[j] == b;
      assert a.base.id != b.base.id;
    }
  }

  /** Best score first, and of equal scores the greater identifier first: no two places are the wrong way round. */
  lemma RankedBestFirst(candidates: seq<Evaluated>, i: nat, j: nat)
    requires i < j < |RankEligible(candidates)|
    requires forall c | c in candidates :: c.eligible ==> c.score.Some?
    ensures var a, b := RankEligible(candidates)[i], RankEligible(candidates)[j];
            && a.score.Some? && b.score.Some? && a.score.value >= b.score.value
            && (a.score == b.score && a.base.id != b.base.id ==> TextLess(b.base.id, a.base.id))
            && a.position == Some(i + 1) && b.position == Some(j + 1)
  {
    var ranked, kept := RankEligible(candidates), Filter(IsEligible, candidates);
    RankingIsComplete(candidates);
    FilterMembers(IsEligible, candidates);
    forall k | 0 <= k < |ranked|
      ensures ranked[k].score.Some?
    {
      assert Order(candidates)[k] in multiset(Order(candidates));
      assert Order(candidates)[k] in multiset(kept);
    }
    assert !Before(Order(candidates)[j], Order(candidates)[i]);
    TextLessOrders();
  }

  ghost predicate Scored(candidates: seq<Evaluated>) {
    forall c | c in candidates :: c.eligible ==> c.score == Some(Score(c.base))
  }

  lemma RankedScore(candidates: seq<Evaluated>, i: nat)
    requires Scored(candidates) && i < |RankEligible(candidates)|
    ensures var e := RankEligible(candidates)[i]; e.score == Some(Score(e.base))
  {
    var e := Order(candidates)[i];
    RankingIsComplete(candidates);
    FilterMembers(IsEligible, candidates);
    assert e in multiset(Order(candidates)) && e in multiset(Filter(IsEligible, candidates));
  }

  lemma BetterStandsFirst(candidates: seq<Evaluated>, i: nat, j: nat)
    requires Scored(candidates) && i < |RankEligible(candidates)| && j < |RankEligible(candidates)| && i != j
    requires Score(RankEligible(candidates)[i].base) >= Score(RankEligible(candidates)[j].base)
    ensures i < j || Score(RankEligible(candidates)[i].base) == Score(RankEligible(candidates)[j].base)
  {
    RankedScore(candidates, i);
    RankedScore(candidates, j);
    if j < i {
      RankedBestFirst(candidates, j, i);
    }
  }

  lemma EvaluatedAreScored(flights: seq<Candidate>, policy: Policy, minimum: Option<int>)
    ensures Scored(Map(Evaluator(policy, minimum), flights))
  {
    forall e | e in Map(Evaluator(policy, minimum), flights)
      ensures e.eligible ==> e.score == Some(Score(e.base))
    {
      var k :| 0 <= k < |flights| && Evaluate(flights[k], policy, minimum) == e;
      PipelineDecides(flights[k], policy, minimum);
    }
  }

  /** A flight that is no later and no dearer than another stands before it, unless their scores are equal. */
  lemma DominatorRanksFirst(flights: seq<Candidate>, policy: Policy, minimum: Option<int>, i: nat, j: nat)
    requires var ranked := RankEligible(Map(Evaluator(policy, minimum), flights));
             i < |ranked| && j < |ranked| && i != j
             && ranked[i].base.arrivalDelay <= ranked[j].base.arrivalDelay && ranked[i].base.cost <= ranked[j].base.cost
    ensures var ranked := RankEligible(Map(Evaluator(policy, minimum), flights));
            i < j || (ranked[i].score.Some? && ranked[i].score == ranked[j].score)
  {
    var evaluated := Map(Evaluator(policy, minimum), flights);
    EvaluatedAreScored(flights, policy, minimum);
    RankedScore(evaluated, i);
    RankedScore(evaluated, j);
    DominatorScores(RankEligible(evaluated)[i].base, RankEligible(evaluated)[j].base);
    BetterStandsFirst(evaluated, i, j);
  }

  /** With unique identifiers the ranking does not depend on the order of the input, and no two share a rank. */
  lemma RankingIsCanonical(a: seq<Evaluated>, b: seq<Evaluated>)
    requires UniqueIds(a) && multiset(a) == multiset(b)
    ensures RankEligible(a) == RankEligible(b)
    ensures StrictlySorted(Before, Order(a))
  {
    BeforeIsWeakOrder();
    EligibleSeparated(a);
    FilterSameBag(IsEligible, a, b);
    SortCanonical(Before, Filter(IsEligible, a), Filter(IsEligible, b));
  }

  /** A candidate that is no later and no dearer never scores less. */
  lemma DominatorScores(a: Candidate, b: Candidate)
    requires a.arrivalDelay <= b.arrivalDelay && a.cost <= b.cost
    ensures Score(a) >= Score(b)
  {
    var x := 100.0 - a.arrivalDelay as real * 0.5 - a.cost * 0.1;
    var y := 100.0 - b.arrivalDelay as real * 0.5 - b.cost * 0.1;
    RoundMonotone(100.0 * if y > 0.0 then y else 0.0, 100.0 * if x > 0.0 then x else 0.0);
  }

  /** In hundredths: half a point off for each minute of delay and a tenth for each unit of cost, and never below 0. */
  lemma ScoreExactly(c: Candidate)
    ensures var left := 10000.0 - 50.0 * c.arrivalDelay as real - 10.0 * c.cost;
            if left <= 0.0 then Score(c) == 0 else Score(c) == Round(left)
  {
    RoundWhole(0);
  }

  /** An exposed score is a percentage. */
  lemma ScoreRange(c: Candidate)
    requires c.cost >= 0.0
    ensures 0 <= Score(c) <= 10000
  {
    var raw := 100.0 - c.arrivalDelay as real * 0.5 - c.cost * 0.1;
    RoundWhole(0);
    RoundWhole(10000);
    RoundMonotone(0.0, 100.0 * if raw > 0.0 then raw else 0.0);
    RoundMonotone(100.0 * if raw > 0.0 then raw else 0.0, 10000.0);
  }

  /* Tightening. */

  function Effective(minimum: Option<int>): int {
    minimum.GetOr(0)
  }

  ghost predicate Tightens(policy': Policy, minimum': Option<int>, policy: Policy, minimum: Option<int>) {
    && policy'.maximumCost <= policy.maximumCost
    && policy'.minimumConnection >= policy.minimumConnection
    && Effective(minimum') >= Effective(minimum)
  }

  function Evaluator(policy: Policy, minimum: Option<int>): Candidate -> Evaluated {
    c => Evaluate(c, policy, minimum)
  }

  function Keeps(policy: Policy, minimum: Option<int>): Evaluated -> bool {
    (e: Evaluated) => Meets(e.base, policy, minimum)
  }

  lemma {:induction false} TightenedEligible(
      candidates: seq<Candidate>, policy': Policy, minimum': Option<int>, policy: Policy, minimum: Option<int>)
    requires Tightens(policy', minimum', policy, minimum)
    ensures Filter(IsEligible, Map(Evaluator(policy', minimum'), candidates))
         == Filter(Keeps(policy', minimum'), Filter(IsEligible, Map(Evaluator(policy, minimum), candidates)))
  {
    if candidates != [] {
      var c := candidates[0];
      TightenedEligible(candidates[1..], policy', minimum', policy, minimum);
      PipelineDecides(c, policy, minimum);
      PipelineDecides(c, policy', minimum');
      MapCons(Evaluator(policy', minimum'), candidates);
      MapCons(Evaluator(policy, minimum), candidates);
    }
  }

  lemma MapCons(f: Candidate -> Evaluated, candidates: seq<Candidate>)
    requires candidates != []
    ensures Map(f, candidates) == [f(candidates[0])] + Map(f, candidates[1..])
    ensures Map(f, candidates)[1..] == Map(f, candidates[1..])
  {
  }

  /** Tightening the policy or the traveler's minimum only removes candidates: those left keep their order. */
  lemma TighteningOnlyRemoves(
      candidates: seq<Candidate>, policy': Policy, minimum': Option<int>, policy: Policy, minimum: Option<int>)
    requires Tightens(policy', minimum', policy, minimum)
    ensures Subsequence(
              Map(Id, RankEligible(Map(Evaluator(policy', minimum'), candidates))),
              Map(Id, RankEligible(Map(Evaluator(policy, minimum), candidates))))
  {
    var tight := Map(Evaluator(policy', minimum'), candidates);
    var loose := Map(Evaluator(policy, minimum), candidates);
    TightenedEligible(candidates, policy', minimum', policy, minimum);
    BeforeIsWeakOrder();
    SortFilter(Before, Keeps(policy', minimum'), Filter(IsEligible, loose));
    FilterIsSubsequence(Keeps(policy', minimum'), Order(loose));
    MapSubsequence(Id, Order(tight), Order(loose));
    assert Map(Id, RankEligible(tight)) == Map(Id, Order(tight));
    assert Map(Id, RankEligible(loose)) == Map(Id, Order(loose));
  }
}
