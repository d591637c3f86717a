/** From collected evidence to a scored, routed assessment (apps/api/main.py, agent/graph.py). */
module Assessment {
  import opened Risk

  datatype Freshness = Fresh | Cached | Stale | Unavailable

  datatype Source =
    | FlightStatus | ConnectionFeasibility | WeatherAtAirport | GroundRoute | Advisory
    | OtherSource(name: string)

  /** The risk_score entry of a normalized payload; a missing one reads as 0. */
  datatype ScoreField = Missing | NotNumeric | Number(value: real)

  datatype Evidence = Evidence(source: Source, freshness: Freshness, score: ScoreField) {
    predicate Usable() {
      freshness.Fresh? || freshness.Cached?
    }

    predicate Counts(s: Source) {
      source == s && Usable()
    }

    predicate Numeric() {
      !score.NotNumeric?
    }

    function Value(): real {
      if score.Number? then score.value else 0.0
    }
  }

  datatype Criticality = Standard | Important | BusinessCritical

  datatype Disposition = Monitor | ManagerQueue | Investigate | NeedsHumanReview

  datatype Route = LoadMemoryContext | ApprovalGate | Finalize

  datatype AssessmentResult =
    | Invalid
    | Assessed(assessment: RiskAssessment, unavailable: set<Source>, disposition: Disposition)

  const FIELDS: seq<(Factor, Source)> :=
    [(FlightDisruption, FlightStatus), (ConnectionFragility, ConnectionFeasibility),
     (AirportWeather, WeatherAtAirport), (GroundRouteDisruption, GroundRoute),
     (DestinationAdvisory, Advisory)]

  const CORE_SOURCES: set<Source> := {FlightStatus, WeatherAtAirport, GroundRoute}

  predicate HasUsable(evidence: seq<Evidence>, s: Source) {
    exists e :: e in evidence && e.Counts(s)
  }

  function Values(evidence: seq<Evidence>, s: Source): seq<real> {
    if evidence == [] then []
    else
      var rest := Values(evidence[1..], s);
      if evidence[0].Counts(s) && evidence[0].Numeric() then [evidence[0].Value()] + rest else rest
  }

  function Max(values: seq<real>): real
    requires values != []
  {
    if |values| == 1 then values[0]
    else
      var rest := Max(values[1..]);
      if values[0] >= rest then values[0] else rest
  }

  function FactorScore(evidence: seq<Evidence>, s: Source): real {
    var values := Values(evidence, s);
    if values == [] then 0.0 else Max(values)
  }

  function CriticalityScore(c: Criticality): real {
    match c
    case Standard => 20.0
    case Important => 60.0
    case BusinessCritical => 100.0
  }

  function Scores(evidence: seq<Evidence>, c: Criticality): RiskFactors {
    RiskFactors(
      FactorScore(evidence, FlightStatus), FactorScore(evidence, ConnectionFeasibility),
      FactorScore(evidence, WeatherAtAirport), FactorScore(evidence, GroundRoute),
      FactorScore(evidence, Advisory), CriticalityScore(c))
  }

  function UnknownFactors(evidence: seq<Evidence>, fields: seq<(Factor, Source)>): seq<Factor> {
    if fields == [] then []
    else
      var last := |fields| - 1;
      UnknownFactors(evidence, fields[..last])
      + if HasUsable(evidence, fields[last].1) then [] else [fields[last].0]
  }

  function UnavailableCore(evidence: seq<Evidence>): set<Source> {
    set s | s in CORE_SOURCES && !HasUsable(evidence, s)
  }

  function DispositionFor(severity: Severity, unavailable: set<Source>): Disposition {
    if (severity == High || severity == Critical) && FlightStatus in unavailable then NeedsHumanReview
    else if |unavailable| >= 2 then NeedsHumanReview
    else if severity == High || severity == Critical then Investigate
    else if severity == Watch then ManagerQueue
    else Monitor
  }

  function RouteBySeverity(severity: Severity, unavailable: set<Source>): Route {
    if |unavailable| >= 2 then ApprovalGate
    else if (severity == High || severity == Critical) && FlightStatus in unavailable then ApprovalGate
    else if severity == High || severity == Critical then LoadMemoryContext
    else Finalize
  }

  function Assess(evidence: seq<Evidence>, c: Criticality): AssessmentResult {
    var factors := Scores(evidence, c);
    if !factors.Valid() then Invalid
    else
      var assessment := CalculateRisk(factors, UnknownFactors(evidence, FIELDS));
      var unavailable := UnavailableCore(evidence);
      Assessed(assessment, unavailable, DispositionFor(assessment.severity, unavailable))
  }

  function SourceOf(f: Factor): Source {
    match f
    case FlightDisruption => FlightStatus
    case ConnectionFragility => ConnectionFeasibility
    case AirportWeather => WeatherAtAirport
    case GroundRouteDisruption => GroundRoute
    case DestinationAdvisory => Advisory
    case TravelerTripCriticality => OtherSource("")
  }

  method UsableValues(evidence: seq<Evidence>, s: Source) returns (available: bool, values: seq<real>)
    ensures available == HasUsable(evidence, s)
    ensures values == Values(evidence, s)
  {
    available, values := false, [];
    for k := 0 to |evidence|
      invariant available <==> exists e :: e in evidence[..k] && e.Counts(s)
      invariant values + Values(evidence[k..], s) == Values(evidence, s)
    {
      assert evidence[..k + 1] == evidence[..k] + [evidence[k]];
      assert evidence[k..][1..] == evidence[k + 1..];
      if evidence[k].Counts(s) {
        available := true;
        if evidence[k].Numeric() {
          values := values + [evidence[k].Value()];
        }
      }
    }
    assert evidence[..|evidence|] == evidence;
  }

  method ScoreOneField(evidence: seq<Evidence>, s: Source) returns (available: bool, score: real)
    ensures available == HasUsable(evidence, s)
    ensures score == FactorScore(evidence, s)
  {
    var values;
    available, values := UsableValues(evidence, s);
    if available {
      score := if values == [] then 0.0 else Max(values);
    } else {
      NoValues(evidence, s);
      score := 0.0;
    }
  }

  lemma UnknownStep(evidence: seq<Evidence>, fields: seq<(Factor, Source)>, i: nat)
    requires i < |fields|
    ensures UnknownFactors(evidence, fields[..i + 1])
         == UnknownFactors(evidence, fields[..i]) + if HasUsable(evidence, fields[i].1) then [] else [fields[i].0]
  {
    assert fields[..i + 1][..i] == fields[..i];
  }

  /** The scoring loop: one pass over the evidence for each scored field. */
  method ScoreFields(evidence: seq<Evidence>, fields: seq<(Factor, Source)>)
    returns (scores: map<Factor, real>, unknown: seq<Factor>)
    requires forall field | field in fields :: field.1 == SourceOf(field.0)
    ensures unknown == UnknownFactors(evidence, fields)
    ensures forall i :: 0 <= i < |fields| ==> fields[i].0 in scores
    ensures forall f | f in scores :: scores[f] == FactorScore(evidence, SourceOf(f))
  {
    scores, unknown := map[], [];
    for i := 0 to |fields|
      invariant unknown == UnknownFactors(evidence, fields[..i])
      invariant forall j :: 0 <= j < i ==> fields[j].0 in scores
      invariant forall f | f in scores :: scores[f] == FactorScore(evidence, SourceOf(f))
    {
      var (field, source) := fields[i];
      assert fields[i] in fields && source == SourceOf(field);
      var available, score := ScoreOneField(evidence, source);
      scores := scores[field := score];
      unknown := if available then unknown else unknown + [field];
      UnknownStep(evidence, fields, i);
    }
    assert fields[..|fields|] == fields;
  }

  method GetScoringInput(evidence: seq<Evidence>, c: Criticality)
    returns (factors: RiskFactors, unknown: seq<Factor>)
    ensures factors == RiskFactors(
              FactorScore(evidence, FlightStatus), FactorScore(evidence, ConnectionFeasibility),
              FactorScore(evidence, WeatherAtAirport), FactorScore(evidence, GroundRoute),
              FactorScore(evidence, Advisory),
              match c case Standard => 20.0 case Important => 60.0 case BusinessCritical => 100.0)
    ensures factors == Scores(evidence, c)
    ensures unknown == UnknownFactors(evidence, FIELDS)
  {
    var scores;
    scores, unknown := ScoreFields(evidence, FIELDS);
    assert FIELDS[0].0 in scores && FIELDS[1].0 in scores && FIELDS[2].0 in scores
           && FIELDS[3].0 in scores && FIELDS[4].0 in scores;
    factors := RiskFactors(
      scores[FlightDisruption], scores[ConnectionFragility], scores[AirportWeather],
      scores[GroundRouteDisruption], scores[DestinationAdvisory], CriticalityScore(c));
  }

  /* Values and maxima by membership, which is what order independence needs. */

  ghost predicate Offers(evidence: seq<Evidence>, s: Source, v: real) {
    exists e :: e in evidence && e.Counts(s) && e.Numeric() && e.Value() == v
  }

  lemma {:induction false} ValuesAreOffers(evidence: seq<Evidence>, s: Source)
    ensures forall v :: v in Values(evidence, s) <==> Offers(evidence, s, v)
  {
    if evidence != [] {
      ValuesAreOffers(evidence[1..], s);
      forall v
        ensures v in Values(evidence, s) <==> Offers(evidence, s, v)
      {
        assert evidence == [evidence[0]] + evidence[1..];
        if Offers(evidence, s, v) {
          var e :| e in evidence && e.Counts(s) && e.Numeric() && e.Value() == v;
          assert e == evidence[0] || e in evidence[1..];
        }
        if v in Values(evidence, s) && Offers(evidence[1..], s, v) {
          var e :| e in evidence[1..] && e.Counts(s) && e.Numeric() && e.Value() == v;
          assert e in evidence;
        }
      }
    }
  }

  lemma {:induction false} NoValues(evidence: seq<Evidence>, s: Source)
    requires !HasUsable(evidence, s)
    ensures Values(evidence, s) == []
  {
    if evidence != [] {
      assert evidence[0] in evidence;
      assert forall e | e in evidence[1..] :: e in evidence;
      NoValues(evidence[1..], s);
    }
  }

  lemma {:induction false} MaxIsTop(values: seq<real>)
    requires values != []
    ensures Max(values) in values && forall v | v in values :: v <= Max(values)
  {
    if |values| > 1 {
      MaxIsTop(values[1..]);
      assert values == [values[0]] + values[1..];
    }
  }

  /** The score of a field is the largest usable number offered, or 0 when none is. */
  lemma FactorScoreIsTop(evidence: seq<Evidence>, s: Source)
    ensures (exists v :: Offers(evidence, s, v)) ==> Offers(evidence, s, FactorScore(evidence, s))
    ensures (forall v :: !Offers(evidence, s, v)) ==> FactorScore(evidence, s) == 0.0
    ensures forall v :: Offers(evidence, s, v) ==> v <= FactorScore(evidence, s)
  {
    ValuesAreOffers(evidence, s);
    var values := Values(evidence, s);
    if values != [] {
      MaxIsTop(values);
      assert Offers(evidence, s, values[0]);
    }
  }

  ghost predicate IsUsable(e: Evidence, s: Source) {
    e.source == s && e.freshness != Stale && e.freshness != Unavailable
  }

  /** A field scores at least every number that fresh or cached evidence of its source carries, a missing one counting
    * as 0, and no more than the largest of them; with none, 0. */
  lemma FactorExactly(evidence: seq<Evidence>, s: Source)
    ensures forall e | e in evidence && IsUsable(e, s) && e.score.Number? :: e.score.value <= FactorScore(evidence, s)
    ensures forall e | e in evidence && IsUsable(e, s) && e.score.Missing? :: 0.0 <= FactorScore(evidence, s)
    ensures FactorScore(evidence, s) == 0.0
            || exists e :: e in evidence && IsUsable(e, s) && e.score == Number(FactorScore(evidence, s))
  {
    FactorScoreIsTop(evidence, s);
    forall e | e in evidence && IsUsable(e, s) && !e.score.NotNumeric?
      ensures Offers(evidence, s, e.Value())
    {
      assert e.Counts(s) && e.Numeric();
    }
    if exists v :: Offers(evidence, s, v) {
      var e :| e in evidence && e.Counts(s) && e.Numeric() && e.Value() == FactorScore(evidence, s);
      assert IsUsable(e, s);
    }
  }

  ghost predicate Heard(evidence: seq<Evidence>, s: Source) {
    exists e :: e in evidence && IsUsable(e, s)
  }

  lemma {:induction false} UnknownExactly(evidence: seq<Evidence>, fields: seq<(Factor, Source)>, f: Factor)
    ensures f in UnknownFactors(evidence, fields) <==>
              exists i :: 0 <= i < |fields| && fields[i].0 == f && !Heard(evidence, fields[i].1)
  {
    if fields != [] {
      var last := |fields| - 1;
      var front := fields[..last];
      UnknownExactly(evidence, front, f);
      HeardExactly(evidence, fields[last].1);
      assert forall i :: 0 <= i < last ==> front[i] == fields[i];
    }
  }

  lemma HeardExactly(evidence: seq<Evidence>, s: Source)
    ensures HasUsable(evidence, s) <==> Heard(evidence, s)
  {
    if e :| e in evidence && e.Counts(s) {
      assert IsUsable(e, s);
    }
    if e :| e in evidence && IsUsable(e, s) {
      assert e.Counts(s);
    }
  }

  /** The whole assessment: which factors are unknown, which core sources are out, and the disposition that the score
    * and they call for. */
  lemma AssessExactly(evidence: seq<Evidence>, c: Criticality, s: Source)
    requires Assess(evidence, c).Assessed?
    ensures var a := Assess(evidence, c);
            && (s in a.unavailable <==>
                  (s == FlightStatus || s == WeatherAtAirport || s == GroundRoute) && !Heard(evidence, s))
            && (var unknown := a.assessment.unknownFactors;
                && (FlightDisruption in unknown <==> !Heard(evidence, FlightStatus))
                && (ConnectionFragility in unknown <==> !Heard(evidence, ConnectionFeasibility))
                && (AirportWeather in unknown <==> !Heard(evidence, WeatherAtAirport))
                && (GroundRouteDisruption in unknown <==> !Heard(evidence, GroundRoute))
                && (DestinationAdvisory in unknown <==> !Heard(evidence, Advisory))
                && TravelerTripCriticality !in unknown)
    ensures var a := Assess(evidence, c);
            var score := a.assessment.riskScore;
            var review := |a.unavailable| >= 2 || (score >= 5000 && FlightStatus in a.unavailable);
            a.disposition == if review then NeedsHumanReview else if score >= 5000 then Investigate
                             else if score >= 2500 then ManagerQueue else Monitor
  {
    HeardExactly(evidence, s);
    UnknownInFields(evidence);
    var a := Assess(evidence, c);
    SeverityBands(Scores(evidence, c), UnknownFactors(evidence, FIELDS));
    DispositionExactly(a.assessment.severity, a.assessment.riskScore, a.unavailable);
  }

  lemma DispositionExactly(severity: Severity, score: int, unavailable: set<Source>)
    requires (severity == Low <==> score < 2500) && (severity == Watch <==> 2500 <= score < 5000)
    ensures var review := |unavailable| >= 2 || (score >= 5000 && FlightStatus in unavailable);
            DispositionFor(severity, unavailable)
            == if review then NeedsHumanReview else if score >= 5000 then Investigate
               else if score >= 2500 then ManagerQueue else Monitor
  {
  }

  lemma UnknownInFields(evidence: seq<Evidence>)
    ensures var unknown := UnknownFactors(evidence, FIELDS);
            && (FlightDisruption in unknown <==> !Heard(evidence, FlightStatus))
            && (ConnectionFragility in unknown <==> !Heard(evidence, ConnectionFeasibility))
            && (AirportWeather in unknown <==> !Heard(evidence, WeatherAtAirport))
            && (GroundRouteDisruption in unknown <==> !Heard(evidence, GroundRoute))
            && (DestinationAdvisory in unknown <==> !Heard(evidence, Advisory))
            && TravelerTripCriticality !in unknown
  {
    UnknownExactly(evidence, FIELDS, FlightDisruption);
    UnknownExactly(evidence, FIELDS, ConnectionFragility);
    UnknownExactly(evidence, FIELDS, AirportWeather);
    UnknownExactly(evidence, FIELDS, GroundRouteDisruption);
    UnknownExactly(evidence, FIELDS, DestinationAdvisory);
    UnknownExactly(evidence, FIELDS, TravelerTripCriticality);
    assert FIELDS[0] == (FlightDisruption, FlightStatus) && FIELDS[1] == (ConnectionFragility, ConnectionFeasibility);
    assert FIELDS[2] == (AirportWeather, WeatherAtAirport) && FIELDS[3] == (GroundRouteDisruption, GroundRoute);
    assert FIELDS[4] == (DestinationAdvisory, Advisory);
  }

  /* Order independence. */

  lemma SameScore(a: seq<Evidence>, b: seq<Evidence>, s: Source)
    requires multiset(a) == multiset(b)
    ensures FactorScore(a, s) == FactorScore(b, s) && HasUsable(a, s) == HasUsable(b, s)
  {
    assert forall e :: e in a <==> e in multiset(a);
    assert forall e :: e in b <==> e in multiset(b);
    assert forall v :: Offers(a, s, v) <==> Offers(b, s, v);
    FactorScoreIsTop(a, s);
    FactorScoreIsTop(b, s);
  }

  lemma {:induction false} SameUnknown(a: seq<Evidence>, b: seq<Evidence>, fields: seq<(Factor, Source)>)
    requires multiset(a) == multiset(b)
    ensures UnknownFactors(a, fields) == UnknownFactors(b, fields)
  {
    if fields != [] {
      var last := |fields| - 1;
      SameScore(a, b, fields[last].1);
      SameUnknown(a, b, fields[..last]);
    }
  }

  /** Score, unknown factors, unavailable sources and disposition do not depend on the evidence order. */
  lemma AssessmentIgnoresOrder(a: seq<Evidence>, b: seq<Evidence>, c: Criticality)
    requires multiset(a) == multiset(b)
    ensures Assess(a, c) == Assess(b, c)
  {
    SameUnknown(a, b, FIELDS);
    forall s: Source
      ensures FactorScore(a, s) == FactorScore(b, s) && HasUsable(a, s) == HasUsable(b, s)
    {
      SameScore(a, b, s);
    }
    assert Scores(a, c) == Scores(b, c);
    assert UnavailableCore(a) == UnavailableCore(b);
  }

  /* Losing evidence. */

  /** Each item of b is the one of a, possibly gone stale or unavailable. */
  ghost predicate Degrades(a: seq<Evidence>, b: seq<Evidence>) {
    && |a| == |b|
    && forall i :: 0 <= i < |a| ==>
         b[i] == a[i] || b[i] == a[i].(freshness := Stale) || b[i] == a[i].(freshness := Unavailable)
  }

  predicate Scored(s: Source) {
    s in CORE_SOURCES || s == ConnectionFeasibility || s == Advisory
  }

  /** No number that a factor is read from is below zero. */
  predicate NonNegative(evidence: seq<Evidence>) {
    forall e | e in evidence :: e.Usable() && Scored(e.source) ==> e.Value() >= 0.0
  }

  lemma DegradedUsable(a: seq<Evidence>, b: seq<Evidence>, s: Source)
    requires Degrades(a, b)
    ensures forall e | e in b && e.Counts(s) :: e in a
    ensures HasUsable(b, s) ==> HasUsable(a, s)
  {
    forall e | e in b && e.Counts(s)
      ensures e in a
    {
      var i :| 0 <= i < |b| && b[i] == e;
      assert b[i] == a[i];
    }
  }

  lemma DegradedScore(a: seq<Evidence>, b: seq<Evidence>, s: Source)
    requires Degrades(a, b) && NonNegative(a) && Scored(s)
    ensures 0.0 <= FactorScore(b, s) <= FactorScore(a, s)
  {
    FactorScoreIsTop(a, s);
    FactorScoreIsTop(b, s);
    DegradedUsable(a, b, s);
    assert forall v :: Offers(b, s, v) ==> Offers(a, s, v);
    assert forall v :: Offers(a, s, v) ==> v >= 0.0;
  }

  lemma {:induction false} DegradedUnknown(a: seq<Evidence>, b: seq<Evidence>, fields: seq<(Factor, Source)>)
    requires Degrades(a, b)
    ensures forall f | f in UnknownFactors(a, fields) :: f in UnknownFactors(b, fields)
  {
    if fields != [] {
      var last := |fields| - 1;
      DegradedUsable(a, b, fields[last].1);
      DegradedUnknown(a, b, fields[..last]);
    }
  }

  /** Losing evidence never raises the score, never shrinks what is reported unknown or unavailable,
    * never turns a valid assessment into an error, and never undoes a two-source outage review. */
  lemma DegradationIsSafe(a: seq<Evidence>, b: seq<Evidence>, c: Criticality)
    requires Degrades(a, b) && NonNegative(a) && Assess(a, c).Assessed?
    ensures Assess(b, c).Assessed?
    ensures Assess(b, c).assessment.riskScore <= Assess(a, c).assessment.riskScore
    ensures forall f | f in Assess(a, c).assessment.unknownFactors :: f in Assess(b, c).assessment.unknownFactors
    ensures Assess(a, c).unavailable <= Assess(b, c).unavailable
    ensures |Assess(a, c).unavailable| >= 2 ==> Assess(b, c).disposition == NeedsHumanReview
  {
    DegradedFactors(a, b, c);
    DegradedUnknown(a, b, FIELDS);
    ScoreMonotone(Scores(b, c), Scores(a, c), UnknownFactors(b, FIELDS), UnknownFactors(a, FIELDS));
    DegradedCore(a, b);
  }

  lemma DegradedFactors(a: seq<Evidence>, b: seq<Evidence>, c: Criticality)
    requires Degrades(a, b) && NonNegative(a)
    ensures AtMost(Scores(b, c), Scores(a, c))
    ensures Scores(a, c).Valid() ==> Scores(b, c).Valid()
  {
    DegradedScore(a, b, FlightStatus);
    DegradedScore(a, b, ConnectionFeasibility);
    DegradedScore(a, b, WeatherAtAirport);
    DegradedScore(a, b, GroundRoute);
    DegradedScore(a, b, Advisory);
  }

  lemma DegradedCore(a: seq<Evidence>, b: seq<Evidence>)
    requires Degrades(a, b)
    ensures UnavailableCore(a) <= UnavailableCore(b) && |UnavailableCore(a)| <= |UnavailableCore(b)|
  {
    forall s | s in UnavailableCore(a)
      ensures s in UnavailableCore(b)
    {
      DegradedUsable(a, b, s);
    }
    var lost, more := UnavailableCore(a), UnavailableCore(b);
    assert more == lost + (more - lost);
  }

  /* Which dispositions survive a loss of evidence. */

  lemma NoneCounts(evidence: seq<Evidence>, s: Source)
    requires forall e | e in evidence :: !e.Counts(s)
    ensures !HasUsable(evidence, s) && FactorScore(evidence, s) == 0.0
  {
    NoValues(evidence, s);
  }

  /** With one usable item a source scores what that item says. */
  lemma OneCounts(evidence: seq<Evidence>, s: Source, i: nat)
    requires i < |evidence| && evidence[i].Counts(s)
    requires forall j | 0 <= j < |evidence| && evidence[j].Counts(s) :: j == i
    ensures HasUsable(evidence, s) && FactorScore(evidence, s) == evidence[i].Value()
  {
    var e := evidence[i];
    assert e in evidence;
    FactorScoreIsTop(evidence, s);
    forall v | Offers(evidence, s, v)
      ensures e.Numeric() && v == e.Value()
    {
      var f :| f in evidence && f.Counts(s) && f.Numeric() && f.Value() == v;
      var j :| 0 <= j < |evidence| && evidence[j] == f;
    }
    if e.Numeric() {
      assert Offers(evidence, s, e.Value());
    }
  }

  /** The place of the lowest usable item of a source; an item that is not a number leaves a score of 0. */
  function LowestAt(evidence: seq<Evidence>, s: Source): (i: nat)
    requires HasUsable(evidence, s)
    ensures i < |evidence| && evidence[i].Counts(s)
    ensures forall e | e in evidence && e.Counts(s) :: evidence[i].Value() <= e.Value()
  {
    var last := |evidence| - 1;
    var rest := evidence[..last];
    assert evidence == rest + [evidence[last]];
    if !HasUsable(rest, s) then last
    else
      var i := LowestAt(rest, s);
      if evidence[last].Counts(s) && evidence[last].Value() < rest[i].Value() then last else i
  }

  function Floor(evidence: seq<Evidence>, s: Source, lost: set<Source>): real {
    if s in lost || !HasUsable(evidence, s) then 0.0 else evidence[LowestAt(evidence, s)].Value()
  }

  /** What is left of the factors when each core source that is not lost keeps its lowest usable item alone. */
  function FloorScores(evidence: seq<Evidence>, c: Criticality, lost: set<Source>): RiskFactors {
    RiskFactors(
      Floor(evidence, FlightStatus, lost), 0.0, Floor(evidence, WeatherAtAirport, lost),
      Floor(evidence, GroundRoute, lost), 0.0, CriticalityScore(c))
  }

  function FloorDisposition(evidence: seq<Evidence>, c: Criticality, lost: set<Source>): Disposition {
    DispositionFor(CalculateRisk(FloorScores(evidence, c, lost), []).severity, lost)
  }

  function Urgency(d: Disposition): nat {
    match d
    case Monitor => 0
    case ManagerQueue => 1
    case Investigate => 2
    case NeedsHumanReview => 3
  }

  predicate HoldsUp(evidence: seq<Evidence>, c: Criticality, d: Disposition, lost: set<Source>) {
    Urgency(d) <= Urgency(FloorDisposition(evidence, c, lost))
  }

  /** Worked out from the evidence at hand: there is nothing to lower, or two core sources are out already, or the
    * floor still calls for as much with no further core source lost and, if all are there, with any one of them. */
  predicate SurvivesLoss(evidence: seq<Evidence>, c: Criticality, d: Disposition) {
    var out := UnavailableCore(evidence);
    || d == Monitor
    || |out| >= 2
    || (HoldsUp(evidence, c, d, out) && (out == {} ==> forall s | s in CORE_SOURCES :: HoldsUp(evidence, c, d, {s})))
  }

  /** No loss of evidence lowers a disposition or makes an error of it exactly when no number is negative and the
    * disposition is carried by the floor. */
  lemma DispositionSurvives(a: seq<Evidence>, c: Criticality)
    requires Assess(a, c).Assessed?
    ensures (forall b | Degrades(a, b) ::
               Assess(b, c).Assessed? && Urgency(Assess(a, c).disposition) <= Urgency(Assess(b, c).disposition))
       <==> NonNegative(a) && SurvivesLoss(a, c, Assess(a, c).disposition)
  {
    var d := Assess(a, c).disposition;
    if NonNegative(a) && SurvivesLoss(a, c, d) {
      forall b | Degrades(a, b)
        ensures Assess(b, c).Assessed? && Urgency(d) <= Urgency(Assess(b, c).disposition)
      {
        LossSurvived(a, b, c);
      }
    } else if NonNegative(a) {
      var lost := FatalLoss(a, c, d);
      FloorReached(a, c, lost);
      assert Degrades(a, AtFloor(a, lost));
    } else {
      var i :| 0 <= i < |a| && a[i].Usable() && Scored(a[i].source) && a[i].Value() < 0.0;
      NegativeLeft(a, c, i);
      assert Degrades(a, Keep(a, {i}));
    }
  }

  lemma LossSurvived(a: seq<Evidence>, b: seq<Evidence>, c: Criticality)
    requires Degrades(a, b) && NonNegative(a) && Assess(a, c).Assessed?
    requires SurvivesLoss(a, c, Assess(a, c).disposition)
    ensures Assess(b, c).Assessed? && Urgency(Assess(a, c).disposition) <= Urgency(Assess(b, c).disposition)
  {
    var d, lost := Assess(a, c).disposition, UnavailableCore(b);
    DegradedFactors(a, b, c);
    DegradedCore(a, b);
    if |lost| <= 1 && d != Monitor {
      FloorHolds(a, c, d, lost);
      AboveFloor(a, b, c);
      ScoreMonotone(FloorScores(a, c, lost), Scores(b, c), [], UnknownFactors(b, FIELDS));
      DispositionMonotone(CalculateRisk(FloorScores(a, c, lost), []).severity,
                          CalculateRisk(Scores(b, c), UnknownFactors(b, FIELDS)).severity, lost);
    }
  }

  lemma FloorHolds(a: seq<Evidence>, c: Criticality, d: Disposition, lost: set<Source>)
    requires SurvivesLoss(a, c, d) && d != Monitor
    requires UnavailableCore(a) <= lost <= CORE_SOURCES && |lost| <= 1
    ensures HoldsUp(a, c, d, lost)
  {
    LostAtMostOne(UnavailableCore(a), lost);
  }

  lemma LostAtMostOne(out: set<Source>, lost: set<Source>)
    requires out <= lost <= CORE_SOURCES && |lost| <= 1
    ensures |out| <= 1 && (lost == out || (out == {} && exists s :: s in CORE_SOURCES && lost == {s}))
  {
    assert lost == out + (lost - out);
    if s :| s in lost {
      assert |lost - {s}| == 0;
      assert lost == {s};
      if s !in out {
        assert out == {};
      }
    }
  }

  lemma DispositionMonotone(low: Severity, high: Severity, lost: set<Source>)
    requires Rank(low) <= Rank(high)
    ensures Urgency(DispositionFor(low, lost)) <= Urgency(DispositionFor(high, lost))
  {
  }

  lemma AboveFloor(a: seq<Evidence>, b: seq<Evidence>, c: Criticality)
    requires Degrades(a, b) && NonNegative(a)
    ensures AtMost(FloorScores(a, c, UnavailableCore(b)), Scores(b, c))
  {
    SourceAboveFloor(a, b, FlightStatus);
    SourceAboveFloor(a, b, WeatherAtAirport);
    SourceAboveFloor(a, b, GroundRoute);
    DegradedScore(a, b, ConnectionFeasibility);
    DegradedScore(a, b, Advisory);
  }

  lemma SourceAboveFloor(a: seq<Evidence>, b: seq<Evidence>, s: Source)
    requires Degrades(a, b) && NonNegative(a) && s in CORE_SOURCES
    ensures Floor(a, s, UnavailableCore(b)) <= FactorScore(b, s)
  {
    DegradedScore(a, b, s);
    DegradedUsable(a, b, s);
    FactorScoreIsTop(b, s);
    if HasUsable(b, s) {
      var e :| e in b && e.Counts(s);
      assert e in a && a[LowestAt(a, s)].Value() <= e.Value();
      assert e.Numeric() ==> Offers(b, s, e.Value());
    }
  }

  /** The evidence with all but the items at the given places gone stale. */
  function Keep(evidence: seq<Evidence>, kept: set<nat>): (b: seq<Evidence>)
    ensures Degrades(evidence, b)
    ensures forall i | 0 <= i < |b| :: b[i].source == evidence[i].source && (b[i].Usable() ==> i in kept)
    ensures forall i | 0 <= i < |b| && i in kept :: b[i] == evidence[i]
  {
    seq(|evidence|, i requires 0 <= i < |evidence| =>
      if i in kept then evidence[i] else evidence[i].(freshness := Stale))
  }

  function LowestPlaces(evidence: seq<Evidence>, lost: set<Source>): set<nat> {
    set s | s in CORE_SOURCES && s !in lost && HasUsable(evidence, s) :: LowestAt(evidence, s)
  }

  function AtFloor(evidence: seq<Evidence>, lost: set<Source>): seq<Evidence> {
    Keep(evidence, LowestPlaces(evidence, lost))
  }

  lemma SourceAtFloor(evidence: seq<Evidence>, s: Source, lost: set<Source>)
    ensures FactorScore(AtFloor(evidence, lost), s) == if s in CORE_SOURCES then Floor(evidence, s, lost) else 0.0
    ensures HasUsable(AtFloor(evidence, lost), s) <==> s in CORE_SOURCES && s !in lost && HasUsable(evidence, s)
  {
    var b := AtFloor(evidence, lost);
    if s in CORE_SOURCES && s !in lost && HasUsable(evidence, s) {
      var i := LowestAt(evidence, s);
      assert i in LowestPlaces(evidence, lost);
      OneCounts(b, s, i);
    } else {
      NoneCounts(b, s);
    }
  }

  /** The floor is reached: some loss of evidence leaves exactly it, with exactly the given core sources out. */
  lemma FloorReached(a: seq<Evidence>, c: Criticality, lost: set<Source>)
    requires NonNegative(a) && Assess(a, c).Assessed? && UnavailableCore(a) <= lost <= CORE_SOURCES
    ensures Assess(AtFloor(a, lost), c).Assessed?
    ensures Assess(AtFloor(a, lost), c).disposition == FloorDisposition(a, c, lost)
  {
    DegradedFactors(a, AtFloor(a, lost), c);
    FloorScoresReached(a, c, lost);
    FloorLoses(a, lost);
  }

  lemma FloorScoresReached(a: seq<Evidence>, c: Criticality, lost: set<Source>)
    ensures Scores(AtFloor(a, lost), c) == FloorScores(a, c, lost)
  {
    SourceAtFloor(a, FlightStatus, lost);
    SourceAtFloor(a, ConnectionFeasibility, lost);
    SourceAtFloor(a, WeatherAtAirport, lost);
    SourceAtFloor(a, GroundRoute, lost);
    SourceAtFloor(a, Advisory, lost);
  }

  lemma FloorLoses(a: seq<Evidence>, lost: set<Source>)
    requires UnavailableCore(a) <= lost <= CORE_SOURCES
    ensures UnavailableCore(AtFloor(a, lost)) == lost
  {
    forall s | s in CORE_SOURCES
      ensures HasUsable(AtFloor(a, lost), s) <==> s !in lost
    {
      SourceAtFloor(a, s, lost);
    }
  }

  lemma FatalLoss(a: seq<Evidence>, c: Criticality, d: Disposition) returns (lost: set<Source>)
    requires !SurvivesLoss(a, c, d)
    ensures UnavailableCore(a) <= lost <= CORE_SOURCES && !HoldsUp(a, c, d, lost)
  {
    lost := UnavailableCore(a);
    if HoldsUp(a, c, d, lost) {
      var s :| s in CORE_SOURCES && !HoldsUp(a, c, d, {s});
      lost := {s};
    }
  }

  /** A negative number left alone makes an error of the assessment. */
  lemma NegativeLeft(a: seq<Evidence>, c: Criticality, i: nat)
    requires i < |a| && a[i].Usable() && Scored(a[i].source) && a[i].Value() < 0.0
    ensures Assess(Keep(a, {i}), c).Invalid?
  {
    OneCounts(Keep(a, {i}), a[i].source, i);
  }

  /** Some loss of evidence takes the one disposition to the other. */
  ghost predicate CanFall(c: Criticality, from: Disposition, to: Disposition) {
    exists a, b :: Degrades(a, b) && NonNegative(a) && Disposed(a, c, from) && Disposed(b, c, to)
  }

  ghost predicate Disposed(evidence: seq<Evidence>, c: Criticality, d: Disposition) {
    Assess(evidence, c).Assessed? && Assess(evidence, c).disposition == d
  }

  /** So a loss can hide the risk that was to be investigated. */
  lemma DegradationCanLowerDisposition()
    ensures CanFall(Standard, Investigate, ManagerQueue)
  {
    var a := [Certain(FlightStatus), Certain(WeatherAtAirport), Quiet(GroundRoute)];
    Falls(a, a[1 := Gone(WeatherAtAirport)]);
  }

  lemma Falls(a: seq<Evidence>, b: seq<Evidence>)
    requires |a| == 3 && a[0] == Certain(FlightStatus) && a[2] == Quiet(GroundRoute)
    requires a[1] == Certain(WeatherAtAirport) && b == a[1 := Gone(WeatherAtAirport)]
    ensures CanFall(Standard, Investigate, ManagerQueue)
  {
    ThreeItems(a);
    ThreeItems(b);
    assert Degrades(a, b);
  }

  lemma ThreeItems(e: seq<Evidence>)
    requires |e| == 3 && e[0] == Certain(FlightStatus) && e[2] == Quiet(GroundRoute)
    requires e[1] == Certain(WeatherAtAirport) || e[1] == Gone(WeatherAtAirport)
    ensures Disposed(e, Standard, if e[1].Usable() then Investigate else ManagerQueue)
  {
    OneCounts(e, FlightStatus, 0);
    OneCounts(e, GroundRoute, 2);
    NoneCounts(e, ConnectionFeasibility);
    NoneCounts(e, Advisory);
    if e[1].Usable() {
      OneCounts(e, WeatherAtAirport, 1);
      Example(e, Standard, RiskFactors(100.0, 0.0, 100.0, 0.0, 0.0, 20.0), {}, 5600.0);
    } else {
      NoneCounts(e, WeatherAtAirport);
      Example(e, Standard, RiskFactors(100.0, 0.0, 0.0, 0.0, 0.0, 20.0), {WeatherAtAirport}, 3600.0);
    }
  }

  /** And it can undo a human review: with no flight status, two further sources going stale take the score below
    * what a review is made for. */
  lemma DegradationCanUndoReview()
    ensures CanFall(BusinessCritical, NeedsHumanReview, ManagerQueue)
  {
    var a := [Certain(WeatherAtAirport), Certain(GroundRoute), Certain(ConnectionFeasibility), Certain(Advisory)];
    ReviewFalls(a, a[2 := Gone(ConnectionFeasibility)][3 := Gone(Advisory)]);
  }

  lemma ReviewFalls(a: seq<Evidence>, b: seq<Evidence>)
    requires |a| == 4 && a[0] == Certain(WeatherAtAirport) && a[1] == Certain(GroundRoute)
    requires a[2] == Certain(ConnectionFeasibility) && a[3] == Certain(Advisory)
    requires b == a[2 := Gone(ConnectionFeasibility)][3 := Gone(Advisory)]
    ensures CanFall(BusinessCritical, NeedsHumanReview, ManagerQueue)
  {
    TwoGoStale(a, b);
    AllFour(a);
    TwoOfFour(b);
  }

  lemma TwoGoStale(a: seq<Evidence>, b: seq<Evidence>)
    requires |a| == 4 && b == a[2 := a[2].(freshness := Stale)][3 := a[3].(freshness := Stale)]
    ensures Degrades(a, b)
  {
  }

  lemma AllFour(e: seq<Evidence>)
    requires |e| == 4 && e[0] == Certain(WeatherAtAirport) && e[1] == Certain(GroundRoute)
    requires e[2] == Certain(ConnectionFeasibility) && e[3] == Certain(Advisory)
    ensures Disposed(e, BusinessCritical, NeedsHumanReview)
  {
    NoneCounts(e, FlightStatus);
    OneCounts(e, WeatherAtAirport, 0);
    OneCounts(e, GroundRoute, 1);
    OneCounts(e, ConnectionFeasibility, 2);
    OneCounts(e, Advisory, 3);
    Example(e, BusinessCritical, RiskFactors(0.0, 100.0, 100.0, 100.0, 100.0, 100.0), {FlightStatus}, 6500.0);
  }

  lemma TwoOfFour(e: seq<Evidence>)
    requires |e| == 4 && e[0] == Certain(WeatherAtAirport) && e[1] == Certain(GroundRoute)
    requires e[2] == Gone(ConnectionFeasibility) && e[3] == Gone(Advisory)
    ensures Disposed(e, BusinessCritical, ManagerQueue)
  {
    NoneCounts(e, FlightStatus);
    OneCounts(e, WeatherAtAirport, 0);
    OneCounts(e, GroundRoute, 1);
    NoneCounts(e, ConnectionFeasibility);
    NoneCounts(e, Advisory);
    Example(e, BusinessCritical, RiskFactors(0.0, 0.0, 100.0, 100.0, 0.0, 100.0), {FlightStatus}, 3500.0);
  }

  function Certain(s: Source): Evidence {
    Evidence(s, Fresh, Number(100.0))
  }

  function Gone(s: Source): Evidence {
    Certain(s).(freshness := Stale)
  }

  function Quiet(s: Source): Evidence {
    Evidence(s, Fresh, Number(0.0))
  }

  lemma Example(e: seq<Evidence>, c: Criticality, x: RiskFactors, lost: set<Source>, score: real)
    requires Scores(e, c) == x && x.Valid() && forall f: Factor :: IsWhole(x.Get(f))
    requires forall s | s in CORE_SOURCES :: HasUsable(e, s) <==> s !in lost
    requires lost <= CORE_SOURCES
    requires score == 35.0 * x.flightDisruption + 20.0 * x.connectionFragility + 20.0 * x.airportWeather
                      + 10.0 * x.groundRouteDisruption + 10.0 * x.destinationAdvisory + 5.0 * x.travelerTripCriticality
    ensures Disposed(e, c, DispositionFor(SeverityForScore(score), lost))
  {
    assert UnavailableCore(e) == lost;
    ScoreAccuracy(x, UnknownFactors(e, FIELDS));
    WeightedSumOf(x);
  }

  /** The API's disposition and the graph's entry route read every assessment alike. */
  lemma RouteMatchesDisposition(severity: Severity, unavailable: set<Source>)
    ensures RouteBySeverity(severity, unavailable) == ApprovalGate
       <==> DispositionFor(severity, unavailable) == NeedsHumanReview
    ensures RouteBySeverity(severity, unavailable) == LoadMemoryContext
       <==> DispositionFor(severity, unavailable) == Investigate
    ensures RouteBySeverity(severity, unavailable) == Finalize
       <==> DispositionFor(severity, unavailable) in {ManagerQueue, Monitor}
  {
  }
}
