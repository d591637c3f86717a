/** Deterministic route-risk scoring (domain/risk_engine.py), in exact decimals.
  * Scores and weights are kept as whole hundredths, so two-decimal rounding is rounding to an integer. */
module Risk {
  import opened Rounding

  datatype Factor =
    | FlightDisruption | ConnectionFragility | AirportWeather
    | GroundRouteDisruption | DestinationAdvisory | TravelerTripCriticality

  const FACTORS: seq<Factor> :=
    [FlightDisruption, ConnectionFragility, AirportWeather,
     GroundRouteDisruption, DestinationAdvisory, TravelerTripCriticality]

  function Weight(f: Factor): nat {
    match f
    case FlightDisruption => 35
    case ConnectionFragility => 20
    case AirportWeather => 20
    case GroundRouteDisruption => 10
    case DestinationAdvisory => 10
    case TravelerTripCriticality => 5
  }

  datatype RiskFactors = RiskFactors(
    flightDisruption: real, connectionFragility: real, airportWeather: real,
    groundRouteDisruption: real, destinationAdvisory: real, travelerTripCriticality: real)
  {
    function Get(f: Factor): real {
      match f
      case FlightDisruption => flightDisruption
      case ConnectionFragility => connectionFragility
      case AirportWeather => airportWeather
      case GroundRouteDisruption => groundRouteDisruption
      case DestinationAdvisory => destinationAdvisory
      case TravelerTripCriticality => travelerTripCriticality
    }

    /** The range check made when the factors are built. */
    predicate Valid() {
      && 0.0 <= flightDisruption <= 100.0 && 0.0 <= connectionFragility <= 100.0
      && 0.0 <= airportWeather <= 100.0 && 0.0 <= groundRouteDisruption <= 100.0
      && 0.0 <= destinationAdvisory <= 100.0 && 0.0 <= travelerTripCriticality <= 100.0
    }
  }

  datatype Severity = Low | Watch | High | Critical

  datatype RiskAssessment = RiskAssessment(
    riskScore: int, severity: Severity, contributions: map<Factor, int>,
    unknownFactors: seq<Factor>, uncertaintyHigh: bool)

  function SeverityForScore(score: real): Severity {
    if score < 2500.0 then Low
    else if score < 5000.0 then Watch
    else if score < 7500.0 then High
    else Critical
  }

  function Rank(s: Severity): nat {
    match s
    case Low => 0
    case Watch => 1
    case High => 2
    case Critical => 3
  }

  function Contribution(x: RiskFactors, f: Factor): int {
    Round(x.Get(f) * Weight(f) as real)
  }

  function SumContributions(x: RiskFactors, fs: seq<Factor>): int {
    if fs == [] then 0 else Contribution(x, fs[0]) + SumContributions(x, fs[1..])
  }

  function CalculateRisk(x: RiskFactors, unknownFactors: seq<Factor>): RiskAssessment {
    var score := SumContributions(x, FACTORS);
    RiskAssessment(
      score, SeverityForScore(score as real),
      map f | f in FACTORS :: Contribution(x, f),
      unknownFactors, unknownFactors != [])
  }

  /** The weighted sum before any rounding, in hundredths. */
  ghost function WeightedSum(x: RiskFactors, fs: seq<Factor>): real {
    if fs == [] then 0.0 else x.Get(fs[0]) * Weight(fs[0]) as real + WeightedSum(x, fs[1..])
  }

  ghost predicate AtMost(x: RiskFactors, y: RiskFactors) {
    forall f: Factor :: x.Get(f) <= y.Get(f)
  }

  lemma ContributionMonotone(x: RiskFactors, y: RiskFactors, f: Factor)
    requires x.Get(f) <= y.Get(f)
    ensures Contribution(x, f) <= Contribution(y, f)
  {
    RoundMonotone(x.Get(f) * Weight(f) as real, y.Get(f) * Weight(f) as real);
  }

  lemma {:induction false} SumMonotone(x: RiskFactors, y: RiskFactors, fs: seq<Factor>)
    requires AtMost(x, y)
    ensures SumContributions(x, fs) <= SumContributions(y, fs)
  {
    if fs != [] {
      ContributionMonotone(x, y, fs[0]);
      SumMonotone(x, y, fs[1..]);
    }
  }

  /** Raising any factor never lowers the score or the severity. */
  lemma ScoreMonotone(x: RiskFactors, y: RiskFactors, u: seq<Factor>, v: seq<Factor>)
    requires AtMost(x, y)
    ensures CalculateRisk(x, u).riskScore <= CalculateRisk(y, v).riskScore
    ensures Rank(CalculateRisk(x, u).severity) <= Rank(CalculateRisk(y, v).severity)
  {
    SumMonotone(x, y, FACTORS);
  }

  const NOTHING := RiskFactors(0.0, 0.0, 0.0, 0.0, 0.0, 0.0)
  const EVERYTHING := RiskFactors(100.0, 100.0, 100.0, 100.0, 100.0, 100.0)

  /** The range the assessment record demands of its score, and the two inputs that reach its ends. */
  lemma ScoreInRange(x: RiskFactors, u: seq<Factor>)
    requires x.Valid()
    ensures 0 <= CalculateRisk(x, u).riskScore <= 10000
    ensures CalculateRisk(NOTHING, u).riskScore == 0 && CalculateRisk(EVERYTHING, u).riskScore == 10000
  {
    ScoreMonotone(NOTHING, x, u, u);
    ScoreMonotone(x, EVERYTHING, u, u);
    WholeSum(NOTHING, FACTORS);
    WholeSum(EVERYTHING, FACTORS);
    SumOfEqual(NOTHING, 0.0);
    SumOfEqual(EVERYTHING, 100.0);
  }

  /** The weights add up to one: equal factors give that common value. */
  lemma SumOfEqual(x: RiskFactors, v: real)
    requires forall f: Factor :: x.Get(f) == v
    ensures WeightedSum(x, FACTORS) == 100.0 * v
  {
    var a := FACTORS[1..]; var b := a[1..]; var c := b[1..]; var d := c[1..]; var e := d[1..];
    assert WeightedSum(x, e) == 5.0 * v;
    assert WeightedSum(x, d) == 15.0 * v;
    assert WeightedSum(x, c) == 25.0 * v;
    assert WeightedSum(x, b) == 45.0 * v;
    assert WeightedSum(x, a) == 65.0 * v;
  }

  lemma {:induction false} RoundingError(x: RiskFactors, fs: seq<Factor>)
    ensures Abs(SumContributions(x, fs) as real - WeightedSum(x, fs)) <= 0.5 * |fs| as real
  {
    if fs != [] {
      RoundNear(x.Get(fs[0]) * Weight(fs[0]) as real);
      RoundingError(x, fs[1..]);
    }
  }

  predicate IsWhole(v: real) {
    v.Floor as real == v
  }

  lemma {:induction false} WholeSum(x: RiskFactors, fs: seq<Factor>)
    requires forall f: Factor :: IsWhole(x.Get(f))
    ensures SumContributions(x, fs) as real == WeightedSum(x, fs)
  {
    if fs != [] {
      var v := x.Get(fs[0]);
      assert IsWhole(v);
      assert v * Weight(fs[0]) as real == (v.Floor * Weight(fs[0])) as real;
      RoundWhole(v.Floor * Weight(fs[0]));
      WholeSum(x, fs[1..]);
    }
  }

  /** Rounding each contribution moves the score by at most 0.03, and not at all for whole factors. */
  lemma ScoreAccuracy(x: RiskFactors, u: seq<Factor>)
    ensures Abs(CalculateRisk(x, u).riskScore as real - WeightedSum(x, FACTORS)) <= 3.0
    ensures (forall f: Factor :: IsWhole(x.Get(f))) ==>
              CalculateRisk(x, u).riskScore as real == WeightedSum(x, FACTORS)
  {
    RoundingError(x, FACTORS);
    if forall f: Factor :: IsWhole(x.Get(f)) {
      WholeSum(x, FACTORS);
    }
  }

  lemma WeightedSumOf(x: RiskFactors)
    ensures WeightedSum(x, FACTORS)
         == 35.0 * x.flightDisruption + 20.0 * x.connectionFragility + 20.0 * x.airportWeather
            + 10.0 * x.groundRouteDisruption + 10.0 * x.destinationAdvisory + 5.0 * x.travelerTripCriticality
  {
    var a := FACTORS[1..]; var b := a[1..]; var c := b[1..]; var d := c[1..]; var e := d[1..];
    assert WeightedSum(x, e) == 5.0 * x.travelerTripCriticality;
    assert WeightedSum(x, d) == 10.0 * x.destinationAdvisory + WeightedSum(x, e);
    assert WeightedSum(x, c) == 10.0 * x.groundRouteDisruption + WeightedSum(x, d);
    assert WeightedSum(x, b) == 20.0 * x.airportWeather + WeightedSum(x, c);
    assert WeightedSum(x, a) == 20.0 * x.connectionFragility + WeightedSum(x, b);
  }

  /** The contributions shown are the factors by their published weights, each rounded; the score, their sum, is within
    * 0.03 of the weighted sum. Uncertainty is high exactly when a factor is unknown. */
  lemma ScoreExactly(x: RiskFactors, u: seq<Factor>, f: Factor, weight: real)
    requires weight == match f
                       case FlightDisruption => 35.0
                       case ConnectionFragility => 20.0
                       case AirportWeather => 20.0
                       case GroundRouteDisruption => 10.0
                       case DestinationAdvisory => 10.0
                       case TravelerTripCriticality => 5.0
    ensures var a := CalculateRisk(x, u);
            f in a.contributions && a.contributions[f] == Round(x.Get(f) * weight)
    ensures Abs(CalculateRisk(x, u).riskScore as real
                - (35.0 * x.flightDisruption + 20.0 * x.connectionFragility + 20.0 * x.airportWeather
                   + 10.0 * x.groundRouteDisruption + 10.0 * x.destinationAdvisory
                   + 5.0 * x.travelerTripCriticality)) <= 3.0
    ensures CalculateRisk(x, u).unknownFactors == u && (CalculateRisk(x, u).uncertaintyHigh <==> u != [])
  {
    Weighed(x, f, weight);
    EachShown(x, u, f);
    ScoreShown(x, u);
    ScoreAccuracy(x, u);
    WeightedSumOf(x);
  }

  lemma Weighed(x: RiskFactors, f: Factor, weight: real)
    requires Weight(f) as real == weight
    ensures Contribution(x, f) == Round(x.Get(f) * weight)
  {
    RoundSame(x.Get(f) * Weight(f) as real, x.Get(f) * weight);
  }

  lemma RoundSame(v: real, w: real)
    requires v == w
    ensures Round(v) == Round(w)
  {
  }

  lemma EachShown(x: RiskFactors, u: seq<Factor>, f: Factor)
    ensures var parts := CalculateRisk(x, u).contributions; f in parts && parts[f] == Contribution(x, f)
  {
    assert f in FACTORS;
  }

  lemma ScoreShown(x: RiskFactors, u: seq<Factor>)
    ensures var a := CalculateRisk(x, u);
            a.contributions.Keys == {FlightDisruption, ConnectionFragility, AirportWeather, GroundRouteDisruption,
                                     DestinationAdvisory, TravelerTripCriticality}
    ensures var a := CalculateRisk(x, u);
            a.riskScore == a.contributions[FlightDisruption] + a.contributions[ConnectionFragility]
                           + a.contributions[AirportWeather] + a.contributions[GroundRouteDisruption]
                           + a.contributions[DestinationAdvisory] + a.contributions[TravelerTripCriticality]
  {
    ContributionsAdd(x);
    EachShown(x, u, FlightDisruption);
    EachShown(x, u, ConnectionFragility);
    EachShown(x, u, AirportWeather);
    EachShown(x, u, GroundRouteDisruption);
    EachShown(x, u, DestinationAdvisory);
    EachShown(x, u, TravelerTripCriticality);
  }

  lemma ContributionsAdd(x: RiskFactors)
    ensures SumContributions(x, FACTORS)
         == Contribution(x, FlightDisruption) + Contribution(x, ConnectionFragility) + Contribution(x, AirportWeather)
            + Contribution(x, GroundRouteDisruption) + Contribution(x, DestinationAdvisory)
            + Contribution(x, TravelerTripCriticality)
  {
    var a := FACTORS[1..]; var b := a[1..]; var c := b[1..]; var d := c[1..]; var e := d[1..];
    assert e[1..] == [];
    assert SumContributions(x, e) == Contribution(x, TravelerTripCriticality);
    assert SumContributions(x, d) == Contribution(x, DestinationAdvisory) + SumContributions(x, e);
    assert SumContributions(x, c) == Contribution(x, GroundRouteDisruption) + SumContributions(x, d);
    assert SumContributions(x, b) == Contribution(x, AirportWeather) + SumContributions(x, c);
    assert SumContributions(x, a) == Contribution(x, ConnectionFragility) + SumContributions(x, b);
  }

  /** The four bands of an assessment's score, in hundredths: 25, 50 and 75 each begin the next. */
  lemma SeverityBands(x: RiskFactors, u: seq<Factor>)
    ensures var a := CalculateRisk(x, u);
            && (a.severity == Low <==> a.riskScore < 2500)
            && (a.severity == Watch <==> 2500 <= a.riskScore < 5000)
            && (a.severity == High <==> 5000 <= a.riskScore < 7500)
            && (a.severity == Critical <==> 7500 <= a.riskScore)
  {
  }

  predicate NearLimit(v: real) {
    Abs(v - 2500.0) <= 3.0 || Abs(v - 5000.0) <= 3.0 || Abs(v - 7500.0) <= 3.0
  }

  /** So a severity can differ from the unrounded classification only within 0.03 of 25, 50 or 75,
    * and there it can: a lone contribution of 24.996 is rounded up to 25. */
  lemma SeverityAccuracy(x: RiskFactors, u: seq<Factor>)
    ensures var severity, sum := CalculateRisk(x, u).severity, WeightedSum(x, FACTORS);
            !NearLimit(sum) ==>
              && (severity == Low <==> sum < 2500.0) && (severity == Watch <==> 2500.0 <= sum < 5000.0)
              && (severity == High <==> 5000.0 <= sum < 7500.0) && (severity == Critical <==> 7500.0 <= sum)
    ensures CalculateRisk(LIFTED, u).severity == Watch && WeightedSum(LIFTED, FACTORS) < 2500.0
  {
    ScoreAccuracy(x, u);
    SeverityBands(x, u);
    RoundWhole(0);
    NothingElse(FACTORS[1..]);
    assert Contribution(LIFTED, FlightDisruption) == Round(2499.6) == 2500;
  }

  lemma {:induction false} NothingElse(fs: seq<Factor>)
    requires FlightDisruption !in fs
    ensures WeightedSum(LIFTED, fs) == 0.0 && SumContributions(LIFTED, fs) == 0
  {
    if fs != [] {
      assert fs[0] in fs && LIFTED.Get(fs[0]) == 0.0;
      RoundWhole(0);
      NothingElse(fs[1..]);
    }
  }

  const LIFTED := RiskFactors(2499.6 / 35.0, 0.0, 0.0, 0.0, 0.0, 0.0)
}
