/** Weights, hard gates and the qualification decision (apps/backend/app/domain/scoring.py). */
module Qualification {
  import opened HardGates
  import opened ScoreBreakdowns
  import opened Wrappers

  // -------- The weight table --------

  function WeightTotal(weights: map<Dimension, real>, ds: seq<Dimension>): real
    requires forall d | d in ds :: d in weights
  {
    if ds == [] then 0.0 else weights[ds[0]] + WeightTotal(weights, ds[1..])
  }

  // The checks of the DimensionWeights constructor.
  predicate ValidWeights(weights: map<Dimension, real>) {
    && (forall d: Dimension :: d in weights)
    && (forall d: Dimension :: weights[d] > 0.0)
    && Distance(WeightTotal(weights, ALL_DIMENSIONS), 100.0) <= TOLERANCE
  }

  // Every weight of a valid table is positive, and none reaches the whole.
  lemma WeightsAreParts(weights: map<Dimension, real>, d: Dimension)
    requires ValidWeights(weights)
    ensures 0.0 < weights[d] < 100.0 + TOLERANCE
  {
    DimensionIsListed(d);
    var all := ALL_DIMENSIONS;
    var other := if d == ShippingFit then GrowthSignal else ShippingFit;
    DimensionIsListed(other);
    var i :| 0 <= i < |all| && all[i] == d;
    var j :| 0 <= j < |all| && all[j] == other;
    TotalOfTwo(weights, all, if i < j then i else j, if i < j then j else i);
  }

  lemma {:induction false} TotalOfTwo(weights: map<Dimension, real>, ds: seq<Dimension>, i: nat, j: nat)
    requires (forall d: Dimension :: d in weights && weights[d] > 0.0) && i < j < |ds|
    ensures WeightTotal(weights, ds) >= weights[ds[i]] + weights[ds[j]]
  {
    TotalOfOne(weights, ds[1..], j - 1);
    if i > 0 {
      TotalOfTwo(weights, ds[1..], i - 1, j - 1);
    }
  }

  lemma {:induction false} TotalOfOne(weights: map<Dimension, real>, ds: seq<Dimension>, i: nat)
    requires (forall d: Dimension :: d in weights && weights[d] > 0.0) && i < |ds|
    ensures WeightTotal(weights, ds) >= weights[ds[i]]
  {
    if i > 0 {
      TotalOfOne(weights, ds[1..], i - 1);
    } else {
      TotalIsNatural(weights, ds[1..]);
    }
  }

  lemma {:induction false} TotalIsNatural(weights: map<Dimension, real>, ds: seq<Dimension>)
    requires forall d: Dimension :: d in weights && weights[d] > 0.0
    ensures WeightTotal(weights, ds) >= 0.0
  {
    if ds != [] {
      TotalIsNatural(weights, ds[1..]);
    }
  }

  const DEFAULT_WEIGHTS: map<Dimension, real> := map[
    ImportActivity := 20.0, ChinaDependency := 15.0, ShippingFit := 15.0, CargoValuePotential := 10.0,
    CompanyScale := 10.0, GrowthSignal := 10.0, Contactability := 10.0, LogisticsComplexity := 10.0
  ]

  lemma DefaultWeightsCover()
    ensures forall d: Dimension :: d in DEFAULT_WEIGHTS && DEFAULT_WEIGHTS[d] > 0.0
  {
    forall d: Dimension
      ensures d in DEFAULT_WEIGHTS && DEFAULT_WEIGHTS[d] > 0.0
    {
      match d
      case ImportActivity | ChinaDependency | ShippingFit | CargoValuePotential =>
      case CompanyScale | GrowthSignal | Contactability | LogisticsComplexity =>
    }
  }

  lemma DefaultWeightsAreValid()
    ensures ValidWeights(DEFAULT_WEIGHTS)
  {
    DefaultWeightsCover();
    AllWeights();
    assert ALL_DIMENSIONS[0..] == ALL_DIMENSIONS;
  }

  lemma AllWeights()
    ensures forall d: Dimension :: d in DEFAULT_WEIGHTS
    ensures WeightTotal(DEFAULT_WEIGHTS, ALL_DIMENSIONS[0..]) == 100.0
  {
    var w, all := DEFAULT_WEIGHTS, ALL_DIMENSIONS;
    LastSixWeights();
    assert w[all[0]] == 20.0 && w[all[1]] == 15.0;
    WeightTotalFrom(w, all, 0);
    WeightTotalFrom(w, all, 1);
  }

  lemma LastSixWeights()
    ensures forall d: Dimension :: d in DEFAULT_WEIGHTS
    ensures WeightTotal(DEFAULT_WEIGHTS, ALL_DIMENSIONS[2..]) == 65.0
  {
    var w, all := DEFAULT_WEIGHTS, ALL_DIMENSIONS;
    LastFourWeights();
    assert w[all[2]] == 15.0 && w[all[3]] == 10.0;
    WeightTotalFrom(w, all, 2);
    WeightTotalFrom(w, all, 3);
  }

  lemma LastFourWeights()
    ensures forall d: Dimension :: d in DEFAULT_WEIGHTS
    ensures WeightTotal(DEFAULT_WEIGHTS, ALL_DIMENSIONS[4..]) == 40.0
  {
    var w, all := DEFAULT_WEIGHTS, ALL_DIMENSIONS;
    DefaultWeightsCover();
    WeightTotalFrom(w, all, 4);
    WeightTotalFrom(w, all, 5);
    WeightTotalFrom(w, all, 6);
    WeightTotalFrom(w, all, 7);
  }

  lemma WeightTotalFrom(weights: map<Dimension, real>, ds: seq<Dimension>, i: nat)
    requires i < |ds| && forall d: Dimension :: d in weights
    ensures WeightTotal(weights, ds[i..]) == weights[ds[i]] + WeightTotal(weights, ds[i + 1..])
  {
    assert ds[i..][1..] == ds[i + 1..];
  }

  // The assessments of the scorer: one for each dimension in turn, with the table's weight.
  predicate FullTable(weights: map<Dimension, real>, ds: seq<DimensionAssessment>) {
    && |ds| == |ALL_DIMENSIONS|
    && forall i | 0 <= i < |ds| ::
         && ds[i].dimension == ALL_DIMENSIONS[i]
         && ds[i].dimension in weights
         && ds[i].weight == weights[ds[i].dimension]
  }

  lemma {:induction false} TableTotal(weights: map<Dimension, real>, ds: seq<DimensionAssessment>, all: seq<Dimension>)
    requires |ds| == |all|
    requires forall d | d in all :: d in weights
    requires forall i | 0 <= i < |ds| :: ds[i].dimension == all[i] && ds[i].weight == weights[all[i]]
    ensures WeightSum(ds) == WeightTotal(weights, all)
  {
    if ds != [] {
      TableTotal(weights, ds[1..], all[1..]);
    }
  }

  lemma FullTableIsDistinct(weights: map<Dimension, real>, ds: seq<DimensionAssessment>)
    requires FullTable(weights, ds)
    ensures DistinctDimensions(ds)
    ensures FromDimensions(ds).Success?
  {
    assert forall i, j | 0 <= i < j < |ALL_DIMENSIONS| :: ALL_DIMENSIONS[i] != ALL_DIMENSIONS[j];
    FromDimensionsSucceedsIff(ds);
  }

  // -------- The decision --------

  datatype Decision = Qualified | Review | ResearchMore | Disqualified

  datatype Action = PrepareOutreach | HumanReview | CollectMoreData | DoNotContact

  datatype Policy = Policy(
    qualifiedScore: real,
    qualifiedConfidence: real,
    qualifiedCompleteness: real,
    reviewScore: real,
    researchCompleteness: real
  )

  const DEFAULT_POLICY := Policy(70.0, 0.65, 0.50, 50.0, 0.40)

  // The threshold checks of the QualificationPolicy constructor.
  predicate ValidPolicy(p: Policy) {
    && 0.0 <= p.researchCompleteness <= p.qualifiedCompleteness <= 1.0
    && 0.0 < p.reviewScore < p.qualifiedScore <= 100.0
  }

  // A policy is refused for thresholds that are out of range or out of order, and for nothing else.
  lemma PolicyRefusedIff(p: Policy)
    ensures !ValidPolicy(p) <==>
            || p.researchCompleteness < 0.0 || p.qualifiedCompleteness < p.researchCompleteness
            || p.qualifiedCompleteness > 1.0
            || p.reviewScore <= 0.0 || p.qualifiedScore <= p.reviewScore || p.qualifiedScore > 100.0
    ensures ValidPolicy(DEFAULT_POLICY)
  {
  }

  function Decide(p: Policy, score: real, confidence: real, completeness: real, hits: seq<GateHit>):
    Result<(Decision, Action), DomainError>
  {
    if exists i | 0 <= i < |hits| :: hits[i].evidence.sources == [] then Failure(NoSources)
    else if hits != [] then Success((Disqualified, DoNotContact))
    else if completeness < p.researchCompleteness then Success((ResearchMore, CollectMoreData))
    else if score >= p.qualifiedScore && confidence >= p.qualifiedConfidence && completeness >= p.qualifiedCompleteness
    then Success((Qualified, PrepareOutreach))
    else Success((Review, HumanReview))
  }

  function ActionFor(d: Decision): Action {
    match d
    case Qualified => PrepareOutreach
    case Review => HumanReview
    case ResearchMore => CollectMoreData
    case Disqualified => DoNotContact
  }

  // Only a gate disqualifies: thin or weak data calls for more research or for a human, and what is to be done
  // follows from the decision. It fails only for a hit without a source.
  lemma DecisionsAre(p: Policy, score: real, confidence: real, completeness: real, hits: seq<GateHit>)
    ensures var r := Decide(p, score, confidence, completeness, hits);
            && (r.Failure? <==> exists h | h in hits :: h.evidence.sources == [])
            && (r.Failure? ==> r.error == NoSources)
            && (r.Success? ==>
                  && r.value.1 == ActionFor(r.value.0)
                  && (r.value.0 == Disqualified <==> hits != [])
                  && (r.value.0 == ResearchMore <==> hits == [] && completeness < p.researchCompleteness)
                  && (r.value.0 == Qualified <==>
                      && hits == [] && completeness >= p.researchCompleteness
                      && score >= p.qualifiedScore && confidence >= p.qualifiedConfidence
                      && completeness >= p.qualifiedCompleteness)
                  && (r.value.0 == Review <==>
                      && hits == [] && completeness >= p.researchCompleteness
                      && (score < p.qualifiedScore || confidence < p.qualifiedConfidence
                          || completeness < p.qualifiedCompleteness)))
  {
    if h :| h in hits && h.evidence.sources == [] {
      var i :| 0 <= i < |hits| && hits[i] == h;
    }
  }

  // The assessment of a full table: score, coverage and decision (services/scoring/deterministic.py, assess).
  function Assess(p: Policy, ds: seq<DimensionAssessment>, confidence: real, hits: seq<GateHit>):
    Result<(Decision, Action), DomainError>
  {
    var made := FromDimensions(ds);
    if made.Failure? then Failure(made.error)
    else
      var score := MakeScore(Capped(made.value.totalScore));
      var completeness := MakeCompleteness(Completeness(made.value));
      if score.Failure? then Failure(score.error)
      else if completeness.Failure? then Failure(completeness.error)
      else Decide(p, score.value, confidence, completeness.value, hits)
  }

  function MissingSum(ds: seq<DimensionAssessment>): real {
    WeightSum(ds) - AssessedSum(ds)
  }

  lemma TableBounds(weights: map<Dimension, real>, ds: seq<DimensionAssessment>)
    requires ValidWeights(weights) && FullTable(weights, ds) && AllValid(ds)
    ensures EarnedSum(ds) <= AssessedSum(ds) + 8.0 * TOLERANCE
    ensures 100.0 - TOLERANCE <= WeightSum(ds) <= 100.0 + TOLERANCE
    ensures EarnedSum(ds) + MissingSum(ds) <= 100.0 + 9.0 * TOLERANCE
  {
    TotalWithinAssessed(ds);
    TableTotal(weights, ds, ALL_DIMENSIONS);
  }

  lemma FractionAtLeast(part: real, whole: real, threshold: real)
    requires whole > 0.0
    ensures part / whole >= threshold <==> part >= threshold * whole
  {
    var gap := part / whole - threshold;
    assert gap * whole == part - threshold * whole by {
      assert part / whole * whole == part;
    }
    if gap >= 0.0 {
      assert gap * whole >= 0.0;
    } else {
      assert gap * whole < 0.0;
    }
  }

  lemma CoverageFollows(part: real, whole: real, threshold: real, limit: real, score: real, slack: real)
    requires threshold >= 0.0 && whole <= limit
    requires threshold * limit + slack <= score && score - slack <= part
    ensures threshold * whole <= part
  {
    assert threshold * (limit - whole) >= 0.0;
  }

  predicate IsQualified(r: Result<(Decision, Action), DomainError>) {
    r.Success? && r.value.0 == Qualified
  }

  predicate NeedsResearch(r: Result<(Decision, Action), DomainError>) {
    r.Success? && r.value.0 == ResearchMore
  }

  // A full table is assessed without an error exactly when its total is not negative.
  lemma AssessSucceedsIff(p: Policy, weights: map<Dimension, real>, ds: seq<DimensionAssessment>, confidence: real)
    requires FullTable(weights, ds) && AllValid(ds)
    ensures Assess(p, ds, confidence, []).Success? <==> EarnedSum(ds) >= 0.0
  {
    FullTableIsDistinct(weights, ds);
    ScoreIsLegalIff(ds);
  }

  // Without a gate hit a full table is never disqualified, however little is known and however low it scores.
  lemma NeverDisqualified(p: Policy, weights: map<Dimension, real>, ds: seq<DimensionAssessment>, confidence: real)
    requires FullTable(weights, ds) && AllValid(ds)
    ensures match Assess(p, ds, confidence, [])
            case Failure(e) => e == ScoreOutOfRange && EarnedSum(ds) < 0.0
            case Success(r) => r.0 != Disqualified && r.1 != DoNotContact && r.1 == ActionFor(r.0)
  {
    FullTableIsDistinct(weights, ds);
    ScoreIsLegalIff(ds);
    var made := FromDimensions(ds).value;
    DecisionsAre(p, Capped(made.totalScore), confidence, Completeness(made), []);
  }

  // The policies whose completeness threshold can keep a qualifying score from qualifying.
  predicate CanBlock(p: Policy) {
    p.qualifiedCompleteness > 0.0
    && p.qualifiedScore < p.qualifiedCompleteness * (100.0 + TOLERANCE) + 7.0 * TOLERANCE
  }

  lemma {:induction false} AllAssessed(ds: seq<DimensionAssessment>)
    requires forall d | d in ds :: d.status == Assessed
    ensures AssessedSum(ds) == WeightSum(ds)
  {
    if ds != [] {
      assert ds[0] in ds && forall d | d in ds[1..] :: d in ds;
      AllAssessed(ds[1..]);
    }
  }

  // A dimension that is not assessed earns nothing, so its tolerance is not needed.
  lemma EarnedWithoutOne(ds: seq<DimensionAssessment>, i: nat)
    requires i < |ds| && AllValid(ds) && ds[i].status != Assessed
    ensures EarnedSum(ds) <= AssessedSum(ds) + (|ds| - 1) as real * TOLERANCE
  {
    var front, back := ds[..i], ds[i + 1..];
    assert ds == front + ([ds[i]] + back) && [ds[i]][1..] == [];
    SumsOfSplit(front, [ds[i]] + back);
    SumsOfSplit([ds[i]], back);
    assert ds[i] in ds && (forall d | d in front :: d in ds) && forall d | d in back :: d in ds;
    EarnedWithinWeight(ds[i]);
    TotalWithinAssessed(front);
    TotalWithinAssessed(back);
  }

  // Under the other policies, what reaches the score threshold covers enough weight.
  lemma ScoreCovers(p: Policy, weights: map<Dimension, real>, ds: seq<DimensionAssessment>)
    requires ValidPolicy(p) && ValidWeights(weights) && FullTable(weights, ds) && AllValid(ds)
    requires !CanBlock(p) && EarnedSum(ds) >= p.qualifiedScore
    ensures p.qualifiedCompleteness * WeightSum(ds) <= AssessedSum(ds)
  {
    TableBounds(weights, ds);
    TotalWithinAssessed(ds);
    if i :| 0 <= i < |ds| && ds[i].status != Assessed {
      EarnedWithoutOne(ds, i);
      EnoughIsCovered(p, AssessedSum(ds), WeightSum(ds), EarnedSum(ds));
    } else {
      assert forall d | d in ds :: d.status == Assessed;
      AllAssessed(ds);
      PartOfWhole(p.qualifiedCompleteness, WeightSum(ds));
    }
  }

  lemma EnoughIsCovered(p: Policy, part: real, whole: real, score: real)
    requires ValidPolicy(p) && !CanBlock(p) && score >= p.qualifiedScore
    requires 0.0 <= part && 0.0 <= whole <= 100.0 + TOLERANCE && score <= part + 7.0 * TOLERANCE
    ensures p.qualifiedCompleteness * whole <= part
  {
    if p.qualifiedCompleteness > 0.0 {
      CoverageFollows(part, whole, p.qualifiedCompleteness, 100.0 + TOLERANCE, p.qualifiedScore, 7.0 * TOLERANCE);
    }
  }

  lemma PartOfWhole(fraction: real, whole: real)
    requires fraction <= 1.0 && whole >= 0.0
    ensures fraction * whole <= whole
  {
    assert (1.0 - fraction) * whole >= 0.0;
  }

  // There a table is qualified exactly by score and confidence.
  lemma CompletenessNeverBlocks(p: Policy, weights: map<Dimension, real>, ds: seq<DimensionAssessment>,
                                confidence: real)
    requires ValidPolicy(p) && ValidWeights(weights) && FullTable(weights, ds) && AllValid(ds)
    requires !CanBlock(p)
    ensures IsQualified(Assess(p, ds, confidence, [])) <==>
            Capped(EarnedSum(ds)) >= p.qualifiedScore && confidence >= p.qualifiedConfidence
    ensures Capped(EarnedSum(ds)) >= p.qualifiedScore ==> !NeedsResearch(Assess(p, ds, confidence, []))
  {
    AssessSucceedsIff(p, weights, ds, confidence);
    TableBounds(weights, ds);
    FractionAtLeast(AssessedSum(ds), WeightSum(ds), p.qualifiedCompleteness);
    if Capped(EarnedSum(ds)) >= p.qualifiedScore {
      ScoreCovers(p, weights, ds);
    }
  }

  // The default policy: qualified exactly when the score is at least 70 and the confidence at least 0.65.
  lemma DefaultDecision(weights: map<Dimension, real>, ds: seq<DimensionAssessment>, confidence: real)
    requires ValidWeights(weights) && FullTable(weights, ds) && AllValid(ds)
    ensures IsQualified(Assess(DEFAULT_POLICY, ds, confidence, [])) <==> EarnedSum(ds) >= 70.0 && confidence >= 0.65
    ensures NeedsResearch(Assess(DEFAULT_POLICY, ds, confidence, [])) <==>
            EarnedSum(ds) >= 0.0 && AssessedSum(ds) < 0.4 * WeightSum(ds)
    ensures Assess(DEFAULT_POLICY, ds, confidence, []) == Success((Review, HumanReview)) <==>
            && EarnedSum(ds) >= 0.0 && AssessedSum(ds) >= 0.4 * WeightSum(ds)
            && !(EarnedSum(ds) >= 70.0 && confidence >= 0.65)
  {
    NeverDisqualified(DEFAULT_POLICY, weights, ds, confidence);
    CompletenessNeverBlocks(DEFAULT_POLICY, weights, ds, confidence);
    AssessSucceedsIff(DEFAULT_POLICY, weights, ds, confidence);
    TableBounds(weights, ds);
    FractionAtLeast(AssessedSum(ds), WeightSum(ds), 0.4);
  }

  // A company that lacks more than 30 of the 100 is not qualified, whatever the rest has earned.
  lemma QualifiedLacksLittle(weights: map<Dimension, real>, ds: seq<DimensionAssessment>, confidence: real,
                             hits: seq<GateHit>)
    requires ValidWeights(weights) && FullTable(weights, ds) && AllValid(ds)
    requires IsQualified(Assess(DEFAULT_POLICY, ds, confidence, hits))
    ensures hits == [] && confidence >= 0.65 && EarnedSum(ds) >= 70.0
    ensures MissingSum(ds) <= 30.0 + 9.0 * TOLERANCE
  {
    TableBounds(weights, ds);
  }

  // -------- A completeness threshold that does block --------

  // One dimension has what the others, of equal weight, leave of the largest valid table.
  function LopsidedWeights(known: real): map<Dimension, real> {
    map d: Dimension | d in ALL_DIMENSIONS :: if d == ImportActivity then 100.0 + TOLERANCE - known else known / 7.0
  }

  // Nothing is known about that dimension, and the others earn as much as the tolerance lets them.
  function LopsidedRow(known: real, d: Dimension): DimensionAssessment {
    if d == ImportActivity then
      DimensionAssessment(d, 100.0 + TOLERANCE - known, Unknown, 0.0, None, None, 0.0, [], [])
    else
      DimensionAssessment(d, known / 7.0, Assessed, known / 7.0 + TOLERANCE, Some(1.0), None, 0.5, [],
                          [Evidence("seen", [SourceReference("site", "page", Instant(0))])])
  }

  function LopsidedTable(known: real): seq<DimensionAssessment> {
    seq(8, i requires 0 <= i < 8 => LopsidedRow(known, ALL_DIMENSIONS[i]))
  }

  lemma DimensionIsListed(d: Dimension)
    ensures d in ALL_DIMENSIONS
  {
    var i := match d
      case ImportActivity => 0 case ChinaDependency => 1 case ShippingFit => 2 case CargoValuePotential => 3
      case CompanyScale => 4 case GrowthSignal => 5 case Contactability => 6 case LogisticsComplexity => 7;
    assert ALL_DIMENSIONS[i] == d;
  }

  function Times(n: nat, x: real): real {
    if n == 0 then 0.0 else x + Times(n - 1, x)
  }

  lemma SevenTimes(x: real)
    ensures Times(7, x) == 7.0 * x
  {
    assert Times(7, x) == x + Times(6, x) && Times(6, x) == x + Times(5, x) && Times(5, x) == x + Times(4, x);
    assert Times(4, x) == x + Times(3, x) && Times(3, x) == x + Times(2, x) && Times(2, x) == x + Times(1, x);
    assert Times(1, x) == x + Times(0, x) && Times(0, x) == 0.0;
  }

  lemma {:induction false} EqualWeights(weights: map<Dimension, real>, ds: seq<Dimension>, each: real)
    requires forall d | d in ds :: d in weights && weights[d] == each
    ensures WeightTotal(weights, ds) == Times(|ds|, each)
  {
    if ds != [] {
      assert forall d | d in ds[1..] :: d in ds;
      EqualWeights(weights, ds[1..], each);
    }
  }

  lemma LopsidedCover(known: real)
    requires 0.0 < known <= 100.0
    ensures forall d: Dimension :: d in LopsidedWeights(known) && LopsidedWeights(known)[d] > 0.0
  {
    forall d: Dimension ensures d in LopsidedWeights(known) && LopsidedWeights(known)[d] > 0.0 {
      DimensionIsListed(d);
    }
  }

  lemma LopsidedTotal(known: real)
    ensures WeightTotal(LopsidedWeights(known), ALL_DIMENSIONS) == 100.0 + TOLERANCE
  {
    assert forall d | d in ALL_DIMENSIONS[1..] :: d != ImportActivity;
    EqualWeights(LopsidedWeights(known), ALL_DIMENSIONS[1..], known / 7.0);
    SevenTimes(known / 7.0);
  }

  lemma LopsidedIsValid(known: real)
    requires 0.0 < known <= 100.0
    ensures ValidWeights(LopsidedWeights(known))
  {
    LopsidedCover(known);
    LopsidedTotal(known);
  }

  lemma {:induction false} EqualEarned(ds: seq<DimensionAssessment>, earned: real)
    requires forall d | d in ds :: d.earned == earned
    ensures EarnedSum(ds) == Times(|ds|, earned)
  {
    if ds != [] {
      assert ds[0] in ds && forall d | d in ds[1..] :: d in ds;
      EqualEarned(ds[1..], earned);
    }
  }

  lemma {:induction false} EqualAssessed(ds: seq<DimensionAssessment>, weight: real)
    requires forall d | d in ds :: d.status == Assessed && d.weight == weight
    ensures AssessedSum(ds) == Times(|ds|, weight)
  {
    if ds != [] {
      assert ds[0] in ds && forall d | d in ds[1..] :: d in ds;
      EqualAssessed(ds[1..], weight);
    }
  }

  lemma LopsidedTableIsFull(known: real)
    ensures FullTable(LopsidedWeights(known), LopsidedTable(known))
  {
  }

  lemma LopsidedRowsAreValid(known: real)
    requires 0.0 < known <= 100.0
    ensures AllValid(LopsidedTable(known))
  {
    forall d | d in ALL_DIMENSIONS ensures Valid(LopsidedRow(known, d)) {
      assert Expected(known / 7.0, 1.0) == known / 7.0;
    }
  }

  lemma LopsidedWeightSum(known: real)
    ensures WeightSum(LopsidedTable(known)) == 100.0 + TOLERANCE
  {
    LopsidedTableIsFull(known);
    LopsidedTotal(known);
    TableTotal(LopsidedWeights(known), LopsidedTable(known), ALL_DIMENSIONS);
  }

  lemma LopsidedSums(known: real)
    ensures EarnedSum(LopsidedTable(known)) == known + 7.0 * TOLERANCE
    ensures AssessedSum(LopsidedTable(known)) == known
    ensures WeightSum(LopsidedTable(known)) == 100.0 + TOLERANCE
  {
    LopsidedWeightSum(known);
    var ds := LopsidedTable(known);
    assert forall i | 1 <= i < 8 :: ALL_DIMENSIONS[i] != ImportActivity;
    EqualEarned(ds[1..], known / 7.0 + TOLERANCE);
    EqualAssessed(ds[1..], known / 7.0);
    SevenTimes(known / 7.0);
    SevenTimes(known / 7.0 + TOLERANCE);
  }

  // A full table whose score reaches the threshold and which is not qualified.
  ghost predicate IsBlocked(p: Policy, weights: map<Dimension, real>, ds: seq<DimensionAssessment>, confidence: real) {
    && ValidWeights(weights) && FullTable(weights, ds) && AllValid(ds)
    && Capped(EarnedSum(ds)) >= p.qualifiedScore
    && Assess(p, ds, confidence, []).Success? && !IsQualified(Assess(p, ds, confidence, []))
  }

  // The assessed weight of a table that is blocked.
  function KnownWeight(p: Policy): real {
    var least := p.qualifiedScore - 7.0 * TOLERANCE;
    if least > 0.0 then least else 50.0 * p.qualifiedCompleteness
  }

  lemma KnownFallsShort(p: Policy)
    requires ValidPolicy(p) && CanBlock(p)
    ensures 0.0 < KnownWeight(p) <= 100.0
    ensures p.qualifiedScore - 7.0 * TOLERANCE <= KnownWeight(p)
    ensures KnownWeight(p) < p.qualifiedCompleteness * (100.0 + TOLERANCE)
  {
  }

  // For such a policy there is a table that is blocked, at any confidence.
  lemma CompletenessCanBlock(p: Policy, confidence: real)
    requires ValidPolicy(p) && CanBlock(p)
    ensures exists weights, ds :: IsBlocked(p, weights, ds, confidence)
  {
    KnownFallsShort(p);
    var weights, ds := Lopsided(KnownWeight(p));
    ShortTableIsBlocked(p, weights, ds, confidence);
  }

  lemma Lopsided(known: real) returns (weights: map<Dimension, real>, ds: seq<DimensionAssessment>)
    requires 0.0 < known <= 100.0
    ensures ValidWeights(weights) && FullTable(weights, ds) && AllValid(ds)
    ensures EarnedSum(ds) == known + 7.0 * TOLERANCE && AssessedSum(ds) == known && WeightSum(ds) == 100.0 + TOLERANCE
  {
    LopsidedIsValid(known);
    LopsidedTableIsFull(known);
    LopsidedRowsAreValid(known);
    LopsidedSums(known);
    weights, ds := LopsidedWeights(known), LopsidedTable(known);
  }

  lemma ShortTableIsBlocked(p: Policy, weights: map<Dimension, real>, ds: seq<DimensionAssessment>, confidence: real)
    requires ValidPolicy(p) && ValidWeights(weights) && FullTable(weights, ds) && AllValid(ds)
    requires EarnedSum(ds) >= p.qualifiedScore
    requires WeightSum(ds) > 0.0 && AssessedSum(ds) < p.qualifiedCompleteness * WeightSum(ds)
    ensures IsBlocked(p, weights, ds, confidence)
  {
    AssessSucceedsIff(p, weights, ds, confidence);
    BlockedByCoverage(p, ds, confidence);
  }

  // Exactly these policies block: for confident assessments a table that has the score and is not qualified exists
  // if and only if the completeness threshold is that high.
  lemma CoverageBlocksIff(p: Policy, confidence: real)
    requires ValidPolicy(p) && confidence >= p.qualifiedConfidence
    ensures (exists weights, ds :: IsBlocked(p, weights, ds, confidence)) <==> CanBlock(p)
  {
    if CanBlock(p) {
      CompletenessCanBlock(p, confidence);
    } else {
      forall weights, ds ensures !IsBlocked(p, weights, ds, confidence) {
        NotBlocked(p, weights, ds, confidence);
      }
    }
  }

  lemma NotBlocked(p: Policy, weights: map<Dimension, real>, ds: seq<DimensionAssessment>, confidence: real)
    requires ValidPolicy(p) && confidence >= p.qualifiedConfidence && !CanBlock(p)
    ensures !IsBlocked(p, weights, ds, confidence)
  {
    if IsBlocked(p, weights, ds, confidence) {
      CompletenessNeverBlocks(p, weights, ds, confidence);
    }
  }

  // An assessed weight below the threshold's part of all the weight keeps any score from qualifying.
  lemma BlockedByCoverage(p: Policy, ds: seq<DimensionAssessment>, confidence: real)
    requires WeightSum(ds) > 0.0 && AssessedSum(ds) < p.qualifiedCompleteness * WeightSum(ds)
    ensures !IsQualified(Assess(p, ds, confidence, []))
  {
    FractionAtLeast(AssessedSum(ds), WeightSum(ds), p.qualifiedCompleteness);
  }

  // Gates come first: any hit of the gate policy disqualifies, and the check for evidence never fails.
  lemma GatesDisqualify(p: Policy, gates: seq<string>, signals: seq<string>, sources: seq<SourceReference>,
                        score: real, confidence: real, completeness: real)
    requires sources != [] && exists s | s in signals :: Marker(s) in gates
    ensures Decide(p, score, confidence, completeness, HitsOf(gates, signals, sources)) ==
            Success((Disqualified, DoNotContact))
  {
    HitsAre(gates, signals, sources);
    HitsDisqualify(p, score, confidence, completeness, HitsOf(gates, signals, sources), sources);
  }

  // In particular the gates of the source.
  lemma ShippedGatesDisqualify(p: Policy, signals: seq<string>, sources: seq<SourceReference>, gate: string,
                               score: real, confidence: real, completeness: real)
    requires sources != [] && gate in SHIPPED_GATES && exists s | s in signals :: Marker(s) == gate
    ensures IsGateTable(SHIPPED_GATES)
    ensures Decide(p, score, confidence, completeness, HitsOf(SHIPPED_GATES, signals, sources)) ==
            Success((Disqualified, DoNotContact))
  {
    ShippedGatesAreTable();
    GatesDisqualify(p, SHIPPED_GATES, signals, sources, score, confidence, completeness);
  }

  lemma HitsDisqualify(p: Policy, score: real, confidence: real, completeness: real, hits: seq<GateHit>,
                       sources: seq<SourceReference>)
    requires hits != [] && sources != [] && forall h | h in hits :: h.evidence.sources == sources
    ensures Decide(p, score, confidence, completeness, hits) == Success((Disqualified, DoNotContact))
  {
    assert forall i | 0 <= i < |hits| :: hits[i] in hits;
  }
}
