/** The explainable score and its own checks (apps/backend/app/domain/values.py), with reals for floats. */
module ScoreBreakdowns {
  import opened Wrappers

  datatype Dimension =
    | ImportActivity | ChinaDependency | ShippingFit | CargoValuePotential
    | CompanyScale | GrowthSignal | Contactability | LogisticsComplexity

  const ALL_DIMENSIONS: seq<Dimension> := [
    ImportActivity, ChinaDependency, ShippingFit, CargoValuePotential,
    CompanyScale, GrowthSignal, Contactability, LogisticsComplexity
  ]

  datatype Status = Assessed | Unknown | InsufficientEvidence | NotApplicable

  // Microseconds since the epoch, in UTC.
  datatype Instant = Instant(micros: int)

  datatype SourceReference = SourceReference(source: string, reference: string, retrievedAt: Instant)

  datatype Evidence = Evidence(claim: string, sources: seq<SourceReference>)

  datatype DimensionAssessment = DimensionAssessment(
    dimension: Dimension,
    weight: real,
    status: Status,
    earned: real,
    normalized: Option<real>,
    rawValue: Option<string>,
    confidence: real,
    reasons: seq<string>,
    evidence: seq<Evidence>
  )

  datatype ScoreBreakdown = ScoreBreakdown(
    dimensions: seq<DimensionAssessment>,
    totalScore: real,
    maximumScore: real,
    assessedWeight: real,
    missingWeight: real
  )

  datatype DomainError =
    | WeightNotPositive
    | ConfidenceOutOfRange
    | NormalizedOutOfRange
    | EvidenceMissing
    | EarnedMismatch
    | MustEarnNothing
    | DuplicateDimensions
    | TotalMismatch
    | WeightMismatch
    | ScoreOutOfRange
    | CompletenessOutOfRange
    | BlankClaim
    | NoSources
    | BlankReason
    | BlankSource
    | BlankReference

  const TOLERANCE := 0.000001

  function Distance(x: real, y: real): real {
    if x < y then y - x else x - y
  }

  // -------- The checks of the constructors --------

  function Expected(weight: real, normalized: real): real {
    weight * normalized
  }

  function DimensionError(d: DimensionAssessment): Option<DomainError> {
    if d.weight <= 0.0 then Some(WeightNotPositive)
    else if !(0.0 <= d.confidence <= 1.0) then Some(ConfidenceOutOfRange)
    else if d.status == Assessed then
      if d.normalized.None? || !(0.0 <= d.normalized.value <= 1.0) then Some(NormalizedOutOfRange)
      else if d.evidence == [] then Some(EvidenceMissing)
      else if Distance(d.earned, Expected(d.weight, d.normalized.value)) > TOLERANCE then Some(EarnedMismatch)
      else None
    else if d.earned != 0.0 || d.normalized.Some? then Some(MustEarnNothing)
    else None
  }

  predicate Valid(d: DimensionAssessment) {
    DimensionError(d).None?
  }

  // An assessed dimension has evidence and earns its share of its weight; any other one earns nothing. A weight is
  // positive and a confidence a fraction in either case.
  lemma ValidMeans(d: DimensionAssessment)
    requires Valid(d)
    ensures d.weight > 0.0 && 0.0 <= d.confidence <= 1.0
    ensures d.status == Assessed ==>
              && d.evidence != [] && d.normalized.Some? && 0.0 <= d.normalized.value <= 1.0
              && d.weight * d.normalized.value - TOLERANCE <= d.earned <= d.weight * d.normalized.value + TOLERANCE
    ensures d.status != Assessed ==> d.earned == 0.0 && d.normalized.None?
  {
  }

  // What is refused: nothing else, and each for the first thing that is wrong.
  lemma RefusedFor(d: DimensionAssessment)
    requires !Valid(d)
    ensures match DimensionError(d).value
            case WeightNotPositive => d.weight <= 0.0
            case ConfidenceOutOfRange => d.confidence < 0.0 || d.confidence > 1.0
            case NormalizedOutOfRange =>
              d.status == Assessed && (d.normalized == None || d.normalized.value < 0.0 || d.normalized.value > 1.0)
            case EvidenceMissing => d.status == Assessed && d.evidence == []
            case EarnedMismatch =>
              && d.status == Assessed && d.normalized.Some?
              && (d.earned > d.weight * d.normalized.value + TOLERANCE
                  || d.earned < d.weight * d.normalized.value - TOLERANCE)
            case MustEarnNothing => d.status != Assessed && (d.earned != 0.0 || d.normalized.Some?)
            case _ => false
  {
  }

  predicate AllValid(ds: seq<DimensionAssessment>) {
    forall d | d in ds :: Valid(d)
  }

  predicate DistinctDimensions(ds: seq<DimensionAssessment>) {
    forall i, j | 0 <= i < j < |ds| :: ds[i].dimension != ds[j].dimension
  }

  function EarnedSum(ds: seq<DimensionAssessment>): real {
    if ds == [] then 0.0 else ds[0].earned + EarnedSum(ds[1..])
  }

  function WeightSum(ds: seq<DimensionAssessment>): real {
    if ds == [] then 0.0 else ds[0].weight + WeightSum(ds[1..])
  }

  function AssessedSum(ds: seq<DimensionAssessment>): real {
    if ds == [] then 0.0 else (if ds[0].status == Assessed then ds[0].weight else 0.0) + AssessedSum(ds[1..])
  }

  function BreakdownError(b: ScoreBreakdown): Option<DomainError> {
    if !DistinctDimensions(b.dimensions) then Some(DuplicateDimensions)
    else if Distance(b.totalScore, EarnedSum(b.dimensions)) > TOLERANCE then Some(TotalMismatch)
    else if Distance(b.assessedWeight + b.missingWeight, b.maximumScore) > TOLERANCE then Some(WeightMismatch)
    else None
  }

  function MakeBreakdown(b: ScoreBreakdown): Result<ScoreBreakdown, DomainError> {
    match BreakdownError(b)
    case Some(error) => Failure(error)
    case None => Success(b)
  }

  function FromDimensions(ds: seq<DimensionAssessment>): Result<ScoreBreakdown, DomainError> {
    var maximum := WeightSum(ds);
    var assessed := AssessedSum(ds);
    MakeBreakdown(ScoreBreakdown(ds, EarnedSum(ds), maximum, assessed, maximum - assessed))
  }

  // A breakdown is accepted exactly when no dimension is there twice and its sums are right, up to the tolerance.
  lemma BreakdownAcceptedIff(b: ScoreBreakdown)
    ensures MakeBreakdown(b).Success? <==>
            && (forall i, j | 0 <= i < j < |b.dimensions| :: b.dimensions[i].dimension != b.dimensions[j].dimension)
            && -0.000001 <= b.totalScore - EarnedSum(b.dimensions) <= 0.000001
            && -0.000001 <= b.assessedWeight + b.missingWeight - b.maximumScore <= 0.000001
    ensures MakeBreakdown(b).Success? ==> MakeBreakdown(b).value == b
  {
  }

  // -------- from_dimensions --------

  // It passes its own checks exactly when no dimension is there twice.
  lemma FromDimensionsSucceedsIff(ds: seq<DimensionAssessment>)
    ensures FromDimensions(ds).Success? <==> DistinctDimensions(ds)
    ensures FromDimensions(ds).Failure? ==> FromDimensions(ds).error == DuplicateDimensions
    ensures FromDimensions(ds).Success? ==>
              FromDimensions(ds).value.assessedWeight + FromDimensions(ds).value.missingWeight ==
              FromDimensions(ds).value.maximumScore
  {
  }

  lemma {:induction false} SumsOfSplit(xs: seq<DimensionAssessment>, ys: seq<DimensionAssessment>)
    ensures EarnedSum(xs + ys) == EarnedSum(xs) + EarnedSum(ys)
    ensures WeightSum(xs + ys) == WeightSum(xs) + WeightSum(ys)
    ensures AssessedSum(xs + ys) == AssessedSum(xs) + AssessedSum(ys)
  {
    if xs == [] {
      assert xs + ys == ys;
    } else {
      assert (xs + ys)[1..] == xs[1..] + ys;
      SumsOfSplit(xs[1..], ys);
    }
  }

  lemma ExpectedWithinWeight(weight: real, normalized: real)
    requires weight >= 0.0 && 0.0 <= normalized <= 1.0
    ensures 0.0 <= Expected(weight, normalized) <= weight
  {
    assert weight * (1.0 - normalized) >= 0.0;
    assert weight * (1.0 - normalized) == weight - weight * normalized;
  }

  lemma ShareOfWhole(part: real, whole: real)
    requires 0.0 <= part <= whole && whole > 0.0
    ensures 0.0 <= part / whole <= 1.0
  {
  }

  lemma EarnedWithinWeight(d: DimensionAssessment)
    requires Valid(d)
    ensures -TOLERANCE <= d.earned
    ensures d.status == Assessed ==> d.earned <= d.weight + TOLERANCE
    ensures d.status != Assessed ==> d.earned == 0.0
  {
    if d.status == Assessed {
      ExpectedWithinWeight(d.weight, d.normalized.value);
    }
  }

  // The score never exceeds the weight it was assessed on, but for the tolerance of each dimension.
  lemma {:induction false} TotalWithinAssessed(ds: seq<DimensionAssessment>)
    requires AllValid(ds)
    ensures EarnedSum(ds) <= AssessedSum(ds) + |ds| as real * TOLERANCE
    ensures -(|ds| as real) * TOLERANCE <= EarnedSum(ds)
    ensures 0.0 <= AssessedSum(ds) <= WeightSum(ds)
    ensures ds != [] ==> WeightSum(ds) > 0.0
  {
    if ds != [] {
      assert ds[0] in ds;
      EarnedWithinWeight(ds[0]);
      assert forall d | d in ds[1..] :: d in ds;
      TotalWithinAssessed(ds[1..]);
    }
  }

  // Learning about a dimension that was unknown never takes more than the tolerance off the score,
  // moves exactly its weight from missing to assessed, and leaves the maximum alone.
  lemma AssessingNeverHurts(ds: seq<DimensionAssessment>, i: nat, d: DimensionAssessment)
    requires i < |ds| && AllValid(ds) && Valid(d)
    requires ds[i].status != Assessed && d.status == Assessed
    requires d.dimension == ds[i].dimension && d.weight == ds[i].weight
    requires FromDimensions(ds).Success?
    ensures FromDimensions(ds[i := d]).Success?
    ensures var before, after := FromDimensions(ds).value, FromDimensions(ds[i := d]).value;
            && after.totalScore == before.totalScore + d.earned
            && after.totalScore >= before.totalScore - TOLERANCE
            && after.maximumScore == before.maximumScore
            && after.assessedWeight == before.assessedWeight + d.weight
            && after.missingWeight == before.missingWeight - d.weight
  {
    var front, back := ds[..i], ds[i + 1..];
    assert ds == front + ([ds[i]] + back);
    assert ds[i := d] == front + ([d] + back);
    SumsOfSplit(front, [ds[i]] + back);
    SumsOfSplit(front, [d] + back);
    assert [ds[i]][1..] == [] && [d][1..] == [];
    assert ds[i] in ds;
    EarnedWithinWeight(d);
    StillDistinct(ds, i, d);
  }

  lemma StillDistinct(ds: seq<DimensionAssessment>, i: nat, d: DimensionAssessment)
    requires i < |ds| && d.dimension == ds[i].dimension && FromDimensions(ds).Success?
    ensures FromDimensions(ds[i := d]).Success?
  {
    FromDimensionsSucceedsIff(ds[i := d]);
  }

  // -------- The values made from a breakdown --------

  function MakeScore(value: real): Result<real, DomainError> {
    if 0.0 <= value <= 100.0 then Success(value) else Failure(ScoreOutOfRange)
  }

  function MakeCompleteness(value: real): Result<real, DomainError> {
    if 0.0 <= value <= 1.0 then Success(value) else Failure(CompletenessOutOfRange)
  }

  function Capped(total: real): real {
    if total < 100.0 then total else 100.0
  }

  function Completeness(b: ScoreBreakdown): real {
    if b.maximumScore != 0.0 then b.assessedWeight / b.maximumScore else 0.0
  }

  // A score is a number from 0 to 100, a coverage one from 0 to 1, and either is what it was made from.
  lemma LegalValues(value: real)
    ensures MakeScore(value) == Success(value) <==> !(value < 0.0 || value > 100.0)
    ensures MakeScore(value).Success? <==> MakeScore(value) != Failure(ScoreOutOfRange)
    ensures MakeCompleteness(value) == Success(value) <==> !(value < 0.0 || value > 1.0)
    ensures MakeCompleteness(value).Success? <==> MakeCompleteness(value) != Failure(CompletenessOutOfRange)
  {
  }

  // For valid dimensions the coverage is always a fraction, and the capped total is a score
  // exactly when it is not negative.
  lemma ScoreIsLegalIff(ds: seq<DimensionAssessment>)
    requires AllValid(ds) && FromDimensions(ds).Success?
    ensures MakeCompleteness(Completeness(FromDimensions(ds).value)).Success?
    ensures MakeScore(Capped(FromDimensions(ds).value.totalScore)).Success? <==> EarnedSum(ds) >= 0.0
    ensures if ds == [] then Completeness(FromDimensions(ds).value) == 0.0
            else Completeness(FromDimensions(ds).value) * WeightSum(ds) == AssessedSum(ds)
  {
    TotalWithinAssessed(ds);
    var a, m := AssessedSum(ds), WeightSum(ds);
    if ds != [] {
      ShareOfWhole(a, m);
    }
  }

  // The tolerance lets a valid breakdown have a total that is no score.
  lemma ToleratedNegative(source: SourceReference)
    ensures var d := DimensionAssessment(ShippingFit, 15.0, Assessed, -0.000001, Some(0.0), None, 0.5, [],
                                         [Evidence("claim", [source])]);
            && AllValid([d]) && FromDimensions([d]).Success?
            && MakeScore(Capped(FromDimensions([d]).value.totalScore)) == Failure(ScoreOutOfRange)
  {
    var d := DimensionAssessment(ShippingFit, 15.0, Assessed, -0.000001, Some(0.0), None, 0.5, [],
                                 [Evidence("claim", [source])]);
    assert Valid(d);
    assert EarnedSum([d]) == -0.000001;
  }

  // What the deterministic scorer earns: the weight times the normalized value, or nothing.
  predicate ExactlyEarned(ds: seq<DimensionAssessment>) {
    forall d | d in ds && d.status == Assessed && d.normalized.Some? ::
      d.earned == Expected(d.weight, d.normalized.value)
  }

  lemma {:induction false} ExactTotals(ds: seq<DimensionAssessment>)
    requires AllValid(ds) && ExactlyEarned(ds)
    ensures 0.0 <= EarnedSum(ds) <= AssessedSum(ds)
  {
    if ds != [] {
      var d := ds[0];
      assert d in ds && Valid(d);
      if d.status == Assessed {
        ExpectedWithinWeight(d.weight, d.normalized.value);
      }
      assert forall e | e in ds[1..] :: e in ds;
      ExactTotals(ds[1..]);
    }
  }

  // So for its dimensions the score is always legal.
  lemma ScorerNeverFails(ds: seq<DimensionAssessment>)
    requires AllValid(ds) && ExactlyEarned(ds) && DistinctDimensions(ds)
    ensures FromDimensions(ds).Success?
    ensures MakeScore(Capped(FromDimensions(ds).value.totalScore)).Success?
    ensures MakeCompleteness(Completeness(FromDimensions(ds).value)).Success?
  {
    FromDimensionsSucceedsIff(ds);
    ExactTotals(ds);
    ScoreIsLegalIff(ds);
  }
}
