/** The explanation of a stored breakdown (_explain in apps/backend/app/schemas/mvp.py). */
module Explanation {
  import opened Qualification
  import opened Rounding
  import opened ScoreBreakdowns
  import opened Wrappers

  datatype DimensionExplanation = DimensionExplanation(
    dimension: Dimension,
    status: Status,
    weight: real,
    earned: real,
    contribution: real,
    evidencePresent: bool,
    unknownReason: Option<Status>,
    needsImportEvidence: bool,
    reasons: seq<string>
  )

  datatype Explanation = Explanation(
    dimensions: seq<DimensionExplanation>,
    obtained: seq<Dimension>,
    missing: seq<Dimension>,
    importMissing: seq<Dimension>,
    unreachableWeight: real,
    importEvidenceRequired: bool
  )

  predicate IsImportDimension(d: Dimension) {
    d == ImportActivity || d == ChinaDependency || d == CargoValuePotential
  }

  predicate IsAssessed(d: DimensionAssessment) {
    d.status == Assessed
  }

  predicate IsMissing(d: DimensionAssessment) {
    !IsAssessed(d)
  }

  predicate IsAny(d: DimensionAssessment) {
    true
  }

  predicate NeedsImport(d: DimensionAssessment) {
    !IsAssessed(d) && IsImportDimension(d.dimension)
  }

  function Contribution(earned: real, total: real): real {
    if total > 0.0 then RoundAt(earned / total, 10000.0) else 0.0
  }

  function ExplanationOf(d: DimensionAssessment, total: real): DimensionExplanation {
    DimensionExplanation(d.dimension, d.status, d.weight, d.earned, Contribution(d.earned, total), IsAssessed(d),
                         if IsAssessed(d) then None else Some(d.status), NeedsImport(d), d.reasons)
  }

  // -------- What the loop collects --------

  // The dimensions of the assessments that satisfy the test, in their order.
  function Names(ds: seq<DimensionAssessment>, test: DimensionAssessment -> bool): seq<Dimension> {
    if ds == [] then []
    else
      var d := ds[|ds| - 1];
      Names(ds[..|ds| - 1], test) + (if test(d) then [d.dimension] else [])
  }

  function ImportWeight(ds: seq<DimensionAssessment>): real {
    if ds == [] then 0.0
    else
      var d := ds[|ds| - 1];
      ImportWeight(ds[..|ds| - 1]) + (if NeedsImport(d) then d.weight else 0.0)
  }

  lemma OneMoreItem(ds: seq<DimensionAssessment>, n: nat)
    requires n < |ds|
    ensures Names(ds[..n + 1], IsAssessed) ==
            Names(ds[..n], IsAssessed) + (if IsAssessed(ds[n]) then [ds[n].dimension] else [])
    ensures Names(ds[..n + 1], IsMissing) ==
            Names(ds[..n], IsMissing) + (if IsMissing(ds[n]) then [ds[n].dimension] else [])
    ensures Names(ds[..n + 1], NeedsImport) ==
            Names(ds[..n], NeedsImport) + (if NeedsImport(ds[n]) then [ds[n].dimension] else [])
    ensures ImportWeight(ds[..n + 1]) == ImportWeight(ds[..n]) + (if NeedsImport(ds[n]) then ds[n].weight else 0.0)
  {
    assert ds[..n + 1][..n] == ds[..n];
  }

  // The first n assessments are described in turn.
  ghost predicate Describes(ds: seq<DimensionAssessment>, total: real, es: seq<DimensionExplanation>, n: nat)
    requires n <= |ds|
  {
    |es| == n && forall i | 0 <= i < n :: es[i] == ExplanationOf(ds[i], total)
  }

  lemma OneMoreDescription(ds: seq<DimensionAssessment>, total: real, es: seq<DimensionExplanation>, n: nat)
    requires n < |ds| && Describes(ds, total, es, n)
    ensures Describes(ds, total, es + [ExplanationOf(ds[n], total)], n + 1)
  {
  }

  ghost predicate Explains(ds: seq<DimensionAssessment>, total: real, e: Explanation) {
    && Describes(ds, total, e.dimensions, |ds|)
    && e.obtained == Names(ds, IsAssessed)
    && e.missing == Names(ds, IsMissing)
    && e.importMissing == Names(ds, NeedsImport)
    && e.unreachableWeight == RoundAt(ImportWeight(ds), 100.0)
    && (e.importEvidenceRequired <==> e.importMissing != [])
  }

  method Explain(breakdown: Option<ScoreBreakdown>, total: real) returns (e: Option<Explanation>)
    ensures e.None? <==> breakdown.None?
    ensures e.Some? ==> Explains(breakdown.value.dimensions, total, e.value)
  {
    if breakdown.None? {
      return None;
    }
    var ds := breakdown.value.dimensions;
    var dimensions: seq<DimensionExplanation>, obtained: seq<Dimension> := [], [];
    var missing: seq<Dimension>, importMissing: seq<Dimension> := [], [];
    var unreachable := 0.0;
    for i := 0 to |ds|
      invariant Describes(ds, total, dimensions, i)
      invariant obtained == Names(ds[..i], IsAssessed)
      invariant missing == Names(ds[..i], IsMissing)
      invariant importMissing == Names(ds[..i], NeedsImport)
      invariant unreachable == ImportWeight(ds[..i])
    {
      var item := ds[i];
      OneMoreItem(ds, i);
      OneMoreDescription(ds, total, dimensions, i);
      var assessed := item.status == Assessed;
      var needsImport := !assessed && IsImportDimension(item.dimension);
      if assessed {
        obtained := obtained + [item.dimension];
      } else {
        missing := missing + [item.dimension];
      }
      if needsImport {
        importMissing := importMissing + [item.dimension];
        unreachable := unreachable + item.weight;
      }
      dimensions := dimensions +
        [DimensionExplanation(item.dimension, item.status, item.weight, item.earned, Contribution(item.earned, total),
                              assessed, if assessed then None else Some(item.status), needsImport, item.reasons)];
    }
    assert ds[..|ds|] == ds;
    e := Some(Explanation(dimensions, obtained, missing, importMissing, RoundAt(unreachable, 100.0),
                          importMissing != []));
  }

  // -------- What it says --------

  lemma {:induction false} NamesAre(ds: seq<DimensionAssessment>, test: DimensionAssessment -> bool)
    ensures forall n :: n in Names(ds, test) <==> exists d | d in ds :: test(d) && d.dimension == n
  {
    if ds != [] {
      var front, last := ds[..|ds| - 1], ds[|ds| - 1];
      assert ds == front + [last];
      NamesAre(front, test);
    }
  }

  lemma {:induction false} NamesSplit(ds: seq<DimensionAssessment>)
    ensures multiset(Names(ds, IsAssessed)) + multiset(Names(ds, IsMissing)) ==
            multiset(Names(ds, IsAny))
    ensures forall n | n in Names(ds, NeedsImport) :: n in Names(ds, IsMissing) && IsImportDimension(n)
    ensures forall n | n in Names(ds, IsMissing) && IsImportDimension(n) :: n in Names(ds, NeedsImport)
  {
    if ds != [] {
      NamesSplit(ds[..|ds| - 1]);
    }
  }

  function DimensionsOf(ds: seq<DimensionAssessment>): seq<Dimension> {
    seq(|ds|, i requires 0 <= i < |ds| => ds[i].dimension)
  }

  lemma {:induction false} AllNames(ds: seq<DimensionAssessment>)
    ensures Names(ds, IsAny) == DimensionsOf(ds)
  {
    if ds != [] {
      AllNames(ds[..|ds| - 1]);
    }
  }

  lemma NotBoth(ds: seq<DimensionAssessment>)
    requires DistinctDimensions(ds)
    ensures forall n :: !(n in Names(ds, IsAssessed) && n in Names(ds, IsMissing))
  {
    NamesAre(ds, IsAssessed);
    NamesAre(ds, IsMissing);
    forall n
      ensures !(n in Names(ds, IsAssessed) && n in Names(ds, IsMissing))
    {
      if n in Names(ds, IsAssessed) && n in Names(ds, IsMissing) {
        var a :| a in ds && IsAssessed(a) && a.dimension == n;
        var b :| b in ds && IsMissing(b) && b.dimension == n;
        SameDimension(ds, a, b);
      }
    }
  }

  lemma SameDimension(ds: seq<DimensionAssessment>, a: DimensionAssessment, b: DimensionAssessment)
    requires DistinctDimensions(ds) && a in ds && b in ds && a.dimension == b.dimension
    ensures a == b
  {
  }

  // Every dimension is obtained or missing, none is both, and the ones blocked on import evidence are
  // the missing ones of the three import dimensions.
  lemma EvidenceIsPartitioned(ds: seq<DimensionAssessment>, total: real, e: Explanation)
    requires Explains(ds, total, e) && DistinctDimensions(ds)
    ensures multiset(e.obtained) + multiset(e.missing) == multiset(DimensionsOf(ds))
    ensures forall n :: !(n in e.obtained && n in e.missing)
    ensures forall n :: n in e.importMissing <==> n in e.missing && IsImportDimension(n)
    ensures e.importEvidenceRequired <==> exists n | n in e.missing :: IsImportDimension(n)
  {
    NamesSplit(ds);
    AllNames(ds);
    NotBoth(ds);
    if e.importMissing != [] {
      assert e.importMissing[0] in e.importMissing;
    }
  }

  // A contribution is the dimension's part of a positive total with four digits, and nothing without one.
  lemma ContributionIs(ds: seq<DimensionAssessment>, total: real, e: Explanation, i: nat)
    requires Explains(ds, total, e) && i < |ds|
    ensures |e.dimensions| == |ds|
    ensures total <= 0.0 ==> e.dimensions[i].contribution == 0.0
    ensures total > 0.0 ==>
              && -0.00005 <= e.dimensions[i].contribution - ds[i].earned / total <= 0.00005
              && (e.dimensions[i].contribution * 10000.0).Floor as real == e.dimensions[i].contribution * 10000.0
  {
    assert e.dimensions[i].contribution == Contribution(ds[i].earned, total);
    if total > 0.0 {
      var share := ds[i].earned / total;
      RoundingIsNear(share, 10000.0);
      assert RoundAt(share, 10000.0) * 10000.0 == Nearest(share * 10000.0) as real;
    }
  }

  // Each described dimension agrees with the lists: its evidence is there exactly when it is obtained, it names the
  // reason why it is unknown exactly when it is missing, and it calls for import evidence exactly when it is
  // blocked on it.
  lemma DescriptionsAgree(ds: seq<DimensionAssessment>, total: real, e: Explanation, i: nat)
    requires Explains(ds, total, e) && DistinctDimensions(ds) && i < |ds|
    ensures |e.dimensions| == |ds|
    ensures var x := e.dimensions[i];
            && x.dimension == ds[i].dimension && x.weight == ds[i].weight && x.earned == ds[i].earned
            && x.status == ds[i].status && x.reasons == ds[i].reasons
            && (x.evidencePresent <==> x.dimension in e.obtained)
            && (x.evidencePresent <==> x.status == Assessed)
            && (x.unknownReason.Some? <==> x.dimension in e.missing)
            && (x.unknownReason.Some? ==> x.unknownReason.value == ds[i].status)
            && (x.needsImportEvidence <==> x.dimension in e.importMissing)
  {
    assert ds[i] in ds;
    NamesAre(ds, IsAssessed);
    NamesAre(ds, IsMissing);
    NotBoth(ds);
    EvidenceIsPartitioned(ds, total, e);
  }

  lemma {:induction false} SumsFromTheEnd(ds: seq<DimensionAssessment>)
    requires ds != []
    ensures var front, last := ds[..|ds| - 1], ds[|ds| - 1];
            && WeightSum(ds) == WeightSum(front) + last.weight
            && EarnedSum(ds) == EarnedSum(front) + last.earned
            && AssessedSum(ds) == AssessedSum(front) + (if IsAssessed(last) then last.weight else 0.0)
  {
    var front, last := ds[..|ds| - 1], ds[|ds| - 1];
    assert ds == front + [last];
    SumsOfSplit(front, [last]);
    assert [last][1..] == [];
  }

  lemma {:induction false} ImportWeightIsMissing(ds: seq<DimensionAssessment>)
    requires AllValid(ds)
    ensures 0.0 <= ImportWeight(ds) <= MissingSum(ds)
  {
    if ds != [] {
      SumsFromTheEnd(ds);
      assert ds[|ds| - 1] in ds && forall d | d in ds[..|ds| - 1] :: d in ds;
      ImportWeightIsMissing(ds[..|ds| - 1]);
    }
  }

  // The weight called unreachable and the score together never exceed 100, but for the tolerances and the rounding.
  lemma UnreachableIsOutOfReach(weights: map<Dimension, real>, ds: seq<DimensionAssessment>, e: Explanation)
    requires ValidWeights(weights) && FullTable(weights, ds) && AllValid(ds)
    requires Explains(ds, Capped(EarnedSum(ds)), e)
    ensures EarnedSum(ds) + e.unreachableWeight <= 100.0 + 9.0 * TOLERANCE + 0.005
    ensures -0.005 <= e.unreachableWeight
  {
    TableBounds(weights, ds);
    ImportWeightIsMissing(ds);
    RoundingIsNear(ImportWeight(ds), 100.0);
  }

  // A weight with two digits that is more than 30 is at least 30.01.
  lemma MoreThanThirty(x: real)
    requires RoundAt(x, 100.0) > 30.0
    ensures RoundAt(x, 100.0) >= 30.01
  {
    assert Nearest(x * 100.0) as real / 100.0 > 30.0;
    assert Nearest(x * 100.0) > 3000;
  }

  // An explanation that calls more than 30 unreachable is never that of a qualified company.
  lemma UnreachableIsNotQualified(weights: map<Dimension, real>, ds: seq<DimensionAssessment>, confidence: real,
                                  e: Explanation)
    requires ValidWeights(weights) && FullTable(weights, ds) && AllValid(ds)
    requires Explains(ds, Capped(EarnedSum(ds)), e) && e.unreachableWeight > 30.0
    ensures !IsQualified(Assess(DEFAULT_POLICY, ds, confidence, []))
  {
    MoreThanThirty(ImportWeight(ds));
    UnreachableIsOutOfReach(weights, ds, e);
    DefaultDecision(weights, ds, confidence);
  }

  // Under the default weights a company without any customs evidence lacks 45 of the 100: its score is at most 55,
  // its explanation asks for import evidence, and it is never qualified.
  lemma CustomsEvidenceIsNeeded(ds: seq<DimensionAssessment>, confidence: real, e: Explanation)
    requires FullTable(DEFAULT_WEIGHTS, ds) && AllValid(ds)
    requires forall d | d in ds && IsImportDimension(d.dimension) :: !IsAssessed(d)
    requires Explains(ds, Capped(EarnedSum(ds)), e)
    ensures e.unreachableWeight == 45.0
    ensures EarnedSum(ds) <= 55.0 + 9.0 * TOLERANCE
    ensures e.importEvidenceRequired && e.importMissing == [ImportActivity, ChinaDependency, CargoValuePotential]
    ensures !IsQualified(Assess(DEFAULT_POLICY, ds, confidence, []))
  {
    DefaultRows(ds);
    ImportWeightOfRows(ds);
    RoundingKeeps(45.0, 100.0, 4500);
    DefaultWeightsAreValid();
    UnreachableIsNotQualified(DEFAULT_WEIGHTS, ds, confidence, e);
    ScoreBesideImport(DEFAULT_WEIGHTS, ds);
  }

  lemma ScoreBesideImport(weights: map<Dimension, real>, ds: seq<DimensionAssessment>)
    requires ValidWeights(weights) && FullTable(weights, ds) && AllValid(ds)
    ensures EarnedSum(ds) <= 100.0 - ImportWeight(ds) + 9.0 * TOLERANCE
  {
    ImportWeightIsMissing(ds);
    TableBounds(weights, ds);
  }

  // What the loop has collected after n assessments.
  predicate Collected(ds: seq<DimensionAssessment>, n: nat, names: seq<Dimension>, weight: real)
    requires n <= |ds|
  {
    Names(ds[..n], NeedsImport) == names && ImportWeight(ds[..n]) == weight
  }

  lemma OneMoreName(ds: seq<DimensionAssessment>, n: nat, names: seq<Dimension>, weight: real)
    requires n < |ds| && Collected(ds, n, names, weight)
    ensures NeedsImport(ds[n]) ==> Collected(ds, n + 1, names + [ds[n].dimension], weight + ds[n].weight)
    ensures !NeedsImport(ds[n]) ==> Collected(ds, n + 1, names, weight)
  {
    OneMoreItem(ds, n);
  }

  // The rows of the default table that need import evidence, when none of them is assessed.
  predicate NoCustomsRows(ds: seq<DimensionAssessment>) {
    && |ds| == 8
    && NeedsImport(ds[0]) && ds[0].dimension == ImportActivity && ds[0].weight == 20.0
    && NeedsImport(ds[1]) && ds[1].dimension == ChinaDependency && ds[1].weight == 15.0
    && !NeedsImport(ds[2])
    && NeedsImport(ds[3]) && ds[3].dimension == CargoValuePotential && ds[3].weight == 10.0
    && forall i | 4 <= i < 8 :: !NeedsImport(ds[i])
  }

  lemma DefaultRows(ds: seq<DimensionAssessment>)
    requires FullTable(DEFAULT_WEIGHTS, ds)
    requires forall d | d in ds && IsImportDimension(d.dimension) :: !IsAssessed(d)
    ensures NoCustomsRows(ds)
  {
    assert forall i | 0 <= i < 8 :: ds[i] in ds && ds[i].dimension == ALL_DIMENSIONS[i];
  }

  lemma ImportWeightOfRows(ds: seq<DimensionAssessment>)
    requires NoCustomsRows(ds)
    ensures ImportWeight(ds) == 45.0
    ensures Names(ds, NeedsImport) == [ImportActivity, ChinaDependency, CargoValuePotential]
  {
    var names := [ImportActivity, ChinaDependency, CargoValuePotential];
    OneMoreName(ds, 0, [], 0.0);
    OneMoreName(ds, 1, [ImportActivity], 20.0);
    OneMoreName(ds, 2, [ImportActivity, ChinaDependency], 35.0);
    OneMoreName(ds, 3, [ImportActivity, ChinaDependency], 35.0);
    for i := 4 to 8
      invariant Collected(ds, i, names, 45.0)
    {
      OneMoreName(ds, i, names, 45.0);
    }
    assert ds[..8] == ds;
  }

  // -------- The contributions --------

  function ContributionSum(es: seq<DimensionExplanation>): real {
    if es == [] then 0.0 else ContributionSum(es[..|es| - 1]) + es[|es| - 1].contribution
  }

  lemma {:induction false} ContributionsNear(ds: seq<DimensionAssessment>, es: seq<DimensionExplanation>, total: real)
    requires Describes(ds, total, es, |ds|) && total > 0.0
    ensures Distance(ContributionSum(es), EarnedSum(ds) / total) <= |ds| as real * 0.00005
  {
    if ds != [] {
      var front, last := ds[..|ds| - 1], ds[|ds| - 1];
      ContributionsNear(front, es[..|es| - 1], total);
      SumsFromTheEnd(ds);
      RoundingIsNear(last.earned / total, 10000.0);
      SumOverTotal(EarnedSum(front), last.earned, total);
    }
  }

  lemma SumOverTotal(x: real, y: real, total: real)
    requires total > 0.0
    ensures (x + y) / total == x / total + y / total
  {
  }

  lemma WholeShare(total: real)
    requires total > 0.0
    ensures total / total == 1.0
  {
  }

  // The contributions of a positive, uncapped score sum to one, but for half a ten-thousandth of each dimension.
  lemma {:induction false} ContributionsSumToOne(ds: seq<DimensionAssessment>, e: Explanation)
    requires Explains(ds, EarnedSum(ds), e) && 0.0 < EarnedSum(ds)
    ensures Distance(ContributionSum(e.dimensions), 1.0) <= |ds| as real * 0.00005
  {
    ContributionsNear(ds, e.dimensions, EarnedSum(ds));
    WholeShare(EarnedSum(ds));
  }
}
