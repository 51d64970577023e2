/** A score breakdown as JSON and back (apps/backend/app/database/mappers/opportunity.py). */
module BreakdownJson {
  import opened HardGates
  import opened JsonValues
  import opened ScoreBreakdowns
  import opened Wrappers
  import T = Text

  // What can go wrong on load: the payload has another shape, or a constructor refuses.
  datatype LoadError = Shape(error: JsonError) | Refused(reason: DomainError)

  type Loaded<T> = Result<T, LoadError>

  // -------- Names of the enumerations --------

  function DimensionName(d: Dimension): string {
    match d
    case ImportActivity => "import_activity"
    case ChinaDependency => "china_dependency"
    case ShippingFit => "shipping_fit"
    case CargoValuePotential => "cargo_value_potential"
    case CompanyScale => "company_scale"
    case GrowthSignal => "growth_signal"
    case Contactability => "contactability"
    case LogisticsComplexity => "logistics_complexity"
  }

  // The member with the value, in the order of the enumeration.
  function DimensionNamed(name: string): Option<Dimension> {
    DimensionAmong(ALL_DIMENSIONS, name)
  }

  function DimensionAmong(ds: seq<Dimension>, name: string): Option<Dimension> {
    if ds == [] then None
    else if DimensionName(ds[0]) == name then Some(ds[0])
    else DimensionAmong(ds[1..], name)
  }

  function StatusName(s: Status): string {
    match s
    case Assessed => "assessed"
    case Unknown => "unknown"
    case InsufficientEvidence => "insufficient_evidence"
    case NotApplicable => "not_applicable"
  }

  const ALL_STATUSES: seq<Status> := [Assessed, Unknown, InsufficientEvidence, NotApplicable]

  function StatusNamed(name: string): Option<Status> {
    StatusAmong(ALL_STATUSES, name)
  }

  function StatusAmong(ss: seq<Status>, name: string): Option<Status> {
    if ss == [] then None
    else if StatusName(ss[0]) == name then Some(ss[0])
    else StatusAmong(ss[1..], name)
  }

  lemma DimensionNamesDiffer(a: Dimension, b: Dimension)
    requires DimensionName(a) == DimensionName(b)
    ensures a == b
  {
    DimensionNameShape(a);
    DimensionNameShape(b);
  }

  lemma DimensionNameShape(d: Dimension)
    ensures |DimensionName(d)| ==
            (match d
             case ImportActivity => 15 case ChinaDependency => 16 case ShippingFit => 12
             case CargoValuePotential => 21 case CompanyScale => 13 case GrowthSignal => 13
             case Contactability => 14 case LogisticsComplexity => 20)
    ensures DimensionName(d)[0] == 'g' <==> d == GrowthSignal
  {
  }

  lemma StatusNamesDiffer(a: Status, b: Status)
    requires StatusName(a) == StatusName(b)
    ensures a == b
  {
    assert |StatusName(Assessed)| == 8 && |StatusName(Unknown)| == 7;
    assert |StatusName(InsufficientEvidence)| == 21 && |StatusName(NotApplicable)| == 14;
  }

  lemma {:induction false} DimensionFound(ds: seq<Dimension>, d: Dimension)
    requires d in ds
    ensures DimensionAmong(ds, DimensionName(d)) == Some(d)
  {
    if DimensionName(ds[0]) == DimensionName(d) {
      DimensionNamesDiffer(ds[0], d);
    } else {
      DimensionFound(ds[1..], d);
    }
  }

  lemma {:induction false} StatusFound(ss: seq<Status>, s: Status)
    requires s in ss
    ensures StatusAmong(ss, StatusName(s)) == Some(s)
  {
    if StatusName(ss[0]) == StatusName(s) {
      StatusNamesDiffer(ss[0], s);
    } else {
      StatusFound(ss[1..], s);
    }
  }

  // -------- Reading fields --------

  function Field(j: Json, key: string): Loaded<Json> {
    if !j.Object? then Failure(Shape(Malformed))
    else if key !in j.fields then Failure(Shape(MissingKey(key)))
    else Success(j.fields[key])
  }

  function TextAt(j: Json, key: string): Loaded<string> {
    match Field(j, key)
    case Success(Text(text)) => Success(text)
    case Success(_) => Failure(Shape(Malformed))
    case Failure(e) => Failure(e)
  }

  function NumberAt(j: Json, key: string): Loaded<real> {
    match Field(j, key)
    case Success(Decimal(x)) => Success(x)
    case Success(Whole(n)) => Success(n as real)
    case Success(_) => Failure(Shape(Malformed))
    case Failure(e) => Failure(e)
  }

  function OptionalNumberAt(j: Json, key: string): Loaded<Option<real>> {
    match Field(j, key)
    case Success(Null) => Success(None)
    case Success(Decimal(x)) => Success(Some(x))
    case Success(Whole(n)) => Success(Some(n as real))
    case Success(_) => Failure(Shape(Malformed))
    case Failure(e) => Failure(e)
  }

  function OptionalTextAt(j: Json, key: string): Loaded<Option<string>> {
    match Field(j, key)
    case Success(Null) => Success(None)
    case Success(Text(text)) => Success(Some(text))
    case Success(_) => Failure(Shape(Malformed))
    case Failure(e) => Failure(e)
  }

  function ListAt(j: Json, key: string): Loaded<seq<Json>> {
    match Field(j, key)
    case Success(List(items)) => Success(items)
    case Success(_) => Failure(Shape(Malformed))
    case Failure(e) => Failure(e)
  }

  // Two values that both have to load, the first error first.
  function Both<A, B>(a: Loaded<A>, b: Loaded<B>): Loaded<(A, B)> {
    match (a, b)
    case (Failure(e), _) => Failure(e)
    case (Success(_), Failure(e)) => Failure(e)
    case (Success(x), Success(y)) => Success((x, y))
  }

  // A generator over a list, read in order.
  function Each<A>(items: seq<Json>, read: Json -> Loaded<A>): Loaded<seq<A>> {
    if items == [] then Success([])
    else
      match Both(read(items[0]), Each(items[1..], read))
      case Success((x, rest)) => Success([x] + rest)
      case Failure(e) => Failure(e)
  }

  function Mapped<A>(xs: seq<A>, write: A -> Json): seq<Json> {
    if xs == [] then [] else [write(xs[0])] + Mapped(xs[1..], write)
  }

  // A list loads exactly when each of its items does, and then it is the list that was written.
  lemma {:induction false} EachOfMapped<A>(xs: seq<A>, write: A -> Json, read: Json -> Loaded<A>)
    requires forall x | x in xs :: read(write(x)).Success? ==> read(write(x)) == Success(x)
    ensures Each(Mapped(xs, write), read).Success? <==> forall x | x in xs :: read(write(x)).Success?
    ensures Each(Mapped(xs, write), read).Success? ==> Each(Mapped(xs, write), read) == Success(xs)
  {
    if xs != [] {
      assert xs[0] in xs;
      assert forall x | x in xs[1..] :: x in xs;
      EachOfMapped(xs[1..], write, read);
      assert Mapped(xs, write)[1..] == Mapped(xs[1..], write);
      assert xs == [xs[0]] + xs[1..];
    }
  }

  // -------- Sources --------

  predicate ValidSource(ref: SourceReference) {
    T.Strip(ref.source) != "" && T.Strip(ref.reference) != ""
  }

  function MakeSource(ref: SourceReference): Loaded<SourceReference> {
    if T.Strip(ref.source) == "" then Failure(Refused(BlankSource))
    else if T.Strip(ref.reference) == "" then Failure(Refused(BlankReference))
    else Success(ref)
  }

  function SourceToJson(clock: Calendar<Instant>, ref: SourceReference): Json {
    Object(map[
      "source" := Text(ref.source),
      "reference" := Text(ref.reference),
      "retrieved_at" := Text(clock.iso(ref.retrievedAt))
    ])
  }

  function SourceFromJson(clock: Calendar<Instant>, j: Json): Loaded<SourceReference> {
    match Both(TextAt(j, "source"), Both(TextAt(j, "reference"), TextAt(j, "retrieved_at")))
    case Failure(e) => Failure(e)
    case Success((source, (reference, at))) =>
      match clock.parse(at)
      case None => Failure(Shape(Unreadable))
      case Some(instant) => MakeSource(SourceReference(source, reference, instant))
  }

  function SourcesToJson(clock: Calendar<Instant>, sources: seq<SourceReference>): Json {
    List(Mapped(sources, ref => SourceToJson(clock, ref)))
  }

  function SourcesFromJson(clock: Calendar<Instant>, items: seq<Json>): Loaded<seq<SourceReference>> {
    Each(items, j => SourceFromJson(clock, j))
  }

  lemma FaithfulClockExists()
    ensures exists clock: Calendar<Instant> :: Faithful(clock)
  {
    FaithfulCalendarExists((t: Instant) => t.micros, (micros: int) => Instant(micros));
  }

  lemma SourceRoundTrip(clock: Calendar<Instant>, ref: SourceReference)
    requires Faithful(clock)
    ensures SourceFromJson(clock, SourceToJson(clock, ref)) == MakeSource(ref)
  {
    var j := SourceToJson(clock, ref);
    KeysOfSource();
    assert TextAt(j, "source") == Success(ref.source);
    assert TextAt(j, "reference") == Success(ref.reference);
    assert TextAt(j, "retrieved_at") == Success(clock.iso(ref.retrievedAt));
  }

  lemma KeysOfSource()
    ensures "source" != "reference" && "source" != "retrieved_at" && "reference" != "retrieved_at"
  {
    assert |"source"| == 6 && |"reference"| == 9 && |"retrieved_at"| == 12;
  }

  lemma SourcesRoundTrip(clock: Calendar<Instant>, sources: seq<SourceReference>)
    requires Faithful(clock)
    ensures SourcesFromJson(clock, SourcesToJson(clock, sources).items).Success? <==>
            forall ref | ref in sources :: ValidSource(ref)
    ensures SourcesFromJson(clock, SourcesToJson(clock, sources).items).Success? ==>
            SourcesFromJson(clock, SourcesToJson(clock, sources).items) == Success(sources)
  {
    var write := (ref: SourceReference) => SourceToJson(clock, ref);
    var read := (j: Json) => SourceFromJson(clock, j);
    forall ref | ref in sources
      ensures read(write(ref)) == MakeSource(ref)
    {
      SourceRoundTrip(clock, ref);
    }
    EachOfMapped(sources, write, read);
  }

  // -------- Evidence --------

  predicate ValidEvidence(e: Evidence) {
    T.Strip(e.claim) != "" && e.sources != [] && forall ref | ref in e.sources :: ValidSource(ref)
  }

  function LoadEvidence(claim: string, sources: seq<SourceReference>): Loaded<Evidence> {
    match MakeEvidence(claim, sources)
    case Success(e) => Success(e)
    case Failure(reason) => Failure(Refused(reason))
  }

  function EvidenceToJson(clock: Calendar<Instant>, e: Evidence): Json {
    Object(map["claim" := Text(e.claim), "sources" := SourcesToJson(clock, e.sources)])
  }

  function EvidenceFromJson(clock: Calendar<Instant>, j: Json): Loaded<Evidence> {
    match Both(TextAt(j, "claim"), ListAt(j, "sources"))
    case Failure(e) => Failure(e)
    case Success((claim, items)) =>
      match SourcesFromJson(clock, items)
      case Failure(e) => Failure(e)
      case Success(sources) => LoadEvidence(claim, sources)
  }

  lemma EvidenceRoundTrip(clock: Calendar<Instant>, e: Evidence)
    requires Faithful(clock)
    ensures EvidenceFromJson(clock, EvidenceToJson(clock, e)).Success? <==> ValidEvidence(e)
    ensures EvidenceFromJson(clock, EvidenceToJson(clock, e)).Success? ==>
            EvidenceFromJson(clock, EvidenceToJson(clock, e)) == Success(e)
  {
    var j := EvidenceToJson(clock, e);
    assert |"claim"| == 5 && |"sources"| == 7;
    assert TextAt(j, "claim") == Success(e.claim);
    assert ListAt(j, "sources") == Success(SourcesToJson(clock, e.sources).items);
    SourcesRoundTrip(clock, e.sources);
  }

  // -------- Dimensions --------

  function LoadDimension(d: DimensionAssessment): Loaded<DimensionAssessment> {
    match DimensionError(d)
    case None => Success(d)
    case Some(reason) => Failure(Refused(reason))
  }

  function OptionalNumber(x: Option<real>): Json {
    match x
    case None => Null
    case Some(value) => Decimal(value)
  }

  function OptionalText(x: Option<string>): Json {
    match x
    case None => Null
    case Some(value) => Text(value)
  }

  function ReasonToJson(reason: string): Json {
    Text(reason)
  }

  function ReasonFromJson(j: Json): Loaded<string> {
    if j.Text? then Success(j.text) else Failure(Shape(Malformed))
  }

  function DimensionToJson(clock: Calendar<Instant>, d: DimensionAssessment): Json {
    Object(map[
      "dimension" := Text(DimensionName(d.dimension)),
      "weight" := Decimal(d.weight),
      "status" := Text(StatusName(d.status)),
      "earned_score" := Decimal(d.earned),
      "normalized_value" := OptionalNumber(d.normalized),
      "raw_value" := OptionalText(d.rawValue),
      "confidence" := Decimal(d.confidence),
      "reasons" := List(Mapped(d.reasons, ReasonToJson)),
      "evidence" := List(Mapped(d.evidence, e => EvidenceToJson(clock, e)))
    ])
  }

  function DimensionAt(j: Json, key: string): Loaded<Dimension> {
    match TextAt(j, key)
    case Failure(e) => Failure(e)
    case Success(name) =>
      match DimensionNamed(name)
      case None => Failure(Shape(UnknownName))
      case Some(d) => Success(d)
  }

  function StatusAt(j: Json, key: string): Loaded<Status> {
    match TextAt(j, key)
    case Failure(e) => Failure(e)
    case Success(name) =>
      match StatusNamed(name)
      case None => Failure(Shape(UnknownName))
      case Some(s) => Success(s)
  }

  function ReasonsAt(j: Json, key: string): Loaded<seq<string>> {
    match ListAt(j, key)
    case Failure(e) => Failure(e)
    case Success(items) => Each(items, ReasonFromJson)
  }

  function EvidenceAt(clock: Calendar<Instant>, j: Json, key: string): Loaded<seq<Evidence>> {
    match ListAt(j, key)
    case Failure(e) => Failure(e)
    case Success(items) => Each(items, item => EvidenceFromJson(clock, item))
  }

  function DimensionFromJson(clock: Calendar<Instant>, j: Json): Loaded<DimensionAssessment> {
    match Both(Both(DimensionAt(j, "dimension"), Both(NumberAt(j, "weight"), StatusAt(j, "status"))),
               Both(Both(NumberAt(j, "earned_score"), OptionalNumberAt(j, "normalized_value")),
                    Both(Both(OptionalTextAt(j, "raw_value"), NumberAt(j, "confidence")),
                         Both(ReasonsAt(j, "reasons"), EvidenceAt(clock, j, "evidence")))))
    case Failure(e) => Failure(e)
    case Success(((dimension, (weight, status)),
                  ((earned, normalized), ((rawValue, confidence), (reasons, evidence))))) =>
      LoadDimension(DimensionAssessment(dimension, weight, status, earned, normalized, rawValue, confidence,
                                        reasons, evidence))
  }

  predicate ValidParts(d: DimensionAssessment) {
    Valid(d) && forall e | e in d.evidence :: ValidEvidence(e)
  }

  lemma {:induction false} ReasonsRoundTrip(reasons: seq<string>)
    ensures Each(Mapped(reasons, ReasonToJson), ReasonFromJson) == Success(reasons)
  {
    EachOfMapped(reasons, ReasonToJson, ReasonFromJson);
  }

  lemma EvidencesRoundTrip(clock: Calendar<Instant>, es: seq<Evidence>)
    requires Faithful(clock)
    ensures var loaded := Each(Mapped(es, e => EvidenceToJson(clock, e)), item => EvidenceFromJson(clock, item));
            && (loaded.Success? <==> forall e | e in es :: ValidEvidence(e))
            && (loaded.Success? ==> loaded == Success(es))
  {
    var write := (e: Evidence) => EvidenceToJson(clock, e);
    var read := (j: Json) => EvidenceFromJson(clock, j);
    forall e | e in es
      ensures read(write(e)).Success? <==> ValidEvidence(e)
      ensures read(write(e)).Success? ==> read(write(e)) == Success(e)
    {
      EvidenceRoundTrip(clock, e);
    }
    EachOfMapped(es, write, read);
  }

  // What the fields of a written dimension are.
  ghost predicate HoldsDimension(clock: Calendar<Instant>, j: Json, d: DimensionAssessment) {
    && Field(j, "dimension") == Success(Text(DimensionName(d.dimension)))
    && Field(j, "weight") == Success(Decimal(d.weight))
    && Field(j, "status") == Success(Text(StatusName(d.status)))
    && Field(j, "earned_score") == Success(Decimal(d.earned))
    && Field(j, "normalized_value") == Success(OptionalNumber(d.normalized))
    && Field(j, "raw_value") == Success(OptionalText(d.rawValue))
    && Field(j, "confidence") == Success(Decimal(d.confidence))
    && Field(j, "reasons") == Success(List(Mapped(d.reasons, ReasonToJson)))
    && Field(j, "evidence") == Success(List(Mapped(d.evidence, e => EvidenceToJson(clock, e))))
  }

  // The keys are different, so each is looked up as it was written.
  lemma DimensionFields(clock: Calendar<Instant>, d: DimensionAssessment)
    ensures HoldsDimension(clock, DimensionToJson(clock, d), d)
  {
    assert |"dimension"| == 9 && |"weight"| == 6 && |"status"| == 6 && |"earned_score"| == 12;
    assert |"normalized_value"| == 16 && |"raw_value"| == 9 && |"confidence"| == 10;
    assert |"reasons"| == 7 && |"evidence"| == 8;
    assert "weight"[0] == 'w' && "status"[0] == 's' && "dimension"[0] == 'd' && "raw_value"[0] == 'r';
  }

  lemma NamesRead(clock: Calendar<Instant>, j: Json, d: DimensionAssessment)
    requires HoldsDimension(clock, j, d)
    ensures DimensionAt(j, "dimension") == Success(d.dimension) && StatusAt(j, "status") == Success(d.status)
  {
    DimensionNameRead(j, "dimension", d.dimension);
    StatusNameRead(j, "status", d.status);
  }

  lemma DimensionNameRead(j: Json, key: string, d: Dimension)
    requires Field(j, key) == Success(Text(DimensionName(d)))
    ensures DimensionAt(j, key) == Success(d)
  {
    DimensionFound(ALL_DIMENSIONS, d);
  }

  lemma StatusNameRead(j: Json, key: string, status: Status)
    requires Field(j, key) == Success(Text(StatusName(status)))
    ensures StatusAt(j, key) == Success(status)
  {
    StatusFound(ALL_STATUSES, status);
  }

  lemma ValuesRead(clock: Calendar<Instant>, j: Json, d: DimensionAssessment)
    requires HoldsDimension(clock, j, d)
    ensures NumberAt(j, "weight") == Success(d.weight) && NumberAt(j, "earned_score") == Success(d.earned)
    ensures OptionalNumberAt(j, "normalized_value") == Success(d.normalized)
    ensures OptionalTextAt(j, "raw_value") == Success(d.rawValue)
    ensures NumberAt(j, "confidence") == Success(d.confidence)
    ensures ReasonsAt(j, "reasons") == Success(d.reasons)
  {
    ReasonsRoundTrip(d.reasons);
  }

  lemma EvidenceRead(clock: Calendar<Instant>, j: Json, d: DimensionAssessment)
    requires Faithful(clock) && HoldsDimension(clock, j, d)
    ensures EvidenceAt(clock, j, "evidence").Success? <==> forall e | e in d.evidence :: ValidEvidence(e)
    ensures EvidenceAt(clock, j, "evidence").Success? ==> EvidenceAt(clock, j, "evidence") == Success(d.evidence)
  {
    EvidencesRoundTrip(clock, d.evidence);
  }

  lemma DimensionRead(clock: Calendar<Instant>, j: Json, d: DimensionAssessment)
    requires Faithful(clock) && HoldsDimension(clock, j, d)
    ensures DimensionFromJson(clock, j).Success? <==> ValidParts(d)
    ensures DimensionFromJson(clock, j).Success? ==> DimensionFromJson(clock, j) == Success(d)
  {
    NamesRead(clock, j, d);
    ValuesRead(clock, j, d);
    EvidenceRead(clock, j, d);
  }

  lemma DimensionRoundTrip(clock: Calendar<Instant>, d: DimensionAssessment)
    requires Faithful(clock)
    ensures DimensionFromJson(clock, DimensionToJson(clock, d)).Success? <==> ValidParts(d)
    ensures DimensionFromJson(clock, DimensionToJson(clock, d)).Success? ==>
            DimensionFromJson(clock, DimensionToJson(clock, d)) == Success(d)
  {
    DimensionFields(clock, d);
    DimensionRead(clock, DimensionToJson(clock, d), d);
  }

  // -------- The breakdown --------

  function BreakdownToJson(clock: Calendar<Instant>, b: ScoreBreakdown): Json {
    Object(map[
      "total_score" := Decimal(b.totalScore),
      "maximum_score" := Decimal(b.maximumScore),
      "assessed_weight" := Decimal(b.assessedWeight),
      "missing_weight" := Decimal(b.missingWeight),
      "dimensions" := List(Mapped(b.dimensions, d => DimensionToJson(clock, d)))
    ])
  }

  function LoadBreakdown(b: ScoreBreakdown): Loaded<ScoreBreakdown> {
    match MakeBreakdown(b)
    case Success(_) => Success(b)
    case Failure(reason) => Failure(Refused(reason))
  }

  function DimensionsAt(clock: Calendar<Instant>, j: Json, key: string): Loaded<seq<DimensionAssessment>> {
    match ListAt(j, key)
    case Failure(e) => Failure(e)
    case Success(items) => Each(items, item => DimensionFromJson(clock, item))
  }

  function BreakdownFromJson(clock: Calendar<Instant>, j: Json): Loaded<ScoreBreakdown> {
    match Both(Both(NumberAt(j, "total_score"), NumberAt(j, "maximum_score")),
               Both(Both(NumberAt(j, "assessed_weight"), NumberAt(j, "missing_weight")),
                    DimensionsAt(clock, j, "dimensions")))
    case Failure(e) => Failure(e)
    case Success(((total, maximum), ((assessed, missing), dimensions))) =>
      LoadBreakdown(ScoreBreakdown(dimensions, total, maximum, assessed, missing))
  }

  // A breakdown all of whose constructors accepted their arguments.
  predicate ValidBreakdown(b: ScoreBreakdown) {
    BreakdownError(b).None? && forall d | d in b.dimensions :: ValidParts(d)
  }

  lemma DimensionsRoundTrip(clock: Calendar<Instant>, ds: seq<DimensionAssessment>)
    requires Faithful(clock)
    ensures var loaded := Each(Mapped(ds, d => DimensionToJson(clock, d)), item => DimensionFromJson(clock, item));
            && (loaded.Success? <==> forall d | d in ds :: ValidParts(d))
            && (loaded.Success? ==> loaded == Success(ds))
  {
    var write := (d: DimensionAssessment) => DimensionToJson(clock, d);
    var read := (j: Json) => DimensionFromJson(clock, j);
    forall d | d in ds
      ensures read(write(d)).Success? <==> ValidParts(d)
      ensures read(write(d)).Success? ==> read(write(d)) == Success(d)
    {
      DimensionRoundTrip(clock, d);
    }
    EachOfMapped(ds, write, read);
  }

  ghost predicate HoldsBreakdown(clock: Calendar<Instant>, j: Json, b: ScoreBreakdown) {
    && Field(j, "total_score") == Success(Decimal(b.totalScore))
    && Field(j, "maximum_score") == Success(Decimal(b.maximumScore))
    && Field(j, "assessed_weight") == Success(Decimal(b.assessedWeight))
    && Field(j, "missing_weight") == Success(Decimal(b.missingWeight))
    && Field(j, "dimensions") == Success(List(Mapped(b.dimensions, d => DimensionToJson(clock, d))))
  }

  lemma BreakdownFields(clock: Calendar<Instant>, b: ScoreBreakdown)
    ensures HoldsBreakdown(clock, BreakdownToJson(clock, b), b)
  {
    assert |"total_score"| == 11 && |"maximum_score"| == 13 && |"assessed_weight"| == 15;
    assert |"missing_weight"| == 14 && |"dimensions"| == 10;
  }

  lemma DimensionsRead(clock: Calendar<Instant>, j: Json, b: ScoreBreakdown)
    requires Faithful(clock) && HoldsBreakdown(clock, j, b)
    ensures DimensionsAt(clock, j, "dimensions").Success? <==> forall d | d in b.dimensions :: ValidParts(d)
    ensures DimensionsAt(clock, j, "dimensions").Success? ==>
            DimensionsAt(clock, j, "dimensions") == Success(b.dimensions)
  {
    DimensionsRoundTrip(clock, b.dimensions);
  }

  lemma BreakdownRead(clock: Calendar<Instant>, j: Json, b: ScoreBreakdown)
    requires Faithful(clock) && HoldsBreakdown(clock, j, b)
    ensures BreakdownFromJson(clock, j).Success? <==> ValidBreakdown(b)
    ensures ValidBreakdown(b) ==> BreakdownFromJson(clock, j) == Success(b)
  {
    DimensionsRead(clock, j, b);
  }

  // Loading what was saved gives the same breakdown back, with all its evidence and sources,
  // exactly when it was a valid one: then no constructor check refuses it.
  lemma BreakdownRoundTrip(clock: Calendar<Instant>, b: ScoreBreakdown)
    requires Faithful(clock)
    ensures BreakdownFromJson(clock, BreakdownToJson(clock, b)).Success? <==> ValidBreakdown(b)
    ensures ValidBreakdown(b) ==> BreakdownFromJson(clock, BreakdownToJson(clock, b)) == Success(b)
  {
    BreakdownFields(clock, b);
    BreakdownRead(clock, BreakdownToJson(clock, b), b);
  }

  // In particular whatever from_dimensions has built from valid parts can be saved and loaded.
  lemma BuiltBreakdownLoads(clock: Calendar<Instant>, ds: seq<DimensionAssessment>)
    requires Faithful(clock) && DistinctDimensions(ds) && forall d | d in ds :: ValidParts(d)
    ensures FromDimensions(ds).Success?
    ensures var b := FromDimensions(ds).value;
            BreakdownFromJson(clock, BreakdownToJson(clock, b)) == Success(b)
  {
    FromDimensionsSucceedsIff(ds);
    BreakdownRoundTrip(clock, FromDimensions(ds).value);
  }
}
