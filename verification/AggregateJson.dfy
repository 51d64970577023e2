/** An importer's evidence aggregate as a row and back (apps/backend/app/database/mappers/import_evidence.py). */
module AggregateJson {
  import opened JsonValues
  import opened Wrappers

  // Days since the epoch.
  datatype Date = Date(days: int)

  // Dates as text, and str() of a value that is not text.
  datatype Codec = Codec(dates: Calendar<Date>, show: Json -> string)

  lemma FaithfulDatesExist()
    ensures exists dates: Calendar<Date> :: Faithful(dates)
  {
    FaithfulCalendarExists((d: Date) => d.days, (days: int) => Date(days));
  }

  // The measurements of an aggregate that to_model writes into its metrics.
  datatype Counts = Counts(
    verifiedShipmentCount: int,
    usableShipmentCount: int,
    reviewShipmentCount: int,
    rejectedShipmentCount: int,
    undatedShipmentCount: int,
    skippedShipmentCount: int,
    activeMonthCount: int,
    uniqueSupplierCount: int,
    unknownSupplierCount: int,
    uniqueOriginCountryCount: int,
    uniqueDestinationPortCount: int,
    uniqueCarrierCount: int,
    knownOriginShipmentCount: int,
    chinaOriginShipmentCount: int,
    unknownOriginShipmentCount: int,
    totalContainerCount: int,
    shipmentCount90d: int,
    shipmentCount365d: int,
    shipmentCount730d: int,
    shipmentCountPrevious365d: int
  )

  datatype Metrics = Metrics(
    counts: Counts,
    earliestArrivalDate: Option<Date>,
    latestArrivalDate: Option<Date>,
    knownWeightKg: Option<real>,
    medianDaysBetweenShipments: Option<real>,
    trendCandidate: string
  )

  datatype Metric =
    | VerifiedShipmentCount | UsableShipmentCount | ReviewShipmentCount | RejectedShipmentCount
    | UndatedShipmentCount | SkippedShipmentCount | ActiveMonthCount | UniqueSupplierCount
    | UnknownSupplierCount | UniqueOriginCountryCount | UniqueDestinationPortCount | UniqueCarrierCount
    | EarliestArrivalDate | LatestArrivalDate | KnownOriginShipmentCount | ChinaOriginShipmentCount
    | UnknownOriginShipmentCount | TotalContainerCount | KnownWeightKg | ShipmentCount90d | ShipmentCount365d
    | ShipmentCount730d | ShipmentCountPrevious365d | MedianDaysBetweenShipments | TrendCandidate

  // In the order they are written.
  const ALL_METRICS: seq<Metric> := [
    VerifiedShipmentCount, UsableShipmentCount, ReviewShipmentCount, RejectedShipmentCount,
    UndatedShipmentCount, SkippedShipmentCount, ActiveMonthCount, UniqueSupplierCount, UnknownSupplierCount,
    UniqueOriginCountryCount, UniqueDestinationPortCount, UniqueCarrierCount, EarliestArrivalDate,
    LatestArrivalDate, KnownOriginShipmentCount, ChinaOriginShipmentCount, UnknownOriginShipmentCount,
    TotalContainerCount, KnownWeightKg, ShipmentCount90d, ShipmentCount365d, ShipmentCount730d,
    ShipmentCountPrevious365d, MedianDaysBetweenShipments, TrendCandidate
  ]

  function Key(m: Metric): string {
    match m
    case VerifiedShipmentCount => "verified_shipment_count"
    case UsableShipmentCount => "usable_shipment_count"
    case ReviewShipmentCount => "review_shipment_count"
    case RejectedShipmentCount => "rejected_shipment_count"
    case UndatedShipmentCount => "undated_shipment_count"
    case SkippedShipmentCount => "skipped_shipment_count"
    case ActiveMonthCount => "active_month_count"
    case UniqueSupplierCount => "unique_supplier_count"
    case UnknownSupplierCount => "unknown_supplier_count"
    case UniqueOriginCountryCount => "unique_origin_country_count"
    case UniqueDestinationPortCount => "unique_destination_port_count"
    case UniqueCarrierCount => "unique_carrier_count"
    case EarliestArrivalDate => "earliest_arrival_date"
    case LatestArrivalDate => "latest_arrival_date"
    case KnownOriginShipmentCount => "known_origin_shipment_count"
    case ChinaOriginShipmentCount => "china_origin_shipment_count"
    case UnknownOriginShipmentCount => "unknown_origin_shipment_count"
    case TotalContainerCount => "total_container_count"
    case KnownWeightKg => "known_weight_kg"
    case ShipmentCount90d => "shipment_count_90d"
    case ShipmentCount365d => "shipment_count_365d"
    case ShipmentCount730d => "shipment_count_730d"
    case ShipmentCountPrevious365d => "shipment_count_previous_365d"
    case MedianDaysBetweenShipments => "median_days_between_shipments"
    case TrendCandidate => "trend_candidate"
  }

  // -------- One value --------

  function DateToJson(codec: Codec, d: Option<Date>): Json {
    match d
    case None => Null
    case Some(date) => Text(codec.dates.iso(date))
  }

  function NumberToJson(x: Option<real>): Json {
    match x
    case None => Null
    case Some(value) => Decimal(value)
  }

  // int() of a float: toward zero.
  function Truncated(x: real): int {
    if x >= 0.0 then x.Floor else -((-x).Floor)
  }

  function IntOf(j: Json): int {
    match j
    case Whole(n) => n
    case Decimal(x) => Truncated(x)
    case Flag(b) => if b then 1 else 0
    case _ => 0
  }

  function FloatOrNone(j: Json): Option<real> {
    match j
    case Whole(n) => Some(n as real)
    case Decimal(x) => Some(x)
    case Flag(b) => Some(if b then 1.0 else 0.0)
    case _ => None
  }

  // Text that is no date raises an error.
  predicate IsReadableDate(codec: Codec, j: Json) {
    j.Text? ==> codec.dates.parse(j.text).Some?
  }

  function DateOf(codec: Codec, j: Json): Option<Date> {
    if j.Text? then codec.dates.parse(j.text) else None
  }

  predicate IsFalsy(j: Json) {
    match j
    case Null => true
    case Flag(b) => !b
    case Whole(n) => n == 0
    case Decimal(x) => x == 0.0
    case Text(s) => s == ""
    case List(items) => items == []
    case Object(fields) => fields == map[]
  }

  const DEFAULT_TREND := "insufficient_data"

  function TrendOf(codec: Codec, j: Json): string {
    if IsFalsy(j) then DEFAULT_TREND else if j.Text? then j.text else codec.show(j)
  }

  // What is read from a value nobody wrote there. A count is a number without its fraction, true counts one, and
  // anything that is no number counts none; a measure is any number at all.
  lemma ReadAsNumber(j: Json)
    ensures j.Whole? ==> IntOf(j) == j.whole && FloatOrNone(j) == Some(j.whole as real)
    ensures j.Decimal? ==> FloatOrNone(j) == Some(j.decimal)
    ensures j.Decimal? && j.decimal >= 0.0 ==> 0 <= IntOf(j) && IntOf(j) as real <= j.decimal < IntOf(j) as real + 1.0
    ensures j.Decimal? && j.decimal <= 0.0 ==> 0 >= IntOf(j) && IntOf(j) as real >= j.decimal > IntOf(j) as real - 1.0
    ensures j == Flag(true) ==> IntOf(j) == 1 && FloatOrNone(j) == Some(1.0)
    ensures j == Flag(false) ==> IntOf(j) == 0 && FloatOrNone(j) == Some(0.0)
    ensures !j.Whole? && !j.Decimal? && !j.Flag? ==> IntOf(j) == 0 && FloatOrNone(j) == None
  {
  }

  // A trend is defaulted exactly where the value counts as false: null, false, zero and what is empty.
  lemma ReadAsTrend(codec: Codec, j: Json)
    ensures var empty := j in {Null, Flag(false), Whole(0), Decimal(0.0), Text(""), List([]), Object(map[])};
            TrendOf(codec, j) == if empty then "insufficient_data" else if j.Text? then j.text else codec.show(j)
  {
  }

  // -------- All the metrics --------

  function Written(codec: Codec, x: Metrics, m: Metric): Json {
    match m
    case VerifiedShipmentCount => Whole(x.counts.verifiedShipmentCount)
    case UsableShipmentCount => Whole(x.counts.usableShipmentCount)
    case ReviewShipmentCount => Whole(x.counts.reviewShipmentCount)
    case RejectedShipmentCount => Whole(x.counts.rejectedShipmentCount)
    case UndatedShipmentCount => Whole(x.counts.undatedShipmentCount)
    case SkippedShipmentCount => Whole(x.counts.skippedShipmentCount)
    case ActiveMonthCount => Whole(x.counts.activeMonthCount)
    case UniqueSupplierCount => Whole(x.counts.uniqueSupplierCount)
    case UnknownSupplierCount => Whole(x.counts.unknownSupplierCount)
    case UniqueOriginCountryCount => Whole(x.counts.uniqueOriginCountryCount)
    case UniqueDestinationPortCount => Whole(x.counts.uniqueDestinationPortCount)
    case UniqueCarrierCount => Whole(x.counts.uniqueCarrierCount)
    case EarliestArrivalDate => DateToJson(codec, x.earliestArrivalDate)
    case LatestArrivalDate => DateToJson(codec, x.latestArrivalDate)
    case KnownOriginShipmentCount => Whole(x.counts.knownOriginShipmentCount)
    case ChinaOriginShipmentCount => Whole(x.counts.chinaOriginShipmentCount)
    case UnknownOriginShipmentCount => Whole(x.counts.unknownOriginShipmentCount)
    case TotalContainerCount => Whole(x.counts.totalContainerCount)
    case KnownWeightKg => NumberToJson(x.knownWeightKg)
    case ShipmentCount90d => Whole(x.counts.shipmentCount90d)
    case ShipmentCount365d => Whole(x.counts.shipmentCount365d)
    case ShipmentCount730d => Whole(x.counts.shipmentCount730d)
    case ShipmentCountPrevious365d => Whole(x.counts.shipmentCountPrevious365d)
    case MedianDaysBetweenShipments => NumberToJson(x.medianDaysBetweenShipments)
    case TrendCandidate => Text(x.trendCandidate)
  }

  function CountsFrom(read: Metric -> Json): Counts {
    Counts(
      IntOf(read(VerifiedShipmentCount)),
      IntOf(read(UsableShipmentCount)),
      IntOf(read(ReviewShipmentCount)),
      IntOf(read(RejectedShipmentCount)),
      IntOf(read(UndatedShipmentCount)),
      IntOf(read(SkippedShipmentCount)),
      IntOf(read(ActiveMonthCount)),
      IntOf(read(UniqueSupplierCount)),
      IntOf(read(UnknownSupplierCount)),
      IntOf(read(UniqueOriginCountryCount)),
      IntOf(read(UniqueDestinationPortCount)),
      IntOf(read(UniqueCarrierCount)),
      IntOf(read(KnownOriginShipmentCount)),
      IntOf(read(ChinaOriginShipmentCount)),
      IntOf(read(UnknownOriginShipmentCount)),
      IntOf(read(TotalContainerCount)),
      IntOf(read(ShipmentCount90d)),
      IntOf(read(ShipmentCount365d)),
      IntOf(read(ShipmentCount730d)),
      IntOf(read(ShipmentCountPrevious365d))
    )
  }

  function MetricsFrom(codec: Codec, read: Metric -> Json): Metrics {
    Metrics(
      CountsFrom(read),
      DateOf(codec, read(EarliestArrivalDate)),
      DateOf(codec, read(LatestArrivalDate)),
      FloatOrNone(read(KnownWeightKg)),
      FloatOrNone(read(MedianDaysBetweenShipments)),
      TrendOf(codec, read(TrendCandidate))
    )
  }

  function MetricsFromJson(codec: Codec, fields: map<string, Json>): Metrics {
    MetricsFrom(codec, m => Get(fields, Key(m)))
  }

  // dict.update with the metrics in turn.
  function Overlay(codec: Codec, fields: map<string, Json>, x: Metrics, ms: seq<Metric>): map<string, Json> {
    if ms == [] then fields
    else
      var m := ms[|ms| - 1];
      Overlay(codec, fields, x, ms[..|ms| - 1])[Key(m) := Written(codec, x, m)]
  }

  // A metric can be told from the length and three characters of its key.
  function MetricOfKey(key: string): Metric
    requires |key| >= 15
  {
    var n, first, third, near := |key|, key[0], key[2], key[|key| - 4];
    if n == 15 then (if first == 'k' then KnownWeightKg else TrendCandidate)
    else if n == 18 then (if first == 'a' then ActiveMonthCount else ShipmentCount90d)
    else if n == 19 then
      (if first == 'l' then LatestArrivalDate
       else if near == '3' then ShipmentCount365d
       else ShipmentCount730d)
    else if n == 20 then UniqueCarrierCount
    else if n == 21 then
      (if third == 'a' then UsableShipmentCount
       else if first == 'r' then ReviewShipmentCount
       else if first == 'u' then UniqueSupplierCount
       else if first == 'e' then EarliestArrivalDate
       else TotalContainerCount)
    else if n == 22 then
      (if third == 'd' then UndatedShipmentCount
       else if first == 's' then SkippedShipmentCount
       else UnknownSupplierCount)
    else if n == 23 then (if first == 'v' then VerifiedShipmentCount else RejectedShipmentCount)
    else if n == 27 then
      (if first == 'u' then UniqueOriginCountryCount
       else if first == 'k' then KnownOriginShipmentCount
       else ChinaOriginShipmentCount)
    else if n == 28 then ShipmentCountPrevious365d
    else if third == 'i' then UniqueDestinationPortCount
    else if first == 'u' then UnknownOriginShipmentCount
    else MedianDaysBetweenShipments
  }

  lemma KeysTellMetrics(m: Metric)
    ensures |Key(m)| >= 15 && MetricOfKey(Key(m)) == m
  {
    if Position(m) < 12 {
      FirstKeys(m);
    } else {
      LastKeys(m);
    }
  }

  lemma FirstKeys(m: Metric)
    requires Position(m) < 12
    ensures |Key(m)| >= 15 && MetricOfKey(Key(m)) == m
  {
  }

  lemma LastKeys(m: Metric)
    requires Position(m) >= 12
    ensures |Key(m)| >= 15 && MetricOfKey(Key(m)) == m
  {
  }

  function Position(m: Metric): nat {
    match m
    case VerifiedShipmentCount => 0
    case UsableShipmentCount => 1
    case ReviewShipmentCount => 2
    case RejectedShipmentCount => 3
    case UndatedShipmentCount => 4
    case SkippedShipmentCount => 5
    case ActiveMonthCount => 6
    case UniqueSupplierCount => 7
    case UnknownSupplierCount => 8
    case UniqueOriginCountryCount => 9
    case UniqueDestinationPortCount => 10
    case UniqueCarrierCount => 11
    case EarliestArrivalDate => 12
    case LatestArrivalDate => 13
    case KnownOriginShipmentCount => 14
    case ChinaOriginShipmentCount => 15
    case UnknownOriginShipmentCount => 16
    case TotalContainerCount => 17
    case KnownWeightKg => 18
    case ShipmentCount90d => 19
    case ShipmentCount365d => 20
    case ShipmentCount730d => 21
    case ShipmentCountPrevious365d => 22
    case MedianDaysBetweenShipments => 23
    case TrendCandidate => 24
  }

  lemma MetricIsListed(m: Metric)
    ensures m in ALL_METRICS
  {
    assert Position(m) < |ALL_METRICS|;
    assert ALL_METRICS[Position(m)] == m;
  }

  // After the update every metric is there as written, whatever was under its key, and the other keys are untouched.
  lemma {:induction false} OverlayAt(codec: Codec, fields: map<string, Json>, x: Metrics, ms: seq<Metric>)
    ensures forall m | m in ms :: Get(Overlay(codec, fields, x, ms), Key(m)) == Written(codec, x, m)
    ensures forall k: string | (forall m | m in ms :: Key(m) != k) ::
              Get(Overlay(codec, fields, x, ms), k) == Get(fields, k)
  {
    if ms != [] {
      var front, last := ms[..|ms| - 1], ms[|ms| - 1];
      assert ms == front + [last];
      OverlayAt(codec, fields, x, front);
      forall m | m in ms
        ensures Get(Overlay(codec, fields, x, ms), Key(m)) == Written(codec, x, m)
      {
        KeysTellMetrics(m);
        KeysTellMetrics(last);
      }
    }
  }

  // -------- The aggregate and its row --------

  datatype AggregateStatus = Ready | Partial | InsufficientData | Blocked

  datatype InclusionStatus = Trusted | InReview | Rejected | Undated | Skipped

  datatype Inclusion = Inclusion(
    shipment: int,
    assessment: Option<int>,
    fingerprint: string,
    status: InclusionStatus,
    reason: string,
    providerCount: int,
    createdAt: int
  )

  // The columns that both sides hold alike.
  datatype Columns = Columns(
    id: int,
    company: Option<int>,
    identity: string,
    aggregateVersion: string,
    ruleVersion: string,
    promotable: bool,
    fingerprint: string,
    isCurrent: bool,
    asOf: Date,
    windowDays: int,
    previousWindowDays: int,
    qualitySummary: map<string, Json>,
    blockingReasons: seq<string>,
    statusReasons: seq<string>,
    providerCount: int,
    trustedCount: int,
    createdAt: int,
    supersededAt: Option<int>
  )

  datatype Aggregate = Aggregate(
    columns: Columns,
    status: AggregateStatus,
    metricsJson: map<string, Json>,
    metrics: Metrics,
    inclusions: seq<Inclusion>
  )

  datatype AggregateRow = AggregateRow(columns: Columns, status: string, metricsJson: map<string, Json>)

  datatype InclusionRow = InclusionRow(
    aggregate: int,
    shipment: int,
    assessment: Option<int>,
    fingerprint: string,
    status: string,
    reason: string,
    providerCount: int,
    createdAt: int
  )

  datatype MapperError = NoIdentity | NoFingerprint | UnknownStatus | UnreadableDate

  function StatusValue(s: AggregateStatus): string {
    match s
    case Ready => "READY"
    case Partial => "PARTIAL"
    case InsufficientData => "INSUFFICIENT_DATA"
    case Blocked => "BLOCKED"
  }

  function StatusOf(value: string): Option<AggregateStatus> {
    if value == "READY" then Some(Ready)
    else if value == "PARTIAL" then Some(Partial)
    else if value == "INSUFFICIENT_DATA" then Some(InsufficientData)
    else if value == "BLOCKED" then Some(Blocked)
    else None
  }

  function InclusionValue(s: InclusionStatus): string {
    match s
    case Trusted => "trusted"
    case InReview => "review"
    case Rejected => "rejected"
    case Undated => "undated"
    case Skipped => "skipped"
  }

  function InclusionOf(value: string): Option<InclusionStatus> {
    if value == "trusted" then Some(Trusted)
    else if value == "review" then Some(InReview)
    else if value == "rejected" then Some(Rejected)
    else if value == "undated" then Some(Undated)
    else if value == "skipped" then Some(Skipped)
    else None
  }

  lemma StatusRoundTrip(s: AggregateStatus)
    ensures StatusOf(StatusValue(s)) == Some(s)
  {
    assert "PARTIAL"[0] != "BLOCKED"[0] && |"READY"| == 5 && |"PARTIAL"| == 7 && |"INSUFFICIENT_DATA"| == 17;
  }

  lemma InclusionStatusRoundTrip(s: InclusionStatus)
    ensures InclusionOf(InclusionValue(s)) == Some(s)
  {
    assert |"review"| == 6 && |"rejected"| == 8;
    assert "trusted"[0] == 't' && "undated"[0] == 'u' && "skipped"[0] == 's';
  }

  predicate HasReadableDates(codec: Codec, fields: map<string, Json>) {
    && IsReadableDate(codec, Get(fields, Key(EarliestArrivalDate)))
    && IsReadableDate(codec, Get(fields, Key(LatestArrivalDate)))
  }

  function Payload(codec: Codec, a: Aggregate): map<string, Json> {
    Overlay(codec, a.metricsJson, a.metrics, ALL_METRICS)
  }

  function ToModel(codec: Codec, a: Aggregate): Result<AggregateRow, MapperError> {
    if a.columns.identity == "" then Failure(NoIdentity)
    else if a.columns.fingerprint == "" then Failure(NoFingerprint)
    else Success(AggregateRow(a.columns, StatusValue(a.status), Payload(codec, a)))
  }

  function InclusionToModel(aggregate: int, i: Inclusion): InclusionRow {
    InclusionRow(aggregate, i.shipment, i.assessment, i.fingerprint, InclusionValue(i.status), i.reason,
                 i.providerCount, i.createdAt)
  }

  function InclusionsToModel(aggregate: int, included: seq<Inclusion>): seq<InclusionRow> {
    if included == [] then []
    else [InclusionToModel(aggregate, included[0])] + InclusionsToModel(aggregate, included[1..])
  }

  function InclusionsToDomain(rows: seq<InclusionRow>): Result<seq<Inclusion>, MapperError> {
    if rows == [] then Success([])
    else
      var row := rows[0];
      match InclusionOf(row.status)
      case None => Failure(UnknownStatus)
      case Some(status) =>
        match InclusionsToDomain(rows[1..])
        case Failure(e) => Failure(e)
        case Success(rest) =>
          Success([Inclusion(row.shipment, row.assessment, row.fingerprint, status, row.reason, row.providerCount,
                             row.createdAt)] + rest)
  }

  function ToDomain(codec: Codec, row: AggregateRow, inclusionRows: seq<InclusionRow>): Result<Aggregate, MapperError> {
    match InclusionsToDomain(inclusionRows)
    case Failure(e) => Failure(e)
    case Success(inclusions) =>
      match StatusOf(row.status)
      case None => Failure(UnknownStatus)
      case Some(status) =>
        if !HasReadableDates(codec, row.metricsJson) then Failure(UnreadableDate)
        else
          Success(Aggregate(row.columns, status, row.metricsJson, MetricsFromJson(codec, row.metricsJson),
                            inclusions))
  }

  // Saving and loading in one step.
  function Reload(codec: Codec, a: Aggregate): Result<Aggregate, MapperError> {
    match ToModel(codec, a)
    case Failure(e) => Failure(e)
    case Success(row) => ToDomain(codec, row, InclusionsToModel(a.columns.id, a.inclusions))
  }

  // -------- The round trip --------

  predicate HasKeys(a: Aggregate) {
    a.columns.identity != "" && a.columns.fingerprint != ""
  }

  // A blank trend is read back as the default.
  function Trended(x: Metrics): Metrics {
    x.(trendCandidate := if x.trendCandidate == "" then DEFAULT_TREND else x.trendCandidate)
  }

  lemma PayloadAt(codec: Codec, a: Aggregate, m: Metric)
    ensures Get(Payload(codec, a), Key(m)) == Written(codec, a.metrics, m)
  {
    OverlayAt(codec, a.metricsJson, a.metrics, ALL_METRICS);
    MetricIsListed(m);
  }

  // What is read is what is written.
  ghost predicate ReadsWritten(codec: Codec, x: Metrics, read: Metric -> Json) {
    forall m: Metric {:trigger read(m)} :: read(m) == Written(codec, x, m)
  }

  predicate HasFirstCounts(c: Counts, read: Metric -> Json) {
    && read(VerifiedShipmentCount) == Whole(c.verifiedShipmentCount)
    && read(UsableShipmentCount) == Whole(c.usableShipmentCount)
    && read(ReviewShipmentCount) == Whole(c.reviewShipmentCount)
    && read(RejectedShipmentCount) == Whole(c.rejectedShipmentCount)
    && read(UndatedShipmentCount) == Whole(c.undatedShipmentCount)
    && read(SkippedShipmentCount) == Whole(c.skippedShipmentCount)
    && read(ActiveMonthCount) == Whole(c.activeMonthCount)
    && read(UniqueSupplierCount) == Whole(c.uniqueSupplierCount)
    && read(UnknownSupplierCount) == Whole(c.unknownSupplierCount)
    && read(UniqueOriginCountryCount) == Whole(c.uniqueOriginCountryCount)
  }

  predicate HasLastCounts(c: Counts, read: Metric -> Json) {
    && read(UniqueDestinationPortCount) == Whole(c.uniqueDestinationPortCount)
    && read(UniqueCarrierCount) == Whole(c.uniqueCarrierCount)
    && read(KnownOriginShipmentCount) == Whole(c.knownOriginShipmentCount)
    && read(ChinaOriginShipmentCount) == Whole(c.chinaOriginShipmentCount)
    && read(UnknownOriginShipmentCount) == Whole(c.unknownOriginShipmentCount)
    && read(TotalContainerCount) == Whole(c.totalContainerCount)
    && read(ShipmentCount90d) == Whole(c.shipmentCount90d)
    && read(ShipmentCount365d) == Whole(c.shipmentCount365d)
    && read(ShipmentCount730d) == Whole(c.shipmentCount730d)
    && read(ShipmentCountPrevious365d) == Whole(c.shipmentCountPrevious365d)
  }

  predicate HasOthers(codec: Codec, x: Metrics, read: Metric -> Json) {
    && read(EarliestArrivalDate) == DateToJson(codec, x.earliestArrivalDate)
    && read(LatestArrivalDate) == DateToJson(codec, x.latestArrivalDate)
    && read(KnownWeightKg) == NumberToJson(x.knownWeightKg)
    && read(MedianDaysBetweenShipments) == NumberToJson(x.medianDaysBetweenShipments)
    && read(TrendCandidate) == Text(x.trendCandidate)
  }

  lemma FirstCountsAreWritten(codec: Codec, x: Metrics, read: Metric -> Json)
    requires ReadsWritten(codec, x, read)
    ensures HasFirstCounts(x.counts, read)
  {
  }

  lemma LastCountsAreWritten(codec: Codec, x: Metrics, read: Metric -> Json)
    requires ReadsWritten(codec, x, read)
    ensures HasLastCounts(x.counts, read)
  {
  }

  lemma OthersAreWritten(codec: Codec, x: Metrics, read: Metric -> Json)
    requires ReadsWritten(codec, x, read)
    ensures HasOthers(codec, x, read)
  {
  }

  lemma CountsOfWritten(c: Counts, read: Metric -> Json)
    requires HasFirstCounts(c, read) && HasLastCounts(c, read)
    ensures CountsFrom(read) == c
  {
  }

  lemma ValuesOfWritten(codec: Codec, x: Metrics, read: Metric -> Json)
    requires Faithful(codec.dates) && HasOthers(codec, x, read) && CountsFrom(read) == x.counts
    ensures MetricsFrom(codec, read) == Trended(x)
  {
  }

  lemma MetricsOfWritten(codec: Codec, x: Metrics, read: Metric -> Json)
    requires Faithful(codec.dates) && ReadsWritten(codec, x, read)
    ensures MetricsFrom(codec, read) == Trended(x)
  {
    FirstCountsAreWritten(codec, x, read);
    LastCountsAreWritten(codec, x, read);
    OthersAreWritten(codec, x, read);
    CountsOfWritten(x.counts, read);
    ValuesOfWritten(codec, x, read);
  }

  // Every metric stands under its key as it is written.
  ghost predicate Holds(codec: Codec, fields: map<string, Json>, x: Metrics) {
    forall m: Metric :: HoldsAt(codec, fields, x, m)
  }

  predicate HoldsAt(codec: Codec, fields: map<string, Json>, x: Metrics, m: Metric) {
    Get(fields, Key(m)) == Written(codec, x, m)
  }

  lemma MetricsOfHeld(codec: Codec, fields: map<string, Json>, x: Metrics)
    requires Faithful(codec.dates) && Holds(codec, fields, x)
    ensures MetricsFromJson(codec, fields) == Trended(x)
  {
    var read := (m: Metric) => Get(fields, Key(m));
    forall m: Metric ensures read(m) == Written(codec, x, m) {
      assert HoldsAt(codec, fields, x, m);
    }
    MetricsOfWritten(codec, x, read);
  }

  lemma DatesOfHeld(codec: Codec, fields: map<string, Json>, x: Metrics)
    requires Faithful(codec.dates) && Holds(codec, fields, x)
    ensures HasReadableDates(codec, fields)
  {
    assert HoldsAt(codec, fields, x, EarliestArrivalDate);
    assert HoldsAt(codec, fields, x, LatestArrivalDate);
  }

  lemma PayloadHolds(codec: Codec, a: Aggregate)
    ensures Holds(codec, Payload(codec, a), a.metrics)
  {
    forall m: Metric
      ensures HoldsAt(codec, Payload(codec, a), a.metrics, m)
    {
      PayloadAt(codec, a, m);
    }
  }

  lemma {:induction false} InclusionsRoundTrip(aggregate: int, included: seq<Inclusion>)
    ensures InclusionsToDomain(InclusionsToModel(aggregate, included)) == Success(included)
  {
    if included != [] {
      InclusionStatusRoundTrip(included[0].status);
      InclusionsRoundTrip(aggregate, included[1..]);
      assert InclusionsToModel(aggregate, included)[1..] == InclusionsToModel(aggregate, included[1..]);
      assert included == [included[0]] + included[1..];
    }
  }

  // The rows of the inclusions belong to their aggregate and hold the inclusions column by column.
  lemma {:induction false} InclusionColumns(aggregate: int, included: seq<Inclusion>, k: nat)
    requires k < |included|
    ensures |InclusionsToModel(aggregate, included)| == |included|
    ensures var row, i := InclusionsToModel(aggregate, included)[k], included[k];
            && row.aggregate == aggregate && row.shipment == i.shipment && row.assessment == i.assessment
            && row.fingerprint == i.fingerprint && row.reason == i.reason
            && row.providerCount == i.providerCount && row.createdAt == i.createdAt
  {
    if |included| > 1 {
      InclusionColumns(aggregate, included[1..], if k > 0 then k - 1 else 0);
    }
  }

  // What cannot be saved, and what cannot be loaded.
  lemma RefusedFor(codec: Codec, a: Aggregate, row: AggregateRow)
    ensures ToModel(codec, a).Failure? ==>
              ToModel(codec, a).error == if a.columns.identity == "" then NoIdentity else NoFingerprint
    ensures ToDomain(codec, row, []).Success? <==>
            && row.status in {"READY", "PARTIAL", "INSUFFICIENT_DATA", "BLOCKED"}
            && forall m | m in {EarliestArrivalDate, LatestArrivalDate} ::
                 Get(row.metricsJson, Key(m)).Text? ==> codec.dates.parse(Get(row.metricsJson, Key(m)).text).Some?
    ensures ToDomain(codec, row, []).Failure? ==>
              ToDomain(codec, row, []).error ==
              if row.status in {"READY", "PARTIAL", "INSUFFICIENT_DATA", "BLOCKED"} then UnreadableDate else UnknownStatus
  {
    StatusKnown(row.status);
  }

  lemma StatusKnown(value: string)
    ensures StatusOf(value).Some? <==> value in {"READY", "PARTIAL", "INSUFFICIENT_DATA", "BLOCKED"}
  {
  }

  // Loading what was saved restores every column, every named metric and every inclusion, whatever stood under
  // the metrics' keys before, except that a blank trend becomes the default; and the metrics come back as the payload.
  // It fails exactly when the identity or the fingerprint is blank.
  lemma ReloadRestores(codec: Codec, a: Aggregate)
    requires Faithful(codec.dates)
    ensures Reload(codec, a).Success? <==> HasKeys(a)
    ensures HasKeys(a) ==>
              Reload(codec, a) == Success(a.(metricsJson := Payload(codec, a), metrics := Trended(a.metrics)))
  {
    PayloadHolds(codec, a);
    MetricsOfHeld(codec, Payload(codec, a), a.metrics);
    DatesOfHeld(codec, Payload(codec, a), a.metrics);
    StatusRoundTrip(a.status);
    InclusionsRoundTrip(a.columns.id, a.inclusions);
  }

  // What is not a named metric stays as it was.
  lemma OtherMetricsStay(codec: Codec, a: Aggregate, key: string)
    requires forall m: Metric :: Key(m) != key
    ensures Get(Payload(codec, a), key) == Get(a.metricsJson, key)
  {
    OverlayAt(codec, a.metricsJson, a.metrics, ALL_METRICS);
  }

  lemma {:induction false} OverlayOfSame(codec: Codec, fields: map<string, Json>, x: Metrics, ms: seq<Metric>)
    requires forall m | m in ms :: Key(m) in fields && fields[Key(m)] == Written(codec, x, m)
    ensures Overlay(codec, fields, x, ms) == fields
  {
    if ms != [] {
      var front, last := ms[..|ms| - 1], ms[|ms| - 1];
      assert ms == front + [last];
      OverlayOfSame(codec, fields, x, front);
    }
  }

  lemma {:induction false} OverlayHas(codec: Codec, fields: map<string, Json>, x: Metrics, ms: seq<Metric>)
    ensures forall m | m in ms :: Key(m) in Overlay(codec, fields, x, ms)
  {
    if ms != [] {
      var front, last := ms[..|ms| - 1], ms[|ms| - 1];
      assert ms == front + [last];
      OverlayHas(codec, fields, x, front);
    }
  }

  // The aggregate a reload gives is a fixed point of reloading exactly when the trend was not blank.
  lemma ReloadTwiceIff(codec: Codec, a: Aggregate)
    requires Faithful(codec.dates) && HasKeys(a)
    ensures Reload(codec, a).Success?
    ensures Reload(codec, Reload(codec, a).value) == Reload(codec, a) <==> a.metrics.trendCandidate != ""
  {
    ReloadRestores(codec, a);
    var b := Reload(codec, a).value;
    ReloadRestores(codec, b);
    if a.metrics.trendCandidate != "" {
      PayloadStays(codec, a, b);
    } else {
      TrendChanges(codec, a, b);
    }
  }

  lemma TrendChanges(codec: Codec, a: Aggregate, b: Aggregate)
    requires a.metrics.trendCandidate == "" && b.metrics.trendCandidate != ""
    ensures Payload(codec, b) != Payload(codec, a)
  {
    PayloadAt(codec, a, TrendCandidate);
    PayloadAt(codec, b, TrendCandidate);
  }

  // Writing the same metrics over their own payload changes nothing.
  lemma PayloadStays(codec: Codec, a: Aggregate, b: Aggregate)
    requires b.metricsJson == Payload(codec, a) && b.metrics == a.metrics
    ensures Payload(codec, b) == b.metricsJson
  {
    OverlayHas(codec, a.metricsJson, a.metrics, ALL_METRICS);
    forall m | m in ALL_METRICS
      ensures Key(m) in b.metricsJson && b.metricsJson[Key(m)] == Written(codec, b.metrics, m)
    {
      PayloadAt(codec, a, m);
    }
    OverlayOfSame(codec, b.metricsJson, b.metrics, ALL_METRICS);
  }

  // Reloading once more is always enough.
  lemma ReloadThriceSettles(codec: Codec, a: Aggregate)
    requires Faithful(codec.dates) && HasKeys(a)
    ensures Reload(codec, a).Success?
    ensures var b := Reload(codec, a).value;
            Reload(codec, b).Success? && Reload(codec, Reload(codec, b).value) == Reload(codec, b)
  {
    ReloadRestores(codec, a);
    var b := Reload(codec, a).value;
    ReloadRestores(codec, b);
    ReloadTwiceIff(codec, b);
  }
}
