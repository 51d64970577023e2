/** The two tables of the promotion ledger and what each repository step writes to them.

    Every function here is one flush-to-flush step of the repository, written on values, so that
    `PromotionLedger` can say what its methods do and `PromotionTheory` can reason over runs. */
module PromotionTables {
  import opened Wrappers

  type Id = nat
  type Time = int

  datatype SignalKind =
    | CargoValuePotential | ChinaDependency | CompanyScale | Contactability
    | GrowthSignal | ImportActivity | LogisticsComplexity | ShippingFit

  datatype PromotionStatus = CandidateStatus | Promoted | Skipped | Blocked | Superseded | Failed

  datatype QualityStatus = Verified | Usable | Review | Rejected

  /** The columns copied verbatim from candidate to promotion to signal. */
  datatype Content = Content(detail: string, value: string, source: string, snapshot: string)

  /** One current version may exist per company and signal kind. */
  datatype Group = Group(company: Id, kind: SignalKind)

  datatype Candidate = Candidate(
    aggregate: Id, company: Option<Id>, kind: SignalKind, content: Content,
    qualityStatus: Option<QualityStatus>, qualityScore: Option<real>,
    fingerprint: string, status: PromotionStatus)

  datatype Promotion = Promotion(
    aggregate: Id, group: Group, content: Content,
    qualityStatus: Option<QualityStatus>, qualityScore: Option<real>,
    fingerprint: string, status: PromotionStatus, isCurrent: bool, signal: Option<Id>,
    supersededBy: Option<Id>, promotedAt: Option<Time>, supersededAt: Option<Time>,
    createdAt: Time, updatedAt: Time)

  datatype Signal = Signal(
    promotion: Id, aggregate: Id, group: Group, content: Content,
    qualityStatus: QualityStatus, qualityScore: real, isActive: bool,
    supersededBy: Option<Id>, createdAt: Time, supersededAt: Option<Time>)

  datatype Tables = Tables(promotions: map<Id, Promotion>, signals: map<Id, Signal>)

  const EMPTY := Tables(map[], map[])

  datatype LedgerError =
    | UnresolvedCompany   // the batch does not name exactly one company
    | MissingQuality      // a promoted candidate has no quality status or score
    | PartialBatch        // some candidates are stored and some are not
    | MissingProjection   // a promotion names a signal row that does not exist
    | MultipleRows        // a lookup that expects at most one row found two
    | IntegrityViolation  // a flush broke a constraint of the database

  // ---------------------------------------------------------------- lookups

  /** The unique key `uq_import_promotion_input`; the company is not part of it. */
  predicate SameInput(p: Promotion, c: Candidate) {
    p.aggregate == c.aggregate && p.group.kind == c.kind && p.fingerprint == c.fingerprint
  }

  predicate IsStored(t: Tables, c: Candidate) {
    exists p :: p in t.promotions && SameInput(t.promotions[p], c)
  }

  predicate Current(t: Tables, p: Id) {
    p in t.promotions && t.promotions[p].isCurrent
  }

  predicate Active(t: Tables, s: Id) {
    s in t.signals && t.signals[s].isActive
  }

  /** The current row of `g`, other than the replacement itself. */
  predicate Outgoing(t: Tables, g: Group, replacement: Id, p: Id) {
    Current(t, p) && t.promotions[p].group == g && p != replacement
  }

  // ------------------------------------------------------- database constraints

  predicate NotBlank(s: string) {
    exists i :: 0 <= i < |s| && s[i] != ' '
  }

  predicate InRange(score: real) {
    0.0 <= score <= 100.0
  }

  predicate Projectable(q: Option<QualityStatus>) {
    q == Some(Verified) || q == Some(Usable)
  }

  /** The row-level check constraints on the rows that `c` would insert. */
  predicate Storable(c: Candidate) {
    && NotBlank(c.fingerprint)
    && (c.qualityScore.Some? ==> InRange(c.qualityScore.value))
    && (c.status.Promoted? ==> Projectable(c.qualityStatus))
  }

  predicate SharedInput(p: Promotion, q: Promotion) {
    p.aggregate == q.aggregate && p.group.kind == q.group.kind && p.fingerprint == q.fingerprint
  }

  predicate UniqueInput(t: Tables) {
    forall p, q {:trigger SharedInput(t.promotions[p], t.promotions[q])}
      | p in t.promotions && q in t.promotions ::
      SharedInput(t.promotions[p], t.promotions[q]) ==> p == q
  }

  predicate UniqueCurrent(t: Tables) {
    forall p, q {:trigger Current(t, p), Current(t, q)}
      | p in t.promotions && q in t.promotions ::
      Current(t, p) && Current(t, q) && t.promotions[p].group == t.promotions[q].group ==> p == q
  }

  predicate UniqueActive(t: Tables) {
    forall s, r {:trigger Active(t, s), Active(t, r)} | s in t.signals && r in t.signals ::
      Active(t, s) && Active(t, r) && t.signals[s].group == t.signals[r].group ==> s == r
  }

  predicate UniqueProjection(t: Tables) {
    forall s, r {:trigger t.signals[s].promotion, t.signals[r].promotion}
      | s in t.signals && r in t.signals ::
      t.signals[s].promotion == t.signals[r].promotion ==> s == r
  }

  predicate RowChecks(t: Tables) {
    && (forall p :: p in t.promotions ==>
          && NotBlank(t.promotions[p].fingerprint)
          && (t.promotions[p].qualityScore.Some? ==> InRange(t.promotions[p].qualityScore.value)))
    && (forall s :: s in t.signals ==>
          && Projectable(Some(t.signals[s].qualityStatus))
          && InRange(t.signals[s].qualityScore))
  }

  predicate HeirIsStored(t: Tables, p: Id)
    requires p in t.promotions
  {
    t.promotions[p].supersededBy.Some? ==> t.promotions[p].supersededBy.value in t.promotions
  }

  predicate SignalHeirIsStored(t: Tables, s: Id)
    requires s in t.signals
  {
    t.signals[s].supersededBy.Some? ==> t.signals[s].supersededBy.value in t.signals
  }

  /** The foreign keys of both tables to themselves; those between the tables are deferred. */
  predicate SelfReferences(t: Tables) {
    && (forall p {:trigger HeirIsStored(t, p)} | p in t.promotions :: HeirIsStored(t, p))
    && (forall s {:trigger SignalHeirIsStored(t, s)} | s in t.signals :: SignalHeirIsStored(t, s))
  }

  /** What the database enforces on every flush. */
  predicate Integrity(t: Tables) {
    && UniqueInput(t) && UniqueCurrent(t) && UniqueActive(t) && UniqueProjection(t) && RowChecks(t)
    && SelfReferences(t)
  }

  // ----------------------------------------------------------- the four writes

  function NewPromotion(c: Candidate, company: Id, signal: Option<Id>, now: Time): Promotion {
    Promotion(c.aggregate, Group(company, c.kind), c.content, c.qualityStatus, c.qualityScore,
              c.fingerprint, c.status, false, signal, None,
              if signal.Some? then Some(now) else None, None, now, now)
  }

  function NewSignal(c: Candidate, company: Id, promotion: Id, now: Time): Signal
    requires c.qualityStatus.Some? && c.qualityScore.Some?
  {
    Signal(promotion, c.aggregate, Group(company, c.kind), c.content,
           c.qualityStatus.value, c.qualityScore.value, false, None, now, None)
  }

  function Retired(p: Promotion, heir: Id, now: Time): Promotion {
    p.(status := Superseded, isCurrent := false, supersededBy := Some(heir),
       supersededAt := Some(now), updatedAt := now)
  }

  function RetiredSignal(s: Signal, heir: Option<Id>, now: Time): Signal {
    s.(isActive := false, supersededBy := heir, supersededAt := Some(now))
  }

  function Supersede(t: Tables, g: Group, heir: Id, heirSignal: Option<Id>, now: Time): Tables {
    Tables(
      map p | p in t.promotions ::
        if Outgoing(t, g, heir, p) then Retired(t.promotions[p], heir, now) else t.promotions[p],
      map s | s in t.signals ::
        if && Outgoing(t, g, heir, t.signals[s].promotion)
           && t.promotions[t.signals[s].promotion].signal == Some(s)
        then RetiredSignal(t.signals[s], heirSignal, now) else t.signals[s])
  }

  /** Sets the replacement current and its signal, when it owns one, active. */
  function Raise(t: Tables, p: Id, status: PromotionStatus, now: Time): Tables
    requires p in t.promotions
    requires t.promotions[p].signal.Some? ==> t.promotions[p].signal.value in t.signals
  {
    var row := t.promotions[p];
    Tables(
      t.promotions[p := row.(status := status, isCurrent := true, supersededBy := None,
                             supersededAt := None, updatedAt := now)],
      match row.signal
      case None => t.signals
      case Some(s) => t.signals[s := t.signals[s].(isActive := true, supersededBy := None,
                                                   supersededAt := None)])
  }

  // ------------------------------------------------------- creating a version

  datatype NewIds = NewIds(promotion: Id, signal: Id)

  predicate LacksQuality(c: Candidate) {
    c.status.Promoted? && (c.qualityStatus.None? || c.qualityScore.None?)
  }

  predicate Fresh(t: Tables, ids: NewIds) {
    ids.promotion !in t.promotions && ids.signal !in t.signals
  }

  function OwnSignal(c: Candidate, ids: NewIds): Option<Id> {
    if c.status.Promoted? then Some(ids.signal) else None
  }

  /** After the first flush: the ledger row is stored, not current. */
  function WithPromotion(t: Tables, c: Candidate, ids: NewIds, now: Time): Tables
    requires c.company.Some?
  {
    t.(promotions := t.promotions[ids.promotion :=
         NewPromotion(c, c.company.value, OwnSignal(c, ids), now)])
  }

  /** After the second flush: its projection is stored, not active. */
  function WithSignal(t: Tables, c: Candidate, ids: NewIds, now: Time): Tables
    requires c.company.Some? && !LacksQuality(c)
  {
    var inserted := WithPromotion(t, c, ids, now);
    if c.status.Promoted?
    then inserted.(signals := t.signals[ids.signal :=
           NewSignal(c, c.company.value, ids.promotion, now)])
    else inserted
  }

  /** After the third flush: the old current row is retired. */
  function WithRetired(t: Tables, c: Candidate, ids: NewIds, now: Time): Tables
    requires c.company.Some? && !LacksQuality(c)
  {
    Supersede(WithSignal(t, c, ids, now), Group(c.company.value, c.kind), ids.promotion,
              OwnSignal(c, ids), now)
  }

  function Created(t: Tables, c: Candidate, ids: NewIds, now: Time): Tables
    requires c.company.Some? && !LacksQuality(c)
  {
    Raise(WithRetired(t, c, ids, now), ids.promotion, c.status, now)
  }

  function Create(t: Tables, c: Candidate, ids: NewIds, now: Time): Result<Tables, LedgerError>
    requires c.company.Some?
  {
    if LacksQuality(c) then Failure(MissingQuality)
    else if !Storable(c) || IsStored(t, c) then Failure(IntegrityViolation)
    else Success(Created(t, c, ids, now))
  }

  predicate Resolved(cs: seq<Candidate>) {
    forall i :: 0 <= i < |cs| ==> cs[i].company.Some?
  }

  function CreateAll(t: Tables, cs: seq<Candidate>, ids: seq<NewIds>, now: Time)
    : Result<Tables, LedgerError>
    requires |ids| == |cs| && Resolved(cs)
    decreases |cs|
  {
    if cs == [] then Success(t)
    else
      match Create(t, cs[0], ids[0], now)
      case Failure(e) => Failure(e)
      case Success(t') => CreateAll(t', cs[1..], ids[1..], now)
  }

  /** No identifier is used twice and none is already in use. */
  predicate AllFresh(t: Tables, ids: seq<NewIds>) {
    && (forall i :: 0 <= i < |ids| ==> Fresh(t, ids[i]))
    && (forall i, j :: 0 <= i < j < |ids| ==>
          ids[i].promotion != ids[j].promotion && ids[i].signal != ids[j].signal)
  }

  // ------------------------------------------------------ reviving a version

  predicate HasProjection(t: Tables, p: Id) {
    p in t.promotions &&
    (t.promotions[p].signal.Some? ==> t.promotions[p].signal.value in t.signals)
  }

  function RevivedStatus(row: Promotion, c: Candidate): PromotionStatus {
    if row.signal.Some? then Promoted else c.status
  }

  function Revived(t: Tables, c: Candidate, p: Id, now: Time): Tables
    requires HasProjection(t, p)
  {
    var row := t.promotions[p];
    Raise(Supersede(t, row.group, p, row.signal, now), p, RevivedStatus(row, c), now)
  }

  /** A row that is already current is left alone. */
  function Replayed(t: Tables, c: Candidate, p: Id, now: Time): (t': Tables)
    requires HasProjection(t, p)
    ensures t'.promotions.Keys == t.promotions.Keys && t'.signals.Keys == t.signals.Keys
    ensures forall q :: q in t.promotions ==> t'.promotions[q].signal == t.promotions[q].signal
  {
    if t.promotions[p].isCurrent then t else Revived(t, c, p, now)
  }

  function ReplayAll(t: Tables, cs: seq<Candidate>, rows: seq<Id>, now: Time): Tables
    requires |rows| == |cs|
    requires forall p :: p in rows ==> HasProjection(t, p)
    decreases |cs|
  {
    if cs == [] then t
    else
      assert rows[0] in rows;
      var t' := Replayed(t, cs[0], rows[0], now);
      assert forall p :: p in rows ==> HasProjection(t', p) by {
        forall p | p in rows ensures HasProjection(t', p) {
          assert HasProjection(t, p);
        }
      }
      ReplayAll(t', cs[1..], rows[1..], now)
  }

  /** `rows[i]` is the stored row of `cs[i]`. */
  predicate RowsOf(t: Tables, cs: seq<Candidate>, rows: seq<Id>) {
    && |rows| == |cs|
    && forall i :: 0 <= i < |cs| ==>
         rows[i] in t.promotions && SameInput(t.promotions[rows[i]], cs[i])
  }
}
