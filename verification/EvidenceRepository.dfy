/** The import-evidence repository: versioned quality assessments and aggregates, and shipments
    that collect the raw records they were seen in. */
module EvidenceRepository {
  import opened Wrappers
  import opened VersionedTable
  import opened ShipmentProvenance

  datatype Verdict = Verdict(status: string, totalScore: real, reasons: seq<string>)

  datatype QualityAssessment = QualityAssessment(
    id: Id, shipment: Option<Id>, fingerprint: string, verdict: Verdict,
    isCurrent: bool, supersededAt: Option<Time>)

  datatype Window = Window(identity: string, days: int)

  datatype Input = Input(asOf: int, fingerprint: string)

  datatype Figures = Figures(metrics: map<string, real>, inclusions: seq<string>)

  datatype Aggregate = Aggregate(
    id: Id, window: Window, input: Input, figures: Figures,
    isCurrent: bool, supersededAt: Option<Time>)

  datatype StoreError =
    | MissingShipment | MissingIdentity | MissingFingerprint | MultipleRows | IntegrityViolation

  type QualityTable = Table<Id, string, Verdict>
  type AggregateTable = Table<Window, Input, Figures>

  function QualitySave(a: QualityAssessment, shipment: Id, now: Time): Save<Id, string, Verdict> {
    Save(a.id, shipment, a.fingerprint, a.verdict, a.isCurrent, a.supersededAt, now)
  }

  function AggregateSave(a: Aggregate, now: Time): Save<Window, Input, Figures> {
    Save(a.id, a.window, a.input, a.figures, a.isCurrent, a.supersededAt, now)
  }

  function ToAssessment(id: Id, row: Row<Id, string, Verdict>): QualityAssessment {
    QualityAssessment(id, Some(row.group), row.key, row.content, row.isCurrent, row.supersededAt)
  }

  function ToAggregate(id: Id, row: Row<Window, Input, Figures>): Aggregate {
    Aggregate(id, row.group, row.key, row.content, row.isCurrent, row.supersededAt)
  }

  /** What a save of an assessment answers and leaves behind. */
  ghost predicate SavesQuality(t: QualityTable, a: QualityAssessment, now: Time, t': QualityTable,
                               r: Result<(QualityAssessment, bool), StoreError>)
  {
    if a.shipment.None? then r == Failure(MissingShipment) && t' == t
    else
      var s := QualitySave(a, a.shipment.value, now);
      if IsSaved(t, s.group, s.key) then
        && Steps(t, s, t') && r.Success? && !r.value.1
        && r.value.0.id in t' && Holds(t', r.value.0.id, s.group, s.key)
        && r.value.0 == ToAssessment(r.value.0.id, t'[r.value.0.id])
      else if a.fingerprint == "" || a.id in t then
        && t' == Superseded(t, s.group, now)
        && r == Failure(if a.fingerprint == "" then MissingFingerprint else IntegrityViolation)
      else
        Steps(t, s, t') && r == Success((a, true))
  }

  class EvidenceStore {
    var qualities: QualityTable
    var aggregates: AggregateTable
    var shipments: map<Id, Shipment>

    constructor ()
      ensures qualities == map[] && aggregates == map[] && shipments == map[]
    {
      qualities, aggregates, shipments := map[], map[], map[];
    }

    /** Saves a version of a shipment's quality. A known fingerprint revives its row and answers
        with it; a new one becomes a row. A version the database cannot store is refused only
        after the current row has been superseded, so its caller must roll back. */
    method SaveQualityAssessment(a: QualityAssessment, now: Time)
      returns (r: Result<(QualityAssessment, bool), StoreError>)
      modifies `qualities
      ensures KeysAreUnique(old(qualities)) ==> SavesQuality(old(qualities), a, now, qualities, r)
      ensures a.shipment.None? ==> r == Failure(MissingShipment) && qualities == old(qualities)
    {
      if a.shipment.None? {
        return Failure(MissingShipment);
      }
      var shipment := a.shipment.value;
      if p: Id :| p in qualities && Holds(qualities, p, shipment, a.fingerprint) {
        if q: Id :| q in qualities && q != p && Holds(qualities, q, shipment, a.fingerprint) {
          assert Holds(qualities, q, qualities[p].group, qualities[p].key);
          return Failure(MultipleRows);
        }
        if !qualities[p].isCurrent {
          qualities := Superseded(qualities, shipment, now);
          qualities := qualities[p := qualities[p].(isCurrent := true, supersededAt := None)];
        }
        assert qualities == Reactivated(old(qualities), p, now);
        return Success((ToAssessment(p, qualities[p]), false));
      }
      qualities := Superseded(qualities, shipment, now);
      if a.fingerprint == "" {
        return Failure(MissingFingerprint);
      }
      if a.id in qualities {
        return Failure(IntegrityViolation);
      }
      qualities := qualities[a.id := Row(shipment, a.fingerprint, a.verdict, a.isCurrent, a.supersededAt)];
      r := Success((a, true));
    }

    /** The same for the aggregate of an importer and a window; the date is part of the key. */
    method SaveAggregate(a: Aggregate, now: Time) returns (r: Result<(Aggregate, bool), StoreError>)
      modifies `aggregates
      ensures KeysAreUnique(old(aggregates)) ==>
                var s := AggregateSave(a, now);
                if IsSaved(old(aggregates), s.group, s.key) then
                  && Steps(old(aggregates), s, aggregates) && r.Success? && !r.value.1
                  && r.value.0.id in aggregates
                  && Holds(aggregates, r.value.0.id, s.group, s.key)
                  && r.value.0 == ToAggregate(r.value.0.id, aggregates[r.value.0.id])
                else if a.window.identity == "" || a.input.fingerprint == "" || a.id in old(aggregates) then
                  && aggregates == Superseded(old(aggregates), s.group, now)
                  && r == Failure(if a.window.identity == "" then MissingIdentity
                                  else if a.input.fingerprint == "" then MissingFingerprint
                                  else IntegrityViolation)
                else
                  Steps(old(aggregates), s, aggregates) && r == Success((a, true))
    {
      if p: Id :| p in aggregates && Holds(aggregates, p, a.window, a.input) {
        if q: Id :| q in aggregates && q != p && Holds(aggregates, q, a.window, a.input) {
          assert Holds(aggregates, q, aggregates[p].group, aggregates[p].key);
          return Failure(MultipleRows);
        }
        if !aggregates[p].isCurrent {
          aggregates := Superseded(aggregates, a.window, now);
          aggregates := aggregates[p := aggregates[p].(isCurrent := true, supersededAt := None)];
        }
        assert aggregates == Reactivated(old(aggregates), p, now);
        return Success((ToAggregate(p, aggregates[p]), false));
      }
      aggregates := Superseded(aggregates, a.window, now);
      if a.window.identity == "" {
        return Failure(MissingIdentity);
      }
      if a.input.fingerprint == "" {
        return Failure(MissingFingerprint);
      }
      if a.id in aggregates {
        return Failure(IntegrityViolation);
      }
      aggregates := aggregates[a.id := Row(a.window, a.input, a.figures, a.isCurrent, a.supersededAt)];
      r := Success((a, true));
    }

    /** The current assessment of a shipment: the version the history of saves kept, with the
        verdict first saved under its fingerprint. */
    method GetCurrentQualityAssessment(shipment: Id, ghost h: seq<Save<Id, string, Verdict>>)
      returns (r: Result<Option<QualityAssessment>, StoreError>)
      requires VersionedTable.Refines(qualities, h)
      ensures r.Success?
      ensures r.value.Some? <==> Kept(h, shipment).Some?
      ensures r.value.Some? ==>
                && r.value.value.isCurrent && r.value.value.shipment == Some(shipment)
                && r.value.value.fingerprint == Kept(h, shipment).value
                && First(h, shipment, r.value.value.fingerprint) == Some(r.value.value.verdict)
    {
      CurrentRowIsKept(qualities, h, shipment);
      if p: Id :| p in qualities && qualities[p].group == shipment && qualities[p].isCurrent {
        assert IsCurrentOf(qualities, shipment, p);
        r := Success(Some(ToAssessment(p, qualities[p])));
      } else {
        assert !exists id: Id :: IsCurrentOf(qualities, shipment, id);
        r := Success(None);
      }
    }

    /** Stores a shipment once per fingerprint and adds the raw record to its provenance. */
    method SaveNormalizedShipment(a: Arrival) returns (r: Result<(Id, bool), StoreError>)
      modifies `shipments
      ensures OncePerFingerprint(old(shipments)) ==>
                if IsStored(old(shipments), a.fingerprint) then
                  && Arrives(old(shipments), a, shipments) && r.Success? && !r.value.1
                  && r.value.0 in shipments && shipments[r.value.0].fingerprint == a.fingerprint
                else if a.id in old(shipments) then
                  r == Failure(IntegrityViolation) && shipments == old(shipments)
                else
                  Arrives(old(shipments), a, shipments) && r == Success((a.id, true))
    {
      if p: Id :| p in shipments && shipments[p].fingerprint == a.fingerprint {
        if q: Id :| q in shipments && q != p && shipments[q].fingerprint == a.fingerprint {
          return Failure(MultipleRows);
        }
        var rawIds := shipments[p].rawIds;
        if a.raw !in rawIds {
          rawIds := rawIds + [a.raw];
          shipments := shipments[p := shipments[p].(rawIds := rawIds)];
        }
        assert shipments == Appended(old(shipments), p, a.raw);
        return Success((p, false));
      }
      if a.id in shipments {
        return Failure(IntegrityViolation);
      }
      shipments := shipments[a.id := Shipment(a.fingerprint, a.content, [a.raw])];
      r := Success((a.id, true));
    }
  }

  /** A save that is refused leaves its shipment without a current row, and the table as it was exactly when
      the shipment had none; the other shipments keep theirs. */
  lemma RefusedSaveLosesCurrent(t: QualityTable, a: QualityAssessment, now: Time, t': QualityTable, error: StoreError)
    requires a.shipment.Some? && SavesQuality(t, a, now, t', Failure(error))
    ensures !exists x: Id :: IsCurrentOf(t', a.shipment.value, x)
    ensures t' == t <==> !exists x: Id :: IsCurrentOf(t, a.shipment.value, x)
    ensures forall g, x: Id | g != a.shipment.value :: IsCurrentOf(t', g, x) <==> IsCurrentOf(t, g, x)
  {
    var shipment := a.shipment.value;
    if x: Id :| IsCurrentOf(t, shipment, x) {
      assert t'[x] != t[x];
    } else {
      assert t'.Keys == t.Keys && forall x | x in t :: !IsCurrentOf(t, shipment, x);
      assert t' == t;
    }
  }
}
