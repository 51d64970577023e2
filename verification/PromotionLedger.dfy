/** The promotion repository: the methods that write the ledger, step by step as the session does. */
module PromotionLedger {
  import opened Wrappers
  import opened PromotionTables
  import opened PromotionTheory
  import opened PromotionRuns

  /** A state that satisfies every constraint of the database. */
  type SoundTables = t: Tables | Integrity(t) witness EMPTY

  /** Fresh identifiers and the clock are arguments; a failed call is rolled back by its caller. */
  class PromotionRepository {
    /** What the session sees: flushed rows and pending changes alike. */
    var tables: Tables
    /** Every state the database accepted, in order. */
    ghost var flushed: seq<SoundTables>

    constructor ()
      ensures tables == EMPTY && flushed == []
    {
      tables, flushed := EMPTY, [];
    }

    /** Hands the pending changes to the database, which accepts them only if they satisfy its
        constraints; at most one row of a group is current, and one signal active, every time. */
    method Flush() returns (ok: bool)
      modifies `flushed
      ensures ok == Integrity(tables)
      ensures flushed == old(flushed) + if ok then [tables] else []
    {
      ok := Integrity(tables);
      if ok {
        flushed := flushed + [tables];
      }
    }

    method ExistingCandidate(c: Candidate) returns (r: Result<Option<Id>, LedgerError>)
      ensures UniqueInput(tables) ==> r == Success(Lookup(tables, c))
      ensures r.Failure? ==> r.error == MultipleRows
    {
      if p :| p in tables.promotions && SameInput(tables.promotions[p], c) {
        if q :| q in tables.promotions && q != p && SameInput(tables.promotions[q], c) {
          assert SharedInput(tables.promotions[p], tables.promotions[q]);
          return Failure(MultipleRows);
        }
        r := Success(Some(p));
      } else {
        r := Success(None);
      }
    }

    method SupersedeCurrent(g: Group, heir: Id, heirSignal: Option<Id>, now: Time)
      returns (r: Result<(), LedgerError>)
      modifies `tables
      ensures tables.promotions.Keys == old(tables.promotions.Keys)
      ensures tables.signals.Keys == old(tables.signals.Keys)
      ensures old(UniqueCurrent(tables) && Linked(tables)) ==>
                r.Success? && tables == Supersede(old(tables), g, heir, heirSignal, now)
    {
      ghost var t := tables;
      if p :| p in tables.promotions && Outgoing(tables, g, heir, p) {
        if q :| q in tables.promotions && q != p && Outgoing(tables, g, heir, q) {
          assert Current(t, p) && Current(t, q);
          return Failure(MultipleRows);
        }
        var row := tables.promotions[p];
        tables := tables.(promotions := tables.promotions[p := Retired(row, heir, now)]);
        if row.signal.Some? {
          if row.signal.value !in tables.signals {
            assert Linked(t) ==> OwnsProjection(t, p);
            return Failure(MissingProjection);
          }
          var s := row.signal.value;
          tables := tables.(signals := tables.signals[s := RetiredSignal(tables.signals[s], heirSignal, now)]);
        }
        if Linked(t) {
          OneRowRetired(t, tables, g, heir, heirSignal, now, p);
        }
      } else {
        assert tables == Supersede(t, g, heir, heirSignal, now);
      }
      r := Success(());
    }

    /** The first half of creating a version: the ledger row and its projection are stored, both
        out of use. */
    method StoreVersion(c: Candidate, company: Id, ids: NewIds, now: Time) returns (ok: bool)
      requires c.company == Some(company) && !LacksQuality(c)
      modifies this
      ensures old(Inv(tables) && Fresh(tables, ids)) ==>
                && ok == Create(old(tables), c, ids, now).Success?
                && (ok ==> flushed == old(flushed) + StoringFlushes(old(tables), c, ids, now))
      ensures ok ==> tables == WithSignal(old(tables), c, ids, now)
      ensures old(flushed) <= flushed
    {
      ghost var t := tables;
      if Inv(t) && Fresh(t, ids) {
        FirstFlushAccepts(t, c, ids, now);
      }
      tables := tables.(promotions := tables.promotions[ids.promotion :=
                          NewPromotion(c, company, OwnSignal(c, ids), now)]);
      ok := Flush();
      if ok && c.status.Promoted? {
        if Inv(t) && Fresh(t, ids) {
          SecondFlushAccepts(t, c, ids, now);
        }
        tables := tables.(signals := tables.signals[ids.signal :=
                            NewSignal(c, company, ids.promotion, now)]);
        ok := Flush();
      }
    }

    method CreateVersion(c: Candidate, ids: NewIds, now: Time) returns (r: Result<Id, LedgerError>)
      modifies this
      ensures c.company.None? ==>
                r == Failure(UnresolvedCompany) && tables == old(tables) && flushed == old(flushed)
      ensures c.company.Some? && old(Inv(tables) && Fresh(tables, ids)) ==>
                match Create(old(tables), c, ids, now)
                case Failure(e) => r == Failure(e)
                case Success(t') =>
                  && r == Success(ids.promotion) && tables == t'
                  && flushed == old(flushed) + StoringFlushes(old(tables), c, ids, now)
                                + [WithRetired(old(tables), c, ids, now)]
      ensures old(flushed) <= flushed
    {
      if c.company.None? {
        return Failure(UnresolvedCompany);
      }
      if LacksQuality(c) {
        return Failure(MissingQuality);
      }
      ghost var t := tables;
      var ok := StoreVersion(c, c.company.value, ids, now);
      if !ok {
        return Failure(IntegrityViolation);
      }
      if Inv(t) && Fresh(t, ids) {
        CreationSteps(t, c, ids, now);
      }
      var signal := OwnSignal(c, ids);
      var superseded := SupersedeCurrent(Group(c.company.value, c.kind), ids.promotion, signal, now);
      if superseded.Failure? {
        return Failure(superseded.error);
      }
      ok := Flush();
      if !ok {
        return Failure(IntegrityViolation);
      }
      tables := tables.(promotions := tables.promotions[ids.promotion :=
                          tables.promotions[ids.promotion].(isCurrent := true)]);
      if signal.Some? {
        tables := tables.(signals := tables.signals[signal.value :=
                            tables.signals[signal.value].(isActive := true)]);
      }
      r := Success(ids.promotion);
    }

    method ActivateExisting(c: Candidate, p: Id, now: Time) returns (r: Result<(), LedgerError>)
      requires p in tables.promotions
      modifies this
      ensures tables.promotions.Keys == old(tables.promotions.Keys)
      ensures old(Inv(tables)) && !old(tables.promotions[p].isCurrent) ==>
                && old(HasProjection(tables, p))
                && r.Success? && tables == Revived(old(tables), c, p, now)
                && flushed == old(flushed) + [Supersede(old(tables), old(tables.promotions[p].group), p,
                                                        old(tables.promotions[p].signal), now)]
      ensures old(flushed) <= flushed
    {
      ghost var t := tables;
      if Inv(t) && !t.promotions[p].isCurrent {
        RevivalSteps(t, c, p, now);
      }
      var existing := tables.promotions[p];
      var superseded := SupersedeCurrent(existing.group, p, existing.signal, now);
      if superseded.Failure? {
        return Failure(superseded.error);
      }
      var ok := Flush();
      if !ok {
        return Failure(IntegrityViolation);
      }
      var status := if existing.signal.Some? then Promoted else c.status;
      tables := tables.(promotions := tables.promotions[p :=
                          tables.promotions[p].(status := status, isCurrent := true,
                                                supersededBy := None, supersededAt := None,
                                                updatedAt := now)]);
      if existing.signal.Some? {
        if existing.signal.value !in tables.signals {
          return Failure(MissingProjection);
        }
        var s := existing.signal.value;
        tables := tables.(signals := tables.signals[s :=
                            tables.signals[s].(isActive := true, supersededBy := None,
                                               supersededAt := None)]);
      }
      r := Success(());
    }

    method ReplayBatch(cs: seq<Candidate>, rows: seq<Id>, now: Time)
      returns (r: Result<(seq<Id>, bool), LedgerError>)
      requires |rows| == |cs|
      modifies this
      ensures old(Inv(tables) && RowsOf(tables, cs, rows)) ==>
                && (forall p :: p in rows ==> old(HasProjection(tables, p)))
                && r == Success((rows, false)) && tables == ReplayAll(old(tables), cs, rows, now)
      ensures old(flushed) <= flushed
    {
      ghost var t := tables;
      ghost var sound := Inv(t) && RowsOf(t, cs, rows);
      var changed := false;
      if sound {
        ReplayingStarts(t, cs, rows, now);
      }
      for i := 0 to |cs|
        invariant sound ==> Replaying(t, cs, rows, now, i, tables)
        invariant old(flushed) <= flushed
      {
        if sound {
          ReplayingContinues(t, cs, rows, now, i, tables);
        }
        if rows[i] !in tables.promotions {
          return Failure(MultipleRows);
        }
        if !tables.promotions[rows[i]].isCurrent {
          var activated := ActivateExisting(cs[i], rows[i], now);
          if activated.Failure? {
            return Failure(activated.error);
          }
          changed := true;
        }
      }
      if changed {
        var ok := Flush();
        if !ok {
          return Failure(IntegrityViolation);
        }
      }
      r := Success((rows, false));
    }

    method CreateBatch(cs: seq<Candidate>, ids: seq<NewIds>, now: Time)
      returns (r: Result<(seq<Id>, bool), LedgerError>)
      requires |ids| == |cs| && Resolved(cs)
      modifies this
      ensures old(Inv(tables) && AllFresh(tables, ids)) ==>
                match CreateAll(old(tables), cs, ids, now)
                case Failure(e) => r == Failure(e)
                case Success(t') => r == Success((PromotionIds(ids), true)) && tables == t'
      ensures old(flushed) <= flushed
    {
      ghost var t := tables;
      ghost var sound := Inv(t) && AllFresh(t, ids);
      var created: seq<Id> := [];
      if sound {
        CreatingStarts(t, cs, ids, now);
      }
      for i := 0 to |cs|
        invariant sound ==> |created| == i && forall j :: 0 <= j < i ==> created[j] == ids[j].promotion
        invariant sound ==> Creating(t, cs, ids, now, i, tables)
        invariant old(flushed) <= flushed
      {
        if sound {
          CreatingContinues(t, cs, ids, now, i, tables);
        }
        var version := CreateVersion(cs[i], ids[i], now);
        if version.Failure? {
          return Failure(version.error);
        }
        created := created + [version.value];
      }
      if sound {
        CreatingEnds(t, cs, ids, now, tables);
      }
      var ok := Flush();
      if !ok {
        return Failure(IntegrityViolation);
      }
      assert sound ==> created == PromotionIds(ids);
      r := Success((created, true));
    }

    /** Applies a batch: replays it when all of it is stored, creates it when none of it is, and
        refuses it otherwise. On consistent tables the only failures are the ones `Apply` names:
        no lookup finds two rows and no projection is missing. */
    method ApplyCandidates(cs: seq<Candidate>, ids: seq<NewIds>, now: Time)
      returns (r: Result<(seq<Id>, bool), LedgerError>)
      requires |ids| == |cs|
      modifies this
      ensures old(Inv(tables) && AllFresh(tables, ids)) ==>
                match Apply(old(tables), cs, ids, now)
                case Success(o) => r == Success((o.rows, o.created)) && tables == o.tables
                case Failure(e) => r == Failure(e)
      ensures old(Inv(tables) && AllFresh(tables, ids))
              && r in {Failure(PartialBatch), Failure(UnresolvedCompany)} ==>
                tables == old(tables) && flushed == old(flushed)
      ensures old(Inv(tables) && AllFresh(tables, ids)) && r.Failure? ==>
                r.error !in {MissingProjection, MultipleRows}
      ensures old(flushed) <= flushed
    {
      if cs == [] {
        return Success(([], false));
      }
      if !OneCompany(cs) {
        return Failure(UnresolvedCompany);
      }
      ghost var t := tables;
      var existing: seq<Option<Id>> := [];
      for i := 0 to |cs|
        invariant tables == t && flushed == old(flushed) && |existing| == i
        invariant Inv(t) ==> forall j | 0 <= j < i :: existing[j] == Lookup(t, cs[j])
      {
        var row := ExistingCandidate(cs[i]);
        if row.Failure? {
          return Failure(row.error);
        }
        existing := existing + [row.value];
      }
      if Inv(t) {
        LookupsDecide(t, cs, existing);
      }
      if forall i :: 0 <= i < |existing| ==> existing[i].Some? {
        var rows := seq(|existing|, i requires 0 <= i < |existing| => Found(existing[i]));
        r := ReplayBatch(cs, rows, now);
        return;
      }
      if exists i :: 0 <= i < |existing| && existing[i].Some? {
        return Failure(PartialBatch);
      }
      CreateAllError(tables, cs, ids, now);
      r := CreateBatch(cs, ids, now);
    }
  }

  ghost function Lookup(t: Tables, c: Candidate): Option<Id> {
    if IsStored(t, c) then Some(StoredRow(t, c)) else None
  }

  function Found(row: Option<Id>): Id {
    match row case Some(p) => p case None => 0
  }

  /** The lookups of a batch tell which of the three kinds it is. */
  lemma LookupsDecide(t: Tables, cs: seq<Candidate>, existing: seq<Option<Id>>)
    requires |existing| == |cs|
    requires forall j | 0 <= j < |cs| :: existing[j] == Lookup(t, cs[j])
    ensures AllStored(t, cs) <==> forall i :: 0 <= i < |existing| ==> existing[i].Some?
    ensures NoneStored(t, cs) <==> forall i :: 0 <= i < |existing| ==> existing[i].None?
    ensures AllStored(t, cs) ==>
              StoredRows(t, cs) == seq(|existing|, i requires 0 <= i < |existing| => Found(existing[i]))
  {
    forall i | 0 <= i < |cs| ensures existing[i].Some? <==> IsStored(t, cs[i]) {}
  }

  /** Replaying the batch from `t0` has reached `t` after `i` candidates. */
  ghost predicate Replaying(t0: Tables, cs: seq<Candidate>, rows: seq<Id>, now: Time, i: nat, t: Tables) {
    && i <= |cs| == |rows|
    && Inv(t) && RowsOf(t, cs[i..], rows[i..])
    && (forall p :: p in rows ==> HasProjection(t0, p))
    && (forall p :: p in rows[i..] ==> HasProjection(t, p))
    && ReplayAll(t, cs[i..], rows[i..], now) == ReplayAll(t0, cs, rows, now)
  }

  lemma ReplayingStarts(t: Tables, cs: seq<Candidate>, rows: seq<Id>, now: Time)
    requires Inv(t) && RowsOf(t, cs, rows)
    ensures Replaying(t, cs, rows, now, 0, t)
  {
    RowsHaveProjections(t, rows);
    assert cs[0..] == cs && rows[0..] == rows;
  }

  lemma ReplayingContinues(t0: Tables, cs: seq<Candidate>, rows: seq<Id>, now: Time, i: nat, t: Tables)
    requires Replaying(t0, cs, rows, now, i, t) && i < |cs|
    ensures Inv(t) && HasProjection(t, rows[i])
    ensures Replaying(t0, cs, rows, now, i + 1, Replayed(t, cs[i], rows[i], now))
  {
    HeadStep(t, cs[i..], rows[i..], now);
    var t' := Replayed(t, cs[i], rows[i], now);
    assert cs[i..][0] == cs[i] && rows[i..][0] == rows[i];
    assert cs[i..][1..] == cs[i + 1..] && rows[i..][1..] == rows[i + 1..];
    RowsHaveProjections(t', rows[i + 1..]);
  }

  /** Creating the batch from `t0` has reached `t` after `i` candidates. */
  ghost predicate Creating(t0: Tables, cs: seq<Candidate>, ids: seq<NewIds>, now: Time, i: nat, t: Tables) {
    && i <= |cs| == |ids| && Resolved(cs)
    && Inv(t) && AllFresh(t, ids[i..])
    && CreateAll(t, cs[i..], ids[i..], now) == CreateAll(t0, cs, ids, now)
  }

  lemma CreatingStarts(t: Tables, cs: seq<Candidate>, ids: seq<NewIds>, now: Time)
    requires Inv(t) && |ids| == |cs| && Resolved(cs) && AllFresh(t, ids)
    ensures Creating(t, cs, ids, now, 0, t)
  {
    assert cs[0..] == cs && ids[0..] == ids;
  }

  lemma CreatingEnds(t0: Tables, cs: seq<Candidate>, ids: seq<NewIds>, now: Time, t: Tables)
    requires Creating(t0, cs, ids, now, |cs|, t)
    ensures Integrity(t) && CreateAll(t0, cs, ids, now) == Success(t)
  {
  }

  lemma CreatingContinues(t0: Tables, cs: seq<Candidate>, ids: seq<NewIds>, now: Time, i: nat, t: Tables)
    requires Creating(t0, cs, ids, now, i, t) && i < |cs|
    ensures Inv(t) && Fresh(t, ids[i])
    ensures match Create(t, cs[i], ids[i], now)
            case Failure(e) => CreateAll(t0, cs, ids, now) == Failure(e)
            case Success(t') => Creating(t0, cs, ids, now, i + 1, t')
  {
    assert cs[i..][0] == cs[i] && ids[i..][0] == ids[i];
    assert cs[i..][1..] == cs[i + 1..] && ids[i..][1..] == ids[i + 1..];
    if Create(t, cs[i], ids[i], now).Success? {
      CreateKeepsInv(t, cs[i], ids[i], now);
      TailIsFresh(t, cs[i], ids[i..], now);
    }
  }

  /** The states the database accepts while a new version is stored. */
  function StoringFlushes(t: Tables, c: Candidate, ids: NewIds, now: Time): seq<Tables>
    requires c.company.Some? && !LacksQuality(c)
  {
    [WithPromotion(t, c, ids, now)]
    + if c.status.Promoted? then [WithSignal(t, c, ids, now)] else []
  }

  /** What the steps of creating a version rely on. */
  lemma CreationSteps(t: Tables, c: Candidate, ids: NewIds, now: Time)
    requires Inv(t) && c.company.Some? && Fresh(t, ids) && Create(t, c, ids, now).Success?
    ensures var u, v, r := WithSignal(t, c, ids, now), WithRetired(t, c, ids, now), ids.promotion;
            && UniqueCurrent(u) && Linked(u) && Integrity(v)
            && r in v.promotions && v.promotions[r] == u.promotions[r]
            && (c.status.Promoted? ==> ids.signal in v.signals && v.signals[ids.signal] == u.signals[ids.signal])
            && Created(t, c, ids, now) == Tables(
                 v.promotions[r := v.promotions[r].(isCurrent := true)],
                 if c.status.Promoted?
                 then v.signals[ids.signal := v.signals[ids.signal].(isActive := true)]
                 else v.signals)
  {
    NewVersionIsReady(t, c, ids, now);
    RetiringFlushAccepts(WithSignal(t, c, ids, now), ids.promotion, now);
  }

  lemma RevivalSteps(t: Tables, c: Candidate, p: Id, now: Time)
    requires Inv(t) && p in t.promotions && !t.promotions[p].isCurrent
    ensures HasProjection(t, p)
    ensures var v := Supersede(t, t.promotions[p].group, p, t.promotions[p].signal, now);
            && Integrity(v) && v.promotions[p] == t.promotions[p]
            && Revived(t, c, p, now) == Raise(v, p, RevivedStatus(t.promotions[p], c), now)
  {
    OldVersionIsReady(t, p);
    RetiringFlushAccepts(t, p, now);
  }

  /** Retiring the one current row of a group, and the one signal it owns, is superseding it. */
  lemma OneRowRetired(t: Tables, t': Tables, g: Group, heir: Id, heirSignal: Option<Id>, now: Time,
                      p: Id)
    requires Linked(t) && Outgoing(t, g, heir, p)
    requires forall q :: q in t.promotions && q != p ==> !Outgoing(t, g, heir, q)
    requires t'.promotions == t.promotions[p := Retired(t.promotions[p], heir, now)]
    requires t'.signals == match t.promotions[p].signal
                           case None => t.signals
                           case Some(s) =>
                             if s in t.signals
                             then t.signals[s := RetiredSignal(t.signals[s], heirSignal, now)]
                             else t.signals
    ensures t' == Supersede(t, g, heir, heirSignal, now)
  {
    var u := Supersede(t, g, heir, heirSignal, now);
    assert OwnsProjection(t, p);
    forall s | s in t.signals ensures u.signals[s] == t'.signals[s] {
      assert IsOwned(t, s);
    }
    assert u.promotions == t'.promotions;
    assert u.signals == t'.signals;
  }
}
