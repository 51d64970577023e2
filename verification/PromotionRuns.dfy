/** Whole batches and whole runs of the promotion ledger. */
module PromotionRuns {
  import opened Wrappers
  import opened PromotionTables
  import opened PromotionTheory

  // ------------------------------------------------------------------ one batch

  ghost function StoredRow(t: Tables, c: Candidate): (p: Id)
    requires IsStored(t, c)
    ensures p in t.promotions && SameInput(t.promotions[p], c)
  {
    var p :| p in t.promotions && SameInput(t.promotions[p], c);
    p
  }

  lemma StoredRowIsUnique(t: Tables, c: Candidate, p: Id)
    requires UniqueInput(t) && p in t.promotions && SameInput(t.promotions[p], c)
    ensures IsStored(t, c) && StoredRow(t, c) == p
  {
    assert SharedInput(t.promotions[p], t.promotions[StoredRow(t, c)]);
  }

  predicate AllStored(t: Tables, cs: seq<Candidate>) {
    forall i :: 0 <= i < |cs| ==> IsStored(t, cs[i])
  }

  predicate NoneStored(t: Tables, cs: seq<Candidate>) {
    forall i :: 0 <= i < |cs| ==> !IsStored(t, cs[i])
  }

  ghost function StoredRows(t: Tables, cs: seq<Candidate>): (rows: seq<Id>)
    requires AllStored(t, cs)
    ensures RowsOf(t, cs, rows)
  {
    seq(|cs|, i requires 0 <= i < |cs| => StoredRow(t, cs[i]))
  }

  predicate OneCompany(cs: seq<Candidate>) {
    cs != [] && forall i :: 0 <= i < |cs| ==> cs[i].company.Some? && cs[i].company == cs[0].company
  }

  datatype Outcome = Outcome(tables: Tables, rows: seq<Id>, created: bool)

  function PromotionIds(ids: seq<NewIds>): (r: seq<Id>)
    ensures |r| == |ids| && forall i :: 0 <= i < |ids| ==> r[i] == ids[i].promotion
  {
    seq(|ids|, i requires 0 <= i < |ids| => ids[i].promotion)
  }

  /** What `apply_candidates` does to consistent tables. */
  ghost function Apply(t: Tables, cs: seq<Candidate>, ids: seq<NewIds>, now: Time)
    : Result<Outcome, LedgerError>
    requires Inv(t) && |ids| == |cs|
  {
    if cs == [] then Success(Outcome(t, [], false))
    else if !OneCompany(cs) then Failure(UnresolvedCompany)
    else if AllStored(t, cs) then
      var rows := StoredRows(t, cs);
      RowsHaveProjections(t, rows);
      Success(Outcome(ReplayAll(t, cs, rows, now), rows, false))
    else if !NoneStored(t, cs) then Failure(PartialBatch)
    else
      match CreateAll(t, cs, ids, now)
      case Failure(e) => Failure(e)
      case Success(t') => Success(Outcome(t', PromotionIds(ids), true))
  }

  lemma RowsHaveProjections(t: Tables, rows: seq<Id>)
    requires Inv(t) && forall i :: 0 <= i < |rows| ==> rows[i] in t.promotions
    ensures forall p :: p in rows ==> HasProjection(t, p)
  {
    forall p | p in rows ensures HasProjection(t, p) {
      assert OwnsProjection(t, p);
    }
  }

  // --------------------------------------------------------- history is append-only

  /** The part of a row that no later step may touch. */
  function Recorded(row: Promotion): Promotion {
    row.(status := Superseded, isCurrent := false, supersededBy := None, supersededAt := None,
         updatedAt := 0)
  }

  function RecordedSignal(s: Signal): Signal {
    s.(isActive := false, supersededBy := None, supersededAt := None)
  }

  ghost predicate Extends(t: Tables, t': Tables) {
    && t.promotions.Keys <= t'.promotions.Keys && t.signals.Keys <= t'.signals.Keys
    && (forall p | p in t.promotions :: Recorded(t'.promotions[p]) == Recorded(t.promotions[p]))
    && (forall s | s in t.signals :: RecordedSignal(t'.signals[s]) == RecordedSignal(t.signals[s]))
  }

  /** Nothing outside group `g` changes. */
  ghost predicate OnlyIn(t: Tables, t': Tables, g: Group) {
    forall p | p in t.promotions && t.promotions[p].group != g ::
      p in t'.promotions && t'.promotions[p] == t.promotions[p]
  }

  lemma ExtendsTransitively(t: Tables, u: Tables, v: Tables)
    requires Extends(t, u) && Extends(u, v)
    ensures Extends(t, v)
  {
  }

  lemma TransferExtends(t: Tables, t': Tables, r: Id, status: PromotionStatus, now: Time)
    requires Transfers(t, t', r, status, now)
    ensures Extends(t, t') && OnlyIn(t, t', t.promotions[r].group) && Current(t', r)
  {
  }

  lemma InsertExtends(t: Tables, c: Candidate, ids: NewIds, now: Time)
    requires c.company.Some? && Fresh(t, ids) && !LacksQuality(c)
    ensures var u, r := WithSignal(t, c, ids, now), ids.promotion;
            && Extends(t, u) && OnlyIn(t, u, Group(c.company.value, c.kind))
            && u.promotions.Keys == t.promotions.Keys + {r}
            && u.signals.Keys <= t.signals.Keys + {ids.signal}
            && u.promotions[r] == NewPromotion(c, c.company.value, OwnSignal(c, ids), now)
  {
  }

  /** What is accepted: a fingerprint that is not blank, a score from 0 to 100 if there is one, for a promotion a
      score and a quality that is verified or usable, and an input that is not stored yet. */
  lemma CreateSucceedsIff(t: Tables, c: Candidate, ids: NewIds, now: Time)
    requires c.company.Some?
    ensures Create(t, c, ids, now).Success? <==>
            && (exists i :: 0 <= i < |c.fingerprint| && c.fingerprint[i] != ' ')
            && (c.qualityScore.Some? ==> 0.0 <= c.qualityScore.value <= 100.0)
            && (c.status == Promoted ==> c.qualityScore.Some? && c.qualityStatus in {Some(Verified), Some(Usable)})
            && forall p | p in t.promotions ::
                 !(&& t.promotions[p].aggregate == c.aggregate && t.promotions[p].group.kind == c.kind
                   && t.promotions[p].fingerprint == c.fingerprint)
    ensures Create(t, c, ids, now) == Failure(MissingQuality) <==>
            c.status == Promoted && (c.qualityStatus == None || c.qualityScore == None)
    ensures Create(t, c, ids, now).Failure? ==> Create(t, c, ids, now).error in {MissingQuality, IntegrityViolation}
  {
    if IsStored(t, c) {
      var p :| p in t.promotions && SameInput(t.promotions[p], c);
    }
  }

  /** Row `p` and the signal it owns, if any, record the candidate, column by column; a signal is there
      exactly for a promoted candidate. */
  ghost predicate RecordsCandidate(t: Tables, p: Id, c: Candidate, now: Time) {
    p in t.promotions &&
    var row := t.promotions[p];
    && row.aggregate == c.aggregate && c.company == Some(row.group.company) && row.group.kind == c.kind
    && row.content == c.content && row.fingerprint == c.fingerprint
    && row.qualityStatus == c.qualityStatus && row.qualityScore == c.qualityScore
    && row.createdAt == now && row.promotedAt == (if c.status == Promoted then Some(now) else None)
    && (row.signal.Some? <==> c.status == Promoted)
    && (row.signal.Some? ==>
          && row.signal.value in t.signals
          && var s := t.signals[row.signal.value];
          && s.promotion == p && s.aggregate == c.aggregate && s.group == row.group
          && s.content == c.content && s.createdAt == now
          && Some(s.qualityStatus) == c.qualityStatus && Some(s.qualityScore) == c.qualityScore)
  }

  lemma RecordStays(t: Tables, t': Tables, p: Id, c: Candidate, now: Time)
    requires Extends(t, t') && RecordsCandidate(t, p, c, now)
    ensures RecordsCandidate(t', p, c, now)
  {
    assert Recorded(t'.promotions[p]) == Recorded(t.promotions[p]);
    if t.promotions[p].signal.Some? {
      var s := t.promotions[p].signal.value;
      assert RecordedSignal(t'.signals[s]) == RecordedSignal(t.signals[s]);
    }
  }

  lemma InsertRecords(t: Tables, c: Candidate, ids: NewIds, now: Time)
    requires c.company.Some? && !LacksQuality(c)
    ensures RecordsCandidate(WithSignal(t, c, ids, now), ids.promotion, c, now)
  {
  }

  /** A new version records its candidate, and has the candidate's status. */
  lemma CreatedRecords(t: Tables, c: Candidate, ids: NewIds, now: Time)
    requires Inv(t) && c.company.Some? && Fresh(t, ids) && Create(t, c, ids, now).Success?
    ensures var t', p := Created(t, c, ids, now), ids.promotion;
            RecordsCandidate(t', p, c, now) && t'.promotions[p].status == c.status
  {
    var u, t', p := WithSignal(t, c, ids, now), Created(t, c, ids, now), ids.promotion;
    NewVersionIsReady(t, c, ids, now);
    HandOverTransfers(u, p, c.status, now);
    TransferExtends(u, t', p, c.status, now);
    InsertRecords(t, c, ids, now);
    RecordStays(u, t', p, c, now);
  }

  lemma CreatedExtends(t: Tables, c: Candidate, ids: NewIds, now: Time)
    requires Inv(t) && c.company.Some? && Fresh(t, ids) && Create(t, c, ids, now).Success?
    ensures var t', r := Created(t, c, ids, now), ids.promotion;
            && Extends(t, t') && OnlyIn(t, t', Group(c.company.value, c.kind))
            && t'.promotions.Keys == t.promotions.Keys + {r}
            && t'.signals.Keys <= t.signals.Keys + {ids.signal}
            && Current(t', r) && SameInput(t'.promotions[r], c)
            && t'.promotions[r].group == Group(c.company.value, c.kind)
  {
    var u, t', r := WithSignal(t, c, ids, now), Created(t, c, ids, now), ids.promotion;
    InsertExtends(t, c, ids, now);
    NewVersionIsReady(t, c, ids, now);
    HandOverTransfers(u, r, c.status, now);
    TransferExtends(u, t', r, c.status, now);
    ExtendsTransitively(t, u, t');
    assert Recorded(t'.promotions[r]) == Recorded(u.promotions[r]);
  }

  lemma ReplayedExtends(t: Tables, c: Candidate, p: Id, now: Time)
    requires Inv(t) && HasProjection(t, p)
    ensures var t' := Replayed(t, c, p, now);
            Extends(t, t') && OnlyIn(t, t', t.promotions[p].group) && Current(t', p)
  {
    if !t.promotions[p].isCurrent {
      var status := RevivedStatus(t.promotions[p], c);
      HandOverTransfers(t, p, status, now);
      TransferExtends(t, Replayed(t, c, p, now), p, status, now);
    }
  }

  // ------------------------------------------------------------- creating a batch

  /** Row `i` of a batch is the last one of its kind. */
  predicate LastOfKind(cs: seq<Candidate>, i: nat)
    requires i < |cs|
  {
    forall j :: i < j < |cs| ==> cs[j].kind != cs[i].kind
  }

  lemma TailIsFresh(t: Tables, c: Candidate, ids: seq<NewIds>, now: Time)
    requires Inv(t) && c.company.Some? && ids != [] && AllFresh(t, ids)
    requires Create(t, c, ids[0], now).Success?
    ensures AllFresh(Created(t, c, ids[0], now), ids[1..])
  {
    CreatedExtends(t, c, ids[0], now);
    var t' := Created(t, c, ids[0], now);
    forall i | 0 <= i < |ids[1..]| ensures Fresh(t', ids[1..][i]) {
      assert Fresh(t, ids[i + 1]);
    }
  }

  /** A batch of new candidates keeps the invariant, rewrites no recorded content and stores
      candidate `i` under `ids[i]`. */
  lemma {:induction false} CreateAllKeepsInv(t: Tables, cs: seq<Candidate>, ids: seq<NewIds>,
                                             now: Time, t': Tables)
    requires Inv(t) && |ids| == |cs| && Resolved(cs) && AllFresh(t, ids)
    requires CreateAll(t, cs, ids, now) == Success(t')
    ensures Inv(t') && Extends(t, t')
    ensures RowsOf(t', cs, PromotionIds(ids))
    ensures forall i :: 0 <= i < |cs| ==> RecordsCandidate(t', ids[i].promotion, cs[i], now)
    decreases |cs|
  {
    if cs != [] {
      var t1, r := Created(t, cs[0], ids[0], now), ids[0].promotion;
      CreatedRecords(t, cs[0], ids[0], now);
      CreateKeepsInv(t, cs[0], ids[0], now);
      CreatedExtends(t, cs[0], ids[0], now);
      TailIsFresh(t, cs[0], ids, now);
      CreateAllKeepsInv(t1, cs[1..], ids[1..], now, t');
      ExtendsTransitively(t, t1, t');
      RecordStays(t1, t', r, cs[0], now);
      forall i | 0 <= i < |cs| ensures RecordsCandidate(t', ids[i].promotion, cs[i], now) {
        assert i > 0 ==> cs[i] == cs[1..][i - 1] && ids[i] == ids[1..][i - 1];
      }
      var rows := PromotionIds(ids);
      forall i | 0 <= i < |cs| ensures rows[i] in t'.promotions && SameInput(t'.promotions[rows[i]], cs[i]) {
        assert RecordsCandidate(t', ids[i].promotion, cs[i], now);
      }
    }
  }

  lemma {:induction false} CreateAllError(t: Tables, cs: seq<Candidate>, ids: seq<NewIds>, now: Time)
    requires |ids| == |cs| && Resolved(cs)
    ensures var r := CreateAll(t, cs, ids, now);
            r.Failure? ==> r.error == MissingQuality || r.error == IntegrityViolation
    decreases |cs|
  {
    if cs != [] && Create(t, cs[0], ids[0], now).Success? {
      CreateAllError(Create(t, cs[0], ids[0], now).value, cs[1..], ids[1..], now);
    }
  }

  /** No candidate of the batch is of the group. */
  ghost predicate Unnamed(cs: seq<Candidate>, g: Group)
    requires Resolved(cs)
  {
    forall i :: 0 <= i < |cs| ==> Group(cs[i].company.value, cs[i].kind) != g
  }

  /** The first creation of a batch, with what the rest of it needs. */
  lemma CreateHead(t: Tables, cs: seq<Candidate>, ids: seq<NewIds>, now: Time, t': Tables)
    requires Inv(t) && |ids| == |cs| && Resolved(cs) && AllFresh(t, ids) && cs != []
    requires CreateAll(t, cs, ids, now) == Success(t')
    ensures Create(t, cs[0], ids[0], now).Success?
    ensures var t1 := Created(t, cs[0], ids[0], now);
            && Inv(t1) && AllFresh(t1, ids[1..]) && CreateAll(t1, cs[1..], ids[1..], now) == Success(t')
            && OnlyIn(t, t1, Group(cs[0].company.value, cs[0].kind))
            && Extends(t, t1) && Current(t1, ids[0].promotion)
            && t1.promotions[ids[0].promotion].group == Group(cs[0].company.value, cs[0].kind)
            && Resolved(cs[1..])
  {
    CreateKeepsInv(t, cs[0], ids[0], now);
    CreatedExtends(t, cs[0], ids[0], now);
    TailIsFresh(t, cs[0], ids, now);
  }

  lemma TailIsUnnamed(cs: seq<Candidate>, g: Group)
    requires cs != [] && Resolved(cs) && Unnamed(cs, g)
    ensures Group(cs[0].company.value, cs[0].kind) != g
    ensures Resolved(cs[1..]) && Unnamed(cs[1..], g)
  {
  }

  /** Groups that no candidate of a batch names keep their rows. */
  lemma {:induction false} CreateAllOnlyIn(t: Tables, cs: seq<Candidate>, ids: seq<NewIds>,
                                           now: Time, t': Tables, p: Id)
    requires Inv(t) && |ids| == |cs| && Resolved(cs) && AllFresh(t, ids)
    requires CreateAll(t, cs, ids, now) == Success(t') && p in t.promotions
    requires Unnamed(cs, t.promotions[p].group)
    ensures p in t'.promotions && t'.promotions[p] == t.promotions[p]
    decreases |cs|
  {
    if cs != [] {
      CreateHead(t, cs, ids, now, t');
      TailIsUnnamed(cs, t.promotions[p].group);
      CreateAllOnlyIn(Created(t, cs[0], ids[0], now), cs[1..], ids[1..], now, t', p);
    }
  }

  /** Of the new rows, the last one of each kind ends up current. */
  lemma {:induction false} CreateAllMakesCurrent(t: Tables, cs: seq<Candidate>, ids: seq<NewIds>,
                                                 now: Time, t': Tables, i: nat)
    requires Inv(t) && |ids| == |cs| && Resolved(cs) && AllFresh(t, ids)
    requires CreateAll(t, cs, ids, now) == Success(t')
    requires i < |cs| && LastOfKind(cs, i)
    ensures Current(t', ids[i].promotion)
    decreases |cs|
  {
    var t1 := Created(t, cs[0], ids[0], now);
    CreateHead(t, cs, ids, now, t');
    if i == 0 {
      assert Unnamed(cs[1..], t1.promotions[ids[0].promotion].group) by {
        assert forall j | 0 <= j < |cs[1..]| :: cs[1..][j] == cs[j + 1];
      }
      CreateAllOnlyIn(t1, cs[1..], ids[1..], now, t', ids[0].promotion);
    } else {
      CreateAllMakesCurrent(t1, cs[1..], ids[1..], now, t', i - 1);
    }
  }

  // ------------------------------------------------------------- replaying a batch

  lemma RowsStayRows(t: Tables, t': Tables, cs: seq<Candidate>, rows: seq<Id>)
    requires RowsOf(t, cs, rows) && Extends(t, t')
    ensures RowsOf(t', cs, rows)
  {
    forall i | 0 <= i < |cs|
      ensures rows[i] in t'.promotions && SameInput(t'.promotions[rows[i]], cs[i])
    {
      assert Recorded(t'.promotions[rows[i]]) == Recorded(t.promotions[rows[i]]);
    }
  }

  /** Replaying stored candidates keeps the invariant, adds no row and rewrites no recorded
      content. */
  lemma {:induction false} ReplayAllKeepsInv(t: Tables, cs: seq<Candidate>, rows: seq<Id>, now: Time)
    requires Inv(t) && RowsOf(t, cs, rows)
    ensures forall p :: p in rows ==> HasProjection(t, p)
    ensures var t' := ReplayAll(t, cs, rows, now);
            && Inv(t') && Extends(t, t')
            && t'.promotions.Keys == t.promotions.Keys && t'.signals.Keys == t.signals.Keys
    decreases |cs|
  {
    RowsHaveProjections(t, rows);
    if cs != [] {
      var t1 := Replayed(t, cs[0], rows[0], now);
      HeadStep(t, cs, rows, now);
      ReplayAllKeepsInv(t1, cs[1..], rows[1..], now);
      ExtendsTransitively(t, t1, ReplayAll(t1, cs[1..], rows[1..], now));
    }
  }

  /** The first step of a replay, with everything the rest of the replay needs. */
  lemma HeadStep(t: Tables, cs: seq<Candidate>, rows: seq<Id>, now: Time)
    requires Inv(t) && RowsOf(t, cs, rows) && cs != []
    ensures HasProjection(t, rows[0])
    ensures var t1 := Replayed(t, cs[0], rows[0], now);
            && Inv(t1) && Extends(t, t1)
            && t1.promotions.Keys == t.promotions.Keys && t1.signals.Keys == t.signals.Keys
            && OnlyIn(t, t1, t.promotions[rows[0]].group) && Current(t1, rows[0])
            && RowsOf(t1, cs[1..], rows[1..])
            && (forall p :: p in t.promotions ==> t1.promotions[p].group == t.promotions[p].group)
  {
    ReplayKeepsInv(t, cs[0], rows[0], now);
    var t1 := Replayed(t, cs[0], rows[0], now);
    ReplayedExtends(t, cs[0], rows[0], now);
    RowsStayRows(t, t1, cs, rows);
    forall p | p in t.promotions ensures t1.promotions[p].group == t.promotions[p].group {
      assert Recorded(t1.promotions[p]) == Recorded(t.promotions[p]);
    }
  }
}
