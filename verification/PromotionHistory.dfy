/** Sequences of batches, replays of old batches, and the lists the repository answers with. */
module PromotionHistory {
  import opened Wrappers
  import opened PromotionTables
  import opened PromotionTheory
  import opened PromotionRuns
  import opened PromotionReplay
  import opened PromotionOutcomes

  // ------------------------------------------------------------------ every batch

  /** A batch that succeeds keeps the invariant and rewrites no recorded content; it adds a row
      for every candidate, which records the candidate column by column, when it reports `created`,
      and no row at all otherwise; and every row it writes is accounted for. */
  lemma ApplyKeepsInv(t: Tables, cs: seq<Candidate>, ids: seq<NewIds>, now: Time)
    requires Inv(t) && |ids| == |cs| && AllFresh(t, ids)
    requires Apply(t, cs, ids, now).Success?
    ensures var o := Apply(t, cs, ids, now).value;
            && Inv(o.tables) && Extends(t, o.tables) && RowsOf(o.tables, cs, o.rows)
            && (o.created ==> forall p :: p in o.rows ==> p !in t.promotions)
            && (!o.created ==> o.tables.promotions.Keys == t.promotions.Keys
                               && o.tables.signals.Keys == t.signals.Keys)
            && AllAccountedFor(t, o.tables, cs, o.rows, now)
            && (o.created ==>
                  && |o.rows| == |cs|
                  && forall i :: 0 <= i < |cs| ==> RecordsCandidate(o.tables, o.rows[i], cs[i], now))
  {
    BatchIsAccountedFor(t, cs, ids, now);
    var o := Apply(t, cs, ids, now).value;
    if cs != [] {
      if AllStored(t, cs) {
        ReplayAllKeepsInv(t, cs, o.rows, now);
        RowsStayRows(t, o.tables, cs, o.rows);
      } else {
        CreateAllKeepsInv(t, cs, ids, now, o.tables);
        forall p | p in o.rows ensures p !in t.promotions {
          var i :| 0 <= i < |ids| && p == o.rows[i];
          assert Fresh(t, ids[i]);
        }
      }
    }
  }

  datatype Batch = Batch(candidates: seq<Candidate>, ids: seq<NewIds>, now: Time)

  /** The unit of work commits a batch that succeeds and rolls back one that fails. */
  ghost function Commit(t: Tables, b: Batch): Tables
    requires Inv(t) && |b.ids| == |b.candidates|
  {
    match Apply(t, b.candidates, b.ids, b.now)
    case Success(o) => o.tables
    case Failure(_) => t
  }

  ghost predicate IsStep(t: Tables, b: Batch, t': Tables) {
    && |b.ids| == |b.candidates| && AllFresh(t, b.ids)
    && (Inv(t) ==> t' == Commit(t, b))
  }

  /** `states` is what the database held before, between and after the batches. */
  ghost predicate IsRun(states: seq<Tables>, batches: seq<Batch>) {
    && |states| == |batches| + 1 && states[0] == EMPTY
    && forall i {:trigger batches[i]} :: 0 <= i < |batches| ==>
         IsStep(states[i], batches[i], states[i + 1])
  }

  lemma StepKeepsInv(t: Tables, b: Batch, t': Tables)
    requires Inv(t) && IsStep(t, b, t')
    ensures Inv(t') && Extends(t, t')
  {
    if Apply(t, b.candidates, b.ids, b.now).Success? {
      ApplyKeepsInv(t, b.candidates, b.ids, b.now);
    }
  }

  lemma {:induction false} RunReachesInv(states: seq<Tables>, batches: seq<Batch>, k: nat)
    requires IsRun(states, batches) && k <= |batches|
    ensures Inv(states[k])
    decreases k
  {
    if k > 0 {
      RunReachesInv(states, batches, k - 1);
      StepKeepsInv(states[k - 1], batches[k - 1], states[k]);
    }
  }

  lemma {:induction false} RunExtends(states: seq<Tables>, batches: seq<Batch>, i: nat, k: nat)
    requires IsRun(states, batches) && i <= k <= |batches|
    ensures Extends(states[i], states[k])
    decreases k
  {
    if i < k {
      RunExtends(states, batches, i, k - 1);
      RunReachesInv(states, batches, k - 1);
      StepKeepsInv(states[k - 1], batches[k - 1], states[k]);
      ExtendsTransitively(states[i], states[k - 1], states[k]);
    }
  }

  /** Every state of every run satisfies the invariant, and the ledger only ever grows. */
  lemma RunKeepsInv(states: seq<Tables>, batches: seq<Batch>, k: nat)
    requires IsRun(states, batches) && k <= |batches|
    ensures Inv(states[k])
    ensures forall i :: 0 <= i <= k ==> Extends(states[i], states[k])
  {
    RunReachesInv(states, batches, k);
    forall i | 0 <= i <= k ensures Extends(states[i], states[k]) {
      RunExtends(states, batches, i, k);
    }
  }

  // ------------------------------------------------------------------ repetition

  predicate DistinctKinds(cs: seq<Candidate>) {
    forall i, j :: 0 <= i < j < |cs| ==> cs[i].kind != cs[j].kind
  }

  /** Every row of a batch with distinct kinds is current once the batch has been applied. */
  lemma AppliedRowsAreCurrent(t: Tables, cs: seq<Candidate>, ids: seq<NewIds>, now: Time)
    requires Inv(t) && |ids| == |cs| && AllFresh(t, ids) && DistinctKinds(cs)
    requires Apply(t, cs, ids, now).Success?
    ensures AllCurrent(Apply(t, cs, ids, now).value.tables, Apply(t, cs, ids, now).value.rows)
  {
    var o := Apply(t, cs, ids, now).value;
    forall i | 0 <= i < |o.rows| ensures Current(o.tables, o.rows[i]) {
      if AllStored(t, cs) {
        forall j | i < j < |o.rows|
          ensures t.promotions[o.rows[j]].group != t.promotions[o.rows[i]].group {
          assert SameInput(t.promotions[o.rows[i]], cs[i]) && SameInput(t.promotions[o.rows[j]], cs[j]);
        }
        ReplayAllMakesCurrent(t, cs, o.rows, now, i);
      } else {
        CreateAllMakesCurrent(t, cs, ids, now, o.tables, i);
      }
    }
  }

  /** Applying a batch with distinct kinds again reports nothing created, names the same rows and
      leaves the tables exactly as they were, timestamps included. */
  lemma ApplyTwice(t: Tables, cs: seq<Candidate>, ids: seq<NewIds>, now: Time,
                   ids': seq<NewIds>, now': Time)
    requires Inv(t) && |ids| == |cs| == |ids'| && AllFresh(t, ids) && DistinctKinds(cs)
    requires Apply(t, cs, ids, now).Success?
    ensures var o := Apply(t, cs, ids, now).value;
            && Inv(o.tables)
            && Apply(o.tables, cs, ids', now') == Success(Outcome(o.tables, o.rows, false))
  {
    var o := Apply(t, cs, ids, now).value;
    ApplyKeepsInv(t, cs, ids, now);
    AppliedRowsAreCurrent(t, cs, ids, now);
    forall i | 0 <= i < |cs| ensures IsStored(o.tables, cs[i]) && StoredRow(o.tables, cs[i]) == o.rows[i] {
      StoredRowIsUnique(o.tables, cs[i], o.rows[i]);
    }
    if cs != [] {
      assert StoredRows(o.tables, cs) == o.rows;
      ReplayOfCurrentRowsIsNothing(o.tables, cs, o.rows, now');
    }
  }

  /** Replaying, at any later point of a run, a batch that was once stored makes its rows current
      again and adds no row to either table. */
  lemma ReplayOlderBatch(states: seq<Tables>, batches: seq<Batch>, i: nat, k: nat,
                         ids: seq<NewIds>, now: Time)
    requires IsRun(states, batches) && i < k <= |batches|
    requires batches[i].candidates != [] && DistinctKinds(batches[i].candidates)
    requires |ids| == |batches[i].candidates| && AllFresh(states[k], ids)
    requires |batches[i].ids| == |batches[i].candidates| && Inv(states[i])
    requires Apply(states[i], batches[i].candidates, batches[i].ids, batches[i].now).Success?
    ensures Inv(states[k])
    ensures var cs := batches[i].candidates;
            var first := Apply(states[i], cs, batches[i].ids, batches[i].now).value;
            var again := Apply(states[k], cs, ids, now);
            && again.Success? && !again.value.created && again.value.rows == first.rows
            && AllCurrent(again.value.tables, first.rows)
            && again.value.tables.promotions.Keys == states[k].promotions.Keys
            && again.value.tables.signals.Keys == states[k].signals.Keys
  {
    var cs := batches[i].candidates;
    RunKeepsInv(states, batches, i);
    RunKeepsInv(states, batches, k);
    ApplyKeepsInv(states[i], cs, batches[i].ids, batches[i].now);
    var rows := Apply(states[i], cs, batches[i].ids, batches[i].now).value.rows;
    assert Extends(states[i + 1], states[k]);
    RowsStayRows(states[i + 1], states[k], cs, rows);
    forall j | 0 <= j < |cs|
      ensures IsStored(states[k], cs[j]) && StoredRow(states[k], cs[j]) == rows[j]
    {
      StoredRowIsUnique(states[k], cs[j], rows[j]);
    }
    assert OneCompany(cs);
    assert StoredRows(states[k], cs) == rows;
    ApplyKeepsInv(states[k], cs, ids, now);
    AppliedRowsAreCurrent(states[k], cs, ids, now);
  }

  /** A batch of which one candidate is stored and another is not is refused before any write. */
  lemma PartialBatchRefused(t: Tables, cs: seq<Candidate>, ids: seq<NewIds>, now: Time)
    requires Inv(t) && |ids| == |cs| && OneCompany(cs)
    ensures Apply(t, cs, ids, now) == Failure(PartialBatch) <==> !AllStored(t, cs) && !NoneStored(t, cs)
  {
    if NoneStored(t, cs) {
      assert !IsStored(t, cs[0]);
      CreateAllError(t, cs, ids, now);
    }
  }

  // ------------------------------------------------------------------ the two lists

  /** Signal kinds in the order the queries sort them. */
  const KINDS := [CargoValuePotential, ChinaDependency, CompanyScale, Contactability,
                  GrowthSignal, ImportActivity, LogisticsComplexity, ShippingFit]

  ghost function CurrentOf(t: Tables, g: Group): Option<Id> {
    if exists p :: Current(t, p) && t.promotions[p].group == g
    then var p :| Current(t, p) && t.promotions[p].group == g; Some(p)
    else None
  }

  ghost function ActiveOf(t: Tables, g: Group): Option<Id> {
    if exists s :: Active(t, s) && t.signals[s].group == g
    then var s :| Active(t, s) && t.signals[s].group == g; Some(s)
    else None
  }

  ghost function CurrentRows(t: Tables, company: Id, kinds: seq<SignalKind>): seq<Id> {
    if kinds == [] then []
    else
      (match CurrentOf(t, Group(company, kinds[0])) case None => [] case Some(p) => [p])
      + CurrentRows(t, company, kinds[1..])
  }

  ghost function ActiveRows(t: Tables, company: Id, kinds: seq<SignalKind>): seq<Id> {
    if kinds == [] then []
    else
      (match ActiveOf(t, Group(company, kinds[0])) case None => [] case Some(s) => [s])
      + ActiveRows(t, company, kinds[1..])
  }

  ghost function ListCurrentPromotions(t: Tables, company: Id): seq<Id> {
    CurrentRows(t, company, KINDS)
  }

  ghost function ListActiveSignals(t: Tables, company: Id): seq<Id> {
    ActiveRows(t, company, KINDS)
  }

  /** The signals of those rows that own one, in the same order. */
  ghost function OwnedSignals(t: Tables, rows: seq<Id>): seq<Id> {
    if rows == [] then []
    else
      (if rows[0] in t.promotions && t.promotions[rows[0]].signal.Some?
       then [t.promotions[rows[0]].signal.value] else [])
      + OwnedSignals(t, rows[1..])
  }

  lemma {:induction false} OwnedSignalsOfParts(t: Tables, a: seq<Id>, b: seq<Id>)
    ensures OwnedSignals(t, a + b) == OwnedSignals(t, a) + OwnedSignals(t, b)
    decreases |a|
  {
    if a == [] {
      assert a + b == b;
    } else {
      assert (a + b)[1..] == a[1..] + b;
      OwnedSignalsOfParts(t, a[1..], b);
    }
  }

  lemma OwnerOfActive(t: Tables, s: Id)
    requires Inv(t) && Active(t, s)
    ensures var p := t.signals[s].promotion;
            Current(t, p) && t.promotions[p].group == t.signals[s].group
            && t.promotions[p].signal == Some(s)
  {
    assert IsOwned(t, s) && OwnsProjection(t, t.signals[s].promotion);
  }

  lemma ProjectionOfCurrent(t: Tables, p: Id)
    requires Inv(t) && Current(t, p) && t.promotions[p].signal.Some?
    ensures var s := t.promotions[p].signal.value;
            Active(t, s) && t.signals[s].group == t.promotions[p].group
  {
    assert OwnsProjection(t, p);
    assert Active(t, t.promotions[p].signal.value) <==> Current(t, p);
  }

  /** A group has an active signal exactly when its current row owns one, and it is that one. */
  lemma ActiveOfIsOwned(t: Tables, g: Group)
    requires Inv(t)
    ensures ActiveOf(t, g) == match CurrentOf(t, g) case None => None
                              case Some(p) => t.promotions[p].signal
  {
    if ActiveOf(t, g).Some? {
      OwnerOfActive(t, ActiveOf(t, g).value);
    }
    if CurrentOf(t, g).Some? && t.promotions[CurrentOf(t, g).value].signal.Some? {
      ProjectionOfCurrent(t, CurrentOf(t, g).value);
    }
  }

  /** The active signals of a company are exactly the projections of those of its current
      promotions that own one, in the same order. */
  lemma ActiveSignalsAreProjections(t: Tables, company: Id)
    requires Inv(t)
    ensures ListActiveSignals(t, company) == OwnedSignals(t, ListCurrentPromotions(t, company))
    ensures forall s :: s in ListActiveSignals(t, company) ==>
              s in t.signals && t.signals[s].promotion in t.promotions
              && Projects(t.signals[s], t.signals[s].promotion, t.promotions[t.signals[s].promotion])
  {
    ActiveRowsAreOwned(t, company, KINDS);
  }

  lemma {:induction false} ActiveRowsAreOwned(t: Tables, company: Id, kinds: seq<SignalKind>)
    requires Inv(t)
    ensures ActiveRows(t, company, kinds) == OwnedSignals(t, CurrentRows(t, company, kinds))
    ensures forall s :: s in ActiveRows(t, company, kinds) ==>
              s in t.signals && t.signals[s].promotion in t.promotions
              && Projects(t.signals[s], t.signals[s].promotion, t.promotions[t.signals[s].promotion])
  {
    if kinds != [] {
      var g := Group(company, kinds[0]);
      ActiveOfIsOwned(t, g);
      ActiveRowsAreOwned(t, company, kinds[1..]);
      var head := match CurrentOf(t, g) case None => [] case Some(p) => [p];
      OwnedSignalsOfParts(t, head, CurrentRows(t, company, kinds[1..]));
      if ActiveOf(t, g).Some? {
        var s := ActiveOf(t, g).value;
        assert IsOwned(t, s) && OwnsProjection(t, t.signals[s].promotion);
      }
    }
  }

  /** The list of current promotions misses none: it holds exactly the company's current rows. */
  lemma CurrentPromotionsAreAll(t: Tables, company: Id, p: Id)
    requires Inv(t)
    ensures p in ListCurrentPromotions(t, company) <==>
            Current(t, p) && t.promotions[p].group.company == company
  {
    CurrentRowsAreAll(t, company, KINDS, p);
    if Current(t, p) {
      KindIsListed(t.promotions[p].group.kind);
    }
  }

  lemma KindIsListed(k: SignalKind)
    ensures k in KINDS
  {
    var i := match k
      case CargoValuePotential => 0 case ChinaDependency => 1 case CompanyScale => 2
      case Contactability => 3 case GrowthSignal => 4 case ImportActivity => 5
      case LogisticsComplexity => 6 case ShippingFit => 7;
    assert KINDS[i] == k;
  }

  lemma {:induction false} CurrentRowsAreAll(t: Tables, company: Id, kinds: seq<SignalKind>, p: Id)
    requires Inv(t)
    ensures p in CurrentRows(t, company, kinds) <==>
            && Current(t, p) && t.promotions[p].group.company == company
            && t.promotions[p].group.kind in kinds
  {
    if kinds != [] {
      var g := Group(company, kinds[0]);
      CurrentRowsAreAll(t, company, kinds[1..], p);
      if Current(t, p) && t.promotions[p].group == g {
        assert Current(t, CurrentOf(t, g).value);
      }
    }
  }

  lemma {:induction false} OwnedSignalsHave(t: Tables, rows: seq<Id>, s: Id)
    ensures s in OwnedSignals(t, rows) <==>
            exists p | p in rows :: p in t.promotions && t.promotions[p].signal == Some(s)
  {
    if rows != [] {
      OwnedSignalsHave(t, rows[1..], s);
      assert forall p :: p in rows <==> p == rows[0] || p in rows[1..];
    }
  }

  /** The list of active signals misses none either: it holds exactly the company's active rows. */
  lemma ActiveSignalsAreAll(t: Tables, company: Id, s: Id)
    requires Inv(t)
    ensures s in ListActiveSignals(t, company) <==> Active(t, s) && t.signals[s].group.company == company
  {
    var rows := ListCurrentPromotions(t, company);
    ActiveSignalsAreProjections(t, company);
    OwnedSignalsHave(t, rows, s);
    if s in ListActiveSignals(t, company) {
      var p :| p in rows && p in t.promotions && t.promotions[p].signal == Some(s);
      CurrentPromotionsAreAll(t, company, p);
      ProjectionOfCurrent(t, p);
    }
    if Active(t, s) && t.signals[s].group.company == company {
      OwnerOfActive(t, s);
      CurrentPromotionsAreAll(t, company, t.signals[s].promotion);
    }
  }
}
