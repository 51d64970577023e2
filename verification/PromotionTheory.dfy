/** What every run of the promotion ledger keeps: one current row per company and kind, a signal
    table that agrees with it, and supersession links that always end at the current row. */
module PromotionTheory {
  import opened Wrappers
  import opened PromotionTables

  // ------------------------------------------------------------- the invariant

  /** A signal is a copy of the promotion that owns it. */
  ghost predicate Projects(s: Signal, p: Id, row: Promotion) {
    && s.promotion == p && s.aggregate == row.aggregate && s.group == row.group
    && s.content == row.content && row.qualityStatus == Some(s.qualityStatus)
    && row.qualityScore == Some(s.qualityScore) && s.createdAt == row.createdAt
  }

  ghost predicate OwnsProjection(t: Tables, p: Id)
    requires p in t.promotions
  {
    t.promotions[p].signal.Some? ==>
      && t.promotions[p].signal.value in t.signals
      && Projects(t.signals[t.promotions[p].signal.value], p, t.promotions[p])
  }

  ghost predicate IsOwned(t: Tables, s: Id)
    requires s in t.signals
  {
    && t.signals[s].promotion in t.promotions
    && t.promotions[t.signals[s].promotion].signal == Some(s)
  }

  /** Promotions that own a signal and signals are in one-to-one correspondence. */
  ghost predicate Linked(t: Tables) {
    && (forall p {:trigger OwnsProjection(t, p)} | p in t.promotions :: OwnsProjection(t, p))
    && (forall s {:trigger IsOwned(t, s)} | s in t.signals :: IsOwned(t, s))
  }

  /** A signal is active exactly while the promotion that owns it is current. */
  ghost predicate Agreed(t: Tables) {
    forall s {:trigger Active(t, s)} | s in t.signals :: Active(t, s) <==> Current(t, t.signals[s].promotion)
  }

  /** A current row has no heir; a superseded one has an heir of its own group. */
  ghost predicate WellThreaded(t: Tables, p: Id)
    requires p in t.promotions
  {
    var row := t.promotions[p];
    if row.isCurrent then
      && row.supersededBy.None? && row.supersededAt.None?
      && (row.signal.Some? ==> row.status.Promoted?)
    else
      && row.status.Superseded? && row.supersededAt.Some? && row.supersededBy.Some?
      && row.supersededBy.value in t.promotions
      && t.promotions[row.supersededBy.value].group == row.group
  }

  /** The links between signals repeat the links between the promotions that own them. */
  ghost predicate Mirrors(t: Tables, s: Id)
    requires s in t.signals
  {
    var p := t.signals[s].promotion;
    p in t.promotions && t.signals[s].supersededAt == t.promotions[p].supersededAt &&
    match t.promotions[p].supersededBy
    case None => t.signals[s].supersededBy.None?
    case Some(q) => q in t.promotions && t.signals[s].supersededBy == t.promotions[q].signal
  }

  /** `n` supersession links lead from `p` to the current row `root`. */
  ghost predicate Leads(t: Tables, p: Id, n: nat, root: Id)
    decreases n
  {
    p in t.promotions &&
    if n == 0 then p == root && t.promotions[p].isCurrent
    else
      && !t.promotions[p].isCurrent && t.promotions[p].supersededBy.Some?
      && Leads(t, t.promotions[p].supersededBy.value, n - 1, root)
  }

  ghost predicate Rooted(t: Tables, p: Id) {
    exists n, root :: Leads(t, p, n, root)
  }

  ghost predicate Inv(t: Tables) {
    && Integrity(t) && Linked(t) && Agreed(t)
    && (forall p {:trigger WellThreaded(t, p)} | p in t.promotions :: WellThreaded(t, p))
    && (forall p {:trigger Rooted(t, p)} | p in t.promotions :: Rooted(t, p))
    && (forall s {:trigger Mirrors(t, s)} | s in t.signals :: Mirrors(t, s))
  }

  // ---------------------------------------------------- links end at the current row

  lemma {:induction false} LeadsWithinGroup(t: Tables, p: Id, n: nat, root: Id)
    requires Inv(t) && Leads(t, p, n, root)
    ensures root in t.promotions && t.promotions[root].group == t.promotions[p].group
    decreases n
  {
    if n > 0 {
      assert WellThreaded(t, p);
      LeadsWithinGroup(t, t.promotions[p].supersededBy.value, n - 1, root);
    }
  }

  lemma {:induction false} LeadsOnce(t: Tables, p: Id, n: nat, root: Id, m: nat, other: Id)
    requires Leads(t, p, n, root) && Leads(t, p, m, other)
    ensures n == m && root == other
    decreases n
  {
    if n > 0 && m > 0 {
      LeadsOnce(t, t.promotions[p].supersededBy.value, n - 1, root, m - 1, other);
    }
  }

  /** From every row the links reach, in one definite number of steps, a row that is current, of
      the same company and kind, and the only current one there. */
  lemma SupersessionEndsAtCurrent(t: Tables, p: Id) returns (n: nat, root: Id)
    requires Inv(t) && p in t.promotions
    ensures Leads(t, p, n, root)
    ensures Current(t, root) && t.promotions[root].group == t.promotions[p].group
    ensures forall q | Current(t, q) && t.promotions[q].group == t.promotions[p].group :: q == root
  {
    assert Rooted(t, p);
    n, root :| Leads(t, p, n, root);
    LeadsWithinGroup(t, p, n, root);
    EndIsCurrent(t, p, n, root);
  }

  lemma {:induction false} EndIsCurrent(t: Tables, p: Id, n: nat, root: Id)
    requires Leads(t, p, n, root)
    ensures Current(t, root)
    decreases n
  {
    if n > 0 { EndIsCurrent(t, t.promotions[p].supersededBy.value, n - 1, root); }
  }

  /** The row `k` links on from `p`, as long as there are links. */
  ghost function Walk(t: Tables, p: Id, k: nat): Option<Id>
    decreases k
  {
    if k == 0 then Some(p)
    else if p in t.promotions && t.promotions[p].supersededBy.Some?
    then Walk(t, t.promotions[p].supersededBy.value, k - 1)
    else None
  }

  lemma {:induction false} WalkLeads(t: Tables, p: Id, k: nat, n: nat, root: Id)
    requires Inv(t) && Leads(t, p, n, root) && Walk(t, p, k).Some?
    ensures k <= n && Leads(t, Walk(t, p, k).value, n - k, root)
    decreases k
  {
    assert WellThreaded(t, p);
    if k > 0 { WalkLeads(t, t.promotions[p].supersededBy.value, k - 1, n - 1, root); }
  }

  /** Following the links never returns to a row already visited. */
  lemma SupersessionNeverCycles(t: Tables, p: Id, k: nat)
    requires Inv(t) && p in t.promotions && k > 0
    ensures Walk(t, p, k) != Some(p)
  {
    if Walk(t, p, k) == Some(p) {
      var n, root := SupersessionEndsAtCurrent(t, p);
      WalkLeads(t, p, k, n, root);
      LeadsOnce(t, p, n, root, n - k, root);
    }
  }

  // ---------------------------------------------------------- handing over a group

  /** All of the invariant except what concerns the row `r` that is about to become current. */
  ghost predicate Ready(t: Tables, r: Id) {
    && Integrity(t) && Linked(t) && Agreed(t)
    && r in t.promotions && !t.promotions[r].isCurrent
    && (forall p {:trigger WellThreaded(t, p)} | p in t.promotions && p != r :: WellThreaded(t, p))
    && (forall p {:trigger Rooted(t, p)} | p in t.promotions && p != r :: Rooted(t, p))
    && (forall s {:trigger Mirrors(t, s)} | s in t.signals && t.signals[s].promotion != r ::
          Mirrors(t, s))
  }

  ghost function HandedOver(t: Tables, r: Id, status: PromotionStatus, now: Time): Tables
    requires HasProjection(t, r)
  {
    var row := t.promotions[r];
    Raise(Supersede(t, row.group, r, row.signal, now), r, status, now)
  }

  /** Re-rooting: a path that ended at the old current row now ends at `r`. */
  lemma {:induction false} ReRoot(t: Tables, r: Id, status: PromotionStatus, now: Time,
                                  p: Id, n: nat, last: Id) returns (m: nat)
    requires Ready(t, r) && HasProjection(t, r) && Leads(t, p, n, last)
    requires t.promotions[p].group == t.promotions[r].group
    ensures Leads(HandedOver(t, r, status, now), p, m, r)
    decreases n
  {
    var t' := HandedOver(t, r, status, now);
    if p == r {
      m := 0;
    } else if n == 0 {
      assert Leads(t', r, 0, r);
      m := 1;
    } else {
      assert WellThreaded(t, p);
      var next := t.promotions[p].supersededBy.value;
      var k := ReRoot(t, r, status, now, next, n - 1, last);
      m := k + 1;
    }
  }

  /** Groups other than that of `r` keep their paths. */
  lemma {:induction false} OtherGroupsKeepPaths(t: Tables, r: Id, status: PromotionStatus,
                                                now: Time, p: Id, n: nat, root: Id)
    requires Ready(t, r) && HasProjection(t, r) && Leads(t, p, n, root)
    requires t.promotions[p].group != t.promotions[r].group
    ensures Leads(HandedOver(t, r, status, now), p, n, root)
    decreases n
  {
    if n > 0 {
      assert WellThreaded(t, p);
      OtherGroupsKeepPaths(t, r, status, now, t.promotions[p].supersededBy.value, n - 1, root);
    }
  }

  lemma HandOverKeepsPaths(t: Tables, r: Id, status: PromotionStatus, now: Time, p: Id)
    requires Ready(t, r) && HasProjection(t, r) && p in t.promotions
    ensures Rooted(HandedOver(t, r, status, now), p)
  {
    var t' := HandedOver(t, r, status, now);
    if p == r {
      assert Leads(t', r, 0, r);
    } else {
      assert Rooted(t, p);
      var n, root :| Leads(t, p, n, root);
      if t.promotions[p].group == t.promotions[r].group {
        var m := ReRoot(t, r, status, now, p, n, root);
      } else {
        OtherGroupsKeepPaths(t, r, status, now, p, n, root);
      }
    }
  }

  ghost function RowAfter(t: Tables, r: Id, status: PromotionStatus, now: Time, p: Id): Promotion
    requires p in t.promotions && r in t.promotions
  {
    var row := t.promotions[p];
    if p == r then
      row.(status := status, isCurrent := true, supersededBy := None, supersededAt := None,
           updatedAt := now)
    else if row.isCurrent && row.group == t.promotions[r].group then Retired(row, r, now)
    else row
  }

  ghost function SignalAfter(t: Tables, r: Id, now: Time, s: Id): Signal
    requires s in t.signals && t.signals[s].promotion in t.promotions && r in t.promotions
  {
    var signal, owner := t.signals[s], t.signals[s].promotion;
    if owner == r then
      signal.(isActive := true, supersededBy := None, supersededAt := None)
    else if t.promotions[owner].isCurrent && t.promotions[owner].group == t.promotions[r].group
    then RetiredSignal(signal, t.promotions[r].signal, now)
    else signal
  }

  /** The hand-over row by row: `t'` is `t` after it. */
  ghost predicate Transfers(t: Tables, t': Tables, r: Id, status: PromotionStatus, now: Time) {
    && r in t.promotions && !t.promotions[r].isCurrent
    && t'.promotions.Keys == t.promotions.Keys && t'.signals.Keys == t.signals.Keys
    && (forall p | p in t.promotions :: t'.promotions[p] == RowAfter(t, r, status, now, p))
    && (forall s | s in t.signals ::
          && t.signals[s].promotion in t.promotions
          && t'.signals[s] == SignalAfter(t, r, now, s))
  }

  lemma HandOverTransfers(t: Tables, r: Id, status: PromotionStatus, now: Time)
    requires r in t.promotions && !t.promotions[r].isCurrent && Linked(t)
    ensures HasProjection(t, r)
    ensures Transfers(t, HandedOver(t, r, status, now), r, status, now)
  {
    assert OwnsProjection(t, r);
    var t' := HandedOver(t, r, status, now);
    forall s | s in t.signals
      ensures t.signals[s].promotion in t.promotions && t'.signals[s] == SignalAfter(t, r, now, s)
    {
      assert IsOwned(t, s);
    }
  }

  lemma TransferKeepsUniqueness(t: Tables, t': Tables, r: Id, status: PromotionStatus, now: Time)
    requires Transfers(t, t', r, status, now)
    requires UniqueInput(t) && UniqueCurrent(t)
    ensures UniqueInput(t') && UniqueCurrent(t')
  {
    forall p, q | p in t'.promotions && q in t'.promotions
        && SharedInput(t'.promotions[p], t'.promotions[q]) ensures p == q {
      assert SharedInput(t.promotions[p], t.promotions[q]);
    }
    forall p, q | Current(t', p) && Current(t', q)
        && t'.promotions[p].group == t'.promotions[q].group ensures p == q {
      assert p != r ==> Current(t, p);
      assert q != r ==> Current(t, q);
    }
  }

  lemma TransferKeepsChecks(t: Tables, t': Tables, r: Id, status: PromotionStatus, now: Time)
    requires Transfers(t, t', r, status, now) && RowChecks(t)
    ensures RowChecks(t')
  {
    forall p | p in t'.promotions
      ensures NotBlank(t'.promotions[p].fingerprint)
      ensures t'.promotions[p].qualityScore.Some? ==> InRange(t'.promotions[p].qualityScore.value)
    {
      assert t'.promotions[p].fingerprint == t.promotions[p].fingerprint;
    }
    forall s | s in t'.signals
      ensures Projectable(Some(t'.signals[s].qualityStatus)) && InRange(t'.signals[s].qualityScore)
    {
      assert t'.signals[s].qualityScore == t.signals[s].qualityScore;
    }
  }

  lemma TransferKeepsLinks(t: Tables, t': Tables, r: Id, status: PromotionStatus, now: Time)
    requires Transfers(t, t', r, status, now) && Linked(t)
    ensures Linked(t')
  {
    forall p | p in t'.promotions ensures OwnsProjection(t', p) {
      assert OwnsProjection(t, p);
    }
    forall s | s in t'.signals ensures IsOwned(t', s) {
      assert IsOwned(t, s);
    }
  }

  lemma LinkedMakesProjectionUnique(t: Tables)
    requires Linked(t)
    ensures UniqueProjection(t)
  {
    forall s, u | s in t.signals && u in t.signals
        && t.signals[s].promotion == t.signals[u].promotion ensures s == u {
      assert IsOwned(t, s) && IsOwned(t, u);
    }
  }

  lemma TransferKeepsAgreement(t: Tables, t': Tables, r: Id, status: PromotionStatus, now: Time)
    requires Transfers(t, t', r, status, now) && Agreed(t)
    ensures Agreed(t')
  {
    forall s | s in t'.signals ensures Active(t', s) <==> Current(t', t'.signals[s].promotion) {
      assert Active(t, s) <==> Current(t, t.signals[s].promotion);
    }
  }

  /** Active signals are unique because the promotions they agree with are. */
  lemma AgreementMakesActiveUnique(t: Tables)
    requires Linked(t) && Agreed(t) && UniqueCurrent(t)
    ensures UniqueActive(t)
  {
    forall s, u | s in t.signals && u in t.signals && Active(t, s) && Active(t, u)
        && t.signals[s].group == t.signals[u].group ensures s == u {
      var p, q := t.signals[s].promotion, t.signals[u].promotion;
      assert IsOwned(t, s) && IsOwned(t, u) && OwnsProjection(t, p) && OwnsProjection(t, q);
      assert Current(t, p) && Current(t, q);
    }
  }

  lemma TransferThreads(t: Tables, t': Tables, r: Id, status: PromotionStatus, now: Time, p: Id)
    requires Transfers(t, t', r, status, now)
    requires t.promotions[r].signal.Some? ==> status.Promoted?
    requires p in t.promotions && (p != r ==> WellThreaded(t, p))
    ensures WellThreaded(t', p)
  {
  }

  lemma TransferMirrors(t: Tables, t': Tables, r: Id, status: PromotionStatus, now: Time, s: Id)
    requires Transfers(t, t', r, status, now) && s in t.signals
    requires t.signals[s].promotion != r ==> Mirrors(t, s)
    ensures Mirrors(t', s)
  {
  }

  /** Sound links name stored rows, and so do the links between the signals. */
  lemma ThreadsAreReferences(t: Tables)
    requires Linked(t)
    requires forall p {:trigger WellThreaded(t, p)} | p in t.promotions :: WellThreaded(t, p)
    requires forall s {:trigger Mirrors(t, s)} | s in t.signals :: Mirrors(t, s)
    ensures SelfReferences(t)
  {
    forall p | p in t.promotions ensures HeirIsStored(t, p) {
      assert WellThreaded(t, p);
    }
    forall s | s in t.signals ensures SignalHeirIsStored(t, s) {
      var p := t.signals[s].promotion;
      assert Mirrors(t, s) && WellThreaded(t, p);
      assert t.promotions[p].supersededBy.Some? ==> OwnsProjection(t, t.promotions[p].supersededBy.value);
    }
  }

  lemma SupersedeKeepsReferences(t: Tables, g: Group, heir: Id, heirSignal: Option<Id>, now: Time)
    requires SelfReferences(t) && heir in t.promotions && (heirSignal.Some? ==> heirSignal.value in t.signals)
    ensures SelfReferences(Supersede(t, g, heir, heirSignal, now))
  {
    var u := Supersede(t, g, heir, heirSignal, now);
    forall p | p in u.promotions ensures HeirIsStored(u, p) {
      assert HeirIsStored(t, p);
    }
    forall s | s in u.signals ensures SignalHeirIsStored(u, s) {
      assert SignalHeirIsStored(t, s);
    }
  }

  lemma NewRowsKeepReferences(t: Tables, t': Tables)
    requires SelfReferences(t) && t.promotions.Keys <= t'.promotions.Keys && t.signals.Keys <= t'.signals.Keys
    requires forall p :: p in t'.promotions ==>
               if p in t.promotions then t'.promotions[p] == t.promotions[p] else t'.promotions[p].supersededBy.None?
    requires forall s :: s in t'.signals ==>
               if s in t.signals then t'.signals[s] == t.signals[s] else t'.signals[s].supersededBy.None?
    ensures SelfReferences(t')
  {
    forall p | p in t'.promotions ensures HeirIsStored(t', p) {
      assert p in t.promotions ==> HeirIsStored(t, p);
    }
    forall s | s in t'.signals ensures SignalHeirIsStored(t', s) {
      assert s in t.signals ==> SignalHeirIsStored(t, s);
    }
  }

  /** The foreign keys between the two tables, which are checked at the commit. */
  ghost predicate CrossReferences(t: Tables) {
    && (forall p :: p in t.promotions && t.promotions[p].signal.Some? ==> t.promotions[p].signal.value in t.signals)
    && (forall s :: s in t.signals ==> t.signals[s].promotion in t.promotions)
  }

  lemma CommitAccepts(t: Tables)
    requires Inv(t)
    ensures Integrity(t) && CrossReferences(t)
  {
    forall p | p in t.promotions && t.promotions[p].signal.Some? ensures t.promotions[p].signal.value in t.signals {
      assert OwnsProjection(t, p);
    }
    forall s | s in t.signals ensures t.signals[s].promotion in t.promotions {
      assert IsOwned(t, s);
    }
  }

  lemma HandOverKeepsInv(t: Tables, r: Id, status: PromotionStatus, now: Time)
    requires Ready(t, r) && HasProjection(t, r)
    requires t.promotions[r].signal.Some? ==> status.Promoted?
    ensures Inv(HandedOver(t, r, status, now))
  {
    var t' := HandedOver(t, r, status, now);
    HandOverTransfers(t, r, status, now);
    TransferKeepsUniqueness(t, t', r, status, now);
    TransferKeepsChecks(t, t', r, status, now);
    TransferKeepsLinks(t, t', r, status, now);
    TransferKeepsAgreement(t, t', r, status, now);
    AgreementMakesActiveUnique(t');
    LinkedMakesProjectionUnique(t');
    forall p | p in t'.promotions ensures WellThreaded(t', p) && Rooted(t', p) {
      TransferThreads(t, t', r, status, now, p);
      HandOverKeepsPaths(t, r, status, now, p);
    }
    forall s | s in t'.signals ensures Mirrors(t', s) {
      TransferMirrors(t, t', r, status, now, s);
    }
    ThreadsAreReferences(t');
  }

  // ------------------------------------------------------------- creating a version

  /** The first flush passes exactly when the row meets its checks and its key is new. */
  lemma FirstFlushAccepts(t: Tables, c: Candidate, ids: NewIds, now: Time)
    requires Inv(t) && c.company.Some? && Fresh(t, ids)
    ensures Integrity(WithPromotion(t, c, ids, now)) <==>
            && NotBlank(c.fingerprint) && !IsStored(t, c)
            && (c.qualityScore.Some? ==> InRange(c.qualityScore.value))
  {
    var t', r := WithPromotion(t, c, ids, now), ids.promotion;
    assert t'.promotions[r] == NewPromotion(c, c.company.value, OwnSignal(c, ids), now);
    NewRowsKeepReferences(t, t');
    if IsStored(t, c) {
      var p :| p in t.promotions && SameInput(t.promotions[p], c);
      assert SharedInput(t'.promotions[p], t'.promotions[r]);
    } else {
      NewRowKeepsUniqueness(t, c, ids, now);
    }
    assert RowChecks(t') ==> NotBlank(t'.promotions[r].fingerprint);
  }

  lemma NewRowKeepsUniqueness(t: Tables, c: Candidate, ids: NewIds, now: Time)
    requires UniqueInput(t) && UniqueCurrent(t) && UniqueActive(t) && UniqueProjection(t)
    requires c.company.Some? && Fresh(t, ids) && !IsStored(t, c)
    ensures var t' := WithPromotion(t, c, ids, now);
            UniqueInput(t') && UniqueCurrent(t') && UniqueActive(t') && UniqueProjection(t')
  {
    var t', r := WithPromotion(t, c, ids, now), ids.promotion;
    assert forall p {:trigger t.promotions[p]} | p in t.promotions :: !SameInput(t.promotions[p], c);
    forall p, q | p in t'.promotions && q in t'.promotions
        && SharedInput(t'.promotions[p], t'.promotions[q]) ensures p == q {
      if p != r && q != r {
        assert SharedInput(t.promotions[p], t.promotions[q]);
      }
    }
    forall p, q | Current(t', p) && Current(t', q)
        && t'.promotions[p].group == t'.promotions[q].group ensures p == q {
      assert Current(t, p) && Current(t, q);
    }
    forall s, u | Active(t', s) && Active(t', u)
        && t'.signals[s].group == t'.signals[u].group ensures s == u {
      assert Active(t, s) && Active(t, u);
    }
  }

  /** The second flush passes exactly when the quality may be projected. */
  lemma SecondFlushAccepts(t: Tables, c: Candidate, ids: NewIds, now: Time)
    requires Inv(t) && c.company.Some? && Fresh(t, ids) && !LacksQuality(c)
    requires Integrity(WithPromotion(t, c, ids, now))
    ensures Integrity(WithSignal(t, c, ids, now)) <==>
            (c.status.Promoted? ==> Projectable(c.qualityStatus))
  {
    if c.status.Promoted? {
      var u, t', s := WithPromotion(t, c, ids, now), WithSignal(t, c, ids, now), ids.signal;
      assert t'.signals[s] == NewSignal(c, c.company.value, ids.promotion, now);
      NewRowsKeepReferences(u, t');
      assert t'.promotions[ids.promotion].qualityScore == c.qualityScore;
      forall x, y | x in t'.signals && y in t'.signals
          && t'.signals[x].promotion == t'.signals[y].promotion ensures x == y {
        assert x != s ==> IsOwned(t, x);
        assert y != s ==> IsOwned(t, y);
      }
      forall x, y | Active(t', x) && Active(t', y)
          && t'.signals[x].group == t'.signals[y].group ensures x == y {
        assert Active(u, x) && Active(u, y);
      }
      assert UniqueInput(t') by {
        forall p, q | p in t'.promotions && q in t'.promotions
            && SharedInput(t'.promotions[p], t'.promotions[q]) ensures p == q {
          assert SharedInput(u.promotions[p], u.promotions[q]);
        }
      }
      assert UniqueCurrent(t') by {
        forall p, q | Current(t', p) && Current(t', q)
            && t'.promotions[p].group == t'.promotions[q].group ensures p == q {
          assert Current(u, p) && Current(u, q);
        }
      }
      forall p | p in t'.promotions
        ensures NotBlank(t'.promotions[p].fingerprint)
        ensures t'.promotions[p].qualityScore.Some? ==> InRange(t'.promotions[p].qualityScore.value)
      {
        assert u.promotions[p] == t'.promotions[p];
      }
      assert RowChecks(t') <==> Projectable(c.qualityStatus) by {
        forall x | x in t'.signals && x != s
          ensures Projectable(Some(t'.signals[x].qualityStatus)) && InRange(t'.signals[x].qualityScore)
        {
          assert t'.signals[x] == u.signals[x];
        }
      }
    }
  }

  /** Rows that do not link to a new row keep their paths when it is added. */
  lemma {:induction false} NewRowKeepsPath(t: Tables, c: Candidate, ids: NewIds, now: Time,
                                           p: Id, n: nat, root: Id)
    requires Inv(t) && c.company.Some? && Fresh(t, ids) && !LacksQuality(c) && Leads(t, p, n, root)
    ensures Leads(WithSignal(t, c, ids, now), p, n, root)
    decreases n
  {
    if n > 0 {
      assert WellThreaded(t, p);
      NewRowKeepsPath(t, c, ids, now, t.promotions[p].supersededBy.value, n - 1, root);
    }
  }

  lemma NewRowIsLinked(t: Tables, c: Candidate, ids: NewIds, now: Time)
    requires Inv(t) && c.company.Some? && Fresh(t, ids) && !LacksQuality(c)
    ensures Linked(WithSignal(t, c, ids, now)) && Agreed(WithSignal(t, c, ids, now))
  {
    var t', r := WithSignal(t, c, ids, now), ids.promotion;
    forall p | p in t'.promotions ensures OwnsProjection(t', p) {
      assert p != r ==> OwnsProjection(t, p);
    }
    forall s | s in t'.signals
      ensures IsOwned(t', s) && (Active(t', s) <==> Current(t', t'.signals[s].promotion))
    {
      if s in t.signals {
        assert IsOwned(t, s) && (Active(t, s) <==> Current(t, t.signals[s].promotion));
      }
    }
  }

  lemma NewRowKeepsRoot(t: Tables, c: Candidate, ids: NewIds, now: Time, p: Id)
    requires Inv(t) && c.company.Some? && Fresh(t, ids) && Create(t, c, ids, now).Success?
    requires p in t.promotions
    ensures WellThreaded(WithSignal(t, c, ids, now), p) && Rooted(WithSignal(t, c, ids, now), p)
  {
    assert WellThreaded(t, p) && Rooted(t, p);
    var n, root :| Leads(t, p, n, root);
    NewRowKeepsPath(t, c, ids, now, p, n, root);
  }

  lemma NewVersionIsReady(t: Tables, c: Candidate, ids: NewIds, now: Time)
    requires Inv(t) && c.company.Some? && Fresh(t, ids) && Create(t, c, ids, now).Success?
    ensures Integrity(WithPromotion(t, c, ids, now))
    ensures Ready(WithSignal(t, c, ids, now), ids.promotion)
    ensures HasProjection(WithSignal(t, c, ids, now), ids.promotion)
  {
    var t', r := WithSignal(t, c, ids, now), ids.promotion;
    FirstFlushAccepts(t, c, ids, now);
    SecondFlushAccepts(t, c, ids, now);
    NewRowIsLinked(t, c, ids, now);
    forall p | p in t'.promotions && p != r ensures WellThreaded(t', p) && Rooted(t', p) {
      NewRowKeepsRoot(t, c, ids, now, p);
    }
    forall s | s in t'.signals && t'.signals[s].promotion != r ensures Mirrors(t', s) {
      assert Mirrors(t, s) && IsOwned(t, s);
    }
  }

  /** The flush between retiring the old row and raising the new one passes too. */
  lemma RetiringFlushAccepts(t: Tables, r: Id, now: Time)
    requires Ready(t, r) && HasProjection(t, r)
    ensures Integrity(Supersede(t, t.promotions[r].group, r, t.promotions[r].signal, now))
  {
    var u := Supersede(t, t.promotions[r].group, r, t.promotions[r].signal, now);
    SupersedeKeepsReferences(t, t.promotions[r].group, r, t.promotions[r].signal, now);
    forall p | p in u.promotions ensures Current(u, p) ==> Current(t, p) {}
    forall s | s in u.signals ensures Active(u, s) ==> Active(t, s) {}
    forall p, q | p in u.promotions && q in u.promotions
        && SharedInput(u.promotions[p], u.promotions[q]) ensures p == q {
      assert SharedInput(t.promotions[p], t.promotions[q]);
    }
    forall p | p in u.promotions
      ensures NotBlank(u.promotions[p].fingerprint)
      ensures u.promotions[p].qualityScore.Some? ==> InRange(u.promotions[p].qualityScore.value)
    {
      assert u.promotions[p].fingerprint == t.promotions[p].fingerprint;
    }
  }

  lemma CreateKeepsInv(t: Tables, c: Candidate, ids: NewIds, now: Time)
    requires Inv(t) && c.company.Some? && Fresh(t, ids) && Create(t, c, ids, now).Success?
    ensures HasProjection(WithRetired(t, c, ids, now), ids.promotion)
    ensures Inv(Created(t, c, ids, now))
  {
    NewVersionIsReady(t, c, ids, now);
    HandOverKeepsInv(WithSignal(t, c, ids, now), ids.promotion, c.status, now);
  }

  // --------------------------------------------------------------- reviving a version

  lemma OldVersionIsReady(t: Tables, p: Id)
    requires Inv(t) && p in t.promotions && !t.promotions[p].isCurrent
    ensures Ready(t, p) && HasProjection(t, p)
  {
    assert OwnsProjection(t, p);
  }

  lemma ReplayKeepsInv(t: Tables, c: Candidate, p: Id, now: Time)
    requires Inv(t) && p in t.promotions
    ensures HasProjection(t, p) && Inv(Replayed(t, c, p, now))
  {
    assert OwnsProjection(t, p);
    if !t.promotions[p].isCurrent {
      OldVersionIsReady(t, p);
      HandOverKeepsInv(t, p, RevivedStatus(t.promotions[p], c), now);
    }
  }
}
