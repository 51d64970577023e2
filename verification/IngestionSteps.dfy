/** Every step of a concurrent ingestion keeps the invariant. */
module IngestionSteps {
  import opened Ingestion
  import opened Wrappers
  import LockOrder

  lemma HeldKeysStay(key: Hash, t: Txn, t': Txn, k: int)
    requires Holds(key, t, k) && !t'.done && t'.pages == t.pages
    requires 2 * t.index + t.taken <= 2 * t'.index + t'.taken
    ensures Holds(key, t', k)
  {
    var u, u' := LockView(key, t), LockView(key, t');
    var m :| 0 <= m < u.taken && m < |u.keys| && u.keys[m] == k;
    assert u'.keys[m] == k;
  }

  lemma ScopesStay(key: Hash, t: Txn, t': Txn)
    requires !t.done && !t'.done && t'.pages == t.pages
    requires 2 * t.index + t.taken <= 2 * t'.index + t'.taken
    requires forall d | d in t.pending :: HoldsScope(key, t, t.pending[d])
    ensures forall d | d in t.pending :: HoldsScope(key, t', t.pending[d])
  {
    forall d | d in t.pending ensures HoldsScope(key, t', t.pending[d]) {
      var doc := t.pending[d];
      HeldKeysStay(key, t, t', UrlKey(key, doc.company, doc.url));
      if doc.isCurrent && doc.duplicateOf.None? {
        HeldKeysStay(key, t, t', ContentKey(key, doc.company, doc.hash));
      }
    }
  }

  // ---- one step of transaction i: what it does to i itself

  lemma OwnLockOrRead(key: Hash, s: System, i: nat, s': System)
    requires i < |s.txns| == |s'.txns| && s'.docs == s.docs && !s.txns[i].done && TxnOk(key, s, i)
    requires Locks(key, s, i, s'.txns[i]) || Reads(s, i, s'.txns[i])
    ensures TxnOk(key, s', i)
  {
    assert View(s', i) == View(s, i);
    ScopesStay(key, s.txns[i], s'.txns[i]);
  }

  lemma OwnReuse(key: Hash, s: System, i: nat, s': System)
    requires i < |s.txns| == |s'.txns| && s'.docs == s.docs && !s.txns[i].done && TxnOk(key, s, i)
    requires s.txns[i].index < |s.txns[i].pages| && s.txns[i].taken == 2
    requires s'.txns[i] == NextPage(s.txns[i])
    ensures TxnOk(key, s', i)
  {
    ScopesStay(key, s.txns[i], s'.txns[i]);
    assert View(s', i) == View(s, i);
  }

  lemma WrittenAmends(docs: Docs, pending: Docs, p: Page, found: Option<Id>, root: Option<Id>, newId: Id)
    requires Amends(docs, pending) && newId !in docs && newId !in pending
    requires found.Some? ==> found.value in docs + pending
    ensures var view := docs + pending;
            var written := Written(view, pending, p, found, root, newId);
            Amends(docs, written) && docs + written == Written(view, view, p, found, root, newId)
  {
  }

  lemma OwnWriteView(s: System, i: nat, s': System, root: Option<Id>, newId: Id)
    requires i < |s.txns| == |s'.txns| && s'.docs == s.docs
    requires s.txns[i].index < |s.txns[i].pages| && s.txns[i].found.Some?
    requires WritesNew(s, i, s'.txns[i], root, newId)
    requires Amends(s.docs, s.txns[i].pending) && Sound(View(s, i))
    requires ReadsCurrent(View(s, i), s.txns[i].pages[s.txns[i].index], s.txns[i].found.value)
    ensures Amends(s.docs, s'.txns[i].pending) && Sound(View(s', i))
  {
    var t := s.txns[i];
    var p, found := t.pages[t.index], t.found.value;
    assert newId !in t.pending;
    WriteKeepsSound(View(s, i), p, found, root, newId);
    WrittenAmends(s.docs, t.pending, p, found, root, newId);
  }

  lemma OwnWriteNew(key: Hash, s: System, i: nat, s': System, root: Option<Id>, newId: Id)
    requires i < |s.txns| == |s'.txns| && s'.docs == s.docs && !s.txns[i].done && TxnOk(key, s, i)
    requires s.txns[i].index < |s.txns[i].pages| && s.txns[i].taken == 2 && s.txns[i].found.Some?
    requires WritesNew(s, i, s'.txns[i], root, newId)
    ensures TxnOk(key, s', i)
  {
    var t, t' := s.txns[i], s'.txns[i];
    ScopesStay(key, t, t'.(pending := t.pending));
    NewScopesHeld(key, t, t', View(s, i), root, newId);
    OwnWriteView(s, i, s', root, newId);
  }

  lemma NewScopesHeld(key: Hash, t: Txn, t': Txn, view: Docs, root: Option<Id>, newId: Id)
    requires !t.done && t.index < |t.pages| && t.taken == 2 && t.found.Some?
    requires t.found.value.Some? ==> t.found.value.value in view
    requires ReadsCurrent(view, t.pages[t.index], t.found.value)
    requires t' == NextPage(t).(pending := Written(view, t.pending, t.pages[t.index], t.found.value, root, newId))
    requires forall d | d in t.pending :: HoldsScope(key, t', t.pending[d])
    ensures forall d | d in t'.pending :: HoldsScope(key, t', t'.pending[d])
  {
    var p := t.pages[t.index];
    ScopeIsHeld(key, t);
    HeldKeysStay(key, t, t', UrlKey(key, p.company, p.url));
    HeldKeysStay(key, t, t', ContentKey(key, p.company, p.hash));
  }

  /** The version a transaction is about to retire is not being written by another one. */
  lemma FoundIsOurs(key: Hash, s: System, i: nat, j: nat)
    requires Inv(key, s) && i < |s.txns| && j < |s.txns| && j != i && !s.txns[i].done
    requires s.txns[i].index < |s.txns[i].pages| && s.txns[i].taken == 2
    requires s.txns[i].found.Some? && s.txns[i].found.value.Some?
    ensures s.txns[i].found.value.value !in s.txns[j].pending
  {
    var t, d := s.txns[i], s.txns[i].found.value.value;
    var p := t.pages[t.index];
    assert TxnOk(key, s, i) && TxnOk(key, s, j) && PendingIsApart(s, i, j);
    ScopeIsHeld(key, t);
    if d in s.txns[j].pending {
      AmendedUrlIsHeld(key, s, j, d);
      KeysAreExclusive(key, s, i, j, UrlKey(key, p.company, p.url));
    }
  }

  /** Who amends a committed document holds the lock of its URL. */
  lemma AmendedUrlIsHeld(key: Hash, s: System, j: nat, d: Id)
    requires j < |s.txns| && TxnOk(key, s, j) && d in s.txns[j].pending && d in s.docs
    ensures Holds(key, s.txns[j], UrlKey(key, s.docs[d].company, s.docs[d].url))
  {
    assert HoldsScope(key, s.txns[j], s.txns[j].pending[d]);
    assert SameRecord(s.txns[j].pending[d], s.docs[d]);
  }

  // ---- and to the others

  lemma OthersAfterCommit(key: Hash, s: System, i: nat, s': System, j: nat)
    requires Inv(key, s) && i < |s.txns| && j < |s.txns| && j != i && !s.txns[i].done
    requires |s'.txns| == |s.txns| && s'.txns[j] == s.txns[j] && s'.docs == View(s, i)
    ensures TxnOk(key, s', j)
  {
    assert TxnOk(key, s, i) && TxnOk(key, s, j) && PendingIsApart(s, i, j);
    var t, a, b := s.txns[j], s.txns[i].pending, s.txns[j].pending;
    PendingIsSeparate(key, s, i, j);
    SeparateWritesMerge(s.docs, a, b);
    assert View(s', j) == s.docs + a + b;
    forall d | d in b && d in s'.docs ensures SameRecord(b[d], s'.docs[d]) && !b[d].isCurrent {
      assert d !in a;
    }
    if !t.done && t.found.Some? {
      var p := t.pages[t.index];
      ScopeIsHeld(key, t);
      forall d | d in a ensures a[d].company != p.company || a[d].url != p.url {
        assert HoldsScope(key, s.txns[i], a[d]);
        if Holds(key, s.txns[i], UrlKey(key, p.company, p.url)) {
          KeysAreExclusive(key, s, i, j, UrlKey(key, p.company, p.url));
        }
      }
      SameCurrent(s.docs, a, b, p);
    }
  }

  /** Writes outside a URL leave its current document alone. */
  lemma SameCurrent(docs: Docs, a: Docs, b: Docs, p: Page)
    requires Amends(docs, a)
    requires forall d | d in a :: a[d].company != p.company || a[d].url != p.url
    ensures forall d :: CurrentOf(docs + a + b, p.company, p.url, d)
                        <==> CurrentOf(docs + b, p.company, p.url, d)
  {
    forall d ensures CurrentOf(docs + a + b, p.company, p.url, d) <==> CurrentOf(docs + b, p.company, p.url, d) {
      if d in a && d in docs {
        assert SameRecord(a[d], docs[d]);
      }
    }
  }

  lemma OwnWrite(key: Hash, s: System, i: nat, s': System)
    requires i < |s.txns| == |s'.txns| && s'.docs == s.docs && !s.txns[i].done && TxnOk(key, s, i)
    requires Writes(s, i, s'.txns[i])
    ensures TxnOk(key, s', i)
  {
    if s'.txns[i] == NextPage(s.txns[i]) {
      OwnReuse(key, s, i, s');
    } else {
      var root, newId :| WritesNew(s, i, s'.txns[i], root, newId);
      OwnWriteNew(key, s, i, s', root, newId);
    }
  }

  lemma OwnEnd(key: Hash, s: System, i: nat, s': System)
    requires i < |s.txns| == |s'.txns| && AtPage(s.txns[i]) && Sound(s'.docs)
    requires s'.txns[i] == s.txns[i].(done := true, pending := map[])
    ensures TxnOk(key, s', i)
  {
    assert View(s', i) == s'.docs;
  }

  lemma OwnStep(key: Hash, s: System, i: nat, s': System)
    requires Inv(key, s) && Step(key, s, i, s')
    ensures TxnOk(key, s', i)
  {
    assert TxnOk(key, s, i);
    if s'.txns[i] == s.txns[i].(done := true, pending := map[]) {
      OwnEnd(key, s, i, s');
    } else if Writes(s, i, s'.txns[i]) {
      OwnWrite(key, s, i, s');
    } else {
      OwnLockOrRead(key, s, i, s');
    }
  }

  lemma StepKeepsApart(key: Hash, s: System, i: nat, s': System, j: nat)
    requires Inv(key, s) && Step(key, s, i, s') && j < |s.txns| && j != i
    ensures PendingIsApart(s', i, j) && PendingIsApart(s', j, i)
  {
    var t, t' := s.txns[i], s'.txns[i];
    assert PendingIsApart(s, i, j) && PendingIsApart(s, j, i);
    if !t'.done && Writes(s, i, t') && t' != NextPage(t) {
      var root, newId :| WritesNew(s, i, t', root, newId);
      if t.found.value.Some? {
        FoundIsOurs(key, s, i, j);
      }
    }
  }

  /** Every step keeps the invariant. */
  lemma StepKeepsInv(key: Hash, s: System, i: nat, s': System)
    requires Inv(key, s) && Step(key, s, i, s')
    ensures Inv(key, s')
  {
    StepKeepsLocks(key, s, i, s');
    OwnStep(key, s, i, s');
    forall j: nat | j < |s'.txns| && j != i
      ensures TxnOk(key, s', j) && PendingIsApart(s', i, j) && PendingIsApart(s', j, i)
    {
      assert TxnOk(key, s, j);
      StepKeepsApart(key, s, i, s', j);
      if s'.docs == s.docs {
        assert View(s', j) == View(s, j);
      } else {
        OthersAfterCommit(key, s, i, s', j);
      }
    }
    forall j: nat, k: nat | j < |s'.txns| && k < |s'.txns| && j != k && j != i && k != i
      ensures PendingIsApart(s', j, k)
    {
      assert PendingIsApart(s, j, k);
    }
    assert TxnOk(key, s, i) && Sound(s'.docs);
  }

  lemma StepKeepsLocks(key: Hash, s: System, i: nat, s': System)
    requires Inv(key, s) && Step(key, s, i, s')
    ensures LockOrder.Inv(LockViews(key, s'.txns))
  {
    forall j: nat | j < |s.txns| ensures s.txns[j].taken <= 2 {
      assert TxnOk(key, s, j);
    }
    StepIsLockStep(key, s, i, s');
    if LockViews(key, s'.txns) != LockViews(key, s.txns) {
      LockOrder.StepKeepsInv(LockViews(key, s.txns), i, LockViews(key, s'.txns));
    }
  }

  lemma InitialInv(key: Hash, s: System)
    requires Initial(s)
    ensures Inv(key, s)
  {
    LockOrder.InitialInv(LockViews(key, s.txns));
    forall i: nat | i < |s.txns| ensures TxnOk(key, s, i) {}
  }
}
