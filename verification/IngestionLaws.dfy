/** What the committed documents record: where each came from, that the last ingested content of a URL is its
    current version, and that the versions of a URL form a chain. */
module IngestionLaws {
  import opened Ingestion
  import opened IngestionSteps
  import opened IngestionRuns
  import opened Wrappers
  import LockOrder

  // ------------------------------------------------------------------------ where documents come from

  /** The document records the page: a current one is quarantined exactly when the page was, and ready
      otherwise; one that is not current is superseded. */
  predicate Records(d: Doc, p: Page) {
    && d.company == p.company && d.url == p.url && d.hash == p.hash
    && (d.isCurrent ==> (d.status == Quarantined <==> p.quarantined) && (d.status == Ready <==> !p.quarantined))
    && (!d.isCurrent ==> d.status == Superseded)
  }

  ghost predicate RecordsPage(txns: seq<Txn>, d: Doc, j: nat, n: nat) {
    j < |txns| && n < |txns[j].pages| && Records(d, txns[j].pages[n])
  }

  /** The document records a page that some transaction ingests. */
  ghost predicate Planned(txns: seq<Txn>, d: Doc) {
    exists j: nat, n: nat :: RecordsPage(txns, d, j, n)
  }

  ghost predicate AllPlanned(txns: seq<Txn>, docs: Docs) {
    forall d | d in docs :: Planned(txns, docs[d])
  }

  ghost predicate Grounded(s: System) {
    && AllPlanned(s.txns, s.docs)
    && forall i: nat {:trigger s.txns[i]} | i < |s.txns| :: AllPlanned(s.txns, s.txns[i].pending)
  }

  ghost predicate SamePages(txns: seq<Txn>, txns': seq<Txn>) {
    |txns'| == |txns| && forall j | 0 <= j < |txns| :: txns'[j].pages == txns[j].pages
  }

  lemma PlannedStays(txns: seq<Txn>, txns': seq<Txn>, docs: Docs)
    requires SamePages(txns, txns') && AllPlanned(txns, docs)
    ensures AllPlanned(txns', docs)
  {
    forall d | d in docs ensures Planned(txns', docs[d]) {
      var j: nat, n: nat :| RecordsPage(txns, docs[d], j, n);
      assert RecordsPage(txns', docs[d], j, n);
    }
  }

  lemma StepKeepsPages(key: Hash, s: System, i: nat, s': System)
    requires Step(key, s, i, s')
    ensures SamePages(s.txns, s'.txns)
  {
  }

  /** What a write records is the page, and what it retires is superseded. */
  lemma WriteIsPlanned(s: System, i: nat, t': Txn, root: Option<Id>, newId: Id)
    requires i < |s.txns| && s.txns[i].index < |s.txns[i].pages| && s.txns[i].found.Some?
    requires WritesNew(s, i, t', root, newId)
    requires AllPlanned(s.txns, View(s, i)) && AllPlanned(s.txns, s.txns[i].pending)
    ensures AllPlanned(s.txns, t'.pending)
  {
    var t, view := s.txns[i], View(s, i);
    forall d | d in t'.pending ensures Planned(s.txns, t'.pending[d]) {
      if d == newId {
        assert RecordsPage(s.txns, t'.pending[d], i, t.index);
      } else if t.found.value == Some(d) {
        var j: nat, n: nat :| RecordsPage(s.txns, view[d], j, n);
        assert RecordsPage(s.txns, t'.pending[d], j, n);
      }
    }
  }

  lemma StepKeepsGrounded(key: Hash, s: System, i: nat, s': System)
    requires Grounded(s) && Step(key, s, i, s')
    ensures Grounded(s')
  {
    var t, t' := s.txns[i], s'.txns[i];
    StepKeepsPages(key, s, i, s');
    assert AllPlanned(s.txns, t.pending) && AllPlanned(s.txns, View(s, i));
    assert AllPlanned(s.txns, t'.pending) by {
      if !t'.done && Writes(s, i, t') && t' != NextPage(t) {
        var root, newId :| WritesNew(s, i, t', root, newId);
        WriteIsPlanned(s, i, t', root, newId);
      }
    }
    PlannedStays(s.txns, s'.txns, s'.docs);
    forall j: nat | j < |s'.txns| ensures AllPlanned(s'.txns, s'.txns[j].pending) {
      PlannedStays(s.txns, s'.txns, s'.txns[j].pending);
    }
  }

  /** In every state of every run, every committed document records a page that some transaction ingests:
      a current one with the status that page calls for, any other one as superseded. */
  lemma {:induction false} DocumentsRecordPages(key: Hash, states: seq<System>, k: nat)
    requires IsRun(key, states) && k < |states|
    ensures Grounded(states[k])
    ensures forall d | d in states[k].docs :: Planned(states[k].txns, states[k].docs[d])
    decreases k
  {
    if k > 0 {
      DocumentsRecordPages(key, states, k - 1);
      assert StepsAt(key, states, k);
      var i: nat :| Step(key, states[k - 1], i, states[k]);
      StepKeepsGrounded(key, states[k - 1], i, states[k]);
    }
  }

  // ------------------------------------------------------------------------ versions form a chain

  predicate Succeeds(docs: Docs, e: Id, d: Id) {
    e in docs && docs[e].supersedes == Some(d)
  }

  /** Exactly the versions that are not current have a successor. */
  ghost predicate HasSuccessorIff(docs: Docs, d: Id)
    requires d in docs
  {
    !docs[d].isCurrent <==> exists e :: Succeeds(docs, e, d)
  }

  /** Every version but the current one has a successor, and only one. */
  ghost predicate Chained(docs: Docs) {
    && (forall d {:trigger HasSuccessorIff(docs, d)} | d in docs :: HasSuccessorIff(docs, d))
    && (forall d: Id, e: Id, e': Id | Succeeds(docs, e, d) && Succeeds(docs, e', d) :: d in docs && e == e')
  }

  lemma WriteKeepsChained(view: Docs, p: Page, found: Option<Id>, root: Option<Id>, newId: Id)
    requires Chained(view) && ReadsCurrent(view, p, found) && newId !in view
    requires found.Some? ==> found.value in view
    requires forall d | d in view :: LinksAreSound(view, d)
    ensures Chained(Written(view, view, p, found, root, newId))
  {
    var v := Written(view, view, p, found, root, newId);
    forall e: Id, d: Id | e != newId ensures Succeeds(v, e, d) <==> Succeeds(view, e, d) {}
    forall d | d in v ensures HasSuccessorIff(v, d) {
      if d == newId {
        forall e ensures !Succeeds(v, e, d) {
          assert e in view ==> LinksAreSound(view, e);
        }
      } else {
        assert HasSuccessorIff(view, d);
        if Some(d) == found {
          assert Succeeds(v, newId, d);
        }
        if e :| Succeeds(view, e, d) {
          assert Succeeds(v, e, d);
        }
      }
    }
    forall d: Id, e: Id, e': Id | Succeeds(v, e, d) && Succeeds(v, e', d) ensures d in v && e == e' {
      if found == Some(d) {
        assert HasSuccessorIff(view, d);
      }
    }
  }

  /** Who succeeds a version in a transaction's view, or had been retired before. */
  lemma SuccessorIsOurs(docs: Docs, a: Docs, e: Id, d: Id)
    requires Amends(docs, a) && Chained(docs) && Chained(docs + a) && Succeeds(docs + a, e, d)
    ensures d in docs + a && (d in a || Succeeds(docs, e, d))
  {
    var v := docs + a;
    assert HasSuccessorIff(v, d);
    if d !in a {
      assert HasSuccessorIff(docs, d);
      var e' :| Succeeds(docs, e', d);
      assert Succeeds(v, e', d) by {
        assert e' in a ==> SameRecord(a[e'], docs[e']);
      }
    }
  }

  /** Separate writes keep the versions a chain when both are committed. */
  lemma MergeKeepsChained(docs: Docs, a: Docs, b: Docs)
    requires Amends(docs, a) && Amends(docs, b) && Separate(a, b)
    requires Chained(docs) && Chained(docs + a) && Chained(docs + b)
    ensures Chained(docs + a + b)
  {
    var m, va, vb := docs + a + b, docs + a, docs + b;
    forall e: Id, d: Id ensures Succeeds(m, e, d) <==> Succeeds(va, e, d) || Succeeds(vb, e, d) {
      assert e in docs && e in a ==> SameRecord(a[e], docs[e]);
      assert e in docs && e in b ==> SameRecord(b[e], docs[e]);
    }
    forall d | d in m ensures HasSuccessorIff(m, d) {
      MergedSuccessor(docs, a, b, d);
    }
    forall d: Id, e: Id, e': Id | Succeeds(m, e, d) && Succeeds(m, e', d) ensures d in m && e == e' {
      MergedSuccessors(docs, a, b, e, e', d);
    }
  }

  lemma MergedSuccessor(docs: Docs, a: Docs, b: Docs, d: Id)
    requires Amends(docs, a) && Amends(docs, b) && Separate(a, b)
    requires Chained(docs) && Chained(docs + a) && Chained(docs + b) && d in docs + a + b
    requires forall e, x :: Succeeds(docs + a + b, e, x) <==> Succeeds(docs + a, e, x) || Succeeds(docs + b, e, x)
    ensures HasSuccessorIff(docs + a + b, d)
  {
    var m, va, vb := docs + a + b, docs + a, docs + b;
    assert d in va ==> HasSuccessorIff(va, d);
    assert d in vb ==> HasSuccessorIff(vb, d);
    if e :| Succeeds(va, e, d) {
      SuccessorIsOurs(docs, a, e, d);
      assert d in a ==> d !in b;
    }
    if e :| Succeeds(vb, e, d) {
      SuccessorIsOurs(docs, b, e, d);
    }
    if d in docs {
      assert HasSuccessorIff(docs, d);
    }
  }

  lemma MergedSuccessors(docs: Docs, a: Docs, b: Docs, e: Id, e': Id, d: Id)
    requires Amends(docs, a) && Amends(docs, b) && Separate(a, b)
    requires Chained(docs) && Chained(docs + a) && Chained(docs + b)
    requires Succeeds(docs + a, e, d) || Succeeds(docs + b, e, d)
    requires Succeeds(docs + a, e', d) || Succeeds(docs + b, e', d)
    ensures d in docs + a + b && e == e'
  {
    var va, vb := docs + a, docs + b;
    if Succeeds(va, e, d) && Succeeds(vb, e', d) {
      ApartSuccessors(docs, a, b, e, e', d);
    } else if Succeeds(vb, e, d) && Succeeds(va, e', d) {
      ApartSuccessors(docs, a, b, e', e, d);
    }
  }

  lemma ApartSuccessors(docs: Docs, a: Docs, b: Docs, e: Id, e': Id, d: Id)
    requires Amends(docs, a) && Amends(docs, b) && Separate(a, b)
    requires Chained(docs) && Chained(docs + a) && Chained(docs + b)
    requires Succeeds(docs + a, e, d) && Succeeds(docs + b, e', d)
    ensures d in docs + a && e == e'
  {
    SuccessorIsOurs(docs, a, e, d);
    SuccessorIsOurs(docs, b, e', d);
    assert d in a ==> d !in b;
    if Succeeds(docs, e, d) {
      assert Succeeds(docs + b, e, d) by {
        assert e in b ==> SameRecord(b[e], docs[e]);
      }
    } else {
      assert Succeeds(docs, e', d);
      assert Succeeds(docs + a, e', d) by {
        assert e' in a ==> SameRecord(a[e'], docs[e']);
      }
    }
  }

  ghost predicate ViewIsChained(s: System, i: nat)
    requires i < |s.txns|
  {
    Chained(View(s, i))
  }

  ghost predicate AllChained(s: System) {
    Chained(s.docs) && forall i: nat {:trigger ViewIsChained(s, i)} | i < |s.txns| :: ViewIsChained(s, i)
  }

  lemma OwnWriteKeepsChained(s: System, i: nat, s': System, root: Option<Id>, newId: Id)
    requires i < |s.txns| == |s'.txns| && s'.docs == s.docs
    requires s.txns[i].index < |s.txns[i].pages| && s.txns[i].found.Some?
    requires WritesNew(s, i, s'.txns[i], root, newId)
    requires Amends(s.docs, s.txns[i].pending) && Sound(View(s, i)) && Chained(View(s, i))
    requires ReadsCurrent(View(s, i), s.txns[i].pages[s.txns[i].index], s.txns[i].found.value)
    ensures Chained(View(s', i))
  {
    var t := s.txns[i];
    WriteKeepsChained(View(s, i), t.pages[t.index], t.found.value, root, newId);
    WrittenAmends(s.docs, t.pending, t.pages[t.index], t.found.value, root, newId);
  }

  lemma OwnStepKeepsChained(key: Hash, s: System, i: nat, s': System)
    requires Inv(key, s) && Step(key, s, i, s') && AllChained(s)
    ensures Chained(s'.docs) && Chained(View(s', i))
  {
    var t, t' := s.txns[i], s'.txns[i];
    assert TxnOk(key, s, i) && ViewIsChained(s, i);
    if t' == t.(done := true, pending := map[]) {
      EndKeepsChained(s, i, s');
    } else if Writes(s, i, t') && t' != NextPage(t) {
      var root, newId :| WritesNew(s, i, t', root, newId);
      OwnWriteKeepsChained(s, i, s', root, newId);
    } else {
      SameViewIsChained(s, i, s');
    }
  }

  lemma EndKeepsChained(s: System, i: nat, s': System)
    requires i < |s.txns| == |s'.txns| && s'.txns[i].pending == map[]
    requires s'.docs == s.docs || s'.docs == View(s, i)
    requires Chained(s.docs) && Chained(View(s, i))
    ensures Chained(s'.docs) && Chained(View(s', i))
  {
    assert View(s', i) == s'.docs;
  }

  lemma SameViewIsChained(s: System, i: nat, s': System)
    requires i < |s.txns| == |s'.txns| && s'.docs == s.docs && s'.txns[i].pending == s.txns[i].pending
    requires Chained(s.docs) && Chained(View(s, i))
    ensures Chained(s'.docs) && Chained(View(s', i))
  {
    assert View(s', i) == View(s, i);
  }

  lemma OtherStaysChained(key: Hash, s: System, i: nat, s': System, j: nat)
    requires Inv(key, s) && i < |s.txns| == |s'.txns| && j < |s.txns| && j != i
    requires s'.txns[j] == s.txns[j] && s'.docs == View(s, i)
    requires Chained(s.docs) && Chained(View(s, i)) && Chained(View(s, j))
    ensures Chained(View(s', j))
  {
    assert TxnOk(key, s, i) && TxnOk(key, s, j);
    PendingIsSeparate(key, s, i, j);
    MergeKeepsChained(s.docs, s.txns[i].pending, s.txns[j].pending);
    assert View(s', j) == s.docs + s.txns[i].pending + s.txns[j].pending;
  }

  lemma StepKeepsChained(key: Hash, s: System, i: nat, s': System)
    requires Inv(key, s) && Step(key, s, i, s') && AllChained(s)
    ensures AllChained(s')
  {
    OwnStepKeepsChained(key, s, i, s');
    forall j: nat | j < |s'.txns| && j != i ensures ViewIsChained(s', j) {
      assert ViewIsChained(s, i) && ViewIsChained(s, j);
      if s'.docs == s.docs {
        assert View(s', j) == View(s, j);
      } else {
        OtherStaysChained(key, s, i, s', j);
      }
    }
  }

  /** In every state of every run, exactly the committed versions that are not current have a successor, and
      only one: nothing is retired without a replacement, and no version is replaced twice. */
  lemma {:induction false} VersionsFormAChain(key: Hash, states: seq<System>, k: nat)
    requires IsRun(key, states) && k < |states|
    ensures AllChained(states[k]) && Chained(states[k].docs)
    decreases k
  {
    if k == 0 {
      forall i: nat | i < |states[0].txns| ensures ViewIsChained(states[0], i) {}
    } else {
      VersionsFormAChain(key, states, k - 1);
      RunIsSound(key, states, k - 1);
      assert StepsAt(key, states, k);
      var i: nat :| Step(key, states[k - 1], i, states[k]);
      StepKeepsChained(key, states[k - 1], i, states[k]);
    }
  }

  // ------------------------------------------------------------------------ what was ingested is stored

  /** The URL of the page has a current version, and it is of the page's content. */
  ghost predicate Stored(docs: Docs, p: Page) {
    exists d :: CurrentOf(docs, p.company, p.url, d) && docs[d].hash == p.hash
  }

  predicate SameUrl(p: Page, q: Page) {
    p.company == q.company && p.url == q.url
  }

  /** Of the first `k` pages, page `n` is the last one of its URL. */
  predicate LastOfUrl(pages: seq<Page>, k: nat, n: nat)
    requires n < k <= |pages|
  {
    forall m | n < m < k :: !SameUrl(pages[m], pages[n])
  }

  /** In the view of the transaction, the pages it is done with are stored. */
  ghost predicate DoneAreStored(docs: Docs, pages: seq<Page>, k: nat)
    requires k <= |pages|
  {
    forall n: nat {:trigger LastOfUrl(pages, k, n)} | n < k && LastOfUrl(pages, k, n) :: Stored(docs, pages[n])
  }

  ghost predicate Progress(s: System, i: nat)
    requires i < |s.txns|
  {
    var t := s.txns[i];
    t.index <= |t.pages| && (!t.done ==> DoneAreStored(View(s, i), t.pages, t.index))
  }

  ghost predicate AllProgress(s: System) {
    forall i: nat {:trigger Progress(s, i)} | i < |s.txns| :: Progress(s, i)
  }

  lemma StoredElsewhere(view: Docs, p: Page, found: Option<Id>, root: Option<Id>, newId: Id, q: Page)
    requires ReadsCurrent(view, p, found) && newId !in view && !SameUrl(p, q) && Stored(view, q)
    requires found.Some? ==> found.value in view
    ensures Stored(Written(view, view, p, found, root, newId), q)
  {
    var d :| CurrentOf(view, q.company, q.url, d) && view[d].hash == q.hash;
    assert CurrentOf(Written(view, view, p, found, root, newId), q.company, q.url, d);
  }

  /** Writing page `k` stores it and leaves the other URLs alone. */
  lemma WriteStores(view: Docs, pages: seq<Page>, k: nat, found: Option<Id>, root: Option<Id>, newId: Id)
    requires k < |pages| && DoneAreStored(view, pages, k)
    requires ReadsCurrent(view, pages[k], found) && newId !in view
    requires found.Some? ==> found.value in view
    ensures DoneAreStored(Written(view, view, pages[k], found, root, newId), pages, k + 1)
  {
    var v := Written(view, view, pages[k], found, root, newId);
    forall n: nat | n < k + 1 && LastOfUrl(pages, k + 1, n) ensures Stored(v, pages[n]) {
      if n == k {
        assert CurrentOf(v, pages[k].company, pages[k].url, newId);
      } else {
        assert LastOfUrl(pages, k, n);
        StoredElsewhere(view, pages[k], found, root, newId, pages[n]);
      }
    }
  }

  /** A page whose content is current already needs no write. */
  lemma ReuseStores(view: Docs, pages: seq<Page>, k: nat, d: Id)
    requires k < |pages| && DoneAreStored(view, pages, k)
    requires CurrentOf(view, pages[k].company, pages[k].url, d) && view[d].hash == pages[k].hash
    ensures DoneAreStored(view, pages, k + 1)
  {
    forall n: nat | n < k + 1 && LastOfUrl(pages, k + 1, n) ensures Stored(view, pages[n]) {
      if n < k {
        assert LastOfUrl(pages, k, n);
      }
    }
  }

  lemma OwnWriteStores(s: System, i: nat, s': System, root: Option<Id>, newId: Id)
    requires i < |s.txns| == |s'.txns| && s'.docs == s.docs
    requires s.txns[i].index < |s.txns[i].pages| && s.txns[i].found.Some?
    requires WritesNew(s, i, s'.txns[i], root, newId)
    requires Amends(s.docs, s.txns[i].pending)
    requires ReadsCurrent(View(s, i), s.txns[i].pages[s.txns[i].index], s.txns[i].found.value)
    requires DoneAreStored(View(s, i), s.txns[i].pages, s.txns[i].index)
    ensures DoneAreStored(View(s', i), s.txns[i].pages, s.txns[i].index + 1)
  {
    var t := s.txns[i];
    WriteStores(View(s, i), t.pages, t.index, t.found.value, root, newId);
    WrittenAmends(s.docs, t.pending, t.pages[t.index], t.found.value, root, newId);
  }

  lemma OwnStepProgresses(key: Hash, s: System, i: nat, s': System)
    requires Inv(key, s) && Step(key, s, i, s') && Progress(s, i)
    ensures Progress(s', i)
  {
    var t, t' := s.txns[i], s'.txns[i];
    assert TxnOk(key, s, i);
    if !t'.done && Writes(s, i, t') {
      if t' == NextPage(t) {
        ReuseProgresses(s, i, s');
      } else {
        var root, newId :| WritesNew(s, i, t', root, newId);
        OwnWriteStores(s, i, s', root, newId);
      }
    } else if !t'.done {
      assert View(s', i) == View(s, i);
    }
  }

  lemma NewIsNoReuse(s: System, i: nat, t': Txn, root: Option<Id>, newId: Id)
    requires i < |s.txns| && s.txns[i].index < |s.txns[i].pages| && s.txns[i].found.Some?
    ensures t' == NextPage(s.txns[i]) ==> !WritesNew(s, i, t', root, newId)
  {
    if WritesNew(s, i, t', root, newId) {
      assert newId in t'.pending && newId !in s.txns[i].pending;
    }
  }

  lemma ReuseProgresses(s: System, i: nat, s': System)
    requires i < |s.txns| == |s'.txns| && s'.docs == s.docs && !s.txns[i].done && Progress(s, i)
    requires Writes(s, i, s'.txns[i]) && s'.txns[i] == NextPage(s.txns[i])
    requires ReadsCurrent(View(s, i), s.txns[i].pages[s.txns[i].index], s.txns[i].found.value)
    requires Amends(s.docs, s.txns[i].pending)
    ensures Progress(s', i)
  {
    var t := s.txns[i];
    var p, found := t.pages[t.index], t.found.value;
    assert View(s', i) == View(s, i);
    forall root, newId ensures !WritesNew(s, i, s'.txns[i], root, newId) {
      NewIsNoReuse(s, i, s'.txns[i], root, newId);
    }
    ReuseStores(View(s, i), t.pages, t.index, found.value);
  }

  /** The keys of a page that is done are held until the transaction ends. */
  lemma DoneUrlIsHeld(key: Hash, t: Txn, n: nat)
    requires !t.done && n < t.index <= |t.pages|
    ensures Holds(key, t, UrlKey(key, t.pages[n].company, t.pages[n].url))
  {
    var u := LockView(key, t);
    NextKey(key, t.(index := n), 0);
    NextKey(key, t.(index := n), 1);
    assert u.keys[2 * n] in ScopeKeys(key, t.pages[n]) && u.keys[2 * n + 1] in ScopeKeys(key, t.pages[n]);
  }

  lemma StoredAfterCommit(docs: Docs, a: Docs, b: Docs, p: Page)
    requires Amends(docs, a) && Stored(docs + b, p)
    requires forall d | d in a :: a[d].company != p.company || a[d].url != p.url
    ensures Stored(docs + a + b, p)
  {
    var d :| CurrentOf(docs + b, p.company, p.url, d) && (docs + b)[d].hash == p.hash;
    SameCurrent(docs, a, b, p);
    assert CurrentOf(docs + a + b, p.company, p.url, d);
  }

  lemma OtherStepProgresses(key: Hash, s: System, i: nat, s': System, j: nat)
    requires Inv(key, s) && i < |s.txns| && j < |s.txns| && j != i && Progress(s, j)
    requires |s'.txns| == |s.txns| && s'.txns[j] == s.txns[j] && s'.docs == View(s, i)
    ensures Progress(s', j)
  {
    var t, a, b := s.txns[j], s.txns[i].pending, s.txns[j].pending;
    assert TxnOk(key, s, i) && TxnOk(key, s, j);
    assert View(s', j) == s.docs + a + b;
    if !t.done {
      forall n: nat | n < t.index && LastOfUrl(t.pages, t.index, n) ensures Stored(View(s', j), t.pages[n]) {
        var p := t.pages[n];
        DoneUrlIsHeld(key, t, n);
        forall d | d in a ensures a[d].company != p.company || a[d].url != p.url {
          assert HoldsScope(key, s.txns[i], a[d]);
          if Holds(key, s.txns[i], UrlKey(key, p.company, p.url)) {
            KeysAreExclusive(key, s, i, j, UrlKey(key, p.company, p.url));
          }
        }
        StoredAfterCommit(s.docs, a, b, p);
      }
    }
  }

  lemma StepProgresses(key: Hash, s: System, i: nat, s': System)
    requires Inv(key, s) && Step(key, s, i, s') && AllProgress(s)
    ensures AllProgress(s')
  {
    assert Progress(s, i);
    OwnStepProgresses(key, s, i, s');
    forall j: nat | j < |s'.txns| && j != i ensures Progress(s', j) {
      assert Progress(s, j);
      if s'.docs == s.docs {
        assert View(s', j) == View(s, j);
      } else {
        OtherStepProgresses(key, s, i, s', j);
      }
    }
  }

  lemma {:induction false} RunProgresses(key: Hash, states: seq<System>, k: nat)
    requires IsRun(key, states) && k < |states|
    ensures Inv(key, states[k]) && AllProgress(states[k])
    decreases k
  {
    RunIsSound(key, states, k);
    if k == 0 {
      forall i: nat | i < |states[0].txns| ensures Progress(states[0], i) {}
    } else {
      RunProgresses(key, states, k - 1);
      assert StepsAt(key, states, k);
      var i: nat :| Step(key, states[k - 1], i, states[k]);
      StepProgresses(key, states[k - 1], i, states[k]);
    }
  }

  /** Step `k` commits transaction `i`. */
  ghost predicate CommitsAt(states: seq<System>, k: nat, i: nat) {
    && 0 < k < |states| && i < |states[k - 1].txns| && i < |states[k].txns|
    && var t := states[k - 1].txns[i];
       && !t.done && t.index == |t.pages| && states[k].txns[i] == t.(done := true, pending := map[])
       && states[k].docs == View(states[k - 1], i)
  }

  /** In every run, whatever the others do meanwhile: once a transaction has committed, the current version of
      every URL it ingested is the content it ingested there last. */
  lemma CommittedPagesAreStored(key: Hash, states: seq<System>, k: nat, i: nat, n: nat)
    requires IsRun(key, states) && CommitsAt(states, k, i) && n < |states[k].txns[i].pages|
    requires LastOfUrl(states[k].txns[i].pages, |states[k].txns[i].pages|, n)
    ensures Stored(states[k].docs, states[k].txns[i].pages[n])
  {
    RunProgresses(key, states, k - 1);
    assert Progress(states[k - 1], i);
  }
}
