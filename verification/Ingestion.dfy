/** Concurrent ingestion of research documents.

    Each transaction ingests a list of pages. For a page it takes the two advisory locks of the
    page's scope, reads the current document of the URL, looks for a document with the same
    content, and writes; all locks are held until the transaction commits or fails. A statement
    sees the committed documents and the transaction's own writes. */
module Ingestion {
  import opened Wrappers
  import LockOrder

  type Id = nat

  datatype Status = Ready | Quarantined | Superseded

  datatype Doc = Doc(
    company: string, url: string, hash: string, status: Status, isCurrent: bool,
    supersedes: Option<Id>, duplicateOf: Option<Id>)

  datatype Page = Page(company: string, url: string, hash: string, quarantined: bool)

  type Docs = map<Id, Doc>

  /** `index` pages are done and `taken` locks of the next page are held; `found` is what the read
      of the URL's current document returned. */
  datatype Txn = Txn(pages: seq<Page>, index: nat, taken: nat, found: Option<Option<Id>>,
                     pending: Docs, done: bool)

  datatype System = System(docs: Docs, txns: seq<Txn>)

  // ------------------------------------------------------------------------ locks

  /** The two texts that `lock_ingestion_scope` hashes. */
  datatype LockText = UrlText(company: string, url: string) | ContentText(company: string, hash: string)

  /** The lock key of a text; keys of different texts may coincide. */
  type Hash = LockText -> int

  function UrlKey(key: Hash, company: string, url: string): int {
    key(UrlText(company, url))
  }

  function ContentKey(key: Hash, company: string, hash: string): int {
    key(ContentText(company, hash))
  }

  /** The two keys of a page, in the order they are taken. */
  function ScopeKeys(key: Hash, p: Page): (keys: seq<int>)
    ensures |keys| == 2 && keys[0] <= keys[1]
    ensures UrlKey(key, p.company, p.url) in keys && ContentKey(key, p.company, p.hash) in keys
  {
    var a, b := UrlKey(key, p.company, p.url), ContentKey(key, p.company, p.hash);
    if a <= b then [a, b] else [b, a]
  }

  /** The keys of all pages, page after page. */
  function Plan(key: Hash, pages: seq<Page>): (keys: seq<int>)
    ensures |keys| == 2 * |pages|
    ensures forall n | 0 <= n < |keys| :: keys[n] == ScopeKeys(key, pages[n / 2])[n % 2]
  {
    seq(2 * |pages|, n requires 0 <= n < 2 * |pages| => ScopeKeys(key, pages[n / 2])[n % 2])
  }

  /** A transaction as the lock manager sees it. */
  function LockView(key: Hash, t: Txn): LockOrder.Txn {
    LockOrder.Txn(Plan(key, t.pages), 2 * t.index + t.taken, t.done)
  }

  function LockViews(key: Hash, txns: seq<Txn>): (s: LockOrder.System)
    ensures |s| == |txns| && forall i | 0 <= i < |txns| :: s[i] == LockView(key, txns[i])
  {
    seq(|txns|, i requires 0 <= i < |txns| => LockView(key, txns[i]))
  }

  ghost predicate Holds(key: Hash, t: Txn, k: int) {
    LockOrder.Holds(LockView(key, t), k)
  }

  /** A session asks the lock manager for the keys of one scope, in a loop over the sorted keys; each
      statement waits until the key is free. */
  class LockSession {
    var locks: LockOrder.System
    const me: nat

    constructor (locks: LockOrder.System, me: nat)
      ensures this.locks == locks && this.me == me
    {
      this.locks, this.me := locks, me;
    }

    /** `granted` keys are taken, each by a step of the lock machine; if they are not both, the
        next one is held by another transaction and the session waits there. */
    method LockIngestionScope(key: Hash, p: Page, ghost t: Txn) returns (granted: nat)
      requires me < |locks| && locks[me] == LockView(key, t)
      requires !t.done && t.taken == 0 && t.index < |t.pages| && t.pages[t.index] == p
      modifies `locks
      ensures granted <= 2 && locks == LockOrder.Taking(old(locks), me, granted)
      ensures forall n: nat | n < granted ::
                LockOrder.Step(LockOrder.Taking(old(locks), me, n), me, LockOrder.Taking(old(locks), me, n + 1))
      ensures granted < 2 ==> !LockOrder.CanStep(locks, me)
      ensures locks[me] == LockView(key, t.(taken := granted))
      ensures granted == 2 ==>
                LockOrder.Holds(locks[me], key(UrlText(p.company, p.url)))
                && LockOrder.Holds(locks[me], key(ContentText(p.company, p.hash)))
    {
      var keys := ScopeKeys(key, p);
      granted := 0;
      ghost var before := locks;
      while granted < |keys|
        invariant granted <= 2 && locks == LockOrder.Taking(before, me, granted)
        invariant forall n: nat | n < granted ::
            LockOrder.Step(LockOrder.Taking(before, me, n), me, LockOrder.Taking(before, me, n + 1))
      {
        NextKey(key, t, granted);
        assert locks[me].keys[locks[me].taken] == keys[granted];
        if !LockOrder.Free(locks, me, keys[granted]) {
          return;
        }
        LockOrder.TakeIsStep(before, me, granted);
        locks := locks[me := locks[me].(taken := locks[me].taken + 1)];
        assert locks == LockOrder.Taking(before, me, granted + 1);
        granted := granted + 1;
      }
      ScopeIsTaken(key, p, t, locks[me]);
    }
  }

  lemma ScopeIsTaken(key: Hash, p: Page, t: Txn, view: LockOrder.Txn)
    requires !t.done && t.index < |t.pages| && t.pages[t.index] == p && view == LockView(key, t.(taken := 2))
    ensures LockOrder.Holds(view, key(UrlText(p.company, p.url)))
    ensures LockOrder.Holds(view, key(ContentText(p.company, p.hash)))
  {
    ScopeIsHeld(key, t.(taken := 2));
  }

  /** The keys of the next page come next in the plan. */
  lemma NextKey(key: Hash, t: Txn, n: nat)
    requires t.index < |t.pages| && n < 2
    ensures 2 * t.index + n < |Plan(key, t.pages)|
    ensures Plan(key, t.pages)[2 * t.index + n] == ScopeKeys(key, t.pages[t.index])[n]
  {
    assert (2 * t.index + n) / 2 == t.index && (2 * t.index + n) % 2 == n;
  }

  // -------------------------------------------------------------------- the steps

  ghost function View(s: System, i: nat): Docs
    requires i < |s.txns|
  {
    s.docs + s.txns[i].pending
  }

  ghost predicate CurrentOf(docs: Docs, company: string, url: string, d: Id) {
    d in docs && docs[d].isCurrent && docs[d].company == company && docs[d].url == url
  }

  ghost predicate ReadsCurrent(docs: Docs, p: Page, found: Option<Id>) {
    match found
    case Some(d) => CurrentOf(docs, p.company, p.url, d)
    case None => !exists d :: CurrentOf(docs, p.company, p.url, d)
  }

  function StatusOf(p: Page): Status {
    if p.quarantined then Quarantined else Ready
  }

  /** A current document that is not itself a duplicate. */
  ghost predicate Root(docs: Docs, company: string, hash: string, status: Status, d: Id) {
    && d in docs && docs[d].isCurrent && docs[d].duplicateOf.None?
    && docs[d].company == company && docs[d].hash == hash && docs[d].status == status
  }

  ghost predicate FindsRoot(docs: Docs, p: Page, root: Option<Id>) {
    match root
    case Some(d) => Root(docs, p.company, p.hash, StatusOf(p), d) && docs[d].url != p.url
    case None => !exists d :: Root(docs, p.company, p.hash, StatusOf(p), d) && docs[d].url != p.url
  }

  function SupersededDoc(d: Doc): Doc {
    d.(status := Superseded, isCurrent := false)
  }

  function NewDoc(p: Page, found: Option<Id>, root: Option<Id>): Doc {
    Doc(p.company, p.url, p.hash, StatusOf(p), true, found, root)
  }

  /** The writes of one ingestion that finds changed or new content. */
  function Written(view: Docs, pending: Docs, p: Page, found: Option<Id>, root: Option<Id>, newId: Id): Docs
    requires found.Some? ==> found.value in view
  {
    var retired :=
      if found.Some? then pending[found.value := SupersededDoc(view[found.value])] else pending;
    retired[newId := NewDoc(p, found, root)]
  }

  ghost predicate Unused(s: System, d: Id) {
    d !in s.docs && forall i | 0 <= i < |s.txns| :: d !in s.txns[i].pending
  }

  ghost predicate Locks(key: Hash, s: System, i: nat, t': Txn)
    requires i < |s.txns|
  {
    var t := s.txns[i];
    && t.index < |t.pages| && t.taken < 2
    && (forall j | 0 <= j < |s.txns| && j != i ::
          !Holds(key, s.txns[j], ScopeKeys(key, t.pages[t.index])[t.taken]))
    && t' == t.(taken := t.taken + 1)
  }

  ghost predicate Reads(s: System, i: nat, t': Txn)
    requires i < |s.txns|
  {
    var t := s.txns[i];
    && t.index < |t.pages| && t.taken == 2 && t.found.None? && t'.found.Some?
    && t' == t.(found := t'.found) && ReadsCurrent(View(s, i), t.pages[t.index], t'.found.value)
  }

  function NextPage(t: Txn): Txn {
    t.(index := t.index + 1, taken := 0, found := None)
  }

  ghost predicate Writes(s: System, i: nat, t': Txn)
    requires i < |s.txns|
  {
    var t, view := s.txns[i], View(s, i);
    && t.index < |t.pages| && t.taken == 2 && t.found.Some?
    && (t.found.value.Some? ==> t.found.value.value in view)
    && var p := t.pages[t.index];
       if t.found.value.Some? && view[t.found.value.value].hash == p.hash
       then t' == NextPage(t)
       else exists root, newId :: WritesNew(s, i, t', root, newId)
  }

  ghost predicate WritesNew(s: System, i: nat, t': Txn, root: Option<Id>, newId: Id)
    requires i < |s.txns| && s.txns[i].index < |s.txns[i].pages| && s.txns[i].found.Some?
  {
    var t, view := s.txns[i], View(s, i);
    var p, found := t.pages[t.index], t.found.value;
    && (found.Some? ==> found.value in view)
    && FindsRoot(view, p, root) && Unused(s, newId)
    && t' == NextPage(t).(pending := Written(view, t.pending, p, found, root, newId))
  }

  ghost predicate Step(key: Hash, s: System, i: nat, s': System) {
    && i < |s.txns| && |s'.txns| == |s.txns| && !s.txns[i].done
    && s'.txns == s.txns[i := s'.txns[i]]
    && var t, t' := s.txns[i], s'.txns[i];
       || (s'.docs == s.docs && (Locks(key, s, i, t') || Reads(s, i, t') || Writes(s, i, t')))
       || (t.index == |t.pages| && s'.docs == View(s, i) && t' == t.(done := true, pending := map[]))
       || (s'.docs == s.docs && t' == t.(done := true, pending := map[]))
  }

  ghost predicate Initial(s: System) {
    s.docs == map[] && forall i | 0 <= i < |s.txns| ::
      s.txns[i].index == 0 && s.txns[i].taken == 0 && s.txns[i].found.None?
      && s.txns[i].pending == map[] && !s.txns[i].done
  }

  // ---------------------------------------------------- the steps as the lock manager sees them

  /** Every step takes the next key of the transaction's plan, ends it, or leaves the locks alone. */
  lemma StepIsLockStep(key: Hash, s: System, i: nat, s': System)
    requires Step(key, s, i, s') && (forall j | 0 <= j < |s.txns| :: s.txns[j].taken <= 2)
    ensures LockViews(key, s'.txns) == LockViews(key, s.txns)
            || LockOrder.Step(LockViews(key, s.txns), i, LockViews(key, s'.txns))
  {
    var u, u' := LockViews(key, s.txns), LockViews(key, s'.txns);
    var t, t' := s.txns[i], s'.txns[i];
    assert forall j | 0 <= j < |u| && j != i :: s'.txns[j] == s.txns[j];
    if t'.done {
      assert u' == u[i := u[i].(done := true)];
    } else if Locks(key, s, i, t') {
      LockIsLockStep(key, s, i, t');
      assert u' == u[i := LockView(key, t')];
    } else {
      assert LockView(key, t') == LockView(key, t);
      assert u' == u;
    }
  }

  lemma LockIsLockStep(key: Hash, s: System, i: nat, t': Txn)
    requires i < |s.txns| && !s.txns[i].done && Locks(key, s, i, t')
    ensures var u := LockViews(key, s.txns); LockOrder.Step(u, i, u[i := LockView(key, t')])
  {
    var u, t := LockViews(key, s.txns), s.txns[i];
    var n := 2 * t.index + t.taken;
    assert n / 2 == t.index && n % 2 == t.taken;
    assert u[i].keys[u[i].taken] == ScopeKeys(key, t.pages[t.index])[t.taken];
    assert LockOrder.Free(u, i, u[i].keys[u[i].taken]);
    assert LockOrder.CanStep(u, i);
  }

  /** One call takes its two keys in ascending order, so transactions of one page never deadlock. */
  lemma OnePageIsAscending(key: Hash, pages: seq<Page>)
    requires |pages| <= 1
    ensures LockOrder.Ascending(Plan(key, pages))
  {
    var keys := Plan(key, pages);
    if |pages| == 1 {
      assert keys[0] == ScopeKeys(key, pages[0])[0] && keys[1] == ScopeKeys(key, pages[0])[1];
      assert keys[0] in keys[..1];
    }
  }

  // ------------------------------------------------------------------ what the locks protect

  ghost predicate ShareUrl(docs: Docs, d: Id, e: Id) {
    && d in docs && e in docs && docs[d].isCurrent && docs[e].isCurrent
    && docs[d].company == docs[e].company && docs[d].url == docs[e].url
  }

  ghost predicate ShareContent(docs: Docs, d: Id, e: Id) {
    && d in docs && e in docs && docs[d].isCurrent && docs[e].isCurrent
    && docs[d].duplicateOf.None? && docs[e].duplicateOf.None? && docs[d].status == docs[e].status
    && docs[d].company == docs[e].company && docs[d].hash == docs[e].hash
  }

  /** A company has one current document per URL. */
  ghost predicate OneCurrent(docs: Docs) {
    forall d, e | ShareUrl(docs, d, e) :: d == e
  }

  /** A company has one current original per content and status: all others link to it. */
  ghost predicate OneRoot(docs: Docs) {
    forall d, e | ShareContent(docs, d, e) :: d == e
  }

  /** Links stay in their scope: a duplicate points at an original with the same content, never at
      another duplicate, and a version supersedes one of the same URL. */
  ghost predicate LinksAreSound(docs: Docs, d: Id)
    requires d in docs
  {
    && (docs[d].duplicateOf.Some? ==>
          var r := docs[d].duplicateOf.value;
          && r in docs && docs[r].duplicateOf.None?
          && docs[r].company == docs[d].company && docs[r].hash == docs[d].hash)
    && (docs[d].supersedes.Some? ==>
          var o := docs[d].supersedes.value;
          o in docs && docs[o].company == docs[d].company && docs[o].url == docs[d].url)
  }

  ghost predicate Sound(docs: Docs) {
    && OneCurrent(docs) && OneRoot(docs)
    && forall d {:trigger LinksAreSound(docs, d)} | d in docs :: LinksAreSound(docs, d)
  }

  ghost predicate SameRecord(d: Doc, e: Doc) {
    d == e.(status := d.status, isCurrent := d.isCurrent)
  }

  /** Pending writes insert documents or retire stored ones. */
  ghost predicate Amends(docs: Docs, pending: Docs) {
    forall d | d in pending && d in docs :: SameRecord(pending[d], docs[d]) && !pending[d].isCurrent
  }

  /** Two sets of pending writes share no document, no URL and no content they both own. */
  ghost predicate Separate(a: Docs, b: Docs) {
    forall d, e {:trigger a[d], b[e]} | d in a && e in b ::
      && d != e
      && !(a[d].company == b[e].company && a[d].url == b[e].url)
      && !(&& a[d].isCurrent && b[e].isCurrent && a[d].duplicateOf.None? && b[e].duplicateOf.None?
           && a[d].company == b[e].company && a[d].hash == b[e].hash)
  }

  /** Separate writes may be committed one after the other. */
  lemma SeparateWritesMerge(docs: Docs, a: Docs, b: Docs)
    requires Amends(docs, a) && Amends(docs, b) && Separate(a, b)
    requires Sound(docs + a) && Sound(docs + b)
    ensures Sound(docs + a + b)
  {
    var m, da, db := docs + a + b, docs + a, docs + b;
    forall d, e | ShareUrl(m, d, e) ensures d == e {
      assert d !in b && e !in b ==> ShareUrl(da, d, e);
      assert d !in a && e !in a ==> ShareUrl(db, d, e);
    }
    forall d, e | ShareContent(m, d, e) ensures d == e {
      assert d !in b && e !in b ==> ShareContent(da, d, e);
      assert d !in a && e !in a ==> ShareContent(db, d, e);
    }
    forall d | d in m ensures LinksAreSound(m, d) {
      MergeKeepsLinks(docs, a, b, d);
    }
  }

  lemma MergeKeepsLinks(docs: Docs, a: Docs, b: Docs, d: Id)
    requires Amends(docs, a) && Amends(docs, b) && Separate(a, b) && d in docs + a + b
    requires forall x {:trigger LinksAreSound(docs + a, x)} | x in docs + a :: LinksAreSound(docs + a, x)
    requires forall x {:trigger LinksAreSound(docs + b, x)} | x in docs + b :: LinksAreSound(docs + b, x)
    ensures LinksAreSound(docs + a + b, d)
  {
    var m, da, db := docs + a + b, docs + a, docs + b;
    assert d !in b ==> LinksAreSound(da, d) && m[d] == da[d];
    assert d in b ==> LinksAreSound(db, d) && m[d] == db[d];
    forall x | x in da ensures x in m && SameRecord(m[x], da[x]) {}
    forall x | x in db ensures x in m && SameRecord(m[x], db[x]) {
      assert x in a ==> x in docs;
    }
  }

  /** One ingestion keeps the documents sound: the old version of the URL is retired, and the new
      one is an original only if no other current document has its content and status. */
  lemma WriteKeepsSound(view: Docs, p: Page, found: Option<Id>, root: Option<Id>, newId: Id)
    requires Sound(view) && ReadsCurrent(view, p, found) && FindsRoot(view, p, root)
    requires newId !in view
    requires found.Some? ==> found.value in view
    ensures Sound(Written(view, view, p, found, root, newId))
  {
    var v := Written(view, view, p, found, root, newId);
    forall d | d in view ensures d in v && SameRecord(v[d], view[d]) {}
    forall d, e | ShareUrl(v, d, e) ensures d == e {
      assert d != newId && e == newId ==> CurrentOf(view, p.company, p.url, d);
      assert e != newId && d == newId ==> CurrentOf(view, p.company, p.url, e);
      assert d != newId && e != newId ==> ShareUrl(view, d, e);
      assert found.Some? ==> forall x | CurrentOf(view, p.company, p.url, x) :: ShareUrl(view, x, found.value);
    }
    forall d | d in view && v[d].isCurrent && Root(v, p.company, p.hash, StatusOf(p), d)
      ensures Root(view, p.company, p.hash, StatusOf(p), d)
      ensures view[d].url == p.url ==> CurrentOf(view, p.company, p.url, d)
    {
      assert v[d] == view[d];
    }
    forall d, e | ShareContent(v, d, e) ensures d == e {
      assert d != newId && e == newId ==> Root(v, p.company, p.hash, StatusOf(p), d);
      assert e != newId && d == newId ==> Root(v, p.company, p.hash, StatusOf(p), e);
      assert d != newId && e != newId ==> ShareContent(view, d, e);
      assert found.Some? ==> forall x | CurrentOf(view, p.company, p.url, x) :: ShareUrl(view, x, found.value);
    }
    forall d | d in v ensures LinksAreSound(v, d) {
      assert d != newId ==> LinksAreSound(view, d);
    }
  }

  // ------------------------------------------------------------------ every reachable state

  ghost predicate HoldsScope(key: Hash, t: Txn, d: Doc) {
    && Holds(key, t, UrlKey(key, d.company, d.url))
    && (d.isCurrent && d.duplicateOf.None? ==> Holds(key, t, ContentKey(key, d.company, d.hash)))
  }

  ghost predicate AtPage(t: Txn) {
    && t.taken <= 2 && t.index <= |t.pages| && (t.taken > 0 ==> t.index < |t.pages|)
    && (t.found.Some? ==> t.taken == 2)
  }

  /** A transaction only writes in scopes it has locked, and what it read still holds. */
  ghost predicate TxnOk(key: Hash, s: System, i: nat)
    requires i < |s.txns|
  {
    var t := s.txns[i];
    && AtPage(t) && Amends(s.docs, t.pending) && Sound(View(s, i))
    && (t.done ==> t.pending == map[])
    && (forall d | d in t.pending :: HoldsScope(key, t, t.pending[d]))
    && (!t.done && t.found.Some? ==> ReadsCurrent(View(s, i), t.pages[t.index], t.found.value))
  }

  ghost predicate PendingIsApart(s: System, i: nat, j: nat)
    requires i < |s.txns| && j < |s.txns|
  {
    forall d | d in s.txns[i].pending :: d !in s.txns[j].pending
  }

  ghost predicate Inv(key: Hash, s: System) {
    && Sound(s.docs) && LockOrder.Inv(LockViews(key, s.txns))
    && (forall i: nat {:trigger TxnOk(key, s, i)} | i < |s.txns| :: TxnOk(key, s, i))
    && (forall i: nat, j: nat {:trigger PendingIsApart(s, i, j)}
          | i < |s.txns| && j < |s.txns| && i != j :: PendingIsApart(s, i, j))
  }

  /** Two transactions never hold the same key. */
  lemma KeysAreExclusive(key: Hash, s: System, i: nat, j: nat, k: int)
    requires LockOrder.Inv(LockViews(key, s.txns)) && i < |s.txns| && j < |s.txns|
    requires Holds(key, s.txns[i], k) && Holds(key, s.txns[j], k)
    ensures i == j
  {
    var u := LockViews(key, s.txns);
    assert LockOrder.Holds(u[i], k) && LockOrder.Holds(u[j], k);
  }

  /** Past the lock loop of a page, the transaction holds both keys of its scope. */
  lemma ScopeIsHeld(key: Hash, t: Txn)
    requires !t.done && t.index < |t.pages| && t.taken == 2
    ensures var p := t.pages[t.index];
            && Holds(key, t, UrlKey(key, p.company, p.url))
            && Holds(key, t, ContentKey(key, p.company, p.hash))
  {
    var u, n, keys := LockView(key, t), 2 * t.index, ScopeKeys(key, t.pages[t.index]);
    assert u.keys[n] == keys[0] && u.keys[n + 1] == keys[1];
  }

  /** Two transactions past the lock loop are never at the same URL of a company, nor at the same
      content of a company. */
  lemma ScopesAreExclusive(key: Hash, s: System, i: nat, j: nat)
    requires Inv(key, s) && i < |s.txns| && j < |s.txns| && i != j
    requires !s.txns[i].done && s.txns[i].index < |s.txns[i].pages| && s.txns[i].taken == 2
    requires !s.txns[j].done && s.txns[j].index < |s.txns[j].pages| && s.txns[j].taken == 2
    ensures var p, q := s.txns[i].pages[s.txns[i].index], s.txns[j].pages[s.txns[j].index];
            p.company == q.company ==> p.url != q.url && p.hash != q.hash
  {
    ScopeIsHeld(key, s.txns[i]);
    ScopeIsHeld(key, s.txns[j]);
    var p, q := s.txns[i].pages[s.txns[i].index], s.txns[j].pages[s.txns[j].index];
    if p.company == q.company && p.url == q.url {
      KeysAreExclusive(key, s, i, j, UrlKey(key, p.company, p.url));
    }
    if p.company == q.company && p.hash == q.hash {
      KeysAreExclusive(key, s, i, j, ContentKey(key, p.company, p.hash));
    }
  }

  /** The pending writes of two transactions are separate, because their scopes are locked. */
  lemma PendingIsSeparate(key: Hash, s: System, i: nat, j: nat)
    requires Inv(key, s) && i < |s.txns| && j < |s.txns| && i != j
    ensures Separate(s.txns[i].pending, s.txns[j].pending)
  {
    var a, b := s.txns[i].pending, s.txns[j].pending;
    assert TxnOk(key, s, i) && TxnOk(key, s, j) && PendingIsApart(s, i, j);
    forall d, e | d in a && e in b
      ensures !(a[d].company == b[e].company && a[d].url == b[e].url)
      ensures !(&& a[d].isCurrent && b[e].isCurrent && a[d].duplicateOf.None? && b[e].duplicateOf.None?
                && a[d].company == b[e].company && a[d].hash == b[e].hash)
    {
      HeldScopesDiffer(key, s, i, j, a[d], b[e]);
    }
  }

  lemma HeldScopesDiffer(key: Hash, s: System, i: nat, j: nat, d: Doc, e: Doc)
    requires LockOrder.Inv(LockViews(key, s.txns)) && i < |s.txns| && j < |s.txns| && i != j
    requires HoldsScope(key, s.txns[i], d) && HoldsScope(key, s.txns[j], e)
    ensures !(d.company == e.company && d.url == e.url)
    ensures !(&& d.isCurrent && e.isCurrent && d.duplicateOf.None? && e.duplicateOf.None?
              && d.company == e.company && d.hash == e.hash)
  {
    if Holds(key, s.txns[j], UrlKey(key, d.company, d.url)) {
      KeysAreExclusive(key, s, i, j, UrlKey(key, d.company, d.url));
    }
    if d.isCurrent && d.duplicateOf.None? && Holds(key, s.txns[j], ContentKey(key, d.company, d.hash)) {
      KeysAreExclusive(key, s, i, j, ContentKey(key, d.company, d.hash));
    }
  }
}
