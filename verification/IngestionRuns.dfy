/** Whole runs of concurrent ingestion: soundness, progress, and when transactions deadlock. */
module IngestionRuns {
  import opened Ingestion
  import opened IngestionSteps
  import opened Wrappers
  import LockOrder

  // ------------------------------------------------------------------------ whole runs

  ghost predicate Steps(key: Hash, s: System, s': System) {
    exists i: nat :: Step(key, s, i, s')
  }

  ghost predicate StepsAt(key: Hash, states: seq<System>, k: nat)
    requires 0 < k < |states|
  {
    Steps(key, states[k - 1], states[k])
  }

  ghost predicate IsRun(key: Hash, states: seq<System>) {
    && states != [] && Initial(states[0])
    && forall k: nat {:trigger StepsAt(key, states, k)} | 0 < k < |states| :: StepsAt(key, states, k)
  }

  /** In every state of every run, whatever the pages and whatever keys collide: the committed
      documents have one current version per URL and one original per content, duplicates point at
      originals, and every transaction keeps what it read and writes only where it holds the locks. */
  lemma {:induction false} RunIsSound(key: Hash, states: seq<System>, k: nat)
    requires IsRun(key, states) && k < |states|
    ensures Inv(key, states[k]) && Sound(states[k].docs)
    decreases k
  {
    if k == 0 {
      InitialInv(key, states[0]);
    } else {
      RunIsSound(key, states, k - 1);
      assert StepsAt(key, states, k);
      var i: nat :| Step(key, states[k - 1], i, states[k]);
      StepKeepsInv(key, states[k - 1], i, states[k]);
    }
  }

  // ------------------------------------------------------------------------ bounded runs

  /** Two locks, a read and a write for each page that is left, and one step to end. */
  function StepsLeftOf(t: Txn): int {
    if t.done then 0
    else 1 + 4 * (|t.pages| - t.index) - t.taken - if t.found.Some? then 1 else 0
  }

  function StepsLeft(txns: seq<Txn>): int {
    if txns == [] then 0 else StepsLeftOf(txns[0]) + StepsLeft(txns[1..])
  }

  lemma {:induction false} StepsLeftIsNatural(txns: seq<Txn>)
    requires forall i | 0 <= i < |txns| :: AtPage(txns[i])
    ensures 0 <= StepsLeft(txns)
  {
    if txns != [] {
      assert AtPage(txns[0]);
      assert forall i | 0 <= i < |txns[1..]| :: txns[1..][i] == txns[i + 1];
      StepsLeftIsNatural(txns[1..]);
    }
  }

  lemma {:induction false} ReplacingUsesUp(txns: seq<Txn>, i: nat, t: Txn)
    requires i < |txns|
    ensures StepsLeft(txns[i := t]) == StepsLeft(txns) - StepsLeftOf(txns[i]) + StepsLeftOf(t)
    decreases |txns|
  {
    if i == 0 {
      assert txns[0 := t][1..] == txns[1..];
    } else {
      assert txns[i := t][1..] == txns[1..][i - 1 := t];
      ReplacingUsesUp(txns[1..], i - 1, t);
    }
  }

  lemma StepUsesUp(key: Hash, s: System, i: nat, s': System)
    requires Inv(key, s) && Step(key, s, i, s')
    ensures StepsLeft(s'.txns) < StepsLeft(s.txns)
  {
    assert TxnOk(key, s, i);
    ReplacingUsesUp(s.txns, i, s'.txns[i]);
  }

  /** Every run ends: it is no longer than two locks, a read and a write for each page, and one end
      for each transaction, however the transactions interleave and however they end. */
  lemma {:induction false} RunsAreBounded(key: Hash, states: seq<System>, k: nat)
    requires IsRun(key, states) && k < |states|
    ensures 0 <= StepsLeft(states[k].txns) && k + StepsLeft(states[k].txns) <= StepsLeft(states[0].txns)
    decreases k
  {
    RunIsSound(key, states, k);
    forall i: nat | i < |states[k].txns| ensures AtPage(states[k].txns[i]) {
      assert TxnOk(key, states[k], i);
    }
    StepsLeftIsNatural(states[k].txns);
    if k > 0 {
      RunsAreBounded(key, states, k - 1);
      RunIsSound(key, states, k - 1);
      assert StepsAt(key, states, k);
      var i: nat :| Step(key, states[k - 1], i, states[k]);
      StepUsesUp(key, states[k - 1], i, states[k]);
    }
  }

  function PageCount(txns: seq<Txn>): nat {
    if txns == [] then 0 else |txns[0].pages| + PageCount(txns[1..])
  }

  lemma {:induction false} StepsOfStart(txns: seq<Txn>)
    requires forall i | 0 <= i < |txns| ::
               txns[i].index == 0 && txns[i].taken == 0 && txns[i].found.None? && !txns[i].done
    ensures StepsLeft(txns) == 4 * PageCount(txns) + |txns|
  {
    if txns != [] {
      assert txns[0].index == 0;
      assert forall i | 0 <= i < |txns[1..]| :: txns[1..][i] == txns[i + 1];
      StepsOfStart(txns[1..]);
    }
  }

  /** In numbers: four steps for each page and one for each transaction. */
  lemma RunLength(key: Hash, states: seq<System>)
    requires IsRun(key, states)
    ensures |states| - 1 <= 4 * PageCount(states[0].txns) + |states[0].txns|
  {
    RunsAreBounded(key, states, |states| - 1);
    StepsOfStart(states[0].txns);
  }

  // ------------------------------------------------------------------------ progress

  /** Transaction `i` can go on, without failing, to `s'`. */
  ghost predicate Advances(key: Hash, s: System, i: nat, s': System) {
    Step(key, s, i, s') && (s'.txns[i].done ==> s.txns[i].index == |s.txns[i].pages| && s'.docs == View(s, i))
  }

  lemma UnusedExists(s: System) returns (d: Id)
    ensures Unused(s, d)
  {
    var used := s.docs.Keys + PendingIds(s.txns);
    d := Above(used);
    forall i | 0 <= i < |s.txns| ensures d !in s.txns[i].pending {
      PendingIdsHasAll(s.txns, i);
    }
  }

  ghost function PendingIds(txns: seq<Txn>): set<Id> {
    if txns == [] then {} else txns[0].pending.Keys + PendingIds(txns[1..])
  }

  lemma {:induction false} PendingIdsHasAll(txns: seq<Txn>, i: nat)
    requires i < |txns|
    ensures txns[i].pending.Keys <= PendingIds(txns)
    decreases i
  {
    if i > 0 { PendingIdsHasAll(txns[1..], i - 1); }
  }

  lemma Above(used: set<Id>) returns (d: Id)
    ensures forall x | x in used :: x < d
    decreases |used|
  {
    d := 0;
    if used != {} {
      var x :| x in used;
      d := Above(used - {x});
      if d <= x {
        d := x + 1;
      }
      assert used == (used - {x}) + {x};
    }
  }

  /** A transaction that waits for no lock can go on. */
  lemma UnblockedAdvances(key: Hash, s: System, i: nat) returns (s': System)
    requires Inv(key, s) && LockOrder.CanStep(LockViews(key, s.txns), i)
    ensures Advances(key, s, i, s')
  {
    var t := s.txns[i];
    assert TxnOk(key, s, i);
    if t.index == |t.pages| {
      s' := System(View(s, i), s.txns[i := t.(done := true, pending := map[])]);
    } else if t.taken < 2 {
      UnblockedLocks(key, s, i);
      s' := WithTxn(key, s, i, t.(taken := t.taken + 1));
    } else if t.found.None? {
      var found := AnswerExists(View(s, i), t.pages[t.index]);
      s' := WithTxn(key, s, i, t.(found := Some(found)));
    } else {
      var t' := WriteExists(key, s, i);
      s' := WithTxn(key, s, i, t');
    }
  }

  lemma WithTxn(key: Hash, s: System, i: nat, t': Txn) returns (s': System)
    requires i < |s.txns| && !s.txns[i].done && !t'.done
    requires Locks(key, s, i, t') || Reads(s, i, t') || Writes(s, i, t')
    ensures Advances(key, s, i, s')
  {
    s' := System(s.docs, s.txns[i := t']);
  }

  lemma UnblockedLocks(key: Hash, s: System, i: nat)
    requires LockOrder.CanStep(LockViews(key, s.txns), i)
    requires i < |s.txns| && s.txns[i].index < |s.txns[i].pages| && s.txns[i].taken < 2
    ensures Locks(key, s, i, s.txns[i].(taken := s.txns[i].taken + 1))
  {
    var u, t := LockViews(key, s.txns), s.txns[i];
    var n := 2 * t.index + t.taken;
    assert n / 2 == t.index && n % 2 == t.taken;
    forall j | 0 <= j < |s.txns| && j != i
      ensures !Holds(key, s.txns[j], ScopeKeys(key, t.pages[t.index])[t.taken])
    {
      assert !LockOrder.Holds(u[j], u[i].keys[n]);
    }
  }

  lemma AnswerExists(docs: Docs, p: Page) returns (found: Option<Id>)
    ensures ReadsCurrent(docs, p, found)
  {
    if d :| CurrentOf(docs, p.company, p.url, d) {
      found := Some(d);
    } else {
      found := None;
    }
  }

  lemma WriteExists(key: Hash, s: System, i: nat) returns (t': Txn)
    requires i < |s.txns| && !s.txns[i].done && TxnOk(key, s, i)
    requires s.txns[i].index < |s.txns[i].pages| && s.txns[i].found.Some?
    ensures Writes(s, i, t') && !t'.done
  {
    var t, view := s.txns[i], View(s, i);
    var p, found := t.pages[t.index], t.found.value;
    if found.Some? && view[found.value].hash == p.hash {
      t' := NextPage(t);
    } else {
      var root: Option<Id> := None;
      if d :| Root(view, p.company, p.hash, StatusOf(p), d) && view[d].url != p.url {
        root := Some(d);
      }
      var newId := UnusedExists(s);
      t' := NextPage(t).(pending := Written(view, t.pending, p, found, root, newId));
      assert WritesNew(s, i, t', root, newId);
    }
  }

  ghost predicate AllAscending(key: Hash, s: System) {
    forall i {:trigger s.txns[i]} | 0 <= i < |s.txns| :: LockOrder.Ascending(Plan(key, s.txns[i].pages))
  }

  /** As long as every transaction takes its keys in ascending order, which transactions of one
      page always do, no set of transactions is deadlocked and some unfinished one can go on. */
  lemma AscendingIngestionProgresses(key: Hash, s: System)
    requires Inv(key, s) && AllAscending(key, s)
    ensures !LockOrder.Deadlocked(LockViews(key, s.txns))
    ensures (exists i :: 0 <= i < |s.txns| && !s.txns[i].done)
            ==> exists i: nat, s' :: Advances(key, s, i, s')
  {
    var u := LockViews(key, s.txns);
    assert LockOrder.AllAscending(u) by {
      forall i | 0 <= i < |u| ensures LockOrder.Ascending(u[i].keys) {
        assert u[i].keys == Plan(key, s.txns[i].pages);
      }
    }
    LockOrder.AscendingNeverDeadlocks(u);
    if i :| 0 <= i < |s.txns| && !s.txns[i].done {
      assert !u[i].done;
      LockOrder.AscendingAlwaysProgresses(u);
      var k: nat :| LockOrder.CanStep(u, k);
      var s' := UnblockedAdvances(key, s, k);
    }
  }

  lemma OnePageIngestionProgresses(key: Hash, s: System)
    requires Inv(key, s) && forall i | 0 <= i < |s.txns| :: |s.txns[i].pages| <= 1
    ensures !LockOrder.Deadlocked(LockViews(key, s.txns))
    ensures (exists i :: 0 <= i < |s.txns| && !s.txns[i].done)
            ==> exists i: nat, s' :: Advances(key, s, i, s')
  {
    forall i | 0 <= i < |s.txns| ensures LockOrder.Ascending(Plan(key, s.txns[i].pages)) {
      OnePageIsAscending(key, s.txns[i].pages);
    }
    AscendingIngestionProgresses(key, s);
  }

  // ------------------------------------------------------------------------ deadlock

  /** Transaction at the given point of its pages, with what it has read and written so far. */
  function Point(pages: seq<Page>, index: nat, taken: nat, found: Option<Option<Id>>, pending: Docs): Txn {
    Txn(pages, index, taken, found, pending, false)
  }

  /** A transaction of two pages ingests the first one into an empty store: it takes the two locks,
      finds no current document, and adds a new one. */
  function FirstPage(pages: seq<Page>, id: Id, n: nat): Txn
    requires |pages| == 2 && n <= 4
  {
    if n < 3 then Point(pages, 0, n, None, map[])
    else if n == 3 then Point(pages, 0, 2, Some(None), map[])
    else Point(pages, 1, 0, None, map[id := NewDoc(pages[0], None, None)])
  }

  /** `m` steps of the transaction that ingests `p` first, and `n` of the one that ingests it last. */
  function Crossed(p: Page, q: Page, m: nat, n: nat): System
    requires m <= 4 && n <= 4
  {
    System(map[], [FirstPage([p, q], 0, m), FirstPage([q, p], 1, n)])
  }

  /** One transaction goes through its first page, and then the other one does. */
  function CrossedStates(p: Page, q: Page): seq<System> {
    [Crossed(p, q, 0, 0), Crossed(p, q, 1, 0), Crossed(p, q, 2, 0), Crossed(p, q, 3, 0), Crossed(p, q, 4, 0),
     Crossed(p, q, 4, 1), Crossed(p, q, 4, 2), Crossed(p, q, 4, 3), Crossed(p, q, 4, 4)]
  }

  ghost predicate Disjoint(key: Hash, p: Page, q: Page) {
    forall k :: k in ScopeKeys(key, p) ==> k !in ScopeKeys(key, q)
  }

  /** What a transaction holds within its first page are keys of that page. */
  lemma FirstPageHolds(key: Hash, pages: seq<Page>, id: Id, n: nat, k: int)
    requires |pages| == 2 && n <= 4 && Holds(key, FirstPage(pages, id, n), k)
    ensures k in ScopeKeys(key, pages[0])
  {
    var u := LockView(key, FirstPage(pages, id, n));
    var i :| 0 <= i < u.taken && i < |u.keys| && u.keys[i] == k;
    assert i / 2 == 0;
    assert u.keys[i] == ScopeKeys(key, pages[i / 2])[i % 2];
  }

  /** While the other transaction is within its own first page, nothing on it is in the way. */
  lemma FirstPageSteps(key: Hash, s: System, i: nat, id: Id, n: nat)
    requires i < 2 && |s.txns| == 2 && s.docs == map[] && n < 4
    requires |s.txns[i].pages| == 2 && s.txns[i] == FirstPage(s.txns[i].pages, id, n)
    requires forall k :: k in ScopeKeys(key, s.txns[i].pages[0]) ==> !Holds(key, s.txns[1 - i], k)
    requires id !in s.txns[1 - i].pending
    ensures Step(key, s, i, s.(txns := s.txns[i := FirstPage(s.txns[i].pages, id, n + 1)]))
  {
    var t, t' := s.txns[i], FirstPage(s.txns[i].pages, id, n + 1);
    assert View(s, i) == map[];
    if n < 2 {
      assert ScopeKeys(key, t.pages[0])[n] in ScopeKeys(key, t.pages[0]);
      assert Locks(key, s, i, t');
    } else if n == 2 {
      assert Reads(s, i, t');
    } else {
      assert t'.pending == Written(View(s, i), t.pending, t.pages[0], None, None, id);
      assert WritesNew(s, i, t', None, id);
    }
  }

  lemma FirstCrosses(key: Hash, p: Page, q: Page, m: nat)
    requires m < 4
    ensures Steps(key, Crossed(p, q, m, 0), Crossed(p, q, m + 1, 0))
  {
    var s := Crossed(p, q, m, 0);
    FirstPageSteps(key, s, 0, 0, m);
    assert s.(txns := s.txns[0 := FirstPage([p, q], 0, m + 1)]) == Crossed(p, q, m + 1, 0);
  }

  lemma SecondCrosses(key: Hash, p: Page, q: Page, n: nat)
    requires n < 4 && Disjoint(key, p, q)
    ensures Steps(key, Crossed(p, q, 4, n), Crossed(p, q, 4, n + 1))
  {
    var s := Crossed(p, q, 4, n);
    forall k | k in ScopeKeys(key, q)
      ensures !Holds(key, s.txns[0], k)
    {
      if Holds(key, s.txns[0], k) {
        FirstPageHolds(key, [p, q], 0, 4, k);
      }
    }
    FirstPageSteps(key, s, 1, 1, n);
    assert s.(txns := s.txns[1 := FirstPage([q, p], 1, n + 1)]) == Crossed(p, q, 4, n + 1);
  }

  lemma CrossedIsRun(key: Hash, p: Page, q: Page)
    requires Disjoint(key, p, q)
    ensures IsRun(key, CrossedStates(p, q))
  {
    var states := CrossedStates(p, q);
    forall k: nat | 0 < k < |states| ensures StepsAt(key, states, k) {
      if k <= 4 {
        FirstCrosses(key, p, q, k - 1);
        assert states[k - 1] == Crossed(p, q, k - 1, 0) && states[k] == Crossed(p, q, k, 0);
      } else {
        SecondCrosses(key, p, q, k - 5);
        assert states[k - 1] == Crossed(p, q, 4, k - 5) && states[k] == Crossed(p, q, 4, k - 4);
      }
    }
  }

  /** Two transactions that ingest the same two pages, with four different keys, in opposite orders
      can deadlock: there is a run in which each has ingested its first page, holds the locks of
      that page to the end of its transaction, and waits for those of the other. */
  lemma OppositeOrdersCanDeadlock(key: Hash, p: Page, q: Page)
    requires Disjoint(key, p, q)
    ensures exists states: seq<System> ::
              && IsRun(key, states) && states[0].docs == map[]
              && states[0].txns == [Point([p, q], 0, 0, None, map[]), Point([q, p], 0, 0, None, map[])]
              && LockOrder.Deadlocked(LockViews(key, states[|states| - 1].txns))
  {
    var states := CrossedStates(p, q);
    CrossedIsRun(key, p, q);
    var a, b := Plan(key, [p, q]), Plan(key, [q, p]);
    assert a[0] == ScopeKeys(key, p)[0] && a[2] == ScopeKeys(key, q)[0];
    assert b[0] == ScopeKeys(key, q)[0] && b[2] == ScopeKeys(key, p)[0];
    CrossedKeysDeadlock(a, b);
    assert LockViews(key, states[8].txns) == Pair(a, b);
  }

  function Pair(a: seq<int>, b: seq<int>): LockOrder.System {
    [LockOrder.Txn(a, 2, false), LockOrder.Txn(b, 2, false)]
  }

  lemma CrossedKeysDeadlock(a: seq<int>, b: seq<int>)
    requires |a| > 2 && |b| > 2 && a[2] == b[0] && b[2] == a[0]
    ensures LockOrder.Deadlocked(Pair(a, b))
  {
    var s := Pair(a, b);
    assert s[0].keys[0] == a[0] && LockOrder.Holds(s[0], a[0]);
    assert s[1].keys[0] == b[0] && LockOrder.Holds(s[1], b[0]);
    assert LockOrder.WaitsFor(s, 0, 1) && LockOrder.WaitsFor(s, 1, 0);
    var members: set<nat> := {0, 1};
    assert LockOrder.WaitsWithin(s, 0, members) && LockOrder.WaitsWithin(s, 1, members);
    assert LockOrder.Deadlock(s, members);
  }
}
