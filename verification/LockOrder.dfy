/** Transactions that take exclusive locks one by one and hold them to their end.

    A key already held by the same transaction is taken again without waiting, as PostgreSQL
    advisory locks are. */
module LockOrder {

  /** `keys` are the keys the transaction takes, in that order; `taken` of them so far. */
  datatype Txn = Txn(keys: seq<int>, taken: nat, done: bool)

  type System = seq<Txn>

  predicate Holds(t: Txn, key: int) {
    !t.done && exists i :: 0 <= i < t.taken && i < |t.keys| && t.keys[i] == key
  }

  ghost predicate Wants(t: Txn, key: int) {
    !t.done && t.taken < |t.keys| && t.keys[t.taken] == key
  }

  predicate Free(s: System, i: nat, key: int) {
    forall j | 0 <= j < |s| && j != i :: !Holds(s[j], key)
  }

  ghost predicate CanStep(s: System, i: nat) {
    && i < |s| && !s[i].done
    && (s[i].taken < |s[i].keys| ==> Free(s, i, s[i].keys[s[i].taken]))
  }

  /** Transaction `i` takes its next key, or ends; it may also end early by failing. */
  ghost predicate Step(s: System, i: nat, s': System) {
    && i < |s| && !s[i].done
    && (|| (CanStep(s, i) && s[i].taken < |s[i].keys| && s' == s[i := s[i].(taken := s[i].taken + 1)])
        || s' == s[i := s[i].(done := true)])
  }

  /** The state in which transaction `i` has taken `n` more of its keys. */
  function Taking(s: System, i: nat, n: nat): System
    requires i < |s|
  {
    s[i := s[i].(taken := s[i].taken + n)]
  }

  lemma TakeIsStep(s: System, i: nat, n: nat)
    requires i < |s| && !s[i].done && s[i].taken + n < |s[i].keys|
    requires Free(Taking(s, i, n), i, s[i].keys[s[i].taken + n])
    ensures Step(Taking(s, i, n), i, Taking(s, i, n + 1))
  {
    var u := Taking(s, i, n);
    assert CanStep(u, i);
    assert Taking(s, i, n + 1) == u[i := u[i].(taken := u[i].taken + 1)];
  }

  ghost predicate WellFormed(s: System) {
    forall i | 0 <= i < |s| :: s[i].taken <= |s[i].keys|
  }

  ghost predicate Exclusive(s: System) {
    forall i, j, key | 0 <= i < |s| && 0 <= j < |s| && i != j :: Holds(s[i], key) ==> !Holds(s[j], key)
  }

  ghost predicate Inv(s: System) {
    WellFormed(s) && Exclusive(s)
  }

  ghost predicate Initial(s: System) {
    forall i | 0 <= i < |s| :: s[i].taken == 0 && !s[i].done
  }

  lemma InitialInv(s: System)
    requires Initial(s)
    ensures Inv(s)
  {
  }

  /** No key is ever held by two transactions, whatever the keys are. */
  lemma StepKeepsInv(s: System, i: nat, s': System)
    requires Inv(s) && Step(s, i, s')
    ensures Inv(s')
  {
    forall j, key | 0 <= j < |s'| && Holds(s'[j], key)
      ensures Holds(s[j], key) || (j == i && !s'[i].done && key == s[i].keys[s[i].taken] && Free(s, i, key))
    {
      if j == i && !Holds(s[i], key) {
        var k :| 0 <= k < s'[i].taken && k < |s'[i].keys| && s'[i].keys[k] == key;
        assert k == s[i].taken;
      }
    }
  }

  // ---------------------------------------------------------------- ascending order

  /** Every key the transaction does not hold yet is greater than all those it took before. */
  ghost predicate Ascending(keys: seq<int>) {
    forall i, j | 0 <= i < j < |keys| && keys[j] !in keys[..j] :: keys[i] < keys[j]
  }

  ghost predicate WaitsFor(s: System, i: nat, j: nat) {
    && i < |s| && j < |s| && i != j && !s[i].done && s[i].taken < |s[i].keys|
    && Holds(s[j], s[i].keys[s[i].taken])
  }

  ghost predicate WaitsWithin(s: System, i: nat, members: set<nat>) {
    exists j | j in members :: WaitsFor(s, i, j)
  }

  /** Every member waits for a member. */
  ghost predicate Deadlock(s: System, members: set<nat>) {
    members != {} && forall i {:trigger WaitsWithin(s, i, members)} | i in members :: WaitsWithin(s, i, members)
  }

  ghost predicate Deadlocked(s: System) {
    exists members: set<nat> :: Deadlock(s, members)
  }

  ghost function WantedKey(s: System, i: nat): int {
    if i < |s| && s[i].taken < |s[i].keys| then s[i].keys[s[i].taken] else 0
  }

  lemma GreatestWanted(s: System, members: set<nat>) returns (top: nat)
    requires members != {}
    ensures top in members && forall i | i in members :: WantedKey(s, i) <= WantedKey(s, top)
    decreases |members|
  {
    top :| top in members;
    var rest := members - {top};
    if rest != {} {
      var other := GreatestWanted(s, rest);
      if WantedKey(s, top) < WantedKey(s, other) {
        top := other;
      }
    }
  }

  ghost predicate AllAscending(s: System) {
    forall i {:trigger s[i]} | 0 <= i < |s| :: Ascending(s[i].keys)
  }

  /** A waiting transaction in ascending order wants a key greater than any it holds. */
  lemma WantedIsGreater(t: Txn, want: int, key: int)
    requires Ascending(t.keys) && Wants(t, want) && !Holds(t, want) && Holds(t, key)
    ensures key < want
  {
    var i :| 0 <= i < t.taken && i < |t.keys| && t.keys[i] == key;
    if want in t.keys[..t.taken] {
      var k :| 0 <= k < t.taken && t.keys[k] == want;
      assert Holds(t, want);
    }
  }

  /** Along a chain of waiting transactions the wanted keys grow. */
  lemma WaitingGrows(s: System, i: nat, j: nat, k: nat)
    requires Inv(s) && AllAscending(s) && WaitsFor(s, i, j) && WaitsFor(s, j, k)
    ensures WantedKey(s, i) < WantedKey(s, j)
  {
    WantedIsGreater(s[j], WantedKey(s, j), WantedKey(s, i));
  }

  /** Transactions that all take their keys in ascending order never deadlock. */
  lemma AscendingNeverDeadlocks(s: System)
    requires Inv(s) && AllAscending(s)
    ensures !Deadlocked(s)
  {
    forall members: set<nat> ensures !Deadlock(s, members) {
      if Deadlock(s, members) {
        var i := GreatestWanted(s, members);
        assert WaitsWithin(s, i, members);
        var j :| j in members && WaitsFor(s, i, j);
        assert WaitsWithin(s, j, members);
        var k :| k in members && WaitsFor(s, j, k);
        WaitingGrows(s, i, j, k);
      }
    }
  }

  /** While some transaction is unfinished, some unfinished transaction can step. */
  lemma AscendingAlwaysProgresses(s: System)
    requires Inv(s) && AllAscending(s)
    requires exists i :: 0 <= i < |s| && !s[i].done
    ensures exists i: nat :: CanStep(s, i)
  {
    if forall i: nat :: !CanStep(s, i) {
      var unfinished := set i: nat | i < |s| && !s[i].done;
      forall i | i in unfinished ensures WaitsWithin(s, i, unfinished) {
        assert !CanStep(s, i);
        var j :| 0 <= j < |s| && j != i && Holds(s[j], s[i].keys[s[i].taken]);
        assert j in unfinished && WaitsFor(s, i, j);
      }
      var i :| 0 <= i < |s| && !s[i].done;
      assert i in unfinished;
      assert Deadlock(s, unfinished);
      AscendingNeverDeadlocks(s);
    }
  }

  // ---------------------------------------------------------------- bounded runs

  /** How many steps the transactions have left at most. */
  ghost function StepsLeft(s: System): nat {
    if s == [] then 0
    else (if s[0].done then 0 else 1 + if s[0].taken <= |s[0].keys| then |s[0].keys| - s[0].taken else 0)
         + StepsLeft(s[1..])
  }

  lemma {:induction false} StepUsesUp(s: System, i: nat, s': System)
    requires Inv(s) && Step(s, i, s')
    ensures StepsLeft(s') < StepsLeft(s)
  {
    var t, t' := s[i], s'[i];
    assert s' == s[i := t'];
    ReplacingUsesUp(s, i, t');
  }

  lemma {:induction false} ReplacingUsesUp(s: System, i: nat, t: Txn)
    requires i < |s| && !s[i].done && s[i].taken <= |s[i].keys|
    requires t == s[i].(done := true)
             || (s[i].taken < |s[i].keys| && t == s[i].(taken := s[i].taken + 1))
    ensures StepsLeft(s[i := t]) < StepsLeft(s)
    decreases |s|
  {
    if i == 0 {
      assert s[0 := t][1..] == s[1..];
    } else {
      assert s[i := t][1..] == s[1..][i - 1 := t];
      ReplacingUsesUp(s[1..], i - 1, t);
    }
  }

  ghost predicate Steps(s: System, s': System) {
    exists i: nat :: Step(s, i, s')
  }

  ghost predicate StepsAt(states: seq<System>, k: nat)
    requires 0 < k < |states|
  {
    Steps(states[k - 1], states[k])
  }

  /** `states` is a run: each state follows from the one before by one step. */
  ghost predicate IsRun(states: seq<System>) {
    && states != [] && Initial(states[0])
    && forall k: nat {:trigger StepsAt(states, k)} | 0 < k < |states| :: StepsAt(states, k)
  }

  /** Along every run no key is held twice, each transaction keeps its keys, and the run is no
      longer than the keys allow: one step per key and one to end, per transaction. */
  lemma {:induction false} RunsAreBounded(states: seq<System>, k: nat)
    requires IsRun(states) && k < |states|
    ensures Inv(states[k]) && k + StepsLeft(states[k]) <= StepsLeft(states[0])
    ensures |states[k]| == |states[0]|
    ensures forall i | 0 <= i < |states[0]| :: states[k][i].keys == states[0][i].keys
    decreases k
  {
    InitialInv(states[0]);
    if k > 0 {
      RunsAreBounded(states, k - 1);
      assert StepsAt(states, k);
      var i: nat :| Step(states[k - 1], i, states[k]);
      StepKeepsInv(states[k - 1], i, states[k]);
      StepUsesUp(states[k - 1], i, states[k]);
    }
  }

  // ------------------------------------------------------- exactly when order matters

  /** A system of two: `keys` against a transaction that takes the two keys `a <= b` in order. */
  function Against(keys: seq<int>, a: int, b: int): System {
    [Txn(keys, 0, false), Txn([a, b], 0, false)]
  }

  ghost predicate EndsInDeadlock(states: seq<System>) {
    IsRun(states) && Deadlocked(states[|states| - 1])
  }

  ghost predicate CanDeadlockWith(keys: seq<int>, a: int, b: int) {
    exists states: seq<System> :: EndsInDeadlock(states) && states[0] == Against(keys, a, b)
  }

  /** The other transaction takes `a`, then the first takes its keys up to but not including
      position `j`. */
  function Schedule(keys: seq<int>, a: int, b: int, n: nat): (states: seq<System>)
    ensures |states| == n + 2
  {
    [Against(keys, a, b)]
    + seq(n + 1, m requires 0 <= m < n + 1 => [Txn(keys, m, false), Txn([a, b], 1, false)])
  }

  lemma ScheduleIsRun(keys: seq<int>, a: int, b: int, n: nat)
    requires n <= |keys| && a !in keys[..n]
    ensures IsRun(Schedule(keys, a, b, n))
  {
    var states := Schedule(keys, a, b, n);
    forall k: nat | 0 < k < |states| ensures StepsAt(states, k) {
      if k == 1 {
        FirstTake(keys, a, b);
      } else {
        assert keys[k - 2] in keys[..n];
        NextTake(keys, a, b, k - 2);
      }
    }
  }

  lemma FirstTake(keys: seq<int>, a: int, b: int)
    ensures Steps(Against(keys, a, b), [Txn(keys, 0, false), Txn([a, b], 1, false)])
  {
    var s, s' := Against(keys, a, b), [Txn(keys, 0, false), Txn([a, b], 1, false)];
    assert s' == s[1 := s[1].(taken := 1)];
    assert CanStep(s, 1);
    assert Step(s, 1, s');
  }

  lemma NextTake(keys: seq<int>, a: int, b: int, m: nat)
    requires m < |keys| && keys[m] != a
    ensures Steps([Txn(keys, m, false), Txn([a, b], 1, false)],
                  [Txn(keys, m + 1, false), Txn([a, b], 1, false)])
  {
    var s, s' := [Txn(keys, m, false), Txn([a, b], 1, false)], [Txn(keys, m + 1, false), Txn([a, b], 1, false)];
    assert s' == s[0 := s[0].(taken := m + 1)];
    assert CanStep(s, 0);
    assert Step(s, 0, s');
  }

  /** Keys out of order deadlock with the transaction that takes the two keys concerned in order. */
  lemma DisorderDeadlocks(keys: seq<int>, i: nat, j: nat)
    requires i < j < |keys| && keys[j] !in keys[..j] && keys[i] > keys[j]
    ensures CanDeadlockWith(keys, keys[j], keys[i])
  {
    var a, b := keys[j], keys[i];
    var states := Schedule(keys, a, b, j);
    ScheduleIsRun(keys, a, b, j);
    var s := states[|states| - 1];
    assert s == [Txn(keys, j, false), Txn([a, b], 1, false)];
    assert s[1].keys[0] == a && Holds(s[1], a);
    assert s[0].keys[i] == b && Holds(s[0], b);
    assert WaitsFor(s, 0, 1) && WaitsFor(s, 1, 0);
    var members: set<nat> := {0, 1};
    assert WaitsWithin(s, 0, members) && WaitsWithin(s, 1, members);
    assert Deadlock(s, members);
    assert EndsInDeadlock(states) && states[0] == Against(keys, a, b);
  }

  lemma OrderNeverDeadlocksWith(keys: seq<int>, a: int, b: int)
    requires Ascending(keys) && a <= b
    ensures !CanDeadlockWith(keys, a, b)
  {
    if CanDeadlockWith(keys, a, b) {
      var states: seq<System> :| EndsInDeadlock(states) && states[0] == Against(keys, a, b);
      var s := states[|states| - 1];
      RunsAreBounded(states, |states| - 1);
      assert Ascending([a, b]);
      assert AllAscending(states[0]);
      assert forall i | 0 <= i < |s| :: s[i].keys == states[0][i].keys;
      AscendingNeverDeadlocks(s);
    }
  }

  /** A transaction can deadlock with some transaction that takes two keys in ascending order if
      and only if its own keys, taken over all its calls, are not in ascending order. */
  lemma DeadlockIffNotAscending(keys: seq<int>)
    ensures (exists a, b :: a <= b && CanDeadlockWith(keys, a, b)) <==> !Ascending(keys)
  {
    if Ascending(keys) {
      forall a, b | a <= b ensures !CanDeadlockWith(keys, a, b) {
        OrderNeverDeadlocksWith(keys, a, b);
      }
    } else {
      var i, j :| 0 <= i < j < |keys| && keys[j] !in keys[..j] && keys[i] >= keys[j];
      assert keys[i] in keys[..j];
      DisorderDeadlocks(keys, i, j);
    }
  }
}
