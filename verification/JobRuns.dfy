/** What holds over whole runs of the prospect-job queue: how long a lease lasts, and when the order of
    the claims can be broken. */
module JobRuns {
  import opened JobQueue
  import opened Wrappers

  /** Every state of a run satisfies the invariant, and no row is ever removed. */
  lemma {:induction false} RunKeepsInv(states: seq<Queue>, events: seq<Event>, i: nat, k: nat)
    requires IsRun(states, events) && i <= k < |states|
    ensures Inv(states[k]) && states[i].rows.Keys <= states[k].rows.Keys
    decreases k
  {
    if i < k {
      RunKeepsInv(states, events, i, k - 1);
      assert StepsAt(states, events, k - 1);
      StepKeepsInv(states[k - 1], events[k - 1], states[k]);
    } else if 0 < k {
      RunKeepsInv(states, events, k - 1, k - 1);
      assert StepsAt(states, events, k - 1);
      StepKeepsInv(states[k - 1], events[k - 1], states[k]);
    }
  }

  // -------------------------------------------------------------------- how long a lease lasts

  predicate SameLease(a: Job, b: Job) {
    IsLeased(a) && IsLeased(b) && a.owner == b.owner && a.attempts == b.attempts
  }

  /** The event commits a write that ends the lease of row `r`, prepared by the lease's owner or by a
      recovery for which the lease had expired. */
  ghost predicate EndsLease(q: Queue, e: Event, r: Id, lease: Job) {
    && e.Commit? && e.tx in q.open && r in q.open[e.tx] && r in q.rows
    && SameLease(lease, q.rows[r])
    && var w := q.open[e.tx][r];
       && !IsLeased(w.job)
       && match w.actor
          case Claimer(_) => false
          case Owner(owner) => lease.owner == Some(owner)
          case Reaper(now) => Expired(q.rows[r], now)
          case Reconciler(now) => Expired(q.rows[r], now)
  }

  lemma StepOfLease(q: Queue, e: Event, q': Queue, r: Id, lease: Job)
    requires Inv(q) && Step(q, e, q') && r in q.rows && SameLease(lease, q.rows[r])
    ensures r in q'.rows && (SameLease(lease, q'.rows[r]) || EndsLease(q, e, r, lease))
  {
    if q'.rows[r] != q.rows[r] {
      LeaseIsFenced(q, e, q', r);
    }
  }

  /** A leased job stays leased to the same owner, with the same number of attempts, until its owner or
      a recovery after its expiry commits the end of the lease: no other worker gets in between. */
  lemma {:induction false} LeaseLasts(states: seq<Queue>, events: seq<Event>, i: nat, k: nat, r: Id)
    requires IsRun(states, events) && i <= k < |states|
    requires r in states[i].rows && IsLeased(states[i].rows[r])
    ensures r in states[k].rows
    ensures SameLease(states[i].rows[r], states[k].rows[r])
            || exists n: nat :: i <= n < k && EndsLease(states[n], events[n], r, states[i].rows[r])
    decreases k
  {
    RunKeepsInv(states, events, i, k);
    if i < k {
      LeaseLasts(states, events, i, k - 1, r);
      if SameLease(states[i].rows[r], states[k - 1].rows[r]) {
        RunKeepsInv(states, events, i, k - 1);
        assert StepsAt(states, events, k - 1);
        StepOfLease(states[k - 1], events[k - 1], states[k], r, states[i].rows[r]);
      }
    }
  }

  // ------------------------------------------------------------- when the order can be broken

  predicate HeldBy(q: Queue, x: nat, r: Id) {
    x in q.open && r in q.open[x]
  }

  lemma StepOfHeld(q: Queue, e: Event, q': Queue, x: nat, r: Id)
    requires Inv(q) && Step(q, e, q') && HeldBy(q, x, r)
    ensures r in q.rows && r in q'.rows
    ensures HeldBy(q', x, r) ==> q'.rows[r] == q.rows[r]
    ensures !HeldBy(q', x, r) ==> e == Commit(x) || e == Abort(x)
  {
  }

  ghost predicate HeldWhile(states: seq<Queue>, x: nat, r: Id, i: nat, k: nat)
    requires i <= k < |states|
  {
    forall n: nat {:trigger HeldBy(states[n], x, r)} :: i <= n <= k ==> HeldBy(states[n], x, r)
  }

  /** As long as one transaction holds a row, the row stays as it is. */
  lemma {:induction false} HeldRowStays(states: seq<Queue>, events: seq<Event>, i: nat, k: nat, x: nat, r: Id)
    requires IsRun(states, events) && i <= k < |states| && HeldWhile(states, x, r, i, k)
    ensures r in states[i].rows && r in states[k].rows && states[k].rows[r] == states[i].rows[r]
    decreases k
  {
    assert HeldBy(states[k], x, r);
    if i < k {
      HeldRowStays(states, events, i, k - 1, x, r);
      assert HeldBy(states[k - 1], x, r);
      HeldAtStep(states, events, k - 1, x, r);
    } else {
      RunKeepsInv(states, events, i, i);
    }
  }

  lemma HeldAtStep(states: seq<Queue>, events: seq<Event>, n: nat, x: nat, r: Id)
    requires IsRun(states, events) && n < |events| && HeldBy(states[n], x, r)
    ensures r in states[n].rows && r in states[n + 1].rows
    ensures HeldBy(states[n + 1], x, r) ==> states[n + 1].rows[r] == states[n].rows[r]
    ensures !HeldBy(states[n + 1], x, r) ==> events[n] == Commit(x) || events[n] == Abort(x)
  {
    RunKeepsInv(states, events, n, n);
    assert StepsAt(states, events, n);
    StepOfHeld(states[n], events[n], states[n + 1], x, r);
  }

  /** A row a transaction has locked is free again only after that transaction has ended. */
  lemma {:induction false} LockEnds(states: seq<Queue>, events: seq<Event>, i: nat, k: nat, x: nat, r: Id)
    returns (n: nat)
    requires IsRun(states, events) && i <= k < |states|
    requires HeldBy(states[i], x, r) && !Locked(states[k], r)
    ensures i <= n < k && HeldWhile(states, x, r, i, n) && (events[n] == Commit(x) || events[n] == Abort(x))
    decreases k - i
  {
    assert i < k;
    HeldAtStep(states, events, i, x, r);
    n := i;
    if HeldBy(states[i + 1], x, r) {
      n := LockEnds(states, events, i + 1, k, x, r);
    }
  }

  lemma StepOfAttempts(q: Queue, e: Event, q': Queue, r: Id)
    requires Inv(q) && Step(q, e, q') && r in q.rows
    ensures r in q'.rows && q.rows[r].attempts <= q'.rows[r].attempts
    ensures e.Commit? && HeldBy(q, e.tx, r) && q.rows[r].status.Pending? ==>
              q.rows[r].attempts < q'.rows[r].attempts
  {
    if e.Commit? && HeldBy(q, e.tx, r) {
      PreparedIsOk(q.rows[r], q.open[e.tx][r]);
    }
  }

  lemma {:induction false} AttemptsGrow(states: seq<Queue>, events: seq<Event>, i: nat, k: nat, r: Id)
    requires IsRun(states, events) && i <= k < |states| && r in states[i].rows
    ensures r in states[k].rows && states[i].rows[r].attempts <= states[k].rows[r].attempts
    decreases k
  {
    if i < k {
      AttemptsGrow(states, events, i, k - 1, r);
      RunKeepsInv(states, events, i, k - 1);
      assert StepsAt(states, events, k - 1);
      StepOfAttempts(states[k - 1], events[k - 1], states[k], r);
    }
  }

  /** Step `n` claims row `r`. */
  predicate Claims(events: seq<Event>, n: nat, r: Id) {
    n < |events| && events[n].Claim? && events[n].answer == r
  }

  /** The three ways in which row `p` can come to be handed out at step `m` although it precedes a row
      handed out at step `k` and still held: it was added or written in between, it was not due on
      the clock of the first claim, or the transaction that held it then has aborted. */
  ghost predicate CameLate(states: seq<Queue>, events: seq<Event>, k: nat, m: nat, p: Id)
    requires k < m < |states| && |states| == |events| + 1 && events[k].Claim?
  {
    || p !in states[k].rows || p !in states[m].rows || states[k].rows[p] != states[m].rows[p]
    || states[k].rows[p].availableAt > events[k].now
    || exists x: nat, n: nat :: k <= n < m && HeldWhile(states, x, p, k, n) && events[n] == Abort(x)
  }

  /** Step `m` claims row `p` although it precedes row `r`, which step `k` has claimed and still holds. */
  ghost predicate Overtakes(states: seq<Queue>, events: seq<Event>, k: nat, m: nat, r: Id, p: Id) {
    && k < m < |events| && |states| == |events| + 1 && Claims(events, k, r) && Claims(events, m, p)
    && HeldWhile(states, events[k].tx, r, k + 1, m)
    && r in states[m].rows && p in states[m].rows && !Before(states[m].rows[r], states[m].rows[p])
  }

  /** Claims follow the order of the queue except for rows that came late. */
  lemma ClaimsFollowTheOrder(states: seq<Queue>, events: seq<Event>, k: nat, m: nat, r: Id, p: Id)
    requires IsRun(states, events) && Overtakes(states, events, k, m, r, p)
    ensures CameLate(states, events, k, m, p)
  {
    var q, now := states[k], events[k].now;
    HeldRowStays(states, events, k + 1, m, events[k].tx, r);
    ClaimAt(states, events, k, r);
    ClaimAt(states, events, m, p);
    if p in q.rows && q.rows[p] == states[m].rows[p] && q.rows[p].availableAt <= now {
      assert Claimable(q, now, p);
      assert Locked(q, p);
      var x: nat :| x in q.open && p in q.open[x];
      assert HeldBy(q, x, p);
      var n := ReleasedByAbort(states, events, k, m, x, p);
    }
  }

  lemma ClaimAt(states: seq<Queue>, events: seq<Event>, k: nat, r: Id)
    requires IsRun(states, events) && Claims(events, k, r)
    ensures ClaimAnswer(states[k], events[k].now, Some(r)) && states[k + 1].rows == states[k].rows
  {
    assert StepsAt(states, events, k);
  }

  /** A waiting row that was locked, and is free and unchanged later, was released by an abort. */
  lemma ReleasedByAbort(states: seq<Queue>, events: seq<Event>, k: nat, m: nat, x: nat, p: Id) returns (n: nat)
    requires IsRun(states, events) && k <= m < |states|
    requires HeldBy(states[k], x, p) && !Locked(states[m], p)
    requires p in states[k].rows && p in states[m].rows && states[k].rows[p] == states[m].rows[p]
    requires states[k].rows[p].status.Pending?
    ensures k <= n < m && HeldWhile(states, x, p, k, n) && events[n] == Abort(x)
  {
    n := LockEnds(states, events, k, m, x, p);
    if events[n] == Commit(x) {
      CommitShows(states, events, k, n, m, x, p);
    }
  }

  /** The commit of a claim can be told from the row for ever after, by its number of attempts. */
  lemma CommitShows(states: seq<Queue>, events: seq<Event>, k: nat, n: nat, m: nat, x: nat, p: Id)
    requires IsRun(states, events) && k <= n < m < |states|
    requires HeldWhile(states, x, p, k, n) && events[n] == Commit(x)
    requires p in states[k].rows && states[k].rows[p].status.Pending?
    ensures p in states[m].rows && states[k].rows[p].attempts < states[m].rows[p].attempts
  {
    HeldRowStays(states, events, k, n, x, p);
    assert HeldBy(states[n], x, p);
    RunKeepsInv(states, events, n, n);
    assert StepsAt(states, events, n);
    StepOfAttempts(states[n], events[n], states[n + 1], p);
    AttemptsGrow(states, events, n + 1, m, p);
  }

  // ---------------------------------------------------------------- the order does get broken

  /** A job added at the given time. */
  function Waiting(at: Time): Job {
    Job(Pending, at, at, 0, 1, None, None, 0)
  }

  function Claimed(at: Time, owner: string): Write
    requires at <= 1 && owner != ""
  {
    Write(Lease(Waiting(at), owner, 1, 1).value, Claimer(owner))
  }

  const TWO_ROWS: map<Id, Job> := map[0 := Waiting(0), 1 := Waiting(1)]

  /** Two jobs, three workers: the first claims the first job and aborts, the second claims the
      second job, and the third gets the first job after all. */
  const BROKEN_EVENTS: seq<Event> := [
    Enqueue(0, Waiting(0)), Enqueue(1, Waiting(1)),
    Claim(0, "a", 1, 1, 0), Claim(1, "b", 1, 1, 1), Abort(0), Claim(2, "c", 1, 1, 0)
  ]

  const BROKEN_STATES: seq<Queue> := [
    Queue(map[], map[]),
    Queue(map[0 := Waiting(0)], map[]),
    Queue(TWO_ROWS, map[]),
    Queue(TWO_ROWS, map[0 := map[0 := Claimed(0, "a")]]),
    Queue(TWO_ROWS, map[0 := map[0 := Claimed(0, "a")], 1 := map[1 := Claimed(1, "b")]]),
    Queue(TWO_ROWS, map[1 := map[1 := Claimed(1, "b")]]),
    Queue(TWO_ROWS, map[1 := map[1 := Claimed(1, "b")], 2 := map[0 := Claimed(0, "c")]])
  ]

  /** Row `p` was due when step `k` claimed, and is as it was when step `m` claims it: the transaction that
      held it has aborted in between. */
  ghost predicate GivenBack(states: seq<Queue>, events: seq<Event>, k: nat, m: nat, p: Id)
    requires k < m < |states| && |states| == |events| + 1 && events[k].Claim?
  {
    && p in states[k].rows && p in states[m].rows && states[k].rows[p] == states[m].rows[p]
    && states[k].rows[p].availableAt <= events[k].now
    && exists x: nat, n: nat :: k <= n < m && HeldWhile(states, x, p, k, n) && events[n] == Abort(x)
  }

  /** An abort alone breaks the order: a later claim gets a job that precedes one handed out before and
      still held, although the job was there and due all the time. */
  lemma AbortBreaksTheOrder()
    ensures exists states: seq<Queue>, events: seq<Event>, k: nat, m: nat, r: Id, p: Id ::
              && IsRun(states, events) && Overtakes(states, events, k, m, r, p)
              && GivenBack(states, events, k, m, p)
  {
    BrokenIsRun();
    assert HeldBy(BROKEN_STATES[4], 1, 1) && HeldBy(BROKEN_STATES[5], 1, 1);
    assert Claims(BROKEN_EVENTS, 3, 1) && Claims(BROKEN_EVENTS, 5, 0);
    assert Overtakes(BROKEN_STATES, BROKEN_EVENTS, 3, 5, 1, 0);
    ClaimsFollowTheOrder(BROKEN_STATES, BROKEN_EVENTS, 3, 5, 1, 0);
    assert GivenBack(BROKEN_STATES, BROKEN_EVENTS, 3, 5, 0);
  }

  lemma BrokenIsRun()
    ensures IsRun(BROKEN_STATES, BROKEN_EVENTS)
  {
    BrokenStart(0);
    BrokenStart(1);
    BrokenMiddle(2);
    BrokenMiddle(3);
    BrokenEnd(4);
    BrokenEnd(5);
    assert forall k: nat | k < 6 :: StepsAt(BROKEN_STATES, BROKEN_EVENTS, k);
  }

  lemma BrokenStart(k: nat)
    requires k < 2
    ensures StepsAt(BROKEN_STATES, BROKEN_EVENTS, k)
  {
    assert Created(k, 1) == Success(Waiting(k));
  }

  lemma BrokenMiddle(k: nat)
    requires 2 <= k < 4
    ensures StepsAt(BROKEN_STATES, BROKEN_EVENTS, k)
  {
  }

  lemma BrokenEnd(k: nat)
    requires 4 <= k < 6
    ensures StepsAt(BROKEN_STATES, BROKEN_EVENTS, k)
  {
  }
}
