/** What becomes of a job: what each write makes of it, and how it ends in a whole run. The laws speak of the
    columns of a job, not of the operations that set them. */
module JobOutcomes {
  import opened JobQueue
  import opened JobRuns
  import opened Wrappers

  // ------------------------------------------------------------------------ one write

  /** The columns no write ever touches. */
  predicate SameOrigin(j: Job, j': Job) {
    j'.createdAt == j.createdAt && j'.maxAttempts == j.maxAttempts
  }

  /** The lease is given up; attempts made stay counted. */
  predicate GivesUp(j: Job, j': Job) {
    SameOrigin(j, j') && j'.owner.None? && j'.expiresAt.None? && j'.attempts == j.attempts
  }

  /** A job without a lease is tried again from the given time on, if it has attempts left, and has failed
      otherwise. */
  predicate TriedAgain(j: Job, j': Job, from: Time) {
    if j.attempts < j.maxAttempts then j'.status == Pending && j'.availableAt == from else j'.status == Failed
  }

  /** A claim takes a waiting job whose time has come, counts the attempt and starts a lease. */
  ghost predicate Claims(j: Job, j': Job, owner: string) {
    && j.status == Pending && j'.status == Leased && SameOrigin(j, j') && j'.availableAt == j.availableAt
    && j'.attempts == j.attempts + 1 && j'.owner == Some(owner) && owner != "" && j'.recoveries == j.recoveries
    && j'.expiresAt.Some? && j.availableAt < j'.expiresAt.value
  }

  /** The owner of a lease starts, extends its lease, finishes, or reports an error. */
  ghost predicate Works(j: Job, j': Job, owner: string) {
    j.owner == Some(owner) && j'.recoveries == j.recoveries &&
    ( || (j.status == Leased && j' == j.(status := Running))
      || (exists expiry :: j' == j.(expiresAt := Some(expiry)))
      || (GivesUp(j, j') && j'.status == Completed && j'.availableAt == j.availableAt)
      || (GivesUp(j, j') && j.attempts >= j.maxAttempts && j'.status == Failed && j'.availableAt == j.availableAt)
      || (GivesUp(j, j') && j.attempts < j.maxAttempts && j'.status == Pending))
  }

  /** The job had a lease, which has run out. */
  predicate RanOut(j: Job, now: Time) {
    j.status in {Leased, Running} && j.expiresAt.Some? && j.expiresAt.value < now
  }

  /** What every write makes of the job it was prepared from. A job becomes completed only by its owner or by
      a reconciliation; a recovery, like a reported error, leads to another attempt exactly when one is left. */
  lemma WriteOutcome(j: Job, w: Write)
    requires JobOk(j) && Prepares(j, w)
    ensures match w.actor
            case Claimer(owner) => Claims(j, w.job, owner)
            case Owner(owner) =>
              || (j.status == Completed && w.job == j)
              || (j.status in {Leased, Running} && Works(j, w.job, owner))
            case Reaper(now) =>
              && RanOut(j, now) && GivesUp(j, w.job) && w.job.recoveries == j.recoveries + 1
              && w.job.availableAt == now && TriedAgain(j, w.job, now)
            case Reconciler(now) =>
              && RanOut(j, now) && GivesUp(j, w.job) && w.job.recoveries == j.recoveries + 1
              && w.job.availableAt == j.availableAt && w.job.status == Completed
  {
    if w.actor.Owner? {
      OwnerOutcome(j, w, w.actor.owner);
    }
  }

  lemma OwnerOutcome(j: Job, w: Write, owner: string)
    requires JobOk(j) && w.actor == Owner(owner) && Prepares(j, w)
    ensures (j.status == Completed && w.job == j) || (j.status in {Leased, Running} && Works(j, w.job, owner))
  {
    if Start(j, owner) == Success(w.job) {
    } else if ttl, now :| Heartbeat(j, owner, ttl, now) == Success(w.job) {
      assert w.job == j.(expiresAt := Some(now + ttl));
    }
  }

  /** A lease, fresh or renewed, holds until its time is over: no recovery is possible before. */
  lemma LeaseHolds(j: Job, owner: string, ttl: Time, now: Time, later: Time, j': Job)
    requires Lease(j, owner, ttl, now) == Success(j') || Heartbeat(j, owner, ttl, now) == Success(j')
    ensures RecoverStale(j', later).Success? <==> now + ttl < later
    ensures ReconcileCompleted(j', later).Success? <==> now + ttl < later
  {
  }

  /** A reported error is accepted from the owner of the lease alone. The job then waits and can be claimed from
      the end of the delay on, if it has attempts left, and has failed otherwise. */
  lemma ErrorOutcome(j: Job, owner: string, delay: Time, now: Time, next: string, ttl: Time, later: Time)
    requires next != "" && ttl > 0
    ensures RetryAfterError(j, owner, delay, now).Success? <==> j.status in {Leased, Running} && j.owner == Some(owner)
    ensures RetryAfterError(j, owner, delay, now).Success? ==>
              (Lease(RetryAfterError(j, owner, delay, now).value, next, ttl, later).Success? <==>
               j.attempts < j.maxAttempts && now <= later && now + delay <= later)
    ensures RetryAfterError(j, owner, delay, now).Success? ==>
              var j' := RetryAfterError(j, owner, delay, now).value;
              GivesUp(j, j') && j'.recoveries == j.recoveries && TriedAgain(j, j', j'.availableAt)
  {
  }

  /** Which requests are accepted; a waiting job that is due is refused for its arguments, everything else for the
      state of the job. */
  lemma AcceptedIff(j: Job, owner: string, ttl: Time, now: Time)
    ensures Lease(j, owner, ttl, now).Failure? ==>
              (Lease(j, owner, ttl, now).error == InvalidArgument <==> j.status == Pending && j.availableAt <= now)
    ensures Start(j, owner).Failure? ==> Start(j, owner).error == InvalidTransition
    ensures Heartbeat(j, owner, ttl, now).Failure? ==> Heartbeat(j, owner, ttl, now).error == InvalidTransition
    ensures Complete(j, owner).Failure? ==> Complete(j, owner).error == InvalidTransition
    ensures RetryAfterError(j, owner, ttl, now).Failure? ==>
              RetryAfterError(j, owner, ttl, now).error == InvalidTransition
    ensures RecoverStale(j, now).Failure? ==> RecoverStale(j, now).error == InvalidTransition
    ensures ReconcileCompleted(j, now).Failure? ==> ReconcileCompleted(j, now).error == InvalidTransition
    ensures Lease(j, owner, ttl, now).Success? <==>
            j.status == Pending && j.availableAt <= now && owner != "" && ttl > 0
    ensures Start(j, owner).Success? <==> j.status == Leased && j.owner == Some(owner)
    ensures Heartbeat(j, owner, ttl, now).Success? <==> j.status in {Leased, Running} && j.owner == Some(owner)
    ensures Complete(j, owner).Success? <==>
            j.status == Completed || (j.status in {Leased, Running} && j.owner == Some(owner))
    ensures RecoverStale(j, now).Success? <==> RanOut(j, now)
    ensures ReconcileCompleted(j, now).Success? <==> RanOut(j, now)
  {
  }

  /** A job is created waiting, available at once, with all its attempts before it, unless it may never be
      attempted. */
  lemma NewJobWaits(now: Time, maxAttempts: nat)
    ensures match Created(now, maxAttempts)
            case Failure(e) => maxAttempts == 0 && e == InvalidArgument
            case Success(j) =>
              && maxAttempts > 0 && j.status == Pending && j.availableAt == now && j.createdAt == now
              && j.attempts == 0 && j.maxAttempts == maxAttempts && j.recoveries == 0
              && j.owner.None? && j.expiresAt.None?
  {
  }

  // ------------------------------------------------------------------------ one event

  /** A claim locks the oldest row that is due, prepares its lease to the given owner until the given time is
      over, and stores nothing yet. */
  lemma ClaimLocksTheOldest(q: Queue, x: nat, owner: string, ttl: Time, now: Time, r: Id, q': Queue)
    requires Step(q, Claim(x, owner, ttl, now, r), q')
    ensures IsDue(q, now, r) && forall p :: IsDue(q, now, p) ==>
              && q.rows[r].availableAt <= q.rows[p].availableAt
              && (q.rows[r].availableAt == q.rows[p].availableAt ==> q.rows[r].createdAt <= q.rows[p].createdAt)
    ensures q'.rows == q.rows && q'.open.Keys == q.open.Keys + {x} && q'.open[x].Keys == {r}
    ensures forall y | y in q.open :: q'.open[y] == q.open[y]
    ensures q'.open[x][r].actor == Claimer(owner) && Claims(q.rows[r], q'.open[x][r].job, owner)
    ensures q'.open[x][r].job.expiresAt == Some(now + ttl)
  {
    ClaimIsForTheOldest(q, now, Some(r));
  }

  /** A recovery locks the stalest rows, as many as it may, prepares another attempt, the failure or the completion
      of each, and stores nothing yet. */
  lemma RecoveryLocksTheStalest(q: Queue, x: nat, now: Time, limit: nat, writes: map<Id, Write>, q': Queue)
    requires Step(q, Recover(x, now, limit, writes), q')
    ensures |writes.Keys| <= limit && forall r :: r in writes ==> IsStale(q, now, r)
    ensures forall p :: IsStale(q, now, p) && p !in writes ==>
              && |writes.Keys| == limit
              && forall r :: r in writes ==> q.rows[r].expiresAt.value <= q.rows[p].expiresAt.value
    ensures forall r :: r in writes ==>
              && writes[r].actor in {Reaper(now), Reconciler(now)} && GivesUp(q.rows[r], writes[r].job)
              && (writes[r].actor.Reaper? ==> TriedAgain(q.rows[r], writes[r].job, now))
              && (writes[r].actor.Reconciler? ==> writes[r].job.status == Completed)
    ensures q'.rows == q.rows && q'.open == q.open[x := writes] && x !in q.open
  {
    RecoveryIsForTheStalest(q, now, limit, writes.Keys);
  }

  // ------------------------------------------------------------------------ whole runs

  predicate IsFinished(j: Job) {
    j.status == Completed || j.status == Failed
  }

  lemma StepOfFinished(q: Queue, e: Event, q': Queue, r: Id)
    requires Inv(q) && Step(q, e, q') && r in q.rows && IsFinished(q.rows[r])
    ensures r in q'.rows && q'.rows[r] == q.rows[r]
  {
    if e.Commit? && HeldBy(q, e.tx, r) {
      WriteOutcome(q.rows[r], q.open[e.tx][r]);
    }
  }

  /** What is finished stays as it is, whatever anybody does. */
  lemma {:induction false} FinishedForever(states: seq<Queue>, events: seq<Event>, i: nat, k: nat, r: Id)
    requires IsRun(states, events) && i <= k < |states|
    requires r in states[i].rows && IsFinished(states[i].rows[r])
    ensures r in states[k].rows && states[k].rows[r] == states[i].rows[r]
    decreases k
  {
    if i < k {
      FinishedForever(states, events, i, k - 1, r);
      RunKeepsInv(states, events, i, k - 1);
      assert StepsAt(states, events, k - 1);
      StepOfFinished(states[k - 1], events[k - 1], states[k], r);
    }
  }

  /** The event commits the end of a lease on row `r`: as completed by the owner of the lease, or by a
      reconciliation after the lease ran out. */
  ghost predicate Completes(q: Queue, e: Event, r: Id) {
    && e.Commit? && e.tx in q.open && r in q.open[e.tx] && r in q.rows && q.rows[r].status in {Leased, Running}
    && q.open[e.tx][r].job.status == Completed
    && match q.open[e.tx][r].actor
       case Owner(owner) => q.rows[r].owner == Some(owner)
       case Reconciler(now) => RanOut(q.rows[r], now)
       case _ => false
  }

  /** The event commits the failure of row `r`, whose last attempt ended in an error or ran out. */
  ghost predicate Fails(q: Queue, e: Event, r: Id) {
    && e.Commit? && e.tx in q.open && r in q.open[e.tx] && r in q.rows && q.rows[r].status in {Leased, Running}
    && q.open[e.tx][r].job.status == Failed && q.rows[r].attempts == q.rows[r].maxAttempts
    && match q.open[e.tx][r].actor
       case Owner(owner) => q.rows[r].owner == Some(owner)
       case Reaper(now) => RanOut(q.rows[r], now)
       case _ => false
  }

  lemma StepFinishes(q: Queue, e: Event, q': Queue, r: Id)
    requires Inv(q) && Step(q, e, q') && r in q'.rows && IsFinished(q'.rows[r])
    ensures r in q.rows
    ensures IsFinished(q.rows[r]) || (if q'.rows[r].status == Completed then Completes(q, e, r) else Fails(q, e, r))
  {
    if r in q.rows && q'.rows[r] != q.rows[r] {
      LeaseIsFenced(q, e, q', r);
      WriteOutcome(q.rows[r], q.open[e.tx][r]);
    }
  }

  /** In every run, a completed job was completed by the owner of its lease or by a reconciliation, and a job
      that failed had used up its attempts. */
  lemma {:induction false} FinishedHow(states: seq<Queue>, events: seq<Event>, k: nat, r: Id)
    requires IsRun(states, events) && k < |states| && r in states[k].rows && IsFinished(states[k].rows[r])
    ensures exists n: nat :: n < k && (if states[k].rows[r].status == Completed
                                       then Completes(states[n], events[n], r)
                                       else Fails(states[n], events[n], r))
    decreases k
  {
    RunKeepsInv(states, events, 0, k);
    if k > 0 {
      RunKeepsInv(states, events, 0, k - 1);
      assert StepsAt(states, events, k - 1);
      StepFinishes(states[k - 1], events[k - 1], states[k], r);
      if IsFinished(states[k - 1].rows[r]) {
        FinishedHow(states, events, k - 1, r);
        FinishedForever(states, events, k - 1, k, r);
      }
    }
  }
}
