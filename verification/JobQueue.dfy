/** The prospect-job queue: workers claim, run and recover jobs through row locks.

    A transaction locks the rows it selects, prepares what it will write, and ends by committing
    or by failing; `claim_next` and `get_stale_for_update` skip rows that are locked. */
module JobQueue {
  import opened Wrappers

  type Id = nat
  type Time = int

  // -------------------------------------------------------------------- the aggregate

  datatype JobStatus = Pending | Leased | Running | Completed | Failed | Cancelled

  datatype Job = Job(
    status: JobStatus, availableAt: Time, createdAt: Time, attempts: nat, maxAttempts: nat,
    owner: Option<string>, expiresAt: Option<Time>, recoveries: nat)

  datatype JobError = InvalidTransition | InvalidArgument

  predicate IsLeased(j: Job) {
    j.status.Leased? || j.status.Running?
  }

  function Created(now: Time, maxAttempts: nat): Result<Job, JobError> {
    if maxAttempts < 1 then Failure(InvalidArgument)
    else Success(Job(Pending, now, now, 0, maxAttempts, None, None, 0))
  }

  function Lease(j: Job, owner: string, ttl: Time, now: Time): Result<Job, JobError> {
    if !j.status.Pending? || j.availableAt > now then Failure(InvalidTransition)
    else if owner == "" || ttl <= 0 then Failure(InvalidArgument)
    else Success(j.(status := Leased, attempts := j.attempts + 1, owner := Some(owner),
                    expiresAt := Some(now + ttl)))
  }

  function Start(j: Job, owner: string): Result<Job, JobError> {
    if j.owner != Some(owner) || !j.status.Leased? then Failure(InvalidTransition)
    else Success(j.(status := Running))
  }

  function Heartbeat(j: Job, owner: string, ttl: Time, now: Time): Result<Job, JobError> {
    if j.owner != Some(owner) || !IsLeased(j) then Failure(InvalidTransition)
    else Success(j.(expiresAt := Some(now + ttl)))
  }

  function Ended(j: Job, status: JobStatus): Job {
    j.(status := status, owner := None, expiresAt := None)
  }

  function Complete(j: Job, owner: string): Result<Job, JobError> {
    if j.status.Completed? then Success(j)
    else if j.owner != Some(owner) || !IsLeased(j) then Failure(InvalidTransition)
    else Success(Ended(j, Completed))
  }

  function RetryAfterError(j: Job, owner: string, delay: Time, now: Time): Result<Job, JobError> {
    if j.owner != Some(owner) || !IsLeased(j) then Failure(InvalidTransition)
    else if j.attempts >= j.maxAttempts then Success(Ended(j, Failed))
    else Success(Ended(j, Pending).(availableAt := now + if delay > 0 then delay else 0))
  }

  predicate Expired(j: Job, now: Time) {
    j.expiresAt.Some? && j.expiresAt.value < now
  }

  function RecoverStale(j: Job, now: Time): Result<Job, JobError> {
    if !IsLeased(j) || !Expired(j, now) then Failure(InvalidTransition)
    else
      var status := if j.attempts >= j.maxAttempts then Failed else Pending;
      Success(Ended(j, status).(availableAt := now, recoveries := j.recoveries + 1))
  }

  function ReconcileCompleted(j: Job, now: Time): Result<Job, JobError> {
    if !IsLeased(j) || !Expired(j, now) then Failure(InvalidTransition)
    else Success(Ended(j, Completed).(recoveries := j.recoveries + 1))
  }

  // ---------------------------------------------------------------------- the queue

  /** Who prepared a write: a worker claiming, the worker that owns the lease, the recovery of a job whose
      worker is gone, or the recovery of one whose work turned out to be finished. */
  datatype Actor =
    | Claimer(owner: string) | Owner(owner: string) | Reaper(now: Time) | Reconciler(now: Time)

  datatype Write = Write(job: Job, actor: Actor)

  /** `open` holds, for every open transaction, the rows it has locked and what it will write. */
  datatype Queue = Queue(rows: map<Id, Job>, open: map<nat, map<Id, Write>>)

  predicate Locked(q: Queue, r: Id) {
    exists x :: x in q.open && r in q.open[x]
  }

  predicate Claimable(q: Queue, now: Time, r: Id) {
    r in q.rows && q.rows[r].status.Pending? && q.rows[r].availableAt <= now
  }

  predicate Recoverable(q: Queue, now: Time, r: Id) {
    r in q.rows && IsLeased(q.rows[r]) && Expired(q.rows[r], now)
  }

  predicate Before(a: Job, b: Job) {
    a.availableAt < b.availableAt || (a.availableAt == b.availableAt && a.createdAt <= b.createdAt)
  }

  /** The answer of `claim_next`: a due, unlocked, pending row that no other such row precedes,
      or nothing when there is no such row. */
  ghost predicate ClaimAnswer(q: Queue, now: Time, answer: Option<Id>) {
    match answer
    case None => forall r :: Claimable(q, now, r) ==> Locked(q, r)
    case Some(r) =>
      && Claimable(q, now, r) && !Locked(q, r)
      && forall p :: Claimable(q, now, p) && !Locked(q, p) ==> Before(q.rows[r], q.rows[p])
  }

  /** The answer of `get_stale_for_update`: the unlocked stale rows that expired first. */
  ghost predicate StaleAnswer(q: Queue, now: Time, limit: nat, answer: set<Id>) {
    && (forall r :: r in answer ==> Recoverable(q, now, r) && !Locked(q, r))
    && |answer| <= limit
    && forall p :: Recoverable(q, now, p) && !Locked(q, p) && p !in answer ==>
         && |answer| == limit
         && forall r :: r in answer ==> q.rows[r].expiresAt.value <= q.rows[p].expiresAt.value
  }

  /** What one transaction may do to one row it has locked. */
  ghost predicate Prepares(j: Job, w: Write) {
    match w.actor
    case Claimer(owner) => exists ttl, now :: Lease(j, owner, ttl, now) == Success(w.job)
    case Owner(owner) =>
      || Start(j, owner) == Success(w.job)
      || (exists ttl, now :: Heartbeat(j, owner, ttl, now) == Success(w.job))
      || Complete(j, owner) == Success(w.job)
      || (exists delay, now :: RetryAfterError(j, owner, delay, now) == Success(w.job))
    case Reaper(now) => RecoverStale(j, now) == Success(w.job)
    case Reconciler(now) => ReconcileCompleted(j, now) == Success(w.job)
  }

  datatype Event =
    | Enqueue(row: Id, job: Job)
    | Claim(tx: nat, owner: string, ttl: Time, now: Time, answer: Id)
    | Recover(tx: nat, now: Time, limit: nat, writes: map<Id, Write>)
    | Act(tx: nat, row: Id, write: Write)
    | Commit(tx: nat)
    | Abort(tx: nat)

  /** The rows that transaction `x` has locked are replaced by what it prepared. */
  function Committed(q: Queue, x: nat): Queue
    requires x in q.open
  {
    Queue(map r | r in q.rows :: if r in q.open[x] then q.open[x][r].job else q.rows[r], q.open - {x})
  }

  ghost predicate Step(q: Queue, e: Event, q': Queue) {
    match e
    case Enqueue(r, j) =>
      && r !in q.rows && (exists now, limit :: Created(now, limit) == Success(j))
      && q' == q.(rows := q.rows[r := j])
    case Claim(x, owner, ttl, now, r) =>
      && x !in q.open && ClaimAnswer(q, now, Some(r)) && Lease(q.rows[r], owner, ttl, now).Success?
      && q' == q.(open := q.open[x := map[r := Write(Lease(q.rows[r], owner, ttl, now).value, Claimer(owner))]])
    case Recover(x, now, limit, writes) =>
      && x !in q.open && StaleAnswer(q, now, limit, writes.Keys)
      && (forall r :: r in writes ==>
            writes[r].actor in {Reaper(now), Reconciler(now)} && Prepares(q.rows[r], writes[r]))
      && q' == q.(open := q.open[x := writes])
    case Act(x, r, w) =>
      && x !in q.open && r in q.rows && !Locked(q, r)
      && w.actor.Owner? && Prepares(q.rows[r], w)
      && q' == q.(open := q.open[x := map[r := w]])
    case Commit(x) =>
      && x in q.open
      && q' == Committed(q, x)
    case Abort(x) =>
      x in q.open && q' == q.(open := q.open - {x})
  }

  // -------------------------------------------------------------------- the invariant

  /** A waiting job has attempts left and no lease; a leased one has an owner and an expiry. */
  ghost predicate JobOk(j: Job) {
    && j.attempts <= j.maxAttempts && 1 <= j.maxAttempts
    && (j.status.Pending? ==> j.attempts < j.maxAttempts)
    && (if IsLeased(j) then j.owner.Some? && j.expiresAt.Some? && j.attempts >= 1
        else j.owner.None? && j.expiresAt.None?)
  }

  /** A row is locked by one transaction only, and what that transaction will write was prepared
      from the row as it is stored now. */
  ghost predicate Inv(q: Queue) {
    && (forall r :: r in q.rows ==> JobOk(q.rows[r]))
    && (forall x, r :: x in q.open && r in q.open[x] ==> r in q.rows && Prepares(q.rows[r], q.open[x][r]))
    && (forall x, y, r :: x in q.open && y in q.open && r in q.open[x] && r in q.open[y] ==> x == y)
  }

  lemma PreparedIsOk(j: Job, w: Write)
    requires JobOk(j) && Prepares(j, w)
    ensures JobOk(w.job) && w.job.maxAttempts == j.maxAttempts
    ensures w.job.attempts == j.attempts + if j.status.Pending? && w.job.status.Leased? then 1 else 0
  {
  }

  lemma OpenKeepsInv(q: Queue, x: nat, writes: map<Id, Write>)
    requires Inv(q) && x !in q.open
    requires forall r :: r in writes ==> r in q.rows && !Locked(q, r) && Prepares(q.rows[r], writes[r])
    ensures Inv(q.(open := q.open[x := writes]))
  {
    var q' := q.(open := q.open[x := writes]);
    forall y, z, r | y in q'.open && z in q'.open && r in q'.open[y] && r in q'.open[z] ensures y == z {
      if y == x || z == x {
        assert !Locked(q, r);
      }
    }
  }

  lemma CommittedRowsAreOk(q: Queue, x: nat)
    requires Inv(q) && x in q.open
    ensures forall r :: r in Committed(q, x).rows ==> JobOk(Committed(q, x).rows[r])
  {
    forall r | r in q.rows ensures JobOk(Committed(q, x).rows[r]) {
      if r in q.open[x] {
        PreparedIsOk(q.rows[r], q.open[x][r]);
      }
    }
  }

  lemma CommitKeepsInv(q: Queue, x: nat)
    requires Inv(q) && x in q.open
    ensures Inv(Committed(q, x))
  {
    var q' := Committed(q, x);
    CommittedRowsAreOk(q, x);
    forall y, r | y in q'.open && r in q'.open[y]
      ensures r in q'.rows && Prepares(q'.rows[r], q'.open[y][r])
    {
      OtherRowsStay(q, x, y, r);
    }
  }

  /** A row that another transaction has locked is not among those a commit replaces. */
  lemma OtherRowsStay(q: Queue, x: nat, y: nat, r: Id)
    requires Inv(q) && x in q.open && y in q.open && x != y && r in q.open[y]
    ensures r in q.rows && Committed(q, x).rows[r] == q.rows[r] && Prepares(q.rows[r], q.open[y][r])
  {
    assert r !in q.open[x];
  }

  /** Every step of every worker keeps the invariant. */
  lemma StepKeepsInv(q: Queue, e: Event, q': Queue)
    requires Inv(q) && Step(q, e, q')
    ensures Inv(q')
  {
    match e {
      case Enqueue(r, j) => EnqueueKeepsInv(q, r, j);
      case Claim(x, owner, ttl, now, r) =>
        ClaimPrepares(q.rows[r], owner, ttl, now);
        OpenKeepsInv(q, x, map[r := Write(Lease(q.rows[r], owner, ttl, now).value, Claimer(owner))]);
      case Recover(x, now, limit, writes) => OpenKeepsInv(q, x, writes);
      case Act(x, r, w) => OpenKeepsInv(q, x, map[r := w]);
      case Commit(x) => CommitKeepsInv(q, x);
      case Abort(x) => AbortKeepsInv(q, x);
    }
  }

  lemma EnqueueKeepsInv(q: Queue, r: Id, j: Job)
    requires Inv(q) && r !in q.rows && exists now, limit :: Created(now, limit) == Success(j)
    ensures Inv(q.(rows := q.rows[r := j]))
  {
  }

  lemma ClaimPrepares(j: Job, owner: string, ttl: Time, now: Time)
    requires Lease(j, owner, ttl, now).Success?
    ensures Prepares(j, Write(Lease(j, owner, ttl, now).value, Claimer(owner)))
  {
  }

  lemma AbortKeepsInv(q: Queue, x: nat)
    requires Inv(q)
    ensures Inv(q.(open := q.open - {x}))
  {
  }

  /** No row is held by two open transactions, and the claims among them are for rows that wait. */
  lemma ClaimsAreExclusive(q: Queue, x: nat, y: nat, r: Id)
    requires Inv(q) && x in q.open && y in q.open && r in q.open[x] && r in q.open[y]
    ensures x == y
    ensures q.open[x][r].actor.Claimer? ==> q.rows[r].status.Pending?
  {
  }

  /** A row is never both claimable and recoverable, whatever the two clocks say. */
  lemma ClaimableIsNotRecoverable(q: Queue, now: Time, later: Time, r: Id)
    requires Inv(q)
    ensures !(Claimable(q, now, r) && Recoverable(q, later, r))
    ensures Claimable(q, now, r) ==> q.rows[r].owner.None? && q.rows[r].attempts < q.rows[r].maxAttempts
  {
  }

  // ----------------------------------------------------------------- the claim order

  lemma FirstOf(rows: map<Id, Job>, candidates: set<Id>) returns (r: Id)
    requires candidates != {} && candidates <= rows.Keys
    ensures r in candidates && forall p :: p in candidates ==> Before(rows[r], rows[p])
    decreases |candidates|
  {
    var some :| some in candidates;
    var rest := candidates - {some};
    assert forall c | c in candidates :: c == some || c in rest;
    if rest == {} {
      r := some;
    } else {
      var p := FirstOf(rows, rest);
      r := if Before(rows[some], rows[p]) then some else p;
      forall c | c in candidates ensures Before(rows[r], rows[c]) {
        if c != some {
          assert Before(rows[p], rows[c]);
        }
      }
    }
  }

  /** A row `claim_next` may hand out: it waits, its time has come and no transaction holds it. */
  ghost predicate IsDue(q: Queue, now: Time, r: Id) {
    && r in q.rows && q.rows[r].status == Pending && q.rows[r].availableAt <= now
    && forall x | x in q.open :: r !in q.open[x]
  }

  /** What `claim_next` hands out is due and has waited longest; among those that became available at the
      same time it is the oldest. It hands out nothing only when nothing is due. */
  lemma ClaimIsForTheOldest(q: Queue, now: Time, answer: Option<Id>)
    requires ClaimAnswer(q, now, answer)
    ensures answer.Some? <==> exists r :: IsDue(q, now, r)
    ensures answer.Some? ==> IsDue(q, now, answer.value)
    ensures answer.Some? ==> forall p :: IsDue(q, now, p) ==>
              && q.rows[answer.value].availableAt <= q.rows[p].availableAt
              && (q.rows[answer.value].availableAt == q.rows[p].availableAt ==>
                    q.rows[answer.value].createdAt <= q.rows[p].createdAt)
  {
    assert forall r :: IsDue(q, now, r) <==> Claimable(q, now, r) && !Locked(q, r);
  }

  /** There always is such an answer. */
  lemma ClaimAlwaysAnswers(q: Queue, now: Time) returns (answer: Option<Id>)
    ensures ClaimAnswer(q, now, answer)
    ensures answer.Some? <==> exists r :: IsDue(q, now, r)
  {
    var candidates := set r | r in q.rows && Claimable(q, now, r) && !Locked(q, r);
    assert forall r :: IsDue(q, now, r) <==> Claimable(q, now, r) && !Locked(q, r);
    if candidates == {} {
      assert forall r :: Claimable(q, now, r) && !Locked(q, r) ==> r in candidates;
      answer := None;
    } else {
      var r := FirstOf(q.rows, candidates);
      assert forall p :: Claimable(q, now, p) && !Locked(q, p) ==> p in candidates;
      answer := Some(r);
    }
  }

  // -------------------------------------------------------------- which leases are recovered

  /** A row the recovery may take: its lease has run out and no transaction holds it. */
  ghost predicate IsStale(q: Queue, now: Time, r: Id) {
    && r in q.rows && q.rows[r].status in {Leased, Running}
    && q.rows[r].expiresAt.Some? && q.rows[r].expiresAt.value < now
    && forall x | x in q.open :: r !in q.open[x]
  }

  /** The recovery takes stale rows, and as many as it may; those it leaves ran out no earlier. */
  lemma RecoveryIsForTheStalest(q: Queue, now: Time, limit: nat, answer: set<Id>)
    requires StaleAnswer(q, now, limit, answer)
    ensures |answer| <= limit && forall r :: r in answer ==> IsStale(q, now, r)
    ensures forall p :: IsStale(q, now, p) && p !in answer ==>
              && |answer| == limit
              && forall r :: r in answer ==> q.rows[r].expiresAt.value <= q.rows[p].expiresAt.value
  {
    assert forall r :: IsStale(q, now, r) <==> Recoverable(q, now, r) && !Locked(q, r);
  }

  lemma StalestOf(times: map<Id, Time>, limit: nat) returns (answer: set<Id>)
    ensures answer <= times.Keys && |answer| <= limit
    ensures forall p :: p in times && p !in answer ==>
              |answer| == limit && forall r :: r in answer ==> times[r] <= times[p]
    decreases limit
  {
    if limit == 0 || times == map[] {
      answer := {};
    } else {
      var first := EarliestOf(times, times.Keys);
      var rest := StalestOf(times - {first}, limit - 1);
      answer := rest + {first};
    }
  }

  lemma EarliestOf(times: map<Id, Time>, ids: set<Id>) returns (first: Id)
    requires ids != {} && ids <= times.Keys
    ensures first in ids && forall p :: p in ids ==> times[first] <= times[p]
    decreases |ids|
  {
    first :| first in ids;
    if ids != {first} {
      var next := EarliestOf(times, ids - {first});
      first := if times[first] <= times[next] then first else next;
    }
  }

  /** There always is such an answer. */
  lemma RecoveryAlwaysAnswers(q: Queue, now: Time, limit: nat) returns (answer: set<Id>)
    ensures StaleAnswer(q, now, limit, answer)
  {
    var times := map r | r in q.rows && Recoverable(q, now, r) && !Locked(q, r) :: q.rows[r].expiresAt.value;
    answer := StalestOf(times, limit);
    assert forall p :: Recoverable(q, now, p) && !Locked(q, p) ==> p in times;
  }

  // ------------------------------------------------------------------- leases are exclusive

  /** A job's stored row only changes by a commit: of a claim when it waits, of its lease's owner,
      or of a recovery once its lease has expired. Nobody else can finish or take a leased job. */
  lemma LeaseIsFenced(q: Queue, e: Event, q': Queue, r: Id)
    requires Inv(q) && Step(q, e, q') && r in q.rows && q'.rows[r] != q.rows[r]
    ensures e.Commit? && e.tx in q.open && r in q.open[e.tx]
    ensures var w := q.open[e.tx][r];
            && q'.rows[r] == w.job
            && match w.actor
               case Claimer(owner) => q.rows[r].status.Pending? && w.job.owner == Some(owner)
               case Owner(owner) => q.rows[r].owner == Some(owner)
               case Reaper(now) => IsLeased(q.rows[r]) && Expired(q.rows[r], now)
               case Reconciler(now) => IsLeased(q.rows[r]) && Expired(q.rows[r], now)
  {
  }

  // --------------------------------------------------------------------- whole runs

  ghost predicate StepsAt(states: seq<Queue>, events: seq<Event>, k: nat)
    requires k < |events| && |states| == |events| + 1
  {
    Step(states[k], events[k], states[k + 1])
  }

  ghost predicate IsRun(states: seq<Queue>, events: seq<Event>) {
    && |states| == |events| + 1 && states[0] == Queue(map[], map[])
    && forall k: nat {:trigger StepsAt(states, events, k)} | k < |events| :: StepsAt(states, events, k)
  }

  /** How often the job was leased in the first `k` steps. */
  ghost function Leases(states: seq<Queue>, r: Id, k: nat): nat
    requires k < |states|
  {
    if k == 0 then 0
    else
      Leases(states, r, k - 1)
      + if && r in states[k - 1].rows && states[k - 1].rows[r].status.Pending?
           && r in states[k].rows && states[k].rows[r].status.Leased? then 1 else 0
  }

  /** In every run a job is leased exactly as often as its row says, and so never more often than
      it may be attempted. */
  lemma {:induction false} LeasesAreBounded(states: seq<Queue>, events: seq<Event>, k: nat, r: Id)
    requires IsRun(states, events) && k < |states|
    ensures Inv(states[k])
    ensures r in states[k].rows ==>
              Leases(states, r, k) == states[k].rows[r].attempts <= states[k].rows[r].maxAttempts
    ensures r !in states[k].rows ==> Leases(states, r, k) == 0
    decreases k
  {
    if k > 0 {
      LeasesAreBounded(states, events, k - 1, r);
      assert StepsAt(states, events, k - 1);
      var q, e, q' := states[k - 1], events[k - 1], states[k];
      StepKeepsInv(q, e, q');
      if e.Commit? && r in q.rows && r in q.open[e.tx] {
        PreparedIsOk(q.rows[r], q.open[e.tx][r]);
      }
    }
  }
}
