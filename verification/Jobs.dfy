/** Leased jobs with attempt fencing and fenced publication
  (packages/persistence/ratereplay_persistence/jobs.py and artifacts.py).

  Every transaction is one step over the tables. A job captures the generation and lifecycle of each
  scope it works for: its account, its import, its profile. */
module Jobs {
  import opened Results

  type JobId = nat
  type Worker = nat
  type User = nat
  type Hash = nat
  type ScopeId = nat

  const LEASE_DURATION := 20_000_000

  datatype Kind = Import | Replay | Comparison | ScenarioJob | Report | Retention | Deletion

  datatype Lifecycle = Active | DeletionPendingLedger | Deleting | Deleted

  datatype ScopeRow = ScopeRow(generation: nat, lifecycle: Lifecycle)

  datatype JobState = Queued | Leased | Running | Succeeded | Failed | Cancelled

  datatype Job = Job(
    state: JobState, user: Option<User>, kind: Kind, captured: map<ScopeId, ScopeRow>, requested: Option<Hash>,
    createdAt: int, attempts: nat, maxAttempts: nat, fence: nat, worker: Option<Worker>, expiresAt: Option<int>,
    notBefore: int, cancelRequested: bool, terminalHash: Option<Hash>, terminalResult: Option<nat>)

  datatype AttemptState =
    AttemptLeased | AttemptRunning | AttemptSucceeded | AttemptFailed | AttemptExpired | AttemptCancelled

  datatype Attempt = Attempt(worker: Worker, state: AttemptState)

  datatype AttemptKey = AttemptKey(job: JobId, fence: nat)

  datatype ClaimKey = ClaimKey(user: User, kind: Kind, hash: Hash)

  datatype Claim = Claim(result: nat, job: JobId)

  datatype State = State(
    jobs: map<JobId, Job>, attempts: map<AttemptKey, Attempt>, scopes: map<ScopeId, ScopeRow>,
    claims: map<ClaimKey, Claim>)

  /** What a worker holds: the job, the generation, and what the job was about. */
  datatype Lease = Lease(job: JobId, worker: Worker, fence: nat, kind: Kind, scopes: set<ScopeId>)

  datatype Finalized =
    | Accepted(result: nat, repeated: bool)
    | AlreadyTerminal
    | StaleAttempt
    | IdentityMismatch
    | AttemptMissing
    | ArtifactsInvalid

  datatype Event =
    | Enqueue(
        id: JobId, owner: Option<User>, kind: Kind, captured: map<ScopeId, ScopeRow>, requested: Option<Hash>,
        maxAttempts: nat, now: int)
    | Visit(id: JobId, worker: Worker, now: int)
    | Rescue(id: JobId, now: int)
    | Start(lease: Lease, now: int)
    | Heartbeat(lease: Lease, now: int)
    | Fail(lease: Lease, retryable: bool, delay: int, now: int)
    | Cancel(id: JobId, user: User)
    | CompleteSystem(lease: Lease, now: int)
    | Finalize(lease: Lease, user: User, hash: Hash, result: nat, artifactsValid: bool, now: int)
    | ChangeScope(scope: ScopeId, lifecycle: Lifecycle, bump: nat)

  // ----- conditions -----

  predicate Terminal(job: Job) {
    job.state in {Succeeded, Failed, Cancelled}
  }

  predicate Held(job: Job) {
    job.state in {Leased, Running}
  }

  predicate Open(attempt: Attempt) {
    attempt.state in {AttemptLeased, AttemptRunning}
  }

  /** Retention work belongs to nobody and captures nothing; any other job captures its scopes, and each
      is still as it was captured. */
  predicate ScopeValid(s: State, job: Job) {
    && (job.kind == Retention ==> job.user.None? && job.captured == map[])
    && (job.kind != Retention ==> job.user.Some? && job.captured != map[])
    && forall k :: k in job.captured ==> k in s.scopes && s.scopes[k] == job.captured[k]
  }

  predicate Eligible(job: Job, now: int) {
    job.state == Queued && job.notBefore <= now && !job.cancelRequested
  }

  predicate LeaseMatches(job: Job, lease: Lease) {
    && job.worker == Some(lease.worker) && job.fence == lease.fence
    && job.kind == lease.kind && job.captured.Keys == lease.scopes
  }

  /** The lease is the current one, has not expired, and every captured scope is unchanged. */
  predicate Live(s: State, lease: Lease, now: int) {
    && lease.job in s.jobs
    && var job := s.jobs[lease.job];
       LeaseMatches(job, lease) && job.expiresAt.Some? && now < job.expiresAt.value && ScopeValid(s, job)
  }

  /** The only leases that may be completed without a result. */
  predicate SystemLease(lease: Lease) {
    lease.kind == Retention && lease.scopes == {}
  }

  /** `current_fenced_job`: a live lease on a job that nobody asked to cancel. */
  predicate Fenced(s: State, lease: Lease, now: int) {
    Live(s, lease, now) && !s.jobs[lease.job].cancelRequested
  }

  // ----- updates -----

  function WithAttempt(attempts: map<AttemptKey, Attempt>, key: AttemptKey, state: AttemptState)
      : map<AttemptKey, Attempt>
  {
    if key in attempts then attempts[key := attempts[key].(state := state)] else attempts
  }

  function Released(job: Job, state: JobState): Job {
    job.(state := state, worker := None, expiresAt := None)
  }

  /** One job taken from the queue by `lease_next`. */
  function VisitJob(s: State, id: JobId, worker: Worker, now: int): (State, Option<Lease>) {
    if id !in s.jobs || !Eligible(s.jobs[id], now) then (s, None) else
    var job := s.jobs[id];
    if !ScopeValid(s, job) then (s.(jobs := s.jobs[id := Released(job, Cancelled)]), None)
    else if job.attempts >= job.maxAttempts then (s.(jobs := s.jobs[id := Released(job, Failed)]), None)
    else
      var fence := job.fence + 1;
      var leased := job.(attempts := job.attempts + 1, fence := fence, state := Leased, worker := Some(worker),
                         expiresAt := Some(now + LEASE_DURATION));
      var attempts := s.attempts[AttemptKey(id, fence) := Attempt(worker, AttemptLeased)];
      (s.(jobs := s.jobs[id := leased], attempts := attempts),
       Some(Lease(id, worker, fence, job.kind, job.captured.Keys)))
  }

  predicate Overdue(job: Job, now: int) {
    Held(job) && job.expiresAt.Some? && job.expiresAt.value <= now
  }

  /** One row of `rescue_expired`. */
  function RescueJob(s: State, id: JobId, now: int): State {
    if id !in s.jobs || !Overdue(s.jobs[id], now) then s else
    var job := s.jobs[id];
    var attempts := WithAttempt(s.attempts, AttemptKey(id, job.fence), AttemptExpired);
    var rescued :=
      if !ScopeValid(s, job) then Released(job, Cancelled)
      else if job.attempts >= job.maxAttempts then Released(job, Failed)
      else Released(job, Queued).(notBefore := now);
    s.(jobs := s.jobs[id := rescued], attempts := attempts)
  }

  function FailJob(s: State, lease: Lease, retryable: bool, delay: int, now: int): State {
    if lease.job !in s.jobs || !Held(s.jobs[lease.job]) || !LeaseMatches(s.jobs[lease.job], lease) then s else
    var job, key := s.jobs[lease.job], AttemptKey(lease.job, lease.fence);
    if !ScopeValid(s, job) then
      s.(jobs := s.jobs[lease.job := Released(job, Cancelled)],
        attempts := WithAttempt(s.attempts, key, AttemptCancelled))
    else
      var next := if retryable && job.attempts < job.maxAttempts then Released(job, Queued).(notBefore := now + delay)
        else Released(job, Failed);
      s.(jobs := s.jobs[lease.job := next], attempts := WithAttempt(s.attempts, key, AttemptFailed))
  }

  /** `_complete_job`: the attempt and the job succeed together, under a claim. */
  function CompleteJob(s: State, lease: Lease, key: ClaimKey): State
    requires lease.job in s.jobs && AttemptKey(lease.job, lease.fence) in s.attempts && key in s.claims
  {
    var result := s.claims[key].result;
    var job := s.jobs[lease.job].(state := Succeeded, terminalHash := Some(key.hash), terminalResult := Some(result));
    s.(jobs := s.jobs[lease.job := job],
       attempts := WithAttempt(s.attempts, AttemptKey(lease.job, lease.fence), AttemptSucceeded))
  }

  /** What `finalize` answers for a job that has already succeeded: its own result, from the claim. */
  function AnswerFromClaim(s: State, job: Job, user: User, hash: Hash): Finalized {
    var key := ClaimKey(user, job.kind, hash);
    if key in s.claims && job.terminalResult == Some(s.claims[key].result) then Accepted(s.claims[key].result, true)
    else AlreadyTerminal
  }

  /** `finalize`: a first result is claimed, a repeated calculation takes the result already claimed. */
  function FinalizeJob(s: State, lease: Lease, user: User, hash: Hash, result: nat, artifactsValid: bool, now: int)
      : (State, Finalized)
  {
    if lease.job in s.jobs && s.jobs[lease.job].state == Succeeded then
      (s, AnswerFromClaim(s, s.jobs[lease.job], user, hash))
    else if !Fenced(s, lease, now) || s.jobs[lease.job].state != Running || s.jobs[lease.job].user != Some(user) then
      (s, StaleAttempt)
    else
      var job := s.jobs[lease.job];
      var key := ClaimKey(user, job.kind, hash);
      if job.requested.Some? && job.requested.value != hash then (s, IdentityMismatch)
      else if key !in s.claims && !artifactsValid then (s, ArtifactsInvalid)
      else if AttemptKey(lease.job, lease.fence) !in s.attempts then (s, AttemptMissing)
      else if key in s.claims then (CompleteJob(s, lease, key), Accepted(s.claims[key].result, true))
      else (CompleteJob(s.(claims := s.claims[key := Claim(result, lease.job)]), lease, key), Accepted(result, false))
  }

  function Step(s: State, e: Event): State {
    match e
    case Enqueue(id, owner, kind, captured, requested, maxAttempts, now) =>
      if id in s.jobs then s else
      var job := Job(
        Queued, owner, kind, captured, requested, now, 0, maxAttempts, 0, None, None, now, false, None, None);
      s.(jobs := s.jobs[id := job])
    case Visit(id, worker, now) => VisitJob(s, id, worker, now).0
    case Rescue(id, now) => RescueJob(s, id, now)
    case Start(lease, now) =>
      if !Fenced(s, lease, now) || s.jobs[lease.job].state != Leased then s else
      s.(jobs := s.jobs[lease.job := s.jobs[lease.job].(state := Running)],
         attempts := WithAttempt(s.attempts, AttemptKey(lease.job, lease.fence), AttemptRunning))
    case Heartbeat(lease, now) =>
      if !Live(s, lease, now) || !Held(s.jobs[lease.job]) then s else
      s.(jobs := s.jobs[lease.job := s.jobs[lease.job].(expiresAt := Some(now + LEASE_DURATION))])
    case Fail(lease, retryable, delay, now) => FailJob(s, lease, retryable, delay, now)
    case Cancel(id, user) =>
      if id !in s.jobs || s.jobs[id].user != Some(user) || Terminal(s.jobs[id]) then s else
      s.(jobs := s.jobs[id := s.jobs[id].(cancelRequested := true, state := Cancelled)])
    case CompleteSystem(lease, now) =>
      if !SystemLease(lease) || !Fenced(s, lease, now) || s.jobs[lease.job].state != Running
         || AttemptKey(lease.job, lease.fence) !in s.attempts then s else
      s.(jobs := s.jobs[lease.job := Released(s.jobs[lease.job], Succeeded)],
         attempts := WithAttempt(s.attempts, AttemptKey(lease.job, lease.fence), AttemptSucceeded))
    case Finalize(lease, user, hash, result, artifactsValid, now) =>
      FinalizeJob(s, lease, user, hash, result, artifactsValid, now).0
    case ChangeScope(scope, lifecycle, bump) =>
      var generation := if scope in s.scopes then s.scopes[scope].generation else 0;
      s.(scopes := s.scopes[scope := ScopeRow(generation + bump, lifecycle)])
  }

  function Run(s: State, h: seq<Event>): State {
    if h == [] then s else Step(Run(s, h[..|h| - 1]), h[|h| - 1])
  }

  const EMPTY := State(map[], map[], map[], map[])

  // ----- what every step keeps -----

  /** The current attempt of a job is open exactly while the job is held, or was cancelled by its owner
      while it was held. */
  predicate CurrentOpen(job: Job) {
    Held(job) || (job.state == Cancelled && job.cancelRequested && job.worker.Some?)
  }

  ghost predicate JobValid(s: State, id: JobId)
    requires id in s.jobs
  {
    var job := s.jobs[id];
    && job.fence == job.attempts <= job.maxAttempts
    && (forall f: nat :: AttemptKey(id, f) in s.attempts <==> 1 <= f <= job.fence)
    && (forall f: nat :: 1 <= f <= job.fence ==>
      (Open(s.attempts[AttemptKey(id, f)]) <==> f == job.fence && CurrentOpen(job)))
    && (CurrentOpen(job) ==> job.fence >= 1 && job.worker == Some(s.attempts[AttemptKey(id, job.fence)].worker))
    && (Held(job) ==> job.expiresAt.Some? && !job.cancelRequested)
    && (job.state == Queued ==> job.worker.None? && !job.cancelRequested)
    && (job.terminalResult.Some? ==>
          && job.state == Succeeded && job.terminalHash.Some? && job.user.Some?
          && ClaimKey(job.user.value, job.kind, job.terminalHash.value) in s.claims
          && s.claims[ClaimKey(job.user.value, job.kind, job.terminalHash.value)].result == job.terminalResult.value)
  }

  ghost predicate Valid(s: State) {
    && (forall id :: id in s.jobs ==> JobValid(s, id))
    && (forall key :: key in s.attempts ==> key.job in s.jobs)
  }

  /** The job that a step may change. */
  function Target(e: Event): Option<JobId> {
    match e
    case Enqueue(id, _, _, _, _, _, _) => Some(id)
    case Visit(id, _, _) => Some(id)
    case Rescue(id, _) => Some(id)
    case Start(lease, _) => Some(lease.job)
    case Heartbeat(lease, _) => Some(lease.job)
    case Fail(lease, _, _, _) => Some(lease.job)
    case Cancel(id, _) => Some(id)
    case CompleteSystem(lease, _) => Some(lease.job)
    case Finalize(lease, _, _, _, _, _) => Some(lease.job)
    case ChangeScope(_, _, _) => None
  }

  /** A step touches the rows of one job only; rows, attempts and claims never disappear, and a claim is
      written once. */
  ghost predicate Touches(s: State, t: State, target: Option<JobId>) {
    && (forall id :: id in s.jobs ==> id in t.jobs)
    && (forall id :: id in t.jobs && Some(id) != target ==> id in s.jobs && t.jobs[id] == s.jobs[id])
    && (forall key :: key in s.attempts ==> key in t.attempts)
    && (forall key :: key in t.attempts && Some(key.job) != target ==>
      key in s.attempts && t.attempts[key] == s.attempts[key])
    && (forall key :: key in t.attempts && key !in s.attempts ==> key.job in t.jobs)
    && (forall key :: key in s.claims ==> key in t.claims && t.claims[key] == s.claims[key])
  }

  lemma {:induction false} NothingTouched(s: State, target: Option<JobId>)
    ensures Touches(s, s, target)
  {
  }

  lemma {:induction false} RowTouches(s: State, id: JobId, job: Job)
    ensures Touches(s, s.(jobs := s.jobs[id := job]), Some(id))
  {
  }

  lemma {:induction false} RowsTouch(s: State, id: JobId, job: Job, fence: nat, state: AttemptState)
    ensures Touches(
              s, s.(jobs := s.jobs[id := job], attempts := WithAttempt(s.attempts, AttemptKey(id, fence), state)),
                Some(id))
  {
  }

  lemma {:induction false} VisitTouches(s: State, id: JobId, worker: Worker, now: int)
    ensures Touches(s, VisitJob(s, id, worker, now).0, Some(id))
  {
    hide ScopeValid;
  }

  lemma {:induction false} RescueTouches(s: State, id: JobId, now: int)
    ensures Touches(s, RescueJob(s, id, now), Some(id))
  {
    hide ScopeValid;
  }

  lemma {:induction false} FailTouches(s: State, lease: Lease, retryable: bool, delay: int, now: int)
    ensures Touches(s, FailJob(s, lease, retryable, delay, now), Some(lease.job))
  {
    hide ScopeValid;
  }

  lemma {:induction false} FinalizeTouches(s: State, lease: Lease, user: User, hash: Hash, result: nat,
      artifactsValid: bool, now: int)
    ensures Touches(s, FinalizeJob(s, lease, user, hash, result, artifactsValid, now).0, Some(lease.job))
  {
    hide Fenced;
  }

  lemma {:induction false} HolderTouches(s: State, e: Event)
    requires e.Start? || e.Heartbeat? || e.CompleteSystem?
    ensures Touches(s, Step(s, e), Some(e.lease.job))
  {
    hide ScopeValid, Touches, WithAttempt, VisitJob, RescueJob, FailJob, FinalizeJob;
    var id := e.lease.job;
    NothingTouched(s, Some(id));
    if id in s.jobs {
      RowsTouch(s, id, s.jobs[id].(state := Running), e.lease.fence, AttemptRunning);
      RowTouches(s, id, s.jobs[id].(expiresAt := Some(e.now + LEASE_DURATION)));
      RowsTouch(s, id, Released(s.jobs[id], Succeeded), e.lease.fence, AttemptSucceeded);
    }
  }

  lemma {:induction false} StepTouches(s: State, e: Event)
    ensures Touches(s, Step(s, e), Target(e))
  {
    hide VisitJob, FinalizeJob, RescueJob, FailJob, Touches;
    NothingTouched(s, Target(e));
    match e {
      case Enqueue(id, owner, kind, captured, requested, maxAttempts, now) =>
        if id !in s.jobs {
          RowTouches(s, id, Step(s, e).jobs[id]);
        }
      case Visit(id, worker, now) => VisitTouches(s, id, worker, now);
      case Rescue(id, now) => RescueTouches(s, id, now);
      case Fail(lease, retryable, delay, now) => FailTouches(s, lease, retryable, delay, now);
      case Cancel(id, user) =>
        if id in s.jobs {
          RowTouches(s, id, s.jobs[id].(cancelRequested := true, state := Cancelled));
        }
      case Finalize(lease, user, hash, result, artifactsValid, now) =>
        FinalizeTouches(s, lease, user, hash, result, artifactsValid, now);
      case ChangeScope(_, _, _) => ScopesTouch(s, e);
      case _ => HolderTouches(s, e);
    }
  }

  lemma {:induction false} ScopesTouch(s: State, e: Event)
    requires e.ChangeScope?
    ensures Touches(s, Step(s, e), None)
  {
  }

  lemma {:induction false} TouchedElsewhere(s: State, t: State, target: Option<JobId>, id: JobId)
    requires Touches(s, t, target) && Some(id) != target && id in s.jobs && JobValid(s, id)
    ensures id in t.jobs && JobValid(t, id)
  {
  }

  lemma {:induction false} DismissalKeeps(s: State, id: JobId, state: JobState)
    requires id in s.jobs && JobValid(s, id) && s.jobs[id].state == Queued && state in {Cancelled, Failed}
    ensures JobValid(s.(jobs := s.jobs[id := Released(s.jobs[id], state)]), id)
  {
  }

  lemma {:induction false} GrantKeeps(s: State, id: JobId, worker: Worker, now: int)
    requires id in s.jobs && JobValid(s, id) && VisitJob(s, id, worker, now).1.Some?
    ensures JobValid(VisitJob(s, id, worker, now).0, id)
  {
    hide ScopeValid;
  }

  lemma {:induction false} VisitKeeps(s: State, id: JobId, worker: Worker, now: int)
    requires id in s.jobs && JobValid(s, id)
    ensures JobValid(VisitJob(s, id, worker, now).0, id)
  {
    hide ScopeValid, JobValid;
    if VisitJob(s, id, worker, now).1.Some? {
      GrantKeeps(s, id, worker, now);
    } else if s.jobs[id].state == Queued {
      DismissalKeeps(s, id, Cancelled);
      DismissalKeeps(s, id, Failed);
    }
  }

  lemma {:induction false} RescueKeeps(s: State, id: JobId, now: int)
    requires id in s.jobs && JobValid(s, id)
    ensures JobValid(RescueJob(s, id, now), id)
  {
    hide ScopeValid;
  }

  lemma {:induction false} FailKeeps(s: State, lease: Lease, retryable: bool, delay: int, now: int)
    requires lease.job in s.jobs && JobValid(s, lease.job)
    ensures JobValid(FailJob(s, lease, retryable, delay, now), lease.job)
  {
    hide ScopeValid;
  }

  lemma {:induction false} CompleteKeeps(s: State, lease: Lease, key: ClaimKey)
    requires lease.job in s.jobs && JobValid(s, lease.job) && LeaseMatches(s.jobs[lease.job], lease)
      && s.jobs[lease.job].state == Running
    requires AttemptKey(lease.job, lease.fence) in s.attempts && key in s.claims
    requires Some(key.user) == s.jobs[lease.job].user && key.kind == s.jobs[lease.job].kind
    ensures JobValid(CompleteJob(s, lease, key), lease.job)
  {
  }

  lemma {:induction false} ClaimKeeps(s: State, id: JobId, key: ClaimKey, claim: Claim)
    requires id in s.jobs && JobValid(s, id) && key !in s.claims
    ensures JobValid(s.(claims := s.claims[key := claim]), id)
  {
  }

  lemma {:induction false} FinalizeKeeps(s: State, lease: Lease, user: User, hash: Hash, result: nat,
      artifactsValid: bool, now: int)
    requires lease.job in s.jobs && JobValid(s, lease.job)
    ensures JobValid(FinalizeJob(s, lease, user, hash, result, artifactsValid, now).0, lease.job)
  {
    hide ScopeValid, JobValid, CompleteJob;
    var job := s.jobs[lease.job];
    var key := ClaimKey(user, job.kind, hash);
    if Fenced(s, lease, now) && job.state == Running && job.user == Some(user)
      && AttemptKey(lease.job, lease.fence) in s.attempts {
      if key in s.claims {
        CompleteKeeps(s, lease, key);
      } else {
        ClaimKeeps(s, lease.job, key, Claim(result, lease.job));
        CompleteKeeps(s.(claims := s.claims[key := Claim(result, lease.job)]), lease, key);
      }
    }
  }

  lemma {:induction false} HolderKeeps(s: State, e: Event)
    requires (e.Start? || e.Heartbeat? || e.CompleteSystem?) && e.lease.job in s.jobs && JobValid(s, e.lease.job)
    ensures e.lease.job in Step(s, e).jobs && JobValid(Step(s, e), e.lease.job)
  {
    hide ScopeValid, VisitJob, RescueJob, FailJob, FinalizeJob;
  }

  lemma {:induction false} CancelKeeps(s: State, id: JobId, user: User)
    requires id in s.jobs && JobValid(s, id)
    ensures id in Step(s, Cancel(id, user)).jobs && JobValid(Step(s, Cancel(id, user)), id)
  {
  }

  lemma {:induction false} StepKeepsTarget(s: State, e: Event, id: JobId)
    requires Target(e) == Some(id) && id in s.jobs && JobValid(s, id)
    ensures id in Step(s, e).jobs && JobValid(Step(s, e), id)
  {
    hide ScopeValid, JobValid, VisitJob, RescueJob, FailJob, FinalizeJob;
    StepTouches(s, e);
    match e {
      case Enqueue(_, _, _, _, _, _, _) =>
      case Visit(_, worker, now) => VisitKeeps(s, id, worker, now);
      case Rescue(_, now) => RescueKeeps(s, id, now);
      case Fail(lease, retryable, delay, now) => FailKeeps(s, lease, retryable, delay, now);
      case Cancel(_, user) => CancelKeeps(s, id, user);
      case Finalize(lease, user, hash, result, artifactsValid, now) =>
        FinalizeKeeps(s, lease, user, hash, result, artifactsValid, now);
      case _ => HolderKeeps(s, e);
    }
  }

  lemma {:induction false} StepKeepsNew(s: State, e: Event, id: JobId)
    requires Valid(s) && id !in s.jobs && id in Step(s, e).jobs
    ensures e.Enqueue? && e.id == id && JobValid(Step(s, e), id)
  {
    hide VisitJob, RescueJob, FailJob, FinalizeJob, ScopeValid, JobValid;
    StepTouches(s, e);
    if e.Enqueue? {
      EnqueuedIsValid(s, e);
    } else {
      NothingNew(s, e);
    }
  }

  lemma {:induction false} NothingNew(s: State, e: Event)
    requires !e.Enqueue?
    ensures Step(s, e).jobs.Keys == s.jobs.Keys
  {
    hide ScopeValid;
  }

  lemma {:induction false} EnqueuedIsValid(s: State, e: Event)
    requires e.Enqueue? && e.id !in s.jobs && forall key :: key in s.attempts ==> key.job in s.jobs
    ensures JobValid(Step(s, e), e.id)
  {
    var id := e.id;
    assert forall f: nat :: AttemptKey(id, f).job == id && AttemptKey(id, f) !in s.attempts;
  }

  lemma {:induction false} StepKeepsValid(s: State, e: Event)
    requires Valid(s)
    ensures Valid(Step(s, e))
  {
    hide Step, JobValid;
    StepTouches(s, e);
    var t := Step(s, e);
    forall id | id in t.jobs
      ensures JobValid(t, id)
    {
      if id !in s.jobs {
        StepKeepsNew(s, e, id);
      } else if Target(e) == Some(id) {
        StepKeepsTarget(s, e, id);
      } else {
        TouchedElsewhere(s, t, Target(e), id);
      }
    }
    forall key | key in t.attempts
      ensures key.job in t.jobs
    {
    }
  }

  /** Every reachable state is valid: the fencing generation counts the attempts and stays within the
      budget, every attempt has its record, and only the current one can be open. */
  lemma {:induction false} RunIsValid(h: seq<Event>)
    ensures Valid(Run(EMPTY, h))
  {
    hide Step, JobValid;
    if h != [] {
      RunIsValid(h[..|h| - 1]);
      StepKeepsValid(Run(EMPTY, h[..|h| - 1]), h[|h| - 1]);
    }
  }

  // ----- terminal jobs, fences and publication over whole runs -----

  lemma {:induction false} TerminalStays(s: State, e: Event, id: JobId)
    requires id in s.jobs && Terminal(s.jobs[id])
    ensures id in Step(s, e).jobs && Step(s, e).jobs[id] == s.jobs[id]
  {
    hide ScopeValid;
  }

  /** A terminal job never changes again, whatever happens. */
  lemma {:induction false} TerminalIsAbsorbing(s: State, h: seq<Event>, id: JobId)
    requires id in s.jobs && Terminal(s.jobs[id])
    ensures id in Run(s, h).jobs && Run(s, h).jobs[id] == s.jobs[id]
  {
    hide Step;
    if h != [] {
      TerminalIsAbsorbing(s, h[..|h| - 1], id);
      TerminalStays(Run(s, h[..|h| - 1]), h[|h| - 1], id);
    }
  }

  /** What a step can do to a job: its identity and captured scopes are fixed, and its fencing
      generation never decreases. */
  ghost predicate Evolves(before: Job, after: Job) {
    && after.captured == before.captured && after.user == before.user && after.kind == before.kind
    && after.maxAttempts == before.maxAttempts && after.createdAt == before.createdAt
    && after.fence >= before.fence
  }

  lemma {:induction false} VisitEvolves(s: State, id: JobId, worker: Worker, now: int)
    requires id in s.jobs
    ensures id in VisitJob(s, id, worker, now).0.jobs && Evolves(s.jobs[id], VisitJob(s, id, worker, now).0.jobs[id])
  {
    hide ScopeValid;
  }

  lemma {:induction false} RescueEvolves(s: State, id: JobId, now: int)
    requires id in s.jobs
    ensures id in RescueJob(s, id, now).jobs && Evolves(s.jobs[id], RescueJob(s, id, now).jobs[id])
  {
    hide ScopeValid, WithAttempt;
  }

  lemma {:induction false} FailEvolves(s: State, lease: Lease, retryable: bool, delay: int, now: int)
    requires lease.job in s.jobs
    ensures var t := FailJob(s, lease, retryable, delay, now);
            lease.job in t.jobs && Evolves(s.jobs[lease.job], t.jobs[lease.job])
  {
    hide ScopeValid, WithAttempt;
  }

  lemma {:induction false} FinalizeEvolves(s: State, lease: Lease, user: User, hash: Hash, result: nat,
      artifactsValid: bool, now: int)
    requires lease.job in s.jobs
    ensures var t := FinalizeJob(s, lease, user, hash, result, artifactsValid, now).0;
            lease.job in t.jobs && Evolves(s.jobs[lease.job], t.jobs[lease.job])
  {
    hide Fenced;
  }

  lemma {:induction false} StepEvolves(s: State, e: Event, id: JobId)
    requires id in s.jobs
    ensures id in Step(s, e).jobs && Evolves(s.jobs[id], Step(s, e).jobs[id])
  {
    hide ScopeValid, VisitJob, RescueJob, FailJob, FinalizeJob, WithAttempt;
    StepTouches(s, e);
    if Target(e) == Some(id) {
      match e {
        case Visit(_, worker, now) => VisitEvolves(s, id, worker, now);
        case Rescue(_, now) => RescueEvolves(s, id, now);
        case Fail(lease, retryable, delay, now) => FailEvolves(s, lease, retryable, delay, now);
        case Finalize(lease, user, hash, result, artifactsValid, now) =>
          FinalizeEvolves(s, lease, user, hash, result, artifactsValid, now);
        case _ =>
      }
    }
  }

  lemma {:induction false} RunEvolves(s: State, h: seq<Event>, id: JobId)
    requires id in s.jobs
    ensures id in Run(s, h).jobs && Evolves(s.jobs[id], Run(s, h).jobs[id])
  {
    hide Step;
    if h != [] {
      RunEvolves(s, h[..|h| - 1], id);
      StepEvolves(Run(s, h[..|h| - 1]), h[|h| - 1], id);
    }
  }

  /** A lease is granted only with a new generation, and the job then belongs to that lease. */
  lemma {:induction false} GrantIsNew(s: State, id: JobId, worker: Worker, now: int)
    requires VisitJob(s, id, worker, now).1.Some?
    ensures var (t, lease) := VisitJob(s, id, worker, now);
            && id in s.jobs && lease.value ==
              Lease(id, worker, s.jobs[id].fence + 1, s.jobs[id].kind, s.jobs[id].captured.Keys)
            && Live(t, lease.value, now) && t.jobs[id].state == Leased
  {
  }

  ghost predicate Uses(e: Event, lease: Lease) {
    (e.Start? || e.Heartbeat? || e.Fail? || e.CompleteSystem? || e.Finalize?) && e.lease == lease
  }

  lemma {:induction false} StaleLeaseIsInert(s: State, e: Event, lease: Lease)
    requires Uses(e, lease) && (lease.job in s.jobs ==> lease.fence != s.jobs[lease.job].fence)
    ensures Step(s, e) == s
  {
    hide ScopeValid;
  }

  /** Once a job has been leased again, nothing that an earlier lease attempts has any effect, ever. */
  lemma {:induction false} SupersededLeaseIsInert(s: State, id: JobId, worker: Worker, now: int, h: seq<Event>,
      e: Event, earlier: Lease)
    requires VisitJob(s, id, worker, now).1.Some? && earlier.job == id && earlier.fence <= s.jobs[id].fence
      && Uses(e, earlier)
    ensures var t := Run(VisitJob(s, id, worker, now).0, h); Step(t, e) == t
  {
    hide Step, VisitJob;
    GrantIsNew(s, id, worker, now);
    RunEvolves(VisitJob(s, id, worker, now).0, h, id);
    StaleLeaseIsInert(Run(VisitJob(s, id, worker, now).0, h), e, earlier);
  }

  ghost predicate Completes(s: State, e: Event, id: JobId) {
    id in s.jobs && s.jobs[id].state != Succeeded && id in Step(s, e).jobs && Step(s, e).jobs[id].state == Succeeded
  }

  /** Only a running job is completed, only by the holder of its current lease, before that lease
      expires, with every captured scope unchanged and no cancellation. */
  lemma {:induction false} CompletionIsFenced(s: State, e: Event, id: JobId)
    requires Completes(s, e, id)
    ensures (e.CompleteSystem? || e.Finalize?) && e.lease.job == id
    ensures s.jobs[id].state == Running && Fenced(s, e.lease, e.now)
  {
    hide ScopeValid;
  }

  /** A job is completed at most once. */
  lemma {:induction false} CompletedOnce(s: State, e: Event, later: seq<Event>, again: Event, id: JobId)
    requires Completes(s, e, id)
    ensures !Completes(Run(Step(s, e), later), again, id)
  {
    hide Step;
    TerminalIsAbsorbing(Step(s, e), later, id);
  }

  // ----- scope fencing -----

  /** Some captured scope has moved on to a later generation. */
  ghost predicate MovedOn(s: State, job: Job) {
    exists k :: k in job.captured && k in s.scopes && s.scopes[k].generation > job.captured[k].generation
  }

  lemma {:induction false} StepKeepsGenerations(s: State, e: Event, k: ScopeId)
    requires k in s.scopes
    ensures k in Step(s, e).scopes && Step(s, e).scopes[k].generation >= s.scopes[k].generation
  {
    hide ScopeValid;
  }

  lemma {:induction false} RunKeepsGenerations(s: State, h: seq<Event>, k: ScopeId)
    requires k in s.scopes
    ensures k in Run(s, h).scopes && Run(s, h).scopes[k].generation >= s.scopes[k].generation
  {
    hide Step;
    if h != [] {
      RunKeepsGenerations(s, h[..|h| - 1], k);
      StepKeepsGenerations(Run(s, h[..|h| - 1]), h[|h| - 1], k);
    }
  }

  /** After a captured scope has moved on, the job publishes nothing, whatever happens later. */
  lemma {:induction false} MovedScopeNeverPublishes(s: State, h: seq<Event>, e: Event, id: JobId)
    requires id in s.jobs && MovedOn(s, s.jobs[id])
    ensures !Completes(Run(s, h), e, id)
  {
    hide Step;
    var t := Run(s, h);
    RunEvolves(s, h, id);
    var k :| k in s.jobs[id].captured && k in s.scopes && s.scopes[k].generation > s.jobs[id].captured[k].generation;
    RunKeepsGenerations(s, h, k);
    assert !ScopeValid(t, t.jobs[id]);
    if Completes(t, e, id) {
      CompletionIsFenced(t, e, id);
    }
  }

  // ----- results -----

  lemma {:induction false} ClaimsAreWrittenOnce(s: State, h: seq<Event>, key: ClaimKey)
    requires key in s.claims
    ensures key in Run(s, h).claims && Run(s, h).claims[key] == s.claims[key]
  {
    hide Step;
    if h != [] {
      ClaimsAreWrittenOnce(s, h[..|h| - 1], key);
      StepTouches(Run(s, h[..|h| - 1]), h[|h| - 1]);
    }
  }

  /** In every reachable state, jobs of one user that finalised the same calculation have the same result. */
  lemma {:induction false} SameCalculationSameResult(h: seq<Event>, a: JobId, b: JobId)
    requires var s := Run(EMPTY, h);
             && a in s.jobs && b in s.jobs && s.jobs[a].terminalResult.Some? && s.jobs[b].terminalResult.Some?
             && s.jobs[a].user == s.jobs[b].user && s.jobs[a].kind == s.jobs[b].kind
             && s.jobs[a].terminalHash == s.jobs[b].terminalHash
    ensures Run(EMPTY, h).jobs[a].terminalResult == Run(EMPTY, h).jobs[b].terminalResult
  {
    hide Run;
    RunIsValid(h);
    assert JobValid(Run(EMPTY, h), a) && JobValid(Run(EMPTY, h), b);
  }

  /** An accepted answer is the claimed one, and the claim is there afterwards. */
  lemma {:induction false} AcceptedIsClaimed(
      s: State, lease: Lease, user: User, hash: Hash, result: nat, artifactsValid: bool, now: int)
    requires FinalizeJob(s, lease, user, hash, result, artifactsValid, now).1.Accepted?
    ensures var (t, answer) := FinalizeJob(s, lease, user, hash, result, artifactsValid, now);
            && lease.job in s.jobs && lease.job in t.jobs && t.jobs[lease.job].kind == s.jobs[lease.job].kind
            && var key := ClaimKey(user, s.jobs[lease.job].kind, hash);
               && key in t.claims && answer.result == t.claims[key].result
               && (answer.repeated <==> key in s.claims)
               && t.jobs[lease.job].state == Succeeded && t.jobs[lease.job].terminalResult == Some(answer.result)
  {
    hide Fenced;
    FencedExists(s, lease, now);
  }

  /** Whatever happens after a result was accepted, every later accepted answer to the same calculation is
      that result, marked as repeated. */
  lemma {:induction false} OneAnswerPerCalculation(
      s: State, lease: Lease, user: User, hash: Hash, result: nat, artifactsValid: bool, now: int,
      h: seq<Event>, later: Lease, other: nat, otherValid: bool, moment: int)
    requires FinalizeJob(s, lease, user, hash, result, artifactsValid, now).1.Accepted?
    requires var t := Run(FinalizeJob(s, lease, user, hash, result, artifactsValid, now).0, h);
             && lease.job in s.jobs && later.job in t.jobs && t.jobs[later.job].kind == s.jobs[lease.job].kind
             && FinalizeJob(t, later, user, hash, other, otherValid, moment).1.Accepted?
    ensures var (first, answer) := FinalizeJob(s, lease, user, hash, result, artifactsValid, now);
            FinalizeJob(Run(first, h), later, user, hash, other, otherValid, moment).1 == Accepted(answer.result, true)
  {
    hide FinalizeJob, Run;
    AcceptedIsClaimed(s, lease, user, hash, result, artifactsValid, now);
    var first := FinalizeJob(s, lease, user, hash, result, artifactsValid, now).0;
    var key := ClaimKey(user, s.jobs[lease.job].kind, hash);
    ClaimsAreWrittenOnce(first, h, key);
    AcceptedIsClaimed(Run(first, h), later, user, hash, other, otherValid, moment);
    FinalizeTouches(Run(first, h), later, user, hash, other, otherValid, moment);
    assert key in FinalizeJob(Run(first, h), later, user, hash, other, otherValid, moment).0.claims;
  }

  /** A worker that finalises again, at any later time and even with a lost lease, is given the accepted
      result and changes nothing. */
  lemma {:induction false} RepeatIsAnswered(
      s: State, lease: Lease, user: User, hash: Hash, result: nat, artifactsValid: bool, now: int,
      h: seq<Event>, again: Lease, other: nat, otherValid: bool, moment: int)
    requires FinalizeJob(s, lease, user, hash, result, artifactsValid, now).1.Accepted? && again.job == lease.job
    ensures var (first, answer) := FinalizeJob(s, lease, user, hash, result, artifactsValid, now);
            FinalizeJob(Run(first, h), again, user, hash, other, otherValid, moment)
              == (Run(first, h), Accepted(answer.result, true))
  {
    hide Run, Fenced;
    AcceptedIsClaimed(s, lease, user, hash, result, artifactsValid, now);
    var first := FinalizeJob(s, lease, user, hash, result, artifactsValid, now).0;
    TerminalIsAbsorbing(first, h, lease.job);
    ClaimsAreWrittenOnce(first, h, ClaimKey(user, s.jobs[lease.job].kind, hash));
  }

  /** Cancelling a held job does not close its attempt. */
  lemma {:induction false} CancelHeld(s: State, id: JobId, user: User, fence: nat)
    requires id in s.jobs && Held(s.jobs[id]) && s.jobs[id].user == Some(user)
    requires AttemptKey(id, fence) in s.attempts && Open(s.attempts[AttemptKey(id, fence)])
    ensures var t := Step(s, Cancel(id, user));
            && id in t.jobs && Terminal(t.jobs[id])
            && AttemptKey(id, fence) in t.attempts && Open(t.attempts[AttemptKey(id, fence)])
  {
  }

  /** A report of an active account, just queued. */
  function QueuedReport(): State {
    var account := ScopeRow(0, Active);
    var job := Job(Queued, Some(0), Report, map[0 := account], None, 0, 0, 3, 0, None, None, 0, false, None, None);
    State(map[0 := job], map[], map[0 := account], map[])
  }

  lemma {:induction false} ReportIsQueued()
    ensures Step(Step(EMPTY, ChangeScope(0, Active, 0)),
      Enqueue(0, Some(0), Report, map[0 := ScopeRow(0, Active)], None, 3, 0))
            == QueuedReport()
  {
  }

  lemma {:induction false} ReportIsLeased()
    ensures var s := Step(QueuedReport(), Visit(0, 7, 0));
            && 0 in s.jobs && s.jobs[0].state == Leased && s.jobs[0].user == Some(0)
            && AttemptKey(0, 1) in s.attempts && Open(s.attempts[AttemptKey(0, 1)])
  {
    var s := QueuedReport();
    assert 0 in s.jobs[0].captured && ScopeValid(s, s.jobs[0]);
  }

  /** A terminal job can still have an open attempt: cancelling does not close it. */
  lemma {:induction false} CancelLeavesAttemptOpen()
    ensures var s := Run(EMPTY, [ChangeScope(0, Active, 0),
                                 Enqueue(0, Some(0), Report, map[0 := ScopeRow(0, Active)], None, 3, 0),
                                 Visit(0, 7, 0), Cancel(0, 0)]);
            && 0 in s.jobs && Terminal(s.jobs[0])
            && AttemptKey(0, 1) in s.attempts && Open(s.attempts[AttemptKey(0, 1)])
  {
    hide Step, Run, QueuedReport;
    var o := ChangeScope(0, Active, 0);
    var e := Enqueue(0, Some(0), Report, map[0 := ScopeRow(0, Active)], None, 3, 0);
    var v, c := Visit(0, 7, 0), Cancel(0, 0);
    RunNil(EMPTY);
    RunSnoc(EMPTY, [], o);
    RunSnoc(EMPTY, [o], e);
    RunSnoc(EMPTY, [o, e], v);
    RunSnoc(EMPTY, [o, e, v], c);
    assert [] + [o] == [o] && [o] + [e] == [o, e] && [o, e] + [v] == [o, e, v] && [o, e, v] + [c] == [o, e, v, c];
    ReportIsQueued();
    ReportIsLeased();
    CancelHeld(Step(QueuedReport(), v), 0, 0, 1);
  }

  /** Exactly when a terminal job has an open attempt. */
  lemma {:induction false} OpenAttemptsOfTerminalJobs(h: seq<Event>, id: JobId, fence: nat)
    requires var s := Run(EMPTY, h); id in s.jobs && Terminal(s.jobs[id]) && AttemptKey(id, fence) in s.attempts
    ensures var s := Run(EMPTY, h);
            Open(s.attempts[AttemptKey(id, fence)]) <==>
              fence == s.jobs[id].fence && s.jobs[id].cancelRequested && s.jobs[id].worker.Some?
                && s.jobs[id].state == Cancelled
  {
    hide Run;
    RunIsValid(h);
    assert JobValid(Run(EMPTY, h), id);
  }

  // ----- the service -----

  /** Order of the queue: creation time, then id. */
  predicate Earlier(jobs: map<JobId, Job>, a: JobId, b: JobId)
    requires a in jobs && b in jobs
  {
    jobs[a].createdAt < jobs[b].createdAt || (jobs[a].createdAt == jobs[b].createdAt && a < b)
  }

  predicate Waits(s: State, kinds: set<Kind>, now: int, id: JobId) {
    id in s.jobs && Eligible(s.jobs[id], now) && s.jobs[id].kind in kinds
  }

  ghost predicate OldestWaiting(s: State, kinds: set<Kind>, now: int, id: JobId) {
    && Waits(s, kinds, now, id)
    && forall other :: Waits(s, kinds, now, other) && other != id ==> Earlier(s.jobs, id, other)
  }

  ghost function Queue(s: State, kinds: set<Kind>, now: int): set<JobId> {
    set id | id in s.jobs && Waits(s, kinds, now, id)
  }

  ghost function OverdueIds(s: State, now: int): set<JobId> {
    set id | id in s.jobs && Overdue(s.jobs[id], now)
  }

  lemma {:induction false} RescueRemoves(s: State, id: JobId, now: int)
    requires id in s.jobs && Overdue(s.jobs[id], now)
    ensures Step(s, Rescue(id, now)).jobs.Keys == s.jobs.Keys
    ensures OverdueIds(Step(s, Rescue(id, now)), now) == OverdueIds(s, now) - {id}
  {
    hide Step, Overdue;
    StepTouches(s, Rescue(id, now));
    NothingNew(s, Rescue(id, now));
    RescuedIsNotOverdue(s, id, now);
  }

  /** What `lease_next` does, step by step: rescues first, then visits, each of the job that was then the
      oldest waiting one. */
  ghost predicate Leasing(s: State, events: seq<Event>, kinds: set<Kind>, worker: Worker, now: int) {
    forall i :: 0 <= i < |events| ==>
      || (events[i].Rescue? && events[i].now == now && forall j :: 0 <= j < i ==> events[j].Rescue?)
      || (&& events[i].Visit? && events[i].worker == worker && events[i].now == now
          && OldestWaiting(Run(s, events[..i]), kinds, now, events[i].id))
  }

  lemma {:induction false} LeasingGrows(
      s: State, events: seq<Event>, kinds: set<Kind>, worker: Worker, now: int, id: JobId)
    requires Leasing(s, events, kinds, worker, now) && OldestWaiting(Run(s, events), kinds, now, id)
    ensures Leasing(s, events + [Visit(id, worker, now)], kinds, worker, now)
  {
    hide OldestWaiting, Run;
    var more := events + [Visit(id, worker, now)];
    assert more[..|events|] == events;
    forall i | 0 <= i < |events|
      ensures more[i] == events[i] && more[..i] == events[..i]
    {
    }
  }

  /** A visit that grants nothing takes the visited job out of the queue and adds nothing to it. */
  lemma {:induction false} RefusalShrinksQueue(s: State, kinds: set<Kind>, worker: Worker, now: int, id: JobId)
    requires Waits(s, kinds, now, id) && VisitJob(s, id, worker, now).1.None?
    ensures Queue(VisitJob(s, id, worker, now).0, kinds, now) < Queue(s, kinds, now)
  {
    hide VisitJob, Eligible;
    var t := VisitJob(s, id, worker, now).0;
    VisitTouches(s, id, worker, now);
    RefusedIsNotEligible(s, id, worker, now);
    assert id in Queue(s, kinds, now) && id !in Queue(t, kinds, now);
    forall other | other in Queue(t, kinds, now)
      ensures other in Queue(s, kinds, now)
    {
    }
  }

  lemma {:induction false} VisitMakesNoneOverdue(s: State, id: JobId, worker: Worker, now: int)
    requires OverdueIds(s, now) == {}
    ensures OverdueIds(VisitJob(s, id, worker, now).0, now) == {}
  {
    hide ScopeValid;
    assert forall other :: other in s.jobs ==> other !in OverdueIds(s, now);
  }

  class JobService {
    var jobs: map<JobId, Job>
    var attempts: map<AttemptKey, Attempt>
    var scopes: map<ScopeId, ScopeRow>
    var claims: map<ClaimKey, Claim>

    constructor ()
      ensures Current() == EMPTY
    {
      jobs, attempts, scopes, claims := map[], map[], map[], map[];
    }

    function Current(): State
      reads this
    {
      State(jobs, attempts, scopes, claims)
    }

    method MarkAttempt(key: AttemptKey, state: AttemptState)
      modifies this`attempts
      ensures attempts == WithAttempt(old(attempts), key, state)
    {
      if key in attempts {
        attempts := attempts[key := attempts[key].(state := state)];
      }
    }

    /** One expired lease: its attempt expires, and the job is fenced, exhausted or queued again. */
    method RescueOne(id: JobId, now: int)
      requires id in jobs && Overdue(jobs[id], now)
      modifies this
      ensures Current() == Step(old(Current()), Rescue(id, now))
    {
      hide ScopeValid;
      var job := jobs[id];
      MarkAttempt(AttemptKey(id, job.fence), AttemptExpired);
      if !ScopeValid(Current(), job) {
        job := job.(state := Cancelled);
      } else if job.attempts >= job.maxAttempts {
        job := job.(state := Failed);
      } else {
        job := job.(state := Queued, notBefore := now);
      }
      ScopeIgnoresAttempts(old(Current()), Current(), jobs[id]);
      job := job.(worker := None, expiresAt := None);
      jobs := jobs[id := job];
    }

    /** `rescue_expired`: every overdue lease is rescued once, and none is overdue afterwards. */
    method RescueExpired(now: int) returns (rescued: nat, ghost events: seq<Event>)
      modifies this
      ensures Current() == Run(old(Current()), events) && OverdueIds(Current(), now) == {}
      ensures forall i :: 0 <= i < |events| ==> events[i].Rescue? && events[i].now == now
      ensures rescued == |OverdueIds(old(Current()), now)|
    {
      hide Step, Run, Overdue;
      rescued, events := 0, [];
      RunNil(Current());
      var pending := jobs.Keys;
      while pending != {}
        invariant Current() == Run(old(Current()), events) && OverdueIds(Current(), now) <= pending <= jobs.Keys
        invariant forall i :: 0 <= i < |events| ==> events[i].Rescue? && events[i].now == now
        invariant rescued + |OverdueIds(Current(), now)| == |OverdueIds(old(Current()), now)|
        decreases pending
      {
        var id :| id in pending;
        pending := pending - {id};
        if Overdue(jobs[id], now) {
          RescueRemoves(Current(), id, now);
          RescueOne(id, now);
          RunSnoc(old(Current()), events, Rescue(id, now));
          rescued, events := rescued + 1, events + [Rescue(id, now)];
        }
      }
    }

    /** The oldest waiting job. */
    method FindOldest(kinds: set<Kind>, now: int) returns (found: Option<JobId>)
      ensures found.None? ==> forall id :: !Waits(Current(), kinds, now, id)
      ensures found.Some? ==> OldestWaiting(Current(), kinds, now, found.value)
    {
      hide Eligible;
      found := None;
      var pending := jobs.Keys;
      while pending != {}
        invariant pending <= jobs.Keys
        invariant found.None? ==> forall id :: Waits(Current(), kinds, now, id) ==> id in pending
        invariant found.Some? ==> Waits(Current(), kinds, now, found.value)
        invariant found.Some? ==>
          forall id :: Waits(Current(), kinds, now, id) && id != found.value && id !in pending ==>
            Earlier(jobs, found.value, id)
        decreases pending
      {
        var id :| id in pending;
        pending := pending - {id};
        if Waits(Current(), kinds, now, id) && (found.None? || Earlier(jobs, id, found.value)) {
          found := Some(id);
        }
      }
    }

    /** One waiting job: fenced, exhausted or leased. */
    method VisitOne(id: JobId, worker: Worker, now: int) returns (lease: Option<Lease>)
      requires id in jobs && Eligible(jobs[id], now)
      modifies this
      ensures (Current(), lease) == VisitJob(old(Current()), id, worker, now)
    {
      hide ScopeValid;
      var job := jobs[id];
      if !ScopeValid(Current(), job) {
        jobs := jobs[id := Released(job, Cancelled)];
        return None;
      }
      if job.attempts >= job.maxAttempts {
        jobs := jobs[id := Released(job, Failed)];
        return None;
      }
      job := job.(attempts := job.attempts + 1, fence := job.fence + 1);
      job := job.(state := Leased, worker := Some(worker), expiresAt := Some(now + LEASE_DURATION));
      jobs := jobs[id := job];
      attempts := attempts[AttemptKey(id, job.fence) := Attempt(worker, AttemptLeased)];
      return Some(Lease(id, worker, job.fence, job.kind, job.captured.Keys));
    }

    /** `lease_next`: rescues, then visits the oldest waiting job until one is leased or none waits. */
    method LeaseNext(worker: Worker, now: int, kinds: set<Kind>)
        returns (lease: Option<Lease>, ghost events: seq<Event>)
      modifies this
      ensures Current() == Run(old(Current()), events) && Leasing(old(Current()), events, kinds, worker, now)
      ensures OverdueIds(Current(), now) == {}
      ensures lease.None? ==> forall id :: !Waits(Current(), kinds, now, id)
      ensures lease.Some? ==> Live(Current(), lease.value, now) && jobs[lease.value.job].state == Leased
      ensures lease.Some? ==> |events| > 0 && events[|events| - 1] == Visit(lease.value.job, worker, now)
    {
      hide Step, Live, VisitJob, OldestWaiting, Waits, OverdueIds;
      var rescued;
      rescued, events := RescueExpired(now);
      while true
        invariant Current() == Run(old(Current()), events) && Leasing(old(Current()), events, kinds, worker, now)
        invariant OverdueIds(Current(), now) == {}
        decreases Queue(Current(), kinds, now)
      {
        var found := FindOldest(kinds, now);
        if found.None? {
          return None, events;
        }
        var id := found.value;
        ghost var before := Current();
        OldestWaits(before, kinds, now, id);
        LeasingGrows(old(Current()), events, kinds, worker, now, id);
        lease := VisitOne(id, worker, now);
        VisitIsStep(before, id, worker, now);
        VisitMakesNoneOverdue(before, id, worker, now);
        RunSnoc(old(Current()), events, Visit(id, worker, now));
        events := events + [Visit(id, worker, now)];
        if lease.Some? {
          GrantIsNew(before, id, worker, now);
          return lease, events;
        }
        RefusalShrinksQueue(before, kinds, worker, now, id);
      }
    }

    method StartLease(lease: Lease, now: int) returns (ok: bool)
      modifies this
      ensures Current() == Step(old(Current()), Start(lease, now))
      ensures ok <==> old(Fenced(Current(), lease, now) && jobs[lease.job].state == Leased)
    {
      hide ScopeValid;
      if !Fenced(Current(), lease, now) || jobs[lease.job].state != Leased {
        return false;
      }
      jobs := jobs[lease.job := jobs[lease.job].(state := Running)];
      MarkAttempt(AttemptKey(lease.job, lease.fence), AttemptRunning);
      return true;
    }

    method ExtendLease(lease: Lease, now: int) returns (ok: bool)
      modifies this
      ensures Current() == Step(old(Current()), Heartbeat(lease, now))
      ensures ok <==> old(Live(Current(), lease, now) && Held(jobs[lease.job]))
    {
      hide ScopeValid;
      if !Live(Current(), lease, now) || !Held(jobs[lease.job]) {
        return false;
      }
      jobs := jobs[lease.job := jobs[lease.job].(expiresAt := Some(now + LEASE_DURATION))];
      return true;
    }

    method FailLease(lease: Lease, retryable: bool, delay: int, now: int) returns (ok: bool)
      modifies this
      ensures Current() == Step(old(Current()), Fail(lease, retryable, delay, now))
      ensures ok <==> lease.job in old(jobs) && Held(old(jobs)[lease.job]) && LeaseMatches(old(jobs)[lease.job], lease)
    {
      hide ScopeValid;
      if lease.job !in jobs || !Held(jobs[lease.job]) || !LeaseMatches(jobs[lease.job], lease) {
        return false;
      }
      var job, key := jobs[lease.job], AttemptKey(lease.job, lease.fence);
      var valid := ScopeValid(Current(), job);
      MarkAttempt(key, AttemptFailed);
      if !valid {
        job := job.(state := Cancelled);
        MarkAttempt(key, AttemptCancelled);
      } else if retryable && job.attempts < job.maxAttempts {
        job := job.(state := Queued, notBefore := now + delay);
      } else {
        job := job.(state := Failed);
      }
      jobs := jobs[lease.job := job.(worker := None, expiresAt := None)];
      return true;
    }

    method CancelJob(user: User, id: JobId) returns (ok: bool)
      modifies this
      ensures Current() == Step(old(Current()), Cancel(id, user))
      ensures ok <==> id in old(jobs) && old(jobs)[id].user == Some(user)
    {
      if id !in jobs || jobs[id].user != Some(user) {
        return false;
      }
      if !Terminal(jobs[id]) {
        jobs := jobs[id := jobs[id].(cancelRequested := true, state := Cancelled)];
      }
      return true;
    }

    /** `complete_system`: success without a result, for retention work only; any other lease is an error. */
    method CompleteSystemLease(lease: Lease, now: int) returns (answer: Option<bool>)
      modifies this
      ensures Current() == Step(old(Current()), CompleteSystem(lease, now))
      ensures answer.None? <==> !SystemLease(lease)
      ensures answer == Some(true) <==> Completes(old(Current()), CompleteSystem(lease, now), lease.job)
    {
      hide ScopeValid;
      if !SystemLease(lease) {
        return None;
      }
      if !Fenced(Current(), lease, now) || jobs[lease.job].state != Running
        || AttemptKey(lease.job, lease.fence) !in attempts {
        return Some(false);
      }
      MarkAttempt(AttemptKey(lease.job, lease.fence), AttemptSucceeded);
      jobs := jobs[lease.job := jobs[lease.job].(state := Succeeded, worker := None, expiresAt := None)];
      return Some(true);
    }

    /** `finalize`: one result per calculation, published under the fence of a running attempt. */
    method FinalizeResult(lease: Lease, user: User, hash: Hash, result: nat, artifactsValid: bool, now: int)
      returns (answer: Finalized)
      modifies this
      ensures (Current(), answer) == FinalizeJob(old(Current()), lease, user, hash, result, artifactsValid, now)
      ensures Completes(old(Current()), Finalize(lease, user, hash, result, artifactsValid, now), lease.job) <==>
              answer.Accepted? && old(jobs)[lease.job].state != Succeeded
    {
      hide Fenced;
      if lease.job in jobs && jobs[lease.job].state == Succeeded {
        return AnswerFromClaim(Current(), jobs[lease.job], user, hash);
      }
      if !Fenced(Current(), lease, now) || lease.job !in jobs || jobs[lease.job].state != Running
         || jobs[lease.job].user != Some(user) {
        FencedExists(Current(), lease, now);
        return StaleAttempt;
      }
      var job := jobs[lease.job];
      if job.requested.Some? && job.requested.value != hash {
        return IdentityMismatch;
      }
      var key := ClaimKey(user, job.kind, hash);
      var repeated := key in claims;
      if !repeated && !artifactsValid {
        return ArtifactsInvalid;
      }
      if AttemptKey(lease.job, lease.fence) !in attempts {
        return AttemptMissing;
      }
      if !repeated {
        claims := claims[key := Claim(result, lease.job)];
      }
      MarkAttempt(AttemptKey(lease.job, lease.fence), AttemptSucceeded);
      jobs := jobs[lease.job := job.(state := Succeeded, terminalHash := Some(hash),
        terminalResult := Some(claims[key].result))];
      return Accepted(claims[key].result, repeated);
    }
  }

  lemma {:induction false} ScopeIgnoresAttempts(s: State, t: State, job: Job)
    requires s.scopes == t.scopes
    ensures ScopeValid(s, job) <==> ScopeValid(t, job)
  {
  }

  lemma {:induction false} FencedExists(s: State, lease: Lease, now: int)
    ensures Fenced(s, lease, now) ==> lease.job in s.jobs
  {
  }

  lemma {:induction false} RunNil(s: State)
    ensures Run(s, []) == s
  {
  }

  lemma {:induction false} RunSnoc(s: State, h: seq<Event>, e: Event)
    ensures Run(s, h + [e]) == Step(Run(s, h), e)
  {
    assert (h + [e])[..|h|] == h;
  }

  lemma {:induction false} OldestWaits(s: State, kinds: set<Kind>, now: int, id: JobId)
    requires OldestWaiting(s, kinds, now, id)
    ensures Waits(s, kinds, now, id) && id in s.jobs && Eligible(s.jobs[id], now)
  {
  }

  lemma {:induction false} VisitIsStep(s: State, id: JobId, worker: Worker, now: int)
    ensures VisitJob(s, id, worker, now).0 == Step(s, Visit(id, worker, now))
  {
  }

  lemma {:induction false} RescuedIsNotOverdue(s: State, id: JobId, now: int)
    requires id in s.jobs
    ensures id in Step(s, Rescue(id, now)).jobs && !Overdue(Step(s, Rescue(id, now)).jobs[id], now)
  {
    hide ScopeValid;
  }

  lemma {:induction false} RefusedIsNotEligible(s: State, id: JobId, worker: Worker, now: int)
    requires id in s.jobs && VisitJob(s, id, worker, now).1.None?
    ensures id in VisitJob(s, id, worker, now).0.jobs && !Eligible(VisitJob(s, id, worker, now).0.jobs[id], now)
  {
    hide ScopeValid;
  }
}
