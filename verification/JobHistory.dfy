/** What moves a job from one state to another, and what every state says about the history that led to
  it (packages/persistence/ratereplay_persistence/jobs.py and artifacts.py). The conditions read the rows
  of the tables and the fields of the lease directly. */
module JobHistory {
  import opened Results
  import opened Jobs

  // ----- the conditions, field by field -----

  /** Every captured scope still has the captured generation and lifecycle; retention work belongs to nobody
      and captures nothing, and all other work has an owner and captures something. */
  ghost predicate Intact(s: State, job: Job) {
    && (forall k :: k in job.captured ==>
          && k in s.scopes && s.scopes[k].generation == job.captured[k].generation
          && s.scopes[k].lifecycle == job.captured[k].lifecycle)
    && (job.kind == Retention <==> job.user.None?) && (job.kind == Retention <==> job.captured == map[])
  }

  predicate Due(job: Job, now: int) {
    job.state == Queued && job.notBefore <= now && !job.cancelRequested
  }

  predicate Late(job: Job, now: int) {
    (job.state == Leased || job.state == Running) && job.expiresAt.Some? && job.expiresAt.value <= now
  }

  /** The lease names the job as it is: worker, generation, kind and scopes. */
  predicate HeldBy(job: Job, lease: Lease) {
    && (job.state == Leased || job.state == Running)
    && job.worker == Some(lease.worker) && job.fence == lease.fence
    && job.kind == lease.kind && job.captured.Keys == lease.scopes
  }

  ghost predicate Unexpired(s: State, job: Job, lease: Lease, now: int) {
    HeldBy(job, lease) && job.expiresAt.Some? && now < job.expiresAt.value && Intact(s, job)
  }

  /** A worker may publish: it runs the job under an unexpired lease that nobody asked to cancel. */
  ghost predicate MayPublish(s: State, job: Job, lease: Lease, now: int) {
    && job.state == Running && Unexpired(s, job, lease, now) && !job.cancelRequested
    && AttemptKey(lease.job, lease.fence) in s.attempts
  }

  /** What brings a job to a state. */
  ghost predicate Brings(s: State, e: Event, id: JobId, state: JobState)
    requires id in s.jobs
  {
    var job := s.jobs[id];
    match state
    case Queued =>
      && job.attempts < job.maxAttempts && Intact(s, job)
      && (|| (e.Rescue? && e.id == id && Late(job, e.now))
          || (e.Fail? && e.lease.job == id && HeldBy(job, e.lease) && e.retryable))
    case Leased =>
      e.Visit? && e.id == id && Due(job, e.now) && Intact(s, job) && job.attempts < job.maxAttempts
    case Running =>
      && e.Start? && e.lease.job == id && job.state == Leased && Unexpired(s, job, e.lease, e.now)
      && !job.cancelRequested
    case Succeeded =>
      || (&& e.CompleteSystem? && e.lease.job == id && e.lease.kind == Retention && e.lease.scopes == {}
          && MayPublish(s, job, e.lease, e.now))
      || (&& e.Finalize? && e.lease.job == id && MayPublish(s, job, e.lease, e.now) && job.user == Some(e.user)
          && (job.requested.None? || job.requested == Some(e.hash))
          && (ClaimKey(e.user, job.kind, e.hash) in s.claims || e.artifactsValid))
    case Failed =>
      && Intact(s, job)
      && (|| (e.Visit? && e.id == id && Due(job, e.now) && job.attempts >= job.maxAttempts)
          || (e.Rescue? && e.id == id && Late(job, e.now) && job.attempts >= job.maxAttempts)
          || (&& e.Fail? && e.lease.job == id && HeldBy(job, e.lease)
              && (!e.retryable || job.attempts >= job.maxAttempts)))
    case Cancelled =>
      || (e.Visit? && e.id == id && Due(job, e.now) && !Intact(s, job))
      || (e.Rescue? && e.id == id && Late(job, e.now) && !Intact(s, job))
      || (e.Fail? && e.lease.job == id && HeldBy(job, e.lease) && !Intact(s, job))
      || (e.Cancel? && e.id == id && job.user == Some(e.user) && job.state in {Queued, Leased, Running})
  }

  /** The row of a job after it was brought to a state: released when it leaves its worker, later again when
      it is retried, and under a new generation and a new expiry when it is leased. */
  function Brought(job: Job, e: Event, state: JobState): Job {
    match state
    case Queued =>
      var from := if e.Rescue? then e.now else if e.Fail? then e.now + e.delay else job.notBefore;
      job.(state := Queued, worker := None, expiresAt := None, notBefore := from)
    case Leased =>
      if e.Visit? then
        job.(state := Leased, worker := Some(e.worker), expiresAt := Some(e.now + 20_000_000),
             attempts := job.attempts + 1, fence := job.fence + 1)
      else job
    case Running => job.(state := Running)
    case _ => if e.Cancel? then job.(state := state, cancelRequested := true)
              else job.(state := state, worker := None, expiresAt := None)
  }

  // ----- every change has exactly these causes -----

  lemma {:induction false} IntactIsScopeValid(s: State, job: Job)
    ensures Intact(s, job) <==> ScopeValid(s, job)
  {
  }

  ghost predicate ChangesExactly(s: State, e: Event, id: JobId)
    requires id in s.jobs
  {
    var job, t := s.jobs[id], Step(s, e);
    && id in t.jobs
    && (forall state :: state != job.state ==> (t.jobs[id].state == state <==> Brings(s, e, id, state)))
    && (t.jobs[id].state != job.state && !e.Finalize? ==> t.jobs[id] == Brought(job, e, t.jobs[id].state))
    && (t.jobs[id].state != job.state && e.Finalize? ==>
          && ClaimKey(e.user, job.kind, e.hash) in t.claims
          && var result := t.claims[ClaimKey(e.user, job.kind, e.hash)].result;
             t.jobs[id] == job.(state := Succeeded, terminalHash := Some(e.hash), terminalResult := Some(result)))
    && (t.jobs[id].state == job.state && !e.Heartbeat? ==> t.jobs[id] == job)
    && (e.Heartbeat? ==>
          if e.lease.job == id && Unexpired(s, job, e.lease, e.now)
          then t.jobs[id] == job.(expiresAt := Some(e.now + 20_000_000)) else t.jobs[id] == job)
  }

  lemma {:induction false} VisitChanges(s: State, e: Event, id: JobId)
    requires id in s.jobs && e.Visit?
    ensures ChangesExactly(s, e, id)
  {
    hide ScopeValid, Intact;
    IntactIsScopeValid(s, s.jobs[id]);
  }

  lemma {:induction false} RescueChanges(s: State, e: Event, id: JobId)
    requires id in s.jobs && e.Rescue?
    ensures ChangesExactly(s, e, id)
  {
    hide ScopeValid, Intact, WithAttempt;
    IntactIsScopeValid(s, s.jobs[id]);
  }

  lemma {:induction false} FailChanges(s: State, e: Event, id: JobId)
    requires id in s.jobs && e.Fail?
    ensures ChangesExactly(s, e, id)
  {
    hide ScopeValid, Intact, WithAttempt;
    IntactIsScopeValid(s, s.jobs[id]);
  }

  lemma {:induction false} FinalizeChanges(s: State, e: Event, id: JobId)
    requires id in s.jobs && e.Finalize?
    ensures ChangesExactly(s, e, id)
  {
    hide ScopeValid, Intact, WithAttempt;
    IntactIsScopeValid(s, s.jobs[id]);
  }

  lemma {:induction false} HolderChanges(s: State, e: Event, id: JobId)
    requires id in s.jobs && (e.Start? || e.Heartbeat? || e.CompleteSystem?)
    ensures ChangesExactly(s, e, id)
  {
    hide ScopeValid, Intact, WithAttempt;
    IntactIsScopeValid(s, s.jobs[id]);
  }

  /** In any state, an event brings a job to another state exactly by the table above, and then writes
      exactly the row above. */
  lemma {:induction false} StateChangesExactly(s: State, e: Event, id: JobId)
    requires id in s.jobs
    ensures ChangesExactly(s, e, id)
  {
    if e.Visit? {
      VisitChanges(s, e, id);
    } else if e.Rescue? {
      RescueChanges(s, e, id);
    } else if e.Fail? {
      FailChanges(s, e, id);
    } else if e.Finalize? {
      FinalizeChanges(s, e, id);
    } else if e.Start? || e.Heartbeat? || e.CompleteSystem? {
      HolderChanges(s, e, id);
    } else {
      OtherChanges(s, e, id);
    }
  }

  lemma {:induction false} OtherChanges(s: State, e: Event, id: JobId)
    requires id in s.jobs && (e.Enqueue? || e.Cancel? || e.ChangeScope?)
    ensures ChangesExactly(s, e, id)
  {
  }

  // ----- attempts and claims -----

  /** The record of an attempt after an event: created when the job is leased, and closed with what closed
      it. */
  ghost function AttemptAfter(s: State, e: Event, key: AttemptKey): Option<Attempt> {
    var id, fence := key.job, key.fence;
    var before := if key in s.attempts then Some(s.attempts[key]) else None;
    if id !in s.jobs then before else
    var job := s.jobs[id];
    if e.Visit? && Brings(s, e, id, Leased) && fence == job.fence + 1 then Some(Attempt(e.worker, AttemptLeased))
    else if before.None? || fence != job.fence then before
    else if Brings(s, e, id, Running) then Some(before.value.(state := AttemptRunning))
    else if Brings(s, e, id, Succeeded) then Some(before.value.(state := AttemptSucceeded))
    else if e.Rescue? && e.id == id && Late(job, e.now) then Some(before.value.(state := AttemptExpired))
    else if e.Fail? && e.lease.job == id && HeldBy(job, e.lease) then
      Some(before.value.(state := if Intact(s, job) then AttemptFailed else AttemptCancelled))
    else before
  }

  ghost predicate AttemptsExactly(s: State, e: Event, key: AttemptKey) {
    var t := Step(s, e);
    (if key in t.attempts then Some(t.attempts[key]) else None) == AttemptAfter(s, e, key)
  }

  lemma {:induction false} HolderAttempts(s: State, e: Event, key: AttemptKey)
    requires e.Start? || e.CompleteSystem? || e.Heartbeat?
    ensures AttemptsExactly(s, e, key)
  {
    hide ScopeValid, Intact;
    if key.job in s.jobs {
      IntactIsScopeValid(s, s.jobs[key.job]);
    }
  }

  lemma {:induction false} FinalizeAttempts(s: State, e: Event, key: AttemptKey)
    requires e.Finalize?
    ensures AttemptsExactly(s, e, key)
  {
    hide ScopeValid, Intact;
    if key.job in s.jobs {
      IntactIsScopeValid(s, s.jobs[key.job]);
    }
  }

  lemma {:induction false} VisitAttempts(s: State, e: Event, key: AttemptKey)
    requires e.Visit?
    ensures AttemptsExactly(s, e, key)
  {
    hide ScopeValid, Intact;
    if key.job in s.jobs {
      IntactIsScopeValid(s, s.jobs[key.job]);
    }
  }

  lemma {:induction false} QueueAttempts(s: State, e: Event, key: AttemptKey)
    requires e.Rescue? || e.Fail?
    ensures AttemptsExactly(s, e, key)
  {
    hide ScopeValid, Intact;
    if key.job in s.jobs {
      IntactIsScopeValid(s, s.jobs[key.job]);
    }
  }

  /** In any state, an event creates and closes attempt records exactly so. */
  lemma {:induction false} AttemptsChangeExactly(s: State, e: Event, key: AttemptKey)
    ensures AttemptsExactly(s, e, key)
  {
    if e.Start? || e.CompleteSystem? || e.Heartbeat? {
      HolderAttempts(s, e, key);
    } else if e.Finalize? {
      FinalizeAttempts(s, e, key);
    } else if e.Visit? {
      VisitAttempts(s, e, key);
    } else if e.Rescue? || e.Fail? {
      QueueAttempts(s, e, key);
    } else {
      OtherAttempts(s, e, key);
    }
  }

  lemma {:induction false} OtherAttempts(s: State, e: Event, key: AttemptKey)
    requires e.Enqueue? || e.Cancel? || e.ChangeScope?
    ensures AttemptsExactly(s, e, key)
  {
  }

  /** A claim is written exactly when a job is finalised under a calculation that has none, and it names
      that result and that job. */
  lemma {:induction false} ClaimsChangeExactly(s: State, e: Event, key: ClaimKey)
    requires key !in s.claims
    ensures key in Step(s, e).claims <==>
            && e.Finalize? && e.lease.job in s.jobs && Brings(s, e, e.lease.job, Succeeded)
            && key == ClaimKey(e.user, s.jobs[e.lease.job].kind, e.hash)
    ensures key in Step(s, e).claims ==> Step(s, e).claims[key] == Claim(e.result, e.lease.job)
  {
    hide ScopeValid, Intact, WithAttempt;
    if e.Finalize? && e.lease.job in s.jobs {
      IntactIsScopeValid(s, s.jobs[e.lease.job]);
    }
  }

  // ----- the answers of finalize -----

  ghost predicate Publishable(s: State, job: Job, lease: Lease, user: User, now: int) {
    job.state == Running && Unexpired(s, job, lease, now) && !job.cancelRequested && job.user == Some(user)
  }

  /** Each refusal has exactly one reason, and whatever is refused changes nothing. */
  lemma {:induction false} RefusedExactly(
      s: State, lease: Lease, user: User, hash: Hash, result: nat, artifactsValid: bool, now: int)
    requires lease.job in s.jobs
    ensures var (t, answer) := FinalizeJob(s, lease, user, hash, result, artifactsValid, now);
            var job := s.jobs[lease.job];
            var key := ClaimKey(user, job.kind, hash);
            var mismatch := job.requested.Some? && job.requested != Some(hash);
            var open := Publishable(s, job, lease, user, now);
            && (answer == AlreadyTerminal <==>
                  job.state == Succeeded && !(key in s.claims && job.terminalResult == Some(s.claims[key].result)))
            && (answer == StaleAttempt <==> job.state != Succeeded && !open)
            && (answer == IdentityMismatch <==> open && mismatch)
            && (answer == ArtifactsInvalid <==> open && !mismatch && key !in s.claims && !artifactsValid)
            && (answer == AttemptMissing <==>
                  && open && !mismatch && (key in s.claims || artifactsValid)
                  && AttemptKey(lease.job, lease.fence) !in s.attempts)
            && (!answer.Accepted? ==> t == s)
  {
    hide ScopeValid, Intact, CompleteJob;
    IntactIsScopeValid(s, s.jobs[lease.job]);
  }

  lemma {:induction false} NoJobIsStale(
      s: State, lease: Lease, user: User, hash: Hash, result: nat, artifactsValid: bool, now: int)
    requires lease.job !in s.jobs
    ensures FinalizeJob(s, lease, user, hash, result, artifactsValid, now) == (s, StaleAttempt)
  {
  }

  /** In no reachable state is the record of a live attempt missing. */
  lemma {:induction false} NoAttemptIsMissing(
      h: seq<Event>, lease: Lease, user: User, hash: Hash, result: nat, artifactsValid: bool, now: int)
    ensures FinalizeJob(Run(EMPTY, h), lease, user, hash, result, artifactsValid, now).1 != AttemptMissing
  {
    hide Run, FinalizeJob, Intact;
    var s := Run(EMPTY, h);
    if lease.job in s.jobs {
      RunIsValid(h);
      assert JobValid(s, lease.job);
      RefusedExactly(s, lease, user, hash, result, artifactsValid, now);
    } else {
      NoJobIsStale(s, lease, user, hash, result, artifactsValid, now);
    }
  }

  // ----- histories -----

  lemma {:induction false} Latest(h: seq<Event>)
    requires h != []
    ensures Run(EMPTY, h) == Step(Run(EMPTY, h[..|h| - 1]), h[|h| - 1])
  {
  }

  /** The event at a place of the history brought the job to its state. */
  ghost predicate Caused(h: seq<Event>, i: nat, id: JobId, state: JobState) {
    i < |h| && id in Run(EMPTY, h[..i]).jobs && Brings(Run(EMPTY, h[..i]), h[i], id, state)
  }

  /** Every job that is not waiting for its first lease was brought to its state by some event of its
      history: nothing fails, succeeds or is cancelled without a cause from the table. */
  lemma {:induction false} StateHasCause(h: seq<Event>, id: JobId) returns (i: nat)
    requires id in Run(EMPTY, h).jobs && Run(EMPTY, h).jobs[id].state != Queued
    ensures Caused(h, i, id, Run(EMPTY, h).jobs[id].state)
  {
    hide Step, Run, Brings;
    RunNil(EMPTY);
    Latest(h);
    var rest, e := h[..|h| - 1], h[|h| - 1];
    var s, state := Run(EMPTY, rest), Run(EMPTY, h).jobs[id].state;
    if id !in s.jobs {
      RunIsValid(rest);
      StepKeepsNew(s, e, id);
      EnqueuedIsQueued(s, e);
    } else {
      StateChangesExactly(s, e, id);
      if s.jobs[id].state != state {
        i := |rest|;
      } else {
        i := StateHasCause(rest, id);
        assert rest[..i] == h[..i] && rest[i] == h[i];
      }
    }
  }

  lemma {:induction false} EnqueuedIsQueued(s: State, e: Event)
    requires e.Enqueue? && e.id !in s.jobs
    ensures e.id in Step(s, e).jobs
    ensures var job := Step(s, e).jobs[e.id];
            && job.state == Queued && job.attempts == job.fence == 0 && job.worker.None? && !job.cancelRequested
            && job.notBefore == job.createdAt == e.now && job.user == e.owner && job.kind == e.kind
            && job.captured == e.captured && job.requested == e.requested && job.maxAttempts == e.maxAttempts
            && job.terminalResult.None? && job.terminalHash.None? && job.expiresAt.None?
  {
  }

  /** A job has failed only after its budget was used up, or when its holder reported a failure that must
      not be retried. */
  lemma {:induction false} FailedOnlyForCause(h: seq<Event>, id: JobId)
    requires id in Run(EMPTY, h).jobs && Run(EMPTY, h).jobs[id].state == Failed
    ensures || Run(EMPTY, h).jobs[id].attempts == Run(EMPTY, h).jobs[id].maxAttempts
            || exists i: nat :: Caused(h, i, id, Failed) && h[i].Fail? && !h[i].retryable
  {
    hide Step, Run, JobValid;
    var i := StateHasCause(h, id);
    if !(h[i].Fail? && !h[i].retryable) {
      BudgetAtCause(h, i, id);
    }
  }

  lemma {:induction false} BudgetAtCause(h: seq<Event>, i: nat, id: JobId)
    requires Caused(h, i, id, Failed) && !(h[i].Fail? && !h[i].retryable)
    ensures id in Run(EMPTY, h).jobs
    ensures Run(EMPTY, h).jobs[id].attempts == Run(EMPTY, h).jobs[id].maxAttempts
  {
    hide Step, Run;
    var s, e := Run(EMPTY, h[..i]), h[i];
    RunIsValid(h[..i]);
    assert JobValid(s, id);
    StateChangesExactly(s, e, id);
    assert s.jobs[id].state != Failed by {
      TerminalIsNotBrought(s, e, id);
    }
    var now, later := h[..i + 1], h[i + 1..];
    assert now[..|now| - 1] == h[..i] && now[|now| - 1] == e && h == now + later;
    Latest(now);
    TerminalIsAbsorbing(Run(EMPTY, now), later, id);
    RunConcat(EMPTY, now, later);
  }

  lemma {:induction false} TerminalIsNotBrought(s: State, e: Event, id: JobId)
    requires id in s.jobs && Brings(s, e, id, Failed)
    ensures s.jobs[id].state in {Queued, Leased, Running}
  {
    hide Intact;
  }

  lemma {:induction false} RunConcat(s: State, h: seq<Event>, later: seq<Event>)
    ensures Run(s, h + later) == Run(Run(s, h), later)
  {
    if later == [] {
      assert h + later == h;
    } else {
      var n := |later| - 1;
      assert (h + later)[..|h + later| - 1] == h + later[..n];
      RunConcat(s, h, later[..n]);
    }
  }

  /** A failure that may be retried, with budget left and its scopes unchanged, puts the job back in the
      queue: it can be leased again exactly from the end of the delay, under the next generation. */
  lemma {:induction false} RetriedAfterDelay(s: State, lease: Lease, delay: int, now: int, worker: Worker, moment: int)
    requires lease.job in s.jobs && HeldBy(s.jobs[lease.job], lease) && Intact(s, s.jobs[lease.job])
    requires s.jobs[lease.job].attempts < s.jobs[lease.job].maxAttempts && !s.jobs[lease.job].cancelRequested
    ensures var t := Step(s, Fail(lease, true, delay, now));
            && lease.job in t.jobs && t.jobs[lease.job].state == Queued
            && (moment >= now + delay <==> Step(t, Visit(lease.job, worker, moment)).jobs[lease.job].state == Leased)
            && (moment >= now + delay ==>
              Step(t, Visit(lease.job, worker, moment)).jobs[lease.job].fence == lease.fence + 1)
  {
    var id := lease.job;
    ReleasedIsLeasable(s, Fail(lease, true, delay, now), id, now + delay, worker, moment);
  }

  /** A lease that ran out, with budget left and its scopes unchanged, is rescued to the queue, where it can
      be leased at once under the next generation. */
  lemma {:induction false} RescuedAtOnce(s: State, id: JobId, now: int, worker: Worker, moment: int)
    requires id in s.jobs && Late(s.jobs[id], now) && Intact(s, s.jobs[id])
    requires s.jobs[id].attempts < s.jobs[id].maxAttempts && !s.jobs[id].cancelRequested
    ensures var t := Step(s, Rescue(id, now));
            && id in t.jobs && t.jobs[id].state == Queued
            && (moment >= now <==> Step(t, Visit(id, worker, moment)).jobs[id].state == Leased)
            && (moment >= now ==> Step(t, Visit(id, worker, moment)).jobs[id].fence == s.jobs[id].fence + 1)
  {
    ReleasedIsLeasable(s, Rescue(id, now), id, now, worker, moment);
  }

  lemma {:induction false} ReleasedIsLeasable(s: State, e: Event, id: JobId, from: int, worker: Worker, moment: int)
    requires id in s.jobs && Brings(s, e, id, Queued) && s.jobs[id].state != Queued && !s.jobs[id].cancelRequested
    requires (e.Rescue? && from == e.now) || (e.Fail? && from == e.now + e.delay)
    ensures var t := Step(s, e);
            && id in t.jobs && t.jobs[id].state == Queued && id in Step(t, Visit(id, worker, moment)).jobs
            && (moment >= from <==> Step(t, Visit(id, worker, moment)).jobs[id].state == Leased)
            && (moment >= from ==> Step(t, Visit(id, worker, moment)).jobs[id].fence == s.jobs[id].fence + 1)
  {
    hide Step, Intact;
    var t := Step(s, e);
    StateChangesExactly(s, e, id);
    ScopesStay(s, e);
    SameScopes(s, t, s.jobs[id], t.jobs[id]);
    StateChangesExactly(t, Visit(id, worker, moment), id);
    assert Brings(t, Visit(id, worker, moment), id, Leased) <==> from <= moment;
  }

  lemma {:induction false} ScopesStay(s: State, e: Event)
    requires !e.ChangeScope?
    ensures Step(s, e).scopes == s.scopes
  {
    hide ScopeValid;
  }

  lemma {:induction false} SameScopes(s: State, t: State, a: Job, b: Job)
    requires s.scopes == t.scopes && a.captured == b.captured && a.user == b.user && a.kind == b.kind
    ensures Intact(s, a) <==> Intact(t, b)
  {
  }

  /** How often a job was leased. */
  ghost function Grants(h: seq<Event>, id: JobId): nat {
    if h == [] then 0 else
    var rest := h[..|h| - 1];
    Grants(rest, id)
    + if id in Run(EMPTY, rest).jobs && Brings(Run(EMPTY, rest), h[|h| - 1], id, Leased) then 1 else 0
  }

  /** The attempt count and the generation of a job are the number of times it was leased. */
  lemma {:induction false} AttemptsAreGrants(h: seq<Event>, id: JobId)
    ensures id in Run(EMPTY, h).jobs ==>
      Run(EMPTY, h).jobs[id].attempts == Run(EMPTY, h).jobs[id].fence == Grants(h, id)
    ensures id !in Run(EMPTY, h).jobs ==> Grants(h, id) == 0
  {
    hide Step, Run, Brings;
    if h == [] {
      RunNil(EMPTY);
    } else {
      var rest, e := h[..|h| - 1], h[|h| - 1];
      AttemptsAreGrants(rest, id);
      Latest(h);
      var s := Run(EMPTY, rest);
      if id in s.jobs {
        StateChangesExactly(s, e, id);
        LeasedCounts(s, e, id);
      } else if id in Run(EMPTY, h).jobs {
        RunIsValid(rest);
        StepKeepsNew(s, e, id);
        EnqueuedIsQueued(s, e);
      }
    }
  }

  lemma {:induction false} LeasedCounts(s: State, e: Event, id: JobId)
    requires id in s.jobs && ChangesExactly(s, e, id)
    ensures var more := if Brings(s, e, id, Leased) then 1 else 0;
            && Step(s, e).jobs[id].attempts == s.jobs[id].attempts + more
            && Step(s, e).jobs[id].fence == s.jobs[id].fence + more
  {
    hide Step, Intact;
  }

  /** Every claim names a job that succeeded with it: same owner, kind and calculation, same result. */
  lemma {:induction false} ClaimsHaveJobs(h: seq<Event>, key: ClaimKey)
    requires key in Run(EMPTY, h).claims
    ensures var s := Run(EMPTY, h);
            var claim := s.claims[key];
            && claim.job in s.jobs
            && var job := s.jobs[claim.job];
               && job.state == Succeeded && job.user == Some(key.user) && job.kind == key.kind
               && job.terminalHash == Some(key.hash) && job.terminalResult == Some(claim.result)
  {
    hide Step, Run, Brings;
    RunNil(EMPTY);
    Latest(h);
    var rest, e := h[..|h| - 1], h[|h| - 1];
    var s := Run(EMPTY, rest);
    StepTouches(s, e);
    if key in s.claims {
      ClaimsHaveJobs(rest, key);
      TerminalStays(s, e, s.claims[key].job);
    } else {
      ClaimsChangeExactly(s, e, key);
      StateChangesExactly(s, e, e.lease.job);
      FinalizedRow(s, e);
    }
  }

  lemma {:induction false} FinalizedRow(s: State, e: Event)
    requires e.Finalize? && e.lease.job in s.jobs && Brings(s, e, e.lease.job, Succeeded)
    ensures s.jobs[e.lease.job].state == Running && s.jobs[e.lease.job].user == Some(e.user)
  {
    hide Intact;
  }

  // ----- leasing -----

  lemma {:induction false} GrantedExactly(s: State, id: JobId, worker: Worker, now: int)
    ensures VisitJob(s, id, worker, now).1.Some? <==> id in s.jobs && Brings(s, Visit(id, worker, now), id, Leased)
    ensures VisitJob(s, id, worker, now).1.Some? ==>
      VisitJob(s, id, worker, now).1.value
        == Lease(id, worker, s.jobs[id].fence + 1, s.jobs[id].kind, s.jobs[id].captured.Keys)
  {
    hide ScopeValid, Intact;
    if id in s.jobs {
      IntactIsScopeValid(s, s.jobs[id]);
    }
  }

  /** First come, first served: a job that leasing visits is due and of a kind that was asked for, and no
      other such job was created earlier, or at the same time under a smaller id. */
  lemma {:induction false} VisitedIsFirst(
      s: State, events: seq<Event>, kinds: set<Kind>, worker: Worker, now: int, i: nat, other: JobId)
    requires Leasing(s, events, kinds, worker, now) && i < |events| && events[i].Visit?
    ensures var jobs := Run(s, events[..i]).jobs;
            var id := events[i].id;
            && id in jobs && Due(jobs[id], now) && jobs[id].kind in kinds && events[i].now == now
            && (other in jobs && Due(jobs[other], now) && jobs[other].kind in kinds ==>
                  || jobs[id].createdAt < jobs[other].createdAt
                  || (jobs[id].createdAt == jobs[other].createdAt && id <= other))
  {
    hide Run;
    assert OldestWaiting(Run(s, events[..i]), kinds, now, events[i].id);
    assert Waits(Run(s, events[..i]), kinds, now, other) || !Waits(Run(s, events[..i]), kinds, now, other);
  }

  /** When leasing ends without a lease, nothing of the kinds asked for is due. */
  lemma {:induction false} NothingDue(s: State, kinds: set<Kind>, now: int, id: JobId)
    requires forall other :: !Waits(s, kinds, now, other)
    ensures id in s.jobs && s.jobs[id].kind in kinds ==> !Due(s.jobs[id], now)
  {
    assert !Waits(s, kinds, now, id);
  }

  /** A rescue is of a lease that ran out: the leases counted as overdue are the late ones. */
  lemma {:induction false} OverdueIsLate(s: State, now: int, id: JobId)
    ensures id in OverdueIds(s, now) <==> id in s.jobs && Late(s.jobs[id], now)
  {
  }
}
