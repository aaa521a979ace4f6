/** The control plane's pure decisions: who may act, until when, and what an ending means. */
module Decisions {
  import opened Base
  import opened Schema

  const INITIAL_LEASE: Time := 30 * SECOND
  const SUSPECT_AFTER: Time := 15 * SECOND
  const SESSION_INACTIVITY: Time := 30 * SECOND

  /** leaseDecision over the rows that lockLeaseBatch read. */
  function LeaseDecision(db: Db, auth: Authority, now: Time): Decision
  {
    if auth.attempt !in db.attempts || auth != AuthorityOf(auth.attempt, db.attempts[auth.attempt]) then Fenced
    else
      var a := db.attempts[auth.attempt];
      if !IsActive(a.state) then AlreadyTerminal
      else if auth.job !in db.jobs || db.jobs[auth.job].current != Some(auth.attempt) || a.lease <= now then Fenced
      else if db.jobs[auth.job].cancelRequested || a.phase <= now then StopRequested
      else Accepted
  }

  /** A confirmed cancellation resolves stop intent, inside live authority only. */
  function CompletionDecision(db: Db, r: CompletionRequest, now: Time): Decision
  {
    var decision := LeaseDecision(db, r.authority, now);
    if decision.StopRequested? && db.jobs[r.authority.job].cancelRequested && r.reason == Some(UserCancelled)
       && r.stopped && db.attempts[r.authority.attempt].phase > now
    then Accepted
    else decision
  }

  predicate CompletionPhaseOk(r: CompletionRequest, a: Attempt, cancelled: bool)
  {
    && a.exit == r.exit
    && match r.reason
       case None => a.state.Finalizing?
       case Some(ApplicationExit) => a.state.Finalizing?
       case Some(Oom) => a.state.Finalizing?
       case Some(OutputInvalid) => a.state.Finalizing?
       case Some(FinalizationTimeout) => a.state.Finalizing?
       case Some(StartupTimeout) => a.state.Assigned? || a.state.Starting?
       case Some(ExecutionTimeout) => a.state.Running? || a.state.Finalizing?
       case Some(UserCancelled) => cancelled && r.stopped
       case Some(_) => true
  }

  /** normalizeCompletion's checks on the outcome fields. */
  predicate CompletionWellFormed(r: CompletionRequest)
  {
    && 1 <= r.authority.generation
    && (r.exit.Some? ==> 0 <= r.exit.value <= 255)
    && r.reason != Some(WorkerLost)
    && (r.reason.None? ==> r.exit == Some(0) && r.stopped)
    && (r.reason == Some(ApplicationExit) ==> r.exit.Some? && r.exit.value != 0)
  }

  function ExpiredPhaseReason(state: AttemptState, lease: Time, phase: Time, now: Time): Option<Reason>
  {
    if phase > now || lease < phase then None
    else match state
      case Assigned => Some(StartupTimeout)
      case Starting => Some(StartupTimeout)
      case Running => Some(ExecutionTimeout)
      case Finalizing => Some(FinalizationTimeout)
      case _ => None
  }

  predicate PhaseReportWellFormed(r: PhaseReport)
  {
    && 1 <= r.authority.generation
    && match r.phase
       case Starting => r.container.None? && r.exit.None?
       case Running => r.container.Some? && r.exit.None?
       case Finalizing => r.container.Some? && r.exit.Some? && 0 <= r.exit.value <= 255
       case _ => false
  }

  function NextPhaseDeadline(r: PhaseReport, a: Attempt, spec: JobSpec, now: Time): Result<Time>
  {
    if a.container.Some? && r.container != a.container then Err(ErrConflict)
    else if a.state == r.phase then
      if a.exit != r.exit then Err(ErrConflict) else Ok(a.phase)
    else if a.state.Assigned? && r.phase.Starting? then Ok(a.phase)
    else if a.state.Starting? && r.phase.Running? then Ok(now + spec.execution * SECOND)
    else if (a.state.Starting? || a.state.Running?) && r.phase.Finalizing? then Ok(now + spec.finalization * SECOND)
    else Err(ErrConflict)
  }

  function Pow2(n: nat): nat
  {
    if n == 0 then 1 else 2 * Pow2(n - 1)
  }

  /** Backoff before jitter: doubling from the initial value, capped. */
  function Backoff(retry: Retry, number: int): Time
    requires 1 <= retry.initialBackoff <= retry.maxBackoff
  {
    Min(retry.initialBackoff * SECOND * Pow2(Max(number - 1, 0)), retry.maxBackoff * SECOND)
  }

  /** Equal jitter in the upper half of the backoff; `hash` is the attempt's SHA-256 prefix. */
  function RetryDelay(retry: Retry, number: int, hash: nat): (delay: Time)
    requires 1 <= retry.initialBackoff <= retry.maxBackoff
    ensures Backoff(retry, number) / 2 <= delay <= Backoff(retry, number)
    ensures SECOND / 2 <= delay <= retry.maxBackoff * SECOND
  {
    BackoffBounds(retry, number);
    var base := Backoff(retry, number);
    var half := base / 2;
    half + hash % (base - half + 1)
  }

  lemma BackoffBounds(retry: Retry, number: int)
    requires 1 <= retry.initialBackoff <= retry.maxBackoff
    ensures SECOND <= Backoff(retry, number) <= retry.maxBackoff * SECOND
  {
    var n := Max(number - 1, 0);
    Pow2Positive(n);
    var p, i := Pow2(n), retry.initialBackoff;
    assert i * SECOND * p >= i * SECOND * 1 by {
      MulMonotone(i * SECOND, 1, p);
    }
  }

  lemma MulMonotone(a: int, b: int, c: int)
    requires 0 <= a && b <= c
    ensures a * b <= a * c
  {
  }

  lemma Pow2Positive(n: nat)
    ensures Pow2(n) >= 1
  {
  }

  /** The doubling loop stops at the cap and computes the closed form. */
  method ComputeRetryDelay(retry: Retry, number: int, hash: nat) returns (delay: Time)
    requires 1 <= retry.initialBackoff <= retry.maxBackoff
    ensures delay == RetryDelay(retry, number, hash)
  {
    var base := retry.initialBackoff * SECOND;
    var maximum := retry.maxBackoff * SECOND;
    var n := 1;
    while n < number && base < maximum
      invariant 1 <= n && (n <= number || n == 1)
      invariant base == Backoff(retry, n)
    {
      BackoffStep(retry, n);
      base := Min(base * 2, maximum);
      n := n + 1;
    }
    if n < number {
      BackoffCapped(retry, n, number);
    }
    var half := base / 2;
    BackoffBounds(retry, number);
    delay := half + hash % (base - half + 1);
  }

  lemma BackoffStep(retry: Retry, n: int)
    requires 1 <= n && 1 <= retry.initialBackoff <= retry.maxBackoff
    requires Backoff(retry, n) < retry.maxBackoff * SECOND
    ensures Backoff(retry, n + 1) == Min(Backoff(retry, n) * 2, retry.maxBackoff * SECOND)
  {
    var u := retry.initialBackoff * SECOND;
    var p := Pow2(n - 1);
    assert Pow2(n) == 2 * p;
    assert u * (2 * p) == u * p * 2;
  }

  lemma {:induction false} BackoffCapped(retry: Retry, n: int, number: int)
    requires 1 <= n <= number && 1 <= retry.initialBackoff <= retry.maxBackoff
    requires Backoff(retry, n) == retry.maxBackoff * SECOND
    ensures Backoff(retry, number) == retry.maxBackoff * SECOND
    decreases number
  {
    if n < number {
      BackoffCapped(retry, n, number - 1);
      var u := retry.initialBackoff * SECOND;
      var p := Pow2(number - 2);
      Pow2Positive(number - 2);
      assert Pow2(number - 1) == 2 * p;
      assert u * (2 * p) == u * p + u * p;
      MulMonotone(u, 0, p);
    }
  }
}
