/** The tables of the control plane (the SQL files under migrations) as finite maps. */
module Schema {
  import opened Base
  import opened Totals

  // UUIDs are opaque identities. Project UUIDs are also ordered, as 128-bit numbers.
  type JobId = nat
  type AttemptId = nat
  type WorkerId = nat
  type SessionId = nat
  type SweepId = nat
  type RequestId = nat
  type ContainerId = nat
  const UUID_SPACE: int := 0x1_0000_0000_0000_0000_0000_0000_0000_0000
  type ProjectId = p: int | 0 <= p < UUID_SPACE

  datatype Reason =
    | WorkerLost | RuntimeUnavailable | TransferFailed | ApplicationExit | Oom | StartupTimeout
    | ExecutionTimeout | OutputInvalid | UserCancelled | FinalizationTimeout

  datatype JobState = Queued | Active | RetryWait | Cancelling | Succeeded | Failed | Cancelled

  datatype AttemptState = Assigned | Starting | Running | Finalizing | Succeeded | Failed | Lost | Cancelled

  datatype HoldState = Held | Released | Quarantined

  datatype WorkerState = Registering | Ready | Draining | Suspect | Offline | Quarantined

  datatype Retry = Retry(maxAttempts: int, on: set<Reason>, initialBackoff: int, maxBackoff: int)

  /** The frozen specification: resources in millicores and MiB, timeouts in seconds. */
  datatype JobSpec = JobSpec(
    cpu: int, memory: int, scratch: int,
    startup: int, execution: int, finalization: int,
    retry: Retry, labels: map<string, string>)

  datatype Job = Job(
    project: ProjectId, sweep: Option<SweepId>, spec: JobSpec, priority: int, created: Time,
    state: JobState, counter: int, current: Option<AttemptId>, accepted: Option<AttemptId>,
    cancelRequested: bool, nextEligible: Time)

  datatype Sweep = Sweep(maxConcurrent: int, failFast: bool, cancelRunning: bool)

  datatype Attempt = Attempt(
    job: JobId, number: int, worker: WorkerId, session: SessionId, state: AttemptState,
    assignedAt: Time, lease: Time, phase: Time,
    container: Option<ContainerId>, exit: Option<int>, reason: Option<Reason>, cleanupPending: bool)

  datatype Reservation = Reservation(worker: WorkerId, load: Load, state: HoldState)

  datatype Session = Session(
    worker: WorkerId, generation: int, created: Time, fenced: Option<Time>,
    registration: Registration, heartbeat: int, lastReport: Option<HeartbeatReport>)

  datatype Worker = Worker(
    current: Option<SessionId>, state: WorkerState, healthy: bool, reconciled: bool,
    diskPressure: bool, drain: bool, lastHeartbeat: Option<Time>, claim: Load,
    labels: map<string, string>, softScratch: bool)

  datatype Project = Project(cpuQuota: int, memoryQuota: int, slotQuota: int, enabled: bool)

  /** Operator-provisioned limits of a host (worker_authorizations). */
  datatype Ceiling = Ceiling(limit: Load, labels: map<string, string>)

  datatype Authority = Authority(
    job: JobId, attempt: AttemptId, generation: int, worker: WorkerId, session: SessionId)

  /** A registration's digest-bound claims; its request identity is kept apart. */
  datatype Registration = Registration(
    session: SessionId, claim: Load, labels: map<string, string>, softScratch: bool)

  datatype Takeover = Takeover(to: SessionId, used: bool)

  datatype Execution = Execution(authority: Authority, container: ContainerId)

  datatype HeartbeatReport = HeartbeatReport(
    request: RequestId, session: SessionId, sequence: int, healthy: bool, diskPressure: bool,
    reconciled: bool, inventory: set<Execution>)

  datatype Decision = Accepted | Fenced | StopRequested | AlreadyTerminal

  datatype LeaseGrant = LeaseGrant(
    authority: Authority, decision: Decision, lease: Option<Time>, phase: Option<Time>, serverTime: Time)

  datatype NoWork =
    | QueueEmpty | NoResourceFit | ProjectQuota | SweepConcurrency | PlacementMismatch | WorkerNotReady

  /** Replay records of acquisition, renewal, phase and completion requests. */
  datatype AcquisitionRecord = AcquiredAttempt(attempt: AttemptId) | AcquiredNothing(why: NoWork)

  datatype RenewalRecord = RenewalRecord(members: set<Authority>, grants: map<AttemptId, LeaseGrant>)

  datatype PhaseReport = PhaseReport(
    authority: Authority, event: RequestId, phase: AttemptState,
    container: Option<ContainerId>, exit: Option<int>)

  /** `payload` stands for the remaining digest-bound evidence (outputs, gaps, metrics). */
  datatype CompletionRequest = CompletionRequest(
    authority: Authority, completion: RequestId, exit: Option<int>, reason: Option<Reason>,
    stopped: bool, payload: nat)

  datatype CompletionRecord = CompletionRecord(request: CompletionRequest, state: AttemptState)

  datatype RequestKey = RequestKey(worker: WorkerId, session: SessionId, request: RequestId)

  datatype Db = Db(
    clock: Time,
    projects: map<ProjectId, Project>,
    ceilings: map<WorkerId, Ceiling>,
    access: set<(WorkerId, ProjectId)>,
    sweeps: map<SweepId, Sweep>,
    jobs: map<JobId, Job>,
    attempts: map<AttemptId, Attempt>,
    reservations: map<AttemptId, Reservation>,
    workers: map<WorkerId, Worker>,
    sessions: map<SessionId, Session>,
    takeovers: map<(WorkerId, SessionId), Takeover>,
    registrations: map<(WorkerId, RequestId), Registration>,
    acquisitions: map<RequestKey, AcquisitionRecord>,
    renewals: map<RequestKey, RenewalRecord>,
    reports: map<RequestKey, PhaseReport>,
    completions: map<AttemptId, CompletionRecord>,
    cursor: Option<ProjectId>)

  predicate IsActive(s: AttemptState)
  {
    s.Assigned? || s.Starting? || s.Running? || s.Finalizing?
  }

  predicate IsTerminal(s: JobState)
  {
    s.Succeeded? || s.Failed? || s.Cancelled?
  }

  predicate IsWaiting(s: JobState)
  {
    s.Queued? || s.RetryWait?
  }

  predicate IsOwned(s: JobState)
  {
    s.Active? || s.Cancelling?
  }

  function AuthorityOf(id: AttemptId, a: Attempt): Authority
  {
    Authority(a.job, id, a.number, a.worker, a.session)
  }

  /** Bounds enforced when a specification is admitted (internal/spec/job.go). */
  predicate ValidSpec(s: JobSpec)
  {
    && 1 <= s.cpu <= 1_024_000 && 1 <= s.memory <= 16_777_216 && 1 <= s.scratch <= 1_073_741_824
    && 1 <= s.startup <= 3600 && 1 <= s.execution <= 604_800 && 1 <= s.finalization <= 3600
    && 1 <= s.retry.maxAttempts <= 10
    && 1 <= s.retry.initialBackoff <= s.retry.maxBackoff <= 3600
    && s.retry.on <= {WorkerLost, RuntimeUnavailable, TransferFailed}
  }

  function LoadOf(s: JobSpec): Load
    requires ValidSpec(s)
  {
    Load(s.cpu, s.memory, s.scratch, 1)
  }

  /** requireCurrentWorkerSession: the incarnation is current and unfenced. */
  predicate CurrentSession(db: Db, w: WorkerId, s: SessionId)
  {
    && w in db.workers && db.workers[w].current == Some(s)
    && s in db.sessions && db.sessions[s].worker == w && db.sessions[s].fenced.None?
  }

  /** Physical capacity a worker's rows hold: active and quarantined reservations. */
  function HeldBy(db: Db, w: WorkerId): map<nat, Load>
  {
    map a | a in db.reservations && db.reservations[a].worker == w && !db.reservations[a].state.Released?
      :: db.reservations[a].load
  }

  predicate ActiveChild(db: Db, a: AttemptId)
  {
    a in db.attempts && IsActive(db.attempts[a].state) && db.attempts[a].job in db.jobs
  }

  /** Reservations of a project's active attempts. */
  function ProjectRows(db: Db, p: ProjectId): map<nat, Load>
  {
    map a | a in db.attempts && ActiveChild(db, a) && a in db.reservations
            && db.jobs[db.attempts[a].job].project == p
      :: db.reservations[a].load
  }

  /** Active attempts of a sweep's children. */
  function SweepRows(db: Db, s: SweepId): set<AttemptId>
  {
    set a | a in db.attempts && ActiveChild(db, a) && db.jobs[db.attempts[a].job].sweep == Some(s)
  }
}
