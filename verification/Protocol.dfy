/** Runs of the control plane: which transactions may commit next, and what they commit. */
module Protocol {
  import opened Base
  import opened Schema
  import opened Transactions

  datatype Action =
    | DoWait(at: Time)
    | DoSubmit(sweep: Option<(SweepId, Sweep)>, children: map<JobId, NewJob>, at: Time)
    | DoCancel(project: ProjectId, job: JobId, at: Time)
    | DoDrain(worker: WorkerId, at: Time)
    | DoAcquire(acquire: AcquireCall)
    | DoRenew(renew: RenewCall)
    | DoReportPhase(worker: WorkerId, report: PhaseReport, at: Time)
    | DoComplete(complete: CompleteCall, hash: Hash)
    | DoApproveTakeover(worker: WorkerId, from: SessionId, to: SessionId, at: Time)
    | DoRegister(register: RegisterCall, hash: Hash)
    | DoHeartbeat(worker: WorkerId, beat: HeartbeatReport, at: Time)
    | DoReap(attempt: AttemptId, hash: Hash, at: Time)

  /** First and last reading of the database clock inside the transaction. */
  function Opens(act: Action): Time
  {
    match act
    case DoAcquire(c) => c.selectedAt
    case DoRenew(c) => c.now
    case DoComplete(c, _) => c.now
    case DoRegister(c, _) => c.now
    case DoWait(t) => t
    case DoSubmit(_, _, t) => t
    case DoCancel(_, _, t) => t
    case DoDrain(_, t) => t
    case DoReportPhase(_, _, t) => t
    case DoApproveTakeover(_, _, _, t) => t
    case DoHeartbeat(_, _, t) => t
    case DoReap(_, _, t) => t
  }

  function Closes(act: Action): Time
  {
    match act
    case DoAcquire(c) => c.now
    case DoComplete(c, _) => c.published
    case DoRegister(c, _) => c.stamp
    case _ => Opens(act)
  }

  /** The clock never runs backwards, and SQL returned what its queries ask for. */
  ghost predicate Enabled(db: Db, act: Action)
  {
    && db.clock <= Opens(act) <= Closes(act)
    && match act
       case DoAcquire(c) => c.worker in db.workers ==> IsSelection(db, c.worker, c.selectedAt, c.choice)
       case DoRegister(c, _) => IsRecoveryOrder(db, c.worker, c.order) && IsNextGeneration(db, c.worker, c.generation)
       case _ => true
  }

  ghost function Commit(db: Db, act: Action): Db
  {
    match act
    case DoWait(t) => db
    case DoSubmit(s, children, t) => Submit(db, s, children, t).db
    case DoCancel(p, j, t) => Cancel(db, p, j).db
    case DoDrain(w, t) => Drain(db, w).db
    case DoAcquire(c) => Acquire(db, c).db
    case DoRenew(c) => Renew(db, c).db
    case DoReportPhase(w, r, t) => ReportPhase(db, w, r, t).db
    case DoComplete(c, hash) => Complete(db, c, hash).db
    case DoApproveTakeover(w, from, to, t) => ApproveTakeover(db, w, from, to).db
    case DoRegister(c, hash) => Register(db, c, hash).db
    case DoHeartbeat(w, h, t) => Heartbeat(db, w, h, t).db
    case DoReap(id, hash, t) => Reap(db, id, hash, t).db
  }

  ghost function Apply(db: Db, act: Action): Db
  {
    Commit(db, act).(clock := Closes(act))
  }

  /** A provisioned but idle control plane. */
  predicate Init(db: Db)
  {
    && db.jobs == map[] && db.sweeps == map[] && db.attempts == map[] && db.reservations == map[] && db.sessions == map[]
    && db.takeovers == map[] && db.registrations == map[] && db.acquisitions == map[] && db.renewals == map[]
    && db.reports == map[] && db.completions == map[]
    && db.workers.Keys == db.ceilings.Keys
    && forall w :: w in db.workers ==>
         db.workers[w].current.None? && db.workers[w].state.Registering? && !db.workers[w].reconciled
         && db.workers[w].claim == db.ceilings[w].limit
  }

  ghost predicate Next(db: Db, act: Action, d: Db)
  {
    Enabled(db, act) && d == Apply(db, act)
  }

  ghost predicate Steps(run: seq<Db>, acts: seq<Action>, i: nat)
    requires |run| == |acts| + 1 && i < |acts|
  {
    Next(run[i], acts[i], run[i + 1])
  }

  /** A finite run: `run[i + 1]` is what `acts[i]` commits in `run[i]`. */
  ghost predicate IsRun(run: seq<Db>, acts: seq<Action>)
  {
    && |run| == |acts| + 1 && Init(run[0])
    && forall i: nat {:trigger Steps(run, acts, i)} :: i < |acts| ==> Steps(run, acts, i)
  }
}
