/** The row changes transactions are made of. Every transaction is a short path of these (see Paths),
    so an invariant of every change is an invariant of every transaction. */
module Changes {
  import opened Base
  import opened Schema
  import opened Decisions
  import opened Transactions

  datatype Change =
    | Quiet
    | Enqueue(sweep: Option<(SweepId, Sweep)>, children: map<JobId, NewJob>, at: Time)
    | Stop(job: JobId)
    | Take(call: AcquireCall, job: JobId)
    | Extend(renewal: RenewCall)
    | Advance(report: PhaseReport, deadline: Time, at: Time)
    | End(attempt: AttemptId, ending: Ending, record: Option<CompletionRecord>)
    | SetHost(worker: WorkerId, row: Worker)
    | Reopen(registration: RegisterCall)
    | Beat(worker: WorkerId, beat: HeartbeatReport, at: Time)

  /** Only replay tables, approvals and the clock move. */
  ghost predicate IsQuiet(db: Db, d: Db)
  {
    && d == db.(clock := d.clock, takeovers := d.takeovers, registrations := d.registrations,
                acquisitions := d.acquisitions, reports := d.reports)
    && db.clock <= d.clock
  }

  predicate CanEnqueue(db: Db, sweep: Option<(SweepId, Sweep)>, children: map<JobId, NewJob>, now: Time)
  {
    && SubmissionValid(sweep, children) && SubmissionNew(db, sweep, children) && db.clock <= now
    && forall j :: j in children ==> children[j].project in db.projects
  }

  predicate CanStop(db: Db, id: JobId)
  {
    id in db.jobs && (db.jobs[id].state.Active? || IsWaiting(db.jobs[id].state))
  }

  ghost predicate CanTake(db: Db, c: AcquireCall, id: JobId)
  {
    && CurrentSession(db, c.worker, c.session) && c.newId !in db.attempts && db.clock <= c.now
    && id in db.jobs && ValidSpec(db.jobs[id].spec) && IsWaiting(db.jobs[id].state)
    && Readiness(db.workers[c.worker], c.allowSoft, c.now).None?
    && FitsWorker(db, c.worker, db.jobs[id].spec) && FitsProject(db, db.jobs[id].project, db.jobs[id].spec)
    && FitsSweep(db, db.jobs[id].sweep)
  }

  predicate CanExtend(db: Db, c: RenewCall)
  {
    && RenewalWellFormed(c) && CurrentSession(db, c.worker, c.session) && db.clock <= c.now
    && RequestKey(c.worker, c.session, c.request) !in db.renewals
  }

  predicate CanAdvance(db: Db, r: PhaseReport, deadline: Time, now: Time)
  {
    && PhaseReportWellFormed(r) && db.clock <= now && LeaseDecision(db, r.authority, now).Accepted?
    && db.attempts[r.authority.attempt].state != r.phase
    && NextPhaseDeadline(r, db.attempts[r.authority.attempt], db.jobs[r.authority.job].spec, now) == Ok(deadline)
  }

  /** What completion and fencing guarantee about the ending they apply. */
  predicate EndingOk(db: Db, id: AttemptId, e: Ending)
    requires id in db.attempts && db.attempts[id].job in db.jobs
  {
    var j := db.jobs[db.attempts[id].job];
    && !IsActive(e.state) && !e.hold.Held?
    && (e.next.RetryWait? || IsTerminal(e.next))
    && (e.next.Succeeded? <==> e.accepted.Some?) && (e.accepted.Some? ==> e.accepted.value == id && e.state.Succeeded?)
    && (e.next.Cancelled? <==> j.cancelRequested)
    && (e.next.RetryWait? ==> j.counter < j.spec.retry.maxAttempts)
    && (e.state.Succeeded? ==> e.next.Succeeded?)
  }

  /** With a completion record, or without one on a host that is out of service. */
  predicate CanEnd(db: Db, id: AttemptId, e: Ending, record: Option<CompletionRecord>)
  {
    && id in db.attempts && id in db.reservations && db.attempts[id].job in db.jobs && IsActive(db.attempts[id].state)
    && EndingOk(db, id, e) && id !in db.completions
    && match record
       case Some(r) => r.state == e.state && r.request.authority == AuthorityOf(id, db.attempts[id])
       case None => e.hold.Quarantined? && e.accepted.None? && HostOut(db, db.attempts[id].worker)
  }

  function Ended(db: Db, id: AttemptId, e: Ending, record: Option<CompletionRecord>): Db
    requires id in db.attempts && id in db.reservations && db.attempts[id].job in db.jobs
  {
    var d := Settle(db, id, e);
    if record.Some? then d.(completions := db.completions[id := record.value]) else d
  }

  predicate HostOut(db: Db, w: WorkerId)
  {
    w in db.workers && !db.workers[w].reconciled && !db.workers[w].state.Ready?
  }

  predicate CanSetHost(db: Db, w: WorkerId, row: Worker)
  {
    && w in db.workers
    && row == db.workers[w].(state := row.state, reconciled := row.reconciled, drain := row.drain)
    && (row.reconciled ==> db.workers[w].reconciled) && (row.state.Ready? ==> db.workers[w].state.Ready?)
  }

  predicate CanReopen(db: Db, c: RegisterCall)
  {
    && c.worker in db.workers && c.worker in db.ceilings && db.clock <= c.now <= c.stamp
    && c.claims.session !in db.sessions && ClaimsWithin(c.claims, db.ceilings[c.worker])
    && IsNextGeneration(db, c.worker, c.generation)
    && forall id :: id in db.attempts && db.attempts[id].worker == c.worker ==> !IsActive(db.attempts[id].state)
  }

  function Reopened(db: Db, c: RegisterCall): Db
    requires c.worker in db.workers
  {
    OpenSession(db.(sessions := FencedSessions(db, c.worker, c.now)), c)
  }

  predicate CanBeat(db: Db, w: WorkerId, h: HeartbeatReport, now: Time)
  {
    && HeartbeatWellFormed(w, h) && CurrentSession(db, w, h.session) && db.clock <= now
    && db.sessions[h.session].heartbeat < h.sequence
  }

  ghost predicate Makes(db: Db, ch: Change, d: Db)
  {
    match ch
    case Quiet => IsQuiet(db, d)
    case Enqueue(sweep, children, t) => CanEnqueue(db, sweep, children, t) && d == Submitted(db, sweep, children, t)
    case Stop(j) => CanStop(db, j) && d == db.(jobs := db.jobs[j := StoppedBySibling(db.jobs[j], true)])
    case Take(c, j) => CanTake(db, c, j) && d == Assign(db, c, j)
    case Extend(c) => CanExtend(db, c) && d == Renewed(db, c)
    case Advance(r, t, now) =>
      CanAdvance(db, r, t, now) && d == Advanced(db, r, t, now)
    case End(id, e, record) => CanEnd(db, id, e, record) && d == Ended(db, id, e, record)
    case SetHost(w, row) => CanSetHost(db, w, row) && d == db.(workers := db.workers[w := row])
    case Reopen(c) => CanReopen(db, c) && d == Reopened(db, c)
    case Beat(w, h, now) => CanBeat(db, w, h, now) && d == Beaten(db, w, h, now)
  }

  /** Changes made one after another; each link names the state it starts from. */
  datatype Path = Start | Then(before: Path, mid: Db, change: Change)

  ghost predicate Leads(db: Db, p: Path, d: Db)
  {
    match p
    case Start => d == db
    case Then(before, mid, ch) => Leads(db, before, mid) && Makes(mid, ch, d)
  }

  // --------------------------------------------- stopping siblings, as a relation

  /** Some jobs were asked to stop, nothing else changed. */
  ghost predicate OnlyStops(db: Db, d: Db)
  {
    && d == db.(jobs := d.jobs) && d.jobs.Keys == db.jobs.Keys
    && forall j {:trigger d.jobs[j]} :: j in db.jobs ==>
         d.jobs[j] == db.jobs[j] || d.jobs[j] == StoppedBySibling(db.jobs[j], true) || d.jobs[j] == StoppedBySibling(db.jobs[j], false)
  }

  lemma FailFastOnlyStops(db: Db, failed: JobId)
    ensures OnlyStops(db, FailFast(db, failed))
  {
  }

  lemma SettleOnlyStops(db: Db, id: AttemptId, e: Ending)
    requires id in db.attempts && id in db.reservations && db.attempts[id].job in db.jobs
    ensures OnlyStops(EndAttempt(db, id, e), Settle(db, id, e))
  {
    FailFastOnlyStops(EndAttempt(db, id, e), db.attempts[id].job);
  }

  function EndedAttempt(a: Attempt, e: Ending): Attempt
  {
    a.(state := e.state, reason := e.reason, exit := e.exit, cleanupPending := e.hold.Quarantined?)
  }

  /** The rows an ending touches, with the sweep's reaction confined to `jobs`. */
  lemma EndedShape(db: Db, id: AttemptId, e: Ending, record: Option<CompletionRecord>, d: Db)
    requires id in db.attempts && id in db.reservations && db.attempts[id].job in db.jobs
    requires d == Ended(db, id, e, record)
    ensures d == db.(attempts := db.attempts[id := EndedAttempt(db.attempts[id], e)],
                     reservations := db.reservations[id := db.reservations[id].(state := e.hold)],
                     jobs := Settle(db, id, e).jobs,
                     completions := if record.Some? then db.completions[id := record.value] else db.completions)
  {
    var x := Settle(db, id, e);
    assert x == EndAttempt(db, id, e).(jobs := x.jobs);
  }

  lemma OpenSessionFrame(db: Db, c: RegisterCall)
    requires c.worker in db.workers
    ensures OpenSession(db, c).reservations == db.reservations && OpenSession(db, c).attempts == db.attempts
    ensures OpenSession(db, c).cursor == db.cursor && OpenSession(db, c).reports == db.reports
  {
  }

  /** Changes that leave jobs, sweeps and completions alone and create no attempt. */
  predicate HostsOnly(ch: Change)
  {
    ch.Quiet? || ch.Extend? || ch.Advance? || ch.SetHost? || ch.Reopen? || ch.Beat?
  }

  lemma HostsOnlyFrame(db: Db, ch: Change, d: Db)
    requires Makes(db, ch, d) && HostsOnly(ch)
    ensures d.jobs == db.jobs && d.sweeps == db.sweeps && d.completions == db.completions
    ensures d.attempts.Keys == db.attempts.Keys && d.reservations.Keys == db.reservations.Keys
  {
  }
}
