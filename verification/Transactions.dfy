/** Each committed transaction of internal/store as one atomic step over the tables. */
module Transactions {
  import opened Base
  import opened Totals
  import opened Schema
  import opened Decisions

  /** SHA-256 prefix of an attempt id, the source of retry jitter. */
  type Hash = AttemptId -> nat

  /** Tables after a transaction and what it answered; an error leaves the tables alone.
      `clock` is the latest database time a committed deadline was computed from. */
  datatype Step<+R> = Step(db: Db, reply: Result<R>)

  // ---------------------------------------------------------------- endings

  datatype Ending = Ending(
    state: AttemptState, reason: Option<Reason>, exit: Option<int>, hold: HoldState,
    next: JobState, accepted: Option<AttemptId>, eligible: Time)

  /** The row updates shared by completion and fencing. */
  function EndAttempt(db: Db, id: AttemptId, e: Ending): Db
    requires id in db.attempts && id in db.reservations && db.attempts[id].job in db.jobs
  {
    var a := db.attempts[id];
    var j := db.jobs[a.job];
    db.(attempts := db.attempts[id := a.(state := e.state, reason := e.reason, exit := e.exit,
                                         cleanupPending := e.hold.Quarantined?)],
        reservations := db.reservations[id := db.reservations[id].(state := e.hold)],
        jobs := db.jobs[a.job := j.(state := e.next, current := None, accepted := e.accepted,
                                    nextEligible := e.eligible)])
  }

  function StoppedBySibling(j: Job, cancelRunning: bool): Job
  {
    if IsWaiting(j.state) then j.(state := JobState.Cancelled, cancelRequested := true)
    else if j.state.Active? && cancelRunning then j.(state := Cancelling, cancelRequested := true)
    else j
  }

  predicate FailsFast(jobs: map<JobId, Job>, sweeps: map<SweepId, Sweep>, failed: JobId)
  {
    && failed in jobs && jobs[failed].state.Failed? && jobs[failed].sweep.Some?
    && jobs[failed].sweep.value in sweeps && sweeps[jobs[failed].sweep.value].failFast
  }

  function SiblingsStopped(jobs: map<JobId, Job>, sweeps: map<SweepId, Sweep>, failed: JobId): map<JobId, Job>
  {
    if !FailsFast(jobs, sweeps, failed) then jobs
    else
      var s := jobs[failed].sweep;
      map j | j in jobs ::
        if j != failed && jobs[j].sweep == s then StoppedBySibling(jobs[j], sweeps[s.value].cancelRunning) else jobs[j]
  }

  /** applySweepFailFast: one bulk update of the failed child's siblings. */
  function FailFast(db: Db, failed: JobId): Db
  {
    db.(jobs := SiblingsStopped(db.jobs, db.sweeps, failed))
  }

  /** How fencing ends an attempt whose job row is `j`. */
  function FenceEnding(j: Job, a: Attempt, hash: nat, now: Time): Ending
    requires ValidSpec(j.spec)
  {
    var timeout := ExpiredPhaseReason(a.state, a.lease, a.phase, now);
    if j.cancelRequested then
      Ending(AttemptState.Cancelled, Some(UserCancelled), a.exit, HoldState.Quarantined, JobState.Cancelled, j.accepted, now)
    else if timeout.Some? then
      Ending(AttemptState.Failed, timeout, a.exit, HoldState.Quarantined, JobState.Failed, j.accepted, now)
    else if j.counter < j.spec.retry.maxAttempts && WorkerLost in j.spec.retry.on then
      Ending(Lost, Some(WorkerLost), a.exit, HoldState.Quarantined, RetryWait, j.accepted,
             now + RetryDelay(j.spec.retry, j.counter, hash))
    else
      Ending(Lost, Some(WorkerLost), a.exit, HoldState.Quarantined, JobState.Failed, j.accepted, now)
  }

  /** An ending and, when it fails its job, the sweep's reaction. */
  function Settle(db: Db, id: AttemptId, e: Ending): Db
    requires id in db.attempts && id in db.reservations && db.attempts[id].job in db.jobs
  {
    var ended := EndAttempt(db, id, e);
    if e.next.Failed? then FailFast(ended, db.attempts[id].job) else ended
  }

  /** The rows fenceLostAttempt reads or updates are all there; otherwise it returns an error. */
  predicate Fenceable(db: Db, id: AttemptId)
  {
    && id in db.attempts && db.attempts[id].job in db.jobs
    && db.jobs[db.attempts[id].job].current == Some(id) && ValidSpec(db.jobs[db.attempts[id].job].spec)
    && id in db.reservations && db.reservations[id].state.Held?
  }

  function FenceLost(db: Db, id: AttemptId, hash: Hash, now: Time): Result<Db>
  {
    if !Fenceable(db, id) then Err(ErrInternal)
    else
      Ok(Settle(db, id, FenceEnding(db.jobs[db.attempts[id].job], db.attempts[id], hash(id), now)))
  }

  function FenceAll(db: Db, ids: seq<AttemptId>, hash: Hash, now: Time): Result<Db>
  {
    if ids == [] then Ok(db)
    else
      var before := FenceAll(db, ids[..|ids| - 1], hash, now);
      if before.Err? then before else FenceLost(before.value, ids[|ids| - 1], hash, now)
  }

  // ------------------------------------------------------------- submission

  datatype NewJob = NewJob(project: ProjectId, spec: JobSpec, priority: int)

  predicate SubmissionValid(sweep: Option<(SweepId, Sweep)>, children: map<JobId, NewJob>)
  {
    && (forall j :: j in children ==> ValidSpec(children[j].spec) && 0 <= children[j].priority <= 3)
    && (sweep.Some? ==> 1 <= sweep.value.1.maxConcurrent && (sweep.value.1.cancelRunning ==> sweep.value.1.failFast))
  }

  predicate SubmissionNew(db: Db, sweep: Option<(SweepId, Sweep)>, children: map<JobId, NewJob>)
  {
    children.Keys !! db.jobs.Keys && (sweep.Some? ==> sweep.value.0 !in db.sweeps)
  }

  function QueuedJob(n: NewJob, sweep: Option<SweepId>, now: Time): Job
  {
    Job(n.project, sweep, n.spec, n.priority, now, Queued, 0, None, None, false, now)
  }

  function Submitted(db: Db, sweep: Option<(SweepId, Sweep)>, children: map<JobId, NewJob>, now: Time): Db
  {
    var id := if sweep.Some? then Some(sweep.value.0) else None;
    db.(jobs := db.jobs + (map j | j in children :: QueuedJob(children[j], id, now)),
        sweeps := if sweep.Some? then db.sweeps[sweep.value.0 := sweep.value.1] else db.sweeps)
  }

  /** A job, or a sweep with all its children, enters the queue in one transaction. */
  function Submit(db: Db, sweep: Option<(SweepId, Sweep)>, children: map<JobId, NewJob>, now: Time): Step<()>
  {
    if !SubmissionValid(sweep, children) then Step(db, Err(ErrInvalid))
    else if !SubmissionNew(db, sweep, children) then Step(db, Err(ErrConflict))
    else if !(forall j :: j in children ==> children[j].project in db.projects) then Step(db, Err(ErrNotFound))
    else Step(Submitted(db, sweep, children, now), Ok(()))
  }

  /** RequestCancellation. */
  function Cancel(db: Db, project: ProjectId, id: JobId): Step<JobState>
  {
    if id !in db.jobs || db.jobs[id].project != project then Step(db, Err(ErrNotFound))
    else
      var j := db.jobs[id];
      var next := if j.state.Active? then Cancelling else if IsWaiting(j.state) then JobState.Cancelled else j.state;
      if j.state.Active? || IsWaiting(j.state)
      then Step(db.(jobs := db.jobs[id := j.(state := next, cancelRequested := true)]), Ok(next))
      else Step(db, Ok(next))
  }

  function Drained(row: Worker): Worker
  {
    row.(drain := true, state := if row.state.Ready? then Draining else row.state)
  }

  /** RequestWorkerDrain. */
  function Drain(db: Db, w: WorkerId): Step<()>
  {
    if w !in db.workers then Step(db, Err(ErrNotFound))
    else if db.workers[w].drain then Step(db, Ok(()))
    else Step(db.(workers := db.workers[w := Drained(db.workers[w])]), Ok(()))
  }

  // ------------------------------------------------------------ acquisition

  function Readiness(w: Worker, allowSoft: bool, now: Time): Option<NoWork>
  {
    if !w.state.Ready? || !w.healthy || !w.reconciled || w.diskPressure || w.drain
       || w.lastHeartbeat.None? || now - w.lastHeartbeat.value >= SUSPECT_AFTER then Some(WorkerNotReady)
    else if w.softScratch && !allowSoft then Some(PlacementMismatch)
    else None
  }

  predicate Fits(free: Load, used: Load, s: JobSpec)
  {
    && s.cpu <= free.cpu - used.cpu && s.memory <= free.memory - used.memory
    && s.scratch <= free.scratch - used.scratch && 1 <= free.slots - used.slots
  }

  ghost predicate FitsWorker(db: Db, w: WorkerId, s: JobSpec)
    requires w in db.workers
  {
    Fits(db.workers[w].claim, Total(HeldBy(db, w)), s)
  }

  predicate WithinQuota(p: Project, used: Load, s: JobSpec)
  {
    s.cpu <= p.cpuQuota - used.cpu && s.memory <= p.memoryQuota - used.memory && used.slots < p.slotQuota
  }

  ghost predicate FitsProject(db: Db, p: ProjectId, s: JobSpec)
  {
    p in db.projects && WithinQuota(db.projects[p], Total(ProjectRows(db, p)), s)
  }

  ghost predicate FitsSweep(db: Db, sweep: Option<SweepId>)
  {
    sweep.Some? && sweep.value in db.sweeps ==> |SweepRows(db, sweep.value)| < db.sweeps[sweep.value].maxConcurrent
  }

  predicate LabelsMatch(wanted: map<string, string>, have: map<string, string>)
  {
    forall k :: k in wanted ==> k in have && have[k] == wanted[k]
  }

  /** A row of the `candidates` query that the `selected` query may rank. */
  predicate Visible(db: Db, w: WorkerId, now: Time, id: JobId)
  {
    && id in db.jobs && IsWaiting(db.jobs[id].state) && !db.jobs[id].cancelRequested
    && db.jobs[id].project in db.projects && db.projects[db.jobs[id].project].enabled
    && (w, db.jobs[id].project) in db.access && db.jobs[id].nextEligible <= now
  }

  /** Why a visible candidate cannot run here, in the query's CASE order. */
  ghost function Blocker(db: Db, w: WorkerId, id: JobId): Option<NoWork>
    requires w in db.workers && id in db.jobs
  {
    var j := db.jobs[id];
    if !LabelsMatch(j.spec.labels, db.workers[w].labels) then Some(PlacementMismatch)
    else if !FitsWorker(db, w, j.spec) then Some(NoResourceFit)
    else if !FitsProject(db, j.project, j.spec) then Some(ProjectQuota)
    else if !FitsSweep(db, j.sweep) then Some(SweepConcurrency)
    else None
  }

  /** Ten eligible minutes earn one priority level, up to level three. */
  function EffectivePriority(j: Job, now: Time): int
  {
    Min(3, j.priority + Min(3, Max(0, now - j.nextEligible) / (600 * SECOND)))
  }

  predicate AfterCursor(cursor: Option<ProjectId>, p: ProjectId)
  {
    cursor.None? || p > cursor.value
  }

  /** The ORDER BY of the selection query: `a` is ranked before `b`. */
  ghost predicate RanksBefore(db: Db, w: WorkerId, now: Time, a: JobId, b: JobId)
    requires w in db.workers && a in db.jobs && b in db.jobs
  {
    var x, y := db.jobs[a], db.jobs[b];
    var okX, okY := Blocker(db, w, a).None?, Blocker(db, w, b).None?;
    var afterX, afterY := AfterCursor(db.cursor, x.project), AfterCursor(db.cursor, y.project);
    if okX != okY then okX
    else if afterX != afterY then afterX
    else if x.project != y.project then x.project < y.project
    else if EffectivePriority(x, now) != EffectivePriority(y, now) then EffectivePriority(x, now) > EffectivePriority(y, now)
    else if x.created != y.created then x.created < y.created
    else a < b
  }

  /** The selection query returns the first visible candidate, if there is one. */
  ghost predicate IsSelection(db: Db, w: WorkerId, now: Time, choice: Option<JobId>)
    requires w in db.workers
  {
    match choice
    case None => forall k :: k in db.jobs ==> !Visible(db, w, now, k)
    case Some(id) =>
      && Visible(db, w, now, id)
      && forall k :: k in db.jobs && Visible(db, w, now, k) && k != id ==> RanksBefore(db, w, now, id, k)
  }

  datatype AcquireReply =
    | Assignment(authority: Authority, lease: Time, phase: Time, serverTime: Time)
    | Idle(why: NoWork)
    | Rejected(decision: Decision)

  /** The fields of an AcquireWork call; both clock samples and the fresh UUID are inputs. */
  datatype AcquireCall = AcquireCall(
    worker: WorkerId, session: SessionId, request: RequestId, allowSoft: bool,
    choice: Option<JobId>, newId: AttemptId, selectedAt: Time, now: Time)

  ghost function AcquireReason(db: Db, c: AcquireCall): (reason: Option<NoWork>)
    requires c.worker in db.workers
    ensures reason.None? ==> c.choice.Some? && c.choice.value in db.jobs
  {
    var w := db.workers[c.worker];
    var early, late := Readiness(w, c.allowSoft, c.selectedAt), Readiness(w, c.allowSoft, c.now);
    if early.Some? then if late.Some? then late else early
    else if c.choice.None? || c.choice.value !in db.jobs then if late.Some? then late else Some(QueueEmpty)
    else
      var j := db.jobs[c.choice.value];
      if !IsWaiting(j.state) || j.cancelRequested || j.nextEligible > c.now then Some(QueueEmpty)
      else if late.Some? then late
      else if !LabelsMatch(j.spec.labels, w.labels) then Some(PlacementMismatch)
      else if !FitsWorker(db, c.worker, j.spec) then Some(NoResourceFit)
      else if !FitsSweep(db, j.sweep) then Some(SweepConcurrency)
      else if !FitsProject(db, j.project, j.spec) || !db.projects[j.project].enabled then Some(ProjectQuota)
      else None
  }

  /** Job ownership, physical capacity and the rotation cursor change together. */
  function Assign(db: Db, c: AcquireCall, id: JobId): Db
    requires id in db.jobs && ValidSpec(db.jobs[id].spec)
  {
    var j := db.jobs[id];
    var a := Attempt(id, j.counter + 1, c.worker, c.session, Assigned, c.now, c.now + INITIAL_LEASE,
                     c.now + j.spec.startup * SECOND, None, None, None, false);
    db.(attempts := db.attempts[c.newId := a],
        reservations := db.reservations[c.newId := Reservation(c.worker, LoadOf(j.spec), Held)],
        jobs := db.jobs[id := j.(state := Active, current := Some(c.newId), counter := j.counter + 1)],
        cursor := Some(j.project), clock := c.now)
  }

  function ReplayAssignment(db: Db, w: WorkerId, s: SessionId, id: AttemptId, now: Time): Result<AcquireReply>
  {
    if id !in db.attempts || db.attempts[id].job !in db.jobs then Err(ErrInternal)
    else if !CurrentSession(db, w, s) then Err(ErrFenced)
    else
      var a := db.attempts[id];
      var j := db.jobs[a.job];
      if a.worker != w || a.session != s then Err(ErrFenced)
      else if !IsActive(a.state) then Ok(Rejected(AlreadyTerminal))
      else if j.current != Some(id) || a.lease <= now then Ok(Rejected(Fenced))
      else if j.cancelRequested || a.phase <= now then Ok(Rejected(StopRequested))
      else Ok(Assignment(AuthorityOf(id, a), a.lease, a.phase, now))
  }

  /** The call ends in a new assignment of its chosen job. */
  ghost predicate Assigns(db: Db, c: AcquireCall)
  {
    && RequestKey(c.worker, c.session, c.request) !in db.acquisitions && CurrentSession(db, c.worker, c.session)
    && c.choice.Some? && c.choice.value in db.jobs && AcquireReason(db, c).None? && ValidSpec(db.jobs[c.choice.value].spec)
    && db.jobs[c.choice.value].counter < db.jobs[c.choice.value].spec.retry.maxAttempts && c.newId !in db.attempts
  }

  ghost function Acquire(db: Db, c: AcquireCall): Step<AcquireReply>
  {
    var key := RequestKey(c.worker, c.session, c.request);
    if key in db.acquisitions && db.acquisitions[key].AcquiredAttempt? then
      Step(db, ReplayAssignment(db, c.worker, c.session, db.acquisitions[key].attempt, c.now))
    else if !CurrentSession(db, c.worker, c.session) then Step(db, Err(ErrFenced))
    else if key in db.acquisitions then Step(db, Ok(Idle(db.acquisitions[key].why)))
    else
      var reason := AcquireReason(db, c);
      if reason.Some? then
        Step(db.(acquisitions := db.acquisitions[key := AcquiredNothing(reason.value)]), Ok(Idle(reason.value)))
      else
        var id := c.choice.value;
        var j := db.jobs[id];
        if !ValidSpec(j.spec) || j.counter >= j.spec.retry.maxAttempts then Step(db, Err(ErrInvalid))
        else if c.newId in db.attempts then Step(db, Err(ErrInternal))
        else
          var assigned' := Assign(db, c, id);
          Step(assigned'.(acquisitions := db.acquisitions[key := AcquiredAttempt(c.newId)]),
               Ok(Assignment(AuthorityOf(c.newId, assigned'.attempts[c.newId]), c.now + INITIAL_LEASE,
                             c.now + j.spec.startup * SECOND, c.now)))
  }

  // ---------------------------------------------------------------- renewal

  datatype RenewCall = RenewCall(
    worker: WorkerId, session: SessionId, request: RequestId, members: seq<Authority>, now: Time)

  predicate RenewalWellFormed(c: RenewCall)
  {
    && 1 <= |c.members| <= 64
    && (forall i :: 0 <= i < |c.members| ==>
          c.members[i].worker == c.worker && c.members[i].session == c.session && 1 <= c.members[i].generation)
    && (forall i, k :: 0 <= i < k < |c.members| ==> c.members[i].attempt != c.members[k].attempt)
  }

  /** decodeLeaseReplay: the stored grants answer exactly these authorities and are well bounded. */
  predicate ReplayDecodes(saved: RenewalRecord, members: seq<Authority>)
  {
    && |saved.grants| == |members|
    && (forall id :: id in saved.grants ==> GrantBounded(saved.grants[id]))
    && (forall i :: 0 <= i < |members| ==>
          members[i].attempt in saved.grants && saved.grants[members[i].attempt].authority == members[i])
  }

  predicate GrantBounded(g: LeaseGrant)
  {
    if g.decision.Accepted? then
      && g.lease.Some? && g.phase.Some?
      && g.serverTime < g.lease.value <= g.serverTime + INITIAL_LEASE && g.serverTime < g.phase.value
    else g.lease.None? && g.phase.None?
  }

  function Refusal(auth: Authority, decision: Decision, now: Time): LeaseGrant
  {
    LeaseGrant(auth, decision, None, None, now)
  }

  /** A first answer: accepted members get a full lease under the current phase deadline. */
  function FreshGrant(db: Db, auth: Authority, now: Time): LeaseGrant
  {
    var decision := LeaseDecision(db, auth, now);
    if decision.Accepted?
    then LeaseGrant(auth, Accepted, Some(now + INITIAL_LEASE), Some(db.attempts[auth.attempt].phase), now)
    else Refusal(auth, decision, now)
  }

  /** A replay keeps the stricter of the original and the current bounds. */
  function ReplayGrant(db: Db, auth: Authority, prior: LeaseGrant, now: Time): LeaseGrant
  {
    var decision := if prior.decision.Accepted? then LeaseDecision(db, auth, now) else prior.decision;
    if !decision.Accepted? || prior.lease.None? || prior.phase.None? then Refusal(auth, if decision.Accepted? then Fenced else decision, now)
    else
      var lease := Min(prior.lease.value, db.attempts[auth.attempt].lease);
      var phase := Min(prior.phase.value, db.attempts[auth.attempt].phase);
      if lease <= now then Refusal(auth, Fenced, now)
      else if phase <= now then Refusal(auth, StopRequested, now)
      else LeaseGrant(auth, Accepted, Some(lease), Some(phase), now)
  }

  predicate Renews(db: Db, members: seq<Authority>, id: AttemptId, now: Time)
  {
    && id in db.attempts && AuthorityOf(id, db.attempts[id]) in members
    && LeaseDecision(db, AuthorityOf(id, db.attempts[id]), now).Accepted?
  }

  function RenewedAttempts(db: Db, members: seq<Authority>, now: Time): map<AttemptId, Attempt>
  {
    map id | id in db.attempts ::
      if Renews(db, members, id, now) then db.attempts[id].(lease := now + INITIAL_LEASE) else db.attempts[id]
  }

  function FreshGrants(db: Db, members: seq<Authority>, now: Time): seq<LeaseGrant>
  {
    seq(|members|, i requires 0 <= i < |members| => FreshGrant(db, members[i], now))
  }

  function ReplayedGrants(db: Db, members: seq<Authority>, saved: RenewalRecord, now: Time): seq<LeaseGrant>
    requires ReplayDecodes(saved, members)
  {
    seq(|members|, i requires 0 <= i < |members| => ReplayGrant(db, members[i], saved.grants[members[i].attempt], now))
  }

  function MemberSet(members: seq<Authority>): set<Authority>
  {
    set a | a in members
  }

  /** The grants as stored, by attempt; a request names each attempt once. */
  function GrantMap(db: Db, members: seq<Authority>, now: Time): map<AttemptId, LeaseGrant>
    requires forall i, k :: 0 <= i < k < |members| ==> members[i].attempt != members[k].attempt
  {
    map a | a in members :: a.attempt := FreshGrant(db, a, now)
  }

  function Renewed(db: Db, c: RenewCall): Db
    requires RenewalWellFormed(c)
  {
    var record := RenewalRecord(MemberSet(c.members), GrantMap(db, c.members, c.now));
    db.(clock := c.now, attempts := RenewedAttempts(db, c.members, c.now),
        renewals := db.renewals[RequestKey(c.worker, c.session, c.request) := record])
  }

  function Renew(db: Db, c: RenewCall): Step<seq<LeaseGrant>>
  {
    var key := RequestKey(c.worker, c.session, c.request);
    if !RenewalWellFormed(c) then Step(db, Err(ErrInvalid))
    else if !CurrentSession(db, c.worker, c.session) then Step(db, Err(ErrFenced))
    else if key in db.renewals then
      var saved := db.renewals[key];
      if saved.members != MemberSet(c.members) then Step(db, Err(ErrConflict))
      else if !ReplayDecodes(saved, c.members) then Step(db, Err(ErrInvalid))
      else Step(db, Ok(ReplayedGrants(db, c.members, saved, c.now)))
    else Step(Renewed(db, c), Ok(FreshGrants(db, c.members, c.now)))
  }

  // ----------------------------------------------------------------- phases

  datatype MutationReply = MutationReply(decision: Decision, state: Option<AttemptState>)

  function SetPhase(a: Attempt, r: PhaseReport, deadline: Time): Attempt
  {
    a.(state := r.phase, container := if a.container.Some? then a.container else r.container,
       exit := r.exit, phase := deadline)
  }

  function Advanced(db: Db, r: PhaseReport, deadline: Time, now: Time): Db
    requires r.authority.attempt in db.attempts
  {
    var id := r.authority.attempt;
    db.(clock := now, attempts := db.attempts[id := SetPhase(db.attempts[id], r, deadline)])
  }

  function ReportPhase(db: Db, w: WorkerId, r: PhaseReport, now: Time): Step<MutationReply>
  {
    var auth := r.authority;
    var key := RequestKey(w, auth.session, r.event);
    if !PhaseReportWellFormed(r) || auth.worker != w then Step(db, Err(ErrInvalid))
    else if !CurrentSession(db, w, auth.session) then Step(db, Err(ErrFenced))
    else if auth.attempt !in db.attempts || AuthorityOf(auth.attempt, db.attempts[auth.attempt]) != auth
    then Step(db, Ok(MutationReply(Fenced, None)))
    else
      var a := db.attempts[auth.attempt];
      var replay := key in db.reports;
      if replay && db.reports[key] != r then Step(db, Err(ErrConflict))
      else
        var decision := LeaseDecision(db, auth, now);
        if !decision.Accepted? then Step(db, Ok(MutationReply(decision, Some(a.state))))
        else if replay then Step(db, Ok(MutationReply(Accepted, Some(a.state))))
        else
          var deadline := NextPhaseDeadline(r, a, db.jobs[auth.job].spec, now);
          if deadline.Err? then Step(db, Err(deadline.error))
          else
            Step((if a.state == r.phase then db else Advanced(db, r, deadline.value, now)).(reports := db.reports[key := r]),
                 Ok(MutationReply(Accepted, Some(r.phase))))
  }

  // ------------------------------------------------------------- completion

  /** Two clock samples bracket manifest validation, whose verdict is `evidenceOk`. */
  datatype CompleteCall = CompleteCall(worker: WorkerId, request: CompletionRequest, evidenceOk: bool, now: Time, published: Time)

  function CompletionEnding(j: Job, r: CompletionRequest, hash: nat, published: Time, now: Time): Ending
    requires ValidSpec(j.spec)
  {
    var hold := if r.stopped then Released else HoldState.Quarantined;
    if r.reason.None? then
      Ending(AttemptState.Succeeded, None, r.exit, hold, JobState.Succeeded, Some(r.authority.attempt), now)
    else if r.reason == Some(UserCancelled) then
      Ending(AttemptState.Cancelled, r.reason, r.exit, hold, JobState.Cancelled, None, now)
    else if r.authority.generation < j.spec.retry.maxAttempts && r.reason.value in j.spec.retry.on then
      Ending(AttemptState.Failed, r.reason, r.exit, hold, RetryWait, None,
             published + RetryDelay(j.spec.retry, r.authority.generation, hash))
    else
      Ending(AttemptState.Failed, r.reason, r.exit, hold, JobState.Failed, None, now)
  }

  /** Another completion of this incarnation already uses the completion id. */
  predicate CompletionClaimed(db: Db, r: CompletionRequest)
  {
    exists id :: id in db.completions && db.completions[id].request.completion == r.completion
      && db.completions[id].request.authority.worker == r.authority.worker
      && db.completions[id].request.authority.session == r.authority.session
  }

  function Complete(db: Db, c: CompleteCall, hash: Hash): Step<MutationReply>
  {
    var r := c.request;
    var id := r.authority.attempt;
    if r.authority.worker != c.worker || !CompletionWellFormed(r) then Step(db, Err(ErrInvalid))
    else if id !in db.attempts || AuthorityOf(id, db.attempts[id]) != r.authority then Step(db, Ok(MutationReply(Fenced, None)))
    else if id in db.completions then
      if db.completions[id].request != r then Step(db, Err(ErrConflict))
      else Step(db, Ok(MutationReply(Accepted, Some(db.completions[id].state))))
    else if CompletionClaimed(db, r) then Step(db, Err(ErrConflict))
    else if !IsActive(db.attempts[id].state) then Step(db, Ok(MutationReply(AlreadyTerminal, Some(db.attempts[id].state))))
    else if r.authority.job !in db.jobs || !ValidSpec(db.jobs[r.authority.job].spec) then Step(db, Err(ErrInvalid))
    else if !CurrentSession(db, c.worker, r.authority.session) then Step(db, Err(ErrFenced))
    else
      var a, j := db.attempts[id], db.jobs[r.authority.job];
      var decision := CompletionDecision(db, r, c.now);
      if !decision.Accepted? then Step(db, Ok(MutationReply(decision, Some(a.state))))
      else if !CompletionPhaseOk(r, a, j.cancelRequested) then Step(db, Err(ErrConflict))
      else if !c.evidenceOk then Step(db, Err(ErrInvalid))
      else
        var again := CompletionDecision(db, r, c.published);
        if !again.Accepted? then Step(db, Ok(MutationReply(again, Some(a.state))))
        else if id !in db.reservations || !db.reservations[id].state.Held? then Step(db, Err(ErrConflict))
        else
          var e := CompletionEnding(j, r, hash(id), c.published, c.now);
          Step(Settle(db, id, e).(completions := db.completions[id := CompletionRecord(r, e.state)]),
               Ok(MutationReply(Accepted, Some(e.state))))
  }

  // ----------------------------------------------------- sessions and hosts

  function ApproveTakeover(db: Db, w: WorkerId, from: SessionId, to: SessionId): Step<()>
  {
    if from == to then Step(db, Err(ErrInvalid))
    else if (w, from) in db.takeovers then
      if db.takeovers[(w, from)].to == to then Step(db, Ok(())) else Step(db, Err(ErrConflict))
    else if w !in db.workers then Step(db, Err(ErrNotFound))
    else if db.workers[w].current != Some(from) then Step(db, Err(ErrFenced))
    else if to in db.sessions then Step(db, Err(ErrConflict))
    else Step(db.(takeovers := db.takeovers[(w, from) := Takeover(to, false)]), Ok(()))
  }

  function FencedSessions(db: Db, w: WorkerId, now: Time): map<SessionId, Session>
  {
    map s | s in db.sessions ::
      if db.sessions[s].worker == w && db.sessions[s].fenced.None? then db.sessions[s].(fenced := Some(now))
      else db.sessions[s]
  }

  /** lockWorkerAttempts returns a worker's active attempts ordered by job, then id. */
  predicate IsRecoveryOrder(db: Db, w: WorkerId, order: seq<AttemptId>)
  {
    && (forall i :: 0 <= i < |order| ==>
          order[i] in db.attempts && db.attempts[order[i]].worker == w && IsActive(db.attempts[order[i]].state))
    && (forall id :: id in db.attempts && db.attempts[id].worker == w && IsActive(db.attempts[id].state) ==> id in order)
    && (forall i, k :: 0 <= i < k < |order| ==>
          var x, y := db.attempts[order[i]].job, db.attempts[order[k]].job;
          x < y || (x == y && order[i] < order[k]))
  }

  predicate Approved(db: Db, w: WorkerId, from: SessionId, to: SessionId)
  {
    (w, from) in db.takeovers && db.takeovers[(w, from)].to == to && !db.takeovers[(w, from)].used
  }

  /** Without approval, an unfenced incarnation is replaced only when silent and without a live lease. */
  predicate StillActive(db: Db, w: WorkerId, from: SessionId, order: seq<AttemptId>, now: Time)
    requires w in db.workers && from in db.sessions
  {
    var seen := if db.workers[w].lastHeartbeat.Some? then db.workers[w].lastHeartbeat.value else db.sessions[from].created;
    now - seen < SESSION_INACTIVITY
    || exists i :: 0 <= i < |order| && order[i] in db.attempts && db.attempts[order[i]].lease > now
  }

  function Recover(db: Db, w: WorkerId, from: SessionId, to: SessionId, order: seq<AttemptId>, hash: Hash, now: Time): Result<Db>
  {
    if w !in db.workers || db.workers[w].current != Some(from) || from !in db.sessions || db.sessions[from].worker != w
    then Err(ErrInternal)
    else if !Approved(db, w, from, to) && db.sessions[from].fenced.None? && StillActive(db, w, from, order, now)
    then Err(ErrSessionActive)
    else
      var swept := FenceAll(db, order, hash, now);
      if swept.Err? then swept
      else
        var d := swept.value;
        Ok(d.(sessions := FencedSessions(d, w, now),
              takeovers := if Approved(db, w, from, to) then d.takeovers[(w, from) := Takeover(to, true)] else d.takeovers))
  }

  /** `order` is the recovery order, `generation` one more than the worker's greatest. */
  datatype RegisterCall = RegisterCall(
    worker: WorkerId, request: RequestId, claims: Registration, order: seq<AttemptId>,
    generation: int, now: Time, stamp: Time)

  predicate IsNextGeneration(db: Db, w: WorkerId, g: int)
  {
    && (forall s :: s in db.sessions && db.sessions[s].worker == w ==> db.sessions[s].generation < g)
    && 1 <= g
    && (g == 1 || exists s :: s in db.sessions && db.sessions[s].worker == w && db.sessions[s].generation == g - 1)
  }

  predicate ClaimsWithin(claims: Registration, ceiling: Ceiling)
  {
    1 <= claims.claim.slots && Within(claims.claim, ceiling.limit) && claims.labels == ceiling.labels
  }

  function OpenSession(db: Db, c: RegisterCall): Db
    requires c.worker in db.workers
  {
    var s := c.claims.session;
    db.(sessions := db.sessions[s := Session(c.worker, c.generation, c.stamp, None, c.claims, 0, None)],
        workers := db.workers[c.worker := db.workers[c.worker].(
                     current := Some(s), state := Registering, reconciled := false, healthy := false,
                     diskPressure := false, lastHeartbeat := Some(c.stamp),
                     claim := c.claims.claim, softScratch := c.claims.softScratch)],
        registrations := if (c.worker, c.request) in db.registrations then db.registrations
                         else db.registrations[(c.worker, c.request) := c.claims])
  }

  function Register(db: Db, c: RegisterCall, hash: Hash): Step<int>
  {
    var w, s := c.worker, c.claims.session;
    if w !in db.workers || w !in db.ceilings then Step(db, Err(ErrInternal))
    else if !ClaimsWithin(c.claims, db.ceilings[w]) then Step(db, Err(ErrInvalid))
    else if (w, c.request) in db.registrations && db.registrations[(w, c.request)] != c.claims then Step(db, Err(ErrConflict))
    else if s in db.sessions && db.sessions[s].worker == w then
      if db.sessions[s].fenced.Some? || db.workers[w].current != Some(s) then Step(db, Err(ErrFenced))
      else if db.sessions[s].registration != c.claims then Step(db, Err(ErrConflict))
      else Step(db.(registrations := if (w, c.request) in db.registrations then db.registrations
                                     else db.registrations[(w, c.request) := c.claims]),
                Ok(db.sessions[s].generation))
    else if db.workers[w].current.None? then
      if s in db.sessions then Step(db, Err(ErrConflict)) else Step(OpenSession(db, c), Ok(c.generation))
    else
      var recovered := Recover(db, w, db.workers[w].current.value, s, c.order, hash, c.now);
      if recovered.Err? then Step(db, Err(recovered.error))
      else if s in db.sessions || w !in recovered.value.workers then Step(db, Err(ErrConflict))
      else Step(OpenSession(recovered.value, c), Ok(c.generation))
  }

  predicate AttemptAuthorized(db: Db, id: AttemptId, session: SessionId, now: Time)
    requires id in db.attempts
  {
    var a := db.attempts[id];
    && IsActive(a.state) && a.job in db.jobs && db.jobs[a.job].current == Some(id) && a.session == session
    && a.session in db.sessions && db.sessions[a.session].fenced.None? && a.lease > now
    && !db.jobs[a.job].cancelRequested
  }

  predicate IsQuarantined(db: Db, id: AttemptId)
  {
    id in db.reservations && db.reservations[id].state.Quarantined?
  }

  predicate MustStop(db: Db, w: WorkerId, h: HeartbeatReport, auth: Authority, now: Time)
  {
    auth.attempt !in db.attempts || db.attempts[auth.attempt].worker != w
    || AuthorityOf(auth.attempt, db.attempts[auth.attempt]) != auth
    || !AttemptAuthorized(db, auth.attempt, h.session, now)
  }

  /** Inventory without authority, and this host's active attempts that lost theirs. */
  function StopSet(db: Db, w: WorkerId, h: HeartbeatReport, now: Time): set<Authority>
  {
    (set e | e in h.inventory && MustStop(db, w, h, e.authority, now) :: e.authority)
    + (set id | id in db.attempts && db.attempts[id].worker == w && IsActive(db.attempts[id].state)
                && !AttemptAuthorized(db, id, h.session, now) :: AuthorityOf(id, db.attempts[id]))
  }

  function Present(h: HeartbeatReport): set<AttemptId>
  {
    set e | e in h.inventory :: e.authority.attempt
  }

  predicate Unreconciled(db: Db, w: WorkerId, h: HeartbeatReport, now: Time)
  {
    || !h.reconciled || StopSet(db, w, h, now) != {}
    || exists id :: id in db.attempts && db.attempts[id].worker == w && db.attempts[id].state.Running? && id !in Present(h)
  }

  /** Only a new incarnation attests cleanup of fenced predecessors. */
  predicate Releases(db: Db, w: WorkerId, h: HeartbeatReport, now: Time, id: AttemptId)
  {
    && id in db.attempts && db.attempts[id].worker == w && IsQuarantined(db, id)
    && h.healthy && !Unreconciled(db, w, h, now)
    && db.attempts[id].session != h.session && !IsActive(db.attempts[id].state)
    && db.attempts[id].session in db.sessions && db.sessions[db.attempts[id].session].fenced.Some?
  }

  predicate StillUncertain(db: Db, w: WorkerId, h: HeartbeatReport, now: Time, replay: bool)
  {
    || Unreconciled(db, w, h, now)
    || exists id :: id in db.attempts && db.attempts[id].worker == w && IsQuarantined(db, id)
                    && (replay || !Releases(db, w, h, now, id))
  }

  datatype HeartbeatReply = HeartbeatReply(drain: bool, reconcile: bool, stop: set<Authority>)

  predicate HeartbeatWellFormed(w: WorkerId, h: HeartbeatReport)
  {
    && 1 <= h.sequence && |h.inventory| <= 1024
    && (forall e :: e in h.inventory ==> e.authority.worker == w && 1 <= e.authority.generation)
    && (forall e, f :: e in h.inventory && f in h.inventory && e.container == f.container ==> e == f)
  }

  function HeartbeatState(h: HeartbeatReport, reconciled: bool, drain: bool): WorkerState
  {
    if !h.healthy || h.diskPressure then WorkerState.Quarantined
    else if !reconciled then Registering
    else if drain then Draining
    else Ready
  }

  predicate BeatReconciles(db: Db, w: WorkerId, h: HeartbeatReport, now: Time)
  {
    h.healthy && !StillUncertain(db, w, h, now, false)
  }

  /** The rows a new report rewrites: released capacity, the session's sequence, the host's state. */
  function Beaten(db: Db, w: WorkerId, h: HeartbeatReport, now: Time): Db
    requires w in db.workers && h.session in db.sessions
  {
    var s, row := db.sessions[h.session], db.workers[w];
    var reconciled := BeatReconciles(db, w, h, now);
    db.(reservations := map id | id in db.reservations ::
                          if Releases(db, w, h, now, id) then db.reservations[id].(state := Released)
                          else db.reservations[id],
        attempts := map id | id in db.attempts ::
                      if Releases(db, w, h, now, id) then db.attempts[id].(cleanupPending := false)
                      else db.attempts[id],
        sessions := db.sessions[h.session := s.(heartbeat := h.sequence, lastReport := Some(h))],
        workers := db.workers[w := row.(state := HeartbeatState(h, reconciled, row.drain), reconciled := reconciled,
                                        healthy := h.healthy, diskPressure := h.diskPressure, lastHeartbeat := Some(now))])
  }

  function Heartbeat(db: Db, w: WorkerId, h: HeartbeatReport, now: Time): Step<HeartbeatReply>
  {
    if !HeartbeatWellFormed(w, h) then Step(db, Err(ErrInvalid))
    else if !CurrentSession(db, w, h.session) then Step(db, Err(ErrFenced))
    else
      var s, row := db.sessions[h.session], db.workers[w];
      if h.sequence < s.heartbeat then Step(db, Err(ErrStaleHeartbeat))
      else if h.sequence == s.heartbeat && s.lastReport != Some(h) then Step(db, Err(ErrConflict))
      else
        var replay := h.sequence == s.heartbeat;
        var uncertain := StillUncertain(db, w, h, now, replay);
        var stop := StopSet(db, w, h, now);
        if replay then
          Step(db, Ok(HeartbeatReply(row.drain || !row.state.Ready?, !row.reconciled || uncertain, stop)))
        else
          var reconciled := BeatReconciles(db, w, h, now);
          var state := HeartbeatState(h, reconciled, row.drain);
          Step(Beaten(db, w, h, now), Ok(HeartbeatReply(row.drain || !state.Ready?, !reconciled || uncertain, stop)))
  }

  // ------------------------------------------------------------------ reaper

  predicate Expired(db: Db, id: AttemptId, now: Time)
  {
    && id in db.attempts && IsActive(db.attempts[id].state) && db.attempts[id].job in db.jobs
    && db.jobs[db.attempts[id].job].current == Some(id)
    && (db.attempts[id].lease <= now || db.attempts[id].phase <= now)
  }

  /** reapOneExpiredAttempt after it has found a candidate; false when a renewal won the race. */
  function Reap(db: Db, id: AttemptId, hash: Hash, now: Time): Step<bool>
  {
    if !Expired(db, id, now) then Step(db, Ok(false))
    else
      var fenced := FenceLost(db, id, hash, now);
      var w := db.attempts[id].worker;
      if fenced.Err? then Step(db, Err(fenced.error))
      else
        var d := fenced.value;
        Step(if w in d.workers then d.(workers := d.workers[w := d.workers[w].(state := Registering, reconciled := false)]) else d,
             Ok(true))
  }
}
