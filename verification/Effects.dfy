/** What one transaction means to its caller: what changed, what did not, and what a retry finds. */
module Effects {
  import opened Base
  import opened Schema
  import opened Decisions
  import opened Transactions
  import opened Changes
  import opened Ownership
  import Paths

  // ------------------------------------------------------------------ cancellation

  /** A cancelled job is out of the queue and will not run again; nobody else notices; asking twice is
      asking once. */
  lemma CancellationMeans(db: Db, project: ProjectId, id: JobId)
    ensures Cancel(db, project, id).reply.Ok? <==> id in db.jobs && db.jobs[id].project == project
    ensures var s := Cancel(db, project, id);
            && s.db == db.(jobs := s.db.jobs) && s.db.jobs.Keys == db.jobs.Keys
            && (forall j :: j in db.jobs && (j != id || s.reply.Err?) ==> s.db.jobs[j] == db.jobs[j])
            && (s.reply.Ok? ==> s.db.jobs[id].state == s.reply.value && (s.reply.value.Cancelling? || IsTerminal(s.reply.value)))
            && (s.reply.Ok? && !IsTerminal(db.jobs[id].state) ==> s.reply.value.Cancelling? || s.reply.value.Cancelled?)
            && Cancel(s.db, project, id) == Step(s.db, s.reply)
  {
  }

  // ----------------------------------------------------------------------- endings

  /** `j` is stopped when `failed` fails. */
  predicate StoppedWith(db: Db, failed: JobId, j: JobId)
  {
    && failed in db.jobs && db.jobs[failed].state.Failed? && db.jobs[failed].sweep.Some? && db.jobs[failed].sweep.value in db.sweeps
    && db.sweeps[db.jobs[failed].sweep.value].failFast
    && j in db.jobs && j != failed && db.jobs[j].sweep == db.jobs[failed].sweep
  }

  lemma FailFastRow(db: Db, failed: JobId, j: JobId)
    requires j in db.jobs
    ensures var d := FailFast(db, failed);
            && d.sweeps == db.sweeps && d.jobs.Keys == db.jobs.Keys
            && d.jobs[j] == if StoppedWith(db, failed, j)
                            then StoppedBySibling(db.jobs[j], db.sweeps[db.jobs[failed].sweep.value].cancelRunning) else db.jobs[j]
  {
  }

  /** After a failure no sibling of a fail-fast sweep waits, with `cancelRunning` none stays ACTIVE, and
      no other job changes; the reaction happens once. */
  lemma FailFastMeans(db: Db, failed: JobId, j: JobId, d: Db)
    requires j in db.jobs && d == FailFast(db, failed)
    ensures d == db.(jobs := d.jobs) && d.jobs.Keys == db.jobs.Keys
    ensures StoppedWith(db, failed, j) ==>
              && !IsWaiting(d.jobs[j].state) && (IsOwned(db.jobs[j].state) ==> IsOwned(d.jobs[j].state))
              && (db.sweeps[db.jobs[failed].sweep.value].cancelRunning ==> !d.jobs[j].state.Active?)
              && d.jobs[j] == db.jobs[j].(state := d.jobs[j].state, cancelRequested := d.jobs[j].cancelRequested)
    ensures !StoppedWith(db, failed, j) ==> d.jobs[j] == db.jobs[j]
    ensures j in FailFast(d, failed).jobs && FailFast(d, failed).jobs[j] == d.jobs[j]
  {
    FailFastFrame(db, failed);
    hide FailFast;
    FailFastRow(db, failed, j);
    FailFastRow(d, failed, j);
    if failed in db.jobs { FailFastRow(db, failed, failed); }
  }

  lemma FailFastFrame(db: Db, failed: JobId)
    ensures FailFast(db, failed) == db.(jobs := FailFast(db, failed).jobs)
  {
    hide SiblingsStopped;
  }

  /** A lost attempt's job is cancelled exactly when that was asked for, never retried after a timeout, and
      retried only within its policy and after a bounded delay. */
  lemma LossMeans(j: Job, a: Attempt, hash: nat, now: Time)
    requires ValidSpec(j.spec)
    ensures var e := FenceEnding(j, a, hash, now);
            && (e.next.Cancelled? <==> j.cancelRequested) && (e.next.RetryWait? || IsTerminal(e.next)) && !e.next.Succeeded?
            && (e.next.RetryWait? <==> !j.cancelRequested && ExpiredPhaseReason(a.state, a.lease, a.phase, now).None?
                                       && j.counter < j.spec.retry.maxAttempts && WorkerLost in j.spec.retry.on)
            && (e.next.RetryWait? ==> now + SECOND / 2 <= e.eligible <= now + j.spec.retry.maxBackoff * SECOND)
            && !IsActive(e.state) && e.hold.Quarantined? && e.accepted == j.accepted
  {
    BackoffBounds(j.spec.retry, j.counter);
  }

  // ---------------------------------------------------------------------- sessions

  /** A new session is current and gets no work before its first reconciled heartbeat; other hosts and
      every attempt stay as they are. */
  lemma SessionMeans(db: Db, c: RegisterCall, call: AcquireCall)
    requires c.worker in db.workers && call.worker == c.worker
    ensures var d := OpenSession(db, c);
            && CurrentSession(d, c.worker, c.claims.session) && HostOut(d, c.worker) && AcquireReason(d, call) == Some(WorkerNotReady)
            && d.jobs == db.jobs && d.attempts == db.attempts && d.reservations == db.reservations
            && (forall w :: w in db.workers && w != c.worker ==> d.workers[w] == db.workers[w])
            && (forall s :: s in db.sessions && s != c.claims.session ==> s in d.sessions && d.sessions[s] == db.sessions[s])
  {
    hide FitsWorker;
    hide FitsProject;
    hide FitsSweep;
    hide LabelsMatch;
    var d := OpenSession(db, c);
    assert !d.workers[c.worker].state.Ready?;
  }

  // ------------------------------------------------------------------------- phases

  predicate PhaseAccepted(db: Db, w: WorkerId, r: PhaseReport, now: Time)
  {
    ReportPhase(db, w, r, now).reply.Ok? && ReportPhase(db, w, r, now).reply.value.decision.Accepted?
  }

  /** Only an accepted report changes anything, and then only its attempt's row and its own record. */
  lemma PhaseReportMeans(db: Db, w: WorkerId, r: PhaseReport, now: Time)
    ensures var s, key, x := ReportPhase(db, w, r, now), RequestKey(w, r.authority.session, r.event), r.authority.attempt;
            && (!PhaseAccepted(db, w, r, now) ==> s.db == db)
            && (PhaseAccepted(db, w, r, now) ==>
                  && key in s.db.reports && s.db.reports[key] == r && x in s.db.attempts && IsActive(s.db.attempts[x].state)
                  && s.reply.value.state == Some(s.db.attempts[x].state)
                  && (key !in db.reports ==> s.db.attempts[x].state == r.phase)
                  && (key in db.reports ==> s.db == db))
            && (forall y :: y in db.attempts && y != x ==> y in s.db.attempts && s.db.attempts[y] == db.attempts[y])
            && s.db.jobs == db.jobs && s.db.reservations == db.reservations
  {
    hide CurrentSession;
    if PhaseAccepted(db, w, r, now) { AcceptedActive(db, r.authority, now); }
    hide LeaseDecision;
  }

  lemma AcceptedActive(db: Db, a: Authority, now: Time)
    requires LeaseDecision(db, a, now).Accepted?
    ensures a.attempt in db.attempts && IsActive(db.attempts[a.attempt].state) && a.job in db.jobs
    ensures AuthorityOf(a.attempt, db.attempts[a.attempt]) == a
  {
  }

  /** A repeated report gets the same reply and changes nothing. */
  lemma PhaseReportRetried(db: Db, w: WorkerId, r: PhaseReport, now: Time)
    requires Owned(db) && db.clock <= now && PhaseAccepted(db, w, r, now)
    ensures var s := ReportPhase(db, w, r, now); ReportPhase(s.db, w, r, now) == s
  {
    AcceptedActive(db, r.authority, now);
    assert AttemptOk(db, r.authority.attempt) && JobOk(db, r.authority.job);
    hide Owned;
  }

  // --------------------------------------------------------------------- completion

  predicate CompletionAccepted(db: Db, c: CompleteCall, hash: Hash)
  {
    Complete(db, c, hash).reply.Ok? && Complete(db, c, hash).reply.value.decision.Accepted?
  }

  /** An accepted completion is on file, its attempt has ended in the state replied, holds no capacity as
      active, and is nobody's current one; anything else changes nothing. */
  lemma CompletionMeans(db: Db, c: CompleteCall, hash: Hash)
    requires Owned(db) && CompletionsEnded(db)
    ensures var s, x := Complete(db, c, hash), c.request.authority.attempt;
            && (!CompletionAccepted(db, c, hash) || x in db.completions ==> s.db == db)
            && (CompletionAccepted(db, c, hash) ==>
                  && x in s.db.completions && s.db.completions[x].request == c.request
                  && x in s.db.attempts && !IsActive(s.db.attempts[x].state) && s.reply.value.state == Some(s.db.attempts[x].state))
            && (CompletionAccepted(db, c, hash) && x !in db.completions ==>
                  && c.request.authority.job in s.db.jobs && s.db.jobs[c.request.authority.job].current.None?
                  && x in s.db.reservations && s.db.reservations[x].state == if c.request.stopped then Released else HoldState.Quarantined)
  {
    hide CompletionClaimed;
    hide CompletionDecision;
    hide CompletionPhaseOk;
    hide CompletionWellFormed;
    hide CurrentSession;
    hide Owned;
    hide Settle;
    Paths.CompleteShape(db, c, hash);
    if Paths.Completes(db, c) { EndingMeans(db, c.request.authority.attempt, Paths.EndingOf(db, c, hash)); }
  }

  /** An ending reaches the attempt, its reservation and its job together. */
  lemma EndingMeans(db: Db, id: AttemptId, e: Ending)
    requires id in db.attempts && id in db.reservations && db.attempts[id].job in db.jobs
    ensures var d := Settle(db, id, e);
            && id in d.attempts && d.attempts[id].state == e.state && d.attempts[id].cleanupPending == e.hold.Quarantined?
            && id in d.reservations && d.reservations[id].state == e.hold
            && db.attempts[id].job in d.jobs && d.jobs[db.attempts[id].job].current.None?
            && (forall x :: x in db.attempts && x != id ==> x in d.attempts && d.attempts[x] == db.attempts[x])
  {
    SettleOnlyStops(db, id, e);
  }

  /** A repeated completion gets the same reply, whenever it comes, and changes nothing. */
  lemma CompletionRetried(db: Db, c: CompleteCall, hash: Hash, again: CompleteCall, later: Hash)
    requires Owned(db) && CompletionsEnded(db) && CompletionAccepted(db, c, hash)
    requires again.worker == c.worker && again.request == c.request
    ensures var s := Complete(db, c, hash); Complete(s.db, again, later) == s
  {
    hide CompletionClaimed;
    hide CompletionDecision;
    hide CompletionPhaseOk;
    hide CurrentSession;
    hide Owned;
    hide Settle;
    Paths.CompleteShape(db, c, hash);
    if Paths.Completes(db, c) { EndingKeepsIdentity(db, c.request.authority.attempt, Paths.EndingOf(db, c, hash)); }
  }

  lemma EndingKeepsIdentity(db: Db, id: AttemptId, e: Ending)
    requires id in db.attempts && id in db.reservations && db.attempts[id].job in db.jobs
    ensures id in Settle(db, id, e).attempts && AuthorityOf(id, Settle(db, id, e).attempts[id]) == AuthorityOf(id, db.attempts[id])
  {
    SettleOnlyStops(db, id, e);
  }

  // -------------------------------------------------------------------- assignment

  /** A new assignment may act at once and until its lease or its startup time ends, its host holds exactly
      the job's load more, and a repeated request finds the same assignment. */
  lemma AssignmentMeans(db: Db, c: AcquireCall, t: Time)
    requires Owned(db) && db.clock <= c.now && Assigns(db, c)
    ensures var d, spec := Acquire(db, c).db, db.jobs[c.choice.value].spec;
            var auth := Authority(c.choice.value, c.newId, db.jobs[c.choice.value].counter + 1, c.worker, c.session);
            && (LeaseDecision(d, auth, t).Accepted? <==> t < c.now + INITIAL_LEASE && t < c.now + spec.startup * SECOND)
            && Acquire(db, c).reply == Ok(Assignment(auth, c.now + INITIAL_LEASE, c.now + spec.startup * SECOND, c.now))
            && Acquire(d, c) == Acquire(db, c)
            && c.newId !in HeldBy(db, c.worker) && HeldBy(d, c.worker) == HeldBy(db, c.worker)[c.newId := LoadOf(spec)]
  {
    AssignmentRows(db, c);
    AssignmentRetried(db, c);
    hide Acquire;
    hide Assigns;
    Paths.AssignsChosen(db, c);
    assert JobOk(db, c.choice.value);
    hide Owned;
  }

  lemma AssignmentRows(db: Db, c: AcquireCall)
    requires Assigns(db, c) && db.reservations.Keys == db.attempts.Keys
    ensures c.choice.Some? && c.choice.value in db.jobs
    ensures var d, j := Acquire(db, c).db, db.jobs[c.choice.value];
            && c.newId !in db.attempts && c.newId in d.attempts && d.attempts == db.attempts[c.newId := d.attempts[c.newId]]
            && AuthorityOf(c.newId, d.attempts[c.newId]) == Authority(c.choice.value, c.newId, j.counter + 1, c.worker, c.session)
            && d.attempts[c.newId].state.Assigned? && d.attempts[c.newId].lease == c.now + INITIAL_LEASE
            && d.attempts[c.newId].phase == c.now + j.spec.startup * SECOND
            && c.choice.value in d.jobs && d.jobs[c.choice.value].current == Some(c.newId) && d.jobs[c.choice.value].cancelRequested == j.cancelRequested
            && !j.cancelRequested && ValidSpec(j.spec) && d.reservations == db.reservations[c.newId := Reservation(c.worker, LoadOf(j.spec), Held)]
  {
  }

  lemma AssignmentRetried(db: Db, c: AcquireCall)
    requires Assigns(db, c) && db.reservations.Keys == db.attempts.Keys
    ensures Acquire(Acquire(db, c).db, c) == Acquire(db, c)
    ensures Acquire(db, c).reply.Ok? && Acquire(db, c).reply.value.Assignment?
  {
  }
}
