/** The promises of the attempt protocol, stated over arbitrary runs. */
module RunTheorems {
  import opened Base
  import opened Totals
  import opened Schema
  import opened Transactions
  import opened Protocol
  import opened Ownership
  import opened Evolution
  import opened Lifecycle
  import opened Capacity
  import opened SweepFailure
  import opened RenewalReplay
  import opened Runs
  import Paths

  // ------------------------------------------------------------------- ownership

  /** A job is owned exactly while it has a current attempt, which is its only active one, held by its
      host's current unfenced session under an active reservation of exactly the job's resources. */
  lemma OneOwner(run: seq<Db>, acts: seq<Action>, i: nat, j: JobId)
    requires IsRun(run, acts) && i < |run| && j in run[i].jobs
    ensures var db := run[i];
            && ValidSpec(db.jobs[j].spec)
            && (IsOwned(db.jobs[j].state) <==> exists x :: x in db.attempts && db.attempts[x].job == j && IsActive(db.attempts[x].state))
            && (forall x :: x in db.attempts && db.attempts[x].job == j && IsActive(db.attempts[x].state) ==>
                  && db.jobs[j].current == Some(x) && CurrentSession(db, db.attempts[x].worker, db.attempts[x].session)
                  && x in db.reservations
                  && db.reservations[x] == Reservation(db.attempts[x].worker, LoadOf(db.jobs[j].spec), Held))
  {
    RunInv(run, acts, i);
    var db := run[i];
    assert JobOk(db, j);
    forall x | x in db.attempts && db.attempts[x].job == j && IsActive(db.attempts[x].state)
      ensures db.jobs[j].current == Some(x) && CurrentSession(db, db.attempts[x].worker, db.attempts[x].session)
      ensures x in db.reservations && db.reservations[x] == Reservation(db.attempts[x].worker, LoadOf(db.jobs[j].spec), Held)
    {
      assert AttemptOk(db, x) && WorkerOk(db, db.attempts[x].worker);
    }
  }

  /** Capacity held in doubt is exactly cleanup still pending, and never an active attempt's. */
  lemma QuarantineIsPendingCleanup(run: seq<Db>, acts: seq<Action>, i: nat, x: AttemptId)
    requires IsRun(run, acts) && i < |run| && x in run[i].attempts
    ensures x in run[i].reservations
    ensures run[i].attempts[x].cleanupPending <==> run[i].reservations[x].state.Quarantined?
    ensures IsActive(run[i].attempts[x].state) <==> run[i].reservations[x].state.Held?
  {
    RunInv(run, acts, i);
    assert AttemptOk(run[i], x);
  }

  // ---------------------------------------------------------- errors that cannot happen

  lemma RenewNeverUndecodable(db: Db, c: RenewCall)
    requires ReplaysOk(db) && RenewalWellFormed(c)
    ensures Renew(db, c).reply != Err(ErrInvalid)
  {
    var key := RequestKey(c.worker, c.session, c.request);
    if key in db.renewals && db.renewals[key].members == MemberSet(c.members) { ReplayDecodesAlways(db, c); }
  }

  lemma AcquireNeverExhausted(db: Db, c: AcquireCall)
    requires Owned(db)
    ensures Acquire(db, c).reply != Err(ErrInvalid)
  {
    if RequestKey(c.worker, c.session, c.request) !in db.acquisitions && CurrentSession(db, c.worker, c.session)
       && AcquireReason(db, c).None? && c.newId !in db.attempts {
      Paths.CounterErrorUnreachable(db, c);
    } else if c.choice.Some? && c.choice.value in db.jobs {
      assert JobOk(db, c.choice.value);
    }
  }

  lemma RegisterNeverStranded(db: Db, c: RegisterCall, hash: Hash)
    requires Owned(db) && CompletionsEnded(db) && IsRecoveryOrder(db, c.worker, c.order) && c.worker in db.workers && c.worker in db.ceilings
    ensures Register(db, c, hash).reply != Err(ErrInternal)
  {
    hide FenceAll;
    hide OpenSession;
    hide ClaimsWithin;
    Paths.RecoveryNeverFails(db, c, hash);
    assert WorkerOk(db, c.worker);
  }

  lemma ReapNeverFails(db: Db, x: AttemptId, hash: Hash, t: Time)
    requires Owned(db)
    ensures Reap(db, x, hash, t).reply.Ok?
  {
    hide FenceLost;
    if Expired(db, x, t) { Paths.ActiveIsFenceable(db, x, hash, t); }
  }

  /** A completion that passes its checks is accepted: the row count of its reservation is always one. */
  lemma CompleteNeverUnreserved(db: Db, c: CompleteCall, hash: Hash)
    requires Owned(db) && Paths.CompletionChecked(db, c)
    ensures Complete(db, c, hash).reply.Ok? && Complete(db, c, hash).reply.value.decision.Accepted?
  {
    Paths.ActiveHoldsReservation(db, c.request.authority.attempt);
    hide Owned;
    hide Settle;
  }

  /** In no run does fencing or a completion miss a row, a waiting job run out of attempts, a recovery fail half-way or
      a stored renewal fail to decode. */
  lemma UnreachableErrors(run: seq<Db>, acts: seq<Action>, i: nat)
    requires IsRun(run, acts) && i < |acts|
    ensures acts[i].DoReap? ==> Reap(run[i], acts[i].attempt, acts[i].hash, acts[i].at).reply.Ok?
    ensures acts[i].DoAcquire? ==> Acquire(run[i], acts[i].acquire).reply != Err(ErrInvalid)
    ensures acts[i].DoRenew? && RenewalWellFormed(acts[i].renew) ==> Renew(run[i], acts[i].renew).reply != Err(ErrInvalid)
    ensures acts[i].DoRegister? && acts[i].register.worker in run[i].workers && acts[i].register.worker in run[i].ceilings ==>
              Register(run[i], acts[i].register, acts[i].hash).reply != Err(ErrInternal)
    ensures acts[i].DoComplete? && Paths.CompletionChecked(run[i], acts[i].complete) ==>
              var s := Complete(run[i], acts[i].complete, acts[i].hash); s.reply.Ok? && s.reply.value.decision.Accepted?
  {
    hide Complete;
    hide Paths.CompletionChecked;
    hide Reap;
    hide Acquire;
    hide Renew;
    hide Register;
    RunInv(run, acts, i);
    assert Steps(run, acts, i);
    match acts[i] {
      case DoReap(x, hash, t) => ReapNeverFails(run[i], x, hash, t);
      case DoAcquire(c) => AcquireNeverExhausted(run[i], c);
      case DoRenew(c) => if RenewalWellFormed(c) { RenewNeverUndecodable(run[i], c); }
      case DoComplete(c, hash) => if Paths.CompletionChecked(run[i], c) { CompleteNeverUnreserved(run[i], c, hash); }
      case DoRegister(c, hash) =>
        if c.worker in run[i].workers && c.worker in run[i].ceilings { RegisterNeverStranded(run[i], c, hash); }
      case _ =>
    }
  }

  // -------------------------------------------------------------------- capacity

  /** Held and quarantined capacity never exceeds the host's ceiling, active attempts never exceed a
      project's quotas, and active children never exceed a sweep's limit. */
  lemma NoOversubscription(run: seq<Db>, acts: seq<Action>, i: nat)
    requires IsRun(run, acts) && i < |run|
    ensures forall w :: w in run[i].workers ==> w in run[0].ceilings && Within(Total(HeldBy(run[i], w)), run[0].ceilings[w].limit)
    ensures forall p :: p in run[i].projects ==>
              var used := Total(ProjectRows(run[i], p));
              used.cpu <= Max(0, run[i].projects[p].cpuQuota) && used.memory <= Max(0, run[i].projects[p].memoryQuota)
              && used.slots <= Max(0, run[i].projects[p].slotQuota)
    ensures forall s :: s in run[i].sweeps ==> |SweepRows(run[i], s)| <= Max(0, run[i].sweeps[s].maxConcurrent)
  {
    hide Total;
    hide HeldBy;
    hide ProjectRows;
    hide SweepRows;
    RunInv(run, acts, i);
    RunEvolves(run, acts, 0, i);
    forall w | w in run[i].workers ensures w in run[0].ceilings && Within(Total(HeldBy(run[i], w)), run[0].ceilings[w].limit) {
      assert HostWithin(run[i], w);
    }
    forall p | p in run[i].projects ensures QuotaHolds(run[i].projects[p], Total(ProjectRows(run[i], p))) { assert ProjectWithin(run[i], p); }
    forall s | s in run[i].sweeps ensures |SweepRows(run[i], s)| <= Max(0, run[i].sweeps[s].maxConcurrent) { assert SweepWithin(run[i], s); }
  }

  // -------------------------------------------------------------------- outcomes

  /** A terminal job never changes again; it has an accepted attempt exactly when it succeeded. */
  lemma OutcomeIsFinal(run: seq<Db>, acts: seq<Action>, i: nat, k: nat, j: JobId)
    requires IsRun(run, acts) && i <= k < |run| && j in run[i].jobs
    ensures j in run[k].jobs
    ensures IsTerminal(run[i].jobs[j].state) ==> run[k].jobs[j] == run[i].jobs[j]
    ensures run[k].jobs[j].accepted.Some? <==> run[k].jobs[j].state.Succeeded?
    ensures run[i].jobs[j].accepted.Some? ==> run[k].jobs[j].accepted == run[i].jobs[j].accepted
  {
    RunEvolves(run, acts, i, k);
    RunInv(run, acts, i);
    RunInv(run, acts, k);
    assert JobEvolves(run[i], run[k], j) && JobOk(run[i], j) && JobOk(run[k], j);
  }

  /** A cancellation committed before the job ended can only end in CANCELLED. */
  lemma CancellationWins(run: seq<Db>, acts: seq<Action>, i: nat, k: nat, j: JobId)
    requires IsRun(run, acts) && i <= k < |run| && j in run[i].jobs && run[i].jobs[j].cancelRequested
    ensures j in run[k].jobs && (run[k].jobs[j].state.Cancelling? || run[k].jobs[j].state.Cancelled?)
  {
    RunEvolves(run, acts, i, k);
    RunInv(run, acts, k);
    assert JobEvolves(run[i], run[k], j) && JobOk(run[k], j);
  }

  /** Once an attempt has ended, no completion of it, however late, changes a row. */
  lemma LateCompletionIsInert(run: seq<Db>, acts: seq<Action>, i: nat, k: nat, c: CompleteCall, hash: Hash)
    requires IsRun(run, acts) && i <= k < |acts| && acts[k] == DoComplete(c, hash)
    requires c.request.authority.attempt in run[i].attempts && !IsActive(run[i].attempts[c.request.authority.attempt].state)
    ensures Commit(run[k], acts[k]) == run[k]
    ensures run[k + 1] == run[k].(clock := c.published)
  {
    RunEvolves(run, acts, i, k);
    assert AttemptEvolves(run[i], run[k], c.request.authority.attempt);
    assert Steps(run, acts, k);
  }

  // -------------------------------------------------------------- lapsed authority

  /** The transaction grants, extends or accepts something in the name of attempt `x`. */
  ghost predicate Accepts(db: Db, act: Action, x: AttemptId)
  {
    match act
    case DoRenew(c) =>
      var s := Renew(db, c);
      s.reply.Ok? && exists g :: g in s.reply.value && g.authority.attempt == x && g.decision.Accepted?
    case DoReportPhase(w, r, t) =>
      var s := ReportPhase(db, w, r, t);
      r.authority.attempt == x && s.reply.Ok? && s.reply.value.decision.Accepted?
    case DoComplete(c, hash) =>
      var s := Complete(db, c, hash);
      c.request.authority.attempt == x && x !in db.completions && s.reply.Ok? && s.reply.value.decision.Accepted?
    case DoAcquire(c) =>
      var s := Acquire(db, c);
      x in db.attempts && s.reply.Ok? && s.reply.value.Assignment? && s.reply.value.authority.attempt == x
    case _ => false
  }

  /** Whatever is accepted is accepted while the attempt is active, leased and inside its phase. */
  lemma AcceptedIsLive(db: Db, act: Action, x: AttemptId)
    requires Enabled(db, act) && Accepts(db, act, x)
    ensures x in db.attempts && !Lapsed(db.attempts[x], Closes(act))
  {
    hide Acquire;
    hide Complete;
    hide Renew;
    hide ReportPhase;
    match act {
      case DoRenew(c) => RenewedIsLive(db, c, x);
      case DoReportPhase(w, r, t) => ReportedIsLive(db, w, r, t);
      case DoComplete(c, hash) => CompletedIsLive(db, c, hash);
      case DoAcquire(c) => AcquiredIsLive(db, c, x);
      case _ =>
    }
  }

  lemma RenewedIsLive(db: Db, c: RenewCall, x: AttemptId)
    requires var s := Renew(db, c); s.reply.Ok? && exists g :: g in s.reply.value && g.authority.attempt == x && g.decision.Accepted?
    ensures x in db.attempts && !Lapsed(db.attempts[x], c.now)
  {
  }

  lemma ReportedIsLive(db: Db, w: WorkerId, r: PhaseReport, t: Time)
    requires var s := ReportPhase(db, w, r, t); s.reply.Ok? && s.reply.value.decision.Accepted?
    ensures r.authority.attempt in db.attempts && !Lapsed(db.attempts[r.authority.attempt], t)
  {
  }

  lemma CompletedIsLive(db: Db, c: CompleteCall, hash: Hash)
    requires var s := Complete(db, c, hash); s.reply.Ok? && s.reply.value.decision.Accepted? && c.request.authority.attempt !in db.completions
    requires c.now <= c.published
    ensures c.request.authority.attempt in db.attempts && !Lapsed(db.attempts[c.request.authority.attempt], c.published)
  {
    hide Settle;
  }

  lemma AcquiredIsLive(db: Db, c: AcquireCall, x: AttemptId)
    requires var s := Acquire(db, c); x in db.attempts && s.reply.Ok? && s.reply.value.Assignment? && s.reply.value.authority.attempt == x
    requires db.clock <= c.now
    ensures !Lapsed(db.attempts[x], c.now)
  {
    hide Assign;
    hide ValidSpec;
  }

  /** Once the lease or the phase deadline has passed, nothing is accepted for the attempt again. */
  lemma LapsedStaysLapsed(run: seq<Db>, acts: seq<Action>, i: nat, k: nat, x: AttemptId)
    requires IsRun(run, acts) && i <= k < |acts| && x in run[i].attempts && Lapsed(run[i].attempts[x], run[i].clock)
    ensures !Accepts(run[k], acts[k], x)
  {
    RunEvolves(run, acts, i, k);
    assert AttemptEvolves(run[i], run[k], x);
    assert Steps(run, acts, k);
    if Accepts(run[k], acts[k], x) { AcceptedIsLive(run[k], acts[k], x); }
  }

  /** Every accepted step comes before assignment time plus the three timeouts. */
  lemma AcceptedInTime(run: seq<Db>, acts: seq<Action>, k: nat, x: AttemptId)
    requires IsRun(run, acts) && k < |acts| && Accepts(run[k], acts[k], x)
    ensures x in run[k].attempts && run[k].attempts[x].job in run[k].jobs
    ensures Closes(acts[k]) < run[k].attempts[x].assignedAt + TotalTimeout(run[k].jobs[run[k].attempts[x].job].spec)
  {
    RunInv(run, acts, k);
    assert Steps(run, acts, k);
    AcceptedIsLive(run[k], acts[k], x);
    assert DeadlineOk(run[k], x);
  }

  // -------------------------------------------------------------------- fail-fast

  /** Once a child of a fail-fast sweep has failed, no sibling is queued; if the sweep cancels running
      children, every sibling is CANCELLING or has ended, and none ever fails as well. */
  lemma FailFastIsFinal(run: seq<Db>, acts: seq<Action>, i: nat, k: nat, f: JobId, sibling: JobId)
    requires IsRun(run, acts) && i <= k < |run| && f in run[i].jobs && run[i].jobs[f].state.Failed?
    requires sibling in run[k].jobs && sibling != f && run[i].jobs[f].sweep.Some? && run[k].jobs[sibling].sweep == run[i].jobs[f].sweep
    ensures run[i].jobs[f].sweep.value in run[k].sweeps
    ensures run[k].sweeps[run[i].jobs[f].sweep.value].failFast ==> !run[k].jobs[sibling].state.Queued?
    ensures run[k].sweeps[run[i].jobs[f].sweep.value].failFast && run[k].sweeps[run[i].jobs[f].sweep.value].cancelRunning ==>
              (run[k].jobs[sibling].state.Cancelling? || IsTerminal(run[k].jobs[sibling].state)) && !run[k].jobs[sibling].state.Failed?
  {
    RunEvolves(run, acts, i, k);
    RunInv(run, acts, k);
    assert JobEvolves(run[i], run[k], f) && JobOk(run[k], f) && PairOk(run[k], f, sibling);
  }

  // ------------------------------------------------------------------- termination

  /** A job's attempts are numbered 1 to its counter, each number once, never beyond the maximum. */
  lemma AttemptsNumbered(run: seq<Db>, acts: seq<Action>, i: nat, j: JobId, n: int)
    requires IsRun(run, acts) && i < |run| && j in run[i].jobs
    ensures (1 <= n <= run[i].jobs[j].counter) <==> exists x :: HasNumber(run[i], x, j, n)
    ensures forall x, y :: HasNumber(run[i], x, j, n) && HasNumber(run[i], y, j, n) ==> x == y
    ensures run[i].jobs[j].counter <= run[i].jobs[j].spec.retry.maxAttempts
    ensures IsWaiting(run[i].jobs[j].state) ==> run[i].jobs[j].counter < run[i].jobs[j].spec.retry.maxAttempts
  {
    RunInv(run, acts, i);
    assert JobOk(run[i], j) && NumbersTaken(run[i], j);
    if 1 <= n <= run[i].jobs[j].counter { assert NumberTaken(run[i], j, n); }
    forall x | HasNumber(run[i], x, j, n) ensures 1 <= n <= run[i].jobs[j].counter { assert AttemptOk(run[i], x); }
  }

  /** How often the stage of job `j` changed between states `i` and `k`. */
  ghost function StageChanges(run: seq<Db>, i: nat, k: nat, j: JobId): nat
    requires i <= k < |run| && forall m :: i <= m <= k ==> j in run[m].jobs
    decreases k
  {
    if i == k then 0
    else StageChanges(run, i, k - 1, j) + if StageOf(run[k], j) != StageOf(run[k - 1], j) then 1 else 0
  }

  lemma JobStays(run: seq<Db>, acts: seq<Action>, i: nat, k: nat, j: JobId)
    requires IsRun(run, acts) && i <= k < |run| && j in run[i].jobs
    ensures forall m :: i <= m <= k ==> j in run[m].jobs && run[m].jobs[j].spec == run[i].jobs[j].spec
  {
    forall m | i <= m <= k ensures j in run[m].jobs && run[m].jobs[j].spec == run[i].jobs[j].spec {
      RunEvolves(run, acts, i, m);
      assert JobEvolves(run[i], run[m], j);
    }
  }

  lemma StepSpends(run: seq<Db>, acts: seq<Action>, k: nat, j: JobId)
    requires IsRun(run, acts) && k < |acts| && j in run[k].jobs
    ensures BudgetSpent(run[k], run[k + 1], j)
  {
    RunInv(run, acts, k);
    assert Steps(run, acts, k);
    ActionSpends(run[k], acts[k], run[k + 1], j);
  }

  lemma {:induction false} ChangesSpendBudget(run: seq<Db>, acts: seq<Action>, i: nat, k: nat, j: JobId)
    requires IsRun(run, acts) && i <= k < |run| && j in run[i].jobs
    requires forall m :: i <= m <= k ==> j in run[m].jobs && run[m].jobs[j].spec == run[i].jobs[j].spec
    ensures var max := run[i].jobs[j].spec.retry.maxAttempts;
            StageChanges(run, i, k, j) + Budget(StageOf(run[k], j), max) <= Budget(StageOf(run[i], j), max)
    decreases k
  {
    if i < k {
      ChangesSpendBudget(run, acts, i, k - 1, j);
      StepSpends(run, acts, k - 1, j);
    }
  }

  /** However long the run, a job's stage changes at most six times per permitted attempt. */
  lemma LifecycleIsBounded(run: seq<Db>, acts: seq<Action>, i: nat, k: nat, j: JobId)
    requires IsRun(run, acts) && i <= k < |run| && j in run[i].jobs
    ensures forall m :: i <= m <= k ==> j in run[m].jobs
    ensures StageChanges(run, i, k, j) <= 6 * run[i].jobs[j].spec.retry.maxAttempts
  {
    JobStays(run, acts, i, k, j);
    ChangesSpendBudget(run, acts, i, k, j);
    RunInv(run, acts, i);
    RunInv(run, acts, k);
    BudgetBounded(run[i], j);
    BudgetBounded(run[k], j);
  }
}
