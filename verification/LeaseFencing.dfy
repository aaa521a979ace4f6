/** Who may end an attempt that still holds its lease. */
module LeaseFencing {
  import opened Base
  import opened Schema
  import opened Decisions
  import opened Transactions
  import opened Protocol
  import opened Changes
  import opened Ownership
  import opened Evolution
  import opened Runs
  import opened LeaseWindow
  import opened AuthorityControl
  import opened LeaseSafety
  import opened PhaseSafety
  import Paths

  /** Ended without a completion of its own. */
  ghost predicate FencedBy(db: Db, d: Db, x: AttemptId)
  {
    && x in db.attempts && IsActive(db.attempts[x].state)
    && x in d.attempts && !IsActive(d.attempts[x].state) && x !in d.completions
  }

  /** A takeover an operator approved for exactly this replacement. */
  ghost predicate ApprovedTakeover(db: Db, act: Action, x: AttemptId)
    requires x in db.attempts
  {
    && act.DoRegister? && act.register.worker == db.attempts[x].worker && act.register.worker in db.workers
    && db.workers[act.register.worker].current.Some?
    && Approved(db, act.register.worker, db.workers[act.register.worker].current.value, act.register.claims.session)
  }

  ghost predicate PhaseReaped(db: Db, act: Action, x: AttemptId)
    requires x in db.attempts
  {
    act.DoReap? && act.attempt == x && db.attempts[x].phase <= act.at
  }

  lemma SettleOthers(db: Db, id: AttemptId, e: Ending, x: AttemptId)
    requires id in db.attempts && id in db.reservations && db.attempts[id].job in db.jobs && x in db.attempts && x != id
    ensures x in Settle(db, id, e).attempts && Settle(db, id, e).attempts[x] == db.attempts[x]
  {
    SettleOnlyStops(db, id, e);
  }

  lemma FenceOthers(db: Db, id: AttemptId, hash: Hash, now: Time, x: AttemptId)
    requires FenceLost(db, id, hash, now).Ok? && x in db.attempts && x != id
    ensures x in FenceLost(db, id, hash, now).value.attempts && FenceLost(db, id, hash, now).value.attempts[x] == db.attempts[x]
  {
    SettleOthers(db, id, FenceEnding(db.jobs[db.attempts[id].job], db.attempts[id], hash(id), now), x);
  }

  lemma {:induction false} FenceAllOthers(db: Db, ids: seq<AttemptId>, hash: Hash, now: Time, x: AttemptId)
    requires FenceAll(db, ids, hash, now).Ok? && x in db.attempts && x !in ids
    ensures x in FenceAll(db, ids, hash, now).value.attempts && FenceAll(db, ids, hash, now).value.attempts[x] == db.attempts[x]
  {
    if ids != [] {
      FenceAllOthers(db, ids[..|ids| - 1], hash, now, x);
      FenceOthers(FenceAll(db, ids[..|ids| - 1], hash, now).value, ids[|ids| - 1], hash, now, x);
    }
  }

  /** Recovery without approval refuses while a lease is live, and touches no other host's attempts. */
  lemma RecoverSpares(db: Db, w: WorkerId, from: SessionId, to: SessionId, order: seq<AttemptId>, hash: Hash, now: Time, x: AttemptId)
    requires CurrentSession(db, w, from) && x in db.attempts && IsActive(db.attempts[x].state) && db.attempts[x].lease > now
    requires IsRecoveryOrder(db, w, order) && (db.attempts[x].worker == w ==> !Approved(db, w, from, to))
    requires Recover(db, w, from, to, order, hash, now).Ok?
    ensures x in Recover(db, w, from, to, order, hash, now).value.attempts
    ensures Recover(db, w, from, to, order, hash, now).value.attempts[x] == db.attempts[x]
  {
    assert x !in order;
    FenceAllOthers(db, order, hash, now, x);
  }

  lemma RegisterSpares(db: Db, c: RegisterCall, hash: Hash, done: Db, x: AttemptId)
    requires Owned(db) && done == Register(db, c, hash).db && db.clock <= c.now && IsRecoveryOrder(db, c.worker, c.order)
    requires x in db.attempts && IsActive(db.attempts[x].state) && db.attempts[x].lease > c.now
    requires !(db.attempts[x].worker == c.worker && c.worker in db.workers && db.workers[c.worker].current.Some?
               && Approved(db, c.worker, db.workers[c.worker].current.value, c.claims.session))
    ensures x in done.attempts && done.attempts[x] == db.attempts[x]
  {
    hide Register;
    hide Recover;
    var base := Paths.RegisterBase(db, c, hash, done);
    if base != db {
      assert WorkerOk(db, c.worker);
      RecoverSpares(db, c.worker, db.workers[c.worker].current.value, c.claims.session, c.order, hash, c.now, x);
    }
  }

  lemma ReapSpares(db: Db, id: AttemptId, hash: Hash, now: Time, done: Db, x: AttemptId)
    requires Owned(db) && CompletionsEnded(db) && done == Reap(db, id, hash, now).db && x in db.attempts
    requires id == x ==> db.attempts[x].lease > now && db.attempts[x].phase > now
    ensures x in done.attempts && done.attempts[x] == db.attempts[x]
  {
    if Transactions.Expired(db, id, now) {
      var out, e := Paths.ReapShape(db, id, hash, now);
      EndedShape(out, id, e, None, done);
    }
  }

  lemma CompleteSpares(db: Db, c: CompleteCall, hash: Hash, done: Db, x: AttemptId)
    requires done == Complete(db, c, hash).db && x in db.attempts && x !in done.completions
    ensures x in done.attempts && done.attempts[x] == db.attempts[x]
  {
    Paths.CompleteShape(db, c, hash);
    if Paths.Completes(db, c) {
      var id := c.request.authority.attempt;
      assert x != id;
      SettleOthers(db, id, Paths.EndingOf(db, c, hash), x);
    }
  }

  lemma AcquireSpares(db: Db, c: AcquireCall, done: Db, x: AttemptId)
    requires x in db.attempts && done == Acquire(db, c).db
    ensures x in done.attempts && done.attempts[x] == db.attempts[x]
  {
    hide Acquire;
    hide Assigns;
    hide Assign;
    hide ValidSpec;
    Paths.AcquireRows(db, c);
    if Assigns(db, c) {
      Paths.AssignsChosen(db, c);
      Paths.AssignFrame(db, c, c.choice.value);
    }
  }

  lemma SubmitSpares(db: Db, sweep: Option<(SweepId, Sweep)>, children: map<JobId, NewJob>, now: Time)
    ensures Submit(db, sweep, children, now).db.attempts == db.attempts
  {
    hide Submit;
    hide Submitted;
    Paths.SubmitRows(db, sweep, children, now);
    Paths.SubmittedFrame(db, sweep, children, now);
  }

  lemma RenewSpares(db: Db, c: RenewCall, done: Db, x: AttemptId)
    requires x in db.attempts && done == Renew(db, c).db
    ensures x in done.attempts && done.attempts[x].state == db.attempts[x].state
  {
  }

  lemma ReportSpares(db: Db, w: WorkerId, r: PhaseReport, now: Time, done: Db, x: AttemptId)
    requires x in db.attempts && IsActive(db.attempts[x].state) && done == ReportPhase(db, w, r, now).db
    ensures x in done.attempts && IsActive(done.attempts[x].state)
  {
    hide LeaseDecision;
    hide NextPhaseDeadline;
    hide CurrentSession;
  }

  lemma HeartbeatSpares(db: Db, w: WorkerId, h: HeartbeatReport, now: Time, done: Db, x: AttemptId)
    requires x in db.attempts && done == Heartbeat(db, w, h, now).db
    ensures x in done.attempts && done.attempts[x].state == db.attempts[x].state
  {
  }

  lemma OthersSpare(db: Db, act: Action, done: Db, x: AttemptId)
    requires Owned(db) && db.clock <= Opens(act) <= Closes(act)
    requires x in db.attempts && IsActive(db.attempts[x].state) && done == Commit(db, act)
    requires !act.DoRegister? && !act.DoReap? && !act.DoComplete?
    ensures x in done.attempts && IsActive(done.attempts[x].state)
  {
    hide Acquire;
    hide Renew;
    hide ReportPhase;
    hide Heartbeat;
    match act {
      case DoAcquire(c) => AcquireSpares(db, c, done, x);
      case DoRenew(c) => RenewSpares(db, c, done, x);
      case DoReportPhase(w, r, t) => ReportSpares(db, w, r, t, done, x);
      case DoHeartbeat(w, h, t) => HeartbeatSpares(db, w, h, t, done, x);
      case DoSubmit(sweep, children, t) => SubmitSpares(db, sweep, children, t);
      case DoCancel(p, j, t) => assert done.attempts == db.attempts;
      case DoDrain(w, t) => assert done.attempts == db.attempts;
      case DoApproveTakeover(w, from, to, t) => assert done.attempts == db.attempts;
      case DoWait(t) =>
    }
  }

  /** Before its lease ends, an attempt is fenced only because its phase is over or an operator approved
      the takeover of its host. */
  lemma FencingNeedsExpiry(db: Db, act: Action, d: Db, x: AttemptId)
    requires Inv(db) && Next(db, act, d) && FencedBy(db, d, x) && db.attempts[x].lease > Opens(act)
    ensures PhaseReaped(db, act, x) || ApprovedTakeover(db, act, x)
  {
    hide Commit;
    hide Enabled;
    InvOwns(db);
    EnabledInOrder(db, act);
    hide Inv;
    FencedHow(db, act, Commit(db, act), x);
  }

  lemma FencedHow(db: Db, act: Action, done: Db, x: AttemptId)
    requires Owned(db) && CompletionsEnded(db) && done == Commit(db, act) && FencedBy(db, done, x) && db.attempts[x].lease > Opens(act)
    requires db.clock <= Opens(act) <= Closes(act)
    requires act.DoRegister? ==> IsRecoveryOrder(db, act.register.worker, act.register.order)
    ensures PhaseReaped(db, act, x) || ApprovedTakeover(db, act, x)
  {
    hide Owned;
    hide CompletionsEnded;
    hide Register;
    hide Reap;
    hide Complete;
    hide Acquire;
    hide Renew;
    hide ReportPhase;
    hide Heartbeat;
    hide Submit;
    match act {
      case DoRegister(c, hash) =>
        if !ApprovedTakeover(db, act, x) { RegisterSpares(db, c, hash, done, x); }
      case DoReap(id, hash, t) =>
        if !PhaseReaped(db, act, x) { ReapSpares(db, id, hash, t, done, x); }
      case DoComplete(c, hash) => CompleteSpares(db, c, hash, done, x);
      case _ => OthersSpare(db, act, done, x);
    }
  }

  lemma InvOwns(db: Db)
    requires Inv(db)
    ensures Owned(db) && CompletionsEnded(db)
  {
  }

  lemma EnabledInOrder(db: Db, act: Action)
    requires Enabled(db, act)
    ensures db.clock <= Opens(act) <= Closes(act)
    ensures act.DoRegister? ==> IsRecoveryOrder(db, act.register.worker, act.register.order)
  {
  }

  /** Lease-based fencing never hits a live window. */
  lemma LiveWindowNotFenced(skew: int, run: seq<System>, moves: seq<Move>, i: nat, a: Authority)
    requires SystemRun(skew, run, moves) && i < |moves| && (moves[i].Server? || moves[i].Serve?)
    requires 0 <= Opens(moves[i].act) + skew <= MAX_MONO
    requires a in run[i].controls && IsLive(run[i].controls[a].state, Some(Opens(moves[i].act) + skew))
    requires FencedBy(run[i].db, run[i + 1].db, a.attempt)
    ensures PhaseReaped(run[i].db, moves[i].act, a.attempt) || ApprovedTakeover(run[i].db, moves[i].act, a.attempt)
  {
    SystemSafe(skew, run, moves, i);
    LeaseExclusion(skew, run, moves, i, a, Opens(moves[i].act) + skew);
    FencingNeedsExpiry(run[i].db, moves[i].act, run[i + 1].db, a.attempt);
  }

  /** While the attempt is in the phase of the grant, or if its job's timeouts fit, a live window is fenced
      only by an approved takeover. */
  lemma LiveWindowNeedsApproval(skew: int, run: seq<System>, moves: seq<Move>, i: nat, a: Authority)
    requires SystemRun(skew, run, moves) && i < |moves| && (moves[i].Server? || moves[i].Serve?)
    requires 0 <= Opens(moves[i].act) + skew <= MAX_MONO
    requires a in run[i].controls && IsLive(run[i].controls[a].state, Some(Opens(moves[i].act) + skew))
    requires FencedBy(run[i].db, run[i + 1].db, a.attempt)
    requires || PhaseRank(run[i].controls[a].since) == PhaseRank(run[i].db.attempts[a.attempt].state)
             || (run[i].db.attempts[a.attempt].job in run[i].db.jobs && PhasesFit(run[i].db.jobs[run[i].db.attempts[a.attempt].job].spec))
    ensures ApprovedTakeover(run[i].db, moves[i].act, a.attempt)
  {
    hide Moves;
    LiveWindowNotFenced(skew, run, moves, i, a);
    LeaseExclusion(skew, run, moves, i, a, Opens(moves[i].act) + skew);
    PhaseExclusion(skew, run, moves, i, a, Opens(moves[i].act) + skew);
  }
}
