/** Quarantined capacity: the only transaction that frees it, and what that transaction attests. */
module ReleaseSafety {
  import opened Base
  import opened Schema
  import opened Decisions
  import opened Transactions
  import opened Protocol
  import opened Changes
  import opened Ownership
  import opened Evolution
  import opened Quarantine
  import opened Runs
  import Paths

  lemma SettleKeepsQuarantine(db: Db, id: AttemptId, e: Ending, x: AttemptId)
    requires id in db.attempts && id in db.reservations && db.attempts[id].job in db.jobs
    requires IsQuarantined(db, x) && db.reservations[id].state.Held?
    ensures IsQuarantined(Settle(db, id, e), x)
  {
    SettleOnlyStops(db, id, e);
  }

  lemma FenceKeepsQuarantine(db: Db, id: AttemptId, hash: Hash, now: Time, x: AttemptId)
    requires IsQuarantined(db, x) && FenceLost(db, id, hash, now).Ok?
    ensures IsQuarantined(FenceLost(db, id, hash, now).value, x)
  {
    hide Settle;
    hide FenceEnding;
    SettleKeepsQuarantine(db, id, FenceEnding(db.jobs[db.attempts[id].job], db.attempts[id], hash(id), now), x);
  }

  lemma {:induction false} FenceAllKeepsQuarantine(db: Db, ids: seq<AttemptId>, hash: Hash, now: Time, x: AttemptId)
    requires IsQuarantined(db, x) && FenceAll(db, ids, hash, now).Ok?
    ensures IsQuarantined(FenceAll(db, ids, hash, now).value, x)
  {
    if ids != [] {
      var before := FenceAll(db, ids[..|ids| - 1], hash, now);
      FenceAllKeepsQuarantine(db, ids[..|ids| - 1], hash, now, x);
      FenceKeepsQuarantine(before.value, ids[|ids| - 1], hash, now, x);
    }
  }

  lemma RecoverKeepsQuarantine(db: Db, w: WorkerId, from: SessionId, to: SessionId, order: seq<AttemptId>, hash: Hash, now: Time, x: AttemptId)
    requires IsQuarantined(db, x) && Recover(db, w, from, to, order, hash, now).Ok?
    ensures IsQuarantined(Recover(db, w, from, to, order, hash, now).value, x)
  {
    FenceAllKeepsQuarantine(db, order, hash, now, x);
  }

  lemma RegisterKeepsQuarantine(db: Db, c: RegisterCall, hash: Hash, x: AttemptId, done: Db)
    requires IsQuarantined(db, x) && done == Register(db, c, hash).db && db.clock <= c.now
    ensures IsQuarantined(done, x)
  {
    hide Register;
    hide Recover;
    var base := Paths.RegisterBase(db, c, hash, done);
    if base != db {
      RecoverKeepsQuarantine(db, c.worker, db.workers[c.worker].current.value, c.claims.session, c.order, hash, c.now, x);
    }
  }

  lemma ReapKeepsQuarantine(db: Db, id: AttemptId, hash: Hash, now: Time, x: AttemptId)
    requires IsQuarantined(db, x)
    ensures IsQuarantined(Reap(db, id, hash, now).db, x)
  {
    if Expired(db, id, now) && FenceLost(db, id, hash, now).Ok? { FenceKeepsQuarantine(db, id, hash, now, x); }
  }

  lemma CompleteKeepsQuarantine(db: Db, c: CompleteCall, hash: Hash, x: AttemptId)
    requires IsQuarantined(db, x)
    ensures IsQuarantined(Complete(db, c, hash).db, x)
  {
    hide Complete;
    hide Settle;
    Paths.CompleteShape(db, c, hash);
    if Paths.Completes(db, c) { SettleKeepsQuarantine(db, c.request.authority.attempt, Paths.EndingOf(db, c, hash), x); }
  }

  lemma AcquireKeepsQuarantine(db: Db, c: AcquireCall, x: AttemptId)
    requires IsQuarantined(db, x) && db.reservations.Keys == db.attempts.Keys
    ensures IsQuarantined(Acquire(db, c).db, x)
  {
    hide Acquire;
    hide AcquireReason;
    hide Assign;
    hide ValidSpec;
    Paths.AcquireRows(db, c);
    if Assigns(db, c) {
      Paths.AssignFrame(db, c, c.choice.value);
      assert x in db.attempts.Keys;
    }
  }

  lemma SimpleKeepsQuarantine(db: Db, act: Action, x: AttemptId)
    requires IsQuarantined(db, x)
    requires act.DoWait? || act.DoSubmit? || act.DoCancel? || act.DoDrain? || act.DoApproveTakeover? || act.DoRenew? || act.DoReportPhase?
    ensures IsQuarantined(Commit(db, act), x)
  {
    hide LeaseDecision;
    hide NextPhaseDeadline;
    hide CurrentSession;
    hide RenewalWellFormed;
    hide PhaseReportWellFormed;
    hide SubmissionValid;
    hide SubmissionNew;
  }

  lemma OthersKeepQuarantine(db: Db, act: Action, x: AttemptId)
    requires IsQuarantined(db, x) && db.reservations.Keys == db.attempts.Keys && !act.DoHeartbeat? && db.clock <= Opens(act)
    ensures IsQuarantined(Commit(db, act), x)
  {
    hide Acquire;
    hide Complete;
    hide Register;
    hide Reap;
    hide Submit;
    hide Renew;
    hide ReportPhase;
    hide IsQuarantined;
    match act {
      case DoAcquire(c) => AcquireKeepsQuarantine(db, c, x);
      case DoComplete(c, hash) => CompleteKeepsQuarantine(db, c, hash, x);
      case DoRegister(c, hash) => RegisterKeepsQuarantine(db, c, hash, x, Commit(db, act));
      case DoReap(id, hash, t) => ReapKeepsQuarantine(db, id, hash, t, x);
      case _ => SimpleKeepsQuarantine(db, act, x);
    }
  }

  /** What the report must attest before the capacity of `x` is reused. */
  ghost predicate Attested(db: Db, w: WorkerId, h: HeartbeatReport, now: Time, x: AttemptId)
    requires x in db.attempts
  {
    // A new report of the host's current, unfenced incarnation, which is not the one that ran the attempt.
    && CurrentSession(db, w, h.session) && db.sessions[h.session].heartbeat < h.sequence
    && db.attempts[x].worker == w && db.attempts[x].session != h.session
    && db.attempts[x].session in db.sessions && db.sessions[db.attempts[x].session].fenced.Some?
    // Healthy, reconciled, and every container it still runs is authorised.
    && h.healthy && h.reconciled
    && (forall e :: e in h.inventory ==>
          && e.authority.attempt in db.attempts && AuthorityOf(e.authority.attempt, db.attempts[e.authority.attempt]) == e.authority
          && db.attempts[e.authority.attempt].worker == w && AttemptAuthorized(db, e.authority.attempt, h.session, now))
    // Nothing the control plane still counts on this host is missing or without authority.
    && (forall a :: a in db.attempts && db.attempts[a].worker == w && IsActive(db.attempts[a].state) ==>
          && AttemptAuthorized(db, a, h.session, now)
          && (db.attempts[a].state.Running? ==> exists e :: e in h.inventory && e.authority.attempt == a))
    && x !in Present(h)
  }

  lemma ReleaseIsAttested(db: Db, w: WorkerId, h: HeartbeatReport, now: Time, x: AttemptId)
    requires x in db.attempts && CurrentSession(db, w, h.session) && db.sessions[h.session].heartbeat < h.sequence
    requires Releases(db, w, h, now, x)
    ensures Attested(db, w, h, now, x)
  {
    assert StopSet(db, w, h, now) == {};
    forall e | e in h.inventory ensures !MustStop(db, w, h, e.authority, now) {
      assert e.authority !in StopSet(db, w, h, now);
    }
    forall a | a in db.attempts && db.attempts[a].worker == w && IsActive(db.attempts[a].state)
      ensures AttemptAuthorized(db, a, h.session, now)
    {
      assert AuthorityOf(a, db.attempts[a]) !in StopSet(db, w, h, now);
    }
    forall a | a in db.attempts && db.attempts[a].worker == w && db.attempts[a].state.Running?
      ensures exists e :: e in h.inventory && e.authority.attempt == a
    {
      assert a in Present(h);
    }
  }

  /** Quarantined capacity is freed only by such a heartbeat. */
  lemma ReleaseSafe(run: seq<Db>, acts: seq<Action>, i: nat, x: AttemptId)
    requires IsRun(run, acts) && i < |acts| && x in run[i].attempts && IsQuarantined(run[i], x) && !IsQuarantined(run[i + 1], x)
    ensures acts[i].DoHeartbeat? && Attested(run[i], acts[i].worker, acts[i].beat, acts[i].at, x)
    ensures x in run[i + 1].reservations && run[i + 1].reservations[x].state.Released?
  {
    RunInv(run, acts, i);
    assert Steps(run, acts, i);
    if !acts[i].DoHeartbeat? {
      OthersKeepQuarantine(run[i], acts[i], x);
      assert false;
    }
    ReleaseIsAttested(run[i], acts[i].worker, acts[i].beat, acts[i].at, x);
  }

  lemma {:induction false} RunQuarantine(run: seq<Db>, acts: seq<Action>, i: nat, k: nat, x: AttemptId)
    requires IsRun(run, acts) && i <= k < |run| && x in run[i].attempts
    ensures x in run[k].attempts && QuarantineEvolves(run[i], run[k], x)
    decreases k
  {
    hide Next;
    hide Owned;
    hide QuarantineEvolves;
    if i == k {
      QuarantineStays(run[i], x);
    } else {
      RunQuarantine(run, acts, i, k - 1, x);
      RunEvolves(run, acts, i, k - 1);
      RunInv(run, acts, i);
      RunStep(run, acts, k - 1);
      ActionQuarantine(run[k - 1], acts[k - 1], run[k], x);
      assert AttemptEvolves(run[k - 1], run[k], x);
      QuarantineTransitive(run[i], run[k - 1], run[k], x);
    }
  }

  /** A session in which an attempt was fenced stays out of service for as long as it is current. */
  lemma FencedSessionStaysOut(run: seq<Db>, acts: seq<Action>, i: nat, k: nat, x: AttemptId)
    requires IsRun(run, acts) && i <= k < |run| && x in run[i].attempts && IsQuarantined(run[i], x) && x !in run[i].completions
    requires run[i].attempts[x].worker in run[k].workers
    requires run[k].workers[run[i].attempts[x].worker].current == Some(run[i].attempts[x].session)
    ensures HostOut(run[k], run[i].attempts[x].worker)
  {
    RunInv(run, acts, i);
    RunInv(run, acts, k);
    RunEvolves(run, acts, i, k);
    RunQuarantine(run, acts, i, k, x);
    assert AttemptOk(run[i], x) && AttemptEvolves(run[i], run[k], x) && WorkerOk(run[k], run[i].attempts[x].worker);
    assert FencedHere(run[k], x) && LatchOk(run[k], x);
  }

  lemma ReapQuarantines(db: Db, x: AttemptId, hash: Hash, t: Time, d: Db)
    requires Owned(db) && CompletionsEnded(db) && Expired(db, x, t) && d == Reap(db, x, hash, t).db
    ensures x in d.attempts && IsQuarantined(d, x) && x !in d.completions
    ensures d.attempts[x].worker == db.attempts[x].worker && d.attempts[x].session == db.attempts[x].session
  {
    var out, e := Paths.ReapShape(db, x, hash, t);
    EndedShape(out, x, e, None, d);
  }

  /** What the reaper fences is quarantined without a completion. */
  lemma ReapFences(run: seq<Db>, acts: seq<Action>, i: nat, x: AttemptId, hash: Hash, t: Time)
    requires IsRun(run, acts) && i < |acts| && acts[i] == DoReap(x, hash, t) && Expired(run[i], x, t)
    ensures x in run[i + 1].attempts && IsQuarantined(run[i + 1], x) && x !in run[i + 1].completions
    ensures run[i + 1].attempts[x].worker == run[i].attempts[x].worker && run[i + 1].attempts[x].session == run[i].attempts[x].session
  {
    RunInv(run, acts, i);
    assert Steps(run, acts, i);
    ReapQuarantines(run[i], x, hash, t, Commit(run[i], acts[i]));
  }

  /** After the reaper fenced one of its attempts, a session is never given work again. */
  lemma NoWorkAfterReap(run: seq<Db>, acts: seq<Action>, i: nat, k: nat, x: AttemptId, hash: Hash, t: Time)
    requires IsRun(run, acts) && i < k < |acts| && acts[i] == DoReap(x, hash, t) && Expired(run[i], x, t)
    requires acts[k].DoAcquire? && acts[k].acquire.worker == run[i].attempts[x].worker && acts[k].acquire.session == run[i].attempts[x].session
    ensures !Assigns(run[k], acts[k].acquire)
  {
    ReapFences(run, acts, i, x, hash, t);
    var c := acts[k].acquire;
    if CurrentSession(run[k], c.worker, c.session) {
      FencedSessionStaysOut(run, acts, i + 1, k, x);
    }
  }
}
