/** Who owns a job: the cross-table invariant kept by every change. */
module Ownership {
  import opened Base
  import opened Totals
  import opened Schema
  import opened Transactions
  import opened Changes

  ghost predicate AttemptOk(db: Db, id: AttemptId)
    requires id in db.attempts
  {
    var a := db.attempts[id];
    && a.job in db.jobs && ValidSpec(db.jobs[a.job].spec)
    && a.worker in db.workers && a.session in db.sessions && db.sessions[a.session].worker == a.worker
    && id in db.reservations && db.reservations[id].worker == a.worker
    && db.reservations[id].load == LoadOf(db.jobs[a.job].spec)
    && 1 <= a.number <= db.jobs[a.job].counter
    && (IsActive(a.state) <==> db.reservations[id].state.Held?)
    && (a.cleanupPending <==> db.reservations[id].state.Quarantined?)
    && (IsActive(a.state) ==>
          db.jobs[a.job].current == Some(id) && a.number == db.jobs[a.job].counter
          && db.workers[a.worker].current == Some(a.session))
  }

  ghost predicate JobOk(db: Db, id: JobId)
    requires id in db.jobs
  {
    var j := db.jobs[id];
    && ValidSpec(j.spec) && j.project in db.projects && (j.sweep.Some? ==> j.sweep.value in db.sweeps)
    && (j.current.Some? <==> IsOwned(j.state))
    && (j.current.Some? ==>
          j.current.value in db.attempts && db.attempts[j.current.value].job == id
          && IsActive(db.attempts[j.current.value].state))
    && (j.accepted.Some? <==> j.state.Succeeded?)
    && (j.accepted.Some? ==>
          j.accepted.value in db.attempts && db.attempts[j.accepted.value].job == id
          && db.attempts[j.accepted.value].state.Succeeded?)
    && (j.cancelRequested <==> j.state.Cancelling? || j.state.Cancelled?)
    && 0 <= j.counter <= j.spec.retry.maxAttempts
    && (IsWaiting(j.state) ==> j.counter < j.spec.retry.maxAttempts)
    && (j.state.Queued? ==> j.counter == 0)
  }

  ghost predicate WorkerOk(db: Db, w: WorkerId)
    requires w in db.workers
  {
    && w in db.ceilings && Within(db.workers[w].claim, db.ceilings[w].limit)
    && (db.workers[w].current.Some? ==> CurrentSession(db, w, db.workers[w].current.value))
  }

  ghost predicate SessionOk(db: Db, s: SessionId)
    requires s in db.sessions
  {
    && db.sessions[s].worker in db.workers
    && (db.sessions[s].fenced.None? ==> db.workers[db.sessions[s].worker].current == Some(s))
  }

  ghost predicate Owned(db: Db)
  {
    && db.reservations.Keys == db.attempts.Keys
    && (forall id {:trigger AttemptOk(db, id)} :: id in db.attempts ==> AttemptOk(db, id))
    && (forall id {:trigger JobOk(db, id)} :: id in db.jobs ==> JobOk(db, id))
    && (forall w {:trigger WorkerOk(db, w)} :: w in db.workers ==> WorkerOk(db, w))
    && (forall s {:trigger SessionOk(db, s)} :: s in db.sessions ==> SessionOk(db, s))
  }

  /** A completion record names an attempt that ended the way the record says. */
  ghost predicate CompletionsEnded(db: Db)
  {
    forall id {:trigger id in db.completions} :: id in db.completions ==>
      && id in db.attempts && !IsActive(db.attempts[id].state) && db.attempts[id].state == db.completions[id].state
      && db.completions[id].request.authority == AuthorityOf(id, db.attempts[id])
  }

  // Element lemmas carry no quantifier: only the rows they compare.

  lemma EndKeepsAttempt(db: Db, id: AttemptId, e: Ending, record: Option<CompletionRecord>, x: AttemptId)
    requires CanEnd(db, id, e, record) && AttemptOk(db, id) && x in db.attempts && AttemptOk(db, x)
    ensures AttemptOk(EndAttempt(db, id, e), x)
  {
  }

  lemma EndKeepsJob(db: Db, id: AttemptId, e: Ending, record: Option<CompletionRecord>, x: JobId)
    requires CanEnd(db, id, e, record) && AttemptOk(db, id) && x in db.jobs && JobOk(db, x)
    ensures JobOk(EndAttempt(db, id, e), x)
  {
  }

  lemma EndKeepsOwned(db: Db, id: AttemptId, e: Ending, record: Option<CompletionRecord>)
    requires Owned(db) && CanEnd(db, id, e, record)
    ensures Owned(EndAttempt(db, id, e))
  {
    var d := EndAttempt(db, id, e);
    assert AttemptOk(db, id);
    forall x | x in d.attempts ensures AttemptOk(d, x) { EndKeepsAttempt(db, id, e, record, x); }
    forall x | x in d.jobs ensures JobOk(d, x) { EndKeepsJob(db, id, e, record, x); }
    forall x | x in d.workers ensures WorkerOk(d, x) { assert WorkerOk(db, x); }
    forall x | x in d.sessions ensures SessionOk(d, x) { assert SessionOk(db, x); }
  }

  lemma StopsKeepAttempt(db: Db, d: Db, x: AttemptId)
    requires OnlyStops(db, d) && x in db.attempts && AttemptOk(db, x)
    ensures AttemptOk(d, x)
  {
    hide ValidSpec;
  }

  lemma StopsKeepJob(db: Db, d: Db, x: JobId)
    requires OnlyStops(db, d) && x in db.jobs && JobOk(db, x)
    ensures JobOk(d, x)
  {
    hide ValidSpec;
  }

  lemma StopsKeepOwned(db: Db, d: Db)
    requires Owned(db) && OnlyStops(db, d)
    ensures Owned(d)
  {
    forall x | x in d.attempts ensures AttemptOk(d, x) { assert AttemptOk(db, x); StopsKeepAttempt(db, d, x); }
    forall x | x in d.jobs ensures JobOk(d, x) { assert JobOk(db, x); StopsKeepJob(db, d, x); }
    forall x | x in d.workers ensures WorkerOk(d, x) { assert WorkerOk(db, x); }
    forall x | x in d.sessions ensures SessionOk(d, x) { assert SessionOk(db, x); }
  }

  lemma EndedKeepsOwned(db: Db, id: AttemptId, e: Ending, record: Option<CompletionRecord>)
    requires Owned(db) && CanEnd(db, id, e, record)
    ensures Owned(Ended(db, id, e, record))
  {
    EndKeepsOwned(db, id, e, record);
    SettleOnlyStops(db, id, e);
    StopsKeepOwned(EndAttempt(db, id, e), Settle(db, id, e));
    FrameKeepsOwned(Settle(db, id, e), Ended(db, id, e, record));
  }

  lemma EnqueueKeepsOwned(db: Db, sweep: Option<(SweepId, Sweep)>, children: map<JobId, NewJob>, now: Time)
    requires Owned(db) && CanEnqueue(db, sweep, children, now)
    ensures Owned(Submitted(db, sweep, children, now))
  {
    var d := Submitted(db, sweep, children, now);
    forall x | x in d.attempts ensures AttemptOk(d, x) { assert AttemptOk(db, x); }
    forall x | x in d.jobs ensures JobOk(d, x) { if x in db.jobs { assert JobOk(db, x); } }
    forall x | x in d.workers ensures WorkerOk(d, x) { assert WorkerOk(db, x); }
    forall x | x in d.sessions ensures SessionOk(d, x) { assert SessionOk(db, x); }
  }

  lemma TakeKeepsAttempt(db: Db, c: AcquireCall, id: JobId, x: AttemptId, d: Db)
    requires CurrentSession(db, c.worker, c.session) && c.newId !in db.attempts
    requires id in db.jobs && JobOk(db, id) && IsWaiting(db.jobs[id].state) && d == Assign(db, c, id)
    requires x in d.attempts && (x in db.attempts ==> AttemptOk(db, x))
    ensures AttemptOk(d, x)
  {
    hide ValidSpec;
  }

  lemma TakeKeepsJob(db: Db, c: AcquireCall, id: JobId, x: JobId, d: Db)
    requires c.newId !in db.attempts && id in db.jobs && JobOk(db, id) && IsWaiting(db.jobs[id].state) && d == Assign(db, c, id)
    requires x in db.jobs && JobOk(db, x)
    ensures JobOk(d, x)
  {
    hide ValidSpec;
  }

  lemma TakeKeepsOwned(db: Db, c: AcquireCall, id: JobId)
    requires Owned(db) && CurrentSession(db, c.worker, c.session) && c.newId !in db.attempts
    requires id in db.jobs && ValidSpec(db.jobs[id].spec) && IsWaiting(db.jobs[id].state)
    ensures Owned(Assign(db, c, id))
  {
    hide AttemptOk;
    hide JobOk;
    hide ValidSpec;
    var d := Assign(db, c, id);
    assert JobOk(db, id);
    forall x | x in d.attempts ensures AttemptOk(d, x) { if x in db.attempts { assert AttemptOk(db, x); } TakeKeepsAttempt(db, c, id, x, d); }
    forall x | x in d.jobs ensures JobOk(d, x) { assert JobOk(db, x); TakeKeepsJob(db, c, id, x, d); }
    forall x | x in d.workers ensures WorkerOk(d, x) { assert WorkerOk(db, x); }
    forall x | x in d.sessions ensures SessionOk(d, x) { assert SessionOk(db, x); }
  }

  /** Attempts keep everything ownership speaks of; deadlines and evidence may move. */
  ghost predicate SameOwners(db: Db, d: Db)
  {
    && d == db.(clock := d.clock, attempts := d.attempts, renewals := d.renewals)
    && d.attempts.Keys == db.attempts.Keys
    && forall x {:trigger d.attempts[x]} :: x in db.attempts ==>
         var a, b := db.attempts[x], d.attempts[x];
         && AuthorityOf(x, a) == AuthorityOf(x, b) && a.cleanupPending == b.cleanupPending
         && (a.state == b.state || (IsActive(a.state) && IsActive(b.state)))
  }

  lemma SameOwnersKeepsOwned(db: Db, d: Db)
    requires Owned(db) && SameOwners(db, d)
    ensures Owned(d)
  {
    forall x | x in d.attempts ensures AttemptOk(d, x) { assert AttemptOk(db, x); }
    forall x | x in d.jobs ensures JobOk(d, x) { assert JobOk(db, x); }
    forall x | x in d.workers ensures WorkerOk(d, x) { assert WorkerOk(db, x); }
    forall x | x in d.sessions ensures SessionOk(d, x) { assert SessionOk(db, x); }
  }

  lemma ExtendSameOwners(db: Db, c: RenewCall)
    requires CanExtend(db, c)
    ensures SameOwners(db, Renewed(db, c))
  {
  }

  lemma HostKeepsOwned(db: Db, w: WorkerId, row: Worker)
    requires Owned(db) && CanSetHost(db, w, row)
    ensures Owned(db.(workers := db.workers[w := row]))
  {
    var d := db.(workers := db.workers[w := row]);
    forall x | x in d.attempts ensures AttemptOk(d, x) { assert AttemptOk(db, x); }
    forall x | x in d.jobs ensures JobOk(d, x) { assert JobOk(db, x); }
    forall x | x in d.workers ensures WorkerOk(d, x) { assert WorkerOk(db, x); }
    forall x | x in d.sessions ensures SessionOk(d, x) { assert SessionOk(db, x); }
  }

  lemma ReopenKeepsOwned(db: Db, c: RegisterCall)
    requires Owned(db) && CanReopen(db, c)
    ensures Owned(Reopened(db, c))
  {
    var d := Reopened(db, c);
    forall x | x in d.attempts ensures AttemptOk(d, x) { assert AttemptOk(db, x); }
    forall x | x in d.jobs ensures JobOk(d, x) { assert JobOk(db, x); }
    forall x | x in d.workers ensures WorkerOk(d, x) {
      assert WorkerOk(db, x);
      if x != c.worker && db.workers[x].current.Some? { assert SessionOk(db, db.workers[x].current.value); }
    }
    forall x | x in d.sessions ensures SessionOk(d, x) {
      if x in db.sessions { assert SessionOk(db, x); }
    }
  }

  lemma BeatKeepsOwned(db: Db, w: WorkerId, h: HeartbeatReport, now: Time)
    requires Owned(db) && CanBeat(db, w, h, now)
    ensures Owned(Beaten(db, w, h, now))
  {
    var d := Beaten(db, w, h, now);
    forall x | x in d.attempts ensures AttemptOk(d, x) { assert AttemptOk(db, x); }
    forall x | x in d.jobs ensures JobOk(d, x) { assert JobOk(db, x); }
    forall x | x in d.workers ensures WorkerOk(d, x) { assert WorkerOk(db, x); }
    forall x | x in d.sessions ensures SessionOk(d, x) { assert SessionOk(db, x); }
  }

  /** Replay tables, approvals and the clock do not matter to ownership. */
  lemma FrameKeepsOwned(db: Db, d: Db)
    requires Owned(db)
    requires d == db.(clock := d.clock, takeovers := d.takeovers, registrations := d.registrations,
                      acquisitions := d.acquisitions, reports := d.reports, completions := d.completions)
    ensures Owned(d)
  {
    forall x | x in d.attempts ensures AttemptOk(d, x) { assert AttemptOk(db, x); }
    forall x | x in d.jobs ensures JobOk(d, x) { assert JobOk(db, x); }
    forall x | x in d.workers ensures WorkerOk(d, x) { assert WorkerOk(db, x); }
    forall x | x in d.sessions ensures SessionOk(d, x) { assert SessionOk(db, x); }
  }

  lemma ChangeKeepsOwned(db: Db, ch: Change, d: Db)
    requires Owned(db) && Makes(db, ch, d)
    ensures Owned(d)
  {
    match ch {
      case Quiet => FrameKeepsOwned(db, d);
      case Enqueue(sweep, children, t) => EnqueueKeepsOwned(db, sweep, children, t);
      case Stop(j) => StopsKeepOwned(db, d);
      case Take(c, j) => TakeKeepsOwned(db, c, j);
      case Extend(c) => ExtendSameOwners(db, c); SameOwnersKeepsOwned(db, d);
      case Advance(r, t, now) => SameOwnersKeepsOwned(db, d);
      case End(id, e, record) => EndedKeepsOwned(db, id, e, record);
      case SetHost(w, row) => HostKeepsOwned(db, w, row);
      case Reopen(c) => ReopenKeepsOwned(db, c);
      case Beat(w, h, now) => BeatKeepsOwned(db, w, h, now);
    }
  }
}
