/** What no transaction may undo: identities, outcomes, fencing, spent deadlines and evidence. */
module Evolution {
  import opened Base
  import opened Schema
  import opened Decisions
  import opened Transactions
  import opened Changes
  import opened Ownership

  // ------------------------------------------------------- deadlines of one state

  /** All the time an attempt may use, from its assignment on. */
  function TotalTimeout(s: JobSpec): Time
  {
    (s.startup + s.execution + s.finalization) * SECOND
  }

  /** A lease never reaches further than 30 s ahead; a phase deadline never exceeds the timeouts of the
      phases entered so far, nor the timeout of its own phase from now on. */
  ghost predicate DeadlineOk(db: Db, id: AttemptId)
    requires id in db.attempts
  {
    var a := db.attempts[id];
    && a.job in db.jobs
    && var s := db.jobs[a.job].spec;
    && a.assignedAt <= db.clock && a.lease <= db.clock + INITIAL_LEASE
    && a.phase <= a.assignedAt + TotalTimeout(s)
    && (a.state.Assigned? || a.state.Starting? ==> a.phase == a.assignedAt + s.startup * SECOND)
    && (a.state.Running? ==> a.phase <= a.assignedAt + (s.startup + s.execution) * SECOND && a.phase <= db.clock + s.execution * SECOND)
  }

  ghost predicate Deadlines(db: Db)
  {
    forall id {:trigger DeadlineOk(db, id)} :: id in db.attempts ==> DeadlineOk(db, id)
  }

  // ------------------------------------------------------------- two-state claims

  /** Phases only move forward; an ending is final. */
  function PhaseRank(s: AttemptState): int
  {
    match s
    case Assigned => 0
    case Starting => 1
    case Running => 2
    case Finalizing => 3
    case _ => 4
  }

  ghost predicate JobEvolves(db: Db, d: Db, id: JobId)
    requires id in db.jobs
  {
    && id in d.jobs
    && var a, b := db.jobs[id], d.jobs[id];
    && b == a.(state := b.state, counter := b.counter, current := b.current, accepted := b.accepted,
               cancelRequested := b.cancelRequested, nextEligible := b.nextEligible)
    && a.counter <= b.counter
    && (IsTerminal(a.state) ==> b == a)
    && (a.cancelRequested ==> b.cancelRequested)
    && (b.state.Queued? ==> a.state.Queued?)
  }

  /** The lease or the phase deadline is over, or the attempt has ended. */
  predicate Lapsed(a: Attempt, now: Time)
  {
    !IsActive(a.state) || a.lease <= now || a.phase <= now
  }

  ghost predicate AttemptEvolves(db: Db, d: Db, id: AttemptId)
    requires id in db.attempts
  {
    && id in d.attempts
    && var a, b := db.attempts[id], d.attempts[id];
    && AuthorityOf(id, b) == AuthorityOf(id, a) && b.assignedAt == a.assignedAt
    && a.lease <= b.lease && PhaseRank(a.state) <= PhaseRank(b.state)
    && (PhaseRank(a.state) == PhaseRank(b.state) ==> b.phase == a.phase)
    && (a.container.Some? ==> b.container == a.container)
    && (!IsActive(a.state) ==> b == a.(cleanupPending := b.cleanupPending) && (b.cleanupPending ==> a.cleanupPending))
    && (Lapsed(a, db.clock) ==>
          b.lease == a.lease && b.phase == a.phase && (b.state == a.state || !IsActive(b.state)))
  }

  ghost predicate SessionEvolves(db: Db, d: Db, id: SessionId)
    requires id in db.sessions
  {
    && id in d.sessions
    && var a, b := db.sessions[id], d.sessions[id];
    && b == a.(fenced := b.fenced, heartbeat := b.heartbeat, lastReport := b.lastReport)
    && (a.fenced.Some? ==> b.fenced == a.fenced) && a.heartbeat <= b.heartbeat
  }

  /** The clock is monotone, provisioning is fixed, sweeps and completion records are never rewritten. */
  ghost predicate Settled(db: Db, d: Db)
  {
    && db.clock <= d.clock && d.projects == db.projects && d.ceilings == db.ceilings && d.access == db.access
    && db.workers.Keys == d.workers.Keys
    && (forall s {:trigger d.sweeps[s]} {:trigger s in d.sweeps} :: s in db.sweeps ==> s in d.sweeps && d.sweeps[s] == db.sweeps[s])
    && (forall id {:trigger d.completions[id]} {:trigger id in d.completions} :: id in db.completions ==>
          id in d.completions && d.completions[id] == db.completions[id])
  }

  ghost predicate Evolves(db: Db, d: Db)
  {
    && Settled(db, d)
    && (forall id {:trigger JobEvolves(db, d, id)} :: id in db.jobs ==> JobEvolves(db, d, id))
    && (forall id {:trigger AttemptEvolves(db, d, id)} :: id in db.attempts ==> AttemptEvolves(db, d, id))
    && (forall id {:trigger SessionEvolves(db, d, id)} :: id in db.sessions ==> SessionEvolves(db, d, id))
  }

  lemma EvolvesTransitive(a: Db, b: Db, c: Db)
    requires Evolves(a, b) && Evolves(b, c)
    ensures Evolves(a, c)
  {
    forall x | x in a.jobs ensures JobEvolves(a, c, x) { assert JobEvolves(a, b, x) && JobEvolves(b, c, x); }
    forall x | x in a.attempts ensures AttemptEvolves(a, c, x) { assert AttemptEvolves(a, b, x) && AttemptEvolves(b, c, x); }
    forall x | x in a.sessions ensures SessionEvolves(a, c, x) { assert SessionEvolves(a, b, x) && SessionEvolves(b, c, x); }
    forall x | x in a.sweeps ensures x in c.sweeps && c.sweeps[x] == a.sweeps[x] { assert x in b.sweeps; }
    forall x | x in a.completions ensures x in c.completions && c.completions[x] == a.completions[x] { assert x in b.completions; }
  }

  // ------------------------------------------------------------ change by change

  /** Untouched tables evolve trivially. */
  lemma FromRows(db: Db, d: Db)
    requires Settled(db, d)
    requires d.jobs == db.jobs || forall id {:trigger JobEvolves(db, d, id)} :: id in db.jobs ==> JobEvolves(db, d, id)
    requires d.attempts == db.attempts
             || forall id {:trigger AttemptEvolves(db, d, id)} :: id in db.attempts ==> AttemptEvolves(db, d, id)
    requires d.sessions == db.sessions
             || forall id {:trigger SessionEvolves(db, d, id)} :: id in db.sessions ==> SessionEvolves(db, d, id)
    ensures Evolves(db, d)
  {
    forall x | x in db.jobs ensures JobEvolves(db, d, x) { }
    forall x | x in db.attempts ensures AttemptEvolves(db, d, x) { }
    forall x | x in db.sessions ensures SessionEvolves(db, d, x) { }
  }

  lemma StopsEvolve(db: Db, d: Db)
    requires Owned(db) && OnlyStops(db, d)
    ensures Evolves(db, d)
  {
    forall j | j in db.jobs ensures JobEvolves(db, d, j) { assert JobOk(db, j); }
    FromRows(db, d);
  }

  lemma EndRowsEvolve(db: Db, id: AttemptId, e: Ending, record: Option<CompletionRecord>, d: Db)
    requires CanEnd(db, id, e, record) && AttemptOk(db, id) && JobOk(db, db.attempts[id].job)
    requires d == EndAttempt(db, id, e)
    ensures Evolves(db, d)
  {
    forall x | x in db.jobs ensures JobEvolves(db, d, x) { }
    forall x | x in db.attempts ensures AttemptEvolves(db, d, x) { }
    FromRows(db, d);
  }

  /** Evolution does not look at host rows, replay tables or new completion records. */
  lemma MoreCompletionsEvolve(db: Db, last: Db, d: Db)
    requires Evolves(db, last) && last.completions == db.completions
    requires d == last.(completions := d.completions)
    requires forall id {:trigger id in d.completions} :: id in db.completions ==> id in d.completions && d.completions[id] == db.completions[id]
    ensures Evolves(db, d)
  {
    forall x | x in db.jobs ensures JobEvolves(db, d, x) { assert JobEvolves(db, last, x); }
    forall x | x in db.attempts ensures AttemptEvolves(db, d, x) { assert AttemptEvolves(db, last, x); }
    forall x | x in db.sessions ensures SessionEvolves(db, d, x) { assert SessionEvolves(db, last, x); }
  }

  lemma EndEvolves(db: Db, id: AttemptId, e: Ending, record: Option<CompletionRecord>, mid: Db, last: Db, d: Db)
    requires Owned(db) && CanEnd(db, id, e, record) && d == Ended(db, id, e, record)
    requires mid == EndAttempt(db, id, e) && last == Settle(db, id, e)
    ensures Evolves(db, d)
  {
    assert AttemptOk(db, id) && JobOk(db, db.attempts[id].job);
    EndRowsEvolve(db, id, e, record, mid);
    EndKeepsOwned(db, id, e, record);
    SettleOnlyStops(db, id, e);
    StopsEvolve(mid, last);
    EvolvesTransitive(db, mid, last);
    MoreCompletionsEvolve(db, last, d);
  }

  lemma ExtendEvolves(db: Db, c: RenewCall, d: Db)
    requires Deadlines(db) && CanExtend(db, c) && d == Renewed(db, c)
    ensures Evolves(db, d)
  {
    forall x | x in db.attempts ensures AttemptEvolves(db, d, x) { assert DeadlineOk(db, x); }
    FromRows(db, d);
  }

  lemma AdvanceEvolves(db: Db, r: PhaseReport, t: Time, now: Time, d: Db)
    requires CanAdvance(db, r, t, now) && d == Advanced(db, r, t, now)
    ensures Evolves(db, d)
  {
    forall x | x in db.attempts ensures AttemptEvolves(db, d, x) { }
    FromRows(db, d);
  }

  lemma TakeEvolves(db: Db, c: AcquireCall, j: JobId, d: Db)
    requires CanTake(db, c, j) && JobOk(db, j) && d == Assign(db, c, j)
    ensures Evolves(db, d)
  {
    forall x | x in db.jobs ensures JobEvolves(db, d, x) { }
    forall x | x in db.attempts ensures AttemptEvolves(db, d, x) { }
    FromRows(db, d);
  }

  lemma ReopenEvolves(db: Db, c: RegisterCall, d: Db)
    requires CanReopen(db, c) && d == Reopened(db, c)
    ensures Evolves(db, d)
  {
    forall x | x in db.sessions ensures SessionEvolves(db, d, x) { }
    FromRows(db, d);
  }

  lemma BeatEvolves(db: Db, w: WorkerId, h: HeartbeatReport, now: Time, d: Db)
    requires CanBeat(db, w, h, now) && d == Beaten(db, w, h, now)
    ensures Evolves(db, d)
  {
    forall x | x in db.sessions ensures SessionEvolves(db, d, x) { }
    forall x | x in db.attempts ensures AttemptEvolves(db, d, x) { }
    FromRows(db, d);
  }

  lemma EnqueueEvolves(db: Db, sweep: Option<(SweepId, Sweep)>, children: map<JobId, NewJob>, now: Time, d: Db)
    requires CanEnqueue(db, sweep, children, now) && d == Submitted(db, sweep, children, now)
    ensures Evolves(db, d)
  {
    forall x | x in db.jobs ensures JobEvolves(db, d, x) { assert x !in children; }
    FromRows(db, d);
  }

  lemma ChangeEvolves(db: Db, ch: Change, d: Db)
    requires Owned(db) && Deadlines(db) && Makes(db, ch, d)
    ensures Evolves(db, d)
  {
    hide Evolves;
    match ch {
      case Quiet => FromRows(db, d);
      case Enqueue(sweep, children, t) => EnqueueEvolves(db, sweep, children, t, d);
      case Stop(j) => StopsEvolve(db, d);
      case Take(c, j) => assert JobOk(db, j); TakeEvolves(db, c, j, d);
      case Extend(c) => ExtendEvolves(db, c, d);
      case Advance(r, t, now) => AdvanceEvolves(db, r, t, now, d);
      case End(id, e, record) => EndEvolves(db, id, e, record, EndAttempt(db, id, e), Settle(db, id, e), d);
      case SetHost(w, row) => FromRows(db, d);
      case Reopen(c) => ReopenEvolves(db, c, d);
      case Beat(w, h, now) => BeatEvolves(db, w, h, now, d);
    }
  }
}
