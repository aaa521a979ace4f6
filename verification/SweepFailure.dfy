/** Fail-fast sweeps: what one failed child means for its siblings, in every state. */
module SweepFailure {
  import opened Base
  import opened Schema
  import opened Transactions
  import opened Changes
  import opened Ownership

  /** What the failure of one child allows a sibling to be. */
  predicate SiblingOk(s: Sweep, k: Job)
  {
    && (s.failFast ==> !k.state.Queued?)
    && (s.failFast && s.cancelRunning ==> k.state.Cancelling? || k.state.Succeeded? || k.state.Cancelled?)
  }

  ghost predicate PairOk(db: Db, f: JobId, k: JobId)
    requires f in db.jobs && k in db.jobs
  {
    var sweep := db.jobs[f].sweep;
    (f != k && sweep.Some? && db.jobs[k].sweep == sweep && sweep.value in db.sweeps && db.jobs[f].state.Failed?)
    ==> SiblingOk(db.sweeps[sweep.value], db.jobs[k])
  }

  ghost predicate FailedFast(db: Db)
  {
    forall f, k {:trigger PairOk(db, f, k)} :: f in db.jobs && k in db.jobs ==> PairOk(db, f, k)
  }

  lemma SameJobsKeep(db: Db, d: Db)
    requires FailedFast(db) && d.jobs == db.jobs && d.sweeps == db.sweeps
    ensures FailedFast(d)
  {
    forall f, k | f in d.jobs && k in d.jobs ensures PairOk(d, f, k) { assert PairOk(db, f, k); }
  }

  lemma StopsKeepPair(db: Db, d: Db, f: JobId, k: JobId)
    requires OnlyStops(db, d) && f in db.jobs && k in db.jobs && PairOk(db, f, k)
    ensures PairOk(d, f, k)
  {
  }

  lemma StopsKeepFailedFast(db: Db, d: Db)
    requires FailedFast(db) && OnlyStops(db, d)
    ensures FailedFast(d)
  {
    forall f, k | f in d.jobs && k in d.jobs ensures PairOk(d, f, k) { assert PairOk(db, f, k); StopsKeepPair(db, d, f, k); }
  }

  lemma EnqueueKeepsFailedFast(db: Db, sweep: Option<(SweepId, Sweep)>, children: map<JobId, NewJob>, now: Time, d: Db)
    requires Owned(db) && FailedFast(db) && CanEnqueue(db, sweep, children, now) && d == Submitted(db, sweep, children, now)
    ensures FailedFast(d)
  {
    forall f, k | f in d.jobs && k in d.jobs ensures PairOk(d, f, k) {
      if f in db.jobs {
        assert JobOk(db, f);
        if k in db.jobs { assert PairOk(db, f, k); }
      }
    }
  }

  lemma TakeKeepsFailedFast(db: Db, c: AcquireCall, j: JobId, d: Db)
    requires FailedFast(db) && CanTake(db, c, j) && d == Assign(db, c, j)
    ensures FailedFast(d)
  {
    forall f, k | f in d.jobs && k in d.jobs ensures PairOk(d, f, k) { assert PairOk(db, f, k); }
  }

  /** A child that ends without failing: siblings of an earlier failure stay as they must be. */
  lemma EndedPair(db: Db, id: AttemptId, e: Ending, record: Option<CompletionRecord>, f: JobId, k: JobId)
    requires CanEnd(db, id, e, record) && f in db.jobs && k in db.jobs && PairOk(db, f, k)
    requires JobOk(db, db.attempts[id].job) && IsOwned(db.jobs[db.attempts[id].job].state)
    requires f != db.attempts[id].job
    ensures PairOk(EndAttempt(db, id, e), f, k)
  {
  }

  /** Fail-fast leaves every sibling of the child that just failed as it must be. */
  lemma FailedPair(db: Db, f: JobId, k: JobId, d: Db)
    requires d == FailFast(db, f) && f in db.jobs && k in db.jobs && db.jobs[f].state.Failed?
    requires f != k && db.jobs[k].sweep == db.jobs[f].sweep ==> !db.jobs[k].state.Failed? || PairOk(db, f, k)
    ensures PairOk(d, f, k)
  {
  }

  lemma EndKeepsFailedFast(db: Db, id: AttemptId, e: Ending, record: Option<CompletionRecord>, mid: Db, last: Db)
    requires Owned(db) && FailedFast(db) && CanEnd(db, id, e, record)
    requires mid == EndAttempt(db, id, e) && last == Settle(db, id, e)
    ensures FailedFast(last)
  {
    var job := db.attempts[id].job;
    assert AttemptOk(db, id) && JobOk(db, job);
    SettleOnlyStops(db, id, e);
    forall f, k | f in last.jobs && k in last.jobs ensures PairOk(last, f, k) {
      if f != job {
        assert PairOk(db, f, k);
        EndedPair(db, id, e, record, f, k);
        StopsKeepPair(mid, last, f, k);
      } else if e.next.Failed? {
        assert PairOk(db, k, f);
        FailedPair(mid, f, k, last);
      }
    }
  }

  lemma ChangeKeepsFailedFast(db: Db, ch: Change, d: Db)
    requires Owned(db) && FailedFast(db) && Makes(db, ch, d)
    ensures FailedFast(d)
  {
    if HostsOnly(ch) {
      HostsOnlyFrame(db, ch, d);
      SameJobsKeep(db, d);
    } else {
      match ch {
        case Enqueue(sweep, children, t) => EnqueueKeepsFailedFast(db, sweep, children, t, d);
        case Stop(j) => StopsKeepFailedFast(db, d);
        case Take(c, j) => TakeKeepsFailedFast(db, c, j, d);
        case End(id, e, record) =>
          EndKeepsFailedFast(db, id, e, record, EndAttempt(db, id, e), Settle(db, id, e));
          EndedShape(db, id, e, record, d);
          SameJobsKeep(Settle(db, id, e), d);
      }
    }
  }
}
