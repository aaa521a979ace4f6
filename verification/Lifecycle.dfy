/** Attempts of a job are numbered without holes, and every step of its life uses up a bounded budget. */
module Lifecycle {
  import opened Base
  import opened Schema
  import opened Transactions
  import opened Changes
  import opened Ownership
  import opened Evolution

  // ------------------------------------------------------------------ numbering

  ghost predicate HasNumber(db: Db, x: AttemptId, j: JobId, n: int)
  {
    x in db.attempts && db.attempts[x].job == j && db.attempts[x].number == n
  }

  ghost predicate NumberTaken(db: Db, j: JobId, n: int)
  {
    exists x :: HasNumber(db, x, j, n)
  }

  ghost predicate NumbersTaken(db: Db, j: JobId)
    requires j in db.jobs
  {
    forall n {:trigger NumberTaken(db, j, n)} :: 1 <= n <= db.jobs[j].counter ==> NumberTaken(db, j, n)
  }

  /** The attempts of a job carry the numbers 1 to its counter, each exactly once. */
  ghost predicate Numbered(db: Db)
  {
    && (forall x, y, j, n :: HasNumber(db, x, j, n) && HasNumber(db, y, j, n) ==> x == y)
    && (forall j {:trigger NumbersTaken(db, j)} :: j in db.jobs ==> NumbersTaken(db, j))
  }

  /** Counters and attempt identities stay, except that new jobs start at zero. */
  lemma SameKeepsNumbers(db: Db, d: Db)
    requires Numbered(db) && Evolves(db, d) && d.attempts.Keys == db.attempts.Keys
    requires forall j {:trigger j in d.jobs} :: j in d.jobs ==> d.jobs[j].counter == if j in db.jobs then db.jobs[j].counter else 0
    ensures Numbered(d)
  {
    forall x, y, j, n | HasNumber(d, x, j, n) && HasNumber(d, y, j, n) ensures x == y {
      assert AttemptEvolves(db, d, x) && AttemptEvolves(db, d, y);
      assert HasNumber(db, x, j, n) && HasNumber(db, y, j, n);
    }
    forall j | j in d.jobs ensures NumbersTaken(d, j) {
      forall n | 1 <= n <= d.jobs[j].counter ensures NumberTaken(d, j, n) {
        assert NumbersTaken(db, j) && NumberTaken(db, j, n);
        var x :| HasNumber(db, x, j, n);
        assert AttemptEvolves(db, d, x);
        assert HasNumber(d, x, j, n);
      }
    }
  }

  lemma TakeKeepsNumbers(db: Db, c: AcquireCall, job: JobId, d: Db)
    requires Owned(db) && Numbered(db) && CanTake(db, c, job) && d == Assign(db, c, job)
    ensures Numbered(d)
  {
    forall x, y, j, n | HasNumber(d, x, j, n) && HasNumber(d, y, j, n) ensures x == y {
      if x in db.attempts { assert AttemptOk(db, x); }
      if y in db.attempts { assert AttemptOk(db, y); }
      assert HasNumber(db, x, j, n) || x == c.newId;
      assert HasNumber(db, y, j, n) || y == c.newId;
    }
    forall j | j in d.jobs ensures NumbersTaken(d, j) {
      forall n | 1 <= n <= d.jobs[j].counter ensures NumberTaken(d, j, n) {
        if n <= db.jobs[j].counter {
          assert NumbersTaken(db, j) && NumberTaken(db, j, n);
          var x :| HasNumber(db, x, j, n);
          assert HasNumber(d, x, j, n);
        } else {
          assert HasNumber(d, c.newId, j, n);
        }
      }
    }
  }

  lemma StopsKeepCounters(db: Db, d: Db)
    requires OnlyStops(db, d)
    ensures forall j {:trigger j in d.jobs} :: j in d.jobs ==> j in db.jobs && d.jobs[j].counter == db.jobs[j].counter
  {
  }

  lemma EndKeepsCounters(db: Db, id: AttemptId, e: Ending, record: Option<CompletionRecord>, d: Db)
    requires CanEnd(db, id, e, record) && d == Ended(db, id, e, record)
    ensures d.attempts.Keys == db.attempts.Keys
    ensures forall j {:trigger j in d.jobs} :: j in d.jobs ==> j in db.jobs && d.jobs[j].counter == db.jobs[j].counter
  {
    EndedShape(db, id, e, record, d);
    SettleOnlyStops(db, id, e);
    StopsKeepCounters(EndAttempt(db, id, e), Settle(db, id, e));
  }

  lemma ChangeKeepsNumbers(db: Db, ch: Change, d: Db)
    requires Owned(db) && Numbered(db) && Makes(db, ch, d) && Evolves(db, d)
    ensures Numbered(d)
  {
    if HostsOnly(ch) {
      HostsOnlyFrame(db, ch, d);
      SameKeepsNumbers(db, d);
    } else {
      match ch {
        case Take(c, j) => TakeKeepsNumbers(db, c, j, d);
        case End(id, e, record) => EndKeepsCounters(db, id, e, record, d); SameKeepsNumbers(db, d);
        case Enqueue(sweep, children, t) => SameKeepsNumbers(db, d);
        case Stop(j) => SameKeepsNumbers(db, d);
      }
    }
  }

  // -------------------------------------------------------------------- measure

  /** Where a job stands: its state, its attempt counter and the phase of its current attempt. */
  datatype Stage = Stage(state: JobState, counter: int, phase: Option<AttemptState>)

  function StageOf(db: Db, j: JobId): Stage
    requires j in db.jobs
  {
    var row := db.jobs[j];
    Stage(row.state, row.counter,
          if row.current.Some? && row.current.value in db.attempts then Some(db.attempts[row.current.value].state) else None)
  }

  /** Six steps per attempt that may still start, and one for each phase still ahead. */
  function Budget(s: Stage, maxAttempts: int): int
  {
    if IsTerminal(s.state) then 0
    else if s.state.Cancelling? then 1
    else if s.state.Active? then 6 * (maxAttempts - s.counter) + 5 - (if s.phase.Some? then Min(PhaseRank(s.phase.value), 3) else 0)
    else 6 * (maxAttempts - s.counter)
  }

  ghost predicate BudgetSpent(db: Db, d: Db, j: JobId)
    requires j in db.jobs
  {
    && j in d.jobs && d.jobs[j].spec == db.jobs[j].spec
    && var max := db.jobs[j].spec.retry.maxAttempts;
    && (StageOf(d, j) != StageOf(db, j) ==> Budget(StageOf(d, j), max) < Budget(StageOf(db, j), max))
  }

  lemma BudgetBounded(db: Db, j: JobId)
    requires Owned(db) && j in db.jobs
    ensures 0 <= Budget(StageOf(db, j), db.jobs[j].spec.retry.maxAttempts) <= 6 * db.jobs[j].spec.retry.maxAttempts
  {
    assert JobOk(db, j);
    if db.jobs[j].current.Some? { assert AttemptOk(db, db.jobs[j].current.value); }
  }

  /** A job whose own row stays, and whose current attempt stays or advances, spends its budget. */
  lemma PhaseSpends(db: Db, d: Db, j: JobId)
    requires j in db.jobs && JobOk(db, j) && j in d.jobs && d.jobs[j] == db.jobs[j]
    requires db.jobs[j].current.Some? ==>
               var x := db.jobs[j].current.value;
               && x in d.attempts
               && (d.attempts[x].state == db.attempts[x].state
                   || (db.jobs[j].state.Active? && PhaseRank(db.attempts[x].state) < PhaseRank(d.attempts[x].state) <= 3))
    ensures BudgetSpent(db, d, j)
  {
  }

  lemma StopSpends(db: Db, d: Db, j: JobId)
    requires j in db.jobs && JobOk(db, j) && j in d.jobs && d.attempts == db.attempts
    requires d.jobs[j] == db.jobs[j] || d.jobs[j] == StoppedBySibling(db.jobs[j], true) || d.jobs[j] == StoppedBySibling(db.jobs[j], false)
    ensures BudgetSpent(db, d, j)
  {
  }

  lemma EndRowSpends(db: Db, id: AttemptId, e: Ending, record: Option<CompletionRecord>, d: Db, j: JobId)
    requires CanEnd(db, id, e, record) && AttemptOk(db, id) && j in db.jobs && JobOk(db, j) && d == EndAttempt(db, id, e)
    ensures BudgetSpent(db, d, j)
  {
  }

  lemma EndSpends(db: Db, id: AttemptId, e: Ending, record: Option<CompletionRecord>, mid: Db, d: Db, j: JobId)
    requires Owned(db) && CanEnd(db, id, e, record) && j in db.jobs
    requires mid == EndAttempt(db, id, e) && d == Ended(db, id, e, record)
    ensures BudgetSpent(db, d, j)
  {
    assert AttemptOk(db, id) && JobOk(db, j);
    EndRowSpends(db, id, e, record, mid, j);
    EndKeepsOwned(db, id, e, record);
    assert JobOk(mid, j);
    EndedShape(db, id, e, record, d);
    SettleOnlyStops(db, id, e);
    StopSpends(mid, d, j);
  }

  lemma TakeSpends(db: Db, c: AcquireCall, job: JobId, d: Db, j: JobId)
    requires CanTake(db, c, job) && d == Assign(db, c, job) && j in db.jobs && JobOk(db, j)
    ensures BudgetSpent(db, d, j)
  {
  }

  lemma AdvanceSpends(db: Db, r: PhaseReport, t: Time, now: Time, d: Db, j: JobId)
    requires CanAdvance(db, r, t, now) && d == Advanced(db, r, t, now) && j in db.jobs && JobOk(db, j)
    ensures BudgetSpent(db, d, j)
  {
    PhaseSpends(db, d, j);
  }

  lemma ExtendSpends(db: Db, c: RenewCall, d: Db, j: JobId)
    requires CanExtend(db, c) && d == Renewed(db, c) && j in db.jobs && JobOk(db, j)
    ensures BudgetSpent(db, d, j)
  {
    PhaseSpends(db, d, j);
  }

  lemma BeatSpends(db: Db, w: WorkerId, h: HeartbeatReport, now: Time, d: Db, j: JobId)
    requires CanBeat(db, w, h, now) && d == Beaten(db, w, h, now) && j in db.jobs && JobOk(db, j)
    ensures BudgetSpent(db, d, j)
  {
    PhaseSpends(db, d, j);
  }

  /** Whatever changes a job's stage strictly decreases its budget. */
  lemma ChangeSpends(db: Db, ch: Change, d: Db, j: JobId)
    requires Owned(db) && Makes(db, ch, d) && j in db.jobs
    ensures BudgetSpent(db, d, j)
  {
    assert JobOk(db, j);
    match ch {
      case Take(c, job) => TakeSpends(db, c, job, d, j);
      case End(id, e, record) => EndSpends(db, id, e, record, EndAttempt(db, id, e), d, j);
      case Enqueue(sweep, children, t) => PhaseSpends(db, d, j);
      case Stop(job) => StopSpends(db, d, j);
      case Quiet => PhaseSpends(db, d, j);
      case Extend(c) => ExtendSpends(db, c, d, j);
      case Advance(r, t, now) => AdvanceSpends(db, r, t, now, d, j);
      case SetHost(w, row) => PhaseSpends(db, d, j);
      case Reopen(c) => PhaseSpends(db, d, j);
      case Beat(w, h, now) => BeatSpends(db, w, h, now, d, j);
    }
  }
}
