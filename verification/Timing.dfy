/** Deadlines and completion records stay consistent across every change. */
module Timing {
  import opened Base
  import opened Schema
  import opened Transactions
  import opened Changes
  import opened Ownership
  import opened Evolution

  /** A change that moves no deadline and starts no phase keeps them consistent. */
  lemma SameDeadlineKept(db: Db, d: Db, x: AttemptId)
    requires x in db.attempts && DeadlineOk(db, x) && AttemptEvolves(db, d, x) && db.clock <= d.clock
    requires db.attempts[x].job in db.jobs && JobEvolves(db, d, db.attempts[x].job)
    requires d.attempts[x].lease == db.attempts[x].lease && d.attempts[x].phase == db.attempts[x].phase
    requires d.attempts[x].state == db.attempts[x].state || !IsActive(d.attempts[x].state)
    ensures DeadlineOk(d, x)
  {
  }

  /** Rows other than those a change renews or advances. */
  ghost predicate DeadlinesStay(db: Db, d: Db)
  {
    && d.attempts.Keys == db.attempts.Keys
    && forall x {:trigger d.attempts[x]} :: x in db.attempts ==>
         && d.attempts[x].lease == db.attempts[x].lease && d.attempts[x].phase == db.attempts[x].phase
         && (d.attempts[x].state == db.attempts[x].state || !IsActive(d.attempts[x].state))
  }

  lemma StayingKeepsDeadlines(db: Db, d: Db)
    requires Deadlines(db) && Evolves(db, d) && DeadlinesStay(db, d)
    ensures Deadlines(d)
  {
    forall x | x in d.attempts ensures DeadlineOk(d, x) {
      assert DeadlineOk(db, x) && AttemptEvolves(db, d, x) && JobEvolves(db, d, db.attempts[x].job);
      SameDeadlineKept(db, d, x);
    }
  }

  lemma EndStays(db: Db, id: AttemptId, e: Ending, record: Option<CompletionRecord>, d: Db)
    requires CanEnd(db, id, e, record) && d == Ended(db, id, e, record)
    ensures DeadlinesStay(db, d)
  {
    EndedShape(db, id, e, record, d);
  }

  lemma TakeKeepsDeadlines(db: Db, c: AcquireCall, j: JobId, d: Db)
    requires Deadlines(db) && Evolves(db, d) && CanTake(db, c, j) && d == Assign(db, c, j)
    ensures Deadlines(d)
  {
    forall x | x in d.attempts ensures DeadlineOk(d, x) {
      if x != c.newId {
        assert DeadlineOk(db, x) && AttemptEvolves(db, d, x) && JobEvolves(db, d, db.attempts[x].job);
        SameDeadlineKept(db, d, x);
      }
    }
  }

  lemma ExtendKeepsDeadlines(db: Db, c: RenewCall, d: Db)
    requires Deadlines(db) && CanExtend(db, c) && d == Renewed(db, c)
    ensures Deadlines(d)
  {
    forall x | x in d.attempts ensures DeadlineOk(d, x) { assert DeadlineOk(db, x); }
  }

  lemma AdvanceKeepsDeadlines(db: Db, r: PhaseReport, t: Time, now: Time, d: Db)
    requires Owned(db) && Deadlines(db) && CanAdvance(db, r, t, now) && d == Advanced(db, r, t, now)
    ensures Deadlines(d)
  {
    assert AttemptOk(db, r.authority.attempt);
    forall x | x in d.attempts ensures DeadlineOk(d, x) { assert DeadlineOk(db, x); }
  }

  lemma ChangeKeepsDeadlines(db: Db, ch: Change, d: Db)
    requires Owned(db) && Deadlines(db) && Makes(db, ch, d) && Evolves(db, d)
    ensures Deadlines(d)
  {
    hide Deadlines;
    hide Evolves;
    hide Owned;
    match ch {
      case Take(c, j) => TakeKeepsDeadlines(db, c, j, d);
      case Extend(c) => ExtendKeepsDeadlines(db, c, d);
      case Advance(r, t, now) =>
        AdvanceKeepsDeadlines(db, r, t, now, d);
      case End(id, e, record) => EndStays(db, id, e, record, d); StayingKeepsDeadlines(db, d);
      case Quiet => StayingKeepsDeadlines(db, d);
      case Enqueue(sweep, children, t) => StayingKeepsDeadlines(db, d);
      case Stop(j) => StayingKeepsDeadlines(db, d);
      case SetHost(w, row) => StayingKeepsDeadlines(db, d);
      case Reopen(c) => StayingKeepsDeadlines(db, d);
      case Beat(w, h, now) => StayingKeepsDeadlines(db, d);
    }
  }

  lemma SameKeepsCompletions(db: Db, d: Db)
    requires CompletionsEnded(db) && Evolves(db, d) && d.completions == db.completions
    ensures CompletionsEnded(d)
  {
    forall id | id in d.completions
      ensures id in d.attempts && !IsActive(d.attempts[id].state) && d.attempts[id].state == d.completions[id].state
      ensures d.completions[id].request.authority == AuthorityOf(id, d.attempts[id])
    {
      assert id in db.completions && AttemptEvolves(db, d, id);
    }
  }

  lemma EndKeepsCompletions(db: Db, id: AttemptId, e: Ending, record: Option<CompletionRecord>, d: Db)
    requires CompletionsEnded(db) && CanEnd(db, id, e, record) && d == Ended(db, id, e, record)
    ensures CompletionsEnded(d)
  {
    EndedShape(db, id, e, record, d);
    forall x | x in d.completions
      ensures x in d.attempts && !IsActive(d.attempts[x].state) && d.attempts[x].state == d.completions[x].state
      ensures d.completions[x].request.authority == AuthorityOf(x, d.attempts[x])
    {
      if x != id { assert x in db.completions; }
    }
  }

  lemma ChangeKeepsCompletions(db: Db, ch: Change, d: Db)
    requires CompletionsEnded(db) && Makes(db, ch, d) && Evolves(db, d)
    ensures CompletionsEnded(d)
  {
    if ch.End? {
      EndKeepsCompletions(db, ch.attempt, ch.ending, ch.record, d);
    } else {
      SameKeepsCompletions(db, d);
    }
  }
}
