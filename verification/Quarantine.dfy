/** Uncertain cleanup: what keeps a host out of service, and what frees its capacity. */
module Quarantine {
  import opened Base
  import opened Schema
  import opened Transactions
  import opened Changes
  import opened Ownership
  import opened Evolution

  /** The attempt was fenced, not completed, in its host's current session. */
  predicate FencedHere(db: Db, x: AttemptId)
  {
    && x in db.attempts && IsQuarantined(db, x) && x !in db.completions
    && db.attempts[x].worker in db.workers && db.workers[db.attempts[x].worker].current == Some(db.attempts[x].session)
  }

  ghost predicate LatchOk(db: Db, x: AttemptId)
  {
    FencedHere(db, x) ==> HostOut(db, db.attempts[x].worker)
  }

  /** A session in which an attempt was fenced is out of service. */
  ghost predicate Latched(db: Db)
  {
    forall x {:trigger LatchOk(db, x)} :: x in db.attempts ==> LatchOk(db, x)
  }

  /** Rows the latch depends on. */
  lemma SameLatch(db: Db, d: Db)
    requires Latched(db) && d.attempts.Keys == db.attempts.Keys && d.reservations == db.reservations && d.workers == db.workers
    requires d.completions == db.completions
    requires forall x {:trigger d.attempts[x]} :: x in db.attempts ==>
               d.attempts[x].worker == db.attempts[x].worker && d.attempts[x].session == db.attempts[x].session
    ensures Latched(d)
  {
    forall x | x in d.attempts ensures LatchOk(d, x) { assert LatchOk(db, x); }
  }

  lemma TakeKeepsLatch(db: Db, c: AcquireCall, j: JobId, d: Db)
    requires Latched(db) && CanTake(db, c, j) && d == Assign(db, c, j)
    ensures Latched(d)
  {
    forall x | x in d.attempts ensures LatchOk(d, x) { if x != c.newId { assert LatchOk(db, x); } }
  }

  lemma EndKeepsLatch(db: Db, id: AttemptId, e: Ending, record: Option<CompletionRecord>, d: Db)
    requires Latched(db) && CanEnd(db, id, e, record) && d == Ended(db, id, e, record)
    ensures Latched(d)
  {
    EndedShape(db, id, e, record, d);
    forall x | x in d.attempts ensures LatchOk(d, x) { assert LatchOk(db, x); }
  }

  lemma HostKeepsLatch(db: Db, w: WorkerId, row: Worker, d: Db)
    requires Latched(db) && CanSetHost(db, w, row) && d == db.(workers := db.workers[w := row])
    ensures Latched(d)
  {
    forall x | x in d.attempts ensures LatchOk(d, x) { assert LatchOk(db, x); }
  }

  lemma ReopenKeepsLatch(db: Db, c: RegisterCall, d: Db)
    requires Owned(db) && Latched(db) && CanReopen(db, c) && d == Reopened(db, c)
    ensures Latched(d)
  {
    forall x | x in d.attempts ensures LatchOk(d, x) { assert LatchOk(db, x) && AttemptOk(db, x); }
  }

  /** A heartbeat cannot clear its own session's fenced attempts, so it leaves the host unreconciled. */
  lemma BeatKeepsLatch(db: Db, w: WorkerId, h: HeartbeatReport, now: Time, d: Db)
    requires Latched(db) && CanBeat(db, w, h, now) && d == Beaten(db, w, h, now)
    ensures Latched(d)
  {
    forall x | x in d.attempts ensures LatchOk(d, x) {
      assert LatchOk(db, x);
      if FencedHere(d, x) && db.attempts[x].worker == w {
        assert IsQuarantined(db, x) && !Releases(db, w, h, now, x);
        assert StillUncertain(db, w, h, now, false);
      }
    }
  }

  lemma ChangeKeepsLatch(db: Db, ch: Change, d: Db)
    requires Owned(db) && Latched(db) && Makes(db, ch, d)
    ensures Latched(d)
  {
    hide Owned;
    hide Latched;
    match ch {
      case Quiet => SameLatch(db, d);
      case Enqueue(sweep, children, t) => SameLatch(db, d);
      case Stop(j) => SameLatch(db, d);
      case Take(c, j) => TakeKeepsLatch(db, c, j, d);
      case Extend(c) => SameLatch(db, d);
      case Advance(r, t, now) => SameLatch(db, d);
      case End(id, e, record) => EndKeepsLatch(db, id, e, record, d);
      case SetHost(w, row) => HostKeepsLatch(db, w, row, d);
      case Reopen(c) => ReopenKeepsLatch(db, c, d);
      case Beat(w, h, now) => BeatKeepsLatch(db, w, h, now, d);
    }
  }

  // --------------------------------------------------------------- two states

  /** Quarantine outlives everything but the fencing of its session; an ended attempt is never completed later. */
  ghost predicate QuarantineEvolves(db: Db, d: Db, x: AttemptId)
    requires x in db.attempts
  {
    && (!IsActive(db.attempts[x].state) ==> (x in d.completions <==> x in db.completions))
    && (IsQuarantined(db, x) && db.attempts[x].session in d.sessions && d.sessions[db.attempts[x].session].fenced.None?
        ==> IsQuarantined(d, x))
  }

  lemma QuarantineStays(db: Db, x: AttemptId)
    requires x in db.attempts
    ensures QuarantineEvolves(db, db, x)
  {
  }

  lemma EndQuarantine(db: Db, id: AttemptId, e: Ending, record: Option<CompletionRecord>, d: Db, x: AttemptId)
    requires CanEnd(db, id, e, record) && d == Ended(db, id, e, record) && x in db.attempts && AttemptOk(db, x)
    ensures QuarantineEvolves(db, d, x)
  {
    EndedShape(db, id, e, record, d);
  }

  lemma BeatQuarantine(db: Db, w: WorkerId, h: HeartbeatReport, now: Time, d: Db, x: AttemptId)
    requires CanBeat(db, w, h, now) && d == Beaten(db, w, h, now) && x in db.attempts
    ensures QuarantineEvolves(db, d, x)
  {
  }

  lemma ChangeQuarantine(db: Db, ch: Change, d: Db, x: AttemptId)
    requires Owned(db) && Makes(db, ch, d) && x in db.attempts
    ensures QuarantineEvolves(db, d, x)
  {
    hide QuarantineEvolves;
    hide Ended;
    hide Beaten;
    assert AttemptOk(db, x);
    match ch {
      case End(id, e, record) => EndQuarantine(db, id, e, record, d, x);
      case Beat(w, h, now) => BeatQuarantine(db, w, h, now, d, x);
      case _ => OtherQuarantine(db, ch, d, x);
    }
  }

  lemma OtherQuarantine(db: Db, ch: Change, d: Db, x: AttemptId)
    requires Makes(db, ch, d) && !ch.End? && !ch.Beat? && x in db.attempts && x in db.reservations
    ensures QuarantineEvolves(db, d, x)
  {
    hide CanEnqueue;
    hide CanExtend;
    hide CanAdvance;
    hide CanReopen;
  }

  lemma QuarantineTransitive(a: Db, b: Db, c: Db, x: AttemptId)
    requires Owned(a) && Evolves(a, b) && Evolves(b, c) && x in a.attempts && x in b.attempts
    requires QuarantineEvolves(a, b, x) && QuarantineEvolves(b, c, x)
    ensures QuarantineEvolves(a, c, x)
  {
    assert AttemptOk(a, x) && AttemptEvolves(a, b, x) && SessionEvolves(a, b, a.attempts[x].session);
    assert SessionEvolves(b, c, a.attempts[x].session);
  }
}
