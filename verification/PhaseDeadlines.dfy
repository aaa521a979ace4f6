/** The worker's own phase deadlines, started before a phase report can commit. */
module PhaseDeadlines {
  import opened Base
  import opened Schema
  import opened Decisions
  import opened Transactions
  import opened Protocol
  import opened Evolution
  import opened Runs
  import opened LeaseWindow
  import opened AuthorityControl
  import opened LeaseSafety
  import opened PhaseSafety
  import JournalDelivery

  /** When the worker started the deadline of a phase, on its own clock. */
  type Starts = map<(Authority, AttemptState), MonoTime>

  predicate Timed(s: AttemptState)
  {
    s.Running? || s.Finalizing?
  }

  /** The deadline of the reported phase was started no later than the report is served. */
  ghost predicate StartedFirst(skew: int, act: Action, starts: Starts)
  {
    act.DoReportPhase? && Timed(act.report.phase) ==>
      (act.report.authority, act.report.phase) in starts && starts[(act.report.authority, act.report.phase)] <= act.at + skew
  }

  ghost predicate AllStartedFirst(skew: int, moves: seq<Move>, starts: Starts)
  {
    forall i {:trigger moves[i]} :: 0 <= i < |moves| && (moves[i].Server? || moves[i].Serve?) ==> StartedFirst(skew, moves[i].act, starts)
  }

  /** The worker's deadline of the phase an attempt is in ends no later than the stored one. */
  ghost predicate Begun(skew: int, db: Db, starts: Starts, x: AttemptId)
  {
    x in db.attempts && Timed(db.attempts[x].state) ==>
      var row := db.attempts[x];
      var key := (AuthorityOf(x, row), row.state);
      row.job in db.jobs && key in starts && starts[key] + PhaseTimeout(db.jobs[row.job].spec, row.state) * SECOND <= row.phase + skew
  }

  /** What a phase report does to the attempts: nothing, or one step to the reported phase with its deadline. */
  lemma AdvancesOne(db: Db, w: WorkerId, p: PhaseReport, now: Time, d: Db)
    requires d == ReportPhase(db, w, p, now).db
    ensures d.jobs == db.jobs
    ensures d.attempts == db.attempts || (&& p.authority.attempt in db.attempts && p.authority.job in db.jobs && Advances(db, p, now)
                                          && d.attempts == db.attempts[p.authority.attempt := Entered(db, p, now)])
  {
    hide NextPhaseDeadline;
    hide PhaseReportWellFormed;
    hide CurrentSession;
    hide SetPhase;
  }

  predicate Advances(db: Db, p: PhaseReport, now: Time)
    requires p.authority.attempt in db.attempts && p.authority.job in db.jobs
  {
    var row := db.attempts[p.authority.attempt];
    AuthorityOf(p.authority.attempt, row) == p.authority && row.state != p.phase && NextPhaseDeadline(p, row, db.jobs[p.authority.job].spec, now).Ok?
  }

  function Entered(db: Db, p: PhaseReport, now: Time): Attempt
    requires p.authority.attempt in db.attempts && p.authority.job in db.jobs && Advances(db, p, now)
  {
    var row := db.attempts[p.authority.attempt];
    SetPhase(row, p, NextPhaseDeadline(p, row, db.jobs[p.authority.job].spec, now).value)
  }

  lemma ReportBegins(skew: int, db: Db, act: Action, done: Db, starts: Starts, x: AttemptId)
    requires act.DoReportPhase? && done == ReportPhase(db, act.worker, act.report, act.at).db
    requires StartedFirst(skew, act, starts) && Begun(skew, db, starts, x)
    ensures Begun(skew, done, starts, x)
  {
    hide ReportPhase;
    AdvancesOne(db, act.worker, act.report, act.at, done);
  }

  lemma OthersKeepBegun(skew: int, db: Db, act: Action, done: Db, d: Db, starts: Starts, x: AttemptId)
    requires Inv(db) && Next(db, act, d) && done == Commit(db, act) && !act.DoReportPhase? && Begun(skew, db, starts, x)
    ensures Begun(skew, d, starts, x)
  {
    hide Inv;
    hide Commit;
    JournalDelivery.OwnedOf(db);
    JournalDelivery.OthersKeep(db, act, done, x);
    if x in db.attempts {
      ActionKeepsInv(db, act, d);
      assert AttemptEvolves(db, d, x);
      if Timed(db.attempts[x].state) { assert JobEvolves(db, d, db.attempts[x].job); }
    }
  }

  lemma ActionKeepsBegun(skew: int, db: Db, act: Action, d: Db, starts: Starts, x: AttemptId)
    requires Inv(db) && Next(db, act, d) && StartedFirst(skew, act, starts) && Begun(skew, db, starts, x)
    ensures Begun(skew, d, starts, x)
  {
    hide Inv;
    hide Commit;
    hide Begun;
    if act.DoReportPhase? {
      JournalDelivery.CommitOf(db, act);
      ReportBegins(skew, db, act, Commit(db, act), starts, x);
      ClockAside(skew, Commit(db, act), d, starts, x);
    } else {
      OthersKeepBegun(skew, db, act, Commit(db, act), d, starts, x);
    }
  }

  lemma ClockAside(skew: int, done: Db, d: Db, starts: Starts, x: AttemptId)
    requires Begun(skew, done, starts, x) && d.attempts == done.attempts && d.jobs == done.jobs
    ensures Begun(skew, d, starts, x)
  {
  }

  lemma {:induction false} RunBegun(skew: int, run: seq<System>, moves: seq<Move>, starts: Starts, i: nat, x: AttemptId)
    requires SystemRun(skew, run, moves) && AllStartedFirst(skew, moves, starts) && i < |run|
    ensures Begun(skew, run[i].db, starts, x)
    decreases i
  {
    hide Safe;
    hide Next;
    if i > 0 {
      RunBegun(skew, run, moves, starts, i - 1, x);
      SystemSafe(skew, run, moves, i - 1);
      SafeInv(skew, run[i - 1]);
      var m, s, t := moves[i - 1], run[i - 1], run[i];
      if m.Server? || m.Serve? { ActionKeepsBegun(skew, s.db, m.act, t.db, starts, x); }
    }
  }

  lemma SafeInv(skew: int, s: System)
    requires Safe(skew, s)
    ensures Inv(s.db)
  {
  }

  /** The worker's own deadline for the phase an attempt is in is still ahead. */
  ghost predicate LocallyLive(db: Db, a: Authority, starts: Starts, now: MonoTime)
    requires a.attempt in db.attempts && db.attempts[a.attempt].job in db.jobs
  {
    var row := db.attempts[a.attempt];
    var seconds := PhaseTimeout(db.jobs[row.job].spec, row.state);
    && (a, row.state) in starts && 0 <= seconds
    && var local := PhaseDeadlineAt(starts[(a, row.state)], seconds); local.Good? && RemainingAt(local.value, now).Good?
  }

  /** For every specification: a live window never reaches past the stored phase deadline while the attempt
      is starting, while it is in the phase of the grant, or while the local deadline of its phase is ahead. */
  lemma WithinPhase(skew: int, run: seq<System>, moves: seq<Move>, starts: Starts, i: nat, a: Authority, now: MonoTime)
    requires SystemRun(skew, run, moves) && AllStartedFirst(skew, moves, starts) && i < |run|
    requires a in run[i].controls && IsLive(run[i].controls[a].state, Some(now))
    ensures a.attempt in run[i].db.attempts && run[i].db.attempts[a.attempt].job in run[i].db.jobs
    ensures var state := run[i].db.attempts[a.attempt].state;
            (PhaseRank(state) <= 1 || PhaseRank(run[i].controls[a].since) == PhaseRank(state)
             || (Timed(state) && LocallyLive(run[i].db, a, starts, now))) ==>
              now < run[i].db.attempts[a.attempt].phase + skew
  {
    SystemPhaseSafe(skew, run, moves, i);
    assert ControlCapped(skew, run[i].db, a, run[i].controls[a]);
    LeaseExclusion(skew, run, moves, i, a, now);
    RunBegun(skew, run, moves, starts, i, a.attempt);
  }
}
