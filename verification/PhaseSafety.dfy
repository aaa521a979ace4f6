/** When a worker's window never outlives its attempt's phase: the condition on the job's timeouts. */
module PhaseSafety {
  import opened Base
  import opened Schema
  import opened Transactions
  import opened Protocol
  import opened Changes
  import opened Ownership
  import opened Evolution
  import opened Timing
  import opened Runs
  import opened LeaseWindow
  import opened AuthorityControl
  import opened LeaseSafety
  import Paths

  /** The longest window a grant can open. */
  const WINDOW_SECONDS := 25

  /** No phase that may follow is shorter than what a window of the phase before may still reach. */
  predicate PhasesFit(s: JobSpec)
  {
    && Min(WINDOW_SECONDS, s.startup) <= s.execution && Min(WINDOW_SECONDS, s.startup) <= s.finalization
    && Min(WINDOW_SECONDS, s.execution) <= s.finalization
  }

  function PhaseTimeout(s: JobSpec, phase: AttemptState): int
  {
    if phase.Running? then s.execution else if PhaseRank(phase) < 2 then s.startup else s.finalization
  }

  /** Authority granted in phase `since` that ends at `until` on the server's clock: it reaches no further
      ahead than that phase's timeout, not beyond the startup deadline while that one counts, and with fitting
      timeouts not beyond the present deadline. */
  ghost predicate Capped(db: Db, a: Authority, since: AttemptState, until: Time)
  {
    && a.attempt in db.attempts && db.attempts[a.attempt].job in db.jobs
    && var row := db.attempts[a.attempt];
    && var spec := db.jobs[row.job].spec;
    && PhaseRank(since) <= PhaseRank(row.state)
    && (PhaseRank(since) <= 2 ==> until <= db.clock + Min(WINDOW_SECONDS, PhaseTimeout(spec, since)) * SECOND)
    && (PhaseRank(row.state) <= 1 || PhasesFit(spec) ==> until <= row.phase)
    && (PhaseRank(since) <= 1 && row.state.Running? && Min(WINDOW_SECONDS, spec.startup) <= spec.execution ==> until <= row.phase)
  }

  // ------------------------------------------------------------------ row changes

  lemma PhaseStays(db: Db, ch: Change, d: Db, x: AttemptId)
    requires Makes(db, ch, d) && x in db.attempts && (ch.Advance? ==> ch.report.authority.attempt != x)
    ensures x in d.attempts && d.attempts[x].phase == db.attempts[x].phase
  {
    hide Ended;
    hide CanEnqueue;
    hide CanReopen;
    hide CanBeat;
    hide CanEnd;
    if ch.End? { EndKeepsPhase(db, ch.attempt, ch.ending, ch.record, d, x); }
  }

  lemma EndKeepsPhase(db: Db, id: AttemptId, e: Ending, record: Option<CompletionRecord>, d: Db, x: AttemptId)
    requires CanEnd(db, id, e, record) && d == Ended(db, id, e, record) && x in db.attempts
    ensures x in d.attempts && d.attempts[x].phase == db.attempts[x].phase
  {
    EndStays(db, id, e, record, d);
  }

  /** Entering a phase: the new deadline lies its timeout ahead, which fits every earlier window. */
  lemma AdvanceKeepsCapped(db: Db, r: PhaseReport, t: Time, now: Time, d: Db, a: Authority, since: AttemptState, until: Time)
    requires CanAdvance(db, r, t, now) && d == Advanced(db, r, t, now) && r.authority.attempt == a.attempt
    requires Capped(db, a, since, until)
    ensures Capped(d, a, since, until)
  {
  }

  lemma ChangeKeepsCapped(db: Db, ch: Change, d: Db, a: Authority, since: AttemptState, until: Time)
    requires Inv(db) && Makes(db, ch, d) && Capped(db, a, since, until)
    ensures Capped(d, a, since, until)
  {
    hide Inv;
    hide Makes;
    if ch.Advance? && ch.report.authority.attempt == a.attempt {
      AdvanceMakes(db, ch, d);
      AdvanceKeepsCapped(db, ch.report, ch.deadline, ch.at, d, a, since, until);
    } else {
      PhaseStays(db, ch, d, a.attempt);
      ChangeKeepsInv(db, ch, d);
      assert AttemptEvolves(db, d, a.attempt) && JobEvolves(db, d, db.attempts[a.attempt].job);
    }
  }

  lemma AdvanceMakes(db: Db, ch: Change, d: Db)
    requires ch.Advance? && Makes(db, ch, d)
    ensures CanAdvance(db, ch.report, ch.deadline, ch.at) && d == Advanced(db, ch.report, ch.deadline, ch.at)
  {
  }

  lemma {:induction false} PathKeepsCapped(db: Db, p: Path, d: Db, a: Authority, since: AttemptState, until: Time)
    requires Inv(db) && Leads(db, p, d) && Capped(db, a, since, until)
    ensures Capped(d, a, since, until)
    decreases p
  {
    hide Inv;
    hide Makes;
    hide Capped;
    match p {
      case Start =>
      case Then(before, mid, ch) =>
        PathKeepsInv(db, before, mid);
        PathKeepsCapped(db, before, mid, a, since, until);
        ChangeKeepsCapped(mid, ch, d, a, since, until);
    }
  }

  lemma ActionKeepsCapped(db: Db, act: Action, d: Db, a: Authority, since: AttemptState, until: Time)
    requires Inv(db) && Next(db, act, d) && Capped(db, a, since, until)
    ensures Capped(d, a, since, until)
  {
    hide Capped;
    hide Leads;
    hide Commit;
    var p := Paths.ActionPath(db, act, d);
    PathKeepsCapped(db, p, d, a, since, until);
  }

  // ------------------------------------------------------------------- system steps

  /** Where a window of this reply would end, on the worker's clock. */
  function WindowEnd(r: Reply): int
  {
    r.sent + Min(r.result.remainingMs - LEASE_MARGIN_MS, r.result.phaseRemainingMs) * MILLISECOND
  }

  ghost predicate ReplyCapped(skew: int, db: Db, r: Reply)
  {
    r.result.decision.Accepted? && r.result.remainingMs <= 30_000 ==> Capped(db, r.result.authority, r.since, WindowEnd(r) - skew)
  }

  ghost predicate ControlCapped(skew: int, db: Db, a: Authority, c: Control)
  {
    c.state.Live? ==> Capped(db, a, c.since, c.state.window.deadline - skew)
  }

  ghost predicate PhaseSafe(skew: int, s: System)
  {
    && (forall r {:trigger r in s.replies} :: r in s.replies ==> ReplyCapped(skew, s.db, r))
    && (forall a {:trigger s.controls[a]} :: a in s.controls ==> ControlCapped(skew, s.db, a, s.controls[a]))
  }

  lemma ServerKeepsPhaseSafe(skew: int, s: System, act: Action, t: System)
    requires Inv(s.db) && PhaseSafe(skew, s) && Next(s.db, act, t.db) && t == s.(db := t.db)
    ensures PhaseSafe(skew, t)
  {
    hide Inv;
    hide Capped;
    hide Next;
    forall r | r in t.replies ensures ReplyCapped(skew, t.db, r) {
      assert ReplyCapped(skew, s.db, r);
      if r.result.decision.Accepted? && r.result.remainingMs <= 30_000 {
        ActionKeepsCapped(s.db, act, t.db, r.result.authority, r.since, WindowEnd(r) - skew);
      }
    }
    forall a | a in t.controls ensures ControlCapped(skew, t.db, a, t.controls[a]) {
      var c := s.controls[a];
      assert ControlCapped(skew, s.db, a, c);
      if c.state.Live? { ActionKeepsCapped(s.db, act, t.db, a, c.since, c.state.window.deadline - skew); }
    }
  }

  /** A new reply is as strict as the rows it was made from. */
  lemma NewReplyCapped(skew: int, d: Db, r: Reply)
    requires Inv(d) && ReplyOk(skew, d, r) && r.sent <= d.clock + skew && r.since == PhaseIn(d, r.result.authority.attempt)
    ensures ReplyCapped(skew, d, r)
  {
    if r.result.decision.Accepted? {
      assert AttemptOk(d, r.result.authority.attempt) && DeadlineOk(d, r.result.authority.attempt);
    }
  }

  lemma ServeKeepsPhaseSafe(skew: int, s: System, act: Action, sent: MonoTime, mid: System, t: System)
    requires Inv(s.db) && PhaseSafe(skew, s) && sent <= s.db.clock + skew && Next(s.db, act, t.db) && mid == s.(db := t.db)
    requires t == mid.(replies := s.replies + Replies(s.db, act, t.db, sent)) && Safe(skew, t)
    ensures PhaseSafe(skew, t)
  {
    hide Capped;
    hide Results;
    ServerKeepsPhaseSafe(skew, s, act, mid);
    forall r | r in t.replies ensures ReplyCapped(skew, t.db, r) {
      if r in mid.replies {
        assert ReplyCapped(skew, mid.db, r);
      } else {
        assert ReplyOk(skew, t.db, r);
        NewReplyCapped(skew, t.db, r);
      }
    }
    forall a | a in t.controls ensures ControlCapped(skew, t.db, a, t.controls[a]) { assert ControlCapped(skew, mid.db, a, mid.controls[a]); }
  }

  lemma DeliverKeepsPhaseSafe(skew: int, s: System, r: Reply, t: System)
    requires PhaseSafe(skew, s) && Moves(skew, s, Deliver(r), t)
    ensures PhaseSafe(skew, t)
  {
    hide Capped;
    assert ReplyCapped(skew, s.db, r);
    forall a | a in t.controls ensures ControlCapped(skew, t.db, a, t.controls[a]) {
      if a in s.controls { assert ControlCapped(skew, s.db, a, s.controls[a]); }
    }
  }

  lemma MoveKeepsPhaseSafe(skew: int, s: System, m: Move, t: System)
    requires Safe(skew, s) && PhaseSafe(skew, s) && Moves(skew, s, m, t)
    ensures PhaseSafe(skew, t)
  {
    hide Capped;
    MoveKeepsSafe(skew, s, m, t);
    match m {
      case Server(act) => ServerKeepsPhaseSafe(skew, s, act, t);
      case Send => forall a | a in t.controls ensures ControlCapped(skew, t.db, a, t.controls[a]) { assert ControlCapped(skew, s.db, a, s.controls[a]); }
      case Serve(act, sent) => ServeKeepsPhaseSafe(skew, s, act, sent, s.(db := t.db), t);
      case Deliver(r) => DeliverKeepsPhaseSafe(skew, s, r, t);
      case Halt(b, reason) =>
        forall a | a in t.controls ensures ControlCapped(skew, t.db, a, t.controls[a]) { assert ControlCapped(skew, s.db, a, s.controls[a]); }
    }
  }

  lemma {:induction false} SystemPhaseSafe(skew: int, run: seq<System>, moves: seq<Move>, i: nat)
    requires SystemRun(skew, run, moves) && i < |run|
    ensures PhaseSafe(skew, run[i])
    decreases i
  {
    hide Moves;
    hide Safe;
    if i > 0 {
      SystemPhaseSafe(skew, run, moves, i - 1);
      SystemSafe(skew, run, moves, i - 1);
      var m := moves[i - 1];
      MoveKeepsPhaseSafe(skew, run[i - 1], m, run[i]);
    }
  }

  /** A window granted while the attempt was starting ends with the execution deadline when that is not shorter. */
  lemma StartWindowEnds(skew: int, run: seq<System>, moves: seq<Move>, i: nat, a: Authority, now: MonoTime)
    requires SystemRun(skew, run, moves) && i < |run| && a in run[i].controls && IsLive(run[i].controls[a].state, Some(now))
    ensures a.attempt in run[i].db.attempts && run[i].db.attempts[a.attempt].job in run[i].db.jobs
    ensures var row := run[i].db.attempts[a.attempt];
            var spec := run[i].db.jobs[row.job].spec;
            PhaseRank(run[i].controls[a].since) <= 1 && row.state.Running? && Min(WINDOW_SECONDS, spec.startup) <= spec.execution ==>
              now < row.phase + skew
  {
    SystemPhaseSafe(skew, run, moves, i);
    assert ControlCapped(skew, run[i].db, a, run[i].controls[a]);
  }

  /** With fitting timeouts, no live window reaches past the stored phase deadline, whatever phase it was
      granted in. */
  lemma PhaseExclusion(skew: int, run: seq<System>, moves: seq<Move>, i: nat, a: Authority, now: MonoTime)
    requires SystemRun(skew, run, moves) && i < |run| && a in run[i].controls && IsLive(run[i].controls[a].state, Some(now))
    ensures a.attempt in run[i].db.attempts && run[i].db.attempts[a.attempt].job in run[i].db.jobs
    ensures PhasesFit(run[i].db.jobs[run[i].db.attempts[a.attempt].job].spec) ==> now < run[i].db.attempts[a.attempt].phase + skew
  {
    SystemPhaseSafe(skew, run, moves, i);
    assert ControlCapped(skew, run[i].db, a, run[i].controls[a]);
  }
}
