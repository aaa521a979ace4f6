/** A run for every job whose timeouts do not fit: its worker's window outlives the phase deadline. */
module PhaseWitness {
  import opened Base
  import opened Schema
  import opened Decisions
  import opened Transactions
  import opened Protocol
  import opened LeaseWindow
  import opened AuthorityControl
  import opened LeaseSafety
  import opened PhaseSafety
  import Evolution

  // ------------------------------------------------------------- one host, one job

  const ATTEMPT := Authority(0, 0, 1, 0, 0)
  const KEY := RequestKey(0, 0, 0)
  const BEAT := HeartbeatReport(0, 0, 1, true, false, true, {})
  const ACQUIRE := AcquireCall(0, 0, 0, false, Some(0), 0, 0, 0)
  const RENEW := RenewCall(0, 0, 0, [ATTEMPT], 0)

  function Claims(spec: JobSpec): Registration
    requires ValidSpec(spec)
  {
    Registration(0, LoadOf(spec), spec.labels, false)
  }

  function Host(spec: JobSpec, current: Option<SessionId>, ready: bool): Worker
    requires ValidSpec(spec)
  {
    Worker(current, if ready then Ready else Registering, ready, ready, false, false,
           if current.Some? then Some(0) else None, LoadOf(spec), spec.labels, false)
  }

  /** A host and a project that fit the job exactly. */
  function Provisioned(spec: JobSpec): Db
    requires ValidSpec(spec)
  {
    Db(0, map[0 := Project(spec.cpu, spec.memory, 1, true)], map[0 := Ceiling(LoadOf(spec), spec.labels)], {(0, 0)},
       map[], map[], map[], map[], map[0 := Host(spec, None, false)], map[], map[], map[], map[], map[], map[], map[], None)
  }

  function Waiting(spec: JobSpec): Job
  {
    QueuedJob(NewJob(0, spec, 0), None, 0)
  }

  function Queued(spec: JobSpec): Db
    requires ValidSpec(spec)
  {
    Provisioned(spec).(jobs := map[0 := Waiting(spec)])
  }

  function Registered(spec: JobSpec): Db
    requires ValidSpec(spec)
  {
    Queued(spec).(sessions := map[0 := Session(0, 1, 0, None, Claims(spec), 0, None)],
                  workers := map[0 := Host(spec, Some(0), false)], registrations := map[(0, 0) := Claims(spec)])
  }

  function InService(spec: JobSpec): Db
    requires ValidSpec(spec)
  {
    Registered(spec).(sessions := map[0 := Session(0, 1, 0, None, Claims(spec), 1, Some(BEAT))],
                      workers := map[0 := Host(spec, Some(0), true)])
  }

  function SubmitOf(spec: JobSpec): Action
  {
    DoSubmit(None, map[0 := NewJob(0, spec, 0)], 0)
  }

  function RegisterOf(spec: JobSpec): Action
    requires ValidSpec(spec)
  {
    DoRegister(RegisterCall(0, 0, Claims(spec), [], 1, 0, 0), (x: AttemptId) => 0)
  }

  lemma Submits(spec: JobSpec)
    requires ValidSpec(spec)
    ensures Next(Provisioned(spec), SubmitOf(spec), Queued(spec))
  {
    hide ValidSpec;
    var db, children := Provisioned(spec), map[0 := NewJob(0, spec, 0)];
    assert Submitted(db, None, children, 0).jobs == map[0 := Waiting(spec)];
    assert Submit(db, None, children, 0).db == Submitted(db, None, children, 0);
  }

  lemma Registers(spec: JobSpec)
    requires ValidSpec(spec)
    ensures Next(Queued(spec), RegisterOf(spec), Registered(spec))
  {
    hide Recover;
    var db, c := Queued(spec), RegisterOf(spec).register;
    assert ClaimsWithin(c.claims, db.ceilings[0]);
    assert OpenSession(db, c) == Registered(spec);
  }

  lemma Beats(spec: JobSpec)
    requires ValidSpec(spec)
    ensures Next(Registered(spec), DoHeartbeat(0, BEAT, 0), InService(spec))
  {
    hide ValidSpec;
    hide Beaten;
    hide StillUncertain;
    hide StopSet;
    BeatReadies(spec);
  }

  lemma BeatReadies(spec: JobSpec)
    requires ValidSpec(spec)
    ensures Beaten(Registered(spec), 0, BEAT, 0) == InService(spec)
  {
    hide ValidSpec;
    var db := Registered(spec);
    assert BeatReconciles(db, 0, BEAT, 0) by { assert StopSet(db, 0, BEAT, 0) == {}; }
    hide BeatReconciles;
  }

  // ---------------------------------------------------------------- the attempt at work

  /** The attempt is at work in `state` until `phase`; the first `events` phase reports are used up. */
  ghost predicate AtWork(db: Db, spec: JobSpec, state: AttemptState, phase: Time, events: nat)
  {
    && db.clock == 0 && CurrentSession(db, 0, 0) && db.renewals == map[]
    && 0 in db.jobs && db.jobs[0].spec == spec && db.jobs[0].current == Some(0) && !db.jobs[0].cancelRequested
    && 0 in db.attempts && AuthorityOf(0, db.attempts[0]) == ATTEMPT && db.attempts[0].state == state && phase > 0
    && db.attempts[0].phase == phase && db.attempts[0].lease == INITIAL_LEASE
    && db.attempts[0].container == (if events < 2 then None else Some(0)) && db.attempts[0].exit.None?
    && forall k :: k in db.reports ==> k.request < events
  }

  lemma NothingBlocks(spec: JobSpec)
    requires ValidSpec(spec)
    ensures AcquireReason(InService(spec), ACQUIRE).None? && IsSelection(InService(spec), 0, 0, Some(0))
  {
    var db := InService(spec);
    assert HeldBy(db, 0) == map[] && ProjectRows(db, 0) == map[];
    assert Visible(db, 0, 0, 0);
  }

  lemma Acquires(spec: JobSpec, d: Db)
    requires ValidSpec(spec) && d == Apply(InService(spec), DoAcquire(ACQUIRE))
    ensures Next(InService(spec), DoAcquire(ACQUIRE), d) && AtWork(d, spec, Assigned, spec.startup * SECOND, 0)
    ensures Acquire(InService(spec), ACQUIRE).reply == Ok(Assignment(ATTEMPT, INITIAL_LEASE, spec.startup * SECOND, 0))
  {
    hide AcquireReason;
    hide IsSelection;
    NothingBlocks(spec);
  }

  function ReportOf(phase: AttemptState, event: RequestId): PhaseReport
  {
    PhaseReport(ATTEMPT, event, phase, if phase.Starting? then None else Some(0), if phase.Finalizing? then Some(0) else None)
  }

  lemma MayReport(db: Db, spec: JobSpec, state: AttemptState, phase: Time, events: nat)
    requires AtWork(db, spec, state, phase, events) && IsActive(state)
    ensures LeaseDecision(db, ATTEMPT, 0).Accepted?
  {
  }

  lemma Starts(db: Db, spec: JobSpec, phase: Time, d: Db)
    requires AtWork(db, spec, Assigned, phase, 0) && d == Apply(db, DoReportPhase(0, ReportOf(Starting, 0), 0))
    ensures AtWork(d, spec, Starting, phase, 1)
  {
    hide LeaseDecision;
    MayReport(db, spec, Assigned, phase, 0);
    var r := ReportOf(Starting, 0);
    assert ReportPhase(db, 0, r, 0).db == Advanced(db, r, phase, 0).(reports := db.reports[KEY := r]);
    hide ReportPhase;
  }

  lemma RunsNow(db: Db, spec: JobSpec, phase: Time, d: Db)
    requires ValidSpec(spec) && AtWork(db, spec, Starting, phase, 1) && d == Apply(db, DoReportPhase(0, ReportOf(Running, 1), 0))
    ensures AtWork(d, spec, Running, spec.execution * SECOND, 2)
  {
    hide LeaseDecision;
    MayReport(db, spec, Starting, phase, 1);
  }

  lemma Finalizes(db: Db, spec: JobSpec, phase: Time, d: Db)
    requires ValidSpec(spec) && 0 in db.attempts && AtWork(db.(renewals := map[]), spec, Running, phase, 2)
    requires d == Apply(db, DoReportPhase(0, ReportOf(Finalizing, 2), 0))
    ensures 0 in d.attempts && AuthorityOf(0, d.attempts[0]) == ATTEMPT && d.attempts[0].phase == spec.finalization * SECOND
    ensures d.clock == 0 && 0 in d.jobs && d.jobs[0].spec == spec
  {
  }

  lemma RenewsNow(db: Db, spec: JobSpec, phase: Time, d: Db)
    requires AtWork(db, spec, Running, phase, 2) && d == Apply(db, DoRenew(RENEW))
    ensures Next(db, DoRenew(RENEW), d) && AtWork(d.(renewals := map[]), spec, Running, phase, 2)
    ensures Renew(db, RENEW).reply == Ok([LeaseGrant(ATTEMPT, Accepted, Some(INITIAL_LEASE), Some(phase), 0)])
  {
    hide ReplayDecodes;
    assert Renew(db, RENEW).db == Transactions.Renewed(db, RENEW);
    assert Renews(db, RENEW.members, 0, 0);
    assert FreshGrants(db, RENEW.members, 0) == [FreshGrant(db, ATTEMPT, 0)];
  }

  // ------------------------------------------------------------------------- the runs

  ghost predicate Reaches(run: seq<System>, moves: seq<Move>, s: System)
  {
    SystemRun(0, run, moves) && run[|run| - 1] == s
  }

  lemma OneMove(run: seq<System>, moves: seq<Move>, s: System, m: Move, t: System) returns (run': seq<System>, moves': seq<Move>)
    requires Reaches(run, moves, s) && Moves(0, s, m, t)
    ensures Reaches(run', moves', t)
  {
    hide Moves;
    run', moves' := run + [t], moves + [m];
    forall i {:trigger moves'[i]} | 0 <= i < |moves'| ensures Moves(0, run'[i], moves'[i], run'[i + 1]) {
      if i < |moves| { assert moves'[i] == moves[i] && run'[i] == run[i] && run'[i + 1] == run[i + 1]; }
    }
  }

  lemma ServerMove(run: seq<System>, moves: seq<Move>, s: System, act: Action, d: Db) returns (run': seq<System>, moves': seq<Move>)
    requires Reaches(run, moves, s) && Next(s.db, act, d) && d.clock == 0
    ensures Reaches(run', moves', s.(db := d))
  {
    hide Next;
    run', moves' := OneMove(run, moves, s, Server(act), s.(db := d));
  }

  /** The host is in service and has sent a request. */
  lemma ToService(spec: JobSpec) returns (run: seq<System>, moves: seq<Move>)
    requires ValidSpec(spec)
    ensures Reaches(run, moves, System(InService(spec), {0}, {}, map[]))
  {
    hide Next;
    var s := System(Provisioned(spec), {}, {}, map[]);
    run, moves := [s], [];
    Submits(spec);
    run, moves := ServerMove(run, moves, s, SubmitOf(spec), Queued(spec));
    Registers(spec);
    run, moves := ServerMove(run, moves, s.(db := Queued(spec)), RegisterOf(spec), Registered(spec));
    Beats(spec);
    run, moves := ServerMove(run, moves, s.(db := Registered(spec)), DoHeartbeat(0, BEAT, 0), InService(spec));
    run, moves := OneMove(run, moves, s.(db := InService(spec)), Send, System(InService(spec), {0}, {}, map[]));
  }

  function WindowOf(seconds: int): Window
    requires 1 <= seconds
  {
    Window(0, Min(WINDOW_SECONDS, seconds) * SECOND)
  }

  /** The worker whose window was granted in phase `since`, `seconds` before that phase's end. */
  ghost predicate Holds(s: System, seconds: int, since: AttemptState)
    requires 1 <= seconds
  {
    0 in s.sends && s.controls == map[ATTEMPT := Control(Live(WindowOf(seconds)), since)]
  }

  lemma WindowIs(seconds: int, g: Outcome<Window>)
    requires 1 <= seconds <= 604_800 && g == FromGrant(0, 0, 30_000, seconds * 1000)
    ensures g == Good(WindowOf(seconds)) && IsLive(Live(WindowOf(seconds)), Some(0))
  {
  }

  function GrantOf(seconds: int, opens: bool, since: AttemptState): Reply
    requires 1 <= seconds
  {
    Reply(LeaseResult(ATTEMPT, Accepted, 30_000, seconds * 1000), 0, opens, since)
  }

  lemma AcquireOnWire(spec: JobSpec, d: Db)
    requires ValidSpec(spec) && d == Apply(InService(spec), DoAcquire(ACQUIRE))
    ensures GrantOf(spec.startup, true, Assigned) in Replies(InService(spec), DoAcquire(ACQUIRE), d, 0)
  {
    hide Acquire;
    hide Apply;
    Acquires(spec, d);
    var result := WireAssignment(ATTEMPT, INITIAL_LEASE, spec.startup * SECOND, 0);
    assert result == GrantOf(spec.startup, true, Assigned).result;
    assert result in Results(InService(spec), DoAcquire(ACQUIRE));
  }

  lemma ToAssigned(spec: JobSpec) returns (run: seq<System>, moves: seq<Move>, s: System)
    requires ValidSpec(spec)
    ensures Reaches(run, moves, s) && AtWork(s.db, spec, Assigned, spec.startup * SECOND, 0) && Holds(s, spec.startup, Assigned)
  {
    hide Next;
    hide Apply;
    hide Replies;
    hide FromGrant;
    run, moves := ToService(spec);
    var before := System(InService(spec), {0}, {}, map[]);
    var d := Apply(InService(spec), DoAcquire(ACQUIRE));
    Acquires(spec, d);
    var served := before.(db := d, replies := before.replies + Replies(before.db, DoAcquire(ACQUIRE), d, 0));
    run, moves := OneMove(run, moves, before, Serve(DoAcquire(ACQUIRE), 0), served);
    var r := GrantOf(spec.startup, true, Assigned);
    AcquireOnWire(spec, d);
    WindowIs(spec.startup, FromGrant(0, 0, 30_000, spec.startup * 1000));
    s := served.(controls := map[ATTEMPT := Control(Live(WindowOf(spec.startup)), Assigned)]);
    assert Delivered(served.controls, r, 0) == s.controls;
    run, moves := OneMove(run, moves, served, Deliver(r), s);
  }

  lemma Reports(run: seq<System>, moves: seq<Move>, s: System, r: PhaseReport, d: Db) returns (run': seq<System>, moves': seq<Move>)
    requires Reaches(run, moves, s) && s.db.clock == 0 && d == Apply(s.db, DoReportPhase(0, r, 0))
    ensures Reaches(run', moves', s.(db := d))
  {
    run', moves' := ServerMove(run, moves, s, DoReportPhase(0, r, 0), d);
  }

  lemma ToRunning(spec: JobSpec) returns (run: seq<System>, moves: seq<Move>, s: System)
    requires ValidSpec(spec)
    ensures Reaches(run, moves, s) && AtWork(s.db, spec, Running, spec.execution * SECOND, 2) && Holds(s, spec.startup, Assigned)
  {
    hide Apply;
    run, moves, s := ToAssigned(spec);
    var d := Apply(s.db, DoReportPhase(0, ReportOf(Starting, 0), 0));
    Starts(s.db, spec, spec.startup * SECOND, d);
    run, moves := Reports(run, moves, s, ReportOf(Starting, 0), d);
    s := s.(db := d);
    d := Apply(s.db, DoReportPhase(0, ReportOf(Running, 1), 0));
    RunsNow(s.db, spec, spec.startup * SECOND, d);
    run, moves := Reports(run, moves, s, ReportOf(Running, 1), d);
    s := s.(db := d);
  }

  lemma RenewOnWire(db: Db, spec: JobSpec, d: Db)
    requires ValidSpec(spec) && AtWork(db, spec, Running, spec.execution * SECOND, 2) && d == Apply(db, DoRenew(RENEW))
    ensures GrantOf(spec.execution, false, Running) in Replies(db, DoRenew(RENEW), d, 0)
  {
    hide Renew;
    hide Apply;
    RenewsNow(db, spec, spec.execution * SECOND, d);
    var g := LeaseGrant(ATTEMPT, Accepted, Some(INITIAL_LEASE), Some(spec.execution * SECOND), 0);
    assert Renew(db, RENEW).reply.value[0] == g;
    assert WireResult(g) == GrantOf(spec.execution, false, Running).result;
    assert WireResult(g) in Results(db, DoRenew(RENEW));
  }

  lemma ToRenewed(spec: JobSpec) returns (run: seq<System>, moves: seq<Move>, s: System)
    requires ValidSpec(spec)
    ensures Reaches(run, moves, s) && AtWork(s.db.(renewals := map[]), spec, Running, spec.execution * SECOND, 2)
    ensures Holds(s, spec.execution, Running)
  {
    hide Next;
    hide Apply;
    hide Replies;
    hide FromGrant;
    run, moves, s := ToRunning(spec);
    var before := s;
    var d := Apply(s.db, DoRenew(RENEW));
    RenewsNow(s.db, spec, spec.execution * SECOND, d);
    var served := before.(db := d, replies := before.replies + Replies(before.db, DoRenew(RENEW), d, 0));
    run, moves := OneMove(run, moves, before, Serve(DoRenew(RENEW), 0), served);
    var r := GrantOf(spec.execution, false, Running);
    RenewOnWire(before.db, spec, d);
    WindowIs(spec.startup, FromGrant(0, 0, 30_000, spec.startup * 1000));
    WindowIs(spec.execution, FromGrant(0, 0, 30_000, spec.execution * 1000));
    s := served.(controls := map[ATTEMPT := Control(Live(WindowOf(spec.execution)), Running)]);
    assert Delivered(served.controls, r, 0) == s.controls;
    run, moves := OneMove(run, moves, served, Deliver(r), s);
  }

  // ------------------------------------------------------------- the exact condition

  /** In state `i` of the run, the window of an attempt at a job of this specification is live at `now`. */
  ghost predicate WindowLiveAt(spec: JobSpec, skew: int, run: seq<System>, moves: seq<Move>, i: nat, a: Authority, now: MonoTime)
  {
    && SystemRun(skew, run, moves) && i < |run| && a in run[i].controls && IsLive(run[i].controls[a].state, Some(now))
    && a.attempt in run[i].db.attempts && run[i].db.attempts[a.attempt].job in run[i].db.jobs
    && run[i].db.jobs[run[i].db.attempts[a.attempt].job].spec == spec
  }

  /** No window for a job of this specification ever reaches past the stored phase deadline. */
  ghost predicate PhaseHonoured(spec: JobSpec)
  {
    forall skew, run: seq<System>, moves, i: nat, a: Authority, now: MonoTime :: WindowLiveAt(spec, skew, run, moves, i, a, now) ==> now < run[i].db.attempts[a.attempt].phase + skew
  }

  lemma Outlasts(spec: JobSpec, run: seq<System>, moves: seq<Move>, s: System, seconds: int, since: AttemptState, phase: int)
    requires Reaches(run, moves, s) && 1 <= seconds && Holds(s, seconds, since) && 0 <= phase < Min(WINDOW_SECONDS, seconds)
    requires 0 in s.db.attempts && AuthorityOf(0, s.db.attempts[0]) == ATTEMPT && s.db.attempts[0].phase == phase * SECOND
    requires 0 in s.db.jobs && s.db.jobs[0].spec == spec
    ensures !PhaseHonoured(spec)
  {
    hide Moves;
    assert WindowLiveAt(spec, 0, run, moves, |run| - 1, ATTEMPT, phase * SECOND);
  }

  lemma ToFinalizing(spec: JobSpec, run: seq<System>, moves: seq<Move>, s: System) returns (run': seq<System>, moves': seq<Move>, d: Db)
    requires ValidSpec(spec) && Reaches(run, moves, s) && 0 in s.db.attempts
    requires AtWork(s.db.(renewals := map[]), spec, Running, spec.execution * SECOND, 2)
    ensures Reaches(run', moves', s.(db := d))
    ensures 0 in d.attempts && AuthorityOf(0, d.attempts[0]) == ATTEMPT && d.attempts[0].phase == spec.finalization * SECOND
    ensures 0 in d.jobs && d.jobs[0].spec == spec
  {
    hide Apply;
    d := Apply(s.db, DoReportPhase(0, ReportOf(Finalizing, 2), 0));
    Finalizes(s.db, spec, spec.execution * SECOND, d);
    run', moves' := Reports(run, moves, s, ReportOf(Finalizing, 2), d);
  }

  /** The timeouts of the job decide: its windows end with their phases in every run if and only if no later
      phase is shorter than a window of an earlier one can be. */
  lemma PhaseHonouredExactly(spec: JobSpec)
    requires ValidSpec(spec)
    ensures PhaseHonoured(spec) <==> PhasesFit(spec)
  {
    if PhasesFit(spec) {
      forall skew, run: seq<System>, moves, i: nat, a: Authority, now: MonoTime | WindowLiveAt(spec, skew, run, moves, i, a, now)
        ensures now < run[i].db.attempts[a.attempt].phase + skew
      {
        PhaseExclusion(skew, run, moves, i, a, now);
      }
    } else {
      PhaseOutlasted(spec);
    }
  }

  /** No window granted while a job of this specification starts reaches past the deadline of its execution. */
  ghost predicate ExitHonoured(spec: JobSpec)
  {
    forall skew, run: seq<System>, moves, i: nat, a: Authority, now: MonoTime ::
      WindowLiveAt(spec, skew, run, moves, i, a, now) && Evolution.PhaseRank(run[i].controls[a].since) <= 1 && run[i].db.attempts[a.attempt].state.Running? ==>
        now < run[i].db.attempts[a.attempt].phase + skew
  }

  /** A container that exits before its RUNNING report is answered leaves the worker with such a window: it
      ends with the execution deadline in every run if and only if the execution time is not the shorter one. */
  lemma ExitHonouredExactly(spec: JobSpec)
    requires ValidSpec(spec)
    ensures ExitHonoured(spec) <==> Min(WINDOW_SECONDS, spec.startup) <= spec.execution
  {
    if Min(WINDOW_SECONDS, spec.startup) <= spec.execution {
      forall skew, run: seq<System>, moves, i: nat, a: Authority, now: MonoTime
        | WindowLiveAt(spec, skew, run, moves, i, a, now) && Evolution.PhaseRank(run[i].controls[a].since) <= 1 && run[i].db.attempts[a.attempt].state.Running?
        ensures now < run[i].db.attempts[a.attempt].phase + skew
      {
        StartWindowEnds(skew, run, moves, i, a, now);
      }
    } else {
      var run, moves, s := ToRunning(spec);
      ExitOutlasts(spec, run, moves, s);
    }
  }

  lemma ExitOutlasts(spec: JobSpec, run: seq<System>, moves: seq<Move>, s: System)
    requires ValidSpec(spec) && Reaches(run, moves, s) && Holds(s, spec.startup, Assigned) && Min(WINDOW_SECONDS, spec.startup) > spec.execution
    requires AtWork(s.db, spec, Running, spec.execution * SECOND, 2)
    ensures !ExitHonoured(spec)
  {
    hide Moves;
    assert WindowLiveAt(spec, 0, run, moves, |run| - 1, ATTEMPT, spec.execution * SECOND);
  }

  lemma PhaseOutlasted(spec: JobSpec)
    requires ValidSpec(spec) && !PhasesFit(spec)
    ensures !PhaseHonoured(spec)
  {
    hide Reaches;
    hide PhaseHonoured;
    if Min(WINDOW_SECONDS, spec.startup) > spec.execution {
      var run, moves, s := ToRunning(spec);
      Outlasts(spec, run, moves, s, spec.startup, Assigned, spec.execution);
    } else if Min(WINDOW_SECONDS, spec.startup) > spec.finalization {
      var run, moves, s := ToRunning(spec);
      var d;
      run, moves, d := ToFinalizing(spec, run, moves, s);
      Outlasts(spec, run, moves, s.(db := d), spec.startup, Assigned, spec.finalization);
    } else {
      var run, moves, s := ToRenewed(spec);
      var d;
      run, moves, d := ToFinalizing(spec, run, moves, s);
      Outlasts(spec, run, moves, s.(db := d), spec.execution, Running, spec.finalization);
    }
  }
}
