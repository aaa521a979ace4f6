/** Every run of journal operations, and what the server makes of the phase reports it sends. */
module JournalRuns {
  import opened Base
  import opened Schema
  import opened Decisions
  import opened Transactions
  import opened Journal

  datatype Op =
    | Bind(container: ContainerId, io: bool)
    | SawExit(code: int, oom: bool, io: bool)
    | Prepare(phase: AttemptState, event: RequestId, io: bool)
    | Persist(completion: Completion, io: bool)
    | Supersede(completion: Completion, io: bool)
    | Answer(completion: Completion, reply: Reply, io: bool)

  /** The record after an operation; a refused one leaves it alone. */
  function After(r: Record, op: Op): Record
  {
    match op
    case Bind(c, io) => var o := Bound(r, c, io); if o.Done? then o.value else r
    case SawExit(code, oom, io) => var o := Exited(r, code, oom, io); if o.Done? then o.value else r
    case Prepare(phase, event, io) => var o := Prepared(r, phase, event, io); if o.Done? then o.value.0 else r
    case Persist(c, io) => var o := Persisted(r, c, io); if o.Done? then o.value else r
    case Supersede(c, io) => var o := Superseded(r, c, io); if o.Done? then o.value else r
    case Answer(c, reply, io) => var o := Answered(r, c, reply, io); if o.Done? then o.value else r
  }

  lemma OperationWritesOnce(r: Record, op: Op, id: AttemptId)
    requires Valid(r, id)
    ensures Valid(After(r, op), id) && WrittenOnce(r, After(r, op))
  {
    ValidIdentity(r, id);
    hide Valid;
  }

  lemma WrittenOnceTransitive(a: Record, b: Record, c: Record)
    requires WrittenOnce(a, b) && WrittenOnce(b, c)
    ensures WrittenOnce(a, c)
  {
  }

  ghost predicate JournalRun(run: seq<Record>, ops: seq<Op>, id: AttemptId)
  {
    && |run| == |ops| + 1 && Valid(run[0], id)
    && forall i {:trigger ops[i]} :: 0 <= i < |ops| ==> run[i + 1] == After(run[i], ops[i])
  }

  lemma {:induction false} RunValid(run: seq<Record>, ops: seq<Op>, id: AttemptId, i: nat)
    requires JournalRun(run, ops, id) && i < |run|
    ensures Valid(run[i], id)
    decreases i
  {
    if i > 0 {
      RunValid(run, ops, id, i - 1);
      OperationWritesOnce(run[i - 1], ops[i - 1], id);
    }
  }

  /** Evidence is written once over every run: container, exit and each phase report never change, a
      completion closes the phases, any reply but a stop is final, and a completion is replaced at most once, by a stopped cancellation
      with a new identity, after the server refused a result with STOP_REQUESTED. */
  lemma {:induction false} EvidenceIsWrittenOnce(run: seq<Record>, ops: seq<Op>, id: AttemptId, i: nat, k: nat)
    requires JournalRun(run, ops, id) && i <= k < |run|
    ensures WrittenOnce(run[i], run[k])
    ensures run[i].completion.Some? && run[k].completion != run[i].completion ==>
              && run[i].rejected.None? && run[k].rejected == run[i].completion && run[k].rejectedReply.Some?
              && run[k].rejectedReply.value.decision.StopRequested? && run[i].completion.value.reason != Some(UserCancelled)
              && run[k].completion.Some? && IsCancellation(run[k].completion.value) && run[k].completion.value.id != run[i].completion.value.id
    decreases k
  {
    RunValid(run, ops, id, k);
    if i < k {
      EvidenceIsWrittenOnce(run, ops, id, i, k - 1);
      RunValid(run, ops, id, k - 1);
      OperationWritesOnce(run[k - 1], ops[k - 1], id);
      WrittenOnceTransitive(run[i], run[k - 1], run[k]);
    }
  }

  // ------------------------------------------------------- phase reports at the server

  function RowState(phases: seq<PhaseReport>, n: nat): AttemptState
    requires n <= |phases|
  {
    if n == 0 then Assigned else phases[n - 1].phase
  }

  function KeyOf(p: PhaseReport): RequestKey
  {
    RequestKey(p.authority.worker, p.authority.session, p.event)
  }

  /** The server has accepted the first `n` reports of this record, or has ended the attempt. */
  ghost predicate InStep(db: Db, r: Record, n: nat)
  {
    var x := r.authority.attempt;
    && n <= |r.phases| && x in db.attempts && AuthorityOf(x, db.attempts[x]) == r.authority
    && (forall i :: 0 <= i < |r.phases| && KeyOf(r.phases[i]) in db.reports ==> db.reports[KeyOf(r.phases[i])] == r.phases[i])
    && (forall i :: 0 <= i < n ==> KeyOf(r.phases[i]) in db.reports)
    && (IsActive(db.attempts[x].state) ==>
          && db.attempts[x].state == RowState(r.phases, n)
          && (db.attempts[x].container.Some? ==> db.attempts[x].container == r.container && 2 <= n))
  }

  lemma ReportsAre(r: Record, id: AttemptId, k: nat)
    requires Valid(r, id) && k < |r.phases|
    ensures PhaseReportWellFormed(r.phases[k]) && r.phases[k].authority == r.authority
    ensures k == 0 ==> r.phases[k].phase.Starting?
    ensures k > 0 ==> PhaseOrder(r.phases[k - 1].phase) < PhaseOrder(r.phases[k].phase) && r.phases[k].container == r.container
  {
    assert PhaseOk(r, k);
    if k > 0 { assert PhaseOk(r, k - 1); }
  }

  /** The report is new and accepted. */
  predicate IsFresh(db: Db, p: PhaseReport, now: Time)
  {
    && PhaseReportWellFormed(p) && CurrentSession(db, p.authority.worker, p.authority.session) && KeyOf(p) !in db.reports
    && LeaseDecision(db, p.authority, now).Accepted?
    && NextPhaseDeadline(p, db.attempts[p.authority.attempt], db.jobs[p.authority.job].spec, now).Ok?
  }

  lemma ReportShape(db: Db, p: PhaseReport, now: Time, d: Db)
    requires d == ReportPhase(db, p.authority.worker, p, now).db
    requires p.authority.attempt in db.attempts && AuthorityOf(p.authority.attempt, db.attempts[p.authority.attempt]) == p.authority
    ensures d.reports == if IsFresh(db, p, now) then db.reports[KeyOf(p) := p] else db.reports
    ensures !IsFresh(db, p, now) || db.attempts[p.authority.attempt].state == p.phase ==> d.attempts == db.attempts
    ensures IsFresh(db, p, now) && db.attempts[p.authority.attempt].state != p.phase ==>
              var a := db.attempts[p.authority.attempt];
              var t := NextPhaseDeadline(p, a, db.jobs[p.authority.job].spec, now).value;
              d.attempts == db.attempts[p.authority.attempt := SetPhase(a, p, t)]
  {
    hide NextPhaseDeadline;
    hide PhaseReportWellFormed;
  }

  /** A report changes nothing, or is new, accepted, and moves the row to its phase. */
  lemma ReportEffect(db: Db, p: PhaseReport, now: Time, d: Db)
    requires d == ReportPhase(db, p.authority.worker, p, now).db
    requires p.authority.attempt in db.attempts && AuthorityOf(p.authority.attempt, db.attempts[p.authority.attempt]) == p.authority
    ensures (d.attempts == db.attempts && d.reports == db.reports)
         || (&& KeyOf(p) !in db.reports && d.reports == db.reports[KeyOf(p) := p]
             && LeaseDecision(db, p.authority, now).Accepted?
             && var x, a := p.authority.attempt, db.attempts[p.authority.attempt];
             && (a.container.Some? ==> p.container == a.container)
             && x in d.attempts && d.attempts == db.attempts[x := d.attempts[x]]
             && AuthorityOf(x, d.attempts[x]) == p.authority && d.attempts[x].state == p.phase
             && d.attempts[x].container == if a.container.Some? || a.state == p.phase then a.container else p.container)
  {
    hide ReportPhase;
    ReportShape(db, p, now, d);
  }

  lemma NewReportFits(db: Db, r: Record, id: AttemptId, n: nat, now: Time)
    requires Valid(r, id) && InStep(db, r, n) && n < |r.phases| && LeaseDecision(db, r.authority, now).Accepted?
    requires r.authority.job in db.jobs
    ensures NextPhaseDeadline(r.phases[n], db.attempts[r.authority.attempt], db.jobs[r.authority.job].spec, now).Ok?
  {
    ReportsAre(r, id, n);
    if n > 0 { ReportsAre(r, id, n - 1); }
    hide Valid;
  }

  lemma OneMoreOnFile(db: Db, r: Record, id: AttemptId, n: nat, now: Time, d: Db)
    requires Valid(r, id) && InStep(db, r, n) && n < |r.phases| && d == ReportPhase(db, r.authority.worker, r.phases[n], now).db
    requires d.reports != db.reports || d.attempts != db.attempts
    ensures InStep(d, r, n + 1)
  {
    ReportsAre(r, id, n);
    EventsDistinct(r, id);
    ReportEffect(db, r.phases[n], now, d);
    hide Valid;
    hide ReportPhase;
  }

  /** Sending report `k`, for the first time or again, once the earlier ones were acknowledged, is never
      a conflict; afterwards the server is still in step. */
  lemma ReportsNeverConflict(db: Db, r: Record, id: AttemptId, n: nat, k: nat, now: Time, d: Db)
    requires Valid(r, id) && InStep(db, r, n) && k <= n && k < |r.phases| && d == ReportPhase(db, r.authority.worker, r.phases[k], now).db
    ensures ReportPhase(db, r.authority.worker, r.phases[k], now).reply != Err(ErrConflict)
    ensures InStep(d, r, n) || (k == n && InStep(d, r, n + 1))
  {
    NoConflict(db, r, id, n, k, now);
    ReportsAre(r, id, k);
    ReportEffect(db, r.phases[k], now, d);
    if k == n && (d.reports != db.reports || d.attempts != db.attempts) { OneMoreOnFile(db, r, id, n, now, d); }
    hide Valid;
    hide ReportPhase;
  }

  lemma NoConflict(db: Db, r: Record, id: AttemptId, n: nat, k: nat, now: Time)
    requires Valid(r, id) && InStep(db, r, n) && k <= n && k < |r.phases|
    ensures ReportPhase(db, r.authority.worker, r.phases[k], now).reply != Err(ErrConflict)
  {
    ReportsAre(r, id, k);
    if k == n && LeaseDecision(db, r.authority, now).Accepted? && r.authority.job in db.jobs { NewReportFits(db, r, id, n, now); }
    hide Valid;
  }

  lemma EventsDistinct(r: Record, id: AttemptId)
    requires Valid(r, id)
    ensures forall i, k :: 0 <= i < k < |r.phases| ==> KeyOf(r.phases[i]) != KeyOf(r.phases[k])
  {
    forall i, k | 0 <= i < k < |r.phases| ensures KeyOf(r.phases[i]) != KeyOf(r.phases[k]) { assert PhaseOk(r, k); }
  }

  /** Exactly the first `n` reports are on file. */
  ghost predicate OnFile(db: Db, r: Record, n: nat)
  {
    InStep(db, r, n) && forall i :: n <= i < |r.phases| ==> KeyOf(r.phases[i]) !in db.reports
  }
}
