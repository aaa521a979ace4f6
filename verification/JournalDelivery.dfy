/** A record's phase reports inside whole runs of the control plane: retransmitted, and among everything else. */
module JournalDelivery {
  import opened Base
  import opened Schema
  import opened Transactions
  import opened Protocol
  import opened Ownership
  import opened Evolution
  import opened Runs
  import opened Journal
  import opened JournalRuns
  import Paths
  import LeaseFencing

  // ------------------------------------------------- what other transactions leave alone

  /** The attempt is not new; it has ended, or is in the phase and container it was in. */
  ghost predicate KeptOrEnded(db: Db, d: Db, x: AttemptId)
  {
    && (x in d.attempts <==> x in db.attempts)
    && (x in d.attempts && IsActive(d.attempts[x].state) ==>
          d.attempts[x].state == db.attempts[x].state && d.attempts[x].container == db.attempts[x].container)
  }

  lemma SettleKeeps(db: Db, id: AttemptId, e: Ending, x: AttemptId)
    requires id in db.attempts && id in db.reservations && db.attempts[id].job in db.jobs && !IsActive(e.state)
    ensures KeptOrEnded(db, Settle(db, id, e), x) && Settle(db, id, e).reports == db.reports
  {
    hide Settle;
    Paths.SettleFrame(db, id, e);
    assert x in [id] <==> x == id;
  }

  lemma FenceKeeps(db: Db, id: AttemptId, hash: Hash, now: Time, x: AttemptId)
    requires FenceLost(db, id, hash, now).Ok?
    ensures KeptOrEnded(db, FenceLost(db, id, hash, now).value, x) && FenceLost(db, id, hash, now).value.reports == db.reports
  {
    hide Settle;
    SettleKeeps(db, id, FenceEnding(db.jobs[db.attempts[id].job], db.attempts[id], hash(id), now), x);
  }

  lemma {:induction false} FenceAllKeeps(db: Db, ids: seq<AttemptId>, hash: Hash, now: Time, x: AttemptId)
    requires FenceAll(db, ids, hash, now).Ok?
    ensures KeptOrEnded(db, FenceAll(db, ids, hash, now).value, x) && FenceAll(db, ids, hash, now).value.reports == db.reports
  {
    hide FenceLost;
    if ids != [] {
      FenceAllKeeps(db, ids[..|ids| - 1], hash, now, x);
      FenceKeeps(FenceAll(db, ids[..|ids| - 1], hash, now).value, ids[|ids| - 1], hash, now, x);
    }
  }

  lemma RegisterKeeps(db: Db, c: RegisterCall, hash: Hash, done: Db, x: AttemptId)
    requires done == Register(db, c, hash).db && db.clock <= c.now
    ensures KeptOrEnded(db, done, x) && done.reports == db.reports
  {
    hide Register;
    hide FenceAll;
    var base := Paths.RegisterBase(db, c, hash, done);
    if base != db { FenceAllKeeps(db, c.order, hash, c.now, x); }
  }

  lemma ReapKeeps(db: Db, id: AttemptId, hash: Hash, now: Time, done: Db, x: AttemptId)
    requires done == Reap(db, id, hash, now).db
    ensures KeptOrEnded(db, done, x) && done.reports == db.reports
  {
    hide FenceLost;
    if FenceLost(db, id, hash, now).Ok? { FenceKeeps(db, id, hash, now, x); }
  }

  lemma CompleteKeeps(db: Db, c: CompleteCall, hash: Hash, done: Db, x: AttemptId)
    requires Owned(db) && done == Complete(db, c, hash).db
    ensures KeptOrEnded(db, done, x) && done.reports == db.reports
  {
    hide Complete;
    hide Settle;
    Paths.CompleteShape(db, c, hash);
    if Paths.Completes(db, c) {
      Paths.CompletionEndingOk(db, c, hash);
      SettleKeeps(db, c.request.authority.attempt, Paths.EndingOf(db, c, hash), x);
    }
  }

  lemma AcquireKeeps(db: Db, c: AcquireCall, done: Db, x: AttemptId)
    requires done == Acquire(db, c).db
    ensures done.reports == db.reports
    ensures x in db.attempts ==> KeptOrEnded(db, done, x)
    ensures x !in db.attempts && x in done.attempts ==> done.attempts[x].state.Assigned?
  {
    hide Acquire;
    hide Assigns;
    hide Assign;
    hide ValidSpec;
    if x in db.attempts { LeaseFencing.AcquireSpares(db, c, done, x); }
    Paths.AcquireRows(db, c);
    if Assigns(db, c) {
      Paths.AssignsChosen(db, c);
      Paths.AssignFrame(db, c, c.choice.value);
      NewRow(db, c, c.choice.value);
    }
  }

  lemma NewRow(db: Db, c: AcquireCall, j: JobId)
    requires j in db.jobs && ValidSpec(db.jobs[j].spec) && c.newId !in db.attempts
    ensures c.newId in Assign(db, c, j).attempts && Assign(db, c, j).attempts[c.newId].state.Assigned?
    ensures Assign(db, c, j).attempts == db.attempts[c.newId := Assign(db, c, j).attempts[c.newId]]
  {
  }

  lemma RenewKeeps(db: Db, c: RenewCall, done: Db, x: AttemptId)
    requires done == Renew(db, c).db
    ensures KeptOrEnded(db, done, x) && done.reports == db.reports
  {
    hide RenewalWellFormed;
    hide CurrentSession;
    hide ReplayDecodes;
    hide ReplayedGrants;
    hide FreshGrants;
  }

  lemma HeartbeatKeeps(db: Db, w: WorkerId, h: HeartbeatReport, now: Time, done: Db, x: AttemptId)
    requires db.clock <= now && done == Heartbeat(db, w, h, now).db
    ensures KeptOrEnded(db, done, x) && done.reports == db.reports
  {
    hide Heartbeat;
    hide Releases;
    hide BeatReconciles;
    Paths.HeartbeatShape(db, w, h, now);
  }

  lemma SubmitKeeps(db: Db, sweep: Option<(SweepId, Sweep)>, children: map<JobId, NewJob>, now: Time)
    ensures Submit(db, sweep, children, now).db.attempts == db.attempts && Submit(db, sweep, children, now).db.reports == db.reports
  {
    hide Submit;
    hide Submitted;
    Paths.SubmitRows(db, sweep, children, now);
    Paths.SubmittedFrame(db, sweep, children, now);
  }

  lemma CancelKeeps(db: Db, project: ProjectId, j: JobId)
    ensures Cancel(db, project, j).db.attempts == db.attempts && Cancel(db, project, j).db.reports == db.reports
  {
  }

  lemma DrainKeeps(db: Db, w: WorkerId)
    ensures Drain(db, w).db.attempts == db.attempts && Drain(db, w).db.reports == db.reports
  {
  }

  lemma ApproveKeeps(db: Db, w: WorkerId, from: SessionId, to: SessionId)
    ensures ApproveTakeover(db, w, from, to).db.attempts == db.attempts && ApproveTakeover(db, w, from, to).db.reports == db.reports
  {
  }

  lemma SameRow(db: Db, done: Db, x: AttemptId)
    requires done.attempts == db.attempts
    ensures KeptOrEnded(db, done, x)
  {
  }

  lemma NotNew(db: Db, done: Db, x: AttemptId)
    requires KeptOrEnded(db, done, x)
    ensures x in done.attempts ==> x in db.attempts
  {
  }

  lemma UserActionKeeps(db: Db, act: Action, done: Db, x: AttemptId)
    requires done == Commit(db, act)
    requires act.DoWait? || act.DoSubmit? || act.DoCancel? || act.DoDrain? || act.DoApproveTakeover?
    ensures KeptOrEnded(db, done, x) && done.reports == db.reports
  {
    hide Submit;
    hide Cancel;
    hide Drain;
    hide ApproveTakeover;
    hide KeptOrEnded;
    match act {
      case DoSubmit(sweep, children, t) => SubmitKeeps(db, sweep, children, t);
      case DoCancel(p, j, t) => CancelKeeps(db, p, j);
      case DoDrain(w, t) => DrainKeeps(db, w);
      case DoApproveTakeover(w, from, to, t) => ApproveKeeps(db, w, from, to);
      case DoWait(t) =>
    }
    SameRow(db, done, x);
  }

  /** Only a phase report changes the phase of an attempt that stays active, or the reports on file; a new
      attempt starts out assigned. */
  lemma OthersKeep(db: Db, act: Action, done: Db, x: AttemptId)
    requires Owned(db) && db.clock <= Opens(act) <= Closes(act) && done == Commit(db, act) && !act.DoReportPhase?
    ensures done.reports == db.reports
    ensures x in db.attempts ==> KeptOrEnded(db, done, x)
    ensures x !in db.attempts && x in done.attempts ==> done.attempts[x].state.Assigned?
  {
    hide Acquire;
    hide Renew;
    hide Heartbeat;
    hide Register;
    hide Reap;
    hide Complete;
    hide Owned;
    hide KeptOrEnded;
    match act {
      case DoAcquire(c) => AcquireKeeps(db, c, done, x);
      case DoRenew(c) => RenewKeeps(db, c, done, x);
      case DoHeartbeat(w, h, t) => HeartbeatKeeps(db, w, h, t, done, x);
      case DoComplete(c, hash) => CompleteKeeps(db, c, hash, done, x);
      case DoRegister(c, hash) => RegisterKeeps(db, c, hash, done, x);
      case DoReap(id, hash, t) => ReapKeeps(db, id, hash, t, done, x);
      case _ => UserActionKeeps(db, act, done, x);
    }
    if !act.DoAcquire? { NotNew(db, done, x); }
  }

  // ----------------------------------------------------------------- steps of the record

  /** Report `k` of the record, sent once the server has every earlier one on file. */
  ghost predicate Sends(db: Db, act: Action, r: Record, k: nat)
  {
    && act.DoReportPhase? && k < |r.phases| && act.worker == r.authority.worker && act.report == r.phases[k]
    && forall i :: 0 <= i < k ==> KeyOf(r.phases[i]) in db.reports
  }

  /** Anything else: it is no phase report of this attempt and reuses no event id of the record. */
  ghost predicate Foreign(act: Action, r: Record)
  {
    act.DoReportPhase? ==>
      && act.report.authority.attempt != r.authority.attempt
      && forall i :: 0 <= i < |r.phases| ==> RequestKey(act.worker, act.report.authority.session, act.report.event) != KeyOf(r.phases[i])
  }

  lemma ForeignReport(db: Db, w: WorkerId, p: PhaseReport, now: Time, done: Db, x: AttemptId)
    requires done == ReportPhase(db, w, p, now).db && x in db.attempts && p.authority.attempt != x
    ensures x in done.attempts && done.attempts[x] == db.attempts[x]
    ensures done.reports == db.reports || done.reports == db.reports[RequestKey(w, p.authority.session, p.event) := p]
  {
  }

  lemma ForeignKeepsFile(db: Db, act: Action, d: Db, r: Record, n: nat)
    requires Inv(db) && Next(db, act, d) && Foreign(act, r) && OnFile(db, r, n)
    ensures OnFile(d, r, n)
  {
    hide Inv;
    hide Commit;
    var done, x := Commit(db, act), r.authority.attempt;
    assert AttemptEvolves(db, d, x) by { ActionKeepsInv(db, act, d); }
    if act.DoReportPhase? {
      CommitOf(db, act);
      ForeignReport(db, act.worker, act.report, act.at, done, x);
    } else {
      OwnedOf(db);
      OthersKeep(db, act, done, x);
    }
  }

  lemma OwnedOf(db: Db)
    requires Inv(db)
    ensures Owned(db)
  {
  }

  lemma CommitOf(db: Db, act: Action)
    requires act.DoReportPhase?
    ensures Commit(db, act) == ReportPhase(db, act.worker, act.report, act.at).db
  {
  }

  lemma OwnKeepsFile(db: Db, act: Action, d: Db, r: Record, id: AttemptId, n: nat, k: nat) returns (m: nat)
    requires Valid(r, id) && Next(db, act, d) && Sends(db, act, r, k) && OnFile(db, r, n)
    ensures OnFile(d, r, m)
    ensures ReportPhase(db, act.worker, act.report, act.at).reply != Err(ErrConflict)
  {
    hide Valid;
    hide ReportPhase;
    var done := ReportPhase(db, act.worker, act.report, act.at).db;
    EventsDistinct(r, id);
    assert n < |r.phases| ==> KeyOf(r.phases[n]) !in db.reports;
    assert k <= n;
    ReportsNeverConflict(db, r, id, n, k, act.at, done);
    ReportsAre(r, id, k);
    m := if k == n && KeyOf(r.phases[n]) in done.reports then n + 1 else n;
    ReportEffect(db, r.phases[k], act.at, done);
  }

  // ------------------------------------------------------------------------------- runs

  /** From state `s` on, every transaction is a report of the record in order, or foreign to it. */
  ghost predicate InOrder(run: seq<Db>, acts: seq<Action>, r: Record, s: nat)
    requires |run| == |acts| + 1
  {
    forall i {:trigger acts[i]} :: s <= i < |acts| ==> Foreign(acts[i], r) || exists k :: Sends(run[i], acts[i], r, k)
  }

  lemma FileStep(run: seq<Db>, acts: seq<Action>, r: Record, id: AttemptId, s: nat, i: nat, n: nat) returns (m: nat)
    requires IsRun(run, acts) && s <= i < |acts| && Valid(r, id) && InOrder(run, acts, r, s) && OnFile(run[i], r, n)
    ensures OnFile(run[i + 1], r, m)
  {
    hide Valid;
    hide OnFile;
    RunStep(run, acts, i);
    var act := acts[i];
    if k :| Sends(run[i], act, r, k) {
      m := OwnKeepsFile(run[i], act, run[i + 1], r, id, n, k);
    } else {
      ForeignKeepsFile(run[i], act, run[i + 1], r, n);
      m := n;
    }
  }

  lemma {:induction false} FileGrows(run: seq<Db>, acts: seq<Action>, r: Record, id: AttemptId, s: nat, i: nat) returns (n: nat)
    requires IsRun(run, acts) && s <= i < |run| && Valid(r, id) && InOrder(run, acts, r, s) && OnFile(run[s], r, 0)
    ensures OnFile(run[i], r, n)
    decreases i
  {
    if i == s {
      n := 0;
    } else {
      var before := FileGrows(run, acts, r, id, s, i - 1);
      n := FileStep(run, acts, r, id, s, i - 1, before);
    }
  }

  /** From the assignment on, the record's reports never meet a conflict, however often they are repeated
      and whatever else commits in between. */
  lemma DeliveriesNeverConflict(run: seq<Db>, acts: seq<Action>, r: Record, id: AttemptId, s: nat, i: nat, k: nat)
    requires IsRun(run, acts) && s <= i < |acts| && Valid(r, id) && InOrder(run, acts, r, s) && OnFile(run[s], r, 0)
    requires Sends(run[i], acts[i], r, k)
    ensures ReportPhase(run[i], acts[i].worker, acts[i].report, acts[i].at).reply != Err(ErrConflict)
  {
    hide Valid;
    hide OnFile;
    var n := FileGrows(run, acts, r, id, s, i);
    assert Steps(run, acts, i);
    var _ := OwnKeepsFile(run[i], acts[i], run[i + 1], r, id, n, k);
  }

  // ------------------------------------------------------------------- a growing journal

  /** Transaction `i` is a report that is on file in the journal at its moment `times[i]`, sent in order, or
      foreign to everything the journal will ever hold. */
  ghost predicate SentFrom(run: seq<Db>, acts: seq<Action>, journal: seq<Record>, times: seq<nat>, s: nat)
    requires |run| == |acts| + 1 == |times| + 1 && journal != []
  {
    forall i {:trigger acts[i]} :: s <= i < |acts| ==>
      && times[i] < |journal|
      && (Foreign(acts[i], journal[|journal| - 1]) || exists k :: Sends(run[i], acts[i], journal[times[i]], k))
  }

  /** A report stays what it was when it was sent. */
  lemma SentStays(db: Db, act: Action, journal: seq<Record>, ops: seq<Op>, id: AttemptId, t: nat, k: nat)
    requires JournalRun(journal, ops, id) && t < |journal| && Sends(db, act, journal[t], k)
    ensures Sends(db, act, journal[|journal| - 1], k)
  {
    hide JournalRun;
    var last := |journal| - 1;
    EvidenceIsWrittenOnce(journal, ops, id, t, last);
    assert journal[t].phases <= journal[last].phases && journal[t].authority == journal[last].authority;
  }

  /** While the journal grows by any operations, whatever it has on file is delivered without a conflict. */
  lemma GrowingJournalNeverConflicts(
    run: seq<Db>, acts: seq<Action>, journal: seq<Record>, ops: seq<Op>, times: seq<nat>, id: AttemptId, s: nat, i: nat, k: nat)
    requires IsRun(run, acts) && |times| == |acts| && s <= i < |acts| && JournalRun(journal, ops, id)
    requires SentFrom(run, acts, journal, times, s) && OnFile(run[s], journal[|journal| - 1], 0)
    requires times[i] < |journal| && Sends(run[i], acts[i], journal[times[i]], k)
    ensures ReportPhase(run[i], acts[i].worker, acts[i].report, acts[i].at).reply != Err(ErrConflict)
  {
    hide Steps;
    hide OnFile;
    hide Sends;
    hide ReportPhase;
    var r := journal[|journal| - 1];
    RunValid(journal, ops, id, |journal| - 1);
    forall m {:trigger acts[m]} | s <= m < |acts| ensures Foreign(acts[m], r) || exists n :: Sends(run[m], acts[m], r, n) {
      if n :| Sends(run[m], acts[m], journal[times[m]], n) { SentStays(run[m], acts[m], journal, ops, id, times[m], n); }
    }
    SentStays(run[i], acts[i], journal, ops, id, times[i], k);
    hide Foreign;
    DeliveriesNeverConflict(run, acts, r, id, s, i, k);
  }
}
