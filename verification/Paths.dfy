/** Every transaction is a path of row changes; the error returns meant to be unreachable are. */
module Paths {
  import opened Base
  import opened Schema
  import opened Decisions
  import opened Transactions
  import opened Protocol
  import opened Changes
  import opened Ownership

  // ----------------------------------------------------------------- fencing

  /** An active attempt has every row fencing needs, so `active attempt lacks active reservation`
      and the missing-row errors are unreachable. */
  lemma ActiveIsFenceable(db: Db, id: AttemptId, hash: Hash, now: Time)
    requires Owned(db) && id in db.attempts && IsActive(db.attempts[id].state)
    ensures Fenceable(db, id) && FenceLost(db, id, hash, now).Ok?
    ensures EndingOk(db, id, FenceEnding(db.jobs[db.attempts[id].job], db.attempts[id], hash(id), now))
  {
    assert AttemptOk(db, id);
    assert JobOk(db, db.attempts[id].job);
  }

  /** An active attempt has an active reservation: completion's row-count conflict is unreachable. */
  lemma ActiveHoldsReservation(db: Db, id: AttemptId)
    requires Owned(db) && id in db.attempts && IsActive(db.attempts[id].state)
    ensures id in db.reservations && db.reservations[id].state.Held? && db.attempts[id].job in db.jobs
    ensures db.jobs[db.attempts[id].job].current == Some(id)
  {
    assert AttemptOk(db, id);
  }

  ghost predicate FenceFrame(db: Db, d: Db, ids: seq<AttemptId>)
  {
    && d == db.(jobs := d.jobs, attempts := d.attempts, reservations := d.reservations)
    && d.attempts.Keys == db.attempts.Keys
    && forall x {:trigger d.attempts[x]} {:trigger x in ids} :: x in db.attempts ==>
         if x in ids then !IsActive(d.attempts[x].state) && d.attempts[x].worker == db.attempts[x].worker
         else d.attempts[x] == db.attempts[x]
  }

  lemma FenceIsEnd(db: Db, id: AttemptId, hash: Hash, now: Time)
    requires Owned(db) && id in db.attempts && IsActive(db.attempts[id].state) && id !in db.completions
    requires HostOut(db, db.attempts[id].worker)
    ensures FenceLost(db, id, hash, now).Ok?
    ensures var e := FenceEnding(db.jobs[db.attempts[id].job], db.attempts[id], hash(id), now);
            Makes(db, End(id, e, None), FenceLost(db, id, hash, now).value)
  {
    ActiveIsFenceable(db, id, hash, now);
    assert AttemptOk(db, id) && JobOk(db, db.attempts[id].job);
  }

  lemma SettleFrame(db: Db, id: AttemptId, e: Ending)
    requires id in db.attempts && id in db.reservations && db.attempts[id].job in db.jobs && !IsActive(e.state)
    ensures FenceFrame(db, Settle(db, id, e), [id])
  {
    SettleOnlyStops(db, id, e);
  }

  /** A worker's attempts that fencing may end, each named once. */
  ghost predicate Listed(db: Db, w: WorkerId, ids: seq<AttemptId>)
  {
    && (forall i {:trigger ids[i]} :: 0 <= i < |ids| ==>
          ids[i] in db.attempts && IsActive(db.attempts[ids[i]].state) && db.attempts[ids[i]].worker == w && ids[i] !in db.completions)
    && (forall i, k :: 0 <= i < k < |ids| ==> ids[i] != ids[k])
  }

  /** A recovery's fencing loop never errs; each attempt ends by one change. */
  lemma {:induction false} FenceAllPath(db: Db, w: WorkerId, ids: seq<AttemptId>, hash: Hash, now: Time) returns (p: Path, d: Db)
    requires Owned(db) && HostOut(db, w) && Listed(db, w, ids)
    ensures FenceAll(db, ids, hash, now) == Ok(d) && Leads(db, p, d)
    ensures Owned(d) && FenceFrame(db, d, ids)
  {
    hide Owned;
    hide HostOut;
    hide FenceLost;
    if ids == [] {
      p, d := Start, db;
    } else {
      hide Listed;
      hide FenceFrame;
      var most, last := ids[..|ids| - 1], ids[|ids| - 1];
      var before, mid := FenceAllPath(db, w, most, hash, now);
      LastStays(db, mid, w, ids);
      var e;
      e, d := FenceOneMore(mid, w, last, hash, now);
      FrameStep(db, mid, d, most, last);
      assert ids == most + [last];
      p := Then(before, mid, End(last, e, None));
    }
  }

  lemma LastStays(db: Db, mid: Db, w: WorkerId, ids: seq<AttemptId>)
    requires ids != [] && Listed(db, w, ids) && FenceFrame(db, mid, ids[..|ids| - 1]) && HostOut(db, w)
    ensures Listed(mid, w, [ids[|ids| - 1]]) && HostOut(mid, w) && Listed(db, w, ids[..|ids| - 1])
  {
    var last := ids[|ids| - 1];
    assert last !in ids[..|ids| - 1];
    assert mid.attempts[last] == db.attempts[last];
  }

  lemma FenceOneMore(db: Db, w: WorkerId, id: AttemptId, hash: Hash, now: Time) returns (e: Ending, d: Db)
    requires Owned(db) && HostOut(db, w) && Listed(db, w, [id])
    ensures FenceLost(db, id, hash, now) == Ok(d) && Makes(db, End(id, e, None), d)
    ensures Owned(d) && FenceFrame(db, d, [id])
  {
    assert [id][0] == id;
    FenceIsEnd(db, id, hash, now);
    e := FenceEnding(db.jobs[db.attempts[id].job], db.attempts[id], hash(id), now);
    d := FenceLost(db, id, hash, now).value;
    ChangeKeepsOwned(db, End(id, e, None), d);
    SettleFrame(db, id, e);
  }

  lemma FrameStep(db: Db, mid: Db, d: Db, ids: seq<AttemptId>, last: AttemptId)
    requires FenceFrame(db, mid, ids) && last in db.attempts && FenceFrame(mid, d, [last])
    ensures FenceFrame(db, d, ids + [last])
  {
  }

  function HostOutOfService(db: Db, w: WorkerId): Db
    requires w in db.workers
  {
    db.(workers := db.workers[w := db.workers[w].(state := Registering, reconciled := false)])
  }

  lemma SettleIgnoresHosts(db: Db, workers: map<WorkerId, Worker>, id: AttemptId, e: Ending)
    requires id in db.attempts && id in db.reservations && db.attempts[id].job in db.jobs
    ensures Settle(db.(workers := workers), id, e) == Settle(db, id, e).(workers := workers)
  {
    var x, y := EndAttempt(db.(workers := workers), id, e), EndAttempt(db, id, e);
    assert x.attempts == y.attempts && x.jobs == y.jobs && x.reservations == y.reservations;
    assert x == y.(workers := workers);
  }

  /** Fencing neither reads nor writes host rows. */
  lemma FenceIgnoresHosts(db: Db, workers: map<WorkerId, Worker>, id: AttemptId, hash: Hash, now: Time)
    ensures FenceLost(db.(workers := workers), id, hash, now)
         == match FenceLost(db, id, hash, now) case Ok(d) => Ok(d.(workers := workers)) case Err(e) => Err(e)
  {
    if Fenceable(db, id) {
      SettleIgnoresHosts(db, workers, id, FenceEnding(db.jobs[db.attempts[id].job], db.attempts[id], hash(id), now));
    }
  }

  lemma {:induction false} FenceAllIgnoresHosts(db: Db, workers: map<WorkerId, Worker>, ids: seq<AttemptId>, hash: Hash, now: Time)
    ensures FenceAll(db.(workers := workers), ids, hash, now)
         == match FenceAll(db, ids, hash, now) case Ok(d) => Ok(d.(workers := workers)) case Err(e) => Err(e)
  {
    if ids != [] {
      FenceAllIgnoresHosts(db, workers, ids[..|ids| - 1], hash, now);
      var before := FenceAll(db, ids[..|ids| - 1], hash, now);
      if before.Ok? { FenceIgnoresHosts(before.value, workers, ids[|ids| - 1], hash, now); }
    }
  }

  // ------------------------------------------------------------ transactions

  /** A path that makes no row change but the closing quiet one. */
  lemma QuietPath(db: Db, d: Db) returns (p: Path)
    requires IsQuiet(db, d)
    ensures Leads(db, p, d)
  {
    p := Then(Start, db, Quiet);
    assert Leads(db, Start, db) && Makes(db, Quiet, d);
  }

  lemma Append(db: Db, before: Path, mid: Db, ch: Change, d: Db) returns (p: Path)
    requires Leads(db, before, mid) && Makes(mid, ch, d)
    ensures Leads(db, p, d)
  {
    p := Then(before, mid, ch);
  }

  /** One row change followed by a quiet one. */
  lemma OneChange(db: Db, ch: Change, mid: Db, d: Db) returns (p: Path)
    requires Makes(db, ch, mid) && IsQuiet(mid, d)
    ensures Leads(db, p, d)
  {
    p := Then(Then(Start, db, ch), mid, Quiet);
    assert Leads(db, Start, db) && Leads(db, Then(Start, db, ch), mid) && Makes(mid, Quiet, d);
  }

  /** At most one row change, then a quiet one. */
  lemma AtMostOne(db: Db, ch: Change, mid: Db, d: Db) returns (p: Path)
    requires mid == db || Makes(db, ch, mid)
    requires IsQuiet(mid, d)
    ensures Leads(db, p, d)
  {
    if mid == db { p := QuietPath(db, d); } else { p := OneChange(db, ch, mid, d); }
  }

  lemma SubmitRows(db: Db, sweep: Option<(SweepId, Sweep)>, children: map<JobId, NewJob>, now: Time)
    ensures Submit(db, sweep, children, now).db == db || Submit(db, sweep, children, now).db == Submitted(db, sweep, children, now)
  {
    hide SubmissionValid;
    hide SubmissionNew;
    hide Submitted;
  }

  lemma SubmittedFrame(db: Db, sweep: Option<(SweepId, Sweep)>, children: map<JobId, NewJob>, now: Time)
    ensures Submitted(db, sweep, children, now).attempts == db.attempts && Submitted(db, sweep, children, now).reports == db.reports
  {
  }

  lemma SubmitShape(db: Db, sweep: Option<(SweepId, Sweep)>, children: map<JobId, NewJob>, now: Time)
    requires db.clock <= now
    ensures var d := Submit(db, sweep, children, now).db; d.clock == db.clock && (d == db || Makes(db, Enqueue(sweep, children, now), d))
  {
  }

  lemma CancelShape(db: Db, project: ProjectId, id: JobId)
    ensures var d := Cancel(db, project, id).db; d.clock == db.clock && (d == db || Makes(db, Stop(id), d))
  {
    if id in db.jobs && CanStop(db, id) {
      var j := db.jobs[id];
      var next := if j.state.Active? then Cancelling else JobState.Cancelled;
      assert StoppedBySibling(j, true) == j.(state := next, cancelRequested := true);
    }
  }

  lemma DrainShape(db: Db, w: WorkerId)
    ensures var d := Drain(db, w).db;
            d.clock == db.clock && (d == db || (w in db.workers && Makes(db, SetHost(w, Drained(db.workers[w])), d)))
  {
  }

  lemma AssignsTakes(db: Db, c: AcquireCall)
    requires Owned(db) && db.clock <= c.now && Assigns(db, c)
    ensures CanTake(db, c, c.choice.value)
  {
    hide Owned;
    hide ValidSpec;
    hide FitsWorker;
    hide FitsProject;
    hide FitsSweep;
    hide Readiness;
  }

  lemma AssignsChosen(db: Db, c: AcquireCall)
    requires Assigns(db, c)
    ensures c.choice.Some? && c.choice.value in db.jobs && ValidSpec(db.jobs[c.choice.value].spec) && c.newId !in db.attempts
  {
    hide AcquireReason;
    hide ValidSpec;
  }

  lemma AssignFrame(db: Db, c: AcquireCall, id: JobId)
    requires id in db.jobs && ValidSpec(db.jobs[id].spec)
    ensures Assign(db, c, id).clock == c.now && Assign(db, c, id).reports == db.reports
    ensures Assign(db, c, id).cursor == Some(db.jobs[id].project)
    ensures forall x :: x in db.attempts && x != c.newId ==> x in Assign(db, c, id).attempts && Assign(db, c, id).attempts[x] == db.attempts[x]
    ensures forall x :: x in db.reservations && x != c.newId ==>
              x in Assign(db, c, id).reservations && Assign(db, c, id).reservations[x] == db.reservations[x]
  {
  }

  lemma AcquireRows(db: Db, c: AcquireCall)
    ensures if Assigns(db, c)
            then Acquire(db, c).db == Assign(db, c, c.choice.value).(acquisitions := Acquire(db, c).db.acquisitions)
            else Acquire(db, c).db == db.(acquisitions := Acquire(db, c).db.acquisitions)
  {
    hide Acquire;
    hide Assign;
    if Assigns(db, c) { AcquireAssigns(db, c); } else { AcquireIdles(db, c); }
  }

  lemma AcquireAssigns(db: Db, c: AcquireCall)
    requires Assigns(db, c)
    ensures Acquire(db, c).db == Assign(db, c, c.choice.value).(acquisitions := Acquire(db, c).db.acquisitions)
  {
    hide AcquireReason;
    hide ValidSpec;
    hide Assign;
    hide CurrentSession;
  }

  lemma AcquireIdles(db: Db, c: AcquireCall)
    requires !Assigns(db, c)
    ensures Acquire(db, c).db == db.(acquisitions := Acquire(db, c).db.acquisitions)
  {
    hide Acquire;
    hide Assigns;
    hide Noted;
    IdleCases(db, c);
    if c.worker in db.workers && AcquireReason(db, c).Some? { NotedFrame(db, c, AcquireReason(db, c).value); }
  }

  function Noted(db: Db, c: AcquireCall, why: NoWork): Db
  {
    db.(acquisitions := db.acquisitions[RequestKey(c.worker, c.session, c.request) := AcquiredNothing(why)])
  }

  lemma NotedFrame(db: Db, c: AcquireCall, why: NoWork)
    ensures Noted(db, c, why) == db.(acquisitions := Noted(db, c, why).acquisitions)
  {
  }

  lemma IdleCases(db: Db, c: AcquireCall)
    requires !Assigns(db, c)
    ensures || Acquire(db, c).db == db
            || (c.worker in db.workers && AcquireReason(db, c).Some? && Acquire(db, c).db == Noted(db, c, AcquireReason(db, c).value))
  {
    hide AcquireReason;
    hide ValidSpec;
    hide Assign;
    hide ReplayAssignment;
  }

  lemma AcquireShape(db: Db, c: AcquireCall)
    requires Owned(db) && db.clock <= c.now
    ensures Acquire(db, c).db.clock <= c.now
    ensures if Assigns(db, c) then
              CanTake(db, c, c.choice.value)
              && Acquire(db, c).db == Assign(db, c, c.choice.value).(acquisitions := Acquire(db, c).db.acquisitions)
            else Acquire(db, c).db == db.(acquisitions := Acquire(db, c).db.acquisitions)
  {
    hide Acquire;
    hide AcquireReason;
    hide ValidSpec;
    hide Assign;
    hide CanTake;
    hide Owned;
    AcquireRows(db, c);
    if Assigns(db, c) {
      AssignsTakes(db, c);
      AssignFrame(db, c, c.choice.value);
    }
  }

  lemma AcquirePath(db: Db, c: AcquireCall, mid: Db, d: Db) returns (p: Path)
    requires Owned(db) && db.clock <= c.now && mid == Acquire(db, c).db && d == mid.(clock := c.now)
    ensures Leads(db, p, d)
  {
    hide Acquire;
    hide Assigns;
    hide ValidSpec;
    hide CanTake;
    hide Owned;
    hide Assign;
    AcquireShape(db, c);
    if Assigns(db, c) {
      AssignsChosen(db, c);
      AssignFrame(db, c, c.choice.value);
      p := OneChange(db, Take(c, c.choice.value), Assign(db, c, c.choice.value), d);
    } else {
      p := QuietPath(db, d);
    }
  }

  /** The attempt-counter test of acquisition cannot fail: a waiting job has attempts left. */
  lemma CounterErrorUnreachable(db: Db, c: AcquireCall)
    requires Owned(db) && CurrentSession(db, c.worker, c.session) && c.newId !in db.attempts
    requires RequestKey(c.worker, c.session, c.request) !in db.acquisitions && AcquireReason(db, c).None?
    ensures Acquire(db, c).reply.Ok? && Acquire(db, c).reply.value.Assignment?
  {
    assert JobOk(db, c.choice.value);
  }

  lemma RenewShape(db: Db, c: RenewCall)
    requires db.clock <= c.now
    ensures var d := Renew(db, c).db; d.clock <= c.now && (d == db || Makes(db, Extend(c), d))
  {
  }

  lemma ReportShape(db: Db, w: WorkerId, r: PhaseReport, now: Time) returns (mid: Db, t: Time)
    requires Owned(db) && db.clock <= now
    ensures mid == db || Makes(db, Advance(r, t, now), mid)
    ensures IsQuiet(mid, ReportPhase(db, w, r, now).db) && mid.clock <= now
  {
    var d := ReportPhase(db, w, r, now).db;
    mid, t := d.(reports := db.reports), 0;
    if d.attempts != db.attempts {
      t := NextPhaseDeadline(r, db.attempts[r.authority.attempt], db.jobs[r.authority.job].spec, now).value;
      assert CanAdvance(db, r, t, now);
    } else {
      assert mid == db;
    }
  }

  lemma HeartbeatShape(db: Db, w: WorkerId, h: HeartbeatReport, now: Time)
    requires db.clock <= now
    ensures var d := Heartbeat(db, w, h, now).db; d.clock == db.clock && (d == db || Makes(db, Beat(w, h, now), d))
  {
  }

  lemma FenceKeepsHosts(db: Db, id: AttemptId, hash: Hash, now: Time, d: Db)
    requires FenceLost(db, id, hash, now) == Ok(d)
    ensures d.workers == db.workers
  {
    var e := FenceEnding(db.jobs[db.attempts[id].job], db.attempts[id], hash(id), now);
    SettleOnlyStops(db, id, e);
    assert EndAttempt(db, id, e).workers == db.workers;
  }

  lemma ReapCommutes(db: Db, id: AttemptId, hash: Hash, now: Time, d: Db, fenced: Db)
    requires Expired(db, id, now) && db.attempts[id].worker in db.workers
    requires FenceLost(db, id, hash, now) == Ok(d) && d.workers == db.workers
    requires fenced == d.(workers := HostOutOfService(db, db.attempts[id].worker).workers)
    ensures Reap(db, id, hash, now).db == fenced
  {
  }

  /** Taking the host out of service first is the same transaction, since fencing ignores host rows. */
  lemma ReapShape(db: Db, id: AttemptId, hash: Hash, now: Time) returns (out: Db, e: Ending)
    requires Owned(db) && CompletionsEnded(db) && Expired(db, id, now)
    ensures db.attempts[id].worker in db.workers && out == HostOutOfService(db, db.attempts[id].worker)
    ensures Makes(out, End(id, e, None), Reap(db, id, hash, now).db) && Reap(db, id, hash, now).db.clock == db.clock
  {
    assert AttemptOk(db, id);
    var w := db.attempts[id].worker;
    out := HostOutOfService(db, w);
    HostKeepsOwned(db, w, out.workers[w]);
    var fenced;
    e, fenced := FenceOneMore(out, w, id, hash, now);
    FenceIgnoresHosts(db, out.workers, id, hash, now);
    var d := FenceLost(db, id, hash, now).value;
    FenceKeepsHosts(db, id, hash, now, d);
    ReapCommutes(db, id, hash, now, d, fenced);
  }

  lemma ReapPath(db: Db, id: AttemptId, hash: Hash, now: Time, mid: Db, d: Db) returns (p: Path)
    requires Owned(db) && CompletionsEnded(db) && db.clock <= now
    requires mid == Reap(db, id, hash, now).db && d == mid.(clock := now)
    ensures Leads(db, p, d)
  {
    if Expired(db, id, now) {
      var out, e := ReapShape(db, id, hash, now);
      var w := db.attempts[id].worker;
      p := ThreeChanges(db, SetHost(w, out.workers[w]), out, End(id, e, None), mid, Quiet, d);
    } else {
      p := QuietPath(db, d);
    }
  }

  /** The completion transaction passes every check on the request and its attempt. */
  predicate CompletionChecked(db: Db, c: CompleteCall)
  {
    var r := c.request;
    var id := r.authority.attempt;
    && r.authority.worker == c.worker && CompletionWellFormed(r)
    && id in db.attempts && AuthorityOf(id, db.attempts[id]) == r.authority && id !in db.completions
    && !CompletionClaimed(db, r) && IsActive(db.attempts[id].state)
    && r.authority.job in db.jobs && ValidSpec(db.jobs[r.authority.job].spec) && CurrentSession(db, c.worker, r.authority.session)
    && CompletionDecision(db, r, c.now).Accepted? && CompletionPhaseOk(r, db.attempts[id], db.jobs[r.authority.job].cancelRequested)
    && c.evidenceOk && CompletionDecision(db, r, c.published).Accepted?
  }

  /** It gets as far as changing rows. */
  predicate Completes(db: Db, c: CompleteCall)
  {
    var id := c.request.authority.attempt;
    CompletionChecked(db, c) && id in db.reservations && db.reservations[id].state.Held?
  }

  function EndingOf(db: Db, c: CompleteCall, hash: Hash): Ending
    requires Completes(db, c)
  {
    CompletionEnding(db.jobs[c.request.authority.job], c.request, hash(c.request.authority.attempt), c.published, c.now)
  }

  lemma CompleteShape(db: Db, c: CompleteCall, hash: Hash)
    ensures if Completes(db, c) then
              var id, e := c.request.authority.attempt, EndingOf(db, c, hash);
              Complete(db, c, hash).db == Settle(db, id, e).(completions := db.completions[id := CompletionRecord(c.request, e.state)])
            else Complete(db, c, hash).db == db
  {
  }

  lemma CompletionEndingOk(db: Db, c: CompleteCall, hash: Hash)
    requires Owned(db) && Completes(db, c)
    ensures EndingOk(db, c.request.authority.attempt, EndingOf(db, c, hash))
  {
    assert AttemptOk(db, c.request.authority.attempt) && JobOk(db, c.request.authority.job);
  }

  lemma CompletionEnds(db: Db, c: CompleteCall, hash: Hash, done: Db)
    requires Owned(db) && Completes(db, c) && done == Complete(db, c, hash).db
    ensures var e := EndingOf(db, c, hash);
            Makes(db, End(c.request.authority.attempt, e, Some(CompletionRecord(c.request, e.state))), done)
    ensures done.clock == db.clock
  {
    CompletionEndingOk(db, c, hash);
    SettleOnlyStops(db, c.request.authority.attempt, EndingOf(db, c, hash));
    CompleteShape(db, c, hash);
  }

  lemma CompletePath(db: Db, c: CompleteCall, hash: Hash, done: Db, d: Db) returns (p: Path)
    requires Owned(db) && done == Complete(db, c, hash).db && d == done.(clock := d.clock) && db.clock <= d.clock
    ensures Leads(db, p, d)
  {
    if Completes(db, c) {
      var e := EndingOf(db, c, hash);
      CompletionEnds(db, c, hash, done);
      p := OneChange(db, End(c.request.authority.attempt, e, Some(CompletionRecord(c.request, e.state))), done, d);
    } else {
      CompleteShape(db, c, hash);
      p := QuietPath(db, d);
    }
  }

  lemma ThreeChanges(db: Db, a: Change, x: Db, b: Change, y: Db, c: Change, d: Db) returns (p: Path)
    requires Makes(db, a, x) && Makes(x, b, y) && Makes(y, c, d)
    ensures Leads(db, p, d)
  {
    p := Append(db, Start, db, a, x);
    p := Append(db, p, x, b, y);
    p := Append(db, p, y, c, d);
  }

  // ------------------------------------------------------------ registration

  /** Recovery ends the host's active attempts, then the new incarnation opens. */
  lemma RecoverPath(db: Db, c: RegisterCall, from: SessionId, hash: Hash) returns (p: Path, d: Db)
    requires Owned(db) && CompletionsEnded(db) && db.clock <= c.now <= c.stamp
    requires IsRecoveryOrder(db, c.worker, c.order) && IsNextGeneration(db, c.worker, c.generation)
    requires c.worker in db.ceilings && ClaimsWithin(c.claims, db.ceilings[c.worker]) && c.claims.session !in db.sessions
    requires Recover(db, c.worker, from, c.claims.session, c.order, hash, c.now).Ok?
    ensures c.worker in Recover(db, c.worker, from, c.claims.session, c.order, hash, c.now).value.workers
    ensures Leads(db, p, d) && d.clock == db.clock
    ensures IsQuiet(d, OpenSession(Recover(db, c.worker, from, c.claims.session, c.order, hash, c.now).value, c))
  {
    var w := c.worker;
    var out := HostOutOfService(db, w);
    HostKeepsOwned(db, w, out.workers[w]);
    p := Append(db, Start, db, SetHost(w, out.workers[w]), out);
    RecoveryListed(db, c);
    var fences, fenced := FenceAllPath(out, w, c.order, hash, c.now);
    p := Join(db, p, out, fences, fenced);
    FencedReopens(out, c, fenced);
    d := Reopened(fenced, c);
    p := Append(db, p, fenced, Reopen(c), d);
    RecoverShape(db, c, from, hash, fenced);
  }

  lemma RecoveryListed(db: Db, c: RegisterCall)
    requires CompletionsEnded(db) && c.worker in db.workers && IsRecoveryOrder(db, c.worker, c.order)
    ensures Listed(HostOutOfService(db, c.worker), c.worker, c.order) && HostOut(HostOutOfService(db, c.worker), c.worker)
  {
  }

  /** Recovery's fencing loop cannot fail: an error would strand the worker's old session. */
  lemma RecoveryNeverFails(db: Db, c: RegisterCall, hash: Hash)
    requires Owned(db) && CompletionsEnded(db) && c.worker in db.workers && IsRecoveryOrder(db, c.worker, c.order)
    ensures FenceAll(db, c.order, hash, c.now).Ok?
  {
    hide FenceAll;
    var w := c.worker;
    var out := HostOutOfService(db, w);
    HostKeepsOwned(db, w, out.workers[w]);
    RecoveryListed(db, c);
    var _, fenced := FenceAllPath(out, w, c.order, hash, c.now);
    FenceAllIgnoresHosts(db, out.workers, c.order, hash, c.now);
  }

  lemma FencedReopens(out: Db, c: RegisterCall, fenced: Db)
    requires FenceFrame(out, fenced, c.order) && IsRecoveryOrder(out, c.worker, c.order) && c.worker in out.workers
    requires out.clock <= c.now <= c.stamp && IsNextGeneration(out, c.worker, c.generation)
    requires c.worker in out.ceilings && ClaimsWithin(c.claims, out.ceilings[c.worker]) && c.claims.session !in out.sessions
    ensures Makes(fenced, Reopen(c), Reopened(fenced, c))
  {
    forall id | id in fenced.attempts && fenced.attempts[id].worker == c.worker ensures !IsActive(fenced.attempts[id].state) {
      if id !in c.order { assert fenced.attempts[id] == out.attempts[id]; }
    }
  }

  lemma {:induction false} FenceAllKeepsHosts(db: Db, ids: seq<AttemptId>, hash: Hash, now: Time, d: Db)
    requires FenceAll(db, ids, hash, now) == Ok(d)
    ensures d.workers == db.workers
  {
    if ids != [] {
      var before := FenceAll(db, ids[..|ids| - 1], hash, now);
      FenceAllKeepsHosts(db, ids[..|ids| - 1], hash, now, before.value);
      FenceKeepsHosts(before.value, ids[|ids| - 1], hash, now, d);
    }
  }

  lemma RecoverShape(db: Db, c: RegisterCall, from: SessionId, hash: Hash, fenced: Db)
    requires Recover(db, c.worker, from, c.claims.session, c.order, hash, c.now).Ok?
    requires FenceAll(HostOutOfService(db, c.worker), c.order, hash, c.now) == Ok(fenced)
    ensures c.worker in fenced.workers && c.worker in Recover(db, c.worker, from, c.claims.session, c.order, hash, c.now).value.workers
    ensures IsQuiet(Reopened(fenced, c), OpenSession(Recover(db, c.worker, from, c.claims.session, c.order, hash, c.now).value, c))
  {
    hide FenceAll;
    hide OpenSession;
    hide Reopened;
    hide IsQuiet;
    hide StillActive;
    hide Approved;
    hide FencedSessions;
    var out := HostOutOfService(db, c.worker);
    FenceAllIgnoresHosts(db, out.workers, c.order, hash, c.now);
    var f := FenceAll(db, c.order, hash, c.now).value;
    FenceAllKeepsHosts(db, c.order, hash, c.now, f);
    RecoveredSame(db, c, f, fenced, Recover(db, c.worker, from, c.claims.session, c.order, hash, c.now).value);
  }

  lemma RecoveredSame(db: Db, c: RegisterCall, f: Db, fenced: Db, recovered: Db)
    requires c.worker in db.workers && f.workers == db.workers && fenced == f.(workers := HostOutOfService(db, c.worker).workers)
    requires recovered == f.(sessions := FencedSessions(f, c.worker, c.now), takeovers := recovered.takeovers)
    ensures IsQuiet(Reopened(fenced, c), OpenSession(recovered, c))
  {
    var x, y := Reopened(fenced, c), OpenSession(recovered, c);
    assert FencedSessions(f, c.worker, c.now) == FencedSessions(fenced, c.worker, c.now);
    assert x.workers == y.workers && x.sessions == y.sessions;
    assert y == x.(takeovers := y.takeovers);
  }

  lemma {:induction false} Join(db: Db, first: Path, mid: Db, second: Path, d: Db) returns (p: Path)
    requires Leads(db, first, mid) && Leads(mid, second, d)
    ensures Leads(db, p, d)
    decreases second
  {
    if second.Start? {
      p := first;
    } else {
      var before := Join(db, first, mid, second.before, second.mid);
      p := Then(before, second.mid, second.change);
    }
  }

  lemma FirstSession(db: Db, c: RegisterCall)
    requires Owned(db) && db.clock <= c.now <= c.stamp && IsNextGeneration(db, c.worker, c.generation)
    requires c.worker in db.workers && c.worker in db.ceilings && db.workers[c.worker].current.None?
    requires ClaimsWithin(c.claims, db.ceilings[c.worker]) && c.claims.session !in db.sessions
    ensures Makes(db, Reopen(c), OpenSession(db, c))
  {
    forall x | x in db.sessions && db.sessions[x].worker == c.worker ensures db.sessions[x].fenced.Some? { assert SessionOk(db, x); }
    assert FencedSessions(db, c.worker, c.now) == db.sessions;
    assert db.(sessions := FencedSessions(db, c.worker, c.now)) == db;
    forall x | x in db.attempts && db.attempts[x].worker == c.worker ensures !IsActive(db.attempts[x].state) { assert AttemptOk(db, x); }
  }

  /** The registration gets as far as opening a session. */
  predicate Opened(db: Db, c: RegisterCall, hash: Hash)
  {
    && c.worker in db.workers && c.worker in db.ceilings && ClaimsWithin(c.claims, db.ceilings[c.worker])
    && ((c.worker, c.request) in db.registrations ==> db.registrations[(c.worker, c.request)] == c.claims)
    && c.claims.session !in db.sessions
    && match db.workers[c.worker].current
       case None => true
       case Some(from) =>
         var r := Recover(db, c.worker, from, c.claims.session, c.order, hash, c.now);
         r.Ok? && c.worker in r.value.workers
  }

  lemma RegisterRefuses(db: Db, c: RegisterCall, hash: Hash, done: Db)
    requires done == Register(db, c, hash).db
    requires !Opened(db, c, hash)
    ensures done == db || done == Recorded(db, c)
  {
    hide Recover;
    hide OpenSession;
    hide ClaimsWithin;
    hide Recorded;
    RecordedIs(db, c);
  }

  function Recorded(db: Db, c: RegisterCall): Db
  {
    db.(registrations := db.registrations[(c.worker, c.request) := c.claims])
  }

  lemma RecordedIs(db: Db, c: RegisterCall)
    ensures Recorded(db, c) == db.(registrations := db.registrations[(c.worker, c.request) := c.claims])
    ensures db.(registrations := db.registrations) == db
  {
  }

  lemma OpensSession(db: Db, c: RegisterCall, hash: Hash, done: Db)
    requires done == Register(db, c, hash).db && Opened(db, c, hash)
    ensures match db.workers[c.worker].current
            case None => done == OpenSession(db, c)
            case Some(from) => done == OpenSession(Recover(db, c.worker, from, c.claims.session, c.order, hash, c.now).value, c)
  {
    hide Recover;
    hide OpenSession;
    hide ClaimsWithin;
  }

  lemma QuietRegistration(db: Db, c: RegisterCall, d: Db)
    requires d == db || d == Recorded(db, c)
    ensures IsQuiet(db, d) && d.reports == db.reports
  {
  }

  lemma RegisterShape(db: Db, c: RegisterCall, hash: Hash, done: Db)
    requires done == Register(db, c, hash).db && db.clock <= c.now
    ensures (IsQuiet(db, done) && done.reports == db.reports)
      || (&& c.worker in db.workers && c.worker in db.ceilings && ClaimsWithin(c.claims, db.ceilings[c.worker])
          && c.claims.session !in db.sessions
          && match db.workers[c.worker].current
             case None => done == OpenSession(db, c)
             case Some(from) =>
               var r := Recover(db, c.worker, from, c.claims.session, c.order, hash, c.now);
               r.Ok? && c.worker in r.value.workers && done == OpenSession(r.value, c))
  {
    hide Recover;
    hide OpenSession;
    hide ClaimsWithin;
    hide IsQuiet;
    if Opened(db, c, hash) {
      OpensSession(db, c, hash, done);
    } else {
      RegisterRefuses(db, c, hash, done);
      QuietRegistration(db, c, done);
    }
  }

  lemma QuietFrame(db: Db, d: Db)
    requires IsQuiet(db, d)
    ensures d.reservations == db.reservations && d.attempts == db.attempts && d.cursor == db.cursor
  {
  }

  /** Outside sessions and host rows, a registration leaves the tables as recovery left them. */
  lemma RegisterBase(db: Db, c: RegisterCall, hash: Hash, done: Db) returns (base: Db)
    requires done == Register(db, c, hash).db && db.clock <= c.now
    ensures done.reservations == base.reservations && done.attempts == base.attempts && done.cursor == base.cursor
    ensures done.reports == base.reports
    ensures base == db
         || (&& c.worker in db.workers && db.workers[c.worker].current.Some?
             && Recover(db, c.worker, db.workers[c.worker].current.value, c.claims.session, c.order, hash, c.now) == Ok(base))
  {
    hide Register;
    hide Recover;
    hide OpenSession;
    hide ClaimsWithin;
    hide IsQuiet;
    RegisterShape(db, c, hash, done);
    base := db;
    if IsQuiet(db, done) && done.reports == db.reports {
      QuietFrame(db, done);
    } else {
      if db.workers[c.worker].current.Some? {
        base := Recover(db, c.worker, db.workers[c.worker].current.value, c.claims.session, c.order, hash, c.now).value;
      }
      OpenSessionFrame(base, c);
    }
  }

  lemma RegisterPath(db: Db, c: RegisterCall, hash: Hash, done: Db, d: Db) returns (p: Path)
    requires Owned(db) && CompletionsEnded(db) && db.clock <= c.now <= c.stamp
    requires IsRecoveryOrder(db, c.worker, c.order) && IsNextGeneration(db, c.worker, c.generation)
    requires done == Register(db, c, hash).db && d == done.(clock := c.stamp)
    ensures Leads(db, p, d)
  {
    RegisterShape(db, c, hash, done);
    if IsQuiet(db, done) {
      p := QuietPath(db, d);
    } else {
      p := OpensPath(db, c, hash, done, d);
    }
  }

  lemma OpensPath(db: Db, c: RegisterCall, hash: Hash, done: Db, d: Db) returns (p: Path)
    requires Owned(db) && CompletionsEnded(db) && db.clock <= c.now <= c.stamp && d == done.(clock := c.stamp)
    requires IsRecoveryOrder(db, c.worker, c.order) && IsNextGeneration(db, c.worker, c.generation)
    requires c.worker in db.workers && c.worker in db.ceilings && ClaimsWithin(c.claims, db.ceilings[c.worker])
    requires c.claims.session !in db.sessions
    requires match db.workers[c.worker].current
             case None => done == OpenSession(db, c)
             case Some(from) =>
               var r := Recover(db, c.worker, from, c.claims.session, c.order, hash, c.now);
               r.Ok? && c.worker in r.value.workers && done == OpenSession(r.value, c)
    ensures Leads(db, p, d)
  {
    if db.workers[c.worker].current.None? {
      FirstSession(db, c);
      p := OneChange(db, Reopen(c), done, d);
    } else {
      var mid;
      p, mid := RecoverPath(db, c, db.workers[c.worker].current.value, hash);
      p := Append(db, p, mid, Quiet, d);
    }
  }

  lemma DrainPath(db: Db, w: WorkerId, mid: Db, d: Db) returns (p: Path)
    requires mid == Drain(db, w).db && d == mid.(clock := d.clock) && db.clock <= d.clock
    ensures Leads(db, p, d)
  {
    DrainShape(db, w);
    if mid == db { p := QuietPath(db, d); } else { p := OneChange(db, SetHost(w, Drained(db.workers[w])), mid, d); }
  }

  lemma ApprovePath(db: Db, w: WorkerId, from: SessionId, to: SessionId, mid: Db, d: Db) returns (p: Path)
    requires mid == ApproveTakeover(db, w, from, to).db && d == mid.(clock := d.clock) && db.clock <= d.clock
    ensures Leads(db, p, d)
  {
    assert mid == db.(takeovers := mid.takeovers);
    p := QuietPath(db, d);
  }

  lemma UserActionPath(db: Db, act: Action, d: Db) returns (p: Path)
    requires Enabled(db, act) && d == Apply(db, act) && (act.DoWait? || act.DoSubmit? || act.DoCancel? || act.DoDrain? || act.DoApproveTakeover?)
    ensures Leads(db, p, d)
  {
    var mid := Commit(db, act);
    match act {
      case DoWait(t) => p := QuietPath(db, d);
      case DoSubmit(s, children, t) => SubmitShape(db, s, children, t); p := AtMostOne(db, Enqueue(s, children, t), mid, d);
      case DoCancel(project, j, t) => CancelShape(db, project, j); p := AtMostOne(db, Stop(j), mid, d);
      case DoDrain(w, t) => p := DrainPath(db, w, mid, d);
      case DoApproveTakeover(w, from, to, t) => p := ApprovePath(db, w, from, to, mid, d);
    }
  }

  lemma LeaseActionPath(db: Db, act: Action, d: Db) returns (p: Path)
    requires Owned(db) && Enabled(db, act) && d == Apply(db, act) && (act.DoRenew? || act.DoReportPhase? || act.DoHeartbeat?)
    ensures Leads(db, p, d)
  {
    match act {
      case DoRenew(c) => RenewShape(db, c); p := AtMostOne(db, Extend(c), Commit(db, act), d);
      case DoReportPhase(w, r, t) =>
        var x, u := ReportShape(db, w, r, t);
        p := AtMostOne(db, Advance(r, u, t), x, d);
      case DoHeartbeat(w, h, t) => HeartbeatShape(db, w, h, t); p := AtMostOne(db, Beat(w, h, t), Commit(db, act), d);
    }
  }

  lemma OwnerActionPath(db: Db, act: Action, d: Db) returns (p: Path)
    requires Owned(db) && CompletionsEnded(db) && Enabled(db, act) && d == Apply(db, act)
    requires act.DoAcquire? || act.DoComplete? || act.DoRegister? || act.DoReap?
    ensures Leads(db, p, d)
  {
    var mid := Commit(db, act);
    match act {
      case DoAcquire(c) => p := AcquirePath(db, c, mid, d);
      case DoComplete(c, hash) => p := CompletePath(db, c, hash, mid, d);
      case DoRegister(c, hash) => p := RegisterPath(db, c, hash, mid, d);
      case DoReap(id, hash, t) => p := ReapPath(db, id, hash, t, mid, d);
    }
  }

  /** Every transaction is a path of row changes. */
  lemma ActionPath(db: Db, act: Action, d: Db) returns (p: Path)
    requires Owned(db) && CompletionsEnded(db) && Enabled(db, act) && d == Apply(db, act)
    ensures Leads(db, p, d)
  {
    if act.DoWait? || act.DoSubmit? || act.DoCancel? || act.DoDrain? || act.DoApproveTakeover? {
      p := UserActionPath(db, act, d);
    } else if act.DoRenew? || act.DoReportPhase? || act.DoHeartbeat? {
      p := LeaseActionPath(db, act, d);
    } else {
      p := OwnerActionPath(db, act, d);
    }
  }
}
