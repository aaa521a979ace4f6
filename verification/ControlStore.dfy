/** The store's transactions as the program runs them: row by row, with a rollback on error. */
module ControlStore {
  import opened Base
  import opened Totals
  import opened Schema
  import opened Decisions
  import opened Transactions
  import Ownership
  import Effects

  // ------------------------------------------------------ lemmas about single iterations

  /** The three rows fencing writes are the ending it applies. */
  lemma FencedRows(rows: Db, id: AttemptId, e: Ending, d: Db)
    requires id in rows.attempts && id in rows.reservations && rows.attempts[id].job in rows.jobs
    requires e.reason.Some? && e.hold.Quarantined? && e.exit == rows.attempts[id].exit && e.accepted == rows.jobs[rows.attempts[id].job].accepted
    requires var a, j := rows.attempts[id], rows.jobs[rows.attempts[id].job];
             d == rows.(attempts := rows.attempts[id := a.(state := e.state, reason := e.reason, cleanupPending := true)],
                        reservations := rows.reservations[id := rows.reservations[id].(state := HoldState.Quarantined)],
                        jobs := rows.jobs[a.job := j.(state := e.next, current := None, nextEligible := e.eligible)])
    ensures d == EndAttempt(rows, id, e)
  {
  }

  lemma FenceLostIs(rows: Db, id: AttemptId, hash: Hash, now: Time)
    ensures !Fenceable(rows, id) ==> FenceLost(rows, id, hash, now) == Err(ErrInternal)
    ensures Fenceable(rows, id) ==>
              var e := FenceEnding(rows.jobs[rows.attempts[id].job], rows.attempts[id], hash(id), now);
              FenceLost(rows, id, hash, now)
              == Ok(if e.next.Failed? then FailFast(EndAttempt(rows, id, e), rows.attempts[id].job) else EndAttempt(rows, id, e))
  {
    hide FenceEnding;
    hide FailFast;
    hide EndAttempt;
    hide ValidSpec;
  }

  lemma NoneRenewed(rows: Db, members: seq<Authority>, now: Time)
    ensures RenewedAttempts(rows, members[..0], now) == rows.attempts && GrantMap(rows, members[..0], now) == map[]
  {
    hide LeaseDecision;
    hide FreshGrant;
  }

  lemma AllGranted(rows: Db, members: seq<Authority>, now: Time, grants: seq<LeaseGrant>)
    requires |grants| == |members| && forall k :: 0 <= k < |grants| ==> grants[k] == FreshGrant(rows, members[k], now)
    ensures grants == FreshGrants(rows, members, now)
  {
    hide FreshGrant;
  }

  lemma RenewOne(rows: Db, members: seq<Authority>, i: nat, now: Time)
    requires i < |members| && forall a, b :: 0 <= a < b < |members| ==> members[a].attempt != members[b].attempt
    ensures RenewedAttempts(rows, members[..i + 1], now)
         == if LeaseDecision(rows, members[i], now).Accepted?
            then RenewedAttempts(rows, members[..i], now)[
                   members[i].attempt := rows.attempts[members[i].attempt].(lease := now + INITIAL_LEASE)]
            else RenewedAttempts(rows, members[..i], now)
  {
    var m := members[i];
    assert members[..i + 1] == members[..i] + [m];
    forall id | id in rows.attempts && id != m.attempt ensures Renews(rows, members[..i + 1], id, now) == Renews(rows, members[..i], id, now) {
    }
  }

  lemma GrantOne(rows: Db, members: seq<Authority>, i: nat, now: Time)
    requires i < |members| && forall a, b :: 0 <= a < b < |members| ==> members[a].attempt != members[b].attempt
    ensures GrantMap(rows, members[..i + 1], now) == GrantMap(rows, members[..i], now)[members[i].attempt := FreshGrant(rows, members[i], now)]
  {
    hide FreshGrant;
    hide GrantMap;
    var m := members[i];
    var front, more := members[..i], members[..i + 1];
    assert more == front + [m];
    GrantsOf(rows, front, now);
    GrantsOf(rows, more, now);
    var before, after := GrantMap(rows, front, now), GrantMap(rows, more, now);
    forall id | id in before && id != m.attempt ensures id in after && after[id] == before[id] {
      var a :| a in front && a.attempt == id;
      assert a in more;
    }
    forall id | id in after && id != m.attempt ensures id in before {
      var a :| a in more && a.attempt == id;
      assert a in front;
    }
    assert m in more;
    OneEntryMore(before, after, m.attempt, FreshGrant(rows, m, now));
  }

  lemma OneEntryMore<K, V>(before: map<K, V>, after: map<K, V>, k: K, v: V)
    requires k in after && after[k] == v
    requires forall x :: x in before && x != k ==> x in after && after[x] == before[x]
    requires forall x :: x in after && x != k ==> x in before
    ensures after == before[k := v]
  {
  }

  lemma GrantsOf(rows: Db, members: seq<Authority>, now: Time)
    requires forall a, b :: 0 <= a < b < |members| ==> members[a].attempt != members[b].attempt
    ensures GrantMap(rows, members, now).Keys == set a | a in members :: a.attempt
    ensures forall a :: a in members ==> a.attempt in GrantMap(rows, members, now) && GrantMap(rows, members, now)[a.attempt] == FreshGrant(rows, a, now)
  {
  }

  /** What one inspection of the reaper's query finds, and when. */
  datatype Find = Find(candidate: Option<AttemptId>, at: Time)

  /** The tables and the number of attempts fenced after inspecting these candidates. */
  function Reaped(db: Db, finds: seq<Find>, hash: Hash): (Db, nat)
  {
    if finds == [] then (db, 0)
    else
      var n := |finds| - 1;
      var before := Reaped(db, finds[..n], hash);
      if finds[n].candidate.None? then before
      else
        var step := Reap(before.0, finds[n].candidate.value, hash, finds[n].at);
        (step.db, before.1 + if step.reply == Ok(true) then 1 else 0)
  }

  function HostAttempts(db: Db, w: WorkerId): set<AttemptId>
  {
    set id | id in db.attempts && db.attempts[id].worker == w
  }

  /** What part of the inventory must stop. */
  function InventoryStops(db: Db, w: WorkerId, h: HeartbeatReport, now: Time, part: set<Execution>): set<Authority>
  {
    set e | e in part && MustStop(db, w, h, e.authority, now) :: e.authority
  }

  lemma InventoryOne(db: Db, w: WorkerId, h: HeartbeatReport, now: Time, part: set<Execution>, e: Execution)
    ensures InventoryStops(db, w, h, now, part + {e})
         == InventoryStops(db, w, h, now, part) + if MustStop(db, w, h, e.authority, now) then {e.authority} else {}
    ensures (set x | x in part + {e} :: x.authority.attempt) == (set x | x in part :: x.authority.attempt) + {e.authority.attempt}
  {
    hide MustStop;
  }

  /** Which of these attempts are active without authority. */
  function AttemptStops(db: Db, w: WorkerId, h: HeartbeatReport, now: Time, part: set<AttemptId>): set<Authority>
  {
    set id | id in part && id in db.attempts && IsActive(db.attempts[id].state) && !AttemptAuthorized(db, id, h.session, now)
      :: AuthorityOf(id, db.attempts[id])
  }

  lemma AttemptOne(db: Db, w: WorkerId, h: HeartbeatReport, now: Time, part: set<AttemptId>, id: AttemptId)
    requires id in db.attempts
    ensures AttemptStops(db, w, h, now, part + {id})
         == AttemptStops(db, w, h, now, part)
            + if IsActive(db.attempts[id].state) && !AttemptAuthorized(db, id, h.session, now) then {AuthorityOf(id, db.attempts[id])} else {}
  {
    hide AttemptAuthorized;
  }

  /** Some attempt in `part` should be running but is not in the inventory. */
  predicate AnyMissing(db: Db, part: set<AttemptId>, present: set<AttemptId>)
  {
    exists id :: id in part && id in db.attempts && db.attempts[id].state.Running? && id !in present
  }

  lemma MissingOne(db: Db, part: set<AttemptId>, present: set<AttemptId>, id: AttemptId)
    requires id in db.attempts
    ensures AnyMissing(db, part + {id}, present) <==> AnyMissing(db, part, present) || (db.attempts[id].state.Running? && id !in present)
  {
    if AnyMissing(db, part, present) {
      var x :| x in part && x in db.attempts && db.attempts[x].state.Running? && x !in present;
      assert x in part + {id};
    }
    if db.attempts[id].state.Running? && id !in present { assert id in part + {id}; }
  }

  /** Some quarantined attempt in `part` cannot be released. */
  predicate AnyUncertain(db: Db, w: WorkerId, h: HeartbeatReport, now: Time, part: set<AttemptId>, release: bool)
  {
    exists id :: id in part && IsQuarantined(db, id) && !(release && Releases(db, w, h, now, id))
  }

  lemma UncertainOne(db: Db, w: WorkerId, h: HeartbeatReport, now: Time, part: set<AttemptId>, release: bool, id: AttemptId)
    ensures AnyUncertain(db, w, h, now, part + {id}, release)
       <==> AnyUncertain(db, w, h, now, part, release) || (IsQuarantined(db, id) && !(release && Releases(db, w, h, now, id)))
  {
    hide Releases;
    if AnyUncertain(db, w, h, now, part, release) {
      var x :| x in part && IsQuarantined(db, x) && !(release && Releases(db, w, h, now, x));
      assert x in part + {id};
    }
    if IsQuarantined(db, id) && !(release && Releases(db, w, h, now, id)) { assert id in part + {id}; }
  }

  predicate ReleasedIn(db: Db, w: WorkerId, h: HeartbeatReport, now: Time, part: set<AttemptId>, release: bool, id: AttemptId)
  {
    release && id in part && Releases(db, w, h, now, id)
  }

  /** The reservation and attempt rows once the release pass has seen `part`. */
  function ReleasedRows(db: Db, w: WorkerId, h: HeartbeatReport, now: Time, part: set<AttemptId>, release: bool): Db
  {
    db.(reservations := map id | id in db.reservations ::
                          if ReleasedIn(db, w, h, now, part, release, id) then db.reservations[id].(state := Released) else db.reservations[id],
        attempts := map id | id in db.attempts ::
                      if ReleasedIn(db, w, h, now, part, release, id) then db.attempts[id].(cleanupPending := false) else db.attempts[id])
  }

  lemma ReleaseNone(db: Db, w: WorkerId, h: HeartbeatReport, now: Time, release: bool)
    ensures ReleasedRows(db, w, h, now, {}, release) == db
  {
    hide Releases;
    var d := ReleasedRows(db, w, h, now, {}, release);
    assert d.reservations == db.reservations && d.attempts == db.attempts;
  }

  lemma ReleaseOne(db: Db, w: WorkerId, h: HeartbeatReport, now: Time, part: set<AttemptId>, id: AttemptId, release: bool)
    requires id in db.attempts && id !in part
    ensures var before, after := ReleasedRows(db, w, h, now, part, release), ReleasedRows(db, w, h, now, part + {id}, release);
            if release && Releases(db, w, h, now, id)
            then after == before.(reservations := before.reservations[id := db.reservations[id].(state := Released)],
                                  attempts := before.attempts[id := db.attempts[id].(cleanupPending := false)])
            else after == before
  {
    var before, after := ReleasedRows(db, w, h, now, part, release), ReleasedRows(db, w, h, now, part + {id}, release);
    if release && Releases(db, w, h, now, id) {
      assert after.reservations == before.reservations[id := db.reservations[id].(state := Released)];
      assert after.attempts == before.attempts[id := db.attempts[id].(cleanupPending := false)];
    } else {
      assert after.reservations == before.reservations && after.attempts == before.attempts;
    }
  }

  /** The two passes find exactly the stop set, and what keeps the host unreconciled. */
  lemma StopsAre(db: Db, w: WorkerId, h: HeartbeatReport, now: Time)
    ensures StopSet(db, w, h, now) == InventoryStops(db, w, h, now, h.inventory) + AttemptStops(db, w, h, now, HostAttempts(db, w))
    ensures Unreconciled(db, w, h, now) <==>
              !h.reconciled || StopSet(db, w, h, now) != {} || AnyMissing(db, HostAttempts(db, w), Present(h))
  {
    hide MustStop;
    hide AttemptAuthorized;
    hide Present;
    if AnyMissing(db, HostAttempts(db, w), Present(h)) {
      var id :| id in HostAttempts(db, w) && id in db.attempts && db.attempts[id].state.Running? && id !in Present(h);
    }
  }

  /** The release pass frees exactly what may be released, and reports the rest. */
  lemma ReleaseIs(db: Db, w: WorkerId, h: HeartbeatReport, now: Time, replay: bool)
    ensures var release := !replay && h.healthy && !Unreconciled(db, w, h, now);
            && (StillUncertain(db, w, h, now, replay) <==> Unreconciled(db, w, h, now) || AnyUncertain(db, w, h, now, HostAttempts(db, w), release))
            && (replay ==> ReleasedRows(db, w, h, now, HostAttempts(db, w), release) == db)
            && (!replay && CurrentSession(db, w, h.session) ==>
                  var d, b := ReleasedRows(db, w, h, now, HostAttempts(db, w), release), Beaten(db, w, h, now);
                  d == db.(reservations := b.reservations, attempts := b.attempts))
  {
    hide Unreconciled;
    var all := HostAttempts(db, w);
    var release := !replay && h.healthy && !Unreconciled(db, w, h, now);
    var d := ReleasedRows(db, w, h, now, all, release);
    if replay { assert d.reservations == db.reservations && d.attempts == db.attempts; }
    if !replay && CurrentSession(db, w, h.session) {
      var b := Beaten(db, w, h, now);
      assert d.reservations == b.reservations;
      assert d.attempts == b.attempts;
    }
    if AnyUncertain(db, w, h, now, all, release) {
      var id :| id in all && IsQuarantined(db, id) && !(release && Releases(db, w, h, now, id));
    }
  }

  lemma Moved(all: set<AttemptId>, rest: set<AttemptId>, id: AttemptId)
    requires rest <= all && id in rest
    ensures all - (rest - {id}) == (all - rest) + {id} && rest - {id} <= all
  {
  }

  lemma Joined(a: set<Authority>, b: set<Authority>, c: set<Authority>)
    ensures a + b + c == a + (b + c) && b + {} == b
  {
  }

  lemma NoneYet(db: Db, w: WorkerId, h: HeartbeatReport, now: Time, present: set<AttemptId>)
    ensures AttemptStops(db, w, h, now, {}) == {} && !AnyMissing(db, {}, present)
  {
  }

  lemma NoneUncertain(db: Db, w: WorkerId, h: HeartbeatReport, now: Time, release: bool)
    ensures !AnyUncertain(db, w, h, now, {}, release)
  {
  }

  lemma NothingTotal()
    ensures Total(map[]) == NOTHING
  {
  }

  lemma AssignableExists(db: Db, c: AcquireCall)
    requires c.worker in db.workers && AcquireReason(db, c).None?
    ensures c.choice.Some? && c.choice.value in db.jobs
  {
  }

  class Store {
    var db: Db

    constructor (db: Db)
      ensures this.db == db
    {
      this.db := db;
    }

    /** RenewLeases: one pass over the members, on the rows locked before the pass. */
    method RenewLeases(c: RenewCall) returns (r: Result<seq<LeaseGrant>>)
      modifies this
      ensures Step(db, r) == Renew(old(db), c)
    {
      if !RenewalWellFormed(c) {
        return Err(ErrInvalid);
      }
      if !CurrentSession(db, c.worker, c.session) {
        return Err(ErrFenced);
      }
      var key := RequestKey(c.worker, c.session, c.request);
      if key in db.renewals {
        var saved := db.renewals[key];
        if saved.members != MemberSet(c.members) {
          return Err(ErrConflict);
        }
        if !ReplayDecodes(saved, c.members) {
          return Err(ErrInvalid);
        }
        r := Regrant(c, saved);
      } else {
        r := Grant(c);
      }
    }

    /** A replay grants no new time: each member keeps the stricter of its old and its current bounds. */
    method Regrant(c: RenewCall, saved: RenewalRecord) returns (r: Result<seq<LeaseGrant>>)
      requires ReplayDecodes(saved, c.members)
      ensures r == Ok(ReplayedGrants(db, c.members, saved, c.now))
    {
      var grants: seq<LeaseGrant> := [];
      for i := 0 to |c.members|
        invariant |grants| == i
        invariant forall k :: 0 <= k < i ==> grants[k] == ReplayGrant(db, c.members[k], saved.grants[c.members[k].attempt], c.now)
      {
        var a := c.members[i];
        var prior := saved.grants[a.attempt];
        var decision := LeaseDecision(db, a, c.now);
        var g := Refusal(a, decision, c.now);
        if !prior.decision.Accepted? {
          g := Refusal(a, prior.decision, c.now);
        } else if decision.Accepted? {
          var attempt := db.attempts[a.attempt];
          var lease, phase := prior.lease.value, prior.phase.value;
          if attempt.lease < lease {
            lease := attempt.lease;
          }
          if attempt.phase < phase {
            phase := attempt.phase;
          }
          if lease <= c.now {
            g := Refusal(a, Fenced, c.now);
          } else if phase <= c.now {
            g := Refusal(a, StopRequested, c.now);
          } else {
            g := LeaseGrant(a, Accepted, Some(lease), Some(phase), c.now);
          }
        }
        grants := grants + [g];
      }
      assert grants == ReplayedGrants(db, c.members, saved, c.now);
      return Ok(grants);
    }

    method Grant(c: RenewCall) returns (r: Result<seq<LeaseGrant>>)
      requires RenewalWellFormed(c)
      modifies this
      ensures db == Renewed(old(db), c) && r == Ok(FreshGrants(old(db), c.members, c.now))
    {
      hide LeaseDecision;
      hide RenewedAttempts;
      hide GrantMap;
      hide FreshGrants;
      var rows := db;
      var grants: seq<LeaseGrant>, stored: map<AttemptId, LeaseGrant> := [], map[];
      NoneRenewed(rows, c.members, c.now);
      for i := 0 to |c.members|
        invariant db == rows.(attempts := RenewedAttempts(rows, c.members[..i], c.now))
        invariant |grants| == i && (forall k :: 0 <= k < i ==> grants[k] == FreshGrant(rows, c.members[k], c.now))
        invariant stored == GrantMap(rows, c.members[..i], c.now)
      {
        var a := c.members[i];
        RenewOne(rows, c.members, i, c.now);
        GrantOne(rows, c.members, i, c.now);
        var decision := LeaseDecision(rows, a, c.now);
        var g := Refusal(a, decision, c.now);
        if decision.Accepted? {
          AcceptedExists(rows, a, c.now);
          g := LeaseGrant(a, Accepted, Some(c.now + INITIAL_LEASE), Some(rows.attempts[a.attempt].phase), c.now);
          db := db.(attempts := db.attempts[a.attempt := rows.attempts[a.attempt].(lease := c.now + INITIAL_LEASE)]);
        }
        grants := grants + [g];
        stored := stored[a.attempt := g];
      }
      assert c.members[..|c.members|] == c.members;
      var key := RequestKey(c.worker, c.session, c.request);
      db := db.(clock := c.now, renewals := db.renewals[key := RenewalRecord(MemberSet(c.members), stored)]);
      AllGranted(rows, c.members, c.now, grants);
      return Ok(grants);
    }

    // ------------------------------------------------------------------ endings

    /** RequestCancellation: the job is out of the queue or winding down, and no other row changes. */
    method RequestCancellation(project: ProjectId, id: JobId) returns (r: Result<JobState>)
      modifies this
      ensures Step(db, r) == Cancel(old(db), project, id)
      ensures r.Ok? <==> id in old(db).jobs && old(db).jobs[id].project == project
      ensures db == old(db).(jobs := db.jobs) && db.jobs.Keys == old(db).jobs.Keys
      ensures forall j :: j in db.jobs && (j != id || r.Err?) ==> db.jobs[j] == old(db).jobs[j]
      ensures r.Ok? ==> db.jobs[id].state == r.value && (r.value.Cancelling? || IsTerminal(r.value))
    {
      hide Cancel;
      Effects.CancellationMeans(db, project, id);
      r := WriteCancellation(project, id);
    }

    method WriteCancellation(project: ProjectId, id: JobId) returns (r: Result<JobState>)
      modifies this
      ensures Step(db, r) == Cancel(old(db), project, id)
    {
      if id !in db.jobs || db.jobs[id].project != project {
        return Err(ErrNotFound);
      }
      var job := db.jobs[id];
      var next := job.state;
      match job.state {
        case Active => next := Cancelling;
        case Queued => next := JobState.Cancelled;
        case RetryWait => next := JobState.Cancelled;
        case _ =>
      }
      if next != job.state {
        db := db.(jobs := db.jobs[id := job.(state := next, cancelRequested := true)]);
      }
      return Ok(next);
    }

    /** applySweepFailFast: one bulk update. */
    method ApplySweepFailFast(failed: JobId)
      modifies this
      ensures db == FailFast(old(db), failed)
    {
      hide StoppedBySibling;
      if failed !in db.jobs || !db.jobs[failed].state.Failed? || db.jobs[failed].sweep.None? {
        return;
      }
      var sweep := db.jobs[failed].sweep.value;
      if sweep !in db.sweeps || !db.sweeps[sweep].failFast {
        return;
      }
      var running := db.sweeps[sweep].cancelRunning;
      db := db.(jobs := map j | j in db.jobs ::
                          if j != failed && db.jobs[j].sweep == Some(sweep) then StoppedBySibling(db.jobs[j], running) else db.jobs[j]);
    }

    /** fenceLostAttempt; on an error the caller's transaction rolls back. */
    method FenceLostAttempt(id: AttemptId, hash: Hash, now: Time) returns (r: Option<Error>)
      modifies this
      ensures var o := FenceLost(old(db), id, hash, now);
              if o.Ok? then r.None? && db == o.value else r == Some(o.error) && db == old(db)
    {
      hide FenceEnding;
      hide FailFast;
      hide ValidSpec;
      hide EndAttempt;
      hide Settle;
      hide FenceLost;
      FenceLostIs(db, id, hash, now);
      if !(id in db.attempts && db.attempts[id].job in db.jobs && db.jobs[db.attempts[id].job].current == Some(id)
           && ValidSpec(db.jobs[db.attempts[id].job].spec)) {
        return Some(ErrInternal);
      }
      var a, rows := db.attempts[id], db;
      var job := db.jobs[a.job];
      var next, state, reason, eligible := LossOutcome(job, a, hash(id), now);
      if !(id in db.reservations && db.reservations[id].state.Held?) {
        return Some(ErrInternal);
      }
      ghost var e := FenceEnding(job, a, hash(id), now);
      db := db.(attempts := db.attempts[id := a.(state := state, reason := Some(reason), cleanupPending := true)]);
      db := db.(reservations := db.reservations[id := db.reservations[id].(state := HoldState.Quarantined)]);
      db := db.(jobs := db.jobs[a.job := job.(state := next, current := None, nextEligible := eligible)]);
      FencedRows(rows, id, e, db);
      if next.Failed? {
        ApplySweepFailFast(a.job);
      }
      return None;
    }

    /** How a lost attempt ends: cancelled, timed out, to be retried, or lost for good. */
    method LossOutcome(job: Job, a: Attempt, hash: nat, now: Time) returns (next: JobState, state: AttemptState, reason: Reason, eligible: Time)
      requires ValidSpec(job.spec)
      ensures FenceEnding(job, a, hash, now) == Ending(state, Some(reason), a.exit, HoldState.Quarantined, next, job.accepted, eligible)
    {
      next, state, reason, eligible := JobState.Failed, Lost, WorkerLost, now;
      var timeout := ExpiredPhaseReason(a.state, a.lease, a.phase, now);
      if job.cancelRequested {
        next, state, reason := JobState.Cancelled, AttemptState.Cancelled, UserCancelled;
      } else if timeout.Some? {
        state, reason := AttemptState.Failed, timeout.value;
      } else if job.counter < job.spec.retry.maxAttempts && WorkerLost in job.spec.retry.on {
        next := RetryWait;
        eligible := now + RetryDelay(job.spec.retry, job.counter, hash);
      }
    }

    /** The fencing loop of recoverSession, in lock order; the first error rolls everything back. */
    method FenceAttempts(order: seq<AttemptId>, hash: Hash, now: Time) returns (r: Option<Error>)
      modifies this
      ensures var o := FenceAll(old(db), order, hash, now);
              if o.Ok? then r.None? && db == o.value else r == Some(o.error) && db == old(db)
    {
      hide FenceLost;
      var rows := db;
      for i := 0 to |order|
        invariant FenceAll(rows, order[..i], hash, now) == Ok(db)
      {
        FenceNext(rows, order, i, hash, now);
        var failed := FenceLostAttempt(order[i], hash, now);
        if failed.Some? {
          FenceFails(rows, order, i + 1, hash, now);
          db := rows;
          return failed;
        }
      }
      assert order[..|order|] == order;
      return None;
    }

    /** recoverSession. */
    method RecoverSession(w: WorkerId, from: SessionId, to: SessionId, order: seq<AttemptId>, hash: Hash, now: Time) returns (r: Option<Error>)
      modifies this
      ensures var o := Recover(old(db), w, from, to, order, hash, now);
              if o.Ok? then r.None? && db == o.value else r == Some(o.error) && db == old(db)
    {
      hide FenceAll;
      if w !in db.workers || db.workers[w].current != Some(from) || from !in db.sessions || db.sessions[from].worker != w {
        return Some(ErrInternal);
      }
      var approved := Approved(db, w, from, to);
      if !approved && db.sessions[from].fenced.None? {
        var seen := if db.workers[w].lastHeartbeat.Some? then db.workers[w].lastHeartbeat.value else db.sessions[from].created;
        if now - seen < SESSION_INACTIVITY {
          return Some(ErrSessionActive);
        }
        for i := 0 to |order|
          invariant forall k :: 0 <= k < i ==> !(order[k] in db.attempts && db.attempts[order[k]].lease > now)
        {
          if order[i] in db.attempts && db.attempts[order[i]].lease > now {
            assert StillActive(db, w, from, order, now);
            return Some(ErrSessionActive);
          }
        }
      }
      r := FenceAttempts(order, hash, now);
      if r.Some? {
        return;
      }
      db := db.(sessions := FencedSessions(db, w, now));
      if approved {
        db := db.(takeovers := db.takeovers[(w, from) := Takeover(to, true)]);
      }
    }

    // ----------------------------------------------------------- sessions and the reaper

    /** RegisterSession: reuse, first session, or recovery of the previous one. */
    method RegisterSession(c: RegisterCall, hash: Hash) returns (r: Result<int>)
      modifies this
      ensures Step(db, r) == Register(old(db), c, hash)
    {
      hide Recover;
      hide ClaimsWithin;
      hide OpenSession;
      var w, s := c.worker, c.claims.session;
      if w !in db.workers || w !in db.ceilings {
        return Err(ErrInternal);
      }
      if !ClaimsWithin(c.claims, db.ceilings[w]) {
        return Err(ErrInvalid);
      }
      if (w, c.request) in db.registrations && db.registrations[(w, c.request)] != c.claims {
        return Err(ErrConflict);
      }
      if s in db.sessions && db.sessions[s].worker == w {
        if db.sessions[s].fenced.Some? || db.workers[w].current != Some(s) {
          return Err(ErrFenced);
        }
        if db.sessions[s].registration != c.claims {
          return Err(ErrConflict);
        }
        r := Ok(db.sessions[s].generation);
        if (w, c.request) !in db.registrations {
          db := db.(registrations := db.registrations[(w, c.request) := c.claims]);
        }
        return;
      }
      var rows := db;
      if db.workers[w].current.Some? {
        var failed := RecoverSession(w, db.workers[w].current.value, s, c.order, hash, c.now);
        if failed.Some? {
          return Err(failed.value);
        }
      }
      if s in rows.sessions || w !in db.workers {
        db := rows;
        return Err(ErrConflict);
      }
      InsertSession(c);
      return Ok(c.generation);
    }

    /** The rows of a new session, and the worker row that now points to it. */
    method InsertSession(c: RegisterCall)
      requires c.worker in db.workers
      modifies this
      ensures db == OpenSession(old(db), c)
    {
      var w, s := c.worker, c.claims.session;
      db := db.(sessions := db.sessions[s := Session(w, c.generation, c.stamp, None, c.claims, 0, None)]);
      var row := db.workers[w];
      db := db.(workers := db.workers[w := row.(current := Some(s), state := Registering, reconciled := false, healthy := false,
                                                diskPressure := false, lastHeartbeat := Some(c.stamp),
                                                claim := c.claims.claim, softScratch := c.claims.softScratch)]);
      if (w, c.request) !in db.registrations {
        db := db.(registrations := db.registrations[(w, c.request) := c.claims]);
      }
    }

    /** reapOneExpiredAttempt, once its query has found a candidate. */
    method ReapOne(id: AttemptId, hash: Hash, now: Time) returns (r: Result<bool>)
      modifies this
      ensures Step(db, r) == Reap(old(db), id, hash, now)
    {
      hide FenceLost;
      if !Expired(db, id, now) {
        return Ok(false);
      }
      var w := db.attempts[id].worker;
      var failed := FenceLostAttempt(id, hash, now);
      if failed.Some? {
        return Err(failed.value);
      }
      if w in db.workers {
        db := db.(workers := db.workers[w := db.workers[w].(state := Registering, reconciled := false)]);
      }
      return Ok(true);
    }

    /** ReapExpiredAttempts: a bounded number of inspections, each its own transaction. */
    method ReapExpiredAttempts(limit: int, finds: seq<Find>, hash: Hash) returns (r: Result<nat>, inspected: nat)
      requires limit <= |finds|
      modifies this
      ensures !(1 <= limit <= 64) ==> r == Err(ErrInvalid) && db == old(db)
      ensures 1 <= limit <= 64 ==>
                && inspected <= limit && (forall i :: 0 <= i < inspected ==> finds[i].candidate.Some?)
                && db == Reaped(old(db), finds[..inspected], hash).0
                && (r.Ok? ==> r.value == Reaped(old(db), finds[..inspected], hash).1 <= inspected
                              && (inspected == limit || finds[inspected].candidate.None?))
    {
      hide Reap;
      if limit < 1 || limit > 64 {
        return Err(ErrInvalid), 0;
      }
      var processed := 0;
      inspected := 0;
      while inspected < limit && processed < limit
        invariant 0 <= inspected <= limit && processed <= inspected && (forall i :: 0 <= i < inspected ==> finds[i].candidate.Some?)
        invariant (db, processed) == Reaped(old(db), finds[..inspected], hash)
      {
        if finds[inspected].candidate.None? {
          break;
        }
        assert finds[..inspected + 1][..inspected] == finds[..inspected];
        var reaped := ReapOne(finds[inspected].candidate.value, hash, finds[inspected].at);
        if reaped.Err? {
          inspected := inspected + 1;
          return Err(reaped.error), inspected;
        }
        if reaped.value {
          processed := processed + 1;
        }
        inspected := inspected + 1;
      }
      return Ok(processed), inspected;
    }

    // ---------------------------------------------------------------- phases, completion

    /** ReportPhase: an accepted report is on file and a new one moves its attempt; any other changes nothing. */
    method ReportPhaseTo(w: WorkerId, r: PhaseReport, now: Time) returns (o: Result<MutationReply>)
      modifies this
      ensures Step(db, o) == ReportPhase(old(db), w, r, now)
      ensures !(o.Ok? && o.value.decision.Accepted?) ==> db == old(db)
      ensures o.Ok? && o.value.decision.Accepted? ==>
                var key, x := RequestKey(w, r.authority.session, r.event), r.authority.attempt;
                && key in db.reports && db.reports[key] == r && x in db.attempts && IsActive(db.attempts[x].state)
                && o.value.state == Some(db.attempts[x].state)
                && (if key in old(db).reports then db == old(db) else db.attempts[x].state == r.phase)
      ensures forall y :: y in old(db).attempts && y != r.authority.attempt ==> y in db.attempts && db.attempts[y] == old(db).attempts[y]
    {
      hide ReportPhase;
      Effects.PhaseReportMeans(db, w, r, now);
      o := WriteReport(w, r, now);
    }

    /** The checks in order, then the row and the record. */
    method WriteReport(w: WorkerId, r: PhaseReport, now: Time) returns (o: Result<MutationReply>)
      modifies this
      ensures Step(db, o) == ReportPhase(old(db), w, r, now)
    {
      hide NextPhaseDeadline;
      hide PhaseReportWellFormed;
      var auth := r.authority;
      if !PhaseReportWellFormed(r) || auth.worker != w {
        return Err(ErrInvalid);
      }
      if !CurrentSession(db, w, auth.session) {
        return Err(ErrFenced);
      }
      if auth.attempt !in db.attempts || AuthorityOf(auth.attempt, db.attempts[auth.attempt]) != auth {
        return Ok(MutationReply(Fenced, None));
      }
      var key := RequestKey(w, auth.session, r.event);
      var replay := key in db.reports;
      if replay && db.reports[key] != r {
        return Err(ErrConflict);
      }
      var attempt := db.attempts[auth.attempt];
      var decision := LeaseDecision(db, auth, now);
      if !decision.Accepted? {
        return Ok(MutationReply(decision, Some(attempt.state)));
      }
      if replay {
        return Ok(MutationReply(Accepted, Some(attempt.state)));
      }
      var deadline := NextPhaseDeadline(r, attempt, db.jobs[auth.job].spec, now);
      if deadline.Err? {
        return Err(deadline.error);
      }
      if attempt.state != r.phase {
        db := db.(clock := now, attempts := db.attempts[auth.attempt := SetPhase(attempt, r, deadline.value)]);
      }
      db := db.(reports := db.reports[key := r]);
      return Ok(MutationReply(Accepted, Some(r.phase)));
    }

    /** CompleteAttempt: the attempt, its reservation, its job and its sweep change together. */
    method CompleteAttempt(c: CompleteCall, hash: Hash) returns (o: Result<MutationReply>)
      modifies this
      ensures Step(db, o) == Complete(old(db), c, hash)
      ensures Ownership.Owned(old(db)) && Ownership.CompletionsEnded(old(db)) ==>
                var x := c.request.authority.attempt;
                && (!(o.Ok? && o.value.decision.Accepted?) || x in old(db).completions ==> db == old(db))
                && (o.Ok? && o.value.decision.Accepted? ==>
                      && x in db.completions && db.completions[x].request == c.request
                      && x in db.attempts && !IsActive(db.attempts[x].state) && o.value.state == Some(db.attempts[x].state))
    {
      if Ownership.Owned(db) && Ownership.CompletionsEnded(db) { Effects.CompletionMeans(db, c, hash); }
      hide Ownership.Owned;
      hide Ownership.CompletionsEnded;
      hide CompletionWellFormed;
      hide CompletionPhaseOk;
      hide CompletionDecision;
      hide CompletionClaimed;
      hide CompletionEnding;
      hide Settle;
      hide ValidSpec;
      var r := c.request;
      var id := r.authority.attempt;
      if r.authority.worker != c.worker || !CompletionWellFormed(r) {
        return Err(ErrInvalid);
      }
      if id !in db.attempts || AuthorityOf(id, db.attempts[id]) != r.authority {
        return Ok(MutationReply(Fenced, None));
      }
      if id in db.completions {
        if db.completions[id].request != r {
          return Err(ErrConflict);
        }
        return Ok(MutationReply(Accepted, Some(db.completions[id].state)));
      }
      if CompletionClaimed(db, r) {
        return Err(ErrConflict);
      }
      var a := db.attempts[id];
      if !IsActive(a.state) {
        return Ok(MutationReply(AlreadyTerminal, Some(a.state)));
      }
      if r.authority.job !in db.jobs || !ValidSpec(db.jobs[r.authority.job].spec) {
        return Err(ErrInvalid);
      }
      if !CurrentSession(db, c.worker, r.authority.session) {
        return Err(ErrFenced);
      }
      var job := db.jobs[r.authority.job];
      var decision := CompletionDecision(db, r, c.now);
      if !decision.Accepted? {
        return Ok(MutationReply(decision, Some(a.state)));
      }
      if !CompletionPhaseOk(r, a, job.cancelRequested) {
        return Err(ErrConflict);
      }
      if !c.evidenceOk {
        return Err(ErrInvalid);
      }
      decision := CompletionDecision(db, r, c.published);
      if !decision.Accepted? {
        return Ok(MutationReply(decision, Some(a.state)));
      }
      if id !in db.reservations || !db.reservations[id].state.Held? {
        return Err(ErrConflict);
      }
      var e := CompletionEnding(job, r, hash(id), c.published, c.now);
      var log := db.completions;
      PublishEnding(id, e);
      db := db.(completions := log[id := CompletionRecord(r, e.state)]);
      return Ok(MutationReply(Accepted, Some(e.state)));
    }

    /** The row updates of an ending, and the sweep's reaction to a failure. */
    method PublishEnding(id: AttemptId, e: Ending)
      requires id in db.attempts && id in db.reservations && db.attempts[id].job in db.jobs
      modifies this
      ensures db == Settle(old(db), id, e)
    {
      hide FailFast;
      var a := db.attempts[id];
      var job := db.jobs[a.job];
      ghost var rows := db;
      db := db.(attempts := db.attempts[id := a.(state := e.state, reason := e.reason, exit := e.exit, cleanupPending := e.hold.Quarantined?)]);
      db := db.(reservations := db.reservations[id := db.reservations[id].(state := e.hold)]);
      db := db.(jobs := db.jobs[a.job := job.(state := e.next, current := None, accepted := e.accepted, nextEligible := e.eligible)]);
      assert db == EndAttempt(rows, id, e);
      if e.next.Failed? {
        ApplySweepFailFast(a.job);
      }
    }

    // -------------------------------------------------------------------- acquisition

    /** SQL's sum() and count() over the given rows, in whatever order it scans them. */
    method SumLoads(rows: map<nat, Load>) returns (t: Load)
      ensures t == Total(rows)
    {
      hide Total;
      NothingTotal();
      t := NOTHING;
      var rest := rows.Keys;
      ghost var done: map<nat, Load> := map[];
      while rest != {}
        invariant rest <= rows.Keys && done.Keys == rows.Keys - rest && (forall k :: k in done ==> done[k] == rows[k])
        invariant t == Total(done)
        decreases |rest|
      {
        var k :| k in rest;
        TotalInsert(done, k, rows[k]);
        t := Plus(rows[k], t);
        done := done[k := rows[k]];
        rest := rest - {k};
      }
      assert done == rows;
    }

    /** The final checks on a selected job, each later one overriding the reason found before. */
    method RecheckReason(c: AcquireCall, job: Job, late: Option<NoWork>) returns (reason: Option<NoWork>)
      requires c.worker in db.workers && c.choice.Some? && c.choice.value in db.jobs && job == db.jobs[c.choice.value]
      requires late == Readiness(db.workers[c.worker], c.allowSoft, c.now)
      requires Readiness(db.workers[c.worker], c.allowSoft, c.selectedAt).None?
      ensures reason == AcquireReason(db, c)
    {
      hide Total;
      hide HeldBy;
      hide ProjectRows;
      hide SweepRows;
      hide Readiness;
      var w, p := db.workers[c.worker], job.project;
      reason := None;
      var used := SumLoads(ProjectRows(db, p));
      if p !in db.projects || !db.projects[p].enabled || !WithinQuota(db.projects[p], used, job.spec) {
        reason := Some(ProjectQuota);
      }
      if job.sweep.Some? && job.sweep.value in db.sweeps {
        if |SweepRows(db, job.sweep.value)| >= db.sweeps[job.sweep.value].maxConcurrent {
          reason := Some(SweepConcurrency);
        }
      }
      var held := SumLoads(HeldBy(db, c.worker));
      if !Fits(w.claim, held, job.spec) {
        reason := Some(NoResourceFit);
      }
      if !LabelsMatch(job.spec.labels, w.labels) {
        reason := Some(PlacementMismatch);
      }
      if late.Some? {
        reason := late;
      }
      if !IsWaiting(job.state) || job.cancelRequested || job.nextEligible > c.now {
        reason := Some(QueueEmpty);
      }
    }

    /** Why nothing is assigned, if nothing is. */
    method FindReason(c: AcquireCall) returns (reason: Option<NoWork>)
      requires c.worker in db.workers
      ensures reason == AcquireReason(db, c)
    {
      hide Readiness;
      var w := db.workers[c.worker];
      reason := Readiness(w, c.allowSoft, c.selectedAt);
      var late := Readiness(w, c.allowSoft, c.now);
      if reason.Some? {
        if late.Some? {
          reason := late;
        }
        return;
      }
      if c.choice.None? || c.choice.value !in db.jobs {
        return if late.Some? then late else Some(QueueEmpty);
      }
      reason := RecheckReason(c, db.jobs[c.choice.value], late);
    }

    /** AcquireWork: replay, or ownership, capacity and the rotation cursor in one commit. */
    method AcquireWork(c: AcquireCall) returns (r: Result<AcquireReply>)
      modifies this
      ensures Step(db, r) == Acquire(old(db), c)
    {
      hide AcquireReason;
      hide ReplayAssignment;
      hide ValidSpec;
      var key := RequestKey(c.worker, c.session, c.request);
      if key in db.acquisitions && db.acquisitions[key].AcquiredAttempt? {
        return ReplayAssignment(db, c.worker, c.session, db.acquisitions[key].attempt, c.now);
      }
      if !CurrentSession(db, c.worker, c.session) {
        return Err(ErrFenced);
      }
      if key in db.acquisitions {
        return Ok(Idle(db.acquisitions[key].why));
      }
      var reason := FindReason(c);
      if reason.Some? {
        db := db.(acquisitions := db.acquisitions[key := AcquiredNothing(reason.value)]);
        return Ok(Idle(reason.value));
      }
      AssignableExists(db, c);
      var id := c.choice.value;
      var job := db.jobs[id];
      if !ValidSpec(job.spec) || job.counter >= job.spec.retry.maxAttempts {
        return Err(ErrInvalid);
      }
      if c.newId in db.attempts {
        return Err(ErrInternal);
      }
      InsertAssignment(c, id);
      db := db.(acquisitions := db.acquisitions[key := AcquiredAttempt(c.newId)]);
      var attempt := db.attempts[c.newId];
      return Ok(Assignment(AuthorityOf(c.newId, attempt), attempt.lease, attempt.phase, c.now));
    }

    /** The four row changes of an assignment. */
    method InsertAssignment(c: AcquireCall, id: JobId)
      requires id in db.jobs && ValidSpec(db.jobs[id].spec)
      modifies this
      ensures db == Assign(old(db), c, id)
    {
      var job := db.jobs[id];
      var attempt := Attempt(id, job.counter + 1, c.worker, c.session, Assigned, c.now, c.now + INITIAL_LEASE,
                             c.now + job.spec.startup * SECOND, None, None, None, false);
      db := db.(attempts := db.attempts[c.newId := attempt]);
      db := db.(reservations := db.reservations[c.newId := Reservation(c.worker, LoadOf(job.spec), Held)]);
      db := db.(jobs := db.jobs[id := job.(state := Active, current := Some(c.newId), counter := job.counter + 1)]);
      db := db.(cursor := Some(job.project), clock := c.now);
    }

    // ---------------------------------------------------------------------- heartbeats

    /** The inventory pass: what is present, and what must stop. */
    method ScanInventory(w: WorkerId, h: HeartbeatReport, now: Time) returns (stop: set<Authority>, present: set<AttemptId>)
      ensures stop == InventoryStops(db, w, h, now, h.inventory) && present == Present(h)
    {
      hide MustStop;
      stop, present := {}, {};
      var rest := h.inventory;
      while rest != {}
        invariant rest <= h.inventory && stop == InventoryStops(db, w, h, now, h.inventory - rest)
        invariant present == set e | e in h.inventory - rest :: e.authority.attempt
        decreases |rest|
      {
        var e :| e in rest;
        InventoryOne(db, w, h, now, h.inventory - rest, e);
        assert h.inventory - (rest - {e}) == (h.inventory - rest) + {e};
        present := present + {e.authority.attempt};
        if MustStop(db, w, h, e.authority, now) {
          stop := stop + {e.authority};
        }
        rest := rest - {e};
      }
      assert h.inventory - {} == h.inventory;
    }

    /** The pass over this host's attempts, in any order. */
    method ScanAttempts(w: WorkerId, h: HeartbeatReport, now: Time, stop0: set<Authority>, present: set<AttemptId>)
      returns (stop: set<Authority>, missing: bool)
      ensures stop == stop0 + AttemptStops(db, w, h, now, HostAttempts(db, w))
      ensures missing <==> AnyMissing(db, HostAttempts(db, w), present)
    {
      hide AttemptAuthorized;
      hide AttemptStops;
      hide AnyMissing;
      hide AuthorityOf;
      NoneYet(db, w, h, now, present);
      stop, missing := stop0, false;
      var all := HostAttempts(db, w);
      var rest := all;
      assert all - rest == {};
      while rest != {}
        invariant rest <= all && stop == stop0 + AttemptStops(db, w, h, now, all - rest)
        invariant missing <==> AnyMissing(db, all - rest, present)
        decreases |rest|
      {
        var id :| id in rest;
        ghost var part := all - rest;
        AttemptOne(db, w, h, now, part, id);
        MissingOne(db, part, present, id);
        Moved(all, rest, id);
        Joined(stop0, AttemptStops(db, w, h, now, part), {AuthorityOf(id, db.attempts[id])});
        if IsActive(db.attempts[id].state) && !AttemptAuthorized(db, id, h.session, now) {
          stop := stop + {AuthorityOf(id, db.attempts[id])};
        }
        if db.attempts[id].state.Running? && id !in present {
          missing := true;
        }
        rest := rest - {id};
      }
      assert all - {} == all;
    }

    /** The release pass, in any order: frees what a new incarnation may attest, and notes what it may not. */
    method ReleaseQuarantined(w: WorkerId, h: HeartbeatReport, now: Time, release: bool) returns (uncertain: bool)
      requires release ==> h.healthy && !Unreconciled(db, w, h, now)
      modifies this
      ensures db == ReleasedRows(old(db), w, h, now, HostAttempts(old(db), w), release)
      ensures uncertain <==> AnyUncertain(old(db), w, h, now, HostAttempts(old(db), w), release)
    {
      hide Unreconciled;
      hide ReleasedRows;
      hide AnyUncertain;
      NoneUncertain(db, w, h, now, release);
      uncertain := false;
      var rows := db;
      var all := HostAttempts(rows, w);
      var rest := all;
      assert all - rest == {};
      ReleaseNone(rows, w, h, now, release);
      while rest != {}
        invariant rest <= all && db == ReleasedRows(rows, w, h, now, all - rest, release)
        invariant uncertain <==> AnyUncertain(rows, w, h, now, all - rest, release)
        decreases |rest|
      {
        var id :| id in rest;
        var a := rows.attempts[id];
        ReleaseOne(rows, w, h, now, all - rest, id, release);
        UncertainOne(rows, w, h, now, all - rest, release, id);
        assert all - (rest - {id}) == (all - rest) + {id};
        if IsQuarantined(rows, id) {
          if release && a.session != h.session && a.session in rows.sessions && rows.sessions[a.session].fenced.Some? && !IsActive(a.state) {
            db := db.(reservations := db.reservations[id := rows.reservations[id].(state := Released)]);
            db := db.(attempts := db.attempts[id := a.(cleanupPending := false)]);
          } else {
            uncertain := true;
          }
        }
        rest := rest - {id};
      }
      assert all - {} == all;
    }

    /** RecordHeartbeat: stop list, release of attested capacity, and the host's state. */
    method RecordHeartbeat(w: WorkerId, h: HeartbeatReport, now: Time) returns (r: Result<HeartbeatReply>)
      modifies this
      ensures Step(db, r) == Heartbeat(old(db), w, h, now)
    {
      hide HeartbeatWellFormed;
      hide StopSet;
      hide Releases;
      hide Present;
      hide HostAttempts;
      hide InventoryStops;
      hide AttemptStops;
      hide AnyMissing;
      hide AnyUncertain;
      hide Unreconciled;
      hide StillUncertain;
      hide ReleasedRows;
      if !HeartbeatWellFormed(w, h) {
        return Err(ErrInvalid);
      }
      if !CurrentSession(db, w, h.session) {
        return Err(ErrFenced);
      }
      var s, row, rows := db.sessions[h.session], db.workers[w], db;
      if h.sequence < s.heartbeat {
        return Err(ErrStaleHeartbeat);
      }
      var replay := h.sequence == s.heartbeat;
      if replay && s.lastReport != Some(h) {
        return Err(ErrConflict);
      }
      var stop, present := ScanInventory(w, h, now);
      var missing;
      stop, missing := ScanAttempts(w, h, now, stop, present);
      StopsAre(db, w, h, now);
      var reconcile := !h.reconciled || missing || stop != {};
      ReleaseIs(rows, w, h, now, replay);
      var uncertain := ReleaseQuarantined(w, h, now, !replay && h.healthy && !reconcile);
      reconcile := reconcile || uncertain;
      if replay {
        return Ok(HeartbeatReply(row.drain || !row.state.Ready?, !row.reconciled || reconcile, stop));
      }
      var reconciled := !reconcile && h.healthy;
      var state := HeartbeatState(h, reconciled, row.drain);
      db := db.(sessions := db.sessions[h.session := s.(heartbeat := h.sequence, lastReport := Some(h))]);
      db := db.(workers := db.workers[w := row.(state := state, reconciled := reconciled, healthy := h.healthy,
                                                diskPressure := h.diskPressure, lastHeartbeat := Some(now))]);
      return Ok(HeartbeatReply(row.drain || !state.Ready?, !reconciled || reconcile, stop));
    }
  }

  lemma FenceNext(rows: Db, order: seq<AttemptId>, i: nat, hash: Hash, now: Time)
    requires i < |order|
    ensures FenceAll(rows, order[..i + 1], hash, now)
         == var before := FenceAll(rows, order[..i], hash, now);
            if before.Err? then before else FenceLost(before.value, order[i], hash, now)
  {
    hide FenceLost;
    assert order[..i + 1][..i] == order[..i] && order[..i + 1][i] == order[i];
  }

  lemma {:induction false} FenceFails(rows: Db, order: seq<AttemptId>, i: nat, hash: Hash, now: Time)
    requires i <= |order| && FenceAll(rows, order[..i], hash, now).Err?
    ensures FenceAll(rows, order, hash, now) == FenceAll(rows, order[..i], hash, now)
    decreases |order| - i
  {
    hide FenceLost;
    if i < |order| {
      FenceNext(rows, order, i, hash, now);
      FenceFails(rows, order, i + 1, hash, now);
    } else {
      assert order[..i] == order;
    }
  }

  lemma AcceptedExists(db: Db, a: Authority, now: Time)
    requires LeaseDecision(db, a, now).Accepted?
    ensures a.attempt in db.attempts
  {
  }
}
