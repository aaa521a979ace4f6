/** Work selection: the query's answer is unique, and projects take turns. */
module Rotation {
  import opened Base
  import opened Schema
  import opened Transactions
  import opened Protocol
  import opened Changes
  import Paths

  // ------------------------------------------------------------- the query's order

  lemma RanksTotal(db: Db, w: WorkerId, now: Time, a: JobId, b: JobId)
    requires w in db.workers && a in db.jobs && b in db.jobs && a != b
    ensures RanksBefore(db, w, now, a, b) <==> !RanksBefore(db, w, now, b, a)
  {
  }

  lemma RanksTransitive(db: Db, w: WorkerId, now: Time, a: JobId, b: JobId, c: JobId)
    requires w in db.workers && a in db.jobs && b in db.jobs && c in db.jobs
    requires RanksBefore(db, w, now, a, b) && RanksBefore(db, w, now, b, c)
    ensures RanksBefore(db, w, now, a, c)
  {
  }

  ghost predicate First(db: Db, w: WorkerId, now: Time, among: set<JobId>, id: JobId)
    requires w in db.workers && among <= db.jobs.Keys
  {
    id in among && forall k :: k in among && k != id ==> RanksBefore(db, w, now, id, k)
  }

  lemma {:induction false} FirstExists(db: Db, w: WorkerId, now: Time, among: set<JobId>) returns (id: JobId)
    requires w in db.workers && among <= db.jobs.Keys && among != {}
    ensures First(db, w, now, among, id)
    decreases |among|
  {
    var x :| x in among;
    id := x;
    if among != {x} {
      var z :| z in among && z != x;
      assert z in among - {x};
      var y := FirstExists(db, w, now, among - {x});
      if RanksBefore(db, w, now, y, x) {
        id := y;
      } else {
        RanksTotal(db, w, now, x, y);
        forall k | k in among && k != x ensures RanksBefore(db, w, now, x, k) {
          if k != y { RanksTransitive(db, w, now, x, y, k); }
        }
      }
    }
  }

  /** Whatever the tables hold, the selection query has an answer. */
  lemma SelectionExists(db: Db, w: WorkerId, now: Time) returns (choice: Option<JobId>)
    requires w in db.workers
    ensures IsSelection(db, w, now, choice)
  {
    var visible := set k | k in db.jobs && Visible(db, w, now, k);
    if visible == {} {
      choice := None;
      forall k | k in db.jobs ensures !Visible(db, w, now, k) { assert k !in visible; }
    } else {
      var id := FirstExists(db, w, now, visible);
      choice := Some(id);
      forall k | k in db.jobs && Visible(db, w, now, k) && k != id ensures RanksBefore(db, w, now, id, k) { assert k in visible; }
    }
  }

  /** And only one. */
  lemma SelectionUnique(db: Db, w: WorkerId, now: Time, a: Option<JobId>, b: Option<JobId>)
    requires w in db.workers && IsSelection(db, w, now, a) && IsSelection(db, w, now, b)
    ensures a == b
  {
    if a.Some? && b.Some? && a != b { RanksTotal(db, w, now, a.value, b.value); }
  }

  // --------------------------------------------------------------------- rotation

  /** How far project `p` is ahead of the cursor, going round the id space once. */
  function Distance(cursor: Option<ProjectId>, p: ProjectId): int
  {
    var at := if cursor.Some? then cursor.value else -1;
    if at < p then p - at else p - at + UUID_SPACE
  }

  /** Project `p` has a job this host could run now. */
  ghost predicate Assignable(db: Db, w: WorkerId, now: Time, p: ProjectId)
    requires w in db.workers
  {
    exists j :: j in db.jobs && Visible(db, w, now, j) && db.jobs[j].project == p && Blocker(db, w, j).None?
  }

  ghost predicate AssignsTo(db: Db, act: Action, p: ProjectId)
  {
    act.DoAcquire? && Assigns(db, act.acquire) && db.jobs[act.acquire.choice.value].project == p
  }

  /** Choosing another project while `p` could run brings the cursor strictly closer to `p`. */
  lemma AssignmentApproaches(db: Db, c: AcquireCall, p: ProjectId)
    requires CurrentSession(db, c.worker, c.session) && IsSelection(db, c.worker, c.selectedAt, c.choice)
    requires Assigns(db, c) && Assignable(db, c.worker, c.selectedAt, p) && db.jobs[c.choice.value].project != p
    ensures Distance(Some(db.jobs[c.choice.value].project), p) < Distance(db.cursor, p)
  {
    var j :| j in db.jobs && Visible(db, c.worker, c.selectedAt, j) && db.jobs[j].project == p && Blocker(db, c.worker, j).None?;
    assert RanksBefore(db, c.worker, c.selectedAt, c.choice.value, j);
  }

  lemma SettleKeepsCursor(db: Db, id: AttemptId, e: Ending)
    requires id in db.attempts && id in db.reservations && db.attempts[id].job in db.jobs
    ensures Settle(db, id, e).cursor == db.cursor
  {
    SettleOnlyStops(db, id, e);
  }

  lemma FenceKeepsCursor(db: Db, id: AttemptId, hash: Hash, now: Time)
    requires FenceLost(db, id, hash, now).Ok?
    ensures FenceLost(db, id, hash, now).value.cursor == db.cursor
  {
    SettleKeepsCursor(db, id, FenceEnding(db.jobs[db.attempts[id].job], db.attempts[id], hash(id), now));
  }

  lemma {:induction false} FenceAllKeepsCursor(db: Db, ids: seq<AttemptId>, hash: Hash, now: Time)
    requires FenceAll(db, ids, hash, now).Ok?
    ensures FenceAll(db, ids, hash, now).value.cursor == db.cursor
  {
    if ids != [] {
      FenceAllKeepsCursor(db, ids[..|ids| - 1], hash, now);
      FenceKeepsCursor(FenceAll(db, ids[..|ids| - 1], hash, now).value, ids[|ids| - 1], hash, now);
    }
  }

  lemma RecoverKeepsCursor(db: Db, w: WorkerId, from: SessionId, to: SessionId, order: seq<AttemptId>, hash: Hash, now: Time)
    requires Recover(db, w, from, to, order, hash, now).Ok?
    ensures Recover(db, w, from, to, order, hash, now).value.cursor == db.cursor
  {
    FenceAllKeepsCursor(db, order, hash, now);
  }

  lemma RegisterKeepsCursor(db: Db, c: RegisterCall, hash: Hash, done: Db)
    requires done == Register(db, c, hash).db && db.clock <= c.now
    ensures done.cursor == db.cursor
  {
    hide Register;
    hide Recover;
    var base := Paths.RegisterBase(db, c, hash, done);
    if base != db {
      RecoverKeepsCursor(db, c.worker, db.workers[c.worker].current.value, c.claims.session, c.order, hash, c.now);
    }
  }

  lemma ReapKeepsCursor(db: Db, id: AttemptId, hash: Hash, now: Time)
    ensures Reap(db, id, hash, now).db.cursor == db.cursor
  {
    if FenceLost(db, id, hash, now).Ok? { FenceKeepsCursor(db, id, hash, now); }
  }

  lemma AcquireMovesCursor(db: Db, c: AcquireCall)
    ensures Acquire(db, c).db.cursor == if Assigns(db, c) then Some(db.jobs[c.choice.value].project) else db.cursor
  {
    hide Acquire;
    hide AcquireReason;
    hide Assign;
    hide ValidSpec;
    Paths.AcquireRows(db, c);
    if Assigns(db, c) { Paths.AssignFrame(db, c, c.choice.value); }
  }

  lemma CompleteKeepsCursor(db: Db, c: CompleteCall, hash: Hash)
    ensures Complete(db, c, hash).db.cursor == db.cursor
  {
    hide Complete;
    Paths.CompleteShape(db, c, hash);
    if Paths.Completes(db, c) { SettleKeepsCursor(db, c.request.authority.attempt, Paths.EndingOf(db, c, hash)); }
  }

  /** Only a new assignment moves the cursor, to the project it served. */
  lemma CursorMoves(db: Db, act: Action)
    requires db.clock <= Opens(act)
    ensures Commit(db, act).cursor
         == if act.DoAcquire? && Assigns(db, act.acquire) then Some(db.jobs[act.acquire.choice.value].project) else db.cursor
  {
    hide Acquire;
    hide Complete;
    hide Register;
    hide Reap;
    match act {
      case DoAcquire(c) => AcquireMovesCursor(db, c);
      case DoComplete(c, hash) => CompleteKeepsCursor(db, c, hash);
      case DoRegister(c, hash) => RegisterKeepsCursor(db, c, hash, Commit(db, act));
      case DoReap(id, hash, t) => ReapKeepsCursor(db, id, hash, t);
      case _ =>
    }
  }

  /** In steps `i` to `k`, whenever work is assigned, `p` could have been given work. */
  ghost predicate Waiting(run: seq<Db>, acts: seq<Action>, i: nat, k: nat, p: ProjectId)
    requires |run| == |acts| + 1 && i <= k <= |acts|
  {
    forall m {:trigger acts[m]} :: i <= m < k && acts[m].DoAcquire? && Assigns(run[m], acts[m].acquire) ==>
      Assignable(run[m], acts[m].acquire.worker, acts[m].acquire.selectedAt, p)
  }

  lemma {:induction false} CursorApproaches(run: seq<Db>, acts: seq<Action>, i: nat, k: nat, p: ProjectId)
    requires IsRun(run, acts) && i <= k <= |acts| && Waiting(run, acts, i, k, p)
    requires forall m {:trigger acts[m]} :: i <= m < k ==> !AssignsTo(run[m], acts[m], p)
    ensures Distance(run[k].cursor, p) <= Distance(run[i].cursor, p)
    decreases k
  {
    if i < k {
      CursorApproaches(run, acts, i, k - 1, p);
      var db, act := run[k - 1], acts[k - 1];
      assert Steps(run, acts, k - 1);
      CursorMoves(db, act);
      if act.DoAcquire? && Assigns(db, act.acquire) { AssignmentApproaches(db, act.acquire, p); }
    }
  }

  lemma TurnSetsCursor(run: seq<Db>, acts: seq<Action>, i: nat, q: ProjectId)
    requires IsRun(run, acts) && i < |acts| && AssignsTo(run[i], acts[i], q)
    ensures run[i + 1].cursor == Some(q)
  {
    assert Steps(run, acts, i);
    CursorMoves(run[i], acts[i]);
  }

  lemma TurnApproaches(run: seq<Db>, acts: seq<Action>, k: nat, p: ProjectId, q: ProjectId)
    requires IsRun(run, acts) && k < |acts| && AssignsTo(run[k], acts[k], q) && p != q
    requires Assignable(run[k], acts[k].acquire.worker, acts[k].acquire.selectedAt, p)
    ensures Distance(Some(q), p) < Distance(run[k].cursor, p)
  {
    assert Steps(run, acts, k);
    AssignmentApproaches(run[k], acts[k].acquire, p);
  }

  /** Between two assignments to project `q`, a project that could always run is served. */
  lemma TakesTurns(run: seq<Db>, acts: seq<Action>, i: nat, k: nat, p: ProjectId, q: ProjectId)
    requires IsRun(run, acts) && i < k < |acts| && p != q && Waiting(run, acts, i, k + 1, p)
    requires AssignsTo(run[i], acts[i], q) && AssignsTo(run[k], acts[k], q)
    ensures exists m {:trigger acts[m]} :: i < m < k && AssignsTo(run[m], acts[m], p)
  {
    TurnSetsCursor(run, acts, i, q);
    TurnApproaches(run, acts, k, p, q);
    if forall m {:trigger acts[m]} :: i + 1 <= m < k ==> !AssignsTo(run[m], acts[m], p) {
      CursorApproaches(run, acts, i + 1, k, p);
    }
  }
}
