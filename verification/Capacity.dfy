/** No oversubscription: hosts, projects and sweeps stay within their limits in every state. */
module Capacity {
  import opened Base
  import opened Totals
  import opened Schema
  import opened Transactions
  import opened Changes
  import opened Ownership
  import opened Evolution

  ghost predicate HostWithin(db: Db, w: WorkerId)
    requires w in db.workers
  {
    w in db.ceilings && Within(Total(HeldBy(db, w)), db.ceilings[w].limit)
  }

  predicate QuotaHolds(p: Project, used: Load)
  {
    used.cpu <= Max(0, p.cpuQuota) && used.memory <= Max(0, p.memoryQuota) && used.slots <= Max(0, p.slotQuota)
  }

  ghost predicate ProjectWithin(db: Db, p: ProjectId)
    requires p in db.projects
  {
    QuotaHolds(db.projects[p], Total(ProjectRows(db, p)))
  }

  ghost predicate SweepWithin(db: Db, s: SweepId)
    requires s in db.sweeps
  {
    |SweepRows(db, s)| <= Max(0, db.sweeps[s].maxConcurrent)
  }

  ghost predicate CapacityOk(db: Db)
  {
    && (forall w {:trigger HostWithin(db, w)} :: w in db.workers ==> HostWithin(db, w))
    && (forall p {:trigger ProjectWithin(db, p)} :: p in db.projects ==> ProjectWithin(db, p))
    && (forall s {:trigger SweepWithin(db, s)} :: s in db.sweeps ==> SweepWithin(db, s))
  }

  /** No row starts to hold anything: holds are only given up and attempts only end. */
  ghost predicate Shrinks(db: Db, d: Db)
  {
    && d.reservations.Keys == db.reservations.Keys && d.attempts.Keys == db.attempts.Keys
    && (forall x {:trigger d.reservations[x]} :: x in db.reservations ==>
          && d.reservations[x].worker == db.reservations[x].worker && d.reservations[x].load == db.reservations[x].load
          && (db.reservations[x].state.Released? ==> d.reservations[x].state.Released?))
  }

  lemma HeldShrinks(db: Db, d: Db, w: WorkerId)
    requires Shrinks(db, d)
    ensures Within(Total(HeldBy(d, w)), Total(HeldBy(db, w)))
  {
    TotalSubset(HeldBy(d, w), HeldBy(db, w));
  }

  lemma StillChild(db: Db, d: Db, x: AttemptId)
    requires Owned(db) && Evolves(db, d) && Shrinks(db, d) && x in d.attempts && ActiveChild(d, x)
    ensures ActiveChild(db, x) && db.attempts[x].job == d.attempts[x].job
    ensures d.jobs[d.attempts[x].job].project == db.jobs[d.attempts[x].job].project
    ensures d.jobs[d.attempts[x].job].sweep == db.jobs[d.attempts[x].job].sweep
  {
    assert AttemptOk(db, x) && AttemptEvolves(db, d, x) && JobEvolves(db, d, db.attempts[x].job);
  }

  lemma ProjectShrinks(db: Db, d: Db, p: ProjectId)
    requires Owned(db) && Evolves(db, d) && Shrinks(db, d)
    ensures Within(Total(ProjectRows(d, p)), Total(ProjectRows(db, p)))
  {
    forall x | x in ProjectRows(d, p) ensures x in ProjectRows(db, p) && ProjectRows(db, p)[x] == ProjectRows(d, p)[x] {
      StillChild(db, d, x);
    }
    TotalSubset(ProjectRows(d, p), ProjectRows(db, p));
  }

  lemma SweepShrinks(db: Db, d: Db, s: SweepId)
    requires Owned(db) && Evolves(db, d) && Shrinks(db, d)
    ensures SweepRows(d, s) <= SweepRows(db, s) && |SweepRows(d, s)| <= |SweepRows(db, s)|
  {
    forall x | x in SweepRows(d, s) ensures x in SweepRows(db, s) {
      StillChild(db, d, x);
    }
    SubsetSmaller(SweepRows(d, s), SweepRows(db, s));
  }

  lemma {:induction false} SubsetSmaller(a: set<AttemptId>, b: set<AttemptId>)
    requires a <= b
    ensures |a| <= |b|
  {
    if a != {} {
      var x :| x in a;
      SubsetSmaller(a - {x}, b - {x});
    }
  }

  /** Nobody can be running a child of a sweep that did not exist. */
  lemma NewSweepEmpty(db: Db, d: Db, s: SweepId)
    requires Owned(db) && Evolves(db, d) && Shrinks(db, d) && s !in db.sweeps
    ensures SweepRows(d, s) == {}
  {
    forall x | x in d.attempts ensures x !in SweepRows(d, s) {
      assert AttemptOk(db, x) && JobOk(db, db.attempts[x].job);
      assert AttemptEvolves(db, d, x) && JobEvolves(db, d, db.attempts[x].job);
    }
  }

  lemma ShrinkingKeepsCapacity(db: Db, d: Db)
    requires Owned(db) && CapacityOk(db) && Evolves(db, d) && Shrinks(db, d)
    ensures CapacityOk(d)
  {
    forall w | w in d.workers ensures HostWithin(d, w) { assert HostWithin(db, w); HeldShrinks(db, d, w); }
    forall p | p in d.projects ensures ProjectWithin(d, p) { assert ProjectWithin(db, p); ProjectShrinks(db, d, p); }
    forall s | s in d.sweeps ensures SweepWithin(d, s) {
      if s in db.sweeps { assert SweepWithin(db, s); SweepShrinks(db, d, s); } else { NewSweepEmpty(db, d, s); }
    }
  }

  // ------------------------------------------------------------------ assignment

  lemma HeldAfterTake(db: Db, c: AcquireCall, j: JobId, d: Db, w: WorkerId)
    requires j in db.jobs && ValidSpec(db.jobs[j].spec) && d == Assign(db, c, j) && c.newId !in db.reservations
    ensures HeldBy(d, w) == if w == c.worker then HeldBy(db, w)[c.newId := LoadOf(db.jobs[j].spec)] else HeldBy(db, w)
  {
  }

  lemma TakeHost(db: Db, c: AcquireCall, j: JobId, d: Db, w: WorkerId)
    requires j in db.jobs && ValidSpec(db.jobs[j].spec) && d == Assign(db, c, j) && c.newId !in db.reservations
    requires w in db.workers && HostWithin(db, w) && WorkerOk(db, w) && (w == c.worker ==> FitsWorker(db, w, db.jobs[j].spec))
    ensures HostWithin(d, w)
  {
    HeldAfterTake(db, c, j, d, w);
    TotalInsert(HeldBy(db, w), c.newId, LoadOf(db.jobs[j].spec));
  }

  lemma ProjectAfterTake(db: Db, c: AcquireCall, j: JobId, d: Db, p: ProjectId)
    requires j in db.jobs && ValidSpec(db.jobs[j].spec) && d == Assign(db, c, j) && c.newId !in db.attempts
    ensures ProjectRows(d, p)
         == if p == db.jobs[j].project then ProjectRows(db, p)[c.newId := LoadOf(db.jobs[j].spec)] else ProjectRows(db, p)
  {
  }

  lemma TakeProject(db: Db, c: AcquireCall, j: JobId, d: Db, p: ProjectId)
    requires j in db.jobs && ValidSpec(db.jobs[j].spec) && d == Assign(db, c, j) && c.newId !in db.attempts
    requires p in db.projects && ProjectWithin(db, p) && (p == db.jobs[j].project ==> FitsProject(db, p, db.jobs[j].spec))
    ensures ProjectWithin(d, p)
  {
    ProjectAfterTake(db, c, j, d, p);
    TotalInsert(ProjectRows(db, p), c.newId, LoadOf(db.jobs[j].spec));
  }

  lemma TakeSweep(db: Db, c: AcquireCall, j: JobId, d: Db, s: SweepId)
    requires j in db.jobs && ValidSpec(db.jobs[j].spec) && d == Assign(db, c, j) && c.newId !in db.attempts
    requires s in db.sweeps && SweepWithin(db, s) && FitsSweep(db, db.jobs[j].sweep)
    ensures SweepWithin(d, s)
  {
    var extra := if db.jobs[j].sweep == Some(s) then {c.newId} else {};
    assert SweepRows(d, s) == SweepRows(db, s) + extra;
  }

  lemma TakeKeepsCapacity(db: Db, c: AcquireCall, j: JobId, d: Db)
    requires Owned(db) && CapacityOk(db) && CanTake(db, c, j) && d == Assign(db, c, j)
    ensures CapacityOk(d)
  {
    forall w | w in d.workers ensures HostWithin(d, w) { assert HostWithin(db, w) && WorkerOk(db, w); TakeHost(db, c, j, d, w); }
    forall p | p in d.projects ensures ProjectWithin(d, p) { assert ProjectWithin(db, p); TakeProject(db, c, j, d, p); }
    forall s | s in d.sweeps ensures SweepWithin(d, s) { assert SweepWithin(db, s); TakeSweep(db, c, j, d, s); }
  }

  lemma EndShrinks(db: Db, id: AttemptId, e: Ending, record: Option<CompletionRecord>, d: Db)
    requires Owned(db) && CanEnd(db, id, e, record) && d == Ended(db, id, e, record)
    ensures Shrinks(db, d)
  {
    assert AttemptOk(db, id);
    EndedShape(db, id, e, record, d);
  }

  lemma ChangeKeepsCapacity(db: Db, ch: Change, d: Db)
    requires Owned(db) && CapacityOk(db) && Makes(db, ch, d) && Evolves(db, d)
    ensures CapacityOk(d)
  {
    hide CapacityOk;
    hide Owned;
    hide Evolves;
    if ch.Take? {
      TakeKeepsCapacity(db, ch.call, ch.job, d);
    } else {
      if ch.End? { EndShrinks(db, ch.attempt, ch.ending, ch.record, d); }
      ShrinkingKeepsCapacity(db, d);
    }
  }
}
