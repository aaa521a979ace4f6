/** Whole runs of the control plane: what holds in every state and between any two. */
module Runs {
  import opened Schema
  import opened Protocol
  import opened Changes
  import opened Ownership
  import opened Evolution
  import opened Timing
  import opened Lifecycle
  import opened Capacity
  import opened SweepFailure
  import opened Quarantine
  import opened RenewalReplay
  import Paths

  ghost predicate Inv(db: Db)
  {
    && Owned(db) && CompletionsEnded(db) && Deadlines(db) && Numbered(db) && CapacityOk(db)
    && FailedFast(db) && Latched(db) && ReplaysOk(db)
  }

  lemma ChangeKeepsInv(db: Db, ch: Change, d: Db)
    requires Inv(db) && Makes(db, ch, d)
    ensures Inv(d) && Evolves(db, d)
  {
    ChangeEvolves(db, ch, d);
    ChangeKeepsOwned(db, ch, d);
    ChangeKeepsCompletions(db, ch, d);
    ChangeKeepsDeadlines(db, ch, d);
    ChangeKeepsNumbers(db, ch, d);
    ChangeKeepsCapacity(db, ch, d);
    ChangeKeepsFailedFast(db, ch, d);
    ChangeKeepsLatch(db, ch, d);
    ChangeKeepsReplays(db, ch, d);
  }

  lemma {:induction false} PathKeepsInv(db: Db, p: Path, d: Db)
    requires Inv(db) && Leads(db, p, d)
    ensures Inv(d) && Evolves(db, d)
    decreases p
  {
    match p {
      case Start => FromRows(db, d);
      case Then(before, mid, ch) =>
        PathKeepsInv(db, before, mid);
        ChangeKeepsInv(mid, ch, d);
        EvolvesTransitive(db, mid, d);
    }
  }

  lemma {:induction false} PathSpends(db: Db, p: Path, d: Db, j: JobId)
    requires Inv(db) && Leads(db, p, d) && j in db.jobs
    ensures BudgetSpent(db, d, j)
    decreases p
  {
    match p {
      case Start =>
      case Then(before, mid, ch) =>
        PathKeepsInv(db, before, mid);
        PathSpends(db, before, mid, j);
        ChangeSpends(mid, ch, d, j);
    }
  }

  lemma {:induction false} PathQuarantine(db: Db, p: Path, d: Db, x: AttemptId)
    requires Inv(db) && Leads(db, p, d) && x in db.attempts
    ensures QuarantineEvolves(db, d, x)
    decreases p
  {
    match p {
      case Start =>
      case Then(before, mid, ch) =>
        PathKeepsInv(db, before, mid);
        PathQuarantine(db, before, mid, x);
        assert AttemptEvolves(db, mid, x);
        ChangeKeepsInv(mid, ch, d);
        ChangeQuarantine(mid, ch, d, x);
        QuarantineTransitive(db, mid, d, x);
    }
  }

  /** Every enabled transaction keeps the invariants and undoes nothing. */
  lemma ActionKeepsInv(db: Db, act: Action, d: Db)
    requires Inv(db) && Next(db, act, d)
    ensures Inv(d) && Evolves(db, d)
  {
    var p := Paths.ActionPath(db, act, d);
    PathKeepsInv(db, p, d);
  }

  lemma ActionSpends(db: Db, act: Action, d: Db, j: JobId)
    requires Inv(db) && Next(db, act, d) && j in db.jobs
    ensures BudgetSpent(db, d, j)
  {
    var p := Paths.ActionPath(db, act, d);
    PathSpends(db, p, d, j);
  }

  lemma ActionQuarantine(db: Db, act: Action, d: Db, x: AttemptId)
    requires Inv(db) && Next(db, act, d) && x in db.attempts
    ensures QuarantineEvolves(db, d, x)
  {
    var p := Paths.ActionPath(db, act, d);
    PathQuarantine(db, p, d, x);
  }

  lemma EmptyCapacity(db: Db)
    requires Init(db)
    ensures CapacityOk(db)
  {
    forall w | w in db.workers ensures HostWithin(db, w) { assert HeldBy(db, w) == map[]; }
    forall p | p in db.projects ensures ProjectWithin(db, p) { assert ProjectRows(db, p) == map[]; }
  }

  lemma InitInv(db: Db)
    requires Init(db)
    ensures Inv(db)
  {
    EmptyCapacity(db);
    forall w | w in db.workers ensures WorkerOk(db, w) { }
  }

  /** The invariants hold in every state of every run. */
  lemma {:induction false} RunInv(run: seq<Db>, acts: seq<Action>, i: nat)
    requires IsRun(run, acts) && i < |run|
    ensures Inv(run[i])
    decreases i
  {
    if i == 0 {
      InitInv(run[0]);
    } else {
      RunInv(run, acts, i - 1);
      assert Steps(run, acts, i - 1);
      ActionKeepsInv(run[i - 1], acts[i - 1], run[i]);
    }
  }

  lemma RunStep(run: seq<Db>, acts: seq<Action>, i: nat)
    requires IsRun(run, acts) && i < |acts|
    ensures Inv(run[i]) && Next(run[i], acts[i], run[i + 1]) && Evolves(run[i], run[i + 1])
  {
    RunInv(run, acts, i);
    assert Steps(run, acts, i);
    ActionKeepsInv(run[i], acts[i], run[i + 1]);
  }

  /** Nothing settled in one state of a run is undone in a later one. */
  lemma {:induction false} RunEvolves(run: seq<Db>, acts: seq<Action>, i: nat, k: nat)
    requires IsRun(run, acts) && i <= k < |run|
    ensures Evolves(run[i], run[k])
    decreases k
  {
    if i == k {
      FromRows(run[i], run[k]);
    } else {
      RunEvolves(run, acts, i, k - 1);
      RunStep(run, acts, k - 1);
      EvolvesTransitive(run[i], run[k - 1], run[k]);
    }
  }
}
