/** Sums of resource vectors over a finite table, as SQL's sum() and count() compute them. */
module Totals {

  /** Resources held by rows, with the number of rows as the slot count. */
  datatype Load = Load(cpu: nat, memory: nat, scratch: nat, slots: nat)

  const NOTHING := Load(0, 0, 0, 0)

  function Plus(a: Load, b: Load): Load
  {
    Load(a.cpu + b.cpu, a.memory + b.memory, a.scratch + b.scratch, a.slots + b.slots)
  }

  predicate Within(a: Load, b: Load)
  {
    a.cpu <= b.cpu && a.memory <= b.memory && a.scratch <= b.scratch && a.slots <= b.slots
  }

  ghost function Total(rows: map<nat, Load>): Load
  {
    if rows == map[] then NOTHING
    else
      var k :| k in rows;
      Plus(rows[k], Total(rows - {k}))
  }

  /** The sum does not depend on the order in which rows are visited. */
  lemma {:induction false} TotalRemove(rows: map<nat, Load>, k: nat)
    requires k in rows
    ensures Total(rows) == Plus(rows[k], Total(rows - {k}))
    decreases |rows|
  {
    var p :| p in rows && Total(rows) == Plus(rows[p], Total(rows - {p}));
    if p != k {
      var rest := rows - {p} - {k};
      TotalRemove(rows - {p}, k);
      TotalRemove(rows - {k}, p);
      assert rows - {k} - {p} == rest;
      assert Total(rows) == Plus(rows[p], Plus(rows[k], Total(rest)));
      assert Total(rows - {k}) == Plus(rows[p], Total(rest));
    }
  }

  lemma TotalInsert(rows: map<nat, Load>, k: nat, l: Load)
    requires k !in rows
    ensures Total(rows[k := l]) == Plus(l, Total(rows))
  {
    TotalRemove(rows[k := l], k);
    assert rows[k := l] - {k} == rows;
  }

  /** Dropping rows never raises a sum. */
  lemma {:induction false} TotalSubset(part: map<nat, Load>, whole: map<nat, Load>)
    requires forall k :: k in part ==> k in whole && whole[k] == part[k]
    ensures Within(Total(part), Total(whole))
    decreases |part|
  {
    if part != map[] {
      var k :| k in part;
      TotalRemove(part, k);
      TotalRemove(whole, k);
      TotalSubset(part - {k}, whole - {k});
    }
  }
}
