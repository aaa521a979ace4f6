/** The pin-aware dataset cache index: watermarks, least-recent use, and eviction plans. */
module CacheIndex {
  import opened Base
  import opened MapSum

  const MAX_U64: int := 0xffff_ffff_ffff_ffff

  datatype CacheError = Configuration | InvalidEntry | Missing | Pinned | Capacity

  datatype Cached<+T> = Good(value: T) | Bad(error: CacheError)

  datatype Entry = Entry(size: nat, pins: nat, lastUsed: int)

  datatype Index = Index(high: int, low: int, used: int, clock: int, entries: map<string, Entry>)

  function Sizes(entries: map<string, Entry>): map<string, nat>
  {
    map k | k in entries :: entries[k].size
  }

  /** Used bytes are the sum of the entries and stay below the high mark; each use has its own time. */
  ghost predicate Consistent(i: Index)
  {
    && 0 < i.low < i.high <= MAX_U64 && i.used == Sum(Sizes(i.entries)) && i.used <= i.high && 0 <= i.clock <= MAX_U64
    && (forall k {:trigger i.entries[k]} :: k in i.entries ==>
          ValidKey(k) && 1 <= i.entries[k].size && i.entries[k].pins <= MAX_U64 && 1 <= i.entries[k].lastUsed <= i.clock)
    && (forall k, l {:trigger i.entries[k], i.entries[l]} :: k in i.entries && l in i.entries && i.entries[k].lastUsed == i.entries[l].lastUsed ==> k == l)
  }

  predicate ValidKey(k: string)
  {
    1 <= |k| <= 128
  }

  // ------------------------------------------------------------- what operations do

  function InsertError(i: Index, k: string, size: int): Option<CacheError>
  {
    if !ValidKey(k) || size == 0 || k in i.entries then Some(InvalidEntry)
    else if i.used + size > MAX_U64 || i.used + size > i.high || i.clock + 1 > MAX_U64 then Some(Capacity)
    else None
  }

  function Inserted(i: Index, k: string, size: nat): Index
  {
    i.(used := i.used + size, clock := i.clock + 1, entries := i.entries[k := Entry(size, 0, i.clock + 1)])
  }

  function PinError(i: Index, k: string): Option<CacheError>
  {
    if k !in i.entries then Some(Missing)
    else if i.entries[k].pins + 1 > MAX_U64 || i.clock + 1 > MAX_U64 then Some(Capacity)
    else None
  }

  function PinnedOnce(i: Index, k: string): Index
    requires k in i.entries
  {
    i.(clock := i.clock + 1, entries := i.entries[k := i.entries[k].(pins := i.entries[k].pins + 1, lastUsed := i.clock + 1)])
  }

  function UnpinError(i: Index, k: string): Option<CacheError>
  {
    if k !in i.entries then Some(Missing) else if i.entries[k].pins == 0 then Some(InvalidEntry) else None
  }

  function Unpinned(i: Index, k: string): Index
    requires k in i.entries && i.entries[k].pins > 0
  {
    i.(entries := i.entries[k := i.entries[k].(pins := i.entries[k].pins - 1)])
  }

  function RemoveError(i: Index, k: string): Option<CacheError>
  {
    if k !in i.entries then Some(Missing) else if i.entries[k].pins != 0 then Some(Pinned) else None
  }

  function Removed(i: Index, k: string): Index
    requires k in i.entries
  {
    i.(used := i.used - i.entries[k].size, entries := i.entries - {k})
  }

  lemma InsertConsistent(i: Index, k: string, size: nat)
    requires Consistent(i) && InsertError(i, k, size).None?
    ensures Consistent(Inserted(i, k, size))
  {
    hide Sum;
    SumInsert(Sizes(i.entries), k, size);
    assert Sizes(Inserted(i, k, size).entries) == Sizes(i.entries)[k := size];
  }

  lemma PinConsistent(i: Index, k: string)
    requires Consistent(i) && PinError(i, k).None?
    ensures Consistent(PinnedOnce(i, k))
  {
    hide Sum;
    assert Sizes(PinnedOnce(i, k).entries) == Sizes(i.entries);
  }

  lemma UnpinConsistent(i: Index, k: string)
    requires Consistent(i) && UnpinError(i, k).None?
    ensures Consistent(Unpinned(i, k))
  {
    hide Sum;
    assert Sizes(Unpinned(i, k).entries) == Sizes(i.entries);
  }

  lemma RemoveConsistent(i: Index, k: string)
    requires Consistent(i) && k in i.entries
    ensures Consistent(Removed(i, k)) && i.entries[k].size <= i.used
  {
    hide Sum;
    SumRemove(Sizes(i.entries), k);
    assert Sizes(Removed(i, k).entries) == Sizes(i.entries) - {k};
  }

  // ------------------------------------------------------------------ eviction plans

  /** All unpinned entries, least recently used first. */
  ghost predicate LruOrder(entries: map<string, Entry>, order: seq<string>)
  {
    && (forall n :: 0 <= n < |order| ==> order[n] in entries && entries[order[n]].pins == 0)
    && (forall k :: k in entries && entries[k].pins == 0 ==> k in order)
    && (forall n, m :: 0 <= n < m < |order| ==> entries[order[n]].lastUsed < entries[order[m]].lastUsed)
  }

  function SizeOf(entries: map<string, Entry>, keys: seq<string>): nat
    requires forall n :: 0 <= n < |keys| ==> keys[n] in entries
  {
    if keys == [] then 0 else SizeOf(entries, keys[..|keys| - 1]) + entries[keys[|keys| - 1]].size
  }

  /** Bytes that would be used with the new entry in and these victims out. */
  function Projected(i: Index, incoming: nat, victims: seq<string>): int
    requires forall n :: 0 <= n < |victims| ==> victims[n] in i.entries
  {
    i.used + incoming - SizeOf(i.entries, victims)
  }

  /** The shortest least-recently-used prefix of the unpinned entries that reaches the low mark, or all
      of them; nothing when the new entry fits anyway. */
  ghost predicate ShortestPlan(i: Index, incoming: nat, victims: seq<string>, order: seq<string>)
  {
    && LruOrder(i.entries, order) && victims <= order
    && if i.used + incoming <= i.high then victims == []
       else
         && (victims == order || Projected(i, incoming, victims) <= i.low)
         && forall n :: 0 <= n < |victims| ==> Projected(i, incoming, victims[..n]) > i.low
  }

  lemma {:induction false} DistinctWithin(entries: map<string, Entry>, keys: seq<string>)
    requires forall n :: 0 <= n < |keys| ==> keys[n] in entries
    requires forall n, m :: 0 <= n < m < |keys| ==> keys[n] != keys[m]
    ensures SizeOf(entries, keys) <= Sum(Sizes(entries))
    decreases |keys|
  {
    if keys != [] {
      var n := |keys| - 1;
      var last, rest := keys[n], entries - {keys[n]};
      SumRemove(Sizes(entries), last);
      assert Sizes(entries) - {last} == Sizes(rest);
      assert forall m :: 0 <= m < n ==> keys[..n][m] == keys[m];
      DistinctWithin(rest, keys[..n]);
      SizeOfSame(entries, rest, keys[..n]);
    }
  }

  lemma {:induction false} SizeOfSame(a: map<string, Entry>, b: map<string, Entry>, keys: seq<string>)
    requires forall n :: 0 <= n < |keys| ==> keys[n] in a && keys[n] in b && a[keys[n]].size == b[keys[n]].size
    ensures SizeOf(a, keys) == SizeOf(b, keys)
  {
    if keys != [] { SizeOfSame(a, b, keys[..|keys| - 1]); }
  }

  /** A key that two orders do not share up to `n` comes no earlier in the other one. */
  lemma LruAfter(entries: map<string, Entry>, a: seq<string>, b: seq<string>, n: nat, p: nat)
    requires LruOrder(entries, a) && LruOrder(entries, b) && n < |a| && n < |b| && a[..n] == b[..n]
    requires p < |b| && b[p] == a[n]
    ensures n <= p && a[n] in entries && b[n] in entries && entries[b[n]].lastUsed <= entries[a[n]].lastUsed
    ensures entries[b[n]].lastUsed == entries[a[n]].lastUsed ==> a[n] == b[n]
  {
    forall m | 0 <= m < n ensures a[m] == b[m] { assert a[..n][m] == b[..n][m]; }
  }

  lemma LruMember(entries: map<string, Entry>, a: seq<string>, b: seq<string>, n: nat) returns (p: nat)
    requires LruOrder(entries, a) && LruOrder(entries, b) && n < |a|
    ensures p < |b| && b[p] == a[n]
  {
    assert a[n] in b;
    p :| 0 <= p < |b| && b[p] == a[n];
  }

  /** The least-recently-used order is unique, so the plan is determined by the index. */
  lemma {:induction false} LruUnique(entries: map<string, Entry>, a: seq<string>, b: seq<string>, n: nat)
    requires LruOrder(entries, a) && LruOrder(entries, b) && n <= |a| && n <= |b|
    ensures a[..n] == b[..n]
  {
    hide LruOrder;
    if n > 0 {
      LruUnique(entries, a, b, n - 1);
      var p := LruMember(entries, a, b, n - 1);
      var q := LruMember(entries, b, a, n - 1);
      LruAfter(entries, a, b, n - 1, p);
      LruAfter(entries, b, a, n - 1, q);
      assert a[..n] == a[..n - 1] + [a[n - 1]] && b[..n] == b[..n - 1] + [b[n - 1]];
    }
  }

  lemma LruReaches(entries: map<string, Entry>, a: seq<string>, b: seq<string>, n: nat)
    requires LruOrder(entries, a) && LruOrder(entries, b) && n < |a| && n <= |b| && a[..n] == b[..n]
    ensures n < |b|
  {
    var p := LruMember(entries, a, b, n);
    forall m | 0 <= m < n ensures a[m] == b[m] && a[m] != a[n] { assert a[..n][m] == b[..n][m]; }
  }

  /** So there is one order. */
  lemma LruOrderUnique(entries: map<string, Entry>, a: seq<string>, b: seq<string>)
    requires LruOrder(entries, a) && LruOrder(entries, b)
    ensures a == b
  {
    hide LruOrder;
    var n := if |a| <= |b| then |a| else |b|;
    LruUnique(entries, a, b, n);
    if n < |a| { LruReaches(entries, a, b, n); }
    if n < |b| { LruReaches(entries, b, a, n); }
    assert a[..|a|] == a && b[..|b|] == b;
  }

  /** And one plan: the index and the size of the new entry determine it. */
  lemma PlanUnique(i: Index, incoming: nat, v: seq<string>, a: seq<string>, w: seq<string>, b: seq<string>)
    requires ShortestPlan(i, incoming, v, a) && ShortestPlan(i, incoming, w, b)
    ensures v == w
  {
    LruOrderUnique(i.entries, a, b);
    assert v == a[..|v|] && w == a[..|w|];
    if i.used + incoming > i.high {
      if |v| < |w| { PlanGoesOn(i, incoming, w, a, |v|); }
      if |w| < |v| { PlanGoesOn(i, incoming, v, a, |w|); }
    }
  }

  lemma PlanGoesOn(i: Index, incoming: nat, w: seq<string>, order: seq<string>, n: nat)
    requires ShortestPlan(i, incoming, w, order) && i.used + incoming > i.high && n < |w|
    ensures (forall m :: 0 <= m < n ==> order[..n][m] in i.entries) && order[..n] != order && Projected(i, incoming, order[..n]) > i.low
  {
    assert w[..n] == order[..n];
  }

  class CacheIndex {
    const high: int
    const low: int
    var used: int
    var clock: int
    var entries: map<string, Entry>

    function Value(): Index
      reads this
    {
      Index(high, low, used, clock, entries)
    }

    ghost predicate Valid()
      reads this
    {
      Consistent(Value())
    }

    constructor (high: int, low: int)
      requires 0 < low < high <= MAX_U64
      ensures Valid() && Value() == Index(high, low, 0, 0, map[])
    {
      this.high, this.low := high, low;
      used, clock, entries := 0, 0, map[];
    }

    method Insert(key: string, size: nat) returns (r: Cached<()>)
      requires Valid()
      modifies this
      ensures Valid()
      ensures var error := InsertError(old(Value()), key, size);
              if error.Some? then r == Bad(error.value) && Value() == old(Value())
              else r == Good(()) && Value() == Inserted(old(Value()), key, size)
    {
      hide Consistent;
      if |key| == 0 || |key| > 128 || size == 0 || key in entries {
        return Bad(InvalidEntry);
      }
      if used + size > MAX_U64 || used + size > high {
        return Bad(Capacity);
      }
      if clock + 1 > MAX_U64 {
        return Bad(Capacity);
      }
      InsertConsistent(Value(), key, size);
      clock := clock + 1;
      entries := entries[key := Entry(size, 0, clock)];
      used := used + size;
      return Good(());
    }

    method Pin(key: string) returns (r: Cached<()>)
      requires Valid()
      modifies this
      ensures Valid()
      ensures var error := PinError(old(Value()), key);
              if error.Some? then r == Bad(error.value) && Value() == old(Value())
              else r == Good(()) && Value() == PinnedOnce(old(Value()), key)
    {
      hide Consistent;
      if key !in entries {
        return Bad(Missing);
      }
      if entries[key].pins + 1 > MAX_U64 || clock + 1 > MAX_U64 {
        return Bad(Capacity);
      }
      PinConsistent(Value(), key);
      entries := entries[key := entries[key].(pins := entries[key].pins + 1, lastUsed := clock + 1)];
      clock := clock + 1;
      return Good(());
    }

    method Unpin(key: string) returns (r: Cached<()>)
      requires Valid()
      modifies this
      ensures Valid()
      ensures var error := UnpinError(old(Value()), key);
              if error.Some? then r == Bad(error.value) && Value() == old(Value())
              else r == Good(()) && Value() == Unpinned(old(Value()), key)
    {
      hide Consistent;
      if key !in entries {
        return Bad(Missing);
      }
      if entries[key].pins == 0 {
        return Bad(InvalidEntry);
      }
      UnpinConsistent(Value(), key);
      entries := entries[key := entries[key].(pins := entries[key].pins - 1)];
      return Good(());
    }

    method Remove(key: string) returns (r: Cached<()>)
      requires Valid()
      modifies this
      ensures Valid()
      ensures var error := RemoveError(old(Value()), key);
              if error.Some? then r == Bad(error.value) && Value() == old(Value())
              else r == Good(()) && Value() == Removed(old(Value()), key)
    {
      hide Consistent;
      if key !in entries {
        return Bad(Missing);
      }
      if entries[key].pins != 0 {
        return Bad(Pinned);
      }
      RemoveConsistent(Value(), key);
      used := used - entries[key].size;
      entries := entries - {key};
      return Good(());
    }

    /** Where a key belongs among keys sorted by last use. */
    method SlotFor(order: seq<string>, k: string) returns (n: nat)
      requires k in entries && forall m :: 0 <= m < |order| ==> order[m] in entries
      ensures n <= |order| && (n > 0 ==> entries[order[n - 1]].lastUsed <= entries[k].lastUsed)
      ensures forall m :: n <= m < |order| ==> entries[k].lastUsed < entries[order[m]].lastUsed
    {
      n := |order|;
      while n > 0 && entries[order[n - 1]].lastUsed > entries[k].lastUsed
        invariant 0 <= n <= |order|
        invariant forall m :: n <= m < |order| ==> entries[k].lastUsed < entries[order[m]].lastUsed
      {
        n := n - 1;
      }
    }

    /** The unpinned keys, sorted by last use. */
    method Candidates() returns (order: seq<string>)
      requires Valid()
      ensures LruOrder(entries, order)
    {
      DistinctUses(Value());
      hide Consistent;
      order := [];
      var rest := set k | k in entries && entries[k].pins == 0;
      while rest != {}
        invariant forall k :: k in rest ==> k in entries && entries[k].pins == 0 && k !in order
        invariant forall k :: k in entries && entries[k].pins == 0 ==> k in order || k in rest
        invariant forall n :: 0 <= n < |order| ==> order[n] in entries && entries[order[n]].pins == 0
        invariant forall n, m :: 0 <= n < m < |order| ==> entries[order[n]].lastUsed < entries[order[m]].lastUsed
        decreases |rest|
      {
        var k :| k in rest;
        var n := SlotFor(order, k);
        OrderInsert(entries, order, k, n);
        order := order[..n] + [k] + order[n..];
        rest := rest - {k};
      }
    }

    /** plan_eviction: reads only. */
    method PlanEviction(incoming: nat) returns (r: Cached<seq<string>>, ghost order: seq<string>)
      requires Valid()
      ensures LruOrder(entries, order)
      ensures r.Good? ==> ShortestPlan(Value(), incoming, r.value, order) && Projected(Value(), incoming, r.value) <= high && 1 <= incoming
      ensures r.Bad? <==> incoming == 0 || incoming > high || used + incoming > MAX_U64 || Projected(Value(), incoming, order) > high
      ensures r.Bad? ==> r.error == Capacity
    {
      hide Consistent;
      hide LruOrder;
      hide SizeOf;
      hide ShortestPlan;
      var candidates := Candidates();
      order := candidates;
      PlanFits(Value(), candidates);
      if incoming == 0 || incoming > high {
        return Bad(Capacity), order;
      }
      if used + incoming > MAX_U64 {
        return Bad(Capacity), order;
      }
      var projected := used + incoming;
      if projected <= high {
        NoVictims(Value(), incoming, order);
        return Good([]), order;
      }
      var victims := [];
      var n := 0;
      SizeOfNone(entries);
      while n < |candidates| && projected > low
        invariant 0 <= n <= |candidates| && victims == candidates[..n]
        invariant projected == used + incoming - SizeOf(entries, victims)
        invariant forall m :: 0 <= m < n ==> used + incoming - SizeOf(entries, candidates[..m]) > low
      {
        SizeOfNext(entries, candidates, n);
        projected := projected - entries[candidates[n]].size;
        victims := victims + [candidates[n]];
        n := n + 1;
      }
      assert candidates[..|candidates|] == candidates;
      PrefixSmaller(entries, candidates, n);
      PlanIsShortest(Value(), incoming, candidates, n);
      if projected > high {
        return Bad(Capacity), order;
      }
      return Good(victims), order;
    }
  }

  /** CacheIndex::new: the low mark is positive and below the high mark, or there is no index. */
  method NewIndex(high: nat, low: nat) returns (r: Cached<CacheIndex>)
    requires high <= MAX_U64
    ensures r.Good? <==> 0 < low < high
    ensures r.Good? ==> fresh(r.value) && r.value.Valid() && r.value.Value() == Index(high, low, 0, 0, map[])
    ensures r.Bad? ==> r.error == Configuration
  {
    if low == 0 || high <= low {
      return Bad(Configuration);
    }
    var index := new CacheIndex(high, low);
    return Good(index);
  }

  lemma DistinctUses(i: Index)
    requires Consistent(i)
    ensures forall x, y :: x in i.entries && y in i.entries && i.entries[x].lastUsed == i.entries[y].lastUsed ==> x == y
  {
  }

  lemma PlanFits(i: Index, order: seq<string>)
    requires Consistent(i) && LruOrder(i.entries, order)
    ensures forall n :: 0 <= n < |order| ==> order[n] in i.entries
    ensures 0 <= SizeOf(i.entries, order) <= i.used && i.low < i.high
  {
    OrderDistinct(i.entries, order);
    DistinctWithin(i.entries, order);
  }

  lemma SizeOfNone(entries: map<string, Entry>)
    ensures SizeOf(entries, []) == 0
  {
  }

  lemma SizeOfNext(entries: map<string, Entry>, keys: seq<string>, n: nat)
    requires n < |keys| && forall m :: 0 <= m < |keys| ==> keys[m] in entries
    ensures keys[..n + 1] == keys[..n] + [keys[n]] && SizeOf(entries, keys[..n + 1]) == SizeOf(entries, keys[..n]) + entries[keys[n]].size
  {
    assert keys[..n + 1][..n] == keys[..n];
  }

  lemma NoVictims(i: Index, incoming: nat, order: seq<string>)
    requires LruOrder(i.entries, order) && i.used + incoming <= i.high
    ensures ShortestPlan(i, incoming, [], order) && Projected(i, incoming, []) == i.used + incoming
  {
    hide LruOrder;
  }

  lemma PlanIsShortest(i: Index, incoming: nat, order: seq<string>, n: nat)
    requires LruOrder(i.entries, order) && n <= |order| && i.used + incoming > i.high
    requires n == |order| || i.used + incoming - SizeOf(i.entries, order[..n]) <= i.low
    requires forall m :: 0 <= m < n ==> i.used + incoming - SizeOf(i.entries, order[..m]) > i.low
    ensures ShortestPlan(i, incoming, order[..n], order)
  {
    var victims := order[..n];
    forall m | 0 <= m < |victims| ensures Projected(i, incoming, victims[..m]) > i.low { assert victims[..m] == order[..m]; }
    if n == |order| { assert victims == order; }
  }

  lemma OrderDistinct(entries: map<string, Entry>, order: seq<string>)
    requires LruOrder(entries, order)
    ensures forall n, m :: 0 <= n < m < |order| ==> order[n] != order[m]
  {
  }

  lemma {:induction false} PrefixSmaller(entries: map<string, Entry>, keys: seq<string>, n: nat)
    requires n <= |keys| && forall m :: 0 <= m < |keys| ==> keys[m] in entries
    ensures SizeOf(entries, keys[..n]) <= SizeOf(entries, keys)
    decreases |keys|
  {
    if n < |keys| {
      var last := |keys| - 1;
      PrefixSmaller(entries, keys[..last], n);
      assert keys[..last][..n] == keys[..n];
    } else {
      assert keys[..n] == keys;
    }
  }

  lemma OrderInsert(entries: map<string, Entry>, order: seq<string>, k: string, n: nat)
    requires n <= |order| && k in entries && k !in order && forall m :: 0 <= m < |order| ==> order[m] in entries
    requires forall x, y :: x in entries && y in entries && entries[x].lastUsed == entries[y].lastUsed ==> x == y
    requires forall a, b :: 0 <= a < b < |order| ==> entries[order[a]].lastUsed < entries[order[b]].lastUsed
    requires n > 0 ==> entries[order[n - 1]].lastUsed <= entries[k].lastUsed
    requires forall m :: n <= m < |order| ==> entries[k].lastUsed < entries[order[m]].lastUsed
    ensures var r := order[..n] + [k] + order[n..];
            && (forall m :: 0 <= m < |r| ==> r[m] == k || r[m] in order) && (forall x :: x in order ==> x in r) && k in r
            && (forall m :: 0 <= m < |r| ==> r[m] in entries)
            && forall a, b :: 0 <= a < b < |r| ==> entries[r[a]].lastUsed < entries[r[b]].lastUsed
  {
    var r := order[..n] + [k] + order[n..];
    SplicedHas(order, k, n, r);
    forall a, b | 0 <= a < b < |r| ensures entries[r[a]].lastUsed < entries[r[b]].lastUsed {
      SplicedIs(order, k, n, a, r);
      SplicedIs(order, k, n, b, r);
      SplicedRises(entries, order, k, n, a, b);
    }
  }

  lemma SplicedIs(order: seq<string>, k: string, n: nat, m: nat, r: seq<string>)
    requires n <= |order| && r == order[..n] + [k] + order[n..] && m < |r|
    ensures r[m] == Spliced(order, k, n, m)
  {
  }

  lemma SplicedHas(order: seq<string>, k: string, n: nat, r: seq<string>)
    requires n <= |order| && r == order[..n] + [k] + order[n..]
    ensures (forall m :: 0 <= m < |r| ==> r[m] == k || r[m] in order) && (forall x :: x in order ==> x in r) && k in r
  {
    SplicedIs(order, k, n, n, r);
    forall m | 0 <= m < |r| ensures r[m] == k || r[m] in order { SplicedIs(order, k, n, m, r); }
    forall x | x in order ensures x in r {
      var m :| 0 <= m < |order| && order[m] == x;
      SplicedIs(order, k, n, if m < n then m else m + 1, r);
    }
  }

  function Spliced(order: seq<string>, k: string, n: nat, m: nat): string
    requires n <= |order| && m <= |order|
  {
    if m < n then order[m] else if m == n then k else order[m - 1]
  }

  lemma SplicedRises(entries: map<string, Entry>, order: seq<string>, k: string, n: nat, a: nat, b: nat)
    requires n <= |order| && a < b <= |order| && k in entries && k !in order && forall m :: 0 <= m < |order| ==> order[m] in entries
    requires forall x, y :: x in entries && y in entries && entries[x].lastUsed == entries[y].lastUsed ==> x == y
    requires forall i, j :: 0 <= i < j < |order| ==> entries[order[i]].lastUsed < entries[order[j]].lastUsed
    requires n > 0 ==> entries[order[n - 1]].lastUsed <= entries[k].lastUsed
    requires forall m :: n <= m < |order| ==> entries[k].lastUsed < entries[order[m]].lastUsed
    ensures entries[Spliced(order, k, n, a)].lastUsed < entries[Spliced(order, k, n, b)].lastUsed
  {
    assert b == n ==> order[n - 1] in order && (a < n - 1 ==> entries[order[a]].lastUsed < entries[order[n - 1]].lastUsed);
  }
}
