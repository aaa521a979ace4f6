/** Preparing datasets while pins are dropped: plan, evict, download, insert, with releases in between. */
module CacheStore {
  import opened MapSum
  import opened CacheIndex

  /** Where the one prepare call that holds the operation lock stands. */
  datatype Phase =
    | Idle
    | Evicting(key: string, size: nat, victims: seq<string>)
    | Deleted(key: string, size: nat, victims: seq<string>)
    | Fetching(key: string, size: nat)

  /** The index, the trees on disk, and the pins that callers hold (a multiset of keys). */
  datatype Store = Store(index: Index, trees: set<string>, pins: multiset<string>, phase: Phase, poisoned: bool)

  datatype Event =
    | Hit(key: string)
    | Plan(key: string, size: nat, victims: seq<string>, order: seq<string>)
    | DeleteTree(ok: bool)
    | RemoveVictim
    | StartFetch
    | Fetched(cleaned: bool)
    | FetchFailed(cleaned: bool)
    | Abandoned(stray: bool)
    | DropPin(key: string)

  ghost predicate Steps(s: Store, e: Event, t: Store)
  {
    match e
    // A cache hit pins the entry at once; a missing tree poisons the store.
    case Hit(k) =>
      && s.phase.Idle? && !s.poisoned && k in s.index.entries
      && t == if k !in s.trees then s.(poisoned := true)
              else if PinError(s.index, k).Some? then s
              else s.(index := PinnedOnce(s.index, k), pins := s.pins + multiset{k})
    // A miss plans its victims under the index lock.
    case Plan(k, size, victims, order) =>
      && s.phase.Idle? && !s.poisoned && k !in s.index.entries && ValidKey(k) && 1 <= size
      && ShortestPlan(s.index, size, victims, order) && Projected(s.index, size, victims) <= s.index.high
      && t == s.(phase := Evicting(k, size, victims))
    // Each victim's tree is deleted before its entry is removed.
    case DeleteTree(ok) =>
      && s.phase.Evicting? && s.phase.victims != []
      && t == if ok then s.(trees := s.trees - {s.phase.victims[0]}, phase := Deleted(s.phase.key, s.phase.size, s.phase.victims))
              else s.(poisoned := true, phase := Idle)
    case RemoveVictim =>
      && s.phase.Deleted? && s.phase.victims != []
      && t == if RemoveError(s.index, s.phase.victims[0]).None?
              then s.(index := Removed(s.index, s.phase.victims[0]), phase := Evicting(s.phase.key, s.phase.size, s.phase.victims[1..]))
              else s.(phase := Idle)
    case StartFetch =>
      s.phase.Evicting? && s.phase.victims == [] && t == s.(phase := Fetching(s.phase.key, s.phase.size))
    // Insert and pin under one lock; on failure the entry and its tree are taken back.
    case Fetched(cleaned) =>
      && s.phase.Fetching?
      && t == if InsertError(s.index, s.phase.key, s.phase.size).Some? then s.(phase := Idle, poisoned := s.poisoned || !cleaned)
              else
                var inserted := Inserted(s.index, s.phase.key, s.phase.size);
                if PinError(inserted, s.phase.key).Some?
                then s.(index := Removed(inserted, s.phase.key), phase := Idle, poisoned := s.poisoned || !cleaned)
                else s.(index := PinnedOnce(inserted, s.phase.key), trees := s.trees + {s.phase.key},
                        pins := s.pins + multiset{s.phase.key}, phase := Idle)
    case FetchFailed(cleaned) => s.phase.Fetching? && t == s.(phase := Idle, poisoned := s.poisoned || !cleaned)
    // The call is dropped during its download: whatever tree it made stays behind, outside the index.
    case Abandoned(stray) =>
      s.phase.Fetching? && t == s.(phase := Idle, trees := if stray then s.trees + {s.phase.key} else s.trees)
    // A pin may be dropped at any moment.
    case DropPin(k) =>
      && k in s.pins
      && t == s.(index := if UnpinError(s.index, k).None? then Unpinned(s.index, k) else s.index, pins := s.pins - multiset{k})
  }

  // ------------------------------------------------------------------------ invariant

  ghost predicate PinsMatch(s: Store)
  {
    && (forall k {:trigger s.pins[k]} :: s.pins[k] > 0 ==> k in s.index.entries)
    && (forall k {:trigger s.index.entries[k]} :: k in s.index.entries ==> s.index.entries[k].pins == s.pins[k])
  }

  /** The remaining victims are distinct, unpinned, and enough. */
  ghost predicate PlanHolds(i: Index, key: string, size: nat, victims: seq<string>)
  {
    && ValidKey(key) && 1 <= size && key !in i.entries
    && (forall n :: 0 <= n < |victims| ==> victims[n] in i.entries && i.entries[victims[n]].pins == 0)
    && (forall n, m :: 0 <= n < m < |victims| ==> victims[n] != victims[m])
    && i.used + size - SizeOf(i.entries, victims) <= i.high
  }

  ghost predicate PhaseOk(s: Store)
  {
    match s.phase
    case Idle => true
    case Evicting(k, size, victims) => PlanHolds(s.index, k, size, victims)
    case Deleted(k, size, victims) => victims != [] && PlanHolds(s.index, k, size, victims)
    case Fetching(k, size) => PlanHolds(s.index, k, size, [])
  }

  /** Every entry has its tree, except a victim between the two halves of its eviction. */
  ghost predicate TreesOk(s: Store)
  {
    forall k {:trigger k in s.trees} {:trigger s.index.entries[k]} :: k in s.index.entries ==>
      k in s.trees || (s.phase.Deleted? && s.phase.victims != [] && k == s.phase.victims[0])
  }

  ghost predicate Sound(s: Store)
  {
    && Consistent(s.index) && PinsMatch(s) && PhaseOk(s) && (!s.poisoned ==> TreesOk(s))
  }

  lemma {:induction false} SizeOfSplit(entries: map<string, Entry>, keys: seq<string>)
    requires keys != [] && forall n :: 0 <= n < |keys| ==> keys[n] in entries
    ensures SizeOf(entries, keys) == entries[keys[0]].size + SizeOf(entries, keys[1..])
    decreases |keys|
  {
    if |keys| > 1 {
      var last := |keys| - 1;
      SizeOfSplit(entries, keys[..last]);
      assert keys[..last][1..] == keys[1..][..last - 1] && keys[1..][last - 1] == keys[last] && keys[..last][0] == keys[0];
    } else {
      assert keys[..0] == [] && keys[1..] == [];
    }
  }

  lemma PlanIsSound(i: Index, k: string, size: nat, victims: seq<string>, order: seq<string>)
    requires ValidKey(k) && 1 <= size && k !in i.entries && ShortestPlan(i, size, victims, order) && Projected(i, size, victims) <= i.high
    ensures PlanHolds(i, k, size, victims)
  {
    OrderDistinct(i.entries, order);
    forall n | 0 <= n < |victims| ensures victims[n] == order[n] { }
  }

  /** Removing the first victim succeeds and leaves a sound plan for the rest. */
  lemma EvictionProceeds(i: Index, k: string, size: nat, victims: seq<string>)
    requires Consistent(i) && PlanHolds(i, k, size, victims) && victims != []
    ensures RemoveError(i, victims[0]).None?
    ensures PlanHolds(Removed(i, victims[0]), k, size, victims[1..])
  {
    hide Consistent;
    var d := Removed(i, victims[0]);
    forall n | 0 <= n < |victims[1..]| ensures victims[1..][n] in d.entries && d.entries[victims[1..][n]] == i.entries[victims[1..][n]] {
      assert victims[1..][n] == victims[n + 1];
    }
    SizeOfSplit(i.entries, victims);
    SizeOfSame(i.entries, d.entries, victims[1..]);
  }

  /** After the evictions and the download, the dataset ends up in the cache, pinned, exactly when the use
      counter has two steps left: one for the insert and one for the pin. Otherwise nothing is kept. */
  lemma FetchedExactly(s: Store, cleaned: bool, t: Store)
    requires Sound(s) && Steps(s, Fetched(cleaned), t)
    ensures s.phase.key in t.index.entries <==> s.index.clock + 2 <= MAX_U64
    ensures s.phase.key in t.index.entries ==> t.pins[s.phase.key] == 1 && s.phase.key in t.trees && t.poisoned == s.poisoned
    ensures s.phase.key !in t.index.entries ==> t.index.entries == s.index.entries && t.index.used == s.index.used && t.pins == s.pins
  {
    assert SizeOf(s.index.entries, []) == 0;
    hide SizeOf;
    hide Sum;
    var k, size := s.phase.key, s.phase.size;
    assert s.pins[k] == 0;
    assert Removed(Inserted(s.index, k, size), k).entries == s.index.entries;
  }

  /** Dropping a pin never touches a planned victim. */
  lemma UnpinKeepsPlan(i: Index, k: string, size: nat, victims: seq<string>, pin: string)
    requires PlanHolds(i, k, size, victims) && pin in i.entries && i.entries[pin].pins > 0
    ensures PlanHolds(Unpinned(i, pin), k, size, victims)
  {
    SizeOfSame(i.entries, Unpinned(i, pin).entries, victims);
  }

  lemma DropKeepsSound(s: Store, k: string, t: Store)
    requires Sound(s) && Steps(s, DropPin(k), t)
    ensures Sound(t) && UnpinError(s.index, k).None?
  {
    hide Consistent;
    hide SizeOf;
    UnpinConsistent(s.index, k);
    match s.phase {
      case Idle =>
      case Evicting(key, size, victims) => UnpinKeepsPlan(s.index, key, size, victims, k);
      case Deleted(key, size, victims) => UnpinKeepsPlan(s.index, key, size, victims, k);
      case Fetching(key, size) => UnpinKeepsPlan(s.index, key, size, [], k);
    }
  }

  lemma FetchedKeepsSound(s: Store, cleaned: bool, t: Store)
    requires Sound(s) && Steps(s, Fetched(cleaned), t)
    ensures Sound(t)
  {
    hide Consistent;
    hide SizeOf;
    var k, size := s.phase.key, s.phase.size;
    if InsertError(s.index, k, size).None? {
      var inserted := Inserted(s.index, k, size);
      InsertConsistent(s.index, k, size);
      if PinError(inserted, k).None? { PinConsistent(inserted, k); } else { RemoveConsistent(inserted, k); }
    }
  }

  lemma HitKeepsSound(s: Store, k: string, t: Store)
    requires Sound(s) && Steps(s, Hit(k), t)
    ensures Sound(t)
  {
    hide Consistent;
    if PinError(s.index, k).None? { PinConsistent(s.index, k); }
  }

  lemma EvictKeepsSound(s: Store, e: Event, t: Store)
    requires Sound(s) && Steps(s, e, t) && (e.DeleteTree? || e.RemoveVictim?)
    ensures Sound(t) && (e.RemoveVictim? ==> RemoveError(s.index, s.phase.victims[0]).None?)
  {
    hide Consistent;
    hide SizeOf;
    EvictionProceeds(s.index, s.phase.key, s.phase.size, s.phase.victims);
    RemoveConsistent(s.index, s.phase.victims[0]);
  }

  lemma StepKeepsSound(s: Store, e: Event, t: Store)
    requires Sound(s) && Steps(s, e, t)
    ensures Sound(t)
  {
    match e {
      case Hit(k) => HitKeepsSound(s, k, t);
      case Plan(k, size, victims, order) => PlanIsSound(s.index, k, size, victims, order);
      case DeleteTree(ok) => EvictKeepsSound(s, e, t);
      case RemoveVictim => EvictKeepsSound(s, e, t);
      case StartFetch =>
      case Fetched(cleaned) => FetchedKeepsSound(s, cleaned, t);
      case FetchFailed(cleaned) =>
      case Abandoned(stray) =>
      case DropPin(k) => DropKeepsSound(s, k, t);
    }
  }

  // ----------------------------------------------------------------------------- runs

  ghost predicate StoreRun(run: seq<Store>, events: seq<Event>)
  {
    && |run| == |events| + 1
    && run[0] == Store(run[0].index, {}, multiset{}, Idle, false) && run[0].index.entries == map[] && run[0].index.used == 0
    && run[0].index.clock == 0 && 0 < run[0].index.low < run[0].index.high <= MAX_U64
    && forall i {:trigger events[i]} :: 0 <= i < |events| ==> Steps(run[i], events[i], run[i + 1])
  }

  lemma {:induction false} RunSound(run: seq<Store>, events: seq<Event>, i: nat)
    requires StoreRun(run, events) && i < |run|
    ensures Sound(run[i])
    decreases i
  {
    if i == 0 {
      assert Sizes(run[0].index.entries) == map[];
    } else {
      RunSound(run, events, i - 1);
      var e := events[i - 1];
      StepKeepsSound(run[i - 1], e, run[i]);
    }
  }

  /** With pins dropped anywhere: the index never exceeds its high mark, removing a victim never meets a
      pin, no tree that is pinned is ever deleted, a hit never misses its tree, and a download is kept
      exactly while the use counter has two steps left. */
  lemma PreparationIsSafe(run: seq<Store>, events: seq<Event>, i: nat)
    requires StoreRun(run, events) && i < |events|
    ensures run[i].index.used == Sum(Sizes(run[i].index.entries)) && run[i].index.used <= run[i].index.high
    ensures events[i].RemoveVictim? ==> RemoveError(run[i].index, run[i].phase.victims[0]).None?
    ensures events[i].Fetched? ==> (run[i].phase.key in run[i + 1].index.entries <==> run[i].index.clock + 2 <= MAX_U64)
    ensures events[i].DeleteTree? ==> run[i].phase.victims[0] !in run[i].pins
    ensures events[i].DropPin? ==> UnpinError(run[i].index, events[i].key).None?
    ensures events[i].Hit? ==> events[i].key in run[i].trees && !run[i + 1].poisoned
    ensures !run[i].poisoned ==> forall k :: k in run[i].pins ==> k in run[i].trees
  {
    RunSound(run, events, i);
    var s, e := run[i], events[i];
    if e.RemoveVictim? { EvictKeepsSound(s, e, run[i + 1]); }
    if e.Fetched? { FetchedExactly(s, e.cleaned, run[i + 1]); }
    if e.DropPin? { DropKeepsSound(s, e.key, run[i + 1]); }
    forall k | k in s.pins && !s.poisoned ensures k in s.trees { assert s.pins[k] > 0; }
  }

  // -------------------------------------------------- a run that ends the use counter

  lemma OneEvent(run: seq<Store>, events: seq<Event>, e: Event, t: Store) returns (run': seq<Store>, events': seq<Event>)
    requires StoreRun(run, events) && Steps(run[|run| - 1], e, t)
    ensures StoreRun(run', events') && |run'| == |run| + 1 && |events'| == |events| + 1
    ensures run'[|run'| - 1] == t && run'[|run'| - 2] == run[|run| - 1] && events'[|events'| - 1] == e
  {
    hide Steps;
    run', events' := run + [t], events + [e];
    forall i {:trigger events'[i]} | 0 <= i < |events'| ensures Steps(run'[i], events'[i], run'[i + 1]) {
      if i < |events| { assert events'[i] == events[i] && run'[i] == run[i] && run'[i + 1] == run[i + 1]; }
    }
  }

  /** One unpinned entry of size 1, last used when the counter stood at `c`. */
  function Holding(high: nat, low: nat, k: string, c: nat, pins: nat): Store
  {
    Store(Index(high, low, 1, c, map[k := Entry(1, pins, c)]), {k}, if pins == 0 then multiset{} else multiset{k}, Idle, false)
  }

  lemma FirstEntry(high: nat, low: nat, k: string) returns (run: seq<Store>, events: seq<Event>)
    requires 0 < low < high <= MAX_U64 && ValidKey(k)
    ensures StoreRun(run, events) && run[|run| - 1] == Holding(high, low, k, 2, 0)
  {
    var s := Store(Index(high, low, 0, 0, map[]), {}, multiset{}, Idle, false);
    run, events := [s], [];
    assert ShortestPlan(s.index, 1, [], []);
    assert StoreRun(run, events);
    hide StoreRun;
    run, events := OneEvent(run, events, Plan(k, 1, [], []), s.(phase := Evicting(k, 1, [])));
    run, events := OneEvent(run, events, StartFetch, s.(phase := Fetching(k, 1)));
    run, events := OneEvent(run, events, Fetched(true), Holding(high, low, k, 2, 1));
    run, events := OneEvent(run, events, DropPin(k), Holding(high, low, k, 2, 0));
  }

  /** Hits use the counter up to any value. */
  lemma {:induction false} ToClock(high: nat, low: nat, k: string, c: nat) returns (run: seq<Store>, events: seq<Event>)
    requires 0 < low < high <= MAX_U64 && ValidKey(k) && 2 <= c <= MAX_U64
    ensures StoreRun(run, events) && run[|run| - 1] == Holding(high, low, k, c, 0)
  {
    hide StoreRun;
    if c == 2 {
      run, events := FirstEntry(high, low, k);
    } else {
      run, events := ToClock(high, low, k, c - 1);
      run, events := OneEvent(run, events, Hit(k), Holding(high, low, k, c, 1));
      run, events := OneEvent(run, events, DropPin(k), Holding(high, low, k, c, 0));
    }
  }

  /** One step before the end of the counter the insert is admitted, but the pin is not: a valid dataset
      that fits is downloaded and thrown away. */
  lemma LastUseRefused(high: nat, low: nat, k: string, other: string) returns (run: seq<Store>, events: seq<Event>)
    requires 1 < low < high <= MAX_U64 && ValidKey(k) && ValidKey(other) && k != other
    ensures StoreRun(run, events) && 2 <= |run| && events[|events| - 1] == Fetched(true)
    ensures var s, t := run[|run| - 2], run[|run| - 1];
            && s.phase == Fetching(other, 1) && InsertError(s.index, other, 1).None? && other !in t.index.entries
  {
    hide StoreRun;
    var c := MAX_U64 - 1;
    run, events := ToClock(high, low, k, c);
    var s := Holding(high, low, k, c, 0);
    assert LruOrder(s.index.entries, [k]);
    assert ShortestPlan(s.index, 1, [], [k]);
    run, events := OneEvent(run, events, Plan(other, 1, [], [k]), s.(phase := Evicting(other, 1, [])));
    run, events := OneEvent(run, events, StartFetch, s.(phase := Fetching(other, 1)));
    var inserted := Inserted(s.index, other, 1);
    var t := s.(index := Removed(inserted, other));
    assert t.index.entries == s.index.entries;
    run, events := OneEvent(run, events, Fetched(true), t);
  }
}
