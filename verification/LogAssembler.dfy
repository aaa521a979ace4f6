/** The assembler: captured chunks become contiguous stored segments, whatever is dropped on the way. */
module LogAssembler {
  import opened Base
  import opened LogFormat
  import opened LogRange
  import opened LogWriter
  import opened LogTiles
  import LogSpool

  /** One value for each of the two streams. */
  datatype Two<+T> = Two(stdout: T, stderr: T) {
    function At(s: Stream): T { if s.Stdout? then stdout else stderr }
  }

  function Put<T>(t: Two<T>, s: Stream, v: T): (r: Two<T>)
    ensures r.At(s) == v && forall o :: o != s ==> r.At(o) == t.At(o)
  {
    if s.Stdout? then t.(stdout := v) else t.(stderr := v)
  }

  datatype AssembleError = Refused | Format(format: FormatError) | Spool(spool: LogSpool.SpoolError)

  /** A stored segment that waits for upload and registration. */
  datatype Pending = Pending(name: LogSpool.Name, size: nat, gaps: seq<Gap>)

  function PendingOf(s: Sealed): Pending
  {
    Pending(LogSpool.NameOf(s), |s.bytes|, s.gaps)
  }

  /** The pending segments of one stream, in queue order. */
  function Mine(pending: seq<Pending>, s: Stream): seq<Pending>
  {
    if pending == [] then []
    else (if pending[0].name.stream == s then [pending[0]] else []) + Mine(pending[1..], s)
  }

  lemma {:induction false} MineAppend(pending: seq<Pending>, p: Pending, s: Stream)
    ensures Mine(pending + [p], s) == Mine(pending, s) + if p.name.stream == s then [p] else []
  {
    if pending != [] {
      MineAppend(pending[1..], p, s);
      assert (pending + [p])[1..] == pending[1..] + [p];
    }
  }

  function Waiting(tiles: seq<Tile>, acked: nat): seq<Pending>
    requires acked <= |tiles|
  {
    seq(|tiles| - acked, i requires 0 <= i < |tiles| - acked => PendingOf(tiles[acked + i].sealed))
  }

  // ------------------------------------------------------------------ value invariants

  /** What is stored of a stream tiles its beginning, and holds only records that were ingested. */
  ghost predicate Progress(attempt: Bytes, s: Stream, lastSeen: int, lastStored: int, tiles: seq<Tile>, seen: set<Record>)
  {
    && 0 <= lastStored <= lastSeen <= MAX_I64 && Tiling(tiles, attempt, s) && LastOf(tiles) == lastStored
    && forall i, r :: 0 <= i < |tiles| && r in tiles[i].records ==> r in seen
  }

  /** The open segment continues right after the stored part. */
  ghost predicate Continues(first: int, records: seq<Record>, lastSeen: int, lastStored: int, seen: set<Record>)
  {
    first == lastStored + 1 && NextExpected(first, records) <= lastSeen + 1 && forall r :: r in records ==> r in seen
  }

  /** The queue lists the spool's entries, each stream's in the order of their numbers. */
  ghost predicate Queue(pending: seq<Pending>, entries: map<LogSpool.Name, nat>, lastStored: Two<int>)
  {
    && (forall i :: 0 <= i < |pending| ==> pending[i].name in entries && entries[pending[i].name] == pending[i].size)
    && InOrder(pending) && (forall name {:trigger name in entries} :: name in entries ==> Listed(pending, name))
    && (forall name {:trigger name in entries} :: name in entries ==> name.first <= name.last <= lastStored.At(name.stream))
  }

  ghost predicate Listed(pending: seq<Pending>, name: LogSpool.Name)
  {
    exists i :: 0 <= i < |pending| && pending[i].name == name
  }

  ghost predicate InOrder(pending: seq<Pending>)
  {
    forall i, k :: 0 <= i < k < |pending| && pending[i].name.stream == pending[k].name.stream ==> pending[i].name.last < pending[k].name.first
  }

  lemma StoreQueues(pending: seq<Pending>, entries: map<LogSpool.Name, nat>, lastStored: Two<int>, p: Pending, more: map<LogSpool.Name, nat>, after: Two<int>)
    requires Queue(pending, entries, lastStored) && p.name.first == lastStored.At(p.name.stream) + 1 && p.name.first <= p.name.last
    requires more == entries[p.name := p.size] && after == Put(lastStored, p.name.stream, p.name.last)
    ensures p.name !in entries && Queue(pending + [p], more, after)
  {
    var longer := pending + [p];
    forall i | 0 <= i < |pending| ensures longer[i] == pending[i] && pending[i].name in entries { }
    StoreOrders(pending, lastStored, p);
    hide InOrder;
    forall name | name in more ensures Listed(longer, name) {
      if name == p.name { assert longer[|pending|].name == name; } else { ListedMore(pending, p, name); }
    }
  }

  lemma StoreOrders(pending: seq<Pending>, lastStored: Two<int>, p: Pending)
    requires InOrder(pending) && p.name.first == lastStored.At(p.name.stream) + 1
    requires forall i :: 0 <= i < |pending| ==> pending[i].name.last <= lastStored.At(pending[i].name.stream)
    ensures InOrder(pending + [p])
  {
  }

  lemma ListedMore(pending: seq<Pending>, p: Pending, name: LogSpool.Name)
    requires Listed(pending, name)
    ensures Listed(pending + [p], name)
  {
    var i :| 0 <= i < |pending| && pending[i].name == name;
    assert (pending + [p])[i].name == name;
  }

  lemma StoreProgresses(attempt: Bytes, s: Stream, lastSeen: int, lastStored: int, tiles: seq<Tile>, seen: set<Record>, t: Tile)
    requires Progress(attempt, s, lastSeen, lastStored, tiles, seen) && TileOk(t, attempt, s)
    requires Continues(t.sealed.first, t.records, lastSeen, lastStored, seen)
    ensures Progress(attempt, s, lastSeen, t.sealed.last, tiles + [t], seen)
  {
    TilingAppend(tiles, t, attempt, s);
    var more := tiles + [t];
    forall i, r | 0 <= i < |more| && r in more[i].records ensures r in seen { if i < |tiles| { assert r in tiles[i].records; } }
  }

  lemma WaitingAppend(tiles: seq<Tile>, acked: nat, t: Tile)
    requires acked <= |tiles|
    ensures Waiting(tiles + [t], acked) == Waiting(tiles, acked) + [PendingOf(t.sealed)]
  {
  }

  /** One stream's bookkeeping. */
  ghost predicate StreamOk(attempt: Bytes, s: Stream, lastSeen: int, lastStored: int, tiles: seq<Tile>, seen: set<Record>, acked: nat, pending: seq<Pending>)
  {
    && Progress(attempt, s, lastSeen, lastStored, tiles, seen)
    && acked <= |tiles| && Mine(pending, s) == Waiting(tiles, acked)
  }

  lemma StoreKeepsStream(
    attempt: Bytes, s: Stream, lastSeen: int, lastStored: int, tiles: seq<Tile>, seen: set<Record>, acked: nat, pending: seq<Pending>, t: Tile)
    requires StreamOk(attempt, s, lastSeen, lastStored, tiles, seen, acked, pending) && TileOk(t, attempt, s)
    requires Continues(t.sealed.first, t.records, lastSeen, lastStored, seen)
    ensures StreamOk(attempt, s, lastSeen, t.sealed.last, tiles + [t], seen, acked, pending + [PendingOf(t.sealed)])
  {
    StoreProgresses(attempt, s, lastSeen, lastStored, tiles, seen, t);
    WaitingAppend(tiles, acked, t);
    MineAppend(pending, PendingOf(t.sealed), s);
  }

  lemma OtherKeepsStream(
    attempt: Bytes, s: Stream, lastSeen: int, lastStored: int, tiles: seq<Tile>, seen: set<Record>, acked: nat, pending: seq<Pending>, p: Pending)
    requires StreamOk(attempt, s, lastSeen, lastStored, tiles, seen, acked, pending) && p.name.stream != s
    ensures StreamOk(attempt, s, lastSeen, lastStored, tiles, seen, acked, pending + [p])
  {
    MineAppend(pending, p, s);
  }

  /** All the bookkeeping of both streams, against the spool's entries. */
  ghost predicate Books(
    attempt: Bytes, lastSeen: Two<int>, lastStored: Two<int>, pending: seq<Pending>,
    tiles: Two<seq<Tile>>, seen: Two<set<Record>>, acked: Two<nat>, entries: map<LogSpool.Name, nat>)
  {
    && Canonical(attempt) && !IsNil(attempt) && Queue(pending, entries, lastStored)
    && StreamOk(attempt, Stdout, lastSeen.stdout, lastStored.stdout, tiles.stdout, seen.stdout, acked.stdout, pending)
    && StreamOk(attempt, Stderr, lastSeen.stderr, lastStored.stderr, tiles.stderr, seen.stderr, acked.stderr, pending)
  }

  lemma BookStored(
    attempt: Bytes, lastSeen: Two<int>, lastStored: Two<int>, pending: seq<Pending>,
    tiles: Two<seq<Tile>>, seen: Two<set<Record>>, acked: Two<nat>, entries: map<LogSpool.Name, nat>,
    s: Stream, t: Tile, stored': Two<int>, tiles': Two<seq<Tile>>, entries': map<LogSpool.Name, nat>)
    requires Books(attempt, lastSeen, lastStored, pending, tiles, seen, acked, entries) && TileOk(t, attempt, s)
    requires Continues(t.sealed.first, t.records, lastSeen.At(s), lastStored.At(s), seen.At(s))
    requires stored' == Put(lastStored, s, t.sealed.last) && tiles' == Put(tiles, s, tiles.At(s) + [t])
    requires entries' == entries[LogSpool.NameOf(t.sealed) := |t.sealed.bytes|]
    ensures LogSpool.NameOf(t.sealed) !in entries
    ensures Books(attempt, lastSeen, stored', pending + [PendingOf(t.sealed)], tiles', seen, acked, entries')
  {
    var p := PendingOf(t.sealed);
    StoreQueues(pending, entries, lastStored, p, entries', stored');
    StoreKeepsStream(attempt, s, lastSeen.At(s), lastStored.At(s), tiles.At(s), seen.At(s), acked.At(s), pending, t);
    var o := if s.Stdout? then Stderr else Stdout;
    OtherKeepsStream(attempt, o, lastSeen.At(o), lastStored.At(o), tiles.At(o), seen.At(o), acked.At(o), pending, p);
  }

  lemma SealedSize(s: Sealed, rs: seq<Record>)
    requires Holds(s, rs)
    ensures 0 < |s.bytes| <= MAX_SEGMENT_BYTES
  {
  }

  /** Largest payload that fits a segment of its own; capture never makes a larger chunk than 64 KiB. */
  const MAX_PAYLOAD: nat := MAX_SEGMENT_BYTES - HEADER_BYTES - RECORD_HEADER_BYTES

  lemma BookSeen(
    attempt: Bytes, lastSeen: Two<int>, lastStored: Two<int>, pending: seq<Pending>,
    tiles: Two<seq<Tile>>, seen: Two<set<Record>>, acked: Two<nat>, entries: map<LogSpool.Name, nat>,
    s: Stream, r: Record, lastSeen': Two<int>, seen': Two<set<Record>>)
    requires Books(attempt, lastSeen, lastStored, pending, tiles, seen, acked, entries)
    requires lastSeen.At(s) < r.sequence <= MAX_I64
    requires lastSeen' == Put(lastSeen, s, r.sequence) && seen' == Put(seen, s, seen.At(s) + {r})
    ensures Books(attempt, lastSeen', lastStored, pending, tiles, seen', acked, entries)
  {
  }

  lemma ContinuesMore(first: int, records: seq<Record>, lastSeen: int, lastStored: int, seen: set<Record>, r: Record)
    requires Continues(first, records, lastSeen, lastStored, seen)
    ensures Continues(first, records + [r], r.sequence, lastStored, seen + {r})
  {
  }

  lemma AcknowledgeMine(
    attempt: Bytes, s: Stream, lastSeen: int, lastStored: int, tiles: seq<Tile>, seen: set<Record>, acked: nat, pending: seq<Pending>)
    requires StreamOk(attempt, s, lastSeen, lastStored, tiles, seen, acked, pending) && pending != [] && pending[0].name.stream == s
    ensures acked < |tiles| && pending[0] == PendingOf(tiles[acked].sealed)
    ensures StreamOk(attempt, s, lastSeen, lastStored, tiles, seen, acked + 1, pending[1..])
  {
    hide Progress;
    var mine := Mine(pending, s);
    assert mine[0] == pending[0] && mine[1..] == Mine(pending[1..], s);
    assert Waiting(tiles, acked)[1..] == Waiting(tiles, acked + 1);
  }

  lemma AcknowledgeOther(
    attempt: Bytes, s: Stream, lastSeen: int, lastStored: int, tiles: seq<Tile>, seen: set<Record>, acked: nat, pending: seq<Pending>)
    requires StreamOk(attempt, s, lastSeen, lastStored, tiles, seen, acked, pending) && pending != [] && pending[0].name.stream != s
    ensures StreamOk(attempt, s, lastSeen, lastStored, tiles, seen, acked, pending[1..])
  {
    hide Progress;
    assert Mine(pending, s) == Mine(pending[1..], s);
  }

  lemma AcknowledgeQueue(pending: seq<Pending>, entries: map<LogSpool.Name, nat>, lastStored: Two<int>)
    requires Queue(pending, entries, lastStored) && pending != []
    ensures Queue(pending[1..], entries - {pending[0].name}, lastStored)
  {
  }

  /** Removing the queue's head leaves the rest in step with the tiles not yet acknowledged. */
  lemma BookAcknowledged(
    attempt: Bytes, lastSeen: Two<int>, lastStored: Two<int>, pending: seq<Pending>,
    tiles: Two<seq<Tile>>, seen: Two<set<Record>>, acked: Two<nat>, entries: map<LogSpool.Name, nat>,
    s: Stream, acked': Two<nat>)
    requires Books(attempt, lastSeen, lastStored, pending, tiles, seen, acked, entries) && pending != []
    requires s == pending[0].name.stream && acked' == Put(acked, s, acked.At(s) + 1)
    ensures pending[0].name in entries && entries[pending[0].name] == pending[0].size
    ensures acked.At(s) < |tiles.At(s)| && pending[0] == PendingOf(tiles.At(s)[acked.At(s)].sealed)
    ensures Books(attempt, lastSeen, lastStored, pending[1..], tiles, seen, acked', entries - {pending[0].name})
  {
    hide StreamOk;
    AcknowledgeQueue(pending, entries, lastStored);
    AcknowledgeMine(attempt, s, lastSeen.At(s), lastStored.At(s), tiles.At(s), seen.At(s), acked.At(s), pending);
    var o := if s.Stdout? then Stderr else Stdout;
    AcknowledgeOther(attempt, o, lastSeen.At(o), lastStored.At(o), tiles.At(o), seen.At(o), acked.At(o), pending);
  }

  lemma SeenIsCounted(
    attempt: Bytes, lastSeen: Two<int>, lastStored: Two<int>, pending: seq<Pending>,
    tiles: Two<seq<Tile>>, seen: Two<set<Record>>, acked: Two<nat>, entries: map<LogSpool.Name, nat>, s: Stream)
    requires Books(attempt, lastSeen, lastStored, pending, tiles, seen, acked, entries)
    ensures 0 <= lastStored.At(s) <= lastSeen.At(s) <= MAX_I64
  {
  }

  lemma WriterInUse(bytes: Bytes, attempt: Bytes, stream: Stream, first: int, last: Option<int>, gaps: seq<Gap>, records: seq<Record>)
    requires Written(bytes, attempt, stream, first, last, gaps, records) && (|bytes| > HEADER_BYTES || gaps != [])
    ensures records != []
  {
  }

  class LogAssembler {
    const attempt: Bytes
    const spool: LogSpool.LogSpool
    var open: Two<LogSegmentWriter?>
    var lastSeen: Two<int>
    var lastStored: Two<int>
    var pending: seq<Pending>
    ghost var tiles: Two<seq<Tile>>
    ghost var seen: Two<set<Record>>
    ghost var acked: Two<nat>

    ghost predicate OpenOk(s: Stream)
      reads this, open.At(s)
    {
      var w := open.At(s);
      w != null ==>
        && w.Valid() && w.stream == s && w.attempt == attempt
        && Continues(w.first, w.records, lastSeen.At(s), lastStored.At(s), seen.At(s))
    }

    ghost predicate Valid()
      reads this, spool, open.stdout, open.stderr
    {
      && spool.Valid() && spool.attempt == attempt
      && Books(attempt, lastSeen, lastStored, pending, tiles, seen, acked, spool.entries)
      && OpenOk(Stdout) && OpenOk(Stderr) && (open.stdout != null ==> open.stdout != open.stderr)
    }

    constructor (attempt: Bytes, cap: nat)
      requires Canonical(attempt) && !IsNil(attempt)
      ensures Valid() && fresh(spool) && tiles == Two([], []) && lastSeen == Two(0, 0) && open == Two(null, null) && !spool.poisoned
      ensures seen == Two({}, {}) && pending == [] && acked == Two(0, 0) && spool.cap == cap
    {
      this.attempt := attempt;
      spool := new LogSpool.LogSpool(attempt, cap);
      open, lastSeen, lastStored, pending := Two(null, null), Two(0, 0), Two(0, 0), [];
      tiles, seen, acked := Two([], []), Two({}, {}), Two(0, 0);
    }

    /** Seals the open segment of a stream; a full spool drops it whole, and the next one covers its range. */
    method FlushStream(s: Stream, io: bool) returns (r: Option<AssembleError>)
      requires Valid()
      modifies this`open, this`lastStored, this`pending, this`tiles, spool
      ensures Valid() && open == Put(old(open), s, null)
      ensures tiles == Put(old(tiles), s, tiles.At(s)) && old(tiles).At(s) <= tiles.At(s)
      ensures old(open).At(s) == null ==> r.None? && tiles == old(tiles)
      ensures old(open).At(s) != null && old(open).At(s).records == [] ==> r == Some(Format(FormatError.Invalid)) && tiles == old(tiles)
      // The only spool errors are a failed file operation and the poisoning that follows it.
      ensures r.Some? ==> r == Some(Format(FormatError.Invalid)) || (r == Some(Spool(LogSpool.Io)) && !io) || (r == Some(Spool(LogSpool.Poisoned)) && old(spool.poisoned))
      ensures !old(spool.poisoned) && io && (old(open).At(s) != null ==> old(open).At(s).records != []) ==> r.None? && !spool.poisoned
      // What was appended becomes the next tile, or (spool saturated) is left to the next segment's gap.
      ensures r.None? && old(open).At(s) != null ==>
                var w := old(open).At(s);
                var full := |old(spool.entries)| >= LogSpool.MAX_SPOOL_SEGMENTS || |w.bytes| > spool.cap - old(spool.used);
                if full then tiles == old(tiles) && lastStored == old(lastStored)
                else |tiles.At(s)| == |old(tiles).At(s)| + 1 && tiles.At(s)[|old(tiles).At(s)|].records == w.records
                     && tiles.At(s)[|old(tiles).At(s)|].sealed.bytes == w.bytes
    {
      hide Books;
      hide Holds;
      hide Written;
      var w := open.At(s);
      if w == null {
        return None;
      }
      var sealed := w.Finish();
      open := Put(open, s, null);
      if sealed.None? {
        return Some(Format(FormatError.Invalid));
      }
      r := StoreSealed(s, sealed.value, Tile(sealed.value, w.records), io);
    }

    method StoreSealed(s: Stream, sealed: Sealed, ghost t: Tile, io: bool) returns (r: Option<AssembleError>)
      requires Valid() && t.sealed == sealed && TileOk(t, attempt, s) && open.At(s) == null
      requires Continues(sealed.first, t.records, lastSeen.At(s), lastStored.At(s), seen.At(s))
      modifies this`lastStored, this`pending, this`tiles, spool
      ensures Valid() && tiles == Put(old(tiles), s, tiles.At(s)) && old(tiles).At(s) <= tiles.At(s)
      ensures r.Some? ==> (r == Some(Spool(LogSpool.Io)) && !io) || (r == Some(Spool(LogSpool.Poisoned)) && old(spool.poisoned))
      ensures !old(spool.poisoned) && io ==> r.None? && !spool.poisoned
      // The segment becomes the next tile unless the spool is saturated.
      ensures r.None? ==>
                var full := |old(spool.entries)| >= LogSpool.MAX_SPOOL_SEGMENTS || |sealed.bytes| > spool.cap - old(spool.used);
                (full ==> lastStored == old(lastStored)) &&
                tiles == if full then old(tiles) else Put(old(tiles), s, old(tiles).At(s) + [t])
    {
      hide Books;
      hide Holds;
      hide Written;
      ghost var tiles' := Put(tiles, s, tiles.At(s) + [t]);
      var stored' := Put(lastStored, s, sealed.last);
      BookStored(attempt, lastSeen, lastStored, pending, tiles, seen, acked, spool.entries, s, t, stored', tiles',
                 spool.entries[LogSpool.NameOf(sealed) := |sealed.bytes|]);
      SealedSize(sealed, t.records);
      var outcome := spool.Store(s, sealed, io);
      if outcome.StoreFailed? {
        return Some(Spool(outcome.error));
      }
      if outcome.Stored? {
        lastStored, pending, tiles := stored', pending + [PendingOf(sealed)], tiles';
      }
      return None;
    }

    /** A writer that starts right after the stored part. */
    method Fresh(s: Stream) returns (w: LogSegmentWriter?)
      requires Valid()
      ensures w == null <==> lastStored.At(s) == MAX_I64
      ensures w != null ==> fresh(w) && w.Valid() && w.stream == s && w.attempt == attempt && w.records == []
                            && Continues(w.first, [], lastSeen.At(s), lastStored.At(s), seen.At(s)) && |w.bytes| == HEADER_BYTES && w.gaps == []
    {
      var made := NewWriter(attempt, s, lastStored.At(s) + 1);
      if made.None? {
        return null;
      }
      return made.value;
    }

    /** Appends to the open segment; the chunk counts as seen only when it was taken. */
    method AppendOpen(s: Stream, sequence: int, nanos: int, payload: Bytes) returns (r: Appended)
      requires Valid() && open.At(s) != null && lastSeen.At(s) < sequence && nanos <= MAX_I64
      modifies this`lastSeen, this`seen, open.At(s)
      ensures Valid()
      ensures var w := open.At(s);
              var error := AppendError(|old(w.bytes)|, |old(w.gaps)|, NextExpected(w.first, old(w.records)), sequence, nanos, |payload|);
              r == if error.Some? then Failed(error.value) else Done
      ensures r.Done? ==> lastSeen == Put(old(lastSeen), s, sequence) && open.At(s).records == old(open.At(s).records) + [Record(sequence, nanos, payload)]
      ensures r.Failed? ==> lastSeen == old(lastSeen) && open.At(s).records == old(open.At(s).records)
                            && open.At(s).bytes == old(open.At(s).bytes) && open.At(s).gaps == old(open.At(s).gaps)
      ensures r != Failed(Sequence)
      ensures seen == if r.Done? then Put(old(seen), s, old(seen).At(s) + {Record(sequence, nanos, payload)}) else old(seen)
    {
      hide Books;
      hide Written;
      SeenIsCounted(attempt, lastSeen, lastStored, pending, tiles, seen, acked, spool.entries, s);
      var w := open.At(s);
      ghost var record := Record(sequence, nanos, payload);
      ContinuesMore(w.first, w.records, lastSeen.At(s), lastStored.At(s), seen.At(s), record);
      r := w.Append(sequence, nanos, payload);
      if r.Done? {
        ghost var seen' := Put(seen, s, seen.At(s) + {record});
        BookSeen(attempt, lastSeen, lastStored, pending, tiles, seen, acked, spool.entries, s, record, Put(lastSeen, s, sequence), seen');
        lastSeen, seen := Put(lastSeen, s, sequence), seen';
      }
    }

    /** LogAssembler::ingest. `io` is whether a spool write that becomes necessary succeeds. */
    method Ingest(s: Stream, sequence: int, nanos: int, payload: Bytes, io: bool) returns (r: Option<AssembleError>)
      requires Valid() && 0 <= sequence && nanos <= MAX_I64
      modifies this, spool, open.stdout, open.stderr
      ensures Valid() && (open.At(s) != old(open).At(s) && open.At(s) != null ==> fresh(open.At(s)))
      ensures open == Put(old(open), s, open.At(s))
      ensures tiles == Put(old(tiles), s, tiles.At(s)) && old(tiles).At(s) <= tiles.At(s)
      ensures sequence <= old(lastSeen).At(s) || payload == [] ==> r == Some(Refused) && tiles == old(tiles) && lastSeen == old(lastSeen)
      ensures acked == old(acked)
      // Accepted: the chunk is the last record of the open segment.
      ensures r.None? ==> lastSeen == Put(old(lastSeen), s, sequence) && open.At(s) != null && open.At(s).records != []
                          && open.At(s).records[|open.At(s).records| - 1] == Record(sequence, nanos, payload)
      ensures r.Some? ==> lastSeen == old(lastSeen)
      ensures r.None? && old(open).At(s) == null ==>
                open.At(s).records == [Record(sequence, nanos, payload)] && tiles == old(tiles) && pending == old(pending)
      ensures seen == if r.None? then Put(old(seen), s, old(seen).At(s) + {Record(sequence, nanos, payload)}) else old(seen)
      // A well-formed chunk that fits a segment is never refused while the spool works: the retry succeeds.
      ensures old(lastSeen).At(s) < sequence <= MAX_I64 && 0 <= nanos && 1 <= |payload| <= MAX_PAYLOAD && io && !old(spool.poisoned) ==>
                r.None? && !spool.poisoned
    {
      hide Books;
      hide Written;
      hide Continues;
      SeenIsCounted(attempt, lastSeen, lastStored, pending, tiles, seen, acked, spool.entries, s);
      if sequence <= lastSeen.At(s) || payload == [] {
        return Some(Refused);
      }
      if open.At(s) == null {
        var fresh' := Fresh(s);
        if fresh' == null {
          return Some(Format(FormatError.Invalid));
        }
        open := Put(open, s, fresh');
      }
      var appended := AppendOpen(s, sequence, nanos, payload);
      if appended == Failed(Full) || appended == Failed(GapLimit) {
        ghost var w := open.At(s);
        if |w.bytes| > HEADER_BYTES || w.gaps != [] { WriterInUse(w.bytes, attempt, s, w.first, w.last, w.gaps, w.records); }
        r := Retry(s, sequence, nanos, payload, io);
        return;
      }
      if appended.Failed? {
        return Some(Format(appended.error));
      }
      return None;
    }

    /** The second try, in a new segment. */
    method Retry(s: Stream, sequence: int, nanos: int, payload: Bytes, io: bool) returns (r: Option<AssembleError>)
      requires Valid() && open.At(s) != null && lastSeen.At(s) < sequence && nanos <= MAX_I64
      modifies this, spool
      ensures Valid() && (open.At(s) != null ==> fresh(open.At(s))) && open == Put(old(open), s, open.At(s))
      ensures tiles == Put(old(tiles), s, tiles.At(s)) && old(tiles).At(s) <= tiles.At(s)
      ensures r.None? ==> lastSeen == Put(old(lastSeen), s, sequence) && open.At(s) != null && open.At(s).records == [Record(sequence, nanos, payload)]
      ensures r.Some? ==> lastSeen == old(lastSeen)
      ensures seen == if r.None? then Put(old(seen), s, old(seen).At(s) + {Record(sequence, nanos, payload)}) else old(seen)
      ensures acked == old(acked) && (old(open.At(s).records) == [] ==> r.Some?)
      ensures (sequence <= MAX_I64 && 0 <= nanos && 1 <= |payload| <= MAX_PAYLOAD && io && !old(spool.poisoned)
               && old(open.At(s).records) != []) ==> r.None? && !spool.poisoned
    {
      hide Books;
      hide Written;
      hide Continues;
      var flushed := FlushStream(s, io);
      if flushed.Some? {
        return flushed;
      }
      SeenIsCounted(attempt, lastSeen, lastStored, pending, tiles, seen, acked, spool.entries, s);
      var fresh' := Fresh(s);
      if fresh' == null {
        return Some(Format(FormatError.Invalid));
      }
      open := Put(open, s, fresh');
      var appended := AppendOpen(s, sequence, nanos, payload);
      if appended.Failed? {
        return Some(Format(appended.error));
      }
      return None;
    }

    /** Seals both open segments; an error on the first leaves the second open. */
    method FlushAll(io: Two<bool>) returns (r: Option<AssembleError>)
      requires Valid()
      modifies this`open, this`lastStored, this`pending, this`tiles, spool
      ensures Valid() && (r.None? ==> open == Two(null, null))
      ensures old(tiles).stdout <= tiles.stdout && old(tiles).stderr <= tiles.stderr
      // While the spool works, both are sealed.
      ensures (!old(spool.poisoned) && io.stdout && io.stderr
               && (old(open).stdout != null ==> old(open).stdout.records != []) && (old(open).stderr != null ==> old(open).stderr.records != [])) ==>
                r.None? && !spool.poisoned
      // What was appended to stdout becomes its next tile, unless the spool is saturated.
      ensures r.None? && old(open).stdout != null ==>
                var w := old(open).stdout;
                var full := |old(spool.entries)| >= LogSpool.MAX_SPOOL_SEGMENTS || |w.bytes| > spool.cap - old(spool.used);
                if full then tiles.stdout == old(tiles).stdout
                else |tiles.stdout| == |old(tiles).stdout| + 1 && tiles.stdout[|old(tiles).stdout|].records == w.records
      ensures old(open).stderr == null ==> tiles.stderr == old(tiles).stderr
      // An error on the first stream leaves the second untouched.
      ensures r.Some? && open.stderr != null ==> open.stderr == old(open).stderr && tiles.stderr == old(tiles).stderr
    {
      hide Books;
      hide Written;
      r := FlushStream(Stdout, io.stdout);
      if r.Some? {
        return;
      }
      r := FlushStream(Stderr, io.stderr);
    }

    /** The head of the queue is the earliest unacknowledged tile of its stream. */
    method AcknowledgeFront(readable: bool, io: bool) returns (r: Option<AssembleError>)
      requires Valid()
      modifies this`pending, this`acked, spool
      ensures Valid()
      ensures old(pending) == [] ==> r == Some(Refused)
      ensures r.None? <==> old(pending) != [] && !old(spool.poisoned) && readable && io
      ensures r.None? ==> var s := old(pending[0]).name.stream;
                pending == old(pending)[1..] && acked == Put(old(acked), s, old(acked).At(s) + 1)
                && old(acked).At(s) < |tiles.At(s)| && old(pending[0]) == PendingOf(tiles.At(s)[old(acked).At(s)].sealed)
      ensures r.Some? ==> pending == old(pending) && acked == old(acked)
      ensures r.None? ==> !spool.poisoned
    {
      hide Books;
      hide Written;
      hide Continues;
      if pending == [] {
        return Some(Refused);
      }
      var entry := pending[0];
      ghost var s := entry.name.stream;
      ghost var acked' := Put(acked, s, acked.At(s) + 1);
      BookAcknowledged(attempt, lastSeen, lastStored, pending, tiles, seen, acked, spool.entries, s, acked');
      var removed := spool.Remove(entry.name, entry.size, readable, io);
      if removed.Some? {
        return Some(Spool(removed.value));
      }
      pending, acked := pending[1..], acked';
      return None;
    }

    /** The queue's head is the earliest tile of its stream that is not acknowledged. */
    lemma FrontTile()
      requires Valid() && pending != []
      ensures var s := pending[0].name.stream;
              acked.At(s) < |tiles.At(s)| && pending[0] == PendingOf(tiles.At(s)[acked.At(s)].sealed) && tiles.At(s)[acked.At(s)].sealed.stream == s
    {
      var s := pending[0].name.stream;
      AcknowledgeMine(attempt, s, lastSeen.At(s), lastStored.At(s), tiles.At(s), seen.At(s), acked.At(s), pending);
    }

    /** What is stored of a stream, at any time, is tiles the server will register in order. */
    lemma StoredTiles(s: Stream)
      requires Valid()
      ensures Tiling(tiles.At(s), attempt, s) && LastOf(tiles.At(s)) == lastStored.At(s)
      ensures acked.At(s) <= |tiles.At(s)| && Mine(pending, s) == Waiting(tiles.At(s), acked.At(s))
      ensures forall i, r :: 0 <= i < |tiles.At(s)| && r in tiles.At(s)[i].records ==> r in seen.At(s)
    {
    }
  }
}
