/** From captured output to an accepted claim: capture, assembly, journal, registration and completion. */
module LogPublish {
  import opened Base
  import opened LogFormat
  import opened LogWriter
  import opened LogTiles
  import opened LogAssembler
  import opened LogCapture
  import LogSpool
  import opened LogClaims
  import opened LogSummary
  import opened LogEvidence
  import opened LogCompletion

  const MAX_JOURNALLED := 1024

  // --------------------------------------------------------- the journal's log records

  lemma {:induction false} CountSame(a: seq<Range>, b: seq<Range>, n: nat, s: Stream)
    requires n <= |a| && n <= |b| && forall i :: 0 <= i < n ==> a[i].stream == b[i].stream
    ensures Count(a, n, s) == Count(b, n, s)
  {
    if n > 0 { CountSame(a, b, n - 1, s); }
  }

  lemma {:induction false} AtCount(ranges: seq<Range>, n: nat, s: Stream, m: nat) returns (k: nat)
    requires n <= |ranges| && m < Count(ranges, n, s)
    ensures k < n && ranges[k].stream == s && Count(ranges, k, s) == m
  {
    if m == Count(ranges, n - 1, s) { k := n - 1; } else { k := AtCount(ranges, n - 1, s, m); }
  }

  lemma JournalGrows(ranges: seq<Range>, tiles: Two<seq<Tile>>, more: Two<seq<Tile>>, known: Two<nat>, attempt: Bytes)
    requires Journalled(ranges, tiles, known, attempt) && tiles.stdout <= more.stdout && tiles.stderr <= more.stderr
    requires Tiling(more.stdout, attempt, Stdout) && Tiling(more.stderr, attempt, Stderr)
    ensures Journalled(ranges, more, known, attempt)
  {
    hide Tiling;
    forall i | 0 <= i < |ranges| ensures RangeAt(ranges, i, more, known) { assert RangeAt(ranges, i, tiles, known); }
  }

  /** A new record for the next tile of a stream, not yet confirmed. */
  lemma JournalAppends(ranges: seq<Range>, tiles: Two<seq<Tile>>, known: Two<nat>, attempt: Bytes, s: Stream, more: seq<Range>)
    requires Journalled(ranges, tiles, known, attempt) && Count(ranges, |ranges|, s) < |tiles.At(s)|
    requires more == ranges + [RangeOf(tiles.At(s)[Count(ranges, |ranges|, s)], false)]
    ensures Journalled(more, tiles, known, attempt)
    ensures Count(more, |more|, s) == Count(ranges, |ranges|, s) + 1
    ensures forall o :: o != s ==> Count(more, |more|, o) == Count(ranges, |ranges|, o)
  {
    hide Tiling;
    hide Count;
    hide RangeAt;
    hide RangeOf;
    var n := |ranges|;
    var r := more[n];
    assert more == ranges + [r];
    AppendCounts(ranges, r, Stdout);
    AppendCounts(ranges, r, Stderr);
    LastRangeAt(ranges, tiles, known, attempt, s, more);
    RangesAt(ranges, r, tiles, known);
  }

  lemma RangesAt(ranges: seq<Range>, r: Range, tiles: Two<seq<Tile>>, known: Two<nat>)
    requires (forall i :: 0 <= i < |ranges| ==> RangeAt(ranges, i, tiles, known)) && RangeAt(ranges + [r], |ranges|, tiles, known)
    ensures forall i :: 0 <= i < |ranges + [r]| ==> RangeAt(ranges + [r], i, tiles, known)
  {
    hide RangeAt;
    forall i | 0 <= i < |ranges| ensures RangeAt(ranges + [r], i, tiles, known) { RangeAtSame(ranges, ranges + [r], i, tiles, known); }
  }

  lemma AppendCounts(ranges: seq<Range>, r: Range, s: Stream)
    ensures Count(ranges + [r], |ranges|, s) == Count(ranges, |ranges|, s)
    ensures Count(ranges + [r], |ranges| + 1, s) == Count(ranges, |ranges|, s) + if r.stream == s then 1 else 0
  {
    CountSame(ranges + [r], ranges, |ranges|, s);
  }

  lemma LastRangeAt(ranges: seq<Range>, tiles: Two<seq<Tile>>, known: Two<nat>, attempt: Bytes, s: Stream, more: seq<Range>)
    requires Tiling(tiles.At(s), attempt, s) && Count(ranges, |ranges|, s) < |tiles.At(s)| && known.At(s) <= Count(ranges, |ranges|, s)
    requires more == ranges + [RangeOf(tiles.At(s)[Count(ranges, |ranges|, s)], false)]
    ensures more[|ranges|].stream == s && RangeAt(more, |ranges|, tiles, known)
  {
    hide Count;
    hide ClaimsOf;
    TileStream(tiles, attempt, s, Count(ranges, |ranges|, s));
    AppendCounts(ranges, more[|ranges|], s);
  }

  lemma RangeAtSame(a: seq<Range>, b: seq<Range>, i: nat, tiles: Two<seq<Tile>>, known: Two<nat>)
    requires i < |a| && i < |b| && (forall k :: 0 <= k <= i ==> a[k] == b[k]) && RangeAt(a, i, tiles, known)
    ensures RangeAt(b, i, tiles, known)
  {
    hide RangeOf;
    CountSame(a, b, i, a[i].stream);
  }

  lemma TileStream(tiles: Two<seq<Tile>>, attempt: Bytes, s: Stream, m: nat)
    requires Tiling(tiles.At(s), attempt, s) && m < |tiles.At(s)|
    ensures tiles.At(s)[m].sealed.stream == s
  {
  }

  /** The server's confirmation of the one record that waits for it. */
  lemma JournalConfirms(ranges: seq<Range>, tiles: Two<seq<Tile>>, known: Two<nat>, attempt: Bytes, s: Stream, k: nat, done: seq<Range>)
    requires Journalled(ranges, tiles, known, attempt) && k < |ranges| && ranges[k].stream == s
    requires Count(ranges, k, s) == known.At(s) && done == ranges[k := ranges[k].(registered := true)]
    ensures Journalled(done, tiles, Put(known, s, known.At(s) + 1), attempt)
    ensures forall o :: Count(done, |done|, o) == Count(ranges, |ranges|, o)
  {
    hide Tiling;
    var after := Put(known, s, known.At(s) + 1);
    forall i, o | 0 <= i <= |ranges| ensures Count(done, i, o) == Count(ranges, i, o) { CountSame(done, ranges, i, o); }
    CountRises(ranges, k, |ranges|, s);
    forall i | 0 <= i < |done| ensures RangeAt(done, i, tiles, after) {
      assert RangeAt(ranges, i, tiles, known);
      if i < k { CountRises(ranges, i, k, s); }
      if k < i { CountRises(ranges, k, i, s); }
    }
  }

  /** Counting past a record of the stream counts it. */
  lemma {:induction false} CountRises(ranges: seq<Range>, i: nat, k: nat, s: Stream)
    requires i < k <= |ranges|
    ensures Count(ranges, i, s) + (if ranges[i].stream == s then 1 else 0) <= Count(ranges, k, s)
    decreases k
  {
    if i + 1 < k { CountRises(ranges, i, k - 1, s); }
  }

  /** A record is found by its stream and first number. */
  lemma FoundIs(ranges: seq<Range>, tiles: Two<seq<Tile>>, known: Two<nat>, attempt: Bytes, s: Stream, k: nat, m: nat)
    requires Journalled(ranges, tiles, known, attempt) && k < |ranges| && ranges[k].stream == s && m < |tiles.At(s)|
    requires ranges[k].first == tiles.At(s)[m].sealed.first
    ensures Count(ranges, k, s) == m && ranges[k] == RangeOf(tiles.At(s)[m], m < known.At(s))
  {
    assert RangeAt(ranges, k, tiles, known);
    var c := Count(ranges, k, s);
    hide Journalled;
    JournalledTilings(ranges, tiles, known, attempt);
    if c < m {
      TileSpan(tiles.At(s), attempt, s, c);
      TilesBelow(tiles.At(s), attempt, s, c, m);
    }
    if m < c {
      TileSpan(tiles.At(s), attempt, s, m);
      TilesBelow(tiles.At(s), attempt, s, m, c);
    }
  }

  method Find(ranges: seq<Range>, s: Stream, first: int) returns (k: nat)
    ensures k <= |ranges| && (k < |ranges| ==> ranges[k].stream == s && ranges[k].first == first)
    ensures k == |ranges| ==> forall i :: 0 <= i < |ranges| ==> !(ranges[i].stream == s && ranges[i].first == first)
  {
    k := 0;
    while k < |ranges|
      invariant k <= |ranges| && forall i :: 0 <= i < k ==> !(ranges[i].stream == s && ranges[i].first == first)
    {
      if ranges[k].stream == s && ranges[k].first == first {
        return;
      }
      k := k + 1;
    }
  }

  /** The last record of a stream, searched from the end. */
  method Previous(ranges: seq<Range>, s: Stream) returns (r: Option<Range>)
    ensures r.None? <==> Count(ranges, |ranges|, s) == 0
    ensures r.Some? ==> exists k :: 0 <= k < |ranges| && ranges[k] == r.value && r.value.stream == s
                                    && Count(ranges, k, s) + 1 == Count(ranges, |ranges|, s)
  {
    var k := |ranges|;
    while k > 0
      invariant 0 <= k <= |ranges| && Count(ranges, k, s) == Count(ranges, |ranges|, s)
    {
      k := k - 1;
      if ranges[k].stream == s {
        return Some(ranges[k]);
      }
    }
    return None;
  }

  // -------------------------------------------------------------- the server's catalogue

  /** RegisterLogSegment on one stream's rows; `saved` is the row on file under the request's id. The range
      must be well formed; a repeated request must repeat its row, a new one follow the last row. */
  method Register(rows: seq<Registration>, saved: Option<Registration>, row: Registration) returns (ok: bool, more: seq<Registration>)
    ensures ok <==> RangeAccepted(row) && if saved.Some? then saved.value == row
                                          else Contiguous(if rows == [] then None else Some(rows[|rows| - 1].last), row.first)
    ensures more == if ok && saved.None? then rows + [row] else rows
  {
    ok := Normalized(row);
    if !ok {
      return false, rows;
    }
    if saved.Some? {
      return saved.value == row, rows;
    }
    if !Contiguous(if rows == [] then None else Some(rows[|rows| - 1].last), row.first) {
      return false, rows;
    }
    return true, rows + [row];
  }

  /** The journal keeps one registration request for each segment, so a row is found by its first number. */
  method SavedRow(rows: seq<Registration>, first: int) returns (r: Option<Registration>)
    ensures r.Some? ==> r.value in rows && r.value.first == first
    ensures r.None? ==> forall i :: 0 <= i < |rows| ==> rows[i].first != first
  {
    for k := 0 to |rows|
      invariant forall i :: 0 <= i < k ==> rows[i].first != first
    {
      if rows[k].first == first {
        return Some(rows[k]);
      }
    }
    return None;
  }

  /** How far each party is with a stream: the segments acknowledged, confirmed, catalogued, declared and
      journalled. */
  ghost predicate InStep(acked: nat, known: nat, rows: nat, declared: nat, count: nat)
  {
    acked <= known <= rows <= declared <= count <= acked + 1
  }

  ghost predicate Recorded(
    ranges: seq<Range>, catalogue: Two<seq<Registration>>, declared: Two<nat>, tiles: Two<seq<Tile>>, known: Two<nat>, acked: Two<nat>, attempt: Bytes)
  {
    && Journalled(ranges, tiles, known, attempt) && Catalogued(catalogue, tiles)
    && InStep(acked.stdout, known.stdout, |catalogue.stdout|, declared.stdout, Count(ranges, |ranges|, Stdout))
    && InStep(acked.stderr, known.stderr, |catalogue.stderr|, declared.stderr, Count(ranges, |ranges|, Stderr))
  }

  lemma RecordedGrows(
    ranges: seq<Range>, catalogue: Two<seq<Registration>>, declared: Two<nat>, tiles: Two<seq<Tile>>, more: Two<seq<Tile>>, known: Two<nat>, acked: Two<nat>, attempt: Bytes)
    requires Recorded(ranges, catalogue, declared, tiles, known, acked, attempt) && tiles.stdout <= more.stdout && tiles.stderr <= more.stderr
    requires Tiling(more.stdout, attempt, Stdout) && Tiling(more.stderr, attempt, Stderr)
    ensures Recorded(ranges, catalogue, declared, more, known, acked, attempt)
  {
    hide Tiling;
    hide Journalled;
    JournalGrows(ranges, tiles, more, known, attempt);
  }

  lemma RecordedAppends(
    ranges: seq<Range>, catalogue: Two<seq<Registration>>, declared: Two<nat>, tiles: Two<seq<Tile>>, known: Two<nat>, acked: Two<nat>, attempt: Bytes,
    s: Stream, more: seq<Range>)
    requires Recorded(ranges, catalogue, declared, tiles, known, acked, attempt)
    requires Count(ranges, |ranges|, s) == acked.At(s) < |tiles.At(s)| && more == ranges + [RangeOf(tiles.At(s)[acked.At(s)], false)]
    ensures Recorded(more, catalogue, declared, tiles, known, acked, attempt)
    ensures more[|ranges|].stream == s && Count(more, |ranges|, s) == acked.At(s)
  {
    hide Journalled;
    hide Count;
    hide RangeOf;
    JournalAppends(ranges, tiles, known, attempt, s, more);
    AppendCounts(ranges, more[|ranges|], s);
    JournalledTilings(ranges, tiles, known, attempt);
    LastIs(tiles, attempt, s, acked.At(s));
  }

  lemma LastIs(tiles: Two<seq<Tile>>, attempt: Bytes, s: Stream, m: nat)
    requires Tiling(tiles.At(s), attempt, s) && m < |tiles.At(s)|
    ensures RangeOf(tiles.At(s)[m], false).stream == s
  {
    TileStream(tiles, attempt, s, m);
  }

  lemma RecordedCatalogued(
    ranges: seq<Range>, catalogue: Two<seq<Registration>>, declared: Two<nat>, tiles: Two<seq<Tile>>, known: Two<nat>, acked: Two<nat>, attempt: Bytes,
    s: Stream, more: Two<seq<Registration>>)
    requires Recorded(ranges, catalogue, declared, tiles, known, acked, attempt)
    requires declared.At(s) == acked.At(s) + 1 <= |tiles.At(s)| && |catalogue.At(s)| == acked.At(s)
    requires more == Put(catalogue, s, catalogue.At(s) + [RowOf(tiles.At(s)[acked.At(s)])])
    ensures Recorded(ranges, more, declared, tiles, known, acked, attempt)
  {
    hide Journalled;
    hide Count;
  }

  lemma RecordedDeclares(
    ranges: seq<Range>, catalogue: Two<seq<Registration>>, declared: Two<nat>, tiles: Two<seq<Tile>>, known: Two<nat>, acked: Two<nat>, attempt: Bytes,
    s: Stream)
    requires Recorded(ranges, catalogue, declared, tiles, known, acked, attempt) && Count(ranges, |ranges|, s) == acked.At(s) + 1
    ensures Recorded(ranges, catalogue, Put(declared, s, acked.At(s) + 1), tiles, known, acked, attempt)
  {
    hide Journalled;
    hide Count;
  }

  lemma RecordedConfirms(
    ranges: seq<Range>, catalogue: Two<seq<Registration>>, declared: Two<nat>, tiles: Two<seq<Tile>>, known: Two<nat>, acked: Two<nat>, attempt: Bytes,
    s: Stream, k: nat, done: seq<Range>)
    requires Recorded(ranges, catalogue, declared, tiles, known, acked, attempt) && |catalogue.At(s)| == acked.At(s) + 1 && known.At(s) == acked.At(s)
    requires k < |ranges| && ranges[k].stream == s && Count(ranges, k, s) == acked.At(s) && done == ranges[k := ranges[k].(registered := true)]
    ensures Recorded(done, catalogue, declared, tiles, Put(known, s, known.At(s) + 1), acked, attempt)
  {
    hide Journalled;
    hide Count;
    JournalConfirms(ranges, tiles, known, attempt, s, k, done);
  }

  /** Where a stream stands when its next segment has been journalled. */
  lemma RecordedAt(
    ranges: seq<Range>, catalogue: Two<seq<Registration>>, declared: Two<nat>, tiles: Two<seq<Tile>>, known: Two<nat>, acked: Two<nat>, attempt: Bytes, s: Stream, k: nat)
    requires Recorded(ranges, catalogue, declared, tiles, known, acked, attempt)
    requires k < |ranges| && ranges[k].stream == s && Count(ranges, k, s) == acked.At(s)
    ensures Count(ranges, |ranges|, s) == acked.At(s) + 1 <= |tiles.At(s)|
    ensures ranges[k].registered <==> known.At(s) == acked.At(s) + 1
    ensures acked.At(s) <= |catalogue.At(s)| <= acked.At(s) + 1 && acked.At(s) <= known.At(s) <= |catalogue.At(s)|
    ensures forall m :: 0 <= m < |catalogue.At(s)| ==> catalogue.At(s)[m] == RowOf(tiles.At(s)[m])
  {
    assert RangeAt(ranges, k, tiles, known);
    CountRises(ranges, k, |ranges|, s);
  }

  /** The server never refuses the next segment: it repeats its own row or follows the last one. */
  lemma NextRegisters(
    ranges: seq<Range>, catalogue: Two<seq<Registration>>, declared: Two<nat>, tiles: Two<seq<Tile>>, known: Two<nat>, acked: Two<nat>, attempt: Bytes,
    s: Stream, saved: Option<Registration>)
    requires Recorded(ranges, catalogue, declared, tiles, known, acked, attempt) && acked.At(s) < |tiles.At(s)|
    requires acked.At(s) <= |catalogue.At(s)| <= acked.At(s) + 1
    requires forall m :: 0 <= m < |catalogue.At(s)| ==> catalogue.At(s)[m] == RowOf(tiles.At(s)[m])
    requires saved.Some? ==> saved.value in catalogue.At(s) && saved.value.first == tiles.At(s)[acked.At(s)].sealed.first
    requires saved.None? ==> forall i :: 0 <= i < |catalogue.At(s)| ==> catalogue.At(s)[i].first != tiles.At(s)[acked.At(s)].sealed.first
    ensures RangeAccepted(RowOf(tiles.At(s)[acked.At(s)]))
    ensures var rows, row := catalogue.At(s), RowOf(tiles.At(s)[acked.At(s)]);
            if saved.Some? then |rows| == acked.At(s) + 1 && saved.value == row
            else |rows| == acked.At(s) && Contiguous(if rows == [] then None else Some(rows[|rows| - 1].last), row.first)
  {
    hide RangeAccepted;
    hide Journalled;
    hide Tiling;
    var m := acked.At(s);
    JournalledTilings(ranges, tiles, known, attempt);
    TileRegisters(tiles.At(s), attempt, s, m);
    if saved.Some? {
      var i :| 0 <= i < |catalogue.At(s)| && catalogue.At(s)[i] == saved.value;
      FirstIsUnique(tiles.At(s), attempt, s, i, m);
    }
  }

  lemma FirstIsUnique(tiles: seq<Tile>, attempt: Bytes, s: Stream, i: nat, m: nat)
    requires Tiling(tiles, attempt, s) && i <= m < |tiles| && tiles[i].sealed.first == tiles[m].sealed.first
    ensures i == m
  {
    hide Tiling;
    TileSpan(tiles, attempt, s, i);
    if i < m { TilesBelow(tiles, attempt, s, i, m); }
  }

  // ----------------------------------------------------------------------- the chunks

  /** The chunks not yet ingested carry later numbers, and no number beyond the count was seen. */
  ghost predicate Caught(sent: seq<Chunk>, received: nat, lastSeen: Two<int>, counts: Two<int>)
  {
    && received <= |sent| && lastSeen.stdout <= counts.stdout && lastSeen.stderr <= counts.stderr
    && forall i :: received <= i < |sent| ==> lastSeen.At(sent[i].stream) < sent[i].sequence
  }

  /** The first `n` chunks of a stream, as the records they become. */
  ghost function RecordsOf(sent: seq<Chunk>, n: nat, s: Stream): set<Record>
    requires n <= |sent|
  {
    set i | 0 <= i < n && sent[i].stream == s :: Record(sent[i].sequence, sent[i].nanos, sent[i].payload)
  }

  /** What the assembler has seen is exactly what was handed over. */
  ghost predicate HandedOver(sent: seq<Chunk>, received: nat, seen: Two<set<Record>>)
  {
    received <= |sent| && seen == Two(RecordsOf(sent, received, Stdout), RecordsOf(sent, received, Stderr))
  }

  lemma HandedOverGrows(sent: seq<Chunk>, received: nat, seen: Two<set<Record>>, more: seq<Chunk>)
    requires HandedOver(sent, received, seen) && sent <= more
    ensures HandedOver(more, received, seen)
  {
    forall s ensures RecordsOf(more, received, s) == RecordsOf(sent, received, s) { }
  }

  lemma HandedOverNext(sent: seq<Chunk>, received: nat, seen: Two<set<Record>>)
    requires HandedOver(sent, received, seen) && received < |sent|
    ensures var c := sent[received];
            HandedOver(sent, received + 1, Put(seen, c.stream, seen.At(c.stream) + {Record(c.sequence, c.nanos, c.payload)}))
  {
    var c := sent[received];
    forall s ensures RecordsOf(sent, received + 1, s) == if c.stream == s then RecordsOf(sent, received, s) + {Record(c.sequence, c.nanos, c.payload)}
                                                         else RecordsOf(sent, received, s) {
    }
  }

  lemma {:induction false} ThroughAbove(s: Stream, base: int, pieces: seq<Bytes>, moments: seq<Moment>, n: nat)
    requires n <= |pieces| == |moments|
    ensures forall i :: 0 <= i < |Through(s, base, pieces, moments, n)| ==>
              Through(s, base, pieces, moments, n)[i].stream == s && base < Through(s, base, pieces, moments, n)[i].sequence
  {
    if n > 0 { ThroughAbove(s, base, pieces, moments, n - 1); }
  }

  lemma CaughtAfter(sent: seq<Chunk>, received: nat, lastSeen: Two<int>, counts: Two<int>)
    requires Caught(sent, received, lastSeen, counts) && Numbered(sent, counts) && received < |sent|
    ensures Caught(sent, received + 1, Put(lastSeen, sent[received].stream, sent[received].sequence), counts)
  {
  }

  lemma ChunkIs(sent: seq<Chunk>, received: nat, counts: Two<int>, lastSeen: Two<int>)
    requires Numbered(sent, counts) && received < |sent| && Caught(sent, received, lastSeen, counts)
    requires counts.stdout <= MAX_I64 && counts.stderr <= MAX_I64
    ensures var c := sent[received];
            lastSeen.At(c.stream) < c.sequence <= MAX_I64 && 1 <= c.sequence && 0 <= c.nanos <= MAX_I64 && 1 <= |c.payload| <= MAX_PAYLOAD
  {
  }

  // ------------------------------------------------------------------ what is on record

  /** Segments are told apart by their stream and first number. */
  function Key(p: Pending): (Stream, int)
  {
    (p.name.stream, p.name.first)
  }

  /** The segments that have a journal record. */
  ghost function Named(ranges: seq<Range>): set<(Stream, int)>
  {
    set i | 0 <= i < |ranges| :: (ranges[i].stream, ranges[i].first)
  }

  /** And those whose registration was confirmed. */
  ghost function Sure(ranges: seq<Range>): set<(Stream, int)>
  {
    set i | 0 <= i < |ranges| && ranges[i].registered :: (ranges[i].stream, ranges[i].first)
  }

  lemma NamedAppends(ranges: seq<Range>, r: Range)
    requires !r.registered
    ensures Named(ranges + [r]) == Named(ranges) + {(r.stream, r.first)} && Sure(ranges + [r]) == Sure(ranges)
  {
    var more := ranges + [r];
    assert more[|ranges|] == r && forall i :: 0 <= i < |ranges| ==> more[i] == ranges[i];
    forall x | x in Sure(ranges) ensures x in Sure(more) {
      var i :| 0 <= i < |ranges| && ranges[i].registered && x == (ranges[i].stream, ranges[i].first);
      assert more[i] == ranges[i];
    }
  }

  lemma SureConfirms(ranges: seq<Range>, k: nat, done: seq<Range>)
    requires k < |ranges| && done == ranges[k := ranges[k].(registered := true)]
    ensures Named(done) == Named(ranges) && Sure(done) == Sure(ranges) + {(ranges[k].stream, ranges[k].first)}
  {
    assert forall i :: 0 <= i < |ranges| ==> done[i].stream == ranges[i].stream && done[i].first == ranges[i].first;
    assert done[k].registered && forall i :: 0 <= i < |ranges| && i != k ==> done[i] == ranges[i];
    forall x | x in Sure(ranges) ensures x in Sure(done) {
      var i :| 0 <= i < |ranges| && ranges[i].registered && x == (ranges[i].stream, ranges[i].first);
      assert done[i].registered;
    }
  }

  /** The one record of the next segment says whether it is confirmed. */
  lemma SureIs(
    ranges: seq<Range>, catalogue: Two<seq<Registration>>, declared: Two<nat>, tiles: Two<seq<Tile>>, known: Two<nat>, acked: Two<nat>, attempt: Bytes,
    s: Stream, k: nat)
    requires Recorded(ranges, catalogue, declared, tiles, known, acked, attempt) && acked.At(s) < |tiles.At(s)|
    requires k < |ranges| && ranges[k].stream == s && ranges[k].first == tiles.At(s)[acked.At(s)].sealed.first
    ensures (s, ranges[k].first) in Sure(ranges) <==> ranges[k].registered
  {
    hide Journalled;
    hide RangeOf;
    var m := acked.At(s);
    FoundIs(ranges, tiles, known, attempt, s, k, m);
    forall i | 0 <= i < |ranges| && ranges[i].stream == s && ranges[i].first == ranges[k].first ensures ranges[i] == ranges[k] {
      FoundIs(ranges, tiles, known, attempt, s, i, m);
    }
  }

  /** How one call of deliver_log goes: how far it gets, and whether its reply is journalled. */
  datatype Delivery = Unsent | Declared | Unanswered | Answered

  datatype Published = Idle | Confirmed | NotDelivered | JournalRefused | JournalConflict | ServerRefused | NotRemoved | NotReadable | Rejected

  /** One delivery round: whether the file can be read, and whether a failure is final (the server rejects the
      attempt's authority, or the journal cannot be written). */
  datatype Round = Round(readable: bool, delivery: Delivery, final: bool)

  /** What the surroundings decide for one head of the queue: `accepts` is whether the attempt's phase and
      completion still allow log records and the journal can be written, `removes` whether the file can be removed. */
  datatype Head = Head(accepts: bool, rounds: nat -> Round, removes: bool)

  const MAX_DELIVERY_ATTEMPTS := 3

  ghost predicate Works(h: Head)
  {
    h.accepts && h.removes && forall k :: 0 <= k < MAX_DELIVERY_ATTEMPTS ==> h.rounds(k).readable && !h.rounds(k).final
  }

  /** One of the rounds is answered. */
  ghost predicate Answers(h: Head)
  {
    exists k :: 0 <= k < MAX_DELIVERY_ATTEMPTS && h.rounds(k).delivery.Answered?
  }

  /** The heads that need a new journal record. */
  ghost function Unjournalled(named: set<(Stream, int)>, heads: seq<Pending>): nat
  {
    if heads == [] then 0
    else Unjournalled(named, heads[..|heads| - 1]) + if Key(heads[|heads| - 1]) in named then 0 else 1
  }

  lemma {:induction false} UnjournalledGrows(named: set<(Stream, int)>, heads: seq<Pending>, i: nat, k: nat)
    requires i <= k <= |heads|
    ensures Unjournalled(named, heads[..i]) <= Unjournalled(named, heads[..k])
    decreases k
  {
    if i < k {
      UnjournalledGrows(named, heads, i, k - 1);
      assert heads[..k][..k - 1] == heads[..k - 1];
    }
  }

  /** The heads the finalization comes to: all up to the first that is not confirmed and gets no answer. */
  ghost function Reached(sure: set<(Stream, int)>, heads: seq<Pending>, env: nat -> Head, i: nat): (n: nat)
    requires i <= |heads|
    ensures i <= n <= |heads| && (i < |heads| ==> i < n)
    decreases |heads| - i
  {
    if i == |heads| then i
    else if Key(heads[i]) in sure || Answers(env(i)) then Reached(sure, heads, env, i + 1)
    else i + 1
  }

  lemma {:induction false} AllReached(sure: set<(Stream, int)>, heads: seq<Pending>, env: nat -> Head, i: nat)
    requires i <= |heads| && forall k :: i <= k < |heads| ==> Answers(env(k))
    ensures Reached(sure, heads, env, i) == |heads|
    decreases |heads| - i
  {
    if i < |heads| { AllReached(sure, heads, env, i + 1); }
  }

  lemma UnjournalledNext(named: set<(Stream, int)>, heads: seq<Pending>, n: nat)
    requires n < |heads|
    ensures Unjournalled(named, heads[..n + 1]) == Unjournalled(named, heads[..n]) + if Key(heads[n]) in named then 0 else 1
  {
    assert heads[..n + 1][..n] == heads[..n];
  }

  ghost function Keys(heads: seq<Pending>): set<(Stream, int)>
  {
    set i | 0 <= i < |heads| :: Key(heads[i])
  }

  lemma KeysNext(heads: seq<Pending>, n: nat)
    requires Sound(heads) && n < |heads|
    ensures Keys(heads[..n + 1]) == Keys(heads[..n]) + {Key(heads[n])} && Key(heads[n]) !in Keys(heads[..n])
  {
    assert heads[..n + 1] == heads[..n] + [heads[n]];
  }

  ghost predicate Sound(heads: seq<Pending>)
  {
    InOrder(heads) && forall i :: 0 <= i < |heads| ==> heads[i].name.first <= heads[i].name.last
  }

  /** The record when `n` heads are drained and `m` have their place in the journal, from `before` on. */
  ghost predicate Draining(before: seq<Range>, heads: seq<Pending>, n: nat, m: nat, now: seq<Range>)
  {
    && n <= m <= |heads| && Named(now) == Named(before) + Keys(heads[..m]) && Sure(now) == Sure(before) + Keys(heads[..n])
    && |now| == |before| + Unjournalled(Named(before), heads[..m])
  }

  lemma DrainingStart(before: seq<Range>, heads: seq<Pending>)
    ensures Draining(before, heads, 0, 0, before)
  {
    assert Keys(heads[..0]) == {};
  }

  /** What the head was at the start it still is when its turn comes. */
  lemma DrainingHead(before: seq<Range>, heads: seq<Pending>, n: nat, now: seq<Range>)
    requires Sound(heads) && Draining(before, heads, n, n, now) && n < |heads|
    ensures Key(heads[n]) in Named(now) <==> Key(heads[n]) in Named(before)
    ensures Key(heads[n]) in Sure(now) <==> Key(heads[n]) in Sure(before)
  {
    hide Named;
    hide Sure;
    KeysNext(heads, n);
  }

  lemma DrainingNext(before: seq<Range>, heads: seq<Pending>, n: nat, now: seq<Range>, next: seq<Range>)
    requires Sound(heads) && Draining(before, heads, n, n, now) && n < |heads|
    requires Named(next) == Named(now) + {Key(heads[n])} && |next| == |now| + (if Key(heads[n]) in Named(now) then 0 else 1)
    ensures Sure(next) == Sure(now) ==> Draining(before, heads, n, n + 1, next)
    ensures Sure(next) == Sure(now) + {Key(heads[n])} ==> Draining(before, heads, n + 1, n + 1, next)
  {
    hide Named;
    hide Sure;
    hide Keys;
    DrainingHead(before, heads, n, now);
    KeysNext(heads, n);
    UnjournalledNext(Named(before), heads, n);
    hide Unjournalled;
    var named, keys, key := Named(before), Keys(heads[..n]), Key(heads[n]);
    assert named + keys + {key} == named + (keys + {key});
    assert Sure(before) + keys + {key} == Sure(before) + (keys + {key});
  }

  lemma DrainingCount(before: seq<Range>, heads: seq<Pending>, n: nat, m: nat, now: seq<Range>)
    requires Draining(before, heads, n, m, now)
    ensures m <= |heads| && |now| == |before| + Unjournalled(Named(before), heads[..m])
  {
  }

  /** A head that meets a full journal is one record too many. */
  lemma DrainingFull(before: seq<Range>, heads: seq<Pending>, n: nat, now: seq<Range>, k: nat)
    requires Sound(heads) && Draining(before, heads, n, n, now) && n < k <= |heads|
    requires Key(heads[n]) !in Named(now)
    ensures |now| < |before| + Unjournalled(Named(before), heads[..k])
  {
    hide Named;
    hide Sure;
    hide Keys;
    DrainingHead(before, heads, n, now);
    UnjournalledNext(Named(before), heads, n);
    UnjournalledGrows(Named(before), heads, n + 1, k);
  }

  /** What the finalization comes to: it stops without a claim, or its summary is made and judged. */
  datatype Finalized = Stopped(why: Published) | Concluded(made: Summarized, accepted: bool)

  /** A worker's whole log path for one attempt, with the rows the server holds for it. */
  class LogPublisher {
    const queue: LogQueue
    const assembler: LogAssembler
    var ranges: seq<Range>
    var catalogue: Two<seq<Registration>>
    /** The uploads the server has on file for each stream. */
    var declared: Two<nat>
    ghost var received: nat
    ghost var known: Two<nat>

    ghost predicate Valid()
      reads this, queue, assembler, assembler.spool, assembler.open.stdout, assembler.open.stderr
    {
      && queue.Valid() && assembler.Valid()
      && Caught(queue.sent, received, assembler.lastSeen, queue.counts) && HandedOver(queue.sent, received, assembler.seen)
      && |ranges| <= MAX_JOURNALLED && Recorded(ranges, catalogue, declared, assembler.tiles, known, assembler.acked, assembler.attempt)
    }

    constructor (attempt: Bytes, cap: nat)
      requires Canonical(attempt) && !IsNil(attempt)
      ensures Valid() && ranges == [] && catalogue == Two([], []) && !assembler.spool.poisoned
      ensures fresh(queue) && fresh(assembler) && fresh(assembler.spool) && assembler.spool.cap == cap
      ensures queue.counts == Two(0, 0) && queue.sent == [] && received == 0 && assembler.pending == []
      ensures assembler.open == Two(null, null) && assembler.tiles == Two([], [])
    {
      queue := new LogQueue();
      assembler := new LogAssembler(attempt, cap);
      ranges, catalogue, declared, received, known := [], Two([], []), Two(0, 0), 0, Two(0, 0);
      new;
      assert RecordsOf(queue.sent, 0, Stdout) == {} && RecordsOf(queue.sent, 0, Stderr) == {};
    }

    method Push(s: Stream, bytes: Bytes, moments: seq<Moment>) returns (r: Option<CaptureError>)
      requires Valid() && |moments| == |Pieces(bytes)|
      modifies queue
      ensures Valid() && old(queue.sent) <= queue.sent
      ensures r.None? <==> old(queue.counts).At(s) + |moments| <= MAX_I64 && forall i :: 0 <= i < |moments| ==> Passes(moments[i])
      ensures r.None? ==> queue.counts == Put(old(queue.counts), s, old(queue.counts).At(s) + |moments|)
                          && queue.sent == old(queue.sent) + Through(s, old(queue.counts).At(s), Pieces(bytes), moments, |moments|)
    {
      hide Books;
      hide Recorded;
      hide Numbered;
      hide HandedOver;
      r := queue.PushFrame(s, bytes, moments);
      HandedOverGrows(old(queue.sent), received, assembler.seen, queue.sent);
      ThroughAbove(s, old(queue.counts).At(s), Pieces(bytes), moments, queue.counts.At(s) - old(queue.counts).At(s));
    }

    /** The receiver's next chunk goes into the assembler; while the spool works it is always taken. */
    method Receive(chunk: Chunk, io: bool) returns (r: Option<AssembleError>)
      requires Valid() && received < |queue.sent| && chunk == queue.sent[received]
      modifies this`received, assembler, assembler.spool, assembler.open.stdout, assembler.open.stderr
      ensures Valid()
      ensures io && !old(assembler.spool.poisoned) ==> r.None? && received == old(received) + 1 && !assembler.spool.poisoned
      ensures assembler.open == Put(old(assembler.open), chunk.stream, assembler.open.At(chunk.stream))
      ensures r.None? && old(assembler.open).At(chunk.stream) == null ==>
                && assembler.tiles == old(assembler.tiles) && assembler.pending == old(assembler.pending)
                && assembler.open.At(chunk.stream) != null
                && assembler.open.At(chunk.stream).records == [Record(chunk.sequence, chunk.nanos, chunk.payload)]
    {
      hide Books;
      hide Written;
      hide Recorded;
      hide Continues;
      hide Tiling;
      hide LogWriter.LogSegmentWriter.Valid;
      hide LogAssembler.Valid;
      hide Put;
      hide LogQueue.Valid;
      QueueCounts();
      hide Caught;
      hide Numbered;
      ghost var before := assembler.tiles;
      ChunkIs(queue.sent, received, queue.counts, assembler.lastSeen);
      CaughtAfter(queue.sent, received, assembler.lastSeen, queue.counts);
      HandedOverNext(queue.sent, received, assembler.seen);
      hide HandedOver;
      r := assembler.Ingest(chunk.stream, chunk.sequence, chunk.nanos, chunk.payload, io);
      assembler.StoredTiles(Stdout);
      assembler.StoredTiles(Stderr);
      RecordedGrows(ranges, catalogue, declared, before, assembler.tiles, known, assembler.acked, assembler.attempt);
      if r.None? {
        received := received + 1;
      }
    }

    lemma QueueCounts()
      requires Valid()
      ensures queue.counts.stdout <= MAX_I64 && queue.counts.stderr <= MAX_I64 && Numbered(queue.sent, queue.counts)
    {
    }

    method Flush(io: Two<bool>) returns (r: Option<AssembleError>)
      requires Valid()
      modifies assembler`open, assembler`lastStored, assembler`pending, assembler`tiles, assembler.spool
      ensures Valid() && (r.None? ==> assembler.open == Two(null, null))
      ensures old(assembler.tiles).stdout <= assembler.tiles.stdout && old(assembler.tiles).stderr <= assembler.tiles.stderr
      ensures (old(assembler.open).stdout != null && old(assembler.open).stdout.records != [] && old(assembler.open).stderr == null
               && io == Two(true, true) && !old(assembler.spool.poisoned) && |old(assembler.spool.entries)| < LogSpool.MAX_SPOOL_SEGMENTS
               && |old(assembler.open).stdout.bytes| <= assembler.spool.cap - old(assembler.spool.used)) ==>
                && r.None? && !assembler.spool.poisoned && assembler.tiles.stderr == old(assembler.tiles).stderr
                && |assembler.tiles.stdout| == |old(assembler.tiles).stdout| + 1
                && assembler.tiles.stdout[|old(assembler.tiles).stdout|].records == old(assembler.open).stdout.records
    {
      hide Books;
      hide Written;
      hide Recorded;
      hide Numbered;
      hide Caught;
      hide HandedOver;
      hide Continues;
      hide Tiling;
      ghost var before := assembler.tiles;
      r := assembler.FlushAll(io);
      assembler.StoredTiles(Stdout);
      assembler.StoredTiles(Stderr);
      RecordedGrows(ranges, catalogue, declared, before, assembler.tiles, known, assembler.acked, assembler.attempt);
    }

    /** prepare_log: the head of the queue gets its one record. It is refused exactly when it needs a new one
        and the journal is full or takes no more. */
    method Prepare(p: Pending, accepts: bool) returns (r: Published, k: nat)
      requires Valid() && assembler.pending != [] && p == assembler.pending[0]
      modifies this`ranges
      ensures Valid()
      ensures r == if Key(p) !in Named(old(ranges)) && (!accepts || |old(ranges)| >= MAX_JOURNALLED) then JournalRefused else Confirmed
      ensures r == JournalRefused ==> ranges == old(ranges)
      ensures r == Confirmed ==>
                && Named(ranges) == Named(old(ranges)) + {Key(p)} && Sure(ranges) == Sure(old(ranges))
                && |ranges| == |old(ranges)| + (if Key(p) in Named(old(ranges)) then 0 else 1)
                && k < |ranges| && ranges[k].stream == p.name.stream && ranges[k].first == p.name.first
                && Count(ranges, k, p.name.stream) == assembler.acked.At(p.name.stream)
    {
      hide Books;
      hide Written;
      hide Recorded;
      hide Caught;
      hide Numbered;
      hide HandedOver;
      hide Count;
      hide ClaimsOf;
      assembler.FrontTile();
      ghost var s, m := p.name.stream, assembler.acked.At(p.name.stream);
      k := Find(ranges, p.name.stream, p.name.first);
      PreparedIs(ranges, catalogue, declared, assembler.tiles, known, assembler.acked, assembler.attempt, s, k);
      assert k < |ranges| ==> Key(p) in Named(ranges);
      if k < |ranges| {
        if ranges[k].last != p.name.last || ranges[k].gaps != ClaimsOf(p.name.stream, p.gaps) {
          return JournalConflict, k;
        }
        return Confirmed, k;
      }
      assert Key(p) !in Named(ranges);
      var previous := Previous(ranges, p.name.stream);
      PreviousIs(ranges, catalogue, declared, assembler.tiles, known, assembler.acked, assembler.attempt, s, previous);
      if !accepts || |ranges| >= MAX_JOURNALLED
         || (previous.Some? && (!previous.value.registered || previous.value.last + 1 != p.name.first))
         || (previous.None? && p.name.first != 1) {
        return JournalRefused, k;
      }
      ghost var more := ranges + [RangeOf(assembler.tiles.At(s)[m], false)];
      RecordedAppends(ranges, catalogue, declared, assembler.tiles, known, assembler.acked, assembler.attempt, s, more);
      NamedAppends(ranges, RangeOf(assembler.tiles.At(s)[m], false));
      ranges := ranges + [Range(p.name.stream, p.name.first, p.name.last, ClaimsOf(p.name.stream, p.gaps), false)];
      return Confirmed, k;
    }

    /** The server catalogues the segment, once. */
    method Enrol(p: Pending, ghost k: nat) returns (ok: bool)
      requires Valid() && assembler.pending != [] && p == assembler.pending[0] && declared.At(p.name.stream) == assembler.acked.At(p.name.stream) + 1
      requires k < |ranges| && ranges[k].stream == p.name.stream && Count(ranges, k, p.name.stream) == assembler.acked.At(p.name.stream)
      modifies this`catalogue
      ensures Valid() && ok && |catalogue.At(p.name.stream)| == assembler.acked.At(p.name.stream) + 1
    {
      hide Books;
      hide Written;
      hide Recorded;
      hide Caught;
      hide Numbered;
      hide HandedOver;
      hide Count;
      hide RangeAccepted;
      hide Contiguous;
      assembler.FrontTile();
      var s := p.name.stream;
      var saved := SavedRow(catalogue.At(s), p.name.first);
      RecordedAt(ranges, catalogue, declared, assembler.tiles, known, assembler.acked, assembler.attempt, s, k);
      NextRegisters(ranges, catalogue, declared, assembler.tiles, known, assembler.acked, assembler.attempt, s, saved);
      var rows;
      ok, rows := Register(catalogue.At(s), saved, Registration(p.name.first, p.name.last, p.gaps));
      if saved.None? {
        RecordedCatalogued(ranges, catalogue, declared, assembler.tiles, known, assembler.acked, assembler.attempt, s, Put(catalogue, s, rows));
        catalogue := Put(catalogue, s, rows);
      }
    }

    /** deliver_log: what is confirmed stays confirmed; a lost reply leaves the server ahead by an upload or a row. */
    method Deliver(p: Pending, k: nat, delivery: Delivery) returns (r: Published)
      requires Valid() && assembler.pending != [] && p == assembler.pending[0]
      requires k < |ranges| && ranges[k].stream == p.name.stream && ranges[k].first == p.name.first
      requires Count(ranges, k, p.name.stream) == assembler.acked.At(p.name.stream)
      modifies this`ranges, this`catalogue, this`declared, this`known
      ensures Valid() && |ranges| == |old(ranges)| && Named(ranges) == Named(old(ranges))
      ensures r == if Key(p) in Sure(old(ranges)) || delivery.Answered? then Confirmed else NotDelivered
      ensures r == Confirmed ==> Sure(ranges) == Sure(old(ranges)) + {Key(p)} && known.At(p.name.stream) == assembler.acked.At(p.name.stream) + 1
      ensures r == NotDelivered ==> ranges == old(ranges)
    {
      hide Books;
      hide Written;
      hide Recorded;
      hide Caught;
      hide Numbered;
      hide HandedOver;
      hide Count;
      hide RangeAccepted;
      hide Contiguous;
      hide Continues;
      assembler.FrontTile();
      var s := p.name.stream;
      RecordedAt(ranges, catalogue, declared, assembler.tiles, known, assembler.acked, assembler.attempt, s, k);
      SureIs(ranges, catalogue, declared, assembler.tiles, known, assembler.acked, assembler.attempt, s, k);
      if ranges[k].registered {
        return Confirmed;
      }
      if delivery.Unsent? {
        return NotDelivered;
      }
      RecordedDeclares(ranges, catalogue, declared, assembler.tiles, known, assembler.acked, assembler.attempt, s);
      declared := Put(declared, s, Count(ranges, k, s) + 1);
      if delivery.Declared? {
        return NotDelivered;
      }
      var ok := Enrol(p, k);
      if !ok {
        return ServerRefused;
      }
      if delivery.Unanswered? {
        return NotDelivered;
      }
      RecordedConfirms(ranges, catalogue, declared, assembler.tiles, known, assembler.acked, assembler.attempt, s, k,
                       ranges[k := ranges[k].(registered := true)]);
      SureConfirms(ranges, k, ranges[k := ranges[k].(registered := true)]);
      ranges, known := ranges[k := ranges[k].(registered := true)], Put(known, s, known.At(s) + 1);
      return Confirmed;
    }

    /** acknowledge_front, once the head is confirmed. */
    method Acknowledge(removes: bool) returns (r: Published)
      requires Valid() && assembler.pending != []
      requires var s := assembler.pending[0].name.stream; known.At(s) == assembler.acked.At(s) + 1
      modifies assembler`pending, assembler`acked, assembler.spool
      ensures Valid() && r == if removes && !old(assembler.spool.poisoned) then Confirmed else NotRemoved
      ensures assembler.pending == if r == Confirmed then old(assembler.pending)[1..] else old(assembler.pending)
      ensures r == Confirmed ==> !assembler.spool.poisoned
    {
      hide Books;
      hide Written;
      hide Caught;
      hide Numbered;
      hide HandedOver;
      hide Recorded;
      ghost var acked, s := assembler.acked, assembler.pending[0].name.stream;
      var failed := assembler.AcknowledgeFront(removes, removes);
      if failed.Some? {
        return NotRemoved;
      }
      RecordedAcks(ranges, catalogue, declared, assembler.tiles, known, acked, assembler.attempt, s);
      return Confirmed;
    }

    /** One round of publishing while the attempt runs: it never conflicts with its own journal, is never
        refused by the server, and the journal refuses it exactly when the head needs a new record there and
        the journal is full or takes no more. */
    method Publish(accepts: bool, delivery: Delivery, removes: bool) returns (r: Published)
      requires Valid()
      modifies this`ranges, this`catalogue, this`declared, this`known, assembler`pending, assembler`acked, assembler.spool
      ensures Valid() && r != JournalConflict && r != ServerRefused
      ensures r == JournalRefused <==>
                && old(assembler.pending) != [] && Key(old(assembler.pending)[0]) !in Named(old(ranges))
                && (!accepts || |old(ranges)| >= MAX_JOURNALLED)
      ensures r == Confirmed <==>
                && old(assembler.pending) != [] && r != JournalRefused && removes && !old(assembler.spool.poisoned)
                && (delivery.Answered? || Key(old(assembler.pending)[0]) in Sure(old(ranges)))
      ensures assembler.pending == if r == Confirmed then old(assembler.pending)[1..] else old(assembler.pending)
      ensures r == Confirmed ==>
                && |ranges| == |old(ranges)| + (if Key(old(assembler.pending)[0]) in Named(old(ranges)) then 0 else 1)
                && !assembler.spool.poisoned
    {
      hide Books;
      hide Written;
      hide Caught;
      hide Numbered;
      hide HandedOver;
      hide Recorded;
      hide Count;
      hide Named;
      hide Sure;
      if assembler.pending == [] {
        return Idle;
      }
      var p := assembler.pending[0];
      var k;
      r, k := Prepare(p, accepts);
      if r != Confirmed {
        return;
      }
      r := Deliver(p, k, delivery);
      if r != Confirmed {
        return;
      }
      r := Acknowledge(removes);
    }

    /** The finalization's work on the head of the queue: a record, up to three deliveries, an acknowledgement. */
    method Drain(h: Head) returns (r: Published)
      requires Valid() && assembler.pending != []
      modifies this`ranges, this`catalogue, this`declared, this`known, assembler`pending, assembler`acked, assembler.spool
      ensures Valid() && (r in {Confirmed, NotDelivered, JournalRefused, NotReadable, Rejected, NotRemoved})
      ensures var p := old(assembler.pending)[0];
              && (r == JournalRefused <==> Key(p) !in Named(old(ranges)) && (!h.accepts || |old(ranges)| >= MAX_JOURNALLED))
              && (r == JournalRefused ==> ranges == old(ranges))
              && (r != JournalRefused ==> Named(ranges) == Named(old(ranges)) + {Key(p)}
                                          && |ranges| == |old(ranges)| + (if Key(p) in Named(old(ranges)) then 0 else 1))
              && (r == Confirmed ==> Sure(ranges) == Sure(old(ranges)) + {Key(p)} && !assembler.spool.poisoned)
              && (r == NotDelivered ==> Sure(ranges) == Sure(old(ranges)))
              && (Works(h) && !old(assembler.spool.poisoned) && r != JournalRefused ==>
                    r == if Key(p) in Sure(old(ranges)) || Answers(h) then Confirmed else NotDelivered)
      ensures assembler.pending == if r == Confirmed then old(assembler.pending)[1..] else old(assembler.pending)
    {
      hide Books;
      hide Written;
      hide Caught;
      hide Numbered;
      hide HandedOver;
      hide Recorded;
      hide Count;
      hide Named;
      hide Sure;
      var p := assembler.pending[0];
      var k;
      r, k := Prepare(p, h.accepts);
      if r != Confirmed {
        return;
      }
      r := DeliverRounds(p, k, h);
      if r == Confirmed {
        r := Acknowledge(h.removes);
      }
    }

    method DeliverRounds(p: Pending, k: nat, h: Head) returns (r: Published)
      requires Valid() && assembler.pending != [] && p == assembler.pending[0]
      requires k < |ranges| && ranges[k].stream == p.name.stream && ranges[k].first == p.name.first
      requires Count(ranges, k, p.name.stream) == assembler.acked.At(p.name.stream)
      modifies this`ranges, this`catalogue, this`declared, this`known
      ensures Valid() && |ranges| == |old(ranges)| && Named(ranges) == Named(old(ranges))
      ensures r in {Confirmed, NotDelivered, NotReadable, Rejected}
      ensures r == Confirmed ==> Sure(ranges) == Sure(old(ranges)) + {Key(p)} && known.At(p.name.stream) == assembler.acked.At(p.name.stream) + 1
      ensures r == NotDelivered ==> Sure(ranges) == Sure(old(ranges))
      ensures Works(h) ==> r == if Key(p) in Sure(old(ranges)) || Answers(h) then Confirmed else NotDelivered
    {
      hide Books;
      hide Written;
      hide Caught;
      hide Numbered;
      hide HandedOver;
      hide Recorded;
      hide Count;
      hide Named;
      hide Sure;
      for n := 0 to MAX_DELIVERY_ATTEMPTS
        invariant Valid() && ranges == old(ranges) && (n > 0 ==> Key(p) !in Sure(ranges))
        invariant forall m :: 0 <= m < n ==> !h.rounds(m).delivery.Answered?
      {
        if !h.rounds(n).readable {
          return NotReadable;
        }
        r := Deliver(p, k, h.rounds(n).delivery);
        if r == Confirmed {
          return;
        }
        if h.rounds(n).final {
          return Rejected;
        }
      }
      return NotDelivered;
    }

    /** The draining loop: `stop` is what ends it without a claim, Confirmed if nothing does. */
    method DrainQueue(env: nat -> Head) returns (stop: Published, delivered: bool)
      requires Valid()
      modifies this`ranges, this`catalogue, this`declared, this`known, assembler`pending, assembler`acked, assembler.spool
      ensures Valid() && (stop == Confirmed && delivered ==> assembler.pending == [])
      ensures (forall i :: 0 <= i < |old(assembler.pending)| ==> Works(env(i))) && !old(assembler.spool.poisoned) ==>
                var reached := Reached(Sure(old(ranges)), old(assembler.pending), env, 0);
                && (stop == JournalRefused <==> |old(ranges)| + Unjournalled(Named(old(ranges)), old(assembler.pending)[..reached]) > MAX_JOURNALLED)
                && (stop == JournalRefused || stop == Confirmed)
                && (stop == Confirmed && (forall i :: 0 <= i < |old(assembler.pending)| ==> Answers(env(i))) ==> delivered)
    {
      hide LogPublisher.Valid;
      hide Named;
      hide Sure;
      hide Answers;
      hide Draining;
      hide Sound;
      hide Unjournalled;
      ghost var heads, before := assembler.pending, ranges;
      ghost var works := (forall i :: 0 <= i < |heads| ==> Works(env(i))) && !assembler.spool.poisoned;
      DrainingStart(before, heads);
      QueueOrdered();
      var n := 0;
      delivered := true;
      while delivered && assembler.pending != []
        invariant Valid() && n + (if delivered then 0 else 1) <= |heads| && assembler.pending == heads[n..]
        invariant Draining(before, heads, n, if delivered then n else n + 1, ranges)
        invariant works && delivered ==> !assembler.spool.poisoned
        invariant works ==> Reached(Sure(before), heads, env, 0) == if delivered then Reached(Sure(before), heads, env, n) else n + 1
        invariant works && !delivered ==> !Answers(env(n))
        decreases if delivered then 1 else 0, |assembler.pending|
      {
        ghost var now := ranges;
        DrainingHead(before, heads, n, now);
        QueueOrdered();
        assert assembler.pending[0] == heads[n];
        stop := Drain(env(n));
        if stop == JournalRefused && env(n).accepts {
          DrainingFull(before, heads, n, now, Reached(Sure(before), heads, env, n));
        }
        if stop != Confirmed && stop != NotDelivered {
          return;
        }
        DrainingNext(before, heads, n, now, ranges);
        if stop == Confirmed {
          n := n + 1;
        } else {
          delivered := false;
        }
      }
      QueueOrdered();
      DrainingCount(before, heads, n, if delivered then n else n + 1, ranges);
      stop := Confirmed;
    }

    /** publish_finished_logs: drains the queue and concludes. A head without its record, an unreadable or
        unremovable file and a rejected delivery end it without a claim; a head that gets no answer ends the
        draining, and the claim is not complete. */
    method Finalize(env: nat -> Head, finished: bool) returns (r: Finalized)
      requires Valid()
      modifies this`ranges, this`catalogue, this`declared, this`known, assembler`pending, assembler`acked, assembler.spool
      ensures Valid() && known.stdout <= |assembler.tiles.stdout| && known.stderr <= |assembler.tiles.stderr|
      // The claim: made exactly when the losses are few, then accepted, and it states exactly the losses.
      ensures r.Concluded? ==> !r.made.Invalid? && (r.made.Made? <==> FewLost(assembler.tiles, known, queue.counts))
      ensures r.Concluded? && r.made.Made? ==> r.accepted && IsLoss(r.made.summary.gaps, assembler.tiles, known, queue.counts)
      ensures |catalogue.stdout| <= |assembler.tiles.stdout| && |catalogue.stderr| <= |assembler.tiles.stderr|
      ensures r.Concluded? && r.made.Made? && r.made.summary.complete ==>
                && finished && assembler.pending == [] && declared == Two(|catalogue.stdout|, |catalogue.stderr|)
                && AllKept(assembler.tiles.stdout, |catalogue.stdout|, queue.counts.stdout)
                && AllKept(assembler.tiles.stderr, |catalogue.stderr|, queue.counts.stderr)
      // With every file operation working and the authority kept, only a full journal stops it.
      ensures (forall i :: 0 <= i < |old(assembler.pending)| ==> Works(env(i))) && !old(assembler.spool.poisoned) ==>
                && (r.Stopped? <==> |old(ranges)| + Unjournalled(Named(old(ranges)),
                                      old(assembler.pending)[..Reached(Sure(old(ranges)), old(assembler.pending), env, 0)]) > MAX_JOURNALLED)
                && (r.Stopped? ==> r.why == JournalRefused)
      // When every head is answered too, the condition and the losses are those of the stored segments.
      ensures (forall i :: 0 <= i < |old(assembler.pending)| ==> Works(env(i)) && Answers(env(i))) && !old(assembler.spool.poisoned) ==>
                && (r.Stopped? <==> |old(ranges)| + Unjournalled(Named(old(ranges)), old(assembler.pending)) > MAX_JOURNALLED)
                && (r.Concluded? ==> known == Two(|assembler.tiles.stdout|, |assembler.tiles.stderr|))
    {
      hide LogPublisher.Valid;
      hide Named;
      hide Sure;
      hide Answers;
      hide Works;
      hide Unjournalled;
      hide FewLost;
      hide IsLoss;
      hide AllKept;
      ghost var heads, sure := assembler.pending, Sure(ranges);
      if forall i :: 0 <= i < |heads| ==> Works(env(i)) && Answers(env(i)) {
        AllReached(sure, heads, env, 0);
        assert heads[..|heads|] == heads;
      }
      var stop, delivered := DrainQueue(env);
      Drained();
      if stop != Confirmed {
        return Stopped(stop);
      }
      var made, ok := Finish(finished && delivered);
      return Concluded(made, ok);
    }

    lemma QueueOrdered()
      requires Valid()
      ensures Sound(assembler.pending) && |ranges| <= MAX_JOURNALLED
    {
    }

    /** With an empty queue every stored segment is confirmed. */
    lemma Drained()
      requires Valid()
      ensures known.stdout <= |assembler.tiles.stdout| && known.stderr <= |assembler.tiles.stderr|
      ensures |catalogue.stdout| <= |assembler.tiles.stdout| && |catalogue.stderr| <= |assembler.tiles.stderr|
      ensures assembler.pending == [] ==> known == Two(|assembler.tiles.stdout|, |assembler.tiles.stderr|)
    {
      hide Written;
      hide Journalled;
      hide Tiling;
      hide Caught;
      assembler.StoredTiles(Stdout);
      assembler.StoredTiles(Stderr);
    }

    /** The completion's log claim, and the server's verdict on it. */
    method Finish(finished: bool) returns (r: Summarized, ok: bool)
      requires Valid()
      ensures Valid() && known.stdout <= |assembler.tiles.stdout| && known.stderr <= |assembler.tiles.stderr|
      ensures |catalogue.stdout| <= |assembler.tiles.stdout| && |catalogue.stderr| <= |assembler.tiles.stderr|
      ensures !r.Invalid? && (r.Made? <==> FewLost(assembler.tiles, known, queue.counts))
      ensures r.Made? ==> ok && IsLoss(r.summary.gaps, assembler.tiles, known, queue.counts)
      // A complete claim: every captured number has its record in the catalogue, and no upload waits.
      ensures r.Made? && r.summary.complete ==>
                && finished && declared == Two(|catalogue.stdout|, |catalogue.stderr|)
                && AllKept(assembler.tiles.stdout, |catalogue.stdout|, queue.counts.stdout)
                && AllKept(assembler.tiles.stderr, |catalogue.stderr|, queue.counts.stderr)
    {
      hide Written;
      hide Numbered;
      hide Claimed;
      hide Lost;
      hide FewLost;
      hide IsLoss;
      hide AllKept;
      hide Evidence;
      hide Journalled;
      hide Tiling;
      assembler.StoredTiles(Stdout);
      assembler.StoredTiles(Stderr);
      r, ok := Conclude(ranges, queue.counts, finished, catalogue, declared, assembler.tiles, known, assembler.attempt);
    }

    /** Every record of a catalogued segment is one captured chunk, with its number, time and bytes. */
    lemma CatalogueIsCaptured(s: Stream, m: nat, r: Record)
      requires Valid() && m < |catalogue.At(s)| && m < |assembler.tiles.At(s)| && r in assembler.tiles.At(s)[m].records
      ensures catalogue.At(s)[m] == RowOf(assembler.tiles.At(s)[m])
      ensures Chunk(s, r.sequence, r.nanos, r.payload) in queue.sent[..received]
    {
      hide Written;
      hide Journalled;
      hide Tiling;
      hide Caught;
      assembler.StoredTiles(s);
      assert r in assembler.seen.At(s);
      var i :| 0 <= i < received && queue.sent[i].stream == s && r == Record(queue.sent[i].sequence, queue.sent[i].nanos, queue.sent[i].payload);
      assert queue.sent[..received][i] == queue.sent[i];
    }
  }

  /** What the search for a saved record finds. */
  lemma PreparedIs(
    ranges: seq<Range>, catalogue: Two<seq<Registration>>, declared: Two<nat>, tiles: Two<seq<Tile>>, known: Two<nat>, acked: Two<nat>, attempt: Bytes, s: Stream, k: nat)
    requires Recorded(ranges, catalogue, declared, tiles, known, acked, attempt) && acked.At(s) < |tiles.At(s)| && k <= |ranges|
    requires k < |ranges| ==> ranges[k].stream == s && ranges[k].first == tiles.At(s)[acked.At(s)].sealed.first
    requires k == |ranges| ==> forall i :: 0 <= i < |ranges| ==> !(ranges[i].stream == s && ranges[i].first == tiles.At(s)[acked.At(s)].sealed.first)
    ensures k < |ranges| ==> Count(ranges, k, s) == acked.At(s) && ranges[k].last == tiles.At(s)[acked.At(s)].sealed.last
                             && ranges[k].gaps == ClaimsOf(s, tiles.At(s)[acked.At(s)].sealed.gaps)
    ensures k == |ranges| ==> Count(ranges, |ranges|, s) == acked.At(s) && known.At(s) == acked.At(s)
  {
    var m := acked.At(s);
    JournalledTilings(ranges, tiles, known, attempt);
    TileStream(tiles, attempt, s, m);
    if k < |ranges| {
      FoundIs(ranges, tiles, known, attempt, s, k, m);
    } else if m < Count(ranges, |ranges|, s) {
      CountedIsFound(ranges, tiles, known, attempt, s, m);
    }
  }

  lemma CountedIsFound(ranges: seq<Range>, tiles: Two<seq<Tile>>, known: Two<nat>, attempt: Bytes, s: Stream, m: nat)
    requires Journalled(ranges, tiles, known, attempt) && m < Count(ranges, |ranges|, s) && m < |tiles.At(s)|
    ensures exists i :: 0 <= i < |ranges| && ranges[i].stream == s && ranges[i].first == tiles.At(s)[m].sealed.first
  {
    var i := AtCount(ranges, |ranges|, s, m);
    assert RangeAt(ranges, i, tiles, known);
  }

  /** The record before the next segment is confirmed and ends right before it. */
  lemma PreviousIs(
    ranges: seq<Range>, catalogue: Two<seq<Registration>>, declared: Two<nat>, tiles: Two<seq<Tile>>, known: Two<nat>, acked: Two<nat>, attempt: Bytes,
    s: Stream, previous: Option<Range>)
    requires Recorded(ranges, catalogue, declared, tiles, known, acked, attempt) && acked.At(s) < |tiles.At(s)|
    requires Count(ranges, |ranges|, s) == acked.At(s) == known.At(s) && (previous.None? <==> acked.At(s) == 0)
    requires previous.Some? ==> exists k :: 0 <= k < |ranges| && ranges[k] == previous.value && previous.value.stream == s
                                            && Count(ranges, k, s) + 1 == Count(ranges, |ranges|, s)
    ensures previous.None? ==> tiles.At(s)[acked.At(s)].sealed.first == 1
    ensures previous.Some? ==> previous.value.registered && previous.value.last + 1 == tiles.At(s)[acked.At(s)].sealed.first
  {
    hide Journalled;
    hide Count;
    hide Tiling;
    hide RangeAt;
    var m := acked.At(s);
    JournalledTilings(ranges, tiles, known, attempt);
    TileFollows(tiles.At(s), attempt, s, m);
    if previous.Some? {
      var k :| 0 <= k < |ranges| && ranges[k] == previous.value && previous.value.stream == s && Count(ranges, k, s) + 1 == m;
      RangeIs(ranges, tiles, known, attempt, k);
      assert tiles.At(s)[..m][m - 1] == tiles.At(s)[m - 1];
    }
  }

  lemma RangeIs(ranges: seq<Range>, tiles: Two<seq<Tile>>, known: Two<nat>, attempt: Bytes, k: nat)
    requires Journalled(ranges, tiles, known, attempt) && k < |ranges|
    ensures var s := ranges[k].stream;
            var m := Count(ranges, k, s);
            m < |tiles.At(s)| && ranges[k].last == tiles.At(s)[m].sealed.last && ranges[k].registered == (m < known.At(s))
  {
    assert RangeAt(ranges, k, tiles, known);
  }

  lemma RecordedAcks(
    ranges: seq<Range>, catalogue: Two<seq<Registration>>, declared: Two<nat>, tiles: Two<seq<Tile>>, known: Two<nat>, acked: Two<nat>, attempt: Bytes, s: Stream)
    requires Recorded(ranges, catalogue, declared, tiles, known, acked, attempt) && known.At(s) == acked.At(s) + 1
    ensures Recorded(ranges, catalogue, declared, tiles, known, Put(acked, s, acked.At(s) + 1), attempt)
  {
    hide Journalled;
    hide Count;
  }
}
