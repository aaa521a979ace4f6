/** A lossless capture that the journal's limit leaves without a claim, reached by the pipeline's own steps. */
module LogLimits {
  import opened Base
  import opened LogFormat
  import opened LogWriter
  import opened LogTiles
  import opened LogRange
  import opened LogAssembler
  import opened LogCapture
  import opened LogEvidence
  import opened LogCompletion
  import opened LogPublish
  import opened LogSummary

  /** Stdout has the numbers 1 to `i`, one record to a segment. */
  ghost predicate Gapless(tiles: Two<seq<Tile>>, i: nat)
  {
    && |tiles.stdout| == i && tiles.stderr == [] && LastOf(tiles.stdout) == i
    && forall m :: 0 <= m < i ==> tiles.stdout[m].sealed.gaps == []
  }

  lemma GaplessNext(tiles: Two<seq<Tile>>, more: Two<seq<Tile>>, attempt: Bytes, i: nat, r: Record)
    requires Gapless(tiles, i) && Tiling(more.stdout, attempt, Stdout) && tiles.stdout <= more.stdout && |more.stdout| == i + 1
    requires more.stdout[i].records == [r] && r.sequence == i + 1 && more.stderr == tiles.stderr
    ensures Gapless(more, i + 1)
  {
    var t := more.stdout[i];
    assert more.stdout[..i] == tiles.stdout;
    assert TileOk(t, attempt, Stdout) && t.sealed.first == i + 1;
    assert [r][..0] == [];
    assert Holes(i + 1, [r]) == [] && NextExpected(i + 1, [r]) == i + 2;
  }

  lemma GaplessLosesNothing(tiles: Two<seq<Tile>>, i: nat, captured: Two<int>, s: Stream, n: int)
    requires Gapless(tiles, i) && captured == Two(i, 0)
    ensures !Lost(tiles.At(s), |tiles.At(s)|, captured.At(s), n)
  {
    assert tiles.At(s)[..|tiles.At(s)|] == tiles.At(s);
  }

  lemma GaplessIsKept(tiles: Two<seq<Tile>>, attempt: Bytes, i: nat, captured: Two<int>)
    requires Gapless(tiles, i) && Tiling(tiles.stdout, attempt, Stdout) && captured == Two(i, 0)
    ensures AllKept(tiles.stdout, |tiles.stdout|, captured.stdout) && FewLost(tiles, Two(|tiles.stdout|, |tiles.stderr|), captured)
  {
    hide Tiling;
    hide Lost;
    hide AllKept;
    forall s, n ensures !Lost(tiles.At(s), |tiles.At(s)|, captured.At(s), n) { GaplessLosesNothing(tiles, i, captured, s, n); }
    NothingLostIsKept(tiles.stdout, i, i, attempt, Stdout, i) by {
      forall n ensures !Lost(tiles.stdout, i, i, n) { GaplessLosesNothing(tiles, i, captured, Stdout, n); }
    }
    assert IsLoss([], tiles, Two(|tiles.stdout|, |tiles.stderr|), captured);
  }

  /** Everything captured so far is stored, confirmed and acknowledged. */
  ghost predicate Steady(p: LogPublisher, i: nat)
    reads p, p.queue, p.assembler, p.assembler.spool, p.assembler.open.stdout, p.assembler.open.stderr
  {
    && p.Valid() && p.queue.counts == Two(i, 0) && p.received == |p.queue.sent| && |p.ranges| == i
    && p.assembler.open == Two(null, null) && p.assembler.pending == [] && Gapless(p.assembler.tiles, i)
    && !p.assembler.spool.poisoned && p.assembler.spool.cap == MAX_SEGMENT_BYTES
  }

  /** The next segment is stored and waits, without a record in the journal. */
  ghost predicate OneWaits(p: LogPublisher, i: nat)
    reads p, p.queue, p.assembler, p.assembler.spool, p.assembler.open.stdout, p.assembler.open.stderr
  {
    && p.Valid() && p.queue.counts == Two(i + 1, 0) && p.received == |p.queue.sent| && |p.ranges| == i
    && p.assembler.open == Two(null, null) && Gapless(p.assembler.tiles, i + 1)
    && |p.assembler.pending| == 1 && Key(p.assembler.pending[0]) !in Named(p.ranges)
    && !p.assembler.spool.poisoned && p.assembler.spool.cap == MAX_SEGMENT_BYTES
  }

  lemma {:induction false} MineSplits(pending: seq<Pending>)
    ensures |pending| == |Mine(pending, Stdout)| + |Mine(pending, Stderr)|
  {
    if pending != [] { MineSplits(pending[1..]); }
  }

  lemma {:induction false} CountAtMost(ranges: seq<Range>, n: nat, s: Stream)
    requires n <= |ranges|
    ensures Count(ranges, n, s) <= n
  {
    if n > 0 { CountAtMost(ranges, n - 1, s); }
  }

  lemma EmptySpool(p: LogPublisher)
    requires p.Valid() && p.assembler.pending == []
    ensures p.assembler.spool.entries == map[] && p.assembler.spool.used == 0
    ensures p.assembler.acked == Two(|p.assembler.tiles.stdout|, |p.assembler.tiles.stderr|)
  {
    p.assembler.StoredTiles(Stdout);
    p.assembler.StoredTiles(Stderr);
    hide Recorded;
    hide Written;
    hide Caught;
    var entries := p.assembler.spool.entries;
    assert forall name :: name !in entries;
    assert entries == map[];
  }

  /** With all records spent on acknowledged segments, the one that waits has none. */
  lemma WaitsUnnamed(p: LogPublisher, i: nat)
    requires p.Valid() && |p.ranges| == i == p.assembler.acked.stdout && p.assembler.acked.stderr == 0
    requires |p.assembler.tiles.stdout| == i + 1 && p.assembler.tiles.stderr == []
    ensures |p.assembler.pending| == 1 && Key(p.assembler.pending[0]) !in Named(p.ranges)
  {
    p.assembler.StoredTiles(Stdout);
    p.assembler.StoredTiles(Stderr);
    MineSplits(p.assembler.pending);
    p.assembler.FrontTile();
    hide Written;
    hide Books;
    hide Caught;
    hide HandedOver;
    hide Tiling;
    var s := p.assembler.pending[0].name.stream;
    assert s.Stdout?;
    forall k | 0 <= k < |p.ranges| && p.ranges[k].stream == s ensures p.ranges[k].first != p.assembler.tiles.stdout[i].sealed.first {
      CountAtMost(p.ranges, k, s);
      if p.ranges[k].first == p.assembler.tiles.stdout[i].sealed.first {
        FoundIs(p.ranges, p.assembler.tiles, p.known, p.assembler.attempt, s, k, i);
      }
    }
  }

  /** One captured byte becomes one stored segment. */
  method StoreOne(p: LogPublisher, i: nat)
    requires Steady(p, i) && i < MAX_I64
    modifies p`received, p.queue, p.assembler, p.assembler.spool
    ensures OneWaits(p, i)
  {
    hide LogPublisher.Valid;
    hide Gapless;
    hide Named;
    hide Pieces;
    var moments := [Moment(Some(0), Room)];
    assert Pieces([0]) == [[0]] by { OnePiece(); }
    var pushed := p.Push(Stdout, [0], moments);
    OneThrough(i, moments);
    var c := Chunk(Stdout, i + 1, 0, [0]);
    Unpushed(p);
    var received := p.Receive(c, true);
    OpenFits(p);
    EmptySpool(p);
    ghost var tiles := p.assembler.tiles;
    var flushed := p.Flush(Two(true, true));
    Stored(p);
    GaplessCounts(tiles, i);
    GaplessNext(tiles, p.assembler.tiles, p.assembler.attempt, i, Record(i + 1, 0, [0]));
    WaitsUnnamed(p, i);
  }

  lemma OnePiece()
    ensures Pieces([0]) == [[0]]
  {
  }

  lemma OneThrough(i: nat, moments: seq<Moment>)
    requires moments == [Moment(Some(0), Room)]
    ensures Through(Stdout, i, [[0]], moments, 1) == [Chunk(Stdout, i + 1, 0, [0])]
  {
    assert Through(Stdout, i, [[0]], moments, 0) == [];
  }

  lemma Unpushed(p: LogPublisher)
    requires p.Valid()
    ensures p.received <= |p.queue.sent| && p.assembler.spool.Valid()
  {
  }

  lemma OpenFits(p: LogPublisher)
    requires p.Valid() && p.assembler.open.stdout != null
    ensures |p.assembler.open.stdout.bytes| <= MAX_SEGMENT_BYTES
  {
    assert p.assembler.OpenOk(Stdout);
  }

  lemma Stored(p: LogPublisher)
    requires p.Valid()
    ensures Tiling(p.assembler.tiles.stdout, p.assembler.attempt, Stdout)
  {
    p.assembler.StoredTiles(Stdout);
  }

  lemma GaplessCounts(tiles: Two<seq<Tile>>, i: nat)
    requires Gapless(tiles, i)
    ensures |tiles.stdout| == i && tiles.stderr == []
  {
  }

  /** What the surroundings decide when nothing goes wrong. */
  function Fine(i: nat): Head
  {
    Head(true, _ => Round(true, Answered, false), true)
  }

  /** 1025 captured bytes, each in a segment of its own: nothing is lost, the first 1024 segments are
      registered, and for the last one there is no place in the journal. The finalization makes no claim. */
  method FullJournal(attempt: Bytes) returns (p: LogPublisher, r: Finalized)
    requires Canonical(attempt) && !IsNil(attempt)
    ensures p.Valid() && r == Stopped(JournalRefused) && p.queue.counts == Two(MAX_JOURNALLED + 1, 0)
    ensures AllKept(p.assembler.tiles.stdout, |p.assembler.tiles.stdout|, p.queue.counts.stdout)
    ensures FewLost(p.assembler.tiles, Two(|p.assembler.tiles.stdout|, |p.assembler.tiles.stderr|), p.queue.counts)
  {
    hide LogPublisher.Valid;
    hide Gapless;
    hide Named;
    hide AllKept;
    hide FewLost;
    p := new LogPublisher(attempt, MAX_SEGMENT_BYTES);
    assert Gapless(p.assembler.tiles, 0) by { NoneYet(); }
    for i := 0 to MAX_JOURNALLED
      invariant Steady(p, i) && fresh(p) && fresh(p.queue) && fresh(p.assembler) && fresh(p.assembler.spool)
    {
      StoreOne(p, i);
      var done := p.Publish(true, Answered, true);
    }
    StoreOne(p, MAX_JOURNALLED);
    Stored(p);
    GaplessIsKept(p.assembler.tiles, p.assembler.attempt, MAX_JOURNALLED + 1, p.queue.counts);
    assert Answers(Fine(0)) by { assert Fine(0).rounds(0).delivery.Answered?; }
    assert p.assembler.pending[..0] == [];
    r := p.Finalize(Fine, true);
  }

  lemma NoneYet()
    ensures Gapless(Two([], []), 0)
  {
  }
}
