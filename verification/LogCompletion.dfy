/** The server's verdict on a completion's loss claim, against everything it has catalogued. */
module LogCompletion {
  import opened LogFormat
  import opened LogRange
  import opened LogWriter
  import opened LogTiles
  import opened LogAssembler
  import opened LogClaims
  import opened LogSummary
  import opened LogEvidence

  // ----------------------------------------------------------------- the server's check

  ghost predicate RowsOk(rows: seq<Registration>)
  {
    forall m :: 0 <= m < |rows| ==> RangeAccepted(rows[m])
  }

  ghost predicate GapsCovered(claims: seq<Claim>, s: Stream, rows: seq<Registration>)
  {
    forall m, k :: 0 <= m < |rows| && 0 <= k < |rows[m].gaps| ==> Covers(claims, s, rows[m].gaps[k].first, rows[m].gaps[k].last)
  }

  /** A claim is short, well-formed, free of overlaps, and hides no gap of the catalogue; a complete one
      leaves no declared upload waiting for its catalogue row. */
  ghost predicate LogsAccepted(claims: seq<Claim>, complete: bool, waiting: bool, catalogue: Two<seq<Registration>>)
  {
    && |claims| <= MAX_CLAIMS && (complete ==> claims == [] && !waiting) && Disjoint(claims)
    && (forall i :: 0 <= i < |claims| ==> ValidClaim(claims[i]))
    && GapsCovered(claims, Stdout, catalogue.stdout) && GapsCovered(claims, Stderr, catalogue.stderr)
  }

  /** Normalization, each catalogued gap in turn, and the uploads still waiting. */
  method AcceptLogs(claims: seq<Claim>, complete: bool, waiting: bool, catalogue: Two<seq<Registration>>) returns (ok: bool)
    requires RowsOk(catalogue.stdout) && RowsOk(catalogue.stderr)
    ensures ok <==> LogsAccepted(claims, complete, waiting, catalogue)
  {
    hide RowsOk;
    hide GapsCovered;
    var normal := NormalizeClaims(claims, complete);
    if normal.None? {
      return false;
    }
    SameCoverage(claims, normal.value, Stdout, catalogue.stdout);
    SameCoverage(claims, normal.value, Stderr, catalogue.stderr);
    ok := StreamCovered(normal.value, Stdout, catalogue.stdout);
    if ok {
      ok := StreamCovered(normal.value, Stderr, catalogue.stderr);
    }
    if complete && waiting {
      ok := false;
    }
  }

  method StreamCovered(claims: seq<Claim>, s: Stream, rows: seq<Registration>) returns (ok: bool)
    requires Sorted(claims) && Chained(claims) && RowsOk(rows)
    ensures ok <==> GapsCovered(claims, s, rows)
  {
    hide Covers;
    for m := 0 to |rows|
      invariant forall i, k :: 0 <= i < m && 0 <= k < |rows[i].gaps| ==> Covers(claims, s, rows[i].gaps[k].first, rows[i].gaps[k].last)
    {
      for k := 0 to |rows[m].gaps|
        invariant forall l :: 0 <= l < k ==> Covers(claims, s, rows[m].gaps[l].first, rows[m].gaps[l].last)
      {
        assert GapAccepted(rows[m], k);
        var covered := CoversGap(claims, s, rows[m].gaps[k].first, rows[m].gaps[k].last);
        if !covered {
          return false;
        }
      }
    }
    return true;
  }

  lemma SameCoverage(a: seq<Claim>, b: seq<Claim>, s: Stream, rows: seq<Registration>)
    requires multiset(a) == multiset(b)
    ensures GapsCovered(a, s, rows) <==> GapsCovered(b, s, rows)
  {
    hide Claimed;
    forall n ensures Claimed(a, s, n) <==> Claimed(b, s, n) { SameClaims(a, b, s, n); }
  }

  // -------------------------------------------------------- what the worker claims is accepted

  function RowOf(t: Tile): Registration
  {
    Registration(t.sealed.first, t.sealed.last, t.sealed.gaps)
  }

  /** The rows are the first tiles of each stream, as they were registered. */
  ghost predicate Catalogued(catalogue: Two<seq<Registration>>, tiles: Two<seq<Tile>>)
  {
    && |catalogue.stdout| <= |tiles.stdout| && |catalogue.stderr| <= |tiles.stderr|
    && (forall m :: 0 <= m < |catalogue.stdout| ==> catalogue.stdout[m] == RowOf(tiles.stdout[m]))
    && (forall m :: 0 <= m < |catalogue.stderr| ==> catalogue.stderr[m] == RowOf(tiles.stderr[m]))
  }

  lemma CataloguedRowsOk(catalogue: Two<seq<Registration>>, tiles: Two<seq<Tile>>, attempt: Bytes, s: Stream)
    requires Catalogued(catalogue, tiles) && Tiling(tiles.At(s), attempt, s)
    ensures RowsOk(catalogue.At(s))
  {
    hide Tiling;
    hide RangeAccepted;
    forall m | 0 <= m < |catalogue.At(s)| ensures RangeAccepted(catalogue.At(s)[m]) {
      TileRegisters(tiles.At(s), attempt, s, m);
    }
  }

  /** Every captured number of a stream has its record in a catalogued segment. */
  ghost predicate AllKept(tiles: seq<Tile>, rows: nat, captured: int)
    requires rows <= |tiles|
  {
    forall n {:trigger Kept(tiles, rows, n)} :: 1 <= n <= captured ==> Kept(tiles, rows, n)
  }

  ghost predicate Kept(tiles: seq<Tile>, rows: nat, n: int)
    requires rows <= |tiles|
  {
    exists m :: 0 <= m < rows && IsRecorded(tiles[m].records, n)
  }

  lemma NothingLostIsKept(tiles: seq<Tile>, known: nat, rows: nat, attempt: Bytes, s: Stream, captured: int)
    requires Tiling(tiles, attempt, s) && known <= rows <= |tiles| && forall n {:trigger Lost(tiles, known, captured, n)} :: !Lost(tiles, known, captured, n)
    ensures AllKept(tiles, rows, captured)
  {
    hide Tiling;
    forall n | 1 <= n <= captured ensures Kept(tiles, rows, n) {
      assert !Lost(tiles, known, captured, n);
      assert LastOf(tiles[..known]) == if known == 0 then 0 else tiles[known - 1].sealed.last;
      var m := FindTile(tiles, attempt, s, known, n);
      TileCovers(tiles[m], attempt, s, n) by { TileIsOk(tiles, attempt, s, m); }
      assert !InGaps(tiles[m].sealed.gaps, n);
    }
  }

  lemma TileIsOk(tiles: seq<Tile>, attempt: Bytes, s: Stream, m: nat)
    requires Tiling(tiles, attempt, s) && m < |tiles|
    ensures TileOk(tiles[m], attempt, s)
  {
  }

  /** The losses, as a worker that knows `known` confirmations may state them, make up at most 1024 runs. */
  ghost predicate FewLost(tiles: Two<seq<Tile>>, known: Two<nat>, captured: Two<int>)
    requires known.stdout <= |tiles.stdout| && known.stderr <= |tiles.stderr|
  {
    exists runs :: IsLoss(runs, tiles, known, captured) && Apart(runs) && |runs| <= MAX_CLAIMS
  }

  ghost predicate IsLoss(claims: seq<Claim>, tiles: Two<seq<Tile>>, known: Two<nat>, captured: Two<int>)
    requires known.stdout <= |tiles.stdout| && known.stderr <= |tiles.stderr|
  {
    forall s, n {:trigger Claimed(claims, s, n)} :: Claimed(claims, s, n) <==> Lost(tiles.At(s), known.At(s), captured.At(s), n)
  }

  lemma FewLostIsFewRuns(ranges: seq<Range>, tiles: Two<seq<Tile>>, known: Two<nat>, attempt: Bytes, captured: Two<int>)
    requires Journalled(ranges, tiles, known, attempt) && known.stdout <= |tiles.stdout| && known.stderr <= |tiles.stderr|
    ensures FewRuns(Evidence(ranges, captured)) <==> FewLost(tiles, known, captured)
    ensures IsLoss(Evidence(ranges, captured), tiles, known, captured)
  {
    hide Journalled;
    hide Evidence;
    hide Lost;
    hide Claimed;
    hide Apart;
    var e := Evidence(ranges, captured);
    forall s, n ensures Claimed(e, s, n) <==> Lost(tiles.At(s), known.At(s), captured.At(s), n) {
      EvidenceClaims(ranges, tiles, known, attempt, captured, s, n);
    }
    assert forall runs :: RunsOf(e, runs) <==> Apart(runs) && IsLoss(runs, tiles, known, captured);
  }

  lemma NoRunsNoLoss(claims: seq<Claim>, tiles: Two<seq<Tile>>, known: Two<nat>, captured: Two<int>, s: Stream, n: int)
    requires known.stdout <= |tiles.stdout| && known.stderr <= |tiles.stderr| && IsLoss(claims, tiles, known, captured) && claims == []
    ensures !Lost(tiles.At(s), known.At(s), captured.At(s), n)
  {
    hide Lost;
    assert !Claimed(claims, s, n);
  }

  /** What the worker knows lags the server's rows, and those the uploads it declared for its journal. */
  ghost predicate Lags(known: nat, rows: nat, declared: nat, count: nat)
  {
    known <= rows <= declared <= count
  }

  /** From the journal to the server's verdict: the summary is never invalid, it is made exactly when the
      losses make up at most 1024 runs, it claims exactly what is lost, and the server accepts it. A complete
      claim leaves no captured number without its catalogued record and no declared upload waiting. */
  method Conclude(
    ranges: seq<Range>, captured: Two<int>, finished: bool, catalogue: Two<seq<Registration>>, declared: Two<nat>,
    ghost tiles: Two<seq<Tile>>, ghost known: Two<nat>, ghost attempt: Bytes) returns (r: Summarized, ok: bool)
    requires Journalled(ranges, tiles, known, attempt) && Catalogued(catalogue, tiles)
    requires Lags(known.stdout, |catalogue.stdout|, declared.stdout, Count(ranges, |ranges|, Stdout))
    requires Lags(known.stderr, |catalogue.stderr|, declared.stderr, Count(ranges, |ranges|, Stderr))
    requires LastOf(tiles.stdout) <= captured.stdout <= MAX_I64 && LastOf(tiles.stderr) <= captured.stderr <= MAX_I64
    ensures !r.Invalid? && (r.Made? <==> FewLost(tiles, known, captured))
    ensures r.Made? ==> ok && IsLoss(r.summary.gaps, tiles, known, captured)
    ensures r.Made? ==> (r.summary.complete <==> finished && r.summary.gaps == []
                                                 && known.stdout == Count(ranges, |ranges|, Stdout) && known.stderr == Count(ranges, |ranges|, Stderr))
    ensures r.Made? && r.summary.complete ==>
              && AllKept(tiles.stdout, |catalogue.stdout|, captured.stdout) && AllKept(tiles.stderr, |catalogue.stderr|, captured.stderr)
              && declared == Two(|catalogue.stdout|, |catalogue.stderr|)
  {
    hide Journalled;
    hide SummaryValid;
    hide FewRuns;
    hide FewLost;
    hide Evidence;
    hide Lost;
    hide Claimed;
    hide AllKept;
    hide Count;
    hide Tiling;
    SummaryNeverInvalid(ranges, tiles, known, attempt, captured);
    r := Summarize(ranges, captured, finished);
    JournalledTilings(ranges, tiles, known, attempt);
    CataloguedRowsOk(catalogue, tiles, attempt, Stdout);
    CataloguedRowsOk(catalogue, tiles, attempt, Stderr);
    FewLostIsFewRuns(ranges, tiles, known, attempt, captured);
    RegisteredPart(ranges, tiles, known, attempt, |ranges|, Stdout);
    RegisteredPart(ranges, tiles, known, attempt, |ranges|, Stderr);
    if r.Made? {
      ghost var claims := r.summary.gaps;
      CatalogueAccepted(ranges, tiles, known, attempt, captured, claims, catalogue, Stdout);
      CatalogueAccepted(ranges, tiles, known, attempt, captured, claims, catalogue, Stderr);
      SummaryNormalizes(claims);
      if r.summary.complete {
        forall s, n ensures !Lost(tiles.At(s), known.At(s), captured.At(s), n) { NoRunsNoLoss(claims, tiles, known, captured, s, n); }
        NothingLostIsKept(tiles.stdout, known.stdout, |catalogue.stdout|, attempt, Stdout, captured.stdout);
        NothingLostIsKept(tiles.stderr, known.stderr, |catalogue.stderr|, attempt, Stderr, captured.stderr);
      }
      ok := AcceptLogs(r.summary.gaps, r.summary.complete, declared != Two(|catalogue.stdout|, |catalogue.stderr|), catalogue);
    } else {
      ok := false;
    }
  }

  lemma JournalledTilings(ranges: seq<Range>, tiles: Two<seq<Tile>>, known: Two<nat>, attempt: Bytes)
    requires Journalled(ranges, tiles, known, attempt)
    ensures Tiling(tiles.stdout, attempt, Stdout) && Tiling(tiles.stderr, attempt, Stderr)
  {
  }

  lemma CatalogueAccepted(
    ranges: seq<Range>, tiles: Two<seq<Tile>>, known: Two<nat>, attempt: Bytes, captured: Two<int>, claims: seq<Claim>,
    catalogue: Two<seq<Registration>>, s: Stream)
    requires Journalled(ranges, tiles, known, attempt) && Catalogued(catalogue, tiles) && LastOf(tiles.At(s)) <= captured.At(s)
    requires RunsOf(Evidence(ranges, captured), claims)
    ensures GapsCovered(claims, s, catalogue.At(s))
  {
    hide Journalled;
    hide Evidence;
    hide Claimed;
    hide Covers;
    forall m, k | 0 <= m < |catalogue.At(s)| && 0 <= k < |catalogue.At(s)[m].gaps|
      ensures Covers(claims, s, catalogue.At(s)[m].gaps[k].first, catalogue.At(s)[m].gaps[k].last)
    {
      CatalogueCovered(ranges, tiles, known, attempt, captured, claims, s, m, k);
    }
  }

  // ------------------------------------------------------------ a capture that failed

  /** Every number in the catalogue has its record. */
  ghost predicate NothingLost(rows: seq<Registration>, tiles: seq<Tile>)
    requires |rows| <= |tiles|
  {
    forall m, n :: 0 <= m < |rows| && InTile(tiles[m], n) ==> IsRecorded(tiles[m].records, n)
  }

  lemma NothingLostIsGapless(rows: seq<Registration>, tiles: seq<Tile>, attempt: Bytes, s: Stream)
    requires Tiling(tiles, attempt, s) && |rows| <= |tiles| && forall m :: 0 <= m < |rows| ==> rows[m] == RowOf(tiles[m])
    ensures NothingLost(rows, tiles) <==> GapsCovered([], s, rows)
  {
    hide TileOk;
    forall m, n | 0 <= m < |rows| && InTile(tiles[m], n) ensures IsRecorded(tiles[m].records, n) <==> !InGaps(tiles[m].sealed.gaps, n) {
      TileCovers(tiles[m], attempt, s, n);
    }
    forall m, k | 0 <= m < |rows| && 0 <= k < |rows[m].gaps|
      ensures InTile(tiles[m], rows[m].gaps[k].first) && InGaps(tiles[m].sealed.gaps, rows[m].gaps[k].first)
      ensures !Covers([], s, rows[m].gaps[k].first, rows[m].gaps[k].last)
    {
      TileGapsValid(tiles, attempt, s, m, k);
      assert !Claimed([], s, rows[m].gaps[k].first);
    }
  }

  /** A worker whose capture failed claims nothing: the server accepts that exactly when nothing it has
      catalogued of either stream was lost. */
  lemma EmptyClaim(catalogue: Two<seq<Registration>>, tiles: Two<seq<Tile>>, attempt: Bytes, waiting: bool)
    requires Catalogued(catalogue, tiles) && Tiling(tiles.stdout, attempt, Stdout) && Tiling(tiles.stderr, attempt, Stderr)
    ensures LogsAccepted([], false, waiting, catalogue) <==>
              NothingLost(catalogue.stdout, tiles.stdout) && NothingLost(catalogue.stderr, tiles.stderr)
  {
    NothingLostIsGapless(catalogue.stdout, tiles.stdout, attempt, Stdout);
    NothingLostIsGapless(catalogue.stderr, tiles.stderr, attempt, Stderr);
  }

  // ------------------------------------------------------------------- failing inputs

  /** Every other number from `base + 1` on is lost. */
  function EveryOther(base: nat, n: nat): (rs: seq<Record>)
    ensures |rs| == n
  {
    seq(n, i => Record(base + 2 * i + 2, 0, [0]))
  }

  function OddGaps(base: nat, n: nat): (gs: seq<Gap>)
    ensures |gs| == n
  {
    seq(n, i => Gap(base + 2 * i + 1, base + 2 * i + 1))
  }

  lemma {:induction false} EveryOtherHoles(base: nat, n: nat)
    ensures Holes(base + 1, EveryOther(base, n)) == OddGaps(base, n)
    ensures NextExpected(base + 1, EveryOther(base, n)) == base + 2 * n + 1
  {
    if n > 0 {
      EveryOtherHoles(base, n - 1);
      assert EveryOther(base, n)[..n - 1] == EveryOther(base, n - 1);
      assert OddGaps(base, n) == OddGaps(base, n - 1) + [Gap(base + 2 * n - 1, base + 2 * n - 1)];
    }
  }

  lemma {:induction false} EveryOtherSize(base: nat, n: nat)
    requires base + 2 * n <= MAX_I64
    ensures forall i :: 0 <= i < n ==> ValidRecord(EveryOther(base, n)[i])
    ensures |EncodeRecords(EveryOther(base, n))| == n * (RECORD_HEADER_BYTES + 1)
  {
    hide EncodeRecord;
    if n > 0 {
      EveryOtherSize(base, n - 1);
      assert EveryOther(base, n)[..n - 1] == EveryOther(base, n - 1);
    }
  }

  function SparseTile(attempt: Bytes, base: nat, n: nat): Tile
    requires base + 2 * n <= MAX_I64
  {
    EveryOtherSize(base, n);
    var rs := EveryOther(base, n);
    Tile(Sealed(Encode(Segment(attempt, Stdout, rs)), attempt, Stdout, base + 1, base + 2 * n, OddGaps(base, n)), rs)
  }

  lemma SparseTileOk(attempt: Bytes, base: nat, n: nat)
    requires Canonical(attempt) && 1 <= n <= MAX_GAPS && base + 2 * n <= MAX_I64
    ensures TileOk(SparseTile(attempt, base, n), attempt, Stdout)
  {
    hide Encode;
    hide EncodeRecords;
    EveryOtherHoles(base, n);
    EveryOtherSize(base, n);
    assert n * (RECORD_HEADER_BYTES + 1) <= MAX_GAPS * (RECORD_HEADER_BYTES + 1);
  }

  /** One lost record, registered before the capture failed, is enough to refuse the empty claim. */
  lemma EmptyClaimRefused(attempt: Bytes, waiting: bool)
    requires Canonical(attempt)
    ensures var tiles := Two([SparseTile(attempt, 0, 1)], []);
            var catalogue := Two([RowOf(tiles.stdout[0])], []);
            && Tiling(tiles.stdout, attempt, Stdout) && Tiling(tiles.stderr, attempt, Stderr) && Catalogued(catalogue, tiles)
            && RowsOk(catalogue.stdout) && !LogsAccepted([], false, waiting, catalogue)
  {
    var t := SparseTile(attempt, 0, 1);
    SparseTileOk(attempt, 0, 1);
    var tiles := Two([t], []);
    var catalogue := Two([RowOf(t)], []);
    CataloguedRowsOk(catalogue, tiles, attempt, Stdout);
    hide TileOk;
    assert !Claimed([], Stdout, 1);
    assert catalogue.stdout[0].gaps[0] == Gap(1, 1);
  }

  function SparseTiles(attempt: Bytes): seq<Tile>
  {
    [SparseTile(attempt, 0, MAX_GAPS), SparseTile(attempt, 2 * MAX_GAPS, 1)]
  }

  function SparseRanges(attempt: Bytes): seq<Range>
  {
    [RangeOf(SparseTiles(attempt)[0], true), RangeOf(SparseTiles(attempt)[1], true)]
  }

  lemma SparseJournalled(attempt: Bytes)
    requires Canonical(attempt)
    ensures Journalled(SparseRanges(attempt), Two(SparseTiles(attempt), []), Two(2, 0), attempt)
    ensures LastOf(SparseTiles(attempt)) == 2 * MAX_GAPS + 2
  {
    hide Holds;
    hide SparseTile;
    SparseTileOk(attempt, 0, MAX_GAPS);
    SparseTileOk(attempt, 2 * MAX_GAPS, 1);
    SparseSpans(attempt);
    var tiles, ranges := SparseTiles(attempt), SparseRanges(attempt);
    assert tiles[..1] == [tiles[0]];
    assert Count(ranges, 1, Stdout) == 1 && Count(ranges, 1, Stderr) == 0;
    assert Count(ranges, 2, Stdout) == 2 && Count(ranges, 2, Stderr) == 0;
    assert RangeAt(ranges, 0, Two(tiles, []), Two(2, 0)) && RangeAt(ranges, 1, Two(tiles, []), Two(2, 0));
  }

  lemma SparseSpans(attempt: Bytes)
    ensures var tiles := SparseTiles(attempt);
            && tiles[0].sealed.first == 1 && tiles[0].sealed.last == 2 * MAX_GAPS && tiles[0].sealed.stream == Stdout
            && tiles[1].sealed.first == 2 * MAX_GAPS + 1 && tiles[1].sealed.last == 2 * MAX_GAPS + 2 && tiles[1].sealed.stream == Stdout
            && tiles[0].sealed.gaps == OddGaps(0, MAX_GAPS) && tiles[1].sealed.gaps == OddGaps(2 * MAX_GAPS, 1)
  {
  }

  lemma SparseEvidence(attempt: Bytes, captured: Two<int>)
    requires captured == Two(2 * MAX_GAPS + 2, 0)
    ensures var e := Evidence(SparseRanges(attempt), captured);
            |e| == MAX_GAPS + 1 && forall i :: 0 <= i < |e| ==> e[i] == Claim(Stdout, 2 * i + 1, 2 * i + 1)
  {
    hide SparseTile;
    SparseSpans(attempt);
    var ranges := SparseRanges(attempt);
    assert RegisteredGaps(ranges, 1) == ranges[0].gaps;
    assert RegisteredGaps(ranges, 2) == ranges[0].gaps + ranges[1].gaps;
    assert RegisteredEnd(ranges, 1, Stderr) == 0;
    assert RegisteredEnd(ranges, 2, Stdout) == 2 * MAX_GAPS + 2 && RegisteredEnd(ranges, 2, Stderr) == 0;
  }

  /** A consistent journal, two registered segments with every other number lost, has one run too
      many: its summary is refused for its size. */
  lemma TooManyRuns(attempt: Bytes)
    requires Canonical(attempt)
    ensures Journalled(SparseRanges(attempt), Two(SparseTiles(attempt), []), Two(2, 0), attempt)
    ensures LastOf(SparseTiles(attempt)) == 2 * MAX_GAPS + 2
    ensures !FewRuns(Evidence(SparseRanges(attempt), Two(2 * MAX_GAPS + 2, 0)))
  {
    hide Journalled;
    hide SparseTiles;
    hide SparseRanges;
    SparseJournalled(attempt);
    SparseEvidence(attempt, Two(2 * MAX_GAPS + 2, 0));
    hide Evidence;
    var e := Evidence(SparseRanges(attempt), Two(2 * MAX_GAPS + 2, 0));
    assert Apart(e);
    RunsDecide(e, e);
  }
}
