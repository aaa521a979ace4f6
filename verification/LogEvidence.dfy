/** Loss claims against the server's catalogue, whatever was dropped and whichever reply was lost. */
module LogEvidence {
  import opened Base
  import opened LogFormat
  import opened LogRange
  import opened LogTiles
  import opened LogAssembler
  import opened LogClaims
  import opened LogSummary

  function ClaimOf(s: Stream, g: Gap): Claim
  {
    Claim(s, g.first, g.last)
  }

  function ClaimsOf(s: Stream, gaps: seq<Gap>): (r: seq<Claim>)
    ensures |r| == |gaps|
  {
    seq(|gaps|, i requires 0 <= i < |gaps| => ClaimOf(s, gaps[i]))
  }

  function RangeOf(t: Tile, registered: bool): Range
  {
    Range(t.sealed.stream, t.sealed.first, t.sealed.last, ClaimsOf(t.sealed.stream, t.sealed.gaps), registered)
  }

  /** How many of the first `n` journalled ranges belong to stream `s`. */
  function Count(ranges: seq<Range>, n: nat, s: Stream): nat
    requires n <= |ranges|
  {
    if n == 0 then 0 else Count(ranges, n - 1, s) + if ranges[n - 1].stream == s then 1 else 0
  }

  /** The journal: each stream's ranges are its tiles in order, the first `known` of them confirmed. */
  ghost predicate Journalled(ranges: seq<Range>, tiles: Two<seq<Tile>>, known: Two<nat>, attempt: Bytes)
  {
    && Tiling(tiles.stdout, attempt, Stdout) && Tiling(tiles.stderr, attempt, Stderr)
    && (forall i :: 0 <= i < |ranges| ==> RangeAt(ranges, i, tiles, known))
    && known.stdout <= Count(ranges, |ranges|, Stdout) && known.stderr <= Count(ranges, |ranges|, Stderr)
  }

  ghost predicate RangeAt(ranges: seq<Range>, i: nat, tiles: Two<seq<Tile>>, known: Two<nat>)
    requires i < |ranges|
  {
    var s := ranges[i].stream;
    var m := Count(ranges, i, s);
    m < |tiles.At(s)| && ranges[i] == RangeOf(tiles.At(s)[m], m < known.At(s))
  }

  // --------------------------------------------------------- the summary never objects

  lemma {:induction false} CountBounded(ranges: seq<Range>, tiles: Two<seq<Tile>>, known: Two<nat>, attempt: Bytes, n: nat, s: Stream)
    requires Journalled(ranges, tiles, known, attempt) && n <= |ranges|
    ensures Count(ranges, n, s) <= |tiles.At(s)|
  {
    hide Tiling;
    hide RangeOf;
    if n > 0 {
      CountBounded(ranges, tiles, known, attempt, n - 1, s);
      assert RangeAt(ranges, n - 1, tiles, known);
    }
  }

  lemma {:induction false} RegisteredPart(ranges: seq<Range>, tiles: Two<seq<Tile>>, known: Two<nat>, attempt: Bytes, n: nat, s: Stream)
    requires Journalled(ranges, tiles, known, attempt) && n <= |ranges|
    ensures Min(Count(ranges, n, s), known.At(s)) <= |tiles.At(s)|
    ensures RegisteredEnd(ranges, n, s) == LastOf(tiles.At(s)[..Min(Count(ranges, n, s), known.At(s))])
    ensures AnyUnregistered(ranges, n, s) <==> Count(ranges, n, s) > known.At(s)
  {
    hide Tiling;
    CountBounded(ranges, tiles, known, attempt, n, s);
    if n > 0 {
      RegisteredPart(ranges, tiles, known, attempt, n - 1, s);
      assert RangeAt(ranges, n - 1, tiles, known);
      var m := Count(ranges, n - 1, s);
      if ranges[n - 1].stream == s && m < known.At(s) { assert tiles.At(s)[..m + 1][m] == tiles.At(s)[m]; }
    }
  }

  lemma JournalledRangeOk(ranges: seq<Range>, tiles: Two<seq<Tile>>, known: Two<nat>, attempt: Bytes, i: nat)
    requires Journalled(ranges, tiles, known, attempt) && i < |ranges|
    ensures RangeOk(ranges, i)
  {
    var s := ranges[i].stream;
    assert RangeAt(ranges, i, tiles, known);
    RegisteredPart(ranges, tiles, known, attempt, i, s);
    TileRegisters(tiles.At(s), attempt, s, Count(ranges, i, s));
  }

  lemma TileGapsValid(tiles: seq<Tile>, attempt: Bytes, s: Stream, m: nat, k: nat)
    requires Tiling(tiles, attempt, s) && m < |tiles| && k < |tiles[m].sealed.gaps|
    ensures ValidClaim(ClaimsOf(s, tiles[m].sealed.gaps)[k])
    ensures tiles[m].sealed.first <= tiles[m].sealed.gaps[k].first <= tiles[m].sealed.gaps[k].last <= tiles[m].sealed.last
  {
    TileRegisters(tiles, attempt, s, m);
    assert GapAccepted(Registration(tiles[m].sealed.first, tiles[m].sealed.last, tiles[m].sealed.gaps), k);
  }

  lemma {:induction false} RegisteredGapsValid(ranges: seq<Range>, tiles: Two<seq<Tile>>, known: Two<nat>, attempt: Bytes, n: nat, i: nat)
    requires Journalled(ranges, tiles, known, attempt) && n <= |ranges| && i < |RegisteredGaps(ranges, n)|
    ensures ValidClaim(RegisteredGaps(ranges, n)[i])
  {
    hide Tiling;
    if i < |RegisteredGaps(ranges, n - 1)| {
      RegisteredGapsValid(ranges, tiles, known, attempt, n - 1, i);
    } else {
      assert RangeAt(ranges, n - 1, tiles, known);
      var s := ranges[n - 1].stream;
      TileGapsValid(tiles.At(s), attempt, s, Count(ranges, n - 1, s), i - |RegisteredGaps(ranges, n - 1)|);
    }
  }

  /** Whatever was dropped, the worker's summary of its own journal is never invalid. */
  lemma SummaryNeverInvalid(ranges: seq<Range>, tiles: Two<seq<Tile>>, known: Two<nat>, attempt: Bytes, captured: Two<int>)
    requires Journalled(ranges, tiles, known, attempt)
    requires LastOf(tiles.stdout) <= captured.stdout <= MAX_I64 && LastOf(tiles.stderr) <= captured.stderr <= MAX_I64
    ensures SummaryValid(ranges, captured)
  {
    hide Journalled;
    forall i | 0 <= i < |ranges| ensures RangeOk(ranges, i) { JournalledRangeOk(ranges, tiles, known, attempt, i); }
    EndsWithin(ranges, tiles, known, attempt, Stdout);
    EndsWithin(ranges, tiles, known, attempt, Stderr);
    var gaps := RegisteredGaps(ranges, |ranges|);
    forall i | 0 <= i < |Evidence(ranges, captured)| ensures ValidClaim(Evidence(ranges, captured)[i]) {
      if i < |gaps| { RegisteredGapsValid(ranges, tiles, known, attempt, |ranges|, i); }
    }
  }

  lemma EndsWithin(ranges: seq<Range>, tiles: Two<seq<Tile>>, known: Two<nat>, attempt: Bytes, s: Stream)
    requires Journalled(ranges, tiles, known, attempt)
    ensures known.At(s) <= |tiles.At(s)| && RegisteredEnd(ranges, |ranges|, s) == LastOf(tiles.At(s)[..known.At(s)])
    ensures 0 <= RegisteredEnd(ranges, |ranges|, s) <= LastOf(tiles.At(s))
  {
    RegisteredPart(ranges, tiles, known, attempt, |ranges|, s);
    LastGrows(tiles.At(s), attempt, s, known.At(s), |tiles.At(s)|);
  }

  lemma LastGrows(tiles: seq<Tile>, attempt: Bytes, s: Stream, i: nat, k: nat)
    requires Tiling(tiles, attempt, s) && i <= k <= |tiles|
    ensures 0 <= LastOf(tiles[..i]) <= LastOf(tiles[..k]) && tiles[..|tiles|] == tiles
  {
    hide Tiling;
    if 0 < k { TileSpan(tiles, attempt, s, k - 1); }
    if 0 < i {
      TileSpan(tiles, attempt, s, i - 1);
      if i < k { TilesBelow(tiles, attempt, s, i - 1, k - 1); }
    }
  }

  lemma TileFollows(tiles: seq<Tile>, attempt: Bytes, s: Stream, i: nat)
    requires Tiling(tiles, attempt, s) && i < |tiles|
    ensures tiles[i].sealed.first == LastOf(tiles[..i]) + 1 && LastOf(tiles[..i + 1]) == tiles[i].sealed.last
  {
  }

  lemma TileSpan(tiles: seq<Tile>, attempt: Bytes, s: Stream, i: nat)
    requires Tiling(tiles, attempt, s) && i < |tiles|
    ensures 1 <= tiles[i].sealed.first <= tiles[i].sealed.last && LastOf(tiles[..i + 1]) == tiles[i].sealed.last
  {
    assert TileOk(tiles[i], attempt, s);
  }

  // ------------------------------------------------------------- what the claim covers

  lemma {:induction false} RegisteredClaimed(ranges: seq<Range>, tiles: Two<seq<Tile>>, known: Two<nat>, attempt: Bytes, n: nat, s: Stream, m: nat, x: int)
    requires Journalled(ranges, tiles, known, attempt) && n <= |ranges| && m < Min(Count(ranges, n, s), known.At(s)) && m < |tiles.At(s)|
    requires InGaps(tiles.At(s)[m].sealed.gaps, x)
    ensures Claimed(RegisteredGaps(ranges, n), s, x)
  {
    hide Tiling;
    assert RangeAt(ranges, n - 1, tiles, known);
    var before := RegisteredGaps(ranges, n - 1);
    var all := RegisteredGaps(ranges, n);
    if m < Count(ranges, n - 1, s) {
      RegisteredClaimed(ranges, tiles, known, attempt, n - 1, s, m, x);
      var i :| 0 <= i < |before| && before[i].stream == s && before[i].first <= x <= before[i].last;
      assert all[i] == before[i];
    } else {
      var gaps := tiles.At(s)[m].sealed.gaps;
      var i :| 0 <= i < |gaps| && gaps[i].first <= x <= gaps[i].last;
      assert ranges[n - 1].gaps[i] == ClaimOf(tiles.At(s)[m].sealed.stream, gaps[i]);
      assert all[|before| + i] == ranges[n - 1].gaps[i];
    }
  }

  lemma {:induction false} ClaimedRegistered(ranges: seq<Range>, tiles: Two<seq<Tile>>, known: Two<nat>, attempt: Bytes, n: nat, s: Stream, x: int) returns (m: nat)
    requires Journalled(ranges, tiles, known, attempt) && n <= |ranges| && Claimed(RegisteredGaps(ranges, n), s, x)
    ensures m < Min(Count(ranges, n, s), known.At(s)) && m < |tiles.At(s)| && InGaps(tiles.At(s)[m].sealed.gaps, x)
  {
    hide Tiling;
    var before, all := RegisteredGaps(ranges, n - 1), RegisteredGaps(ranges, n);
    var i :| 0 <= i < |all| && all[i].stream == s && all[i].first <= x <= all[i].last;
    var r := ranges[n - 1];
    assert RangeAt(ranges, n - 1, tiles, known);
    if i < |before| {
      assert before[i] == all[i];
      m := ClaimedRegistered(ranges, tiles, known, attempt, n - 1, s, x);
    } else {
      m := Count(ranges, n - 1, r.stream);
      var gaps := tiles.At(r.stream)[m].sealed.gaps;
      assert all[i] == r.gaps[i - |before|] == ClaimOf(r.stream, gaps[i - |before|]);
    }
  }

  /** What the worker may say it lost: a gap of a confirmed segment, or anything after those. */
  ghost predicate Lost(tiles: seq<Tile>, known: nat, captured: int, x: int)
    requires known <= |tiles|
  {
    (exists m :: 0 <= m < known && InGaps(tiles[m].sealed.gaps, x)) || LastOf(tiles[..known]) < x <= captured
  }

  lemma LostIsClaimed(ranges: seq<Range>, tiles: Two<seq<Tile>>, known: Two<nat>, attempt: Bytes, captured: Two<int>, s: Stream, x: int)
    requires Journalled(ranges, tiles, known, attempt) && known.At(s) <= |tiles.At(s)| && Lost(tiles.At(s), known.At(s), captured.At(s), x)
    ensures Claimed(Evidence(ranges, captured), s, x)
  {
    hide Tiling;
    var gaps, out := RegisteredGaps(ranges, |ranges|), Tail(ranges, captured, Stdout);
    var all := Evidence(ranges, captured);
    if m :| 0 <= m < known.At(s) && InGaps(tiles.At(s)[m].sealed.gaps, x) {
      RegisteredClaimed(ranges, tiles, known, attempt, |ranges|, s, m, x);
      var i :| 0 <= i < |gaps| && gaps[i].stream == s && gaps[i].first <= x <= gaps[i].last;
      assert all[i] == gaps[i];
    } else {
      RegisteredPart(ranges, tiles, known, attempt, |ranges|, s);
      var i := if s.Stdout? then |gaps| else |gaps| + |out|;
      assert all[i] == Claim(s, RegisteredEnd(ranges, |ranges|, s) + 1, captured.At(s));
    }
  }

  lemma ClaimedIsLost(ranges: seq<Range>, tiles: Two<seq<Tile>>, known: Two<nat>, attempt: Bytes, captured: Two<int>, s: Stream, x: int)
    requires Journalled(ranges, tiles, known, attempt) && known.At(s) <= |tiles.At(s)| && Claimed(Evidence(ranges, captured), s, x)
    ensures Lost(tiles.At(s), known.At(s), captured.At(s), x)
  {
    hide Tiling;
    var gaps, all := RegisteredGaps(ranges, |ranges|), Evidence(ranges, captured);
    var i :| 0 <= i < |all| && all[i].stream == s && all[i].first <= x <= all[i].last;
    if i < |gaps| {
      assert gaps[i] == all[i];
      var m := ClaimedRegistered(ranges, tiles, known, attempt, |ranges|, s, x);
    } else {
      RegisteredPart(ranges, tiles, known, attempt, |ranges|, s);
    }
  }

  /** The claim is exactly the gaps of confirmed segments and everything after them. */
  lemma EvidenceClaims(ranges: seq<Range>, tiles: Two<seq<Tile>>, known: Two<nat>, attempt: Bytes, captured: Two<int>, s: Stream, x: int)
    requires Journalled(ranges, tiles, known, attempt) && known.At(s) <= |tiles.At(s)|
    ensures Claimed(Evidence(ranges, captured), s, x) <==> Lost(tiles.At(s), known.At(s), captured.At(s), x)
  {
    if Claimed(Evidence(ranges, captured), s, x) { ClaimedIsLost(ranges, tiles, known, attempt, captured, s, x); }
    if Lost(tiles.At(s), known.At(s), captured.At(s), x) { LostIsClaimed(ranges, tiles, known, attempt, captured, s, x); }
  }

  /** Every gap the server catalogued is covered, even in segments whose registration reply was lost:
      the catalogue may be ahead of the journal by any number of segments. */
  lemma CatalogueCovered(
    ranges: seq<Range>, tiles: Two<seq<Tile>>, known: Two<nat>, attempt: Bytes, captured: Two<int>, claims: seq<Claim>,
    s: Stream, m: nat, k: nat)
    requires Journalled(ranges, tiles, known, attempt) && LastOf(tiles.At(s)) <= captured.At(s)
    requires forall o, n {:trigger Claimed(claims, o, n)} :: Claimed(claims, o, n) <==> Claimed(Evidence(ranges, captured), o, n)
    requires m < |tiles.At(s)| && k < |tiles.At(s)[m].sealed.gaps|
    ensures Covers(claims, s, tiles.At(s)[m].sealed.gaps[k].first, tiles.At(s)[m].sealed.gaps[k].last)
  {
    hide Tiling;
    hide Evidence;
    var t, g := tiles.At(s)[m], tiles.At(s)[m].sealed.gaps[k];
    TileFollows(tiles.At(s), attempt, s, m);
    EndsWithin(ranges, tiles, known, attempt, s);
    TileGapsValid(tiles.At(s), attempt, s, m, k);
    LastGrows(tiles.At(s), attempt, s, m + 1, |tiles.At(s)|);
    if m >= known.At(s) { LastGrows(tiles.At(s), attempt, s, known.At(s), m); }
    forall x | g.first <= x <= g.last ensures Claimed(claims, s, x) {
      assert InGaps(t.sealed.gaps, x);
      EvidenceClaims(ranges, tiles, known, attempt, captured, s, x);
      assert Claimed(Evidence(ranges, captured), s, x);
    }
  }

  /** Separate runs never overlap, so the claim passes normalization unless there are too many. */
  lemma SummaryNormalizes(claims: seq<Claim>)
    requires Apart(claims)
    ensures Disjoint(claims) && forall i :: 0 <= i < |claims| ==> ValidClaim(claims[i])
  {
  }
}
