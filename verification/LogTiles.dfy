/** Contiguous tiles of a stream, and why the server accepts them one after another. */
module LogTiles {
  import opened Base
  import opened LogFormat
  import opened LogRange
  import opened LogWriter

  /** A stored segment and the records it holds. */
  datatype Tile = Tile(sealed: Sealed, records: seq<Record>)

  function LastOf(tiles: seq<Tile>): int
  {
    if tiles == [] then 0 else tiles[|tiles| - 1].sealed.last
  }

  ghost predicate TileOk(t: Tile, attempt: Bytes, stream: Stream)
  {
    Holds(t.sealed, t.records) && t.sealed.attempt == attempt && t.sealed.stream == stream
  }

  /** Tiles follow each other without a hole, from sequence number 1. */
  ghost predicate Tiling(tiles: seq<Tile>, attempt: Bytes, stream: Stream)
  {
    forall i :: 0 <= i < |tiles| ==> TileOk(tiles[i], attempt, stream) && tiles[i].sealed.first == LastOf(tiles[..i]) + 1
  }

  lemma TilingAppend(tiles: seq<Tile>, t: Tile, attempt: Bytes, stream: Stream)
    requires Tiling(tiles, attempt, stream) && TileOk(t, attempt, stream) && t.sealed.first == LastOf(tiles) + 1
    ensures Tiling(tiles + [t], attempt, stream)
  {
    var more := tiles + [t];
    forall i | 0 <= i < |more| ensures TileOk(more[i], attempt, stream) && more[i].sealed.first == LastOf(more[..i]) + 1 {
      assert more[..i] == tiles[..i];
      assert tiles[..|tiles|] == tiles;
    }
  }

  /** Every number of a tile is exactly one of record and gap. */
  lemma TileCovers(t: Tile, attempt: Bytes, stream: Stream, n: int)
    requires TileOk(t, attempt, stream) && t.sealed.first <= n <= t.sealed.last
    ensures IsRecorded(t.records, n) <==> !InGaps(t.sealed.gaps, n)
  {
    HolesMissing(t.sealed.first, t.records, n);
  }

  lemma {:induction false} TilesBelow(tiles: seq<Tile>, attempt: Bytes, stream: Stream, i: nat, k: nat)
    requires Tiling(tiles, attempt, stream) && i < k < |tiles|
    ensures tiles[i].sealed.last < tiles[k].sealed.first
    decreases k
  {
    assert tiles[..k][k - 1] == tiles[k - 1];
    if i < k - 1 { TilesBelow(tiles, attempt, stream, i, k - 1); }
  }

  predicate InTile(t: Tile, n: int)
  {
    t.sealed.first <= n <= t.sealed.last
  }

  lemma {:induction false} FindTile(tiles: seq<Tile>, attempt: Bytes, stream: Stream, m: nat, n: int) returns (i: nat)
    requires Tiling(tiles, attempt, stream) && 0 < m <= |tiles| && 1 <= n <= tiles[m - 1].sealed.last
    ensures i < m && InTile(tiles[i], n)
    decreases m
  {
    if tiles[m - 1].sealed.first <= n {
      i := m - 1;
    } else {
      assert m > 1 ==> tiles[..m - 1][m - 2] == tiles[m - 2];
      i := FindTile(tiles, attempt, stream, m - 1, n);
    }
  }

  /** Every number up to the end of the last tile lies in exactly one tile. */
  lemma TilesPartition(tiles: seq<Tile>, attempt: Bytes, stream: Stream, n: int) returns (i: nat)
    requires Tiling(tiles, attempt, stream) && 1 <= n <= LastOf(tiles)
    ensures i < |tiles| && InTile(tiles[i], n)
    ensures forall k :: 0 <= k < |tiles| && InTile(tiles[k], n) ==> k == i
  {
    i := FindTile(tiles, attempt, stream, |tiles|, n);
    forall k | 0 <= k < |tiles| && InTile(tiles[k], n) ensures k == i {
      if k < i { TilesBelow(tiles, attempt, stream, k, i); }
      if i < k { TilesBelow(tiles, attempt, stream, i, k); }
    }
  }

  // -------------------------------------------------------- the server's registration

  datatype Registration = Registration(first: int, last: int, gaps: seq<Gap>)

  /** LogSegmentRequest.normalized, on the range and its gaps. */
  method Normalized(r: Registration) returns (ok: bool)
    ensures ok <==> RangeAccepted(r)
  {
    if r.first < 1 || r.last < r.first || r.last > MAX_I64 || |r.gaps| > MAX_GAPS {
      return false;
    }
    var previous, dropped := 0, 0;
    for i := 0 to |r.gaps|
      invariant dropped == Dropped(r.gaps[..i]) && previous == if i == 0 then 0 else r.gaps[i - 1].last
      invariant forall k :: 0 <= k < i ==> GapAccepted(r, k)
    {
      var gap := r.gaps[i];
      if gap.first < r.first || gap.last > r.last || gap.last < gap.first || gap.first <= previous {
        assert !GapAccepted(r, i);
        return false;
      }
      assert r.gaps[..i + 1][..i] == r.gaps[..i];
      previous := gap.last;
      dropped := dropped + (gap.last - gap.first + 1);
    }
    assert r.gaps[..|r.gaps|] == r.gaps;
    return dropped < r.last - r.first + 1;
  }

  function Dropped(gaps: seq<Gap>): int
  {
    if gaps == [] then 0 else Dropped(gaps[..|gaps| - 1]) + gaps[|gaps| - 1].last - gaps[|gaps| - 1].first + 1
  }

  predicate GapAccepted(r: Registration, i: int)
    requires 0 <= i < |r.gaps|
  {
    r.first <= r.gaps[i].first <= r.gaps[i].last <= r.last && r.gaps[i].first > if i == 0 then 0 else r.gaps[i - 1].last
  }

  /** Gaps inside the range, in order and disjoint, and not all of it. */
  predicate RangeAccepted(r: Registration)
  {
    && 1 <= r.first <= r.last <= MAX_I64 && |r.gaps| <= MAX_GAPS
    && (forall i :: 0 <= i < |r.gaps| ==> GapAccepted(r, i))
    && Dropped(r.gaps) < r.last - r.first + 1
  }

  /** Where the first `i` gaps end. */
  function EndOf(r: Registration, i: nat): int
    requires i <= |r.gaps|
  {
    if i == 0 then r.first - 1 else r.gaps[i - 1].last
  }

  lemma GapsGrow(gaps: seq<Gap>, i: nat, n: int)
    requires i < |gaps|
    ensures InGaps(gaps[..i + 1], n) <==> InGaps(gaps[..i], n) || gaps[i].first <= n <= gaps[i].last
  {
    assert gaps[..i + 1] == gaps[..i] + [gaps[i]];
    GapsAppend(gaps[..i], gaps[i], n);
  }

  /** The sum of the gaps reaches the length of what they span exactly when they fill it. */
  lemma {:induction false} DroppedFills(r: Registration, i: nat)
    requires i <= |r.gaps| && r.first >= 1 && forall k :: 0 <= k < |r.gaps| ==> GapAccepted(r, k)
    ensures r.first - 1 <= EndOf(r, i) && Dropped(r.gaps[..i]) <= EndOf(r, i) - r.first + 1
    ensures Dropped(r.gaps[..i]) == EndOf(r, i) - r.first + 1 <==> forall n {:trigger InGaps(r.gaps[..i], n)} :: r.first <= n <= EndOf(r, i) ==> InGaps(r.gaps[..i], n)
    ensures forall n {:trigger InGaps(r.gaps[..i], n)} :: InGaps(r.gaps[..i], n) ==> r.first <= n <= EndOf(r, i)
  {
    if i > 0 {
      var before, after := r.gaps[..i - 1], r.gaps[..i];
      DroppedFills(r, i - 1);
      assert GapAccepted(r, i - 1) && after[..i - 1] == before && after[i - 1] == r.gaps[i - 1];
      hide InGaps;
      forall n ensures InGaps(after, n) <==> InGaps(before, n) || r.gaps[i - 1].first <= n <= r.gaps[i - 1].last {
        GapsGrow(r.gaps, i - 1, n);
      }
      var hole := EndOf(r, i - 1) + 1;
      assert hole < r.gaps[i - 1].first ==> !InGaps(before, hole) && !InGaps(after, hole);
      assert forall n {:trigger InGaps(before, n)} :: r.first <= n < hole ==> (InGaps(before, n) <==> InGaps(after, n));
    }
  }

  /** An accepted range holds a record: the test on the sum says that some number lies in no gap. */
  lemma RecordRemains(r: Registration)
    requires 1 <= r.first <= r.last && forall k :: 0 <= k < |r.gaps| ==> GapAccepted(r, k)
    ensures Dropped(r.gaps) < r.last - r.first + 1 <==> exists n {:trigger InGaps(r.gaps, n)} :: r.first <= n <= r.last && !InGaps(r.gaps, n)
  {
    var m := |r.gaps|;
    assert r.gaps[..m] == r.gaps;
    DroppedFills(r, m);
    if m > 0 { assert GapAccepted(r, m - 1); }
    assert !InGaps(r.gaps, EndOf(r, m) + 1);
  }

  /** The catalogue row that follows the last one of its stream. */
  predicate Contiguous(last: Option<int>, first: int)
  {
    if last.None? then first == 1 else last.value != MAX_I64 && first == last.value + 1
  }

  lemma {:induction false} HolesCount(first: int, rs: seq<Record>)
    requires Increasing(first, rs)
    ensures Dropped(Holes(first, rs)) == NextExpected(first, rs) - first - |rs|
  {
    if rs != [] {
      var n := |rs| - 1;
      var before, expected := Holes(first, rs[..n]), NextExpected(first, rs[..n]);
      HolesCount(first, rs[..n]);
      if rs[n].sequence > expected {
        assert Holes(first, rs)[..|before|] == before;
      } else {
        assert Holes(first, rs) == before;
      }
    }
  }

  /** Every tile passes the server's range check, and each in its turn the contiguity check. */
  lemma TileRegisters(tiles: seq<Tile>, attempt: Bytes, stream: Stream, i: nat)
    requires Tiling(tiles, attempt, stream) && i < |tiles|
    ensures RangeAccepted(Registration(tiles[i].sealed.first, tiles[i].sealed.last, tiles[i].sealed.gaps))
    ensures Contiguous(if i == 0 then None else Some(tiles[i - 1].sealed.last), tiles[i].sealed.first)
  {
    var t := tiles[i];
    var r := Registration(t.sealed.first, t.sealed.last, t.sealed.gaps);
    HolesSeparated(t.sealed.first, t.records);
    forall k | 0 <= k < |r.gaps| ensures GapAccepted(r, k) { HolesBelow(t.sealed.first, t.records, k); }
    HolesCount(t.sealed.first, t.records);
    if i > 0 {
      assert tiles[..i][i - 1] == tiles[i - 1];
      assert TileOk(tiles[i - 1], attempt, stream);
    }
  }
}
