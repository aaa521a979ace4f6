/** Which sequence numbers a segment lost: the gap list in its metadata. */
module LogRange {
  import opened LogFormat

  /** The number after the last record, or the first number of the range. */
  function NextExpected(first: int, rs: seq<Record>): int
  {
    if rs == [] then first else rs[|rs| - 1].sequence + 1
  }

  /** The holes left by consecutive records, in order. */
  function Holes(first: int, rs: seq<Record>): seq<Gap>
  {
    if rs == [] then []
    else
      var before, last := rs[..|rs| - 1], rs[|rs| - 1];
      var expected := NextExpected(first, before);
      Holes(first, before) + if last.sequence > expected then [Gap(expected, last.sequence - 1)] else []
  }

  lemma HolesAppend(first: int, rs: seq<Record>, r: Record)
    ensures Holes(first, rs + [r])
         == Holes(first, rs) + if r.sequence > NextExpected(first, rs) then [Gap(NextExpected(first, rs), r.sequence - 1)] else []
  {
    assert (rs + [r])[..|rs|] == rs;
  }

  // ------------------------------------------------------------- what the holes mean

  /** Sorted, non-empty runs with at least one number between any two. */
  ghost predicate Separated(gaps: seq<Gap>)
  {
    && (forall i :: 0 <= i < |gaps| ==> gaps[i].first <= gaps[i].last)
    && (forall i, k :: 0 <= i < k < |gaps| ==> gaps[i].last + 1 < gaps[k].first)
  }

  ghost predicate InGaps(gaps: seq<Gap>, n: int)
  {
    exists i :: 0 <= i < |gaps| && gaps[i].first <= n <= gaps[i].last
  }

  ghost predicate IsRecorded(rs: seq<Record>, n: int)
  {
    exists i :: 0 <= i < |rs| && rs[i].sequence == n
  }

  /** The maximal runs of numbers in [first, last] that no record carries. */
  ghost predicate MissingRuns(first: int, last: int, rs: seq<Record>, gaps: seq<Gap>)
  {
    && Separated(gaps)
    && forall n {:trigger InGaps(gaps, n)} {:trigger IsRecorded(rs, n)} :: InGaps(gaps, n) <==> first <= n <= last && !IsRecorded(rs, n)
  }

  predicate Increasing(first: int, rs: seq<Record>)
  {
    && (forall i :: 0 <= i < |rs| ==> first <= rs[i].sequence)
    && (forall i, k :: 0 <= i < k < |rs| ==> rs[i].sequence < rs[k].sequence)
  }

  lemma GapsAppend(gaps: seq<Gap>, g: Gap, n: int)
    ensures InGaps(gaps + [g], n) <==> InGaps(gaps, n) || g.first <= n <= g.last
  {
    var more := gaps + [g];
    if InGaps(gaps, n) {
      var i :| 0 <= i < |gaps| && gaps[i].first <= n <= gaps[i].last;
      assert more[i] == gaps[i];
    }
    if g.first <= n <= g.last { assert more[|gaps|] == g; }
  }

  lemma RecordedAppend(rs: seq<Record>, r: Record, n: int)
    ensures IsRecorded(rs + [r], n) <==> IsRecorded(rs, n) || r.sequence == n
  {
    var more := rs + [r];
    if IsRecorded(rs, n) {
      var i :| 0 <= i < |rs| && rs[i].sequence == n;
      assert more[i].sequence == n;
    }
    if r.sequence == n { assert more[|rs|] == r; }
  }

  lemma {:induction false} HolesBelow(first: int, rs: seq<Record>, i: nat)
    requires Increasing(first, rs) && i < |Holes(first, rs)|
    ensures first <= Holes(first, rs)[i].first <= Holes(first, rs)[i].last < NextExpected(first, rs) - 1
  {
    var n := |rs| - 1;
    if i < |Holes(first, rs[..n])| { HolesBelow(first, rs[..n], i); }
  }

  lemma {:induction false} HolesSeparated(first: int, rs: seq<Record>)
    requires Increasing(first, rs)
    ensures Separated(Holes(first, rs))
  {
    if rs != [] {
      var n := |rs| - 1;
      var before := Holes(first, rs[..n]);
      HolesSeparated(first, rs[..n]);
      forall i | 0 <= i < |before| ensures before[i].last + 1 < NextExpected(first, rs[..n]) { HolesBelow(first, rs[..n], i); }
    }
  }

  lemma RecordedBelow(first: int, rs: seq<Record>, n: int)
    requires Increasing(first, rs)
    ensures IsRecorded(rs, n) ==> first <= n < NextExpected(first, rs)
  {
  }

  lemma {:induction false} HolesMissing(first: int, rs: seq<Record>, n: int)
    requires Increasing(first, rs)
    ensures InGaps(Holes(first, rs), n) <==> first <= n < NextExpected(first, rs) && !IsRecorded(rs, n)
  {
    if rs != [] {
      var k := |rs| - 1;
      var before, r := rs[..k], rs[k];
      assert rs == before + [r];
      HolesMissing(first, before, n);
      HolesAppend(first, before, r);
      RecordedAppend(before, r, n);
      var expected := NextExpected(first, before);
      assert first <= expected <= r.sequence;
      RecordedBelow(first, before, n);
      if r.sequence > expected {
        GapsAppend(Holes(first, before), Gap(expected, r.sequence - 1), n);
      } else {
        assert Holes(first, rs) == Holes(first, before);
      }
    }
  }

  /** Up to the last record, the holes are the maximal missing runs. */
  lemma HolesAreMissingRuns(first: int, rs: seq<Record>)
    requires Increasing(first, rs)
    ensures MissingRuns(first, NextExpected(first, rs) - 1, rs, Holes(first, rs))
  {
    HolesSeparated(first, rs);
    forall n ensures InGaps(Holes(first, rs), n) <==> first <= n <= NextExpected(first, rs) - 1 && !IsRecorded(rs, n) {
      HolesMissing(first, rs, n);
    }
  }

  /** A separated gap list is determined by the numbers in it. */
  lemma {:induction false} SeparatedUnique(a: seq<Gap>, b: seq<Gap>)
    requires Separated(a) && Separated(b)
    requires forall n {:trigger InGaps(a, n)} {:trigger InGaps(b, n)} :: InGaps(a, n) <==> InGaps(b, n)
    ensures a == b
    decreases |a| + |b|
  {
    if b != [] { assert InGaps(b, b[0].first); }
    if a != [] { assert InGaps(a, a[0].first); }
    if a != [] && b != [] {
      FirstGapsEqual(a, b);
      TailsAgree(a, b);
      SeparatedUnique(a[1..], b[1..]);
      assert a == [a[0]] + a[1..] && b == [b[0]] + b[1..];
    }
  }

  lemma FirstGapsEqual(a: seq<Gap>, b: seq<Gap>)
    requires Separated(a) && Separated(b) && a != [] && b != []
    requires forall n {:trigger InGaps(a, n)} {:trigger InGaps(b, n)} :: InGaps(a, n) <==> InGaps(b, n)
    ensures a[0] == b[0]
  {
    assert InGaps(a, a[0].first) && InGaps(b, b[0].first);
    assert InGaps(b, a[0].first) && InGaps(a, b[0].first);
    assert InGaps(a, a[0].last) && InGaps(b, b[0].last);
    assert InGaps(b, a[0].last) && InGaps(a, b[0].last);
    assert !InGaps(a, a[0].last + 1) && !InGaps(b, b[0].last + 1);
    assert !InGaps(b, a[0].last + 1) && !InGaps(a, b[0].last + 1);
  }

  lemma TailGaps(a: seq<Gap>, n: int)
    requires Separated(a) && a != []
    ensures InGaps(a[1..], n) <==> InGaps(a, n) && n > a[0].last
  {
    if InGaps(a[1..], n) {
      var i :| 0 <= i < |a[1..]| && a[1..][i].first <= n <= a[1..][i].last;
      assert a[i + 1].first <= n <= a[i + 1].last;
    }
    if InGaps(a, n) && n > a[0].last {
      var i :| 0 <= i < |a| && a[i].first <= n <= a[i].last;
      assert a[1..][i - 1] == a[i];
    }
  }

  lemma TailsAgree(a: seq<Gap>, b: seq<Gap>)
    requires Separated(a) && Separated(b) && a != [] && b != [] && a[0] == b[0]
    requires forall n {:trigger InGaps(a, n)} {:trigger InGaps(b, n)} :: InGaps(a, n) <==> InGaps(b, n)
    ensures Separated(a[1..]) && Separated(b[1..])
    ensures forall n {:trigger InGaps(a[1..], n)} {:trigger InGaps(b[1..], n)} :: InGaps(a[1..], n) <==> InGaps(b[1..], n)
  {
    forall n ensures InGaps(a[1..], n) <==> InGaps(b[1..], n) {
      TailGaps(a, n);
      TailGaps(b, n);
    }
  }

  // ---------------------------------------------------------------- the reader's check

  datatype Metadata = Metadata(first: int, last: int, gaps: seq<Gap>)

  const U64: int := 0x1_0000_0000_0000_0000

  /** The check's verdict, on the records of a well-formed segment. */
  ghost predicate Matches(m: Metadata, rs: seq<Record>)
    requires rs != []
  {
    Increasing(m.first, rs) && rs[|rs| - 1].sequence == m.last && m.gaps == Holes(m.first, rs)
  }

  /** The first `i` records are in range and leave these holes. */
  ghost predicate Scanned(m: Metadata, rs: seq<Record>, i: nat, next: int, gaps: seq<Gap>)
    requires i <= |rs|
  {
    && Increasing(m.first, rs[..i]) && next == NextExpected(m.first, rs[..i]) && gaps == Holes(m.first, rs[..i])
    && (i > 0 ==> rs[i - 1].sequence <= m.last)
  }

  lemma RecordsAre(s: Segment)
    requires WellFormed(s)
    ensures s.records != [] && forall i :: 0 <= i < |s.records| ==> s.records[i].sequence <= MAX_I64
  {
  }

  lemma ScanStarts(m: Metadata, rs: seq<Record>)
    ensures Scanned(m, rs, 0, m.first, [])
  {
  }

  lemma ScanNext(m: Metadata, rs: seq<Record>, i: nat, next: int, gaps: seq<Gap>)
    requires i < |rs| && Scanned(m, rs, i, next, gaps) && next <= rs[i].sequence <= m.last
    ensures Scanned(m, rs, i + 1, rs[i].sequence + 1, gaps + if rs[i].sequence > next then [Gap(next, rs[i].sequence - 1)] else [])
  {
    assert rs[..i + 1] == rs[..i] + [rs[i]];
    HolesAppend(m.first, rs[..i], rs[i]);
  }

  lemma ScanStops(m: Metadata, rs: seq<Record>, i: nat, next: int, gaps: seq<Gap>)
    requires i < |rs| && Scanned(m, rs, i, next, gaps) && !(next <= rs[i].sequence <= m.last)
    ensures !Matches(m, rs)
  {
    if Increasing(m.first, rs) { assert rs[i].sequence <= rs[|rs| - 1].sequence; }
  }

  lemma ScanEnds(m: Metadata, rs: seq<Record>, next: int, gaps: seq<Gap>)
    requires rs != [] && Scanned(m, rs, |rs|, next, gaps)
    ensures Matches(m, rs) <==> next == m.last + 1 && gaps == m.gaps
  {
    assert rs[..|rs|] == rs;
  }

  /** The catalogue describes the object: records inside the range, gaps their maximal missing runs. */
  ghost predicate Describes(m: Metadata, rs: seq<Record>)
  {
    Increasing(m.first, rs) && (forall i :: 0 <= i < |rs| ==> rs[i].sequence <= m.last) && MissingRuns(m.first, m.last, rs, m.gaps)
  }

  /** The check accepts a description exactly when the range ends with a record. */
  lemma AcceptedRanges(m: Metadata, rs: seq<Record>)
    requires rs != []
    ensures Matches(m, rs) <==> Describes(m, rs) && rs[|rs| - 1].sequence == m.last
  {
    if Increasing(m.first, rs) && rs[|rs| - 1].sequence == m.last {
      HolesAreMissingRuns(m.first, rs);
      if MissingRuns(m.first, m.last, rs, m.gaps) {
        forall n ensures InGaps(m.gaps, n) <==> InGaps(Holes(m.first, rs), n) { HolesMissing(m.first, rs, n); }
        SeparatedUnique(m.gaps, Holes(m.first, rs));
      }
    }
  }

  /** verifyLogRange, over a decoded segment; Go's unsigned addition wraps. */
  method VerifyLogRange(decoded: Segment, m: Metadata) returns (ok: bool)
    requires WellFormed(decoded) && 0 <= m.first < U64 && 0 <= m.last < U64
    ensures ok <==> Describes(m, decoded.records) && decoded.records[|decoded.records| - 1].sequence == m.last
  {
    hide Matches;
    hide Describes;
    hide Scanned;
    hide WellFormed;
    var rs := decoded.records;
    RecordsAre(decoded);
    AcceptedRanges(m, rs);
    ScanStarts(m, rs);
    var next, gaps := m.first, [];
    for i := 0 to |rs|
      invariant Scanned(m, rs, i, next, gaps) && 0 <= next && (i > 0 ==> 1 <= next <= MAX_I64 + 1)
    {
      if rs[i].sequence < next || rs[i].sequence > m.last {
        ScanStops(m, rs, i, next, gaps);
        return false;
      }
      ScanNext(m, rs, i, next, gaps);
      assert gaps + [] == gaps;
      if rs[i].sequence > next {
        gaps := gaps + [Gap(next, rs[i].sequence - 1)];
      }
      next := rs[i].sequence + 1;
    }
    ScanEnds(m, rs, next, gaps);
    return next == (m.last + 1) % U64 && gaps == m.gaps;
  }

  /** So a correct description with a gap at its end is refused. */
  lemma TrailingGapRefused()
    ensures var rs, m := [Record(1, 0, [0])], Metadata(1, 2, [Gap(2, 2)]);
            Describes(m, rs) && !Matches(m, rs)
  {
    var rs, m := [Record(1, 0, [0])], Metadata(1, 2, [Gap(2, 2)]);
    assert IsRecorded(rs, 1) by { assert rs[0].sequence == 1; }
    assert InGaps(m.gaps, 2) by { assert m.gaps[0].first <= 2 <= m.gaps[0].last; }
    forall n ensures InGaps(m.gaps, n) <==> 1 <= n <= 2 && !IsRecorded(rs, n) { }
  }
}
