/** The worker's loss claim: registered gaps and everything after the registered part, merged. */
module LogSummary {
  import opened Base
  import opened LogFormat
  import opened LogClaims
  import opened LogAssembler

  /** A journalled segment: its range, its gaps, and whether the server confirmed its registration. */
  datatype Range = Range(stream: Stream, first: int, last: int, gaps: seq<Claim>, registered: bool)

  datatype Summary = Summary(complete: bool, gaps: seq<Claim>)

  datatype Summarized = Made(summary: Summary) | Invalid | Limit

  // ------------------------------------------------------------------------- merging

  /** Sorted by stream and number, with at least one unclaimed number between claims of a stream. */
  ghost predicate Apart(claims: seq<Claim>)
  {
    && (forall i :: 0 <= i < |claims| ==> ValidClaim(claims[i]))
    && (forall i, k :: 0 <= i < k < |claims| ==>
          Before(claims[i], claims[k]) && (claims[i].stream == claims[k].stream ==> claims[i].last + 1 < claims[k].first))
  }

  /** The maximal runs of the claimed numbers. */
  ghost predicate RunsOf(claims: seq<Claim>, runs: seq<Claim>)
  {
    Apart(runs) && forall s, n {:trigger Claimed(runs, s, n)} {:trigger Claimed(claims, s, n)} :: Claimed(runs, s, n) <==> Claimed(claims, s, n)
  }

  /** The claimed numbers make up no more runs than a completion may carry. */
  ghost predicate FewRuns(claims: seq<Claim>)
  {
    exists runs :: RunsOf(claims, runs) && |runs| <= MAX_CLAIMS
  }

  // ------------------------------------------------------ runs are determined by numbers

  lemma FirstClaimed(a: seq<Claim>)
    requires Apart(a) && a != []
    ensures forall n {:trigger Claimed(a, a[0].stream, n)} :: a[0].first <= n <= a[0].last ==> Claimed(a, a[0].stream, n)
    ensures Claimed(a, a[0].stream, a[0].first) && !Claimed(a, a[0].stream, a[0].last + 1)
  {
  }

  /** No claimed number comes before the first run. */
  lemma NoneBefore(a: seq<Claim>, s: Stream, n: int)
    requires Apart(a) && a != [] && Claimed(a, s, n)
    ensures s == a[0].stream ==> a[0].first <= n
    ensures s != a[0].stream ==> a[0].stream.Stdout?
  {
    var i :| 0 <= i < |a| && a[i].stream == s && a[i].first <= n <= a[i].last;
    assert i > 0 ==> Before(a[0], a[i]);
  }

  lemma FirstRunsEqual(a: seq<Claim>, b: seq<Claim>)
    requires RunsOf(a, b) && Apart(a) && a != [] && b != []
    ensures a[0] == b[0]
  {
    FirstClaimed(a);
    FirstClaimed(b);
    NoneBefore(a, b[0].stream, b[0].first);
    NoneBefore(b, a[0].stream, a[0].first);
    assert a[0].stream == b[0].stream && a[0].first == b[0].first;
    assert !Claimed(b, b[0].stream, a[0].last + 1) && !Claimed(a, a[0].stream, b[0].last + 1);
  }

  lemma TailClaims(a: seq<Claim>, s: Stream, n: int)
    requires Apart(a) && a != []
    ensures Claimed(a[1..], s, n) <==> Claimed(a, s, n) && !(s == a[0].stream && a[0].first <= n <= a[0].last)
  {
    if Claimed(a[1..], s, n) {
      var i :| 0 <= i < |a[1..]| && a[1..][i].stream == s && a[1..][i].first <= n <= a[1..][i].last;
      assert a[i + 1] == a[1..][i];
    }
    if Claimed(a, s, n) && !(s == a[0].stream && a[0].first <= n <= a[0].last) {
      var i :| 0 <= i < |a| && a[i].stream == s && a[i].first <= n <= a[i].last;
      assert a[1..][i - 1] == a[i];
    }
  }

  lemma TailsAgree(a: seq<Claim>, b: seq<Claim>)
    requires RunsOf(a, b) && Apart(a) && a != [] && b != [] && a[0] == b[0]
    ensures Apart(a[1..]) && RunsOf(a[1..], b[1..])
  {
    hide Claimed;
    forall s, n ensures Claimed(b[1..], s, n) <==> Claimed(a[1..], s, n) {
      TailClaims(a, s, n);
      TailClaims(b, s, n);
    }
  }

  /** Separate runs are determined by the numbers in them. */
  lemma {:induction false} RunsUnique(a: seq<Claim>, b: seq<Claim>)
    requires RunsOf(a, b) && Apart(a)
    ensures a == b
    decreases |a| + |b|
  {
    if a != [] { FirstClaimed(a); }
    if b != [] { FirstClaimed(b); }
    if a != [] && b != [] {
      FirstRunsEqual(a, b);
      TailsAgree(a, b);
      RunsUnique(a[1..], b[1..]);
      assert a == [a[0]] + a[1..] && b == [b[0]] + b[1..];
    } else {
      assert !Claimed([], Stdout, 0);
    }
  }

  /** So the number of runs is a property of the claims. */
  lemma RunsDecide(claims: seq<Claim>, runs: seq<Claim>)
    requires RunsOf(claims, runs)
    ensures FewRuns(claims) <==> |runs| <= MAX_CLAIMS
  {
    if FewRuns(claims) {
      var few :| RunsOf(claims, few) && |few| <= MAX_CLAIMS;
      assert RunsOf(few, runs);
      RunsUnique(few, runs);
    }
  }

  // ------------------------------------------------------------------------ the merge

  predicate Touches(m: seq<Claim>, c: Claim)
  {
    m != [] && m[|m| - 1].stream == c.stream && c.first <= m[|m| - 1].last + 1
  }

  function MergeOne(m: seq<Claim>, c: Claim): seq<Claim>
  {
    if Touches(m, c) then m[..|m| - 1] + [m[|m| - 1].(last := Max(m[|m| - 1].last, c.last))] else m + [c]
  }

  /** What the merge has made of the first `n` claims. */
  function Merged(claims: seq<Claim>, n: nat): seq<Claim>
    requires n <= |claims|
  {
    if n == 0 then [] else MergeOne(Merged(claims, n - 1), claims[n - 1])
  }

  lemma MergeKeepsApart(m: seq<Claim>, c: Claim)
    requires Apart(m) && ValidClaim(c) && (m != [] ==> Before(m[|m| - 1], c))
    ensures Apart(MergeOne(m, c)) && Before(MergeOne(m, c)[|MergeOne(m, c)| - 1], c)
  {
    var r := MergeOne(m, c);
    var n := |r| - 1;
    forall i, k | 0 <= i < k < |r|
      ensures Before(r[i], r[k]) && (r[i].stream == r[k].stream ==> r[i].last + 1 < r[k].first)
    {
      assert r[i] == m[i];
      if k < n { assert r[k] == m[k]; } else if i < |m| - 1 { assert Before(m[i], m[|m| - 1]); }
    }
  }

  lemma MergeClaims(m: seq<Claim>, c: Claim, s: Stream, n: int)
    requires Apart(m) && ValidClaim(c) && (m != [] ==> Before(m[|m| - 1], c))
    ensures Claimed(MergeOne(m, c), s, n) <==> Claimed(m, s, n) || (c.stream == s && c.first <= n <= c.last)
  {
    if Touches(m, c) {
      var k := |m| - 1;
      assert m == m[..k] + [m[k]];
      ClaimedAppend(m[..k], m[k], s, n);
      ClaimedAppend(m[..k], m[k].(last := Max(m[k].last, c.last)), s, n);
    } else {
      ClaimedAppend(m, c, s, n);
    }
  }

  lemma {:induction false} MergedApart(claims: seq<Claim>, n: nat)
    requires Sorted(claims) && n <= |claims| && forall i :: 0 <= i < n ==> ValidClaim(claims[i])
    ensures Apart(Merged(claims, n)) && (n > 0 ==> Merged(claims, n) != [] && Before(Merged(claims, n)[|Merged(claims, n)| - 1], claims[n - 1]))
  {
    if n > 0 {
      MergedApart(claims, n - 1);
      var m := Merged(claims, n - 1);
      if n > 1 { BeforeTransitive(m[|m| - 1], claims[n - 2], claims[n - 1]); }
      MergeKeepsApart(m, claims[n - 1]);
    }
  }

  lemma {:induction false} MergedClaims(claims: seq<Claim>, n: nat, s: Stream, k: int)
    requires Sorted(claims) && n <= |claims| && forall i :: 0 <= i < n ==> ValidClaim(claims[i])
    ensures Claimed(Merged(claims, n), s, k) <==> Claimed(claims[..n], s, k)
  {
    hide Claimed;
    hide Apart;
    hide MergeOne;
    if n == 0 {
      assert claims[..0] == [];
    } else {
      MergedClaims(claims, n - 1, s, k);
      MergedApart(claims, n - 1);
      var m := Merged(claims, n - 1);
      if n > 1 { BeforeTransitive(m[|m| - 1], claims[n - 2], claims[n - 1]); }
      MergeClaims(m, claims[n - 1], s, k);
      assert claims[..n] == claims[..n - 1] + [claims[n - 1]];
      ClaimedAppend(claims[..n - 1], claims[n - 1], s, k);
    }
  }

  lemma {:induction false} MergedGrows(claims: seq<Claim>, n: nat, k: nat)
    requires n <= k <= |claims|
    ensures |Merged(claims, n)| <= |Merged(claims, k)|
  {
    if n < k { MergedGrows(claims, n, k - 1); }
  }

  lemma MergedNext(claims: seq<Claim>, i: nat)
    requires i < |claims|
    ensures Merged(claims, 0) == [] && Merged(claims, i + 1) == MergeOne(Merged(claims, i), claims[i])
  {
  }

  /** The merge loop, with its limit; an earlier stop means one of its two errors. */
  method Merge(claims: seq<Claim>) returns (r: Summarized)
    requires Sorted(claims)
    ensures r.Made? <==> (forall i :: 0 <= i < |claims| ==> ValidClaim(claims[i])) && |Merged(claims, |claims|)| <= MAX_CLAIMS
    ensures r.Made? ==> r.summary.gaps == Merged(claims, |claims|)
    ensures (forall i :: 0 <= i < |claims| ==> ValidClaim(claims[i])) ==> !r.Invalid?
  {
    var merged: seq<Claim> := [];
    assert Merged(claims, 0) == [];
    hide Merged;
    for i := 0 to |claims|
      invariant merged == Merged(claims, i) && |merged| <= MAX_CLAIMS
      invariant forall k :: 0 <= k < i ==> ValidClaim(claims[k])
    {
      var gap := claims[i];
      if gap.first < 1 || gap.last < gap.first {
        return Invalid;
      }
      MergedNext(claims, i);
      MergedGrows(claims, i + 1, |claims|);
      if merged != [] && merged[|merged| - 1].stream == gap.stream && gap.first <= merged[|merged| - 1].last + 1 {
        var previous := merged[|merged| - 1];
        merged := merged[..|merged| - 1] + [previous.(last := Max(previous.last, gap.last))];
        continue;
      }
      merged := merged + [gap];
      if |merged| > MAX_CLAIMS {
        return Limit;
      }
    }
    return Made(Summary(false, merged));
  }

  // -------------------------------------------------------------------- the evidence

  /** The end of the registered part among the first `n` ranges. */
  function RegisteredEnd(ranges: seq<Range>, n: nat, s: Stream): int
    requires n <= |ranges|
  {
    if n == 0 then 0
    else if ranges[n - 1].stream == s && ranges[n - 1].registered then ranges[n - 1].last
    else RegisteredEnd(ranges, n - 1, s)
  }

  predicate AnyUnregistered(ranges: seq<Range>, n: nat, s: Stream)
    requires n <= |ranges|
  {
    n > 0 && ((ranges[n - 1].stream == s && !ranges[n - 1].registered) || AnyUnregistered(ranges, n - 1, s))
  }

  function RegisteredGaps(ranges: seq<Range>, n: nat): seq<Claim>
    requires n <= |ranges|
  {
    if n == 0 then [] else RegisteredGaps(ranges, n - 1) + if ranges[n - 1].registered then ranges[n - 1].gaps else []
  }

  predicate RangeOk(ranges: seq<Range>, i: nat)
    requires i < |ranges|
  {
    var r := ranges[i];
    && 1 <= r.first <= r.last <= MAX_I64
    && (r.registered ==> !AnyUnregistered(ranges, i, r.stream) && r.first == RegisteredEnd(ranges, i, r.stream) + 1)
  }

  predicate TotalsOk(ranges: seq<Range>, captured: Two<int>)
  {
    && RegisteredEnd(ranges, |ranges|, Stdout) <= captured.stdout <= MAX_I64
    && RegisteredEnd(ranges, |ranges|, Stderr) <= captured.stderr <= MAX_I64
  }

  /** Everything captured after the registered part. */
  function Tail(ranges: seq<Range>, captured: Two<int>, s: Stream): seq<Claim>
  {
    var end := RegisteredEnd(ranges, |ranges|, s);
    if captured.At(s) > end then [Claim(s, end + 1, captured.At(s))] else []
  }

  function Evidence(ranges: seq<Range>, captured: Two<int>): seq<Claim>
  {
    RegisteredGaps(ranges, |ranges|) + Tail(ranges, captured, Stdout) + Tail(ranges, captured, Stderr)
  }

  predicate SummaryValid(ranges: seq<Range>, captured: Two<int>)
  {
    && (forall i :: 0 <= i < |ranges| ==> RangeOk(ranges, i)) && TotalsOk(ranges, captured)
    && (forall i :: 0 <= i < |Evidence(ranges, captured)| ==> ValidClaim(Evidence(ranges, captured)[i]))
  }

  method Collect(ranges: seq<Range>, captured: Two<int>) returns (ok: bool, gaps: seq<Claim>, unregistered: Two<bool>)
    ensures ok <==> (forall i :: 0 <= i < |ranges| ==> RangeOk(ranges, i)) && TotalsOk(ranges, captured)
    ensures ok ==> gaps == Evidence(ranges, captured)
    ensures ok ==> unregistered == Two(AnyUnregistered(ranges, |ranges|, Stdout), AnyUnregistered(ranges, |ranges|, Stderr))
  {
    gaps, unregistered := [], Two(false, false);
    var registered := Two(0, 0);
    for i := 0 to |ranges|
      invariant registered == Two(RegisteredEnd(ranges, i, Stdout), RegisteredEnd(ranges, i, Stderr))
      invariant unregistered == Two(AnyUnregistered(ranges, i, Stdout), AnyUnregistered(ranges, i, Stderr))
      invariant gaps == RegisteredGaps(ranges, i) && forall k :: 0 <= k < i ==> RangeOk(ranges, k)
    {
      var r := ranges[i];
      if r.first < 1 || r.last < r.first || r.last > MAX_I64
         || (r.registered && (unregistered.At(r.stream) || r.first != registered.At(r.stream) + 1)) {
        assert !RangeOk(ranges, i);
        return false, [], unregistered;
      }
      if r.registered {
        registered, gaps := Put(registered, r.stream, r.last), gaps + r.gaps;
      } else {
        unregistered := Put(unregistered, r.stream, true);
      }
    }
    var base := gaps;
    if captured.stdout > MAX_I64 || captured.stdout < registered.stdout {
      return false, [], unregistered;
    }
    if captured.stdout > registered.stdout {
      gaps := gaps + [Claim(Stdout, registered.stdout + 1, captured.stdout)];
    }
    assert gaps == base + Tail(ranges, captured, Stdout);
    if captured.stderr > MAX_I64 || captured.stderr < registered.stderr {
      return false, [], unregistered;
    }
    if captured.stderr > registered.stderr {
      gaps := gaps + [Claim(Stderr, registered.stderr + 1, captured.stderr)];
    }
    ok := true;
  }

  /** summarize_ranges: it succeeds exactly when the ranges are an in-order prefix of registrations and
      the evidence makes up at most 1024 runs; the claim then is those runs. */
  method Summarize(ranges: seq<Range>, captured: Two<int>, finished: bool) returns (r: Summarized)
    ensures r.Made? <==> SummaryValid(ranges, captured) && FewRuns(Evidence(ranges, captured))
    ensures r.Made? ==> RunsOf(Evidence(ranges, captured), r.summary.gaps) && |r.summary.gaps| <= MAX_CLAIMS
    ensures r.Made? ==> r.summary.complete ==
                          (finished && !AnyUnregistered(ranges, |ranges|, Stdout) && !AnyUnregistered(ranges, |ranges|, Stderr) && r.summary.gaps == [])
    ensures r.Invalid? ==> !SummaryValid(ranges, captured)
  {
    hide Merged;
    hide Apart;
    hide Evidence;
    hide RangeOk;
    hide TotalsOk;
    var ok, gaps, unregistered := Collect(ranges, captured);
    if !ok {
      return Invalid;
    }
    var sorted := Sort(gaps);
    SortedValid(gaps, sorted);
    r := Merge(sorted);
    if forall i :: 0 <= i < |sorted| ==> ValidClaim(sorted[i]) {
      MergedSame(gaps, sorted);
      RunsDecide(gaps, Merged(sorted, |sorted|));
    }
    if r.Made? {
      r := Made(Summary(finished && !unregistered.stdout && !unregistered.stderr && r.summary.gaps == [], r.summary.gaps));
    }
  }

  lemma SortedValid(gaps: seq<Claim>, sorted: seq<Claim>)
    requires multiset(gaps) == multiset(sorted)
    ensures (forall i :: 0 <= i < |gaps| ==> ValidClaim(gaps[i])) <==> (forall i :: 0 <= i < |sorted| ==> ValidClaim(sorted[i]))
  {
    if forall i :: 0 <= i < |gaps| ==> ValidClaim(gaps[i]) {
      forall i | 0 <= i < |sorted| ensures ValidClaim(sorted[i]) { assert sorted[i] in multiset(gaps); }
    }
    if forall i :: 0 <= i < |sorted| ==> ValidClaim(sorted[i]) {
      forall i | 0 <= i < |gaps| ensures ValidClaim(gaps[i]) { assert gaps[i] in multiset(sorted); }
    }
  }

  lemma MergedSame(gaps: seq<Claim>, sorted: seq<Claim>)
    requires multiset(gaps) == multiset(sorted) && Sorted(sorted) && forall i :: 0 <= i < |sorted| ==> ValidClaim(sorted[i])
    ensures RunsOf(gaps, Merged(sorted, |sorted|))
  {
    MergedApart(sorted, |sorted|);
    forall s, n ensures Claimed(Merged(sorted, |sorted|), s, n) <==> Claimed(gaps, s, n) {
      MergedClaims(sorted, |sorted|, s, n);
      assert sorted[..|sorted|] == sorted;
      SameClaims(gaps, sorted, s, n);
    }
  }
}
