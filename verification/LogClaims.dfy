/** Loss claims: ranges of sequence numbers a completion admits to have lost. */
module LogClaims {
  import opened Base
  import opened LogFormat

  const MAX_CLAIMS := 1024

  datatype Claim = Claim(stream: Stream, first: int, last: int)

  ghost predicate Claimed(claims: seq<Claim>, s: Stream, n: int)
  {
    exists i :: 0 <= i < |claims| && claims[i].stream == s && claims[i].first <= n <= claims[i].last
  }

  predicate ValidClaim(c: Claim)
  {
    1 <= c.first <= c.last
  }

  /** Streams in a fixed order, and each stream's claims by their first number. */
  predicate Before(a: Claim, b: Claim)
  {
    if a.stream != b.stream then a.stream.Stdout? else a.first <= b.first
  }

  predicate Sorted(claims: seq<Claim>)
  {
    forall i, k :: 0 <= i < k < |claims| ==> Before(claims[i], claims[k])
  }

  lemma ClaimedAppend(claims: seq<Claim>, c: Claim, s: Stream, n: int)
    ensures Claimed(claims + [c], s, n) <==> Claimed(claims, s, n) || (c.stream == s && c.first <= n <= c.last)
  {
    var more := claims + [c];
    if Claimed(claims, s, n) {
      var i :| 0 <= i < |claims| && claims[i].stream == s && claims[i].first <= n <= claims[i].last;
      assert more[i] == claims[i];
    }
    if c.stream == s && c.first <= n <= c.last { assert more[|claims|] == c; }
  }

  lemma SameClaims(a: seq<Claim>, b: seq<Claim>, s: Stream, n: int)
    requires multiset(a) == multiset(b)
    ensures Claimed(a, s, n) <==> Claimed(b, s, n)
  {
    if Claimed(a, s, n) {
      var i :| 0 <= i < |a| && a[i].stream == s && a[i].first <= n <= a[i].last;
      assert a[i] in multiset(b);
      var k :| 0 <= k < |b| && b[k] == a[i];
    }
    if Claimed(b, s, n) {
      var i :| 0 <= i < |b| && b[i].stream == s && b[i].first <= n <= b[i].last;
      assert b[i] in multiset(a);
      var k :| 0 <= k < |a| && a[k] == b[i];
    }
  }

  /** The library sort both sides call, as insertion into a sorted prefix. */
  method Sort(claims: seq<Claim>) returns (r: seq<Claim>)
    ensures Sorted(r) && multiset(r) == multiset(claims)
  {
    r := [];
    for i := 0 to |claims|
      invariant Sorted(r) && multiset(r) == multiset(claims[..i])
    {
      assert claims[..i + 1] == claims[..i] + [claims[i]];
      r := Insert(r, claims[i]);
    }
    assert claims[..|claims|] == claims;
  }

  method Insert(sorted: seq<Claim>, c: Claim) returns (r: seq<Claim>)
    requires Sorted(sorted)
    ensures Sorted(r) && multiset(r) == multiset(sorted) + multiset{c}
  {
    var k := |sorted|;
    while k > 0 && !Before(sorted[k - 1], c)
      invariant 0 <= k <= |sorted| && forall i :: k <= i < |sorted| ==> Before(c, sorted[i])
    {
      k := k - 1;
    }
    InsertAt(sorted, c, k);
    r := sorted[..k] + [c] + sorted[k..];
  }

  lemma InsertAt(sorted: seq<Claim>, c: Claim, k: nat)
    requires Sorted(sorted) && k <= |sorted| && (k > 0 ==> Before(sorted[k - 1], c)) && forall i :: k <= i < |sorted| ==> Before(c, sorted[i])
    ensures Sorted(sorted[..k] + [c] + sorted[k..])
    ensures multiset(sorted[..k] + [c] + sorted[k..]) == multiset(sorted) + multiset{c}
  {
    forall i | 0 <= i < k ensures Before(sorted[i], c) { if i < k - 1 { BeforeTransitive(sorted[i], sorted[k - 1], c); } }
    InsertCounts(sorted, c, k);
    InsertSorted(sorted, c, k, sorted[..k] + [c] + sorted[k..]);
  }

  lemma BeforeTransitive(a: Claim, b: Claim, c: Claim)
    requires Before(a, b) && Before(b, c)
    ensures Before(a, c)
  {
  }

  lemma InsertCounts(sorted: seq<Claim>, c: Claim, k: nat)
    requires k <= |sorted|
    ensures multiset(sorted[..k] + [c] + sorted[k..]) == multiset(sorted) + multiset{c}
  {
    assert sorted == sorted[..k] + sorted[k..];
  }

  lemma InsertSorted(sorted: seq<Claim>, c: Claim, k: nat, r: seq<Claim>)
    requires Sorted(sorted) && k <= |sorted| && r == sorted[..k] + [c] + sorted[k..]
    requires forall i :: 0 <= i < k ==> Before(sorted[i], c)
    requires forall i :: k <= i < |sorted| ==> Before(c, sorted[i])
    ensures Sorted(r)
  {
    hide Before;
    forall i, j | 0 <= i < j < |r| ensures Before(r[i], r[j]) {
      assert r[i] == if i < k then sorted[i] else if i == k then c else sorted[i - 1];
      assert r[j] == if j < k then sorted[j] else if j == k then c else sorted[j - 1];
    }
  }

  // --------------------------------------------------- the server's view of a claim list

  /** No number of a stream is claimed twice. */
  ghost predicate Disjoint(claims: seq<Claim>)
  {
    forall i, k :: 0 <= i < |claims| && 0 <= k < |claims| && i != k && claims[i].stream == claims[k].stream ==>
      claims[i].last < claims[k].first || claims[k].last < claims[i].first
  }

  /** Sorted neighbours of the same stream do not touch each other's numbers. */
  predicate Chained(claims: seq<Claim>)
  {
    && (forall i :: 0 <= i < |claims| ==> ValidClaim(claims[i]))
    && (forall i :: 0 < i < |claims| && claims[i - 1].stream == claims[i].stream ==> claims[i - 1].last < claims[i].first)
  }

  lemma {:induction false} ChainedApart(claims: seq<Claim>, i: nat, k: nat)
    requires Sorted(claims) && Chained(claims) && i < k < |claims| && claims[i].stream == claims[k].stream
    ensures claims[i].last < claims[k].first
    decreases k
  {
    if i < k - 1 {
      assert Before(claims[i], claims[k - 1]) && Before(claims[k - 1], claims[k]);
      ChainedApart(claims, i, k - 1);
    }
  }

  lemma ChainedIsDisjoint(claims: seq<Claim>)
    requires Sorted(claims) && forall i :: 0 <= i < |claims| ==> ValidClaim(claims[i])
    ensures Chained(claims) <==> Disjoint(claims)
  {
    if Chained(claims) {
      forall i, k | 0 <= i < |claims| && 0 <= k < |claims| && i != k && claims[i].stream == claims[k].stream
        ensures claims[i].last < claims[k].first || claims[k].last < claims[i].first
      {
        if i < k { ChainedApart(claims, i, k); } else { ChainedApart(claims, k, i); }
      }
    }
    if Disjoint(claims) {
      forall i | 0 < i < |claims| && claims[i - 1].stream == claims[i].stream ensures claims[i - 1].last < claims[i].first {
        assert Before(claims[i - 1], claims[i]);
      }
    }
  }

  /** Being disjoint does not depend on the order. */
  lemma DisjointSame(a: seq<Claim>, b: seq<Claim>)
    requires multiset(a) == multiset(b) && Disjoint(a)
    requires forall i :: 0 <= i < |a| ==> ValidClaim(a[i])
    ensures Disjoint(b) && forall i :: 0 <= i < |b| ==> ValidClaim(b[i])
  {
    forall i | 0 <= i < |b| ensures ValidClaim(b[i]) {
      assert b[i] in multiset(a);
    }
    forall i, k | 0 <= i < |b| && 0 <= k < |b| && i != k && b[i].stream == b[k].stream
      ensures b[i].last < b[k].first || b[k].last < b[i].first
    {
      if b[i] == b[k] {
        TwiceInSeq(b, i, k);
        DisjointOnce(a, b[i]);
      } else {
        assert b[i] in multiset(a) && b[k] in multiset(a);
        var x :| 0 <= x < |a| && a[x] == b[i];
        var y :| 0 <= y < |a| && a[y] == b[k];
      }
    }
  }

  lemma TwiceInSeq(b: seq<Claim>, i: nat, k: nat)
    requires i < |b| && k < |b| && i != k && b[i] == b[k]
    ensures multiset(b)[b[i]] >= 2
  {
    var lo, hi := if i < k then i else k, if i < k then k else i;
    assert b == b[..lo] + [b[lo]] + b[lo + 1..hi] + [b[hi]] + b[hi + 1..];
  }

  lemma {:induction false} DisjointOnce(a: seq<Claim>, c: Claim)
    requires Disjoint(a) && ValidClaim(c)
    ensures multiset(a)[c] <= 1
  {
    if a != [] {
      var n := |a| - 1;
      assert a == a[..n] + [a[n]];
      DisjointOnce(a[..n], c);
      assert a[n] == c ==> c !in a[..n];
    }
  }

  /** normalizeCompletion's rule for a claim list: it is accepted exactly when it is short enough, every
      claim is a range from 1 on, none overlap, and a complete log claims nothing. */
  method NormalizeClaims(claims: seq<Claim>, complete: bool) returns (r: Option<seq<Claim>>)
    ensures r.Some? <==> |claims| <= MAX_CLAIMS && (complete ==> claims == []) && Disjoint(claims)
                         && forall i :: 0 <= i < |claims| ==> ValidClaim(claims[i])
    ensures r.Some? ==> Sorted(r.value) && Chained(r.value) && multiset(r.value) == multiset(claims)
  {
    if |claims| > MAX_CLAIMS {
      return None;
    }
    if complete && claims != [] {
      return None;
    }
    var sorted := Sort(claims);
    SortedVerdict(claims, sorted);
    for i := 0 to |sorted|
      invariant forall k :: 0 <= k < i ==> ValidClaim(sorted[k])
      invariant forall k :: 0 < k < i && sorted[k - 1].stream == sorted[k].stream ==> sorted[k - 1].last < sorted[k].first
    {
      if !ValidClaim(sorted[i]) || (i > 0 && sorted[i - 1].stream == sorted[i].stream && sorted[i - 1].last >= sorted[i].first) {
        return None;
      }
    }
    return Some(sorted);
  }

  lemma SortedVerdict(claims: seq<Claim>, sorted: seq<Claim>)
    requires Sorted(sorted) && multiset(sorted) == multiset(claims)
    ensures Chained(sorted) <==> Disjoint(claims) && forall i :: 0 <= i < |claims| ==> ValidClaim(claims[i])
  {
    if Chained(sorted) {
      ChainedIsDisjoint(sorted);
      DisjointSame(sorted, claims);
    }
    if Disjoint(claims) && forall i :: 0 <= i < |claims| ==> ValidClaim(claims[i]) {
      DisjointSame(claims, sorted);
      ChainedIsDisjoint(sorted);
    }
  }

  // ---------------------------------------------------------------------- coverage

  ghost predicate Covers(claims: seq<Claim>, s: Stream, first: int, last: int)
  {
    forall n {:trigger Claimed(claims, s, n)} :: first <= n <= last ==> Claimed(claims, s, n)
  }

  /** completionCoversSegmentGap: true exactly when every number of the gap is claimed. */
  method CoversGap(claims: seq<Claim>, s: Stream, first: int, last: int) returns (ok: bool)
    requires Sorted(claims) && Chained(claims) && first <= last
    ensures ok <==> Covers(claims, s, first, last)
  {
    var next := first;
    for i := 0 to |claims|
      invariant first <= next <= last
      invariant forall n :: first <= n < next ==> Claimed(claims, s, n)
      invariant forall k :: 0 <= k < i && claims[k].stream == s ==> claims[k].last < next
    {
      var c := claims[i];
      if c.stream != s || c.last < next {
        continue;
      }
      if c.first > next {
        NotClaimed(claims, s, i, next);
        return false;
      }
      forall n | next <= n <= c.last ensures Claimed(claims, s, n) { assert claims[i].first <= n <= claims[i].last; }
      if c.last >= last {
        return true;
      }
      next := c.last + 1;
    }
    assert !Claimed(claims, s, next);
    return false;
  }

  lemma NotClaimed(claims: seq<Claim>, s: Stream, i: nat, n: int)
    requires Sorted(claims) && Chained(claims) && i < |claims| && claims[i].stream == s && n < claims[i].first
    requires forall k :: 0 <= k < i && claims[k].stream == s ==> claims[k].last < n
    ensures !Claimed(claims, s, n)
  {
    forall k | 0 <= k < |claims| && claims[k].stream == s ensures !(claims[k].first <= n <= claims[k].last) {
      if i < k { assert Before(claims[i], claims[k]); }
    }
  }
}
