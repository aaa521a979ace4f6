/** Sweep expansion: a parameter matrix becomes numbered children, one for each choice of values. */
module SweepExpansion {
  import opened Base

  const MAX_SWEEP_JOBS := 1000
  const MAX_PARAMETERS := 32
  const MAX_VALUE_BYTES := 8192
  const MAX_EXPANDED_BYTES := 0x100_0000

  type Matrix = map<string, seq<string>>
  type Environment = map<string, string>

  // --------------------------------------------------------------- mixed-radix numbers

  function Product(radices: seq<nat>): nat
  {
    if radices == [] then 1 else Product(radices[..|radices| - 1]) * radices[|radices| - 1]
  }

  function Quotient(i: nat, m: nat): nat
    requires m >= 1
  {
    i / m
  }

  predicate Positive(radices: seq<nat>)
  {
    forall k :: 0 <= k < |radices| ==> radices[k] >= 1
  }

  /** The digits of `i`, the last one changing fastest. */
  function Digits(i: nat, radices: seq<nat>): (d: seq<nat>)
    requires Positive(radices)
    ensures |d| == |radices| && forall k :: 0 <= k < |d| ==> d[k] < radices[k]
  {
    if radices == [] then []
    else
      var n := |radices| - 1;
      Division(i, radices[n]);
      Digits(Quotient(i, radices[n]), radices[..n]) + [i % radices[n]]
  }

  predicate IsChoice(d: seq<nat>, radices: seq<nat>)
  {
    |d| == |radices| && forall k :: 0 <= k < |d| ==> d[k] < radices[k]
  }

  function Number(d: seq<nat>, radices: seq<nat>): nat
    requires |d| == |radices|
  {
    if radices == [] then 0
    else
      var n := |radices| - 1;
      Number(d[..n], radices[..n]) * radices[n] + d[n]
  }

  lemma Multiples(k: int, m: int)
    requires m >= 1
    ensures (k >= 1 ==> k * m >= m) && (k <= -1 ==> k * m <= -m)
  {
    if k >= 1 { assert (k - 1) * m >= 0; }
    if k <= -1 { assert (k + 1) * m <= 0; }
  }

  lemma DivMod(q: nat, r: nat, m: nat)
    requires r < m
    ensures (q * m + r) / m == q && (q * m + r) % m == r
  {
    var x := q * m + r;
    Division(x, m);
    assert (q - x / m) * m == x % m - r;
    Multiples(q - x / m, m);
  }

  lemma Division(x: int, m: int)
    requires m >= 1
    ensures x == x / m * m + x % m && 0 <= x % m < m
  {
  }

  lemma DivBound(i: nat, p: nat, m: nat)
    requires m >= 1 && i < p * m
    ensures i / m < p && i / m * m + i % m == i
  {
    Division(i, m);
    assert (i / m - p) * m < 0;
    Multiples(i / m - p, m);
  }

  lemma MulAdd(q: nat, r: nat, p: nat, m: nat)
    requires q < p && r < m
    ensures q * m + r < p * m
  {
    assert (q + 1) * m <= p * m;
  }

  lemma {:induction false} NumberOfDigits(i: nat, radices: seq<nat>)
    requires Positive(radices) && i < Product(radices)
    ensures Number(Digits(i, radices), radices) == i
  {
    if radices != [] {
      var n := |radices| - 1;
      DivBound(i, Product(radices[..n]), radices[n]);
      NumberOfDigits(Quotient(i, radices[n]), radices[..n]);
      assert Digits(i, radices)[..n] == Digits(Quotient(i, radices[n]), radices[..n]);
    }
  }

  lemma {:induction false} DigitsOfNumber(d: seq<nat>, radices: seq<nat>)
    requires Positive(radices) && IsChoice(d, radices)
    ensures Number(d, radices) < Product(radices) && Digits(Number(d, radices), radices) == d
  {
    if radices != [] {
      var n := |radices| - 1;
      DigitsOfNumber(d[..n], radices[..n]);
      MulAdd(Number(d[..n], radices[..n]), d[n], Product(radices[..n]), radices[n]);
      DivMod(Number(d[..n], radices[..n]), d[n], radices[n]);
      assert d == d[..n] + [d[n]];
    }
  }

  /** The first difference decides. */
  ghost predicate LexLess(a: seq<nat>, b: seq<nat>)
    requires |a| == |b|
  {
    exists k :: 0 <= k < |a| && a[..k] == b[..k] && a[k] < b[k]
  }

  lemma {:induction false} NumberOrders(a: seq<nat>, b: seq<nat>, radices: seq<nat>)
    requires Positive(radices) && IsChoice(a, radices) && IsChoice(b, radices)
    ensures LexLess(a, b) ==> Number(a, radices) < Number(b, radices)
  {
    if LexLess(a, b) {
      var k :| 0 <= k < |a| && a[..k] == b[..k] && a[k] < b[k];
      var n := |radices| - 1;
      if k == n {
        assert a[..n] == b[..n];
      } else {
        assert a[..n][..k] == b[..n][..k] && a[..n][k] < b[..n][k];
        NumberOrders(a[..n], b[..n], radices[..n]);
        MulAdd(Number(a[..n], radices[..n]), a[n], Number(b[..n], radices[..n]), radices[n]);
      }
    }
  }

  lemma {:induction false} LexTotal(a: seq<nat>, b: seq<nat>)
    requires |a| == |b| && a != b
    ensures LexLess(a, b) || LexLess(b, a)
  {
    var n := |a| - 1;
    if a[..n] == b[..n] {
      assert a == a[..n] + [a[n]] && b == b[..n] + [b[n]];
    } else {
      LexTotal(a[..n], b[..n]);
      if LexLess(a[..n], b[..n]) {
        var k :| 0 <= k < n && a[..n][..k] == b[..n][..k] && a[..n][k] < b[..n][k];
        assert a[..k] == a[..n][..k] && b[..k] == b[..n][..k];
      } else {
        var k :| 0 <= k < n && b[..n][..k] == a[..n][..k] && b[..n][k] < a[..n][k];
        assert a[..k] == a[..n][..k] && b[..k] == b[..n][..k];
      }
    }
  }

  /** Children are numbered in the lexicographic order of their choices. */
  lemma ChildrenInOrder(i: nat, j: nat, radices: seq<nat>)
    requires Positive(radices) && i < Product(radices) && j < Product(radices)
    ensures i < j <==> LexLess(Digits(i, radices), Digits(j, radices))
  {
    NumberOfDigits(i, radices);
    NumberOfDigits(j, radices);
    var a, b := Digits(i, radices), Digits(j, radices);
    NumberOrders(a, b, radices);
    NumberOrders(b, a, radices);
    if a != b { LexTotal(a, b); }
  }

  /** Every choice of one value per parameter is exactly one child. */
  lemma EveryChoiceOnce(d: seq<nat>, radices: seq<nat>)
    requires Positive(radices) && IsChoice(d, radices)
    ensures Number(d, radices) < Product(radices) && Digits(Number(d, radices), radices) == d
    ensures forall i {:trigger Digits(i, radices)} :: 0 <= i < Product(radices) && Digits(i, radices) == d ==> i == Number(d, radices)
  {
    DigitsOfNumber(d, radices);
    forall i {:trigger Digits(i, radices)} | 0 <= i < Product(radices) && Digits(i, radices) == d ensures i == Number(d, radices) {
      NumberOfDigits(i, radices);
    }
  }

  // ---------------------------------------------------------- the size check, in any order

  function ProductOf(m: Matrix, keys: seq<string>): nat
    requires forall k :: 0 <= k < |keys| ==> keys[k] in m
  {
    Product(Radices(m, keys))
  }

  function Radices(m: Matrix, keys: seq<string>): (r: seq<nat>)
    requires forall k :: 0 <= k < |keys| ==> keys[k] in m
    ensures |r| == |keys|
  {
    seq(|keys|, k requires 0 <= k < |keys| => |m[keys[k]]|)
  }

  predicate Distinct(keys: seq<string>)
  {
    forall i, k :: 0 <= i < k < |keys| ==> keys[i] != keys[k]
  }

  /** `keys` lists the matrix's parameters, each once. */
  ghost predicate Lists(m: Matrix, keys: seq<string>)
  {
    && (forall k :: 0 <= k < |keys| ==> keys[k] in m) && (forall x :: x in m ==> x in keys) && Distinct(keys)
  }

  lemma ProductAppend(m: Matrix, keys: seq<string>, x: string)
    requires (forall k :: 0 <= k < |keys| ==> keys[k] in m) && x in m
    ensures ProductOf(m, keys + [x]) == ProductOf(m, keys) * |m[x]|
  {
    var more := keys + [x];
    assert Radices(m, more)[..|keys|] == Radices(m, keys);
  }

  /** Moving one parameter to the end does not change the product. */
  lemma {:induction false} ProductMove(m: Matrix, keys: seq<string>, i: nat)
    requires i < |keys| && forall k :: 0 <= k < |keys| ==> keys[k] in m
    ensures ProductOf(m, keys) == ProductOf(m, keys[..i] + keys[i + 1..]) * |m[keys[i]]|
    decreases |keys|
  {
    var n := |keys| - 1;
    assert keys == keys[..n] + [keys[n]];
    ProductAppend(m, keys[..n], keys[n]);
    if i == n {
      assert keys[..i] + keys[i + 1..] == keys[..n];
    } else {
      var front := keys[..n];
      ProductMove(m, front, i);
      var rest := front[..i] + front[i + 1..];
      assert keys[..i] + keys[i + 1..] == rest + [keys[n]];
      ProductAppend(m, rest, keys[n]);
      var a, b, c := ProductOf(m, rest), |m[keys[i]]|, |m[keys[n]]|;
      assert (a * b) * c == (a * c) * b;
    }
  }

  /** So it does not depend on the order in which the map yields its parameters. */
  lemma {:induction false} ProductAnyOrder(m: Matrix, a: seq<string>, b: seq<string>)
    requires Distinct(a) && Distinct(b) && (forall x :: x in a <==> x in b) && forall k :: 0 <= k < |a| ==> a[k] in m
    requires forall k :: 0 <= k < |b| ==> b[k] in m
    ensures ProductOf(m, a) == ProductOf(m, b)
    decreases |a|
  {
    assert forall k :: 0 <= k < |b| ==> b[k] in b;
    if a != [] {
      var n := |a| - 1;
      var x := a[n];
      assert x in b;
      var i :| 0 <= i < |b| && b[i] == x;
      var rest := b[..i] + b[i + 1..];
      assert a == a[..n] + [x];
      ProductAppend(m, a[..n], x);
      ProductMove(m, b, i);
      SameWithout(a, b, i);
      ProductAnyOrder(m, a[..n], rest);
    }
  }

  lemma SameWithout(a: seq<string>, b: seq<string>, i: nat)
    requires a != [] && i < |b| && b[i] == a[|a| - 1] && Distinct(a) && Distinct(b) && forall x :: x in a <==> x in b
    ensures var rest := b[..i] + b[i + 1..];
            Distinct(rest) && Distinct(a[..|a| - 1]) && forall x :: x in a[..|a| - 1] <==> x in rest
  {
    var n := |a| - 1;
    var rest := b[..i] + b[i + 1..];
    forall x ensures x in a[..n] <==> x in rest {
      if x in a[..n] {
        var k :| 0 <= k < n && a[k] == x;
        assert x in b;
        var p :| 0 <= p < |b| && b[p] == x;
        assert rest[if p < i then p else p - 1] == x;
      }
      if x in rest {
        var p :| 0 <= p < |rest| && rest[p] == x;
        var q := if p < i then p else p + 1;
        assert b[q] == x;
        assert x in a;
        var k :| 0 <= k < |a| && a[k] == x;
        assert k < n;
      }
    }
  }

  lemma ScaleBoth(a: nat, b: nat, c: nat)
    requires 1 <= a <= b && 1 <= c
    ensures 1 <= a * c <= b * c
  {
  }

  lemma EmptyProduct()
    ensures Product([]) == 1
  {
  }

  lemma {:induction false} ProductPart(m: Matrix, part: seq<string>, whole: seq<string>)
    requires Distinct(part) && Distinct(whole) && (forall x :: x in part ==> x in whole)
    requires (forall k :: 0 <= k < |whole| ==> whole[k] in m && |m[whole[k]]| >= 1) && forall k :: 0 <= k < |part| ==> part[k] in m
    ensures 1 <= ProductOf(m, part) <= ProductOf(m, whole)
    decreases |part|
  {
    hide Product;
    if part == [] {
      ProductPositive(Radices(m, whole));
      EmptyProduct();
    } else {
      var n := |part| - 1;
      var x := part[n];
      assert part == part[..n] + [x] && x in whole;
      ProductAppend(m, part[..n], x);
      var i :| 0 <= i < |whole| && whole[i] == x;
      ProductMove(m, whole, i);
      var rest := whole[..i] + whole[i + 1..];
      forall y | y in part[..n] ensures y in rest {
        assert y in part;
        var p :| 0 <= p < |whole| && whole[p] == y;
        assert p != i;
        assert rest[if p < i then p else p - 1] == y;
      }
      ProductPart(m, part[..n], rest);
      ScaleBoth(ProductOf(m, part[..n]), ProductOf(m, rest), |m[x]|);
    }
  }

  lemma {:induction false} ProductPositive(radices: seq<nat>)
    requires Positive(radices)
    ensures Product(radices) >= 1
  {
    if radices != [] {
      var n := |radices| - 1;
      ProductPositive(radices[..n]);
      assert Product(radices[..n]) * radices[n] >= 1;
    }
  }

  // ------------------------------------------------------------------- matrix validation

  predicate IsLetter(c: char)
  {
    'a' <= c <= 'z' || 'A' <= c <= 'Z' || c == '_'
  }

  /** A parameter name: an identifier of at most 128 characters outside the reserved prefix. */
  predicate ValidName(x: string)
  {
    && 1 <= |x| <= 128 && IsLetter(x[0]) && (forall i :: 0 <= i < |x| ==> IsLetter(x[i]) || '0' <= x[i] <= '9')
    && !("DISPATCH_" <= x)
  }

  predicate ValidValue(v: string)
  {
    |v| <= MAX_VALUE_BYTES && forall i :: 0 <= i < |v| ==> v[i] != '\0'
  }

  predicate ValidParameter(m: Matrix, x: string)
    requires x in m
  {
    ValidName(x) && m[x] != [] && forall i :: 0 <= i < |m[x]| ==> ValidValue(m[x][i])
  }

  /** Every parameter is valid and there are at most 1000 combinations. */
  ghost predicate Acceptable(m: Matrix)
  {
    && (forall x :: x in m ==> ValidParameter(m, x))
    && exists keys :: Lists(m, keys) && ProductOf(m, keys) <= MAX_SWEEP_JOBS
  }

  /** Dividing before multiplying is the same test as multiplying, without the overflow. */
  lemma DivideFirst(values: nat, count: nat)
    requires 1 <= count
    ensures values > MAX_SWEEP_JOBS / count <==> count * values > MAX_SWEEP_JOBS
  {
    Division(MAX_SWEEP_JOBS, count);
    var q := MAX_SWEEP_JOBS / count;
    if values > q { assert values * count >= (q + 1) * count; } else { assert values * count <= q * count; }
  }

  /** The validation loop over a map, in whatever order the map yields its keys. */
  method CheckMatrix(m: Matrix) returns (ok: bool, keys: seq<string>, count: nat)
    ensures ok <==> Acceptable(m)
    ensures ok ==> Lists(m, keys) && count == ProductOf(m, keys) && 1 <= count <= MAX_SWEEP_JOBS
  {
    keys, count := [], 1;
    var rest := m.Keys;
    while rest != {}
      invariant rest <= m.Keys && (forall x :: x in m ==> x in keys || x in rest) && (forall x :: x in keys ==> x in m && x !in rest)
      invariant Distinct(keys) && 1 <= count <= MAX_SWEEP_JOBS && count == ProductOf(m, keys)
      invariant forall x :: x in keys ==> ValidParameter(m, x)
      decreases |rest|
    {
      var key :| key in rest;
      var values := m[key];
      DivideFirst(|values|, count);
      ProductAppend(m, keys, key);
      if !ValidName(key) || |values| == 0 {
        return false, keys, count;
      }
      if |values| > MAX_SWEEP_JOBS / count {
        TooMany(m, keys + [key]);
        return false, keys, count;
      }
      var i := 0;
      while i < |values|
        invariant 0 <= i <= |values| && forall k :: 0 <= k < i ==> ValidValue(values[k])
      {
        if !ValidValue(values[i]) {
          assert !ValidParameter(m, key);
          return false, keys, count;
        }
        i := i + 1;
      }
      count := count * |values|;
      keys := keys + [key];
      rest := rest - {key};
    }
    assert Lists(m, keys);
    ok := true;
  }

  lemma TooMany(m: Matrix, part: seq<string>)
    requires Distinct(part) && (forall k :: 0 <= k < |part| ==> part[k] in m) && ProductOf(m, part) > MAX_SWEEP_JOBS
    ensures !Acceptable(m)
  {
    if forall x :: x in m ==> ValidParameter(m, x) {
      forall keys | Lists(m, keys) ensures ProductOf(m, keys) > MAX_SWEEP_JOBS {
        forall x | x in part ensures x in keys { }
        ProductPart(m, part, keys);
      }
    }
  }

  // ------------------------------------------------------------------------- stable order

  predicate StrLess(a: string, b: string)
  {
    b != [] && (a == [] || a[0] < b[0] || (a[0] == b[0] && StrLess(a[1..], b[1..])))
  }

  lemma {:induction false} StrTotal(a: string, b: string)
    ensures a == b || StrLess(a, b) || StrLess(b, a)
  {
    if a != [] && b != [] && a[0] == b[0] {
      StrTotal(a[1..], b[1..]);
      assert a == [a[0]] + a[1..] && b == [b[0]] + b[1..];
    }
  }

  lemma {:induction false} StrTransitive(a: string, b: string, c: string)
    requires StrLess(a, b) && StrLess(b, c)
    ensures StrLess(a, c)
  {
    if a != [] && a[0] == b[0] == c[0] { StrTransitive(a[1..], b[1..], c[1..]); }
  }

  predicate InOrder(keys: seq<string>)
  {
    forall i, k :: 0 <= i < k < |keys| ==> StrLess(keys[i], keys[k])
  }

  /** There is only one sorted list of given keys. */
  lemma {:induction false} InOrderUnique(a: seq<string>, b: seq<string>)
    requires InOrder(a) && InOrder(b) && forall x :: x in a <==> x in b
    ensures a == b
    decreases |a|
  {
    assert b != [] ==> b[0] in b;
    if a != [] {
      assert a[0] in b && b[0] in a;
      FirstKey(a, b[0]);
      FirstKey(b, a[0]);
      StrAsymmetric(a[0], b[0]);
      RestInOrder(a);
      RestInOrder(b);
      InOrderUnique(a[1..], b[1..]);
      assert a == [a[0]] + a[1..] && b == [b[0]] + b[1..];
    }
  }

  lemma FirstKey(a: seq<string>, x: string)
    requires InOrder(a) && a != [] && x in a
    ensures x == a[0] || StrLess(a[0], x)
  {
  }

  lemma StrAsymmetric(a: string, b: string)
    ensures !(StrLess(a, b) && StrLess(b, a))
  {
    if StrLess(a, b) && StrLess(b, a) {
      StrTransitive(a, b, a);
      StrIrreflexive(a);
    }
  }

  lemma RestInOrder(a: seq<string>)
    requires InOrder(a) && a != []
    ensures InOrder(a[1..]) && forall x :: x in a[1..] <==> x in a && x != a[0]
  {
    StrIrreflexive(a[0]);
    forall x | x in a && x != a[0] ensures x in a[1..] {
      var i :| 0 <= i < |a| && a[i] == x;
      assert a[1..][i - 1] == x;
    }
  }

  method SortKeys(keys: seq<string>) returns (r: seq<string>)
    requires Distinct(keys)
    ensures InOrder(r) && |r| == |keys| && forall x :: x in r <==> x in keys
  {
    r := [];
    for i := 0 to |keys|
      invariant InOrder(r) && |r| == i && forall x :: x in r <==> x in keys[..i]
    {
      assert keys[..i + 1] == keys[..i] + [keys[i]];
      assert keys[i] !in keys[..i];
      r := InsertKey(r, keys[i]);
    }
    assert keys[..|keys|] == keys;
  }

  method InsertKey(sorted: seq<string>, x: string) returns (r: seq<string>)
    requires InOrder(sorted) && x !in sorted
    ensures InOrder(r) && |r| == |sorted| + 1 && forall y :: y in r <==> y in sorted || y == x
  {
    hide StrLess;
    var k := |sorted|;
    while k > 0 && !StrLess(sorted[k - 1], x)
      invariant 0 <= k <= |sorted| && forall i :: k <= i < |sorted| ==> StrLess(x, sorted[i])
    {
      StrTotal(sorted[k - 1], x);
      k := k - 1;
    }
    r := sorted[..k] + [x] + sorted[k..];
    InsertInOrder(sorted, x, k, r);
  }

  lemma InsertInOrder(sorted: seq<string>, x: string, k: nat, r: seq<string>)
    requires InOrder(sorted) && k <= |sorted| && r == sorted[..k] + [x] + sorted[k..]
    requires (k > 0 ==> StrLess(sorted[k - 1], x)) && forall i :: k <= i < |sorted| ==> StrLess(x, sorted[i])
    ensures InOrder(r) && forall y :: y in r <==> y in sorted || y == x
  {
    hide StrLess;
    forall i | 0 <= i < k ensures StrLess(sorted[i], x) { if i < k - 1 { StrTransitive(sorted[i], sorted[k - 1], x); } }
    forall i, j | 0 <= i < j < |r| ensures StrLess(r[i], r[j]) {
      assert r[i] == if i < k then sorted[i] else if i == k then x else sorted[i - 1];
      assert r[j] == if j < k then sorted[j] else if j == k then x else sorted[j - 1];
    }
    assert sorted == sorted[..k] + sorted[k..];
  }

  // ---------------------------------------------------------------------------- children

  datatype SweepSpec = SweepSpec(matrix: Matrix, template: Environment, maxConcurrent: int, failFast: bool, cancelRunning: bool)

  predicate PolicyOk(s: SweepSpec)
  {
    1 <= s.maxConcurrent <= MAX_SWEEP_JOBS && (s.cancelRunning ==> s.failFast) && 1 <= |s.matrix| <= MAX_PARAMETERS
  }

  /** The template's environment with parameters `k` and later set to the chosen values. */
  function ChildFrom(s: SweepSpec, keys: seq<string>, d: seq<nat>, k: nat): Environment
    requires k <= |keys| == |d| && forall i :: 0 <= i < |keys| ==> keys[i] in s.matrix && d[i] < |s.matrix[keys[i]]|
    decreases |keys| - k
  {
    if k == |keys| then s.template else ChildFrom(s, keys, d, k + 1)[keys[k] := s.matrix[keys[k]][d[k]]]
  }

  /** A child's environment: each parameter has its chosen value, everything else is the template's. */
  lemma {:induction false} ChildMeaning(s: SweepSpec, keys: seq<string>, d: seq<nat>, k: nat)
    requires k <= |keys| == |d| && Distinct(keys) && forall i :: 0 <= i < |keys| ==> keys[i] in s.matrix && d[i] < |s.matrix[keys[i]]|
    ensures var env := ChildFrom(s, keys, d, k);
            && (forall i :: k <= i < |keys| ==> keys[i] in env && env[keys[i]] == s.matrix[keys[i]][d[i]])
            && (forall x :: x !in keys[k..] ==> (x in env <==> x in s.template) && (x in env ==> env[x] == s.template[x]))
    decreases |keys| - k
  {
    if k < |keys| {
      ChildMeaning(s, keys, d, k + 1);
      forall x | x !in keys[k..] ensures x != keys[k] && x !in keys[k + 1..] {
        assert keys[k..] == [keys[k]] + keys[k + 1..];
      }
    }
  }

  function Child(s: SweepSpec, keys: seq<string>, i: nat): Environment
    requires forall k :: 0 <= k < |keys| ==> keys[k] in s.matrix && s.matrix[keys[k]] != []
  {
    ChildFrom(s, keys, Digits(i, Radices(s.matrix, keys)), 0)
  }

  /** Canonical size of the first `n` children, or nothing when one is not a valid job. */
  function TotalSize(s: SweepSpec, keys: seq<string>, admit: Environment -> Option<nat>, n: nat): Option<nat>
    requires forall k :: 0 <= k < |keys| ==> keys[k] in s.matrix && s.matrix[keys[k]] != []
  {
    if n == 0 then Some(0)
    else
      var before, size := TotalSize(s, keys, admit, n - 1), admit(Child(s, keys, n - 1));
      if before.Some? && size.Some? then Some(before.value + size.value) else None
  }

  lemma {:induction false} SizeGrows(s: SweepSpec, keys: seq<string>, admit: Environment -> Option<nat>, n: nat, m: nat)
    requires (forall k :: 0 <= k < |keys| ==> keys[k] in s.matrix && s.matrix[keys[k]] != []) && n <= m
    ensures TotalSize(s, keys, admit, m).Some? ==>
              TotalSize(s, keys, admit, n).Some? && TotalSize(s, keys, admit, n).value <= TotalSize(s, keys, admit, m).value
  {
    if n < m { SizeGrows(s, keys, admit, n, m - 1); }
  }

  /** One child: digits are peeled off the index, last parameter first. */
  method BuildChild(s: SweepSpec, keys: seq<string>, i: nat) returns (env: Environment)
    requires forall k :: 0 <= k < |keys| ==> keys[k] in s.matrix && s.matrix[keys[k]] != []
    ensures env == Child(s, keys, i)
  {
    hide Digits;
    hide Radices;
    ghost var radices := Radices(s.matrix, keys);
    RadicesAre(s.matrix, keys);
    ghost var d := Digits(i, radices);
    env := s.template;
    var index: nat, k := i, |keys|;
    assert d[..k] == d && radices[..k] == radices;
    while k > 0
      invariant 0 <= k <= |keys| && env == ChildFrom(s, keys, d, k) && d[..k] == Digits(index, radices[..k])
    {
      k := k - 1;
      var values := s.matrix[keys[k]];
      PeelDigit(index, radices, k);
      assert d[..k + 1][k] == d[k] && d[..k + 1][..k] == d[..k];
      env := env[keys[k] := values[index % |values|]];
      index := Quotient(index, |values|);
    }
  }

  lemma RadicesAre(m: Matrix, keys: seq<string>)
    requires forall k :: 0 <= k < |keys| ==> keys[k] in m && m[keys[k]] != []
    ensures Positive(Radices(m, keys)) && forall k :: 0 <= k < |keys| ==> Radices(m, keys)[k] == |m[keys[k]]|
  {
  }

  /** The children are the Cartesian product: each combination of values is the child at one index, whose
      environment has exactly those values and otherwise the template's; and every child is of that kind. */
  lemma EveryCombination(s: SweepSpec, keys: seq<string>, d: seq<nat>, i: nat)
    requires Lists(s.matrix, keys) && (forall k :: 0 <= k < |keys| ==> s.matrix[keys[k]] != []) && i < ProductOf(s.matrix, keys)
    requires |d| == |keys| && forall k :: 0 <= k < |keys| ==> d[k] < |s.matrix[keys[k]]|
    ensures Digits(i, Radices(s.matrix, keys)) == d <==> i == Number(d, Radices(s.matrix, keys))
    ensures Number(d, Radices(s.matrix, keys)) < ProductOf(s.matrix, keys)
    ensures i == Number(d, Radices(s.matrix, keys)) ==>
              var env := Child(s, keys, i);
              && (forall k :: 0 <= k < |keys| ==> keys[k] in env && env[keys[k]] == s.matrix[keys[k]][d[k]])
              && (forall x :: x !in s.matrix ==> (x in env <==> x in s.template) && (x in env ==> env[x] == s.template[x]))
  {
    RadicesAre(s.matrix, keys);
    var radices := Radices(s.matrix, keys);
    EveryChoiceOnce(d, radices);
    ChildMeaning(s, keys, d, 0);
    assert keys[0..] == keys;
  }

  lemma PeelDigit(index: nat, radices: seq<nat>, k: nat)
    requires Positive(radices) && k < |radices|
    ensures var d := Digits(index, radices[..k + 1]);
            d[k] == index % radices[k] && d[..k] == Digits(Quotient(index, radices[k]), radices[..k])
  {
    assert radices[..k + 1][..k] == radices[..k] && radices[..k + 1][k] == radices[k];
  }

  /** The children are accepted exactly when policy, matrix and total size allow, and child `i` is the one
      for the digits of `i` over the sorted parameters. */
  ghost predicate Expansion(s: SweepSpec, admit: Environment -> Option<nat>, keys: seq<string>, r: Option<seq<Environment>>)
  {
    if PolicyOk(s) && Acceptable(s.matrix) then
      && Lists(s.matrix, keys) && InOrder(keys) && (forall k :: 0 <= k < |keys| ==> s.matrix[keys[k]] != [])
      && var size := TotalSize(s, keys, admit, ProductOf(s.matrix, keys));
      && (r.Some? <==> size.Some? && size.value <= MAX_EXPANDED_BYTES)
      && (r.Some? ==> |r.value| == ProductOf(s.matrix, keys) && forall i :: 0 <= i < |r.value| ==> r.value[i] == Child(s, keys, i))
    else r.None?
  }

  /** Child indices are stable: the specification alone determines the expansion. */
  lemma ExpansionUnique(
    s: SweepSpec, admit: Environment -> Option<nat>, a: seq<string>, x: Option<seq<Environment>>, b: seq<string>, y: Option<seq<Environment>>)
    requires Expansion(s, admit, a, x) && Expansion(s, admit, b, y)
    ensures x == y
  {
    hide Child;
    hide TotalSize;
    hide Product;
    hide InOrder;
    if PolicyOk(s) && Acceptable(s.matrix) {
      SameKeys(s.matrix, a, b);
      InOrderUnique(a, b);
      assert x.Some? ==> x.value == y.value;
    }
  }

  lemma SameKeys(m: Matrix, a: seq<string>, b: seq<string>)
    requires Lists(m, a) && Lists(m, b)
    ensures forall x :: x in a <==> x in b
  {
    forall x | x in a ensures x in b { }
    forall x | x in b ensures x in a { }
  }

  /** Sweep.Expand: the children in index order, with the parameters in a fixed order. `admit` is the
      canonical size of a child, or nothing when the child is not a valid job. */
  method Expand(s: SweepSpec, admit: Environment -> Option<nat>) returns (r: Option<seq<Environment>>, keys: seq<string>)
    ensures Expansion(s, admit, keys, r)
  {
    hide Product;
    hide TotalSize;
    hide StrLess;
    hide ValidName;
    if !PolicyOk(s) {
      return None, [];
    }
    var ok, listed, count := CheckMatrix(s.matrix);
    if !ok {
      return None, [];
    }
    keys := SortKeys(listed);
    OrderedDistinct(keys);
    forall k | 0 <= k < |keys| ensures keys[k] in s.matrix && s.matrix[keys[k]] != [] {
      assert keys[k] in keys;
      assert keys[k] in listed;
      assert ValidParameter(s.matrix, keys[k]);
    }
    ProductAnyOrder(s.matrix, listed, keys);
    r := ExpandAll(s, keys, count, admit);
  }

  method ExpandAll(s: SweepSpec, keys: seq<string>, count: nat, admit: Environment -> Option<nat>) returns (r: Option<seq<Environment>>)
    requires forall k :: 0 <= k < |keys| ==> keys[k] in s.matrix && s.matrix[keys[k]] != []
    ensures r.Some? <==> var size := TotalSize(s, keys, admit, count); size.Some? && size.value <= MAX_EXPANDED_BYTES
    ensures r.Some? ==> |r.value| == count && forall i :: 0 <= i < |r.value| ==> r.value[i] == Child(s, keys, i)
  {
    hide Child;
    var jobs: seq<Environment> := [];
    var total := 0;
    for i := 0 to count
      invariant |jobs| == i && forall k :: 0 <= k < i ==> jobs[k] == Child(s, keys, k)
      invariant TotalSize(s, keys, admit, i) == Some(total) && total <= MAX_EXPANDED_BYTES
    {
      var child := BuildChild(s, keys, i);
      var size := admit(child);
      SizeGrows(s, keys, admit, i + 1, count);
      if size.None? {
        return None;
      }
      total := total + size.value;
      if total > MAX_EXPANDED_BYTES {
        return None;
      }
      jobs := jobs + [child];
    }
    return Some(jobs);
  }

  lemma {:induction false} StrIrreflexive(a: string)
    ensures !StrLess(a, a)
  {
    if a != [] { StrIrreflexive(a[1..]); }
  }

  lemma OrderedDistinct(keys: seq<string>)
    requires InOrder(keys)
    ensures Distinct(keys)
  {
    hide StrLess;
    forall i, k | 0 <= i < k < |keys| ensures keys[i] != keys[k] { StrIrreflexive(keys[i]); }
  }
}
