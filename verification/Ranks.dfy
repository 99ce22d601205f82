/** The nearest-rank latency gate (`latency_statistics`, scripts/qualify_m8_release.py, and
  `_nearest_rank`, benchmarks/scripts/m8_performance.py).

  A percentile is a fraction `p / q` in (0, 1]; samples are exact reals. */
module Ranks {
  import opened Arithmetic

  function Insert(x: real, s: seq<real>): (r: seq<real>)
    ensures |r| == |s| + 1
  {
    if s == [] || x <= s[0] then [x] + s else [s[0]] + Insert(x, s[1..])
  }

  /** `sorted`. */
  function Sort(s: seq<real>): (r: seq<real>)
    ensures |r| == |s|
  {
    if s == [] then [] else Insert(s[0], Sort(s[1..]))
  }

  predicate Ascending(s: seq<real>) {
    forall i, j :: 0 <= i < j < |s| ==> s[i] <= s[j]
  }

  lemma {:induction false} InsertAscends(x: real, s: seq<real>)
    requires Ascending(s)
    ensures Ascending(Insert(x, s))
    ensures Insert(x, s)[0] == if s == [] || x <= s[0] then x else s[0]
  {
    if s != [] && x > s[0] {
      InsertAscends(x, s[1..]);
      var rest := Insert(x, s[1..]);
      assert forall i :: 0 <= i < |rest| ==> rest[0] <= rest[i];
    }
  }

  lemma {:induction false} SortAscends(s: seq<real>)
    ensures Ascending(Sort(s))
  {
    if s != [] {
      SortAscends(s[1..]);
      InsertAscends(s[0], Sort(s[1..]));
    }
  }

  lemma {:induction false} InsertPermutes(x: real, s: seq<real>)
    ensures multiset(Insert(x, s)) == multiset(s) + multiset{x}
  {
    if s != [] && x > s[0] {
      InsertPermutes(x, s[1..]);
      assert s == [s[0]] + s[1..];
    }
  }

  /** Sorting rearranges the samples. */
  lemma {:induction false} SortPermutes(s: seq<real>)
    ensures multiset(Sort(s)) == multiset(s)
  {
    if s != [] {
      SortPermutes(s[1..]);
      InsertPermutes(s[0], Sort(s[1..]));
      assert s == [s[0]] + s[1..];
    }
  }

  /** How many samples are at most a threshold. */
  function Within(s: seq<real>, threshold: real): nat {
    if s == [] then 0 else (if s[0] <= threshold then 1 else 0) + Within(s[1..], threshold)
  }

  lemma {:induction false} InsertCounts(x: real, s: seq<real>, threshold: real)
    ensures Within(Insert(x, s), threshold) == Within(s, threshold) + if x <= threshold then 1 else 0
  {
    if s == [] || x <= s[0] {
      assert ([x] + s)[1..] == s;
    } else {
      InsertCounts(x, s[1..], threshold);
      assert ([s[0]] + Insert(x, s[1..]))[1..] == Insert(x, s[1..]);
    }
  }

  lemma {:induction false} SortCounts(s: seq<real>, threshold: real)
    ensures Within(Sort(s), threshold) == Within(s, threshold)
  {
    if s != [] {
      SortCounts(s[1..], threshold);
      InsertCounts(s[0], Sort(s[1..]), threshold);
    }
  }

  /** In sorted samples, the k-th is within the threshold exactly when at least k samples are. */
  lemma {:induction false} KthWithin(s: seq<real>, k: nat, threshold: real)
    requires Ascending(s) && 1 <= k <= |s|
    ensures s[k - 1] <= threshold <==> Within(s, threshold) >= k
  {
    if s[0] > threshold {
      NoneWithin(s, threshold);
    } else if k > 1 {
      KthWithin(s[1..], k - 1, threshold);
    }
  }

  lemma {:induction false} NoneWithin(s: seq<real>, threshold: real)
    requires forall i :: 0 <= i < |s| ==> s[i] > threshold
    ensures Within(s, threshold) == 0
  {
    if s != [] {
      NoneWithin(s[1..], threshold);
    }
  }

  /** The least integer not below `p * n / q`. */
  function Ceiling(p: nat, q: nat, n: nat): nat
    requires q > 0
  {
    (p * n + q - 1) / q
  }

  lemma {:induction false} CeilingBounds(p: nat, q: nat, n: nat, k: int)
    requires q > 0
    ensures k * q >= p * n <==> k >= Ceiling(p, q, n)
  {
    var m, up := Ceiling(p, q, n), p * n + q - 1;
    DivisionFacts(up, q);
    if k >= m {
      ProductAtMost(m, k, q);
    } else {
      MultiplesApart(k, m, q);
    }
  }

  /** The rank of a fraction of a nonempty series. */
  lemma {:induction false} RankInRange(p: nat, q: nat, n: nat)
    requires 0 < p <= q && n > 0
    ensures 1 <= Ceiling(p, q, n) <= n
  {
    CeilingBounds(p, q, n, n);
    CeilingBounds(p, q, n, 0);
    assert (q - p) * n >= 0 && n * q == p * n + (q - p) * n;
    assert p * n > 0;
  }

  function Max(a: int, b: int): int {
    if a < b then b else a
  }

  function NearestRank(s: seq<real>, p: nat, q: nat): real
    requires s != [] && 0 < p <= q
  {
    RankInRange(p, q, |s|);
    Sort(s)[Max(0, Ceiling(p, q, |s|) - 1)]
  }

  /** The gate: the percentile is within the threshold exactly when that share of the samples is. */
  lemma {:induction false} GateIsExact(s: seq<real>, p: nat, q: nat, threshold: real)
    requires s != [] && 0 < p <= q
    ensures NearestRank(s, p, q) <= threshold <==> Within(s, threshold) * q >= p * |s|
  {
    hide Ceiling, Sort;
    RankInRange(p, q, |s|);
    SortAscends(s);
    KthWithin(Sort(s), Ceiling(p, q, |s|), threshold);
    SortCounts(s, threshold);
    CeilingBounds(p, q, |s|, Within(s, threshold));
  }

  lemma {:induction false} RanksAreOrdered(p: nat, r: nat, q: nat, n: nat)
    requires q > 0 && p <= r
    ensures Ceiling(p, q, n) <= Ceiling(r, q, n)
  {
    hide Ceiling;
    CeilingBounds(p, q, n, Ceiling(r, q, n));
    CeilingBounds(r, q, n, Ceiling(r, q, n));
    assert (r - p) * n >= 0 && r * n == p * n + (r - p) * n;
  }

  /** A percentile is one of the samples. */
  lemma {:induction false} NearestRankIsSample(s: seq<real>, p: nat, q: nat)
    requires s != [] && 0 < p <= q
    ensures NearestRank(s, p, q) in s
  {
    hide Ceiling, Sort;
    RankInRange(p, q, |s|);
    SortPermutes(s);
    assert NearestRank(s, p, q) in multiset(Sort(s));
  }

  ghost predicate IsMaximum(s: seq<real>, m: real) {
    m in s && forall i :: 0 <= i < |s| ==> s[i] <= m
  }

  lemma {:induction false} LastIsMaximum(s: seq<real>)
    requires s != []
    ensures IsMaximum(s, Sort(s)[|s| - 1])
  {
    hide Sort;
    var top := Sort(s)[|s| - 1];
    SortAscends(s);
    SortPermutes(s);
    assert top in multiset(Sort(s));
    forall i | 0 <= i < |s|
      ensures s[i] <= top
    {
      assert s[i] in multiset(Sort(s));
      var k :| 0 <= k < |s| && Sort(s)[k] == s[i];
    }
  }

  /** Percentiles are samples in order of their ranks, and none exceeds the maximum. */
  lemma {:induction false} PercentilesAreOrdered(s: seq<real>, p: nat, r: nat, q: nat, maximum: real)
    requires s != [] && 0 < p <= r <= q && IsMaximum(s, maximum)
    ensures NearestRank(s, p, q) <= NearestRank(s, r, q) <= maximum
    ensures NearestRank(s, q, q) == maximum
  {
    hide Ceiling, Sort;
    RankInRange(p, q, |s|);
    RankInRange(r, q, |s|);
    RankInRange(q, q, |s|);
    SortAscends(s);
    RanksAreOrdered(p, r, q, |s|);
    NearestRankIsSample(s, r, q);
    WholeRank(q, |s|);
    LastIsMaximum(s);
  }

  lemma {:induction false} WholeRank(q: nat, n: nat)
    requires q > 0
    ensures Ceiling(q, q, n) == n
  {
    hide Ceiling;
    CeilingBounds(q, q, n, n);
    CeilingBounds(q, q, n, n - 1);
    assert (n - 1) * q == n * q - q;
  }

  // ----- the order of the samples does not matter -----

  lemma {:induction false} WithinConcat(a: seq<real>, b: seq<real>, threshold: real)
    ensures Within(a + b, threshold) == Within(a, threshold) + Within(b, threshold)
  {
    if a == [] {
      assert a + b == b;
    } else {
      WithinConcat(a[1..], b, threshold);
      assert (a + b)[1..] == a[1..] + b;
    }
  }

  lemma {:induction false} RemoveAt(b: seq<real>, j: nat, threshold: real)
    requires j < |b|
    ensures multiset(b[..j] + b[j + 1..]) == multiset(b) - multiset{b[j]}
    ensures Within(b, threshold) == Within(b[..j] + b[j + 1..], threshold) + if b[j] <= threshold then 1 else 0
  {
    var x := b[j];
    assert b == b[..j] + ([x] + b[j + 1..]);
    WithinConcat(b[..j], [x] + b[j + 1..], threshold);
    WithinConcat([x], b[j + 1..], threshold);
    WithinConcat(b[..j], b[j + 1..], threshold);
    assert [x][1..] == [];
  }

  lemma {:induction false} RemoveFirst(a: seq<real>)
    requires a != []
    ensures multiset(a[1..]) == multiset(a) - multiset{a[0]}
  {
    assert a == [a[0]] + a[1..];
  }

  lemma {:induction false} IndexOf(b: seq<real>, x: real) returns (j: nat)
    requires x in multiset(b)
    ensures j < |b| && b[j] == x
  {
    assert x in b;
    j :| 0 <= j < |b| && b[j] == x;
  }

  /** A permutation holds the first sample somewhere; without it, the rests are permutations. */
  lemma {:induction false} Matching(a: seq<real>, b: seq<real>, threshold: real) returns (rest: seq<real>)
    requires a != [] && multiset(a) == multiset(b)
    ensures multiset(a[1..]) == multiset(rest) && |b| == |rest| + 1
    ensures Within(b, threshold) == Within(rest, threshold) + if a[0] <= threshold then 1 else 0
  {
    hide Within;
    assert a[0] in multiset(a);
    var j := IndexOf(b, a[0]);
    rest := b[..j] + b[j + 1..];
    RemoveAt(b, j, threshold);
    RemoveFirst(a);
  }

  lemma {:induction false} PermutedCounts(a: seq<real>, b: seq<real>, threshold: real)
    requires multiset(a) == multiset(b)
    ensures Within(a, threshold) == Within(b, threshold) && |a| == |b|
  {
    if a == [] {
      assert |multiset(b)| == 0;
    } else {
      var rest := Matching(a, b, threshold);
      PermutedCounts(a[1..], rest, threshold);
    }
  }

  lemma {:induction false} NearestRankIgnoresOrder(a: seq<real>, b: seq<real>, p: nat, q: nat)
    requires a != [] && multiset(a) == multiset(b) && 0 < p <= q
    ensures b != [] && NearestRank(a, p, q) == NearestRank(b, p, q)
  {
    hide NearestRank;
    PermutedCounts(a, b, 0.0);
    var x, y := NearestRank(a, p, q), NearestRank(b, p, q);
    PermutedCounts(a, b, x);
    PermutedCounts(a, b, y);
    GateIsExact(a, p, q, x);
    GateIsExact(b, p, q, x);
    GateIsExact(a, p, q, y);
    GateIsExact(b, p, q, y);
  }

  function Distinct(hashes: seq<nat>): set<nat> {
    set h | h in hashes
  }

  /** `passed`: every response alike, and at least 95 of 100 samples within the threshold. */
  predicate Passed(durations: seq<real>, hashes: seq<nat>, threshold: real)
    requires durations != []
  {
    |Distinct(hashes)| == 1 && NearestRank(durations, 95, 100) <= threshold
  }

  lemma {:induction false} PassedIsExact(durations: seq<real>, hashes: seq<nat>, threshold: real)
    requires durations != []
    ensures Passed(durations, hashes, threshold) <==>
      (&& hashes != [] && (forall i :: 0 <= i < |hashes| ==> hashes[i] == hashes[0])
       && 100 * Within(durations, threshold) >= 95 * |durations|)
  {
    hide NearestRank;
    GateIsExact(durations, 95, 100, threshold);
    OneDistinct(hashes, Distinct(hashes));
  }

  lemma {:induction false} OneDistinct(hashes: seq<nat>, distinct: set<nat>)
    requires forall h :: h in distinct <==> h in hashes
    ensures |distinct| == 1 <==> hashes != [] && forall i :: 0 <= i < |hashes| ==> hashes[i] == hashes[0]
  {
    if hashes == [] {
      assert distinct == {};
    } else {
      assert hashes[0] in distinct;
      if forall i :: 0 <= i < |hashes| ==> hashes[i] == hashes[0] {
        assert distinct == {hashes[0]};
      }
      if |distinct| == 1 {
        SingleMember(distinct, hashes[0]);
        assert forall i :: 0 <= i < |hashes| ==> hashes[i] in distinct;
      }
    }
  }

  lemma {:induction false} SingleMember(s: set<nat>, h: nat)
    requires |s| == 1 && h in s
    ensures forall x :: x in s ==> x == h
  {
    assert |s - {h}| == 0;
    forall x | x in s
      ensures x == h
    {
      assert x != h ==> x in s - {h};
    }
  }
}
