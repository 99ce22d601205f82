/** Largest-remainder allocation of an integer total: `_allocate_integer_wh`
  (scripts/generate_demo_profile.py) and `_apportion_integer`
  (packages/tariffs/ratereplay_tariffs/billing.py).

  Weights are integers over a common denominator, which leaves every exact quota unchanged. */
module Apportion {
  import opened Results
  import opened Sums
  import opened Arithmetic
  import opened Ordering

  // ----- quotas -----

  /** The exact quotas, each over the total weight. */
  function Numerators(total: nat, weights: seq<nat>): (x: seq<int>)
    ensures |x| == |weights| && forall i :: 0 <= i < |x| ==> x[i] >= 0
  {
    seq(|weights|, i requires 0 <= i < |weights| => total * weights[i])
  }

  function Floors(total: nat, weights: seq<nat>): (q: seq<int>)
    requires Sum(weights) > 0
    ensures |q| == |weights|
  {
    seq(|weights|, i requires 0 <= i < |weights| => (total * weights[i]) / Sum(weights))
  }

  function Remainders(total: nat, weights: seq<nat>): (r: seq<int>)
    requires Sum(weights) > 0
    ensures |r| == |weights| && forall i :: 0 <= i < |r| ==> 0 <= r[i] < Sum(weights)
  {
    seq(|weights|, i requires 0 <= i < |weights| => (total * weights[i]) % Sum(weights))
  }

  /** The ranking: larger remainder first, then smaller index. */
  predicate Before(r: seq<int>, i: nat, j: nat)
    requires i < |r| && j < |r|
  {
    r[i] > r[j] || (r[i] == r[j] && i < j)
  }

  /** Every share is its floor or one more, and the extra units go to the first in the ranking. */
  ghost predicate Ranked(q: seq<int>, r: seq<int>, a: seq<int>) {
    && |a| == |q| == |r|
    && (forall i :: 0 <= i < |a| ==> a[i] == q[i] || a[i] == q[i] + 1)
    && (forall i, j :: 0 <= i < |a| && 0 <= j < |a| && a[i] > q[i] && a[j] == q[j] ==> Before(r, i, j))
  }

  /** The shares add up to the total and follow the ranking. */
  ghost predicate LargestRemainder(total: nat, weights: seq<nat>, a: seq<int>)
    requires Sum(weights) > 0
  {
    Sum(a) == total && Ranked(Floors(total, weights), Remainders(total, weights), a)
  }

  lemma {:induction false} WholeAndRest(m: nat, d: int)
    requires d > 0
    ensures m == d * (m / d) + m % d && m / d >= 0
  {
  }

  lemma {:induction false} QuotaSplits(total: nat, weights: seq<nat>, i: nat)
    requires Sum(weights) > 0 && i < |weights|
    ensures Numerators(total, weights)[i] == Sum(weights) * Floors(total, weights)[i] + Remainders(total, weights)[i]
    ensures Floors(total, weights)[i] >= 0
  {
    hide Sum;
    WholeAndRest(total * weights[i], Sum(weights));
  }

  lemma {:induction false} ProductBelow(a: int, b: int, w: int)
    requires w > 0 && w * a < w * b
    ensures a < b
  {
    if b <= a {
      ProductAtMost(b, a, w);
    }
  }

  /** What the floors leave over is the sum of the remainders, in units of the total weight. */
  lemma {:induction false} RemaindersAddUp(total: nat, weights: seq<nat>)
    requires Sum(weights) > 0
    ensures Sum(Remainders(total, weights)) == Sum(weights) * (total - Sum(Floors(total, weights)))
  {
    var w, x, q, r := Sum(weights), Numerators(total, weights), Floors(total, weights), Remainders(total, weights);
    var scaled := seq(|q|, i requires 0 <= i < |q| => w * q[i]);
    forall i | 0 <= i < |x|
      ensures x[i] == scaled[i] + r[i]
    {
      QuotaSplits(total, weights, i);
    }
    SumScale(weights, total, x);
    SumScale(q, w, scaled);
    SumAdd(scaled, r, x);
  }

  /** The number of units to hand out is never negative and always smaller than the number of shares. */
  lemma {:induction false} RemainderCount(total: nat, weights: seq<nat>)
    requires Sum(weights) > 0
    ensures 0 <= total - Sum(Floors(total, weights)) < |weights|
  {
    hide Floors, Remainders;
    var w, left, r := Sum(weights), total - Sum(Floors(total, weights)), Remainders(total, weights);
    RemaindersAddUp(total, weights);
    SumNonnegative(r);
    var ones, full := seq(|r|, _ => 1), seq(|r|, _ => w);
    SumScale(ones, w, full);
    Ones(|r|);
    SumBelow(r, full, 0);
    ProductBelow(left, |r|, w);
    ProductBelow(-1, left, w);
  }

  lemma {:induction false} Ones(n: nat)
    ensures Sum(seq(n, _ => 1)) == n
  {
    if n > 0 {
      assert seq(n, _ => 1)[..n - 1] == seq(n - 1, _ => 1);
      Ones(n - 1);
    }
  }

  lemma {:induction false} SumBelow(a: seq<int>, b: seq<int>, i: nat)
    requires |a| == |b| && i < |a| && a[i] < b[i] && forall k :: 0 <= k < |a| ==> a[k] <= b[k]
    ensures Sum(a) < Sum(b)
  {
    SumUpdate(a, i, b[i]);
    SumLe(a[i := b[i]], b);
  }

  // ----- what a largest-remainder allocation is worth -----

  /** The ranking is total, so there is only one such allocation. */
  lemma {:induction false} AllocationIsUnique(total: nat, weights: seq<nat>, a: seq<int>, b: seq<int>)
    requires Sum(weights) > 0 && LargestRemainder(total, weights, a) && LargestRemainder(total, weights, b)
    ensures a == b
  {
    hide Floors, Remainders;
    var q, r := Floors(total, weights), Remainders(total, weights);
    forall i | 0 <= i < |a|
      ensures a[i] == b[i]
    {
      if a[i] < b[i] {
        var j := Compensated(a, b, i);
        RankedAlike(q, r, a, b, i, j);
      } else if b[i] < a[i] {
        var j := Compensated(b, a, i);
        RankedAlike(q, r, b, a, i, j);
      }
    }
  }

  /** With equal sums, a smaller entry is compensated by a larger one. */
  lemma {:induction false} Compensated(a: seq<int>, b: seq<int>, i: nat) returns (j: nat)
    requires |a| == |b| && Sum(a) == Sum(b) && i < |a| && a[i] < b[i]
    ensures j < |a| && a[j] > b[j]
  {
    if forall k :: 0 <= k < |a| ==> a[k] <= b[k] {
      SumBelow(a, b, i);
    }
    j :| 0 <= j < |a| && a[j] > b[j];
  }

  lemma {:induction false} RankedAlike(q: seq<int>, r: seq<int>, a: seq<int>, b: seq<int>, i: nat, j: nat)
    requires Ranked(q, r, a) && Ranked(q, r, b) && i < |a| && j < |a| && a[i] < b[i]
    ensures a[j] <= b[j]
  {
    assert b[j] == q[j] ==> Before(r, i, j);
    assert a[j] > q[j] ==> Before(r, j, i);
  }

  /** Where the extra units are, in units of the total weight. */
  function Extras(w: int, q: seq<int>, a: seq<int>): (e: seq<int>)
    requires |q| == |a|
    ensures |e| == |a|
  {
    seq(|a|, k requires 0 <= k < |a| => if a[k] > q[k] then w else 0)
  }

  lemma {:induction false} ExtrasSum(w: int, q: seq<int>, a: seq<int>)
    requires |q| == |a| && forall i :: 0 <= i < |a| ==> a[i] == q[i] || a[i] == q[i] + 1
    ensures Sum(Extras(w, q, a)) == w * (Sum(a) - Sum(q))
  {
    if a != [] {
      var n := |a| - 1;
      assert Extras(w, q, a)[..n] == Extras(w, q[..n], a[..n]);
      ExtrasSum(w, q[..n], a[..n]);
      Distribute(w, Sum(a[..n]) - Sum(q[..n]), a[n] - q[n]);
    }
  }

  /** A share whose exact quota is whole is that quota; in particular a zero weight receives nothing. */
  lemma {:induction false} WholeQuotaIsExact(total: nat, weights: seq<nat>, a: seq<int>, i: nat)
    requires Sum(weights) > 0 && LargestRemainder(total, weights, a) && i < |a| && Remainders(total, weights)[i] == 0
    ensures a[i] == Floors(total, weights)[i]
  {
    hide Floors, Remainders, Sum;
    var w, q, r := Sum(weights), Floors(total, weights), Remainders(total, weights);
    if a[i] > q[i] {
      var extras := Extras(w, q, a);
      ExtrasSum(w, q, a);
      RemaindersAddUp(total, weights);
      forall k | 0 <= k < |a|
        ensures r[k] <= extras[k]
      {
        assert a[k] == q[k] ==> Before(r, i, k);
      }
      SumBelow(r, extras, i);
    }
  }

  lemma {:induction false} NothingDue(total: nat, weights: seq<nat>, a: seq<int>, i: nat)
    requires Sum(weights) > 0 && LargestRemainder(total, weights, a) && i < |a| && total * weights[i] == 0
    ensures a[i] == 0
  {
    hide Sum;
    assert 0 % Sum(weights) == 0 && 0 / Sum(weights) == 0;
    WholeQuotaIsExact(total, weights, a, i);
  }

  /** Every share is the floor or the ceiling of its exact quota. */
  lemma {:induction false} WithinQuota(total: nat, weights: seq<nat>, a: seq<int>, i: nat)
    requires Sum(weights) > 0 && LargestRemainder(total, weights, a) && i < |a|
    ensures i < |weights| && Sum(weights) * (a[i] - 1) < total * weights[i] < Sum(weights) * (a[i] + 1)
    ensures a[i] >= 0
  {
    hide Floors, Remainders;
    var w, q, r := Sum(weights), Floors(total, weights), Remainders(total, weights);
    QuotaSplits(total, weights, i);
    if a[i] > q[i] {
      if r[i] == 0 {
        WholeQuotaIsExact(total, weights, a, i);
      }
      assert w * (a[i] - 1) == w * q[i] && w * (a[i] + 1) == w * q[i] + w + w;
    } else {
      assert w * (a[i] - 1) == w * q[i] - w && w * (a[i] + 1) == w * q[i] + w;
    }
  }

  /** A larger weight never receives fewer units. */
  lemma {:induction false} LargerWeightGetsNoLess(total: nat, weights: seq<nat>, a: seq<int>, i: nat, j: nat)
    requires Sum(weights) > 0 && LargestRemainder(total, weights, a) && i < |a| && j < |a| && weights[i] > weights[j]
    ensures a[i] >= a[j]
  {
    hide Floors, Remainders, Sum;
    var w, q, r := Sum(weights), Floors(total, weights), Remainders(total, weights);
    if total == 0 {
      NothingDue(total, weights, a, i);
      NothingDue(total, weights, a, j);
    } else {
      QuotaSplits(total, weights, i);
      QuotaSplits(total, weights, j);
      MultiplesApart(weights[j], weights[i], total);
      FloorsOrdered(w, q[i], r[i], q[j], r[j]);
      HigherRanked(q, r, a, i, j);
    }
  }

  /** Extra units go first to the larger remainder, and of equal remainders to the smaller index: no share
      has one while another that comes before it has none. */
  lemma {:induction false} UnitsGoFirst(total: nat, weights: seq<nat>, a: seq<int>, i: nat, j: nat)
    requires Sum(weights) > 0 && LargestRemainder(total, weights, a) && i < |weights| && j < |weights|
    requires var mine, other := total * weights[i] % Sum(weights), total * weights[j] % Sum(weights);
             mine > other || (mine == other && i < j)
    ensures |a| == |weights|
    ensures a[j] > total * weights[j] / Sum(weights) ==> a[i] > total * weights[i] / Sum(weights)
  {
    hide Sum;
    var q, r := Floors(total, weights), Remainders(total, weights);
    assert a[j] > q[j] && a[i] == q[i] ==> Before(r, j, i);
  }

  lemma {:induction false} HigherRanked(q: seq<int>, r: seq<int>, a: seq<int>, i: nat, j: nat)
    requires Ranked(q, r, a) && i < |a| && j < |a| && (q[i] > q[j] || (q[i] == q[j] && r[i] > r[j]))
    ensures a[i] >= a[j]
  {
    assert a[i] == q[i] && a[j] > q[j] ==> Before(r, j, i);
  }

  lemma {:induction false} FloorsOrdered(w: int, q: int, r: int, p: int, s: int)
    requires 0 <= r < w && 0 <= s < w && w * q + r > w * p + s
    ensures q >= p && (q == p ==> r > s)
  {
    if q < p {
      MultiplesApart(q, p, w);
    }
  }

  // ----- optimality -----

  /** The total absolute deviation from the exact quotas, in units of one over the total weight. */
  function Deviations(total: nat, weights: seq<nat>, b: seq<int>): (d: seq<int>)
    requires |b| == |weights|
    ensures |d| == |b|
  {
    seq(|b|, i requires 0 <= i < |b| => Abs(Sum(weights) * b[i] - total * weights[i]))
  }

  function Deviation(total: nat, weights: seq<nat>, b: seq<int>): int
    requires |b| == |weights|
  {
    Sum(Deviations(total, weights, b))
  }

  /** A remainder that separates the shares with an extra unit from the others. */
  lemma {:induction false} Threshold(total: nat, weights: seq<nat>, a: seq<int>) returns (theta: int)
    requires Sum(weights) > 0 && LargestRemainder(total, weights, a)
    ensures 0 <= theta <= Sum(weights)
    ensures forall i :: 0 <= i < |a| && a[i] > Floors(total, weights)[i] ==> Remainders(total, weights)[i] >= theta
    ensures forall i :: 0 <= i < |a| && a[i] == Floors(total, weights)[i] ==> Remainders(total, weights)[i] <= theta
  {
    hide Floors, Remainders;
    var q, r := Floors(total, weights), Remainders(total, weights);
    theta := Sum(weights);
    for k := 0 to |a|
      invariant 0 <= theta <= Sum(weights)
      invariant forall i :: 0 <= i < k && a[i] > q[i] ==> r[i] >= theta
      invariant theta == Sum(weights) || exists m :: 0 <= m < k && a[m] > q[m] && r[m] == theta
    {
      if a[k] > q[k] && r[k] < theta {
        theta := r[k];
      }
    }
    if theta != Sum(weights) {
      var m :| 0 <= m < |a| && a[m] > q[m] && r[m] == theta;
      assert forall j :: 0 <= j < |a| && a[j] == q[j] ==> Before(r, m, j);
    }
  }

  lemma {:induction false} Stretch(k: int, d: int)
    requires k >= 0
    ensures d >= 1 ==> k * d >= k
    ensures d <= -1 ==> k * d <= -k
  {
    if d >= 1 {
      assert k * (d - 1) >= 0;
    } else if d <= -1 {
      assert k * (-d - 1) >= 0;
    }
  }

  /** The deviation of one share lies above a line through the share itself. */
  lemma {:induction false} Supporting(w: int, theta: int, base: int, r: int, d: int)
    requires 0 <= r < w && 0 <= theta <= w
    requires (base == -r && r <= theta) || (base == w - r && r >= theta)
    ensures Abs(base + w * d) >= Abs(base) + (w - 2 * theta) * d
  {
    var p, t := w * d, theta * d;
    assert (w - 2 * theta) * d == p - 2 * t && (w - theta) * d == p - t;
    Stretch(w, d);
    Stretch(theta, d);
    Stretch(w - theta, d);
    if d == 0 {
      assert p == 0 && t == 0;
    }
  }

  function Line(d: seq<int>, slope: int, a: seq<int>, b: seq<int>): (line: seq<int>)
    requires |d| == |a| == |b|
    ensures |line| == |d|
  {
    seq(|d|, i requires 0 <= i < |d| => d[i] + slope * (b[i] - a[i]))
  }

  lemma {:induction false} Distribute(k: int, x: int, y: int)
    ensures k * (x + y) == k * x + k * y
  {
  }

  lemma {:induction false} LineSum(d: seq<int>, slope: int, a: seq<int>, b: seq<int>)
    requires |d| == |a| == |b|
    ensures Sum(Line(d, slope, a, b)) == Sum(d) + slope * (Sum(b) - Sum(a))
  {
    if d != [] {
      var n := |d| - 1;
      assert Line(d, slope, a, b)[..n] == Line(d[..n], slope, a[..n], b[..n]);
      LineSum(d[..n], slope, a[..n], b[..n]);
      Distribute(slope, Sum(b[..n]) - Sum(a[..n]), b[n] - a[n]);
    }
  }

  lemma {:induction false} LevelLine(d: seq<int>, slope: int, a: seq<int>, b: seq<int>)
    requires |d| == |a| == |b| && Sum(a) == Sum(b)
    ensures Sum(Line(d, slope, a, b)) == Sum(d)
  {
    hide Sum, Line;
    LineSum(d, slope, a, b);
    assert slope * 0 == 0;
  }

  lemma {:induction false} ScalarAboveLine(w: int, theta: int, q: int, r: int, x: int, a: int, b: int)
    requires 0 <= r < w && 0 <= theta <= w && x == w * q + r
    requires (a == q && r <= theta) || (a == q + 1 && r >= theta)
    ensures Abs(w * a - x) + (w - 2 * theta) * (b - a) <= Abs(w * b - x)
  {
    hide Abs;
    Distribute(w, a, b - a);
    Distribute(w, q, 1);
    Supporting(w, theta, w * a - x, r, b - a);
  }

  lemma {:induction false} ShareAboveLine(total: nat, weights: seq<nat>, a: seq<int>, b: seq<int>, theta: int, i: nat)
    requires Sum(weights) > 0 && i < |weights| == |a| == |b| && 0 <= theta <= Sum(weights)
    requires var q, r := Floors(total, weights)[i], Remainders(total, weights)[i];
             (a[i] == q && r <= theta) || (a[i] == q + 1 && r >= theta)
    ensures Line(Deviations(total, weights, a), Sum(weights) - 2 * theta, a, b)[i] <= Deviations(total, weights, b)[i]
  {
    hide Floors, Remainders, Sum, Abs;
    QuotaSplits(total, weights, i);
    ScalarAboveLine(Sum(weights), theta, Floors(total, weights)[i], Remainders(total, weights)[i], total * weights[i],
      a[i], b[i]);
  }

  /** No integer vector with the same total deviates less from the exact quotas. */
  lemma {:induction false} AllocationIsOptimal(total: nat, weights: seq<nat>, a: seq<int>, b: seq<int>)
    requires Sum(weights) > 0 && LargestRemainder(total, weights, a) && |b| == |weights| && Sum(b) == total
    ensures Deviation(total, weights, a) <= Deviation(total, weights, b)
  {
    hide Floors, Remainders, Deviations, Sum, Line;
    var theta := Threshold(total, weights, a);
    var da, db := Deviations(total, weights, a), Deviations(total, weights, b);
    var line := Line(da, Sum(weights) - 2 * theta, a, b);
    LevelLine(da, Sum(weights) - 2 * theta, a, b);
    forall i | 0 <= i < |a|
      ensures line[i] <= db[i]
    {
      ShareAboveLine(total, weights, a, b, theta, i);
    }
    SumLe(line, db);
  }

  // ----- the ranking loop -----

  function ByRemainder(r: seq<int>): Order {
    (i: nat, j: nat) => i < |r| && j < |r| && Before(r, i, j)
  }

  lemma {:induction false} ByRemainderIsTotal(r: seq<int>)
    ensures StrictTotal(ByRemainder(r), |r|)
  {
  }

  /** The indices by larger remainder, then smaller index. */
  method RankByRemainder(r: seq<int>) returns (ranked: seq<nat>)
    ensures Ranking(ByRemainder(r), |r|, ranked)
  {
    ByRemainderIsTotal(r);
    ranked := Rank(ByRemainder(r), |r|);
  }

  datatype AllocationError = EmptyShape | BasisMissing

  /** The floors, then one more unit for each of the first indices in the ranking, in place. */
  method Allocate(total: nat, weights: seq<nat>) returns (shares: array<int>)
    requires Sum(weights) > 0
    ensures fresh(shares) && LargestRemainder(total, weights, shares[..])
  {
    ghost var floors := Floors(total, weights);
    var r := Remainders(total, weights);
    shares := new int[|weights|];
    var placed := 0;
    for i := 0 to |weights|
      invariant forall k :: 0 <= k < i ==> shares[k] == floors[k]
      invariant placed == Sum(floors[..i])
    {
      SumPrefix(floors, i);
      shares[i] := (total * weights[i]) / Sum(weights);
      placed := placed + shares[i];
    }
    assert floors[..|weights|] == floors && shares[..] == floors;
    RemainderCount(total, weights);
    var ranked := RankByRemainder(r);
    HandOut(shares, ranked, total - placed, r);
    RankingIsRanked(floors, r, ranked, total - placed, shares[..]);
  }

  /** The in-place increments. */
  method HandOut(shares: array<int>, ranked: seq<nat>, units: nat, ghost r: seq<int>)
    requires |r| == shares.Length && Ranking(ByRemainder(r), |r|, ranked) && units <= |ranked|
    modifies shares
    ensures Sum(shares[..]) == old(Sum(shares[..])) + units
    ensures forall k :: 0 <= k < |ranked| ==> shares[ranked[k]] == old(shares[ranked[k]]) + if k < units then 1 else 0
  {
    for given := 0 to units
      invariant Sum(shares[..]) == old(Sum(shares[..])) + given
      invariant forall k :: 0 <= k < |ranked| ==>
        shares[ranked[k]] == old(shares[ranked[k]]) + if k < given then 1 else 0
    {
      ghost var before := shares[..];
      SumUpdate(before, ranked[given], before[ranked[given]] + 1);
      assert forall k :: 0 <= k < |ranked| && k != given ==> ranked[k] != ranked[given] by {
        assert forall k :: 0 <= k < given ==> Before(r, ranked[k], ranked[given]);
        assert forall k :: given < k < |ranked| ==> Before(r, ranked[given], ranked[k]);
      }
      shares[ranked[given]] := shares[ranked[given]] + 1;
      assert shares[..] == before[ranked[given] := before[ranked[given]] + 1];
    }
  }

  lemma {:induction false} RankingIsRanked(q: seq<int>, r: seq<int>, ranked: seq<nat>, units: nat, a: seq<int>)
    requires |q| == |r| == |a| && Ranking(ByRemainder(r), |r|, ranked)
    requires forall k :: 0 <= k < |ranked| ==> a[ranked[k]] == q[ranked[k]] + if k < units then 1 else 0
    ensures Ranked(q, r, a)
  {
    forall i | 0 <= i < |a|
      ensures a[i] == q[i] || a[i] == q[i] + 1
    {
      assert i in ranked;
    }
    forall i, j | 0 <= i < |a| && 0 <= j < |a| && a[i] > q[i] && a[j] == q[j]
      ensures Before(r, i, j)
    {
      assert i in ranked && j in ranked;
      var k :| 0 <= k < |ranked| && ranked[k] == i;
      var l :| 0 <= l < |ranked| && ranked[l] == j;
    }
  }

  /** `_allocate_integer_wh`: only an empty shape is refused. */
  method AllocateIntegerWh(shape: seq<nat>, target: nat) returns (r: Result<seq<int>, AllocationError>)
    ensures r.Err? <==> Sum(shape) <= 0
    ensures r.Ok? ==> LargestRemainder(target, shape, r.value)
  {
    if Sum(shape) <= 0 {
      return Err(EmptyShape);
    }
    var shares := Allocate(target, shape);
    return Ok(shares[..]);
  }

  // ----- the second implementation -----

  /** A service day, as its ordinal. */
  type Day = nat

  /** The keys of a dictionary in increasing order. */
  ghost predicate Ordered(keys: seq<Day>) {
    forall i, j :: 0 <= i < j < |keys| ==> keys[i] < keys[j]
  }

  function WeightsAt(weights: map<Day, int>, keys: seq<Day>): (w: seq<nat>)
    requires forall i :: 0 <= i < |keys| ==> keys[i] in weights && weights[keys[i]] > 0
    ensures |w| == |keys|
  {
    seq(|keys|, i requires 0 <= i < |keys| => weights[keys[i]])
  }

  /** The positive entries of a dictionary, sorted by key. */
  method PositiveKeys(weights: map<Day, int>) returns (keys: seq<Day>)
    ensures Ordered(keys) && forall k :: k in keys <==> k in weights && weights[k] > 0
  {
    hide Ordered;
    keys := [];
    EmptyIsOrdered();
    var left := weights.Keys;
    while left != {}
      invariant left <= weights.Keys && Ordered(keys)
      invariant forall k :: k in keys ==> k in weights && weights[k] > 0 && k !in left
      invariant forall k :: k in weights && weights[k] > 0 ==> k in left || k in keys
    {
      var key: Day :| key in left;
      left := left - {key};
      if weights[key] > 0 {
        keys := InsertKey(keys, key);
      }
    }
  }

  lemma {:induction false} EmptyIsOrdered()
    ensures Ordered([])
  {
  }

  method InsertKey(keys: seq<Day>, key: Day) returns (next: seq<Day>)
    requires Ordered(keys) && key !in keys
    ensures Ordered(next) && forall k :: k in next <==> k in keys || k == key
  {
    var at := 0;
    while at < |keys| && keys[at] < key
      invariant 0 <= at <= |keys|
      invariant forall i :: 0 <= i < at ==> keys[i] < key
    {
      at := at + 1;
    }
    KeyInserted(keys, key, at);
    next := keys[..at] + [key] + keys[at..];
  }

  lemma {:induction false} KeyInserted(keys: seq<Day>, key: Day, at: nat)
    requires Ordered(keys) && key !in keys && at <= |keys|
    requires (forall i :: 0 <= i < at ==> keys[i] < key) && (at < |keys| ==> keys[at] >= key)
    ensures Ordered(keys[..at] + [key] + keys[at..])
    ensures forall k :: k in keys[..at] + [key] + keys[at..] <==> k in keys || k == key
  {
    var next := keys[..at] + [key] + keys[at..];
    assert keys == keys[..at] + keys[at..];
    assert forall i :: at <= i < |keys| ==> keys[i] > key;
  }

  /** The magnitude is allocated over the positive weights, in key order, and the sign is restored. */
  ghost predicate Apportions(total: int, weights: map<Day, int>, keys: seq<Day>, shares: seq<int>,
      result: map<Day, int>)
  {
    && Ordered(keys) && (forall k :: k in keys <==> k in weights && weights[k] > 0)
    && |shares| == |keys| && result.Keys == (set k | k in keys)
    && (forall i :: 0 <= i < |keys| ==>
          keys[i] in result && result[keys[i]] == if total < 0 then -shares[i] else shares[i])
    && (keys == [] ==> total == 0)
    && (keys != [] ==>
          Sum(WeightsAt(weights, keys)) > 0 && LargestRemainder(Abs(total), WeightsAt(weights, keys), shares))
  }

  /** `_apportion_integer`: only a nonzero total without a positive weight is refused. */
  method ApportionInteger(total: int, weights: map<Day, int>) returns (r: Result<map<Day, int>, AllocationError>)
    ensures r.Err? <==> total != 0 && forall k :: k in weights ==> weights[k] <= 0
    ensures r.Ok? ==> exists keys, shares :: Apportions(total, weights, keys, shares, r.value)
  {
    hide LargestRemainder, Sum, Ordered;
    var keys := PositiveKeys(weights);
    assert forall i :: 0 <= i < |keys| ==> keys[i] in keys;
    var w := WeightsAt(weights, keys);
    PositiveSum(w);
    if total == 0 {
      var result: map<Day, int> := map k | k in keys :: 0;
      if keys != [] {
        ZeroIsLargest(w);
      }
      assert Apportions(total, weights, keys, seq(|keys|, _ => 0), result);
      return Ok(result);
    }
    if keys == [] {
      return Err(BasisMissing);
    }
    assert keys[0] in weights && weights[keys[0]] > 0;
    var shares := Allocate(Abs(total), w);
    AllocationShape(Abs(total), w, shares[..]);
    var result := Signed(keys, shares, if total > 0 then 1 else -1);
    assert Apportions(total, weights, keys, shares[..], result);
    return Ok(result);
  }

  /** The dictionary from keys to signed shares. */
  method Signed(keys: seq<Day>, shares: array<int>, sign: int) returns (result: map<Day, int>)
    requires Ordered(keys) && |keys| == shares.Length && (sign == 1 || sign == -1)
    ensures result.Keys == set k | k in keys
    ensures forall i :: 0 <= i < |keys| ==> result[keys[i]] == if sign < 0 then -shares[i] else shares[i]
  {
    result := map[];
    for i := 0 to |keys|
      invariant result.Keys == set k | k in keys[..i]
      invariant forall j :: 0 <= j < i ==>
        keys[j] in result && result[keys[j]] == if sign < 0 then -shares[j] else shares[j]
    {
      assert keys[..i + 1] == keys[..i] + [keys[i]];
      result := result[keys[i] := sign * shares[i]];
    }
    assert keys[..|keys|] == keys;
  }

  function Given(keys: seq<Day>, result: map<Day, int>): (given: seq<int>)
    requires forall i :: 0 <= i < |keys| ==> keys[i] in result
    ensures |given| == |keys|
  {
    seq(|keys|, i requires 0 <= i < |keys| => result[keys[i]])
  }

  /** Nothing is lost or gained: what the days are given adds up to the signed total, and every day has its
      sign. */
  lemma {:induction false} ApportionConserves(total: int, weights: map<Day, int>, keys: seq<Day>, shares: seq<int>,
      result: map<Day, int>)
    requires Apportions(total, weights, keys, shares, result)
    ensures (forall i :: 0 <= i < |keys| ==> keys[i] in result) && Sum(Given(keys, result)) == total
    ensures forall i :: 0 <= i < |keys| ==> if total < 0 then result[keys[i]] <= 0 else result[keys[i]] >= 0
  {
    hide LargestRemainder, Ordered;
    if keys != [] {
      var w := WeightsAt(weights, keys);
      SharesAddUp(Abs(total), w, shares);
      SumScale(shares, if total < 0 then -1 else 1, Given(keys, result));
      forall i | 0 <= i < |keys|
        ensures shares[i] >= 0
      {
        WithinQuota(Abs(total), w, shares, i);
      }
    }
  }

  lemma {:induction false} SharesAddUp(total: nat, weights: seq<nat>, shares: seq<int>)
    requires Sum(weights) > 0 && LargestRemainder(total, weights, shares)
    ensures Sum(shares) == total
  {
  }

  /** The same for days: of two days with equal remainders, the earlier one is never the only one without an
      extra unit. */
  lemma {:induction false} EarlierDayFirst(total: int, weights: map<Day, int>, keys: seq<Day>, shares: seq<int>,
      result: map<Day, int>, i: nat, j: nat)
    requires Apportions(total, weights, keys, shares, result) && i < j < |keys|
    requires forall k :: 0 <= k < |keys| ==> keys[k] in keys
    requires var w := Sum(WeightsAt(weights, keys));
             w > 0 && Abs(total) * weights[keys[i]] % w == Abs(total) * weights[keys[j]] % w
    ensures keys[i] < keys[j] && keys[i] in result && keys[j] in result
    ensures var w := Sum(WeightsAt(weights, keys));
            Abs(result[keys[j]]) > Abs(total) * weights[keys[j]] / w ==>
            Abs(result[keys[i]]) > Abs(total) * weights[keys[i]] / w
  {
    hide Sum, LargestRemainder;
    var w := WeightsAt(weights, keys);
    UnitsGoFirst(Abs(total), w, shares, i, j);
    WithinQuota(Abs(total), w, shares, i);
    WithinQuota(Abs(total), w, shares, j);
  }

  lemma {:induction false} AllocationShape(total: nat, weights: seq<nat>, a: seq<int>)
    requires Sum(weights) > 0 && LargestRemainder(total, weights, a)
    ensures |a| == |weights|
  {
  }

  function Picked(s: seq<int>, keys: seq<nat>): (p: seq<int>)
    requires forall i :: 0 <= i < |keys| ==> keys[i] < |s|
    ensures |p| == |keys|
  {
    seq(|keys|, i requires 0 <= i < |keys| => s[keys[i]])
  }

  /** Leaving out zeros does not change a sum. */
  lemma {:induction false} PickedSum(s: seq<int>, keys: seq<nat>)
    requires Ordered(keys) && (forall i :: 0 <= i < |keys| ==> keys[i] < |s|)
    requires forall k :: 0 <= k < |s| && k !in keys ==> s[k] == 0
    ensures Sum(Picked(s, keys)) == Sum(s)
  {
    if s == [] {
    } else if |s| - 1 in keys {
      LastPicked(s, keys);
      PickedSum(s[..|s| - 1], keys[..|keys| - 1]);
    } else {
      LastSkipped(s, keys);
      PickedSum(s[..|s| - 1], keys);
    }
  }

  lemma {:induction false} LastPicked(s: seq<int>, keys: seq<nat>)
    requires s != [] && Ordered(keys) && (forall i :: 0 <= i < |keys| ==> keys[i] < |s|) && |s| - 1 in keys
    ensures keys != [] && (forall i :: 0 <= i < |keys| - 1 ==> keys[i] < |s| - 1)
    ensures forall k :: 0 <= k < |s| - 1 && k in keys ==> k in keys[..|keys| - 1]
    ensures Sum(Picked(s, keys)) == Sum(Picked(s[..|s| - 1], keys[..|keys| - 1])) + s[|s| - 1]
  {
    var n := |keys| - 1;
    assert keys[n] == |s| - 1;
    assert Picked(s, keys)[..n] == Picked(s[..|s| - 1], keys[..n]);
  }

  lemma {:induction false} LastSkipped(s: seq<int>, keys: seq<nat>)
    requires s != [] && (forall i :: 0 <= i < |keys| ==> keys[i] < |s|) && |s| - 1 !in keys
    ensures forall i :: 0 <= i < |keys| ==> keys[i] < |s| - 1
    ensures Picked(s, keys) == Picked(s[..|s| - 1], keys)
  {
    assert forall i :: 0 <= i < |keys| ==> keys[i] in keys;
  }

  /** Both implementations give the same shares: zero weights may be left out beforehand. */
  lemma {:induction false} ImplementationsAgree(total: nat, shape: seq<nat>, a: seq<int>, keys: seq<nat>,
      weights: seq<nat>, shares: seq<int>)
    requires Sum(shape) > 0 && LargestRemainder(total, shape, a)
    requires Ordered(keys) && forall k :: k in keys <==> 0 <= k < |shape| && shape[k] > 0
    requires (forall i :: 0 <= i < |keys| ==> keys[i] in keys && keys[i] < |shape|) && weights == Picked(shape, keys)
    requires Sum(weights) > 0 && LargestRemainder(total, weights, shares)
    ensures |shares| == |keys| && forall i :: 0 <= i < |keys| ==> shares[i] == a[keys[i]]
  {
    PickedSum(shape, keys);
    forall k | 0 <= k < |a| && k !in keys
      ensures a[k] == 0
    {
      NothingDue(total, shape, a, k);
    }
    PickedSum(a, keys);
    PickedIsRanked(total, shape, a, keys, weights);
    AllocationIsUnique(total, weights, shares, Picked(a, keys));
  }

  lemma {:induction false} PickedIsRanked(total: nat, shape: seq<nat>, a: seq<int>, keys: seq<nat>, weights: seq<nat>)
    requires Sum(shape) > 0 && |a| == |shape| && Ranked(Floors(total, shape), Remainders(total, shape), a)
      && Ordered(keys)
    requires (forall i :: 0 <= i < |keys| ==> keys[i] < |shape|) && weights == Picked(shape, keys)
      && Sum(weights) == Sum(shape)
    ensures Ranked(Floors(total, weights), Remainders(total, weights), Picked(a, keys))
  {
    hide Sum;
    var q, r, b := Floors(total, weights), Remainders(total, weights), Picked(a, keys);
    assert forall i :: 0 <= i < |keys| ==>
      q[i] == Floors(total, shape)[keys[i]] && r[i] == Remainders(total, shape)[keys[i]];
    forall i, j | 0 <= i < |b| && 0 <= j < |b| && b[i] > q[i] && b[j] == q[j]
      ensures Before(r, i, j)
    {
      assert Before(Remainders(total, shape), keys[i], keys[j]);
    }
  }

  lemma {:induction false} PositiveSum(w: seq<nat>)
    requires forall i :: 0 <= i < |w| ==> w[i] > 0
    ensures w != [] ==> Sum(w) > 0
  {
    SumNonnegative(w);
  }

  lemma {:induction false} ZeroIsLargest(w: seq<nat>)
    requires Sum(w) > 0
    ensures LargestRemainder(0, w, seq(|w|, _ => 0))
  {
    SumZero(seq(|w|, _ => 0));
  }
}
