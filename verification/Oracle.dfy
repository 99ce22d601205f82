/** The exhaustive schedule oracle of the qualification scripts: every way to spread an energy over the
  slots, the four-stage objective, and the optimum set (scripts/qualify_m4.py and
  scripts/qualify_m8_correctness.py). */
module Oracle {
  import opened Sums
  import opened Lowering
  import opened LoweredModel
  import opened Exactness
  import opened Staged

  // ----- compositions -----

  function Prefixed(first: int, suffixes: seq<seq<int>>): (r: seq<seq<int>>)
    ensures |r| == |suffixes|
  {
    seq(|suffixes|, i requires 0 <= i < |suffixes| => [first] + suffixes[i])
  }

  function Compositions(total: nat, slots: nat): seq<seq<int>>
    requires slots >= 1
    decreases slots, 0
  {
    if slots == 1 then [[total]] else Branches(total, slots, total + 1)
  }

  /** The compositions whose first part is smaller than `k`. */
  function Branches(total: nat, slots: nat, k: nat): seq<seq<int>>
    requires slots >= 2 && k <= total + 1
    decreases slots - 1, k + 1
  {
    if k == 0 then [] else Branches(total, slots, k - 1) + Prefixed(k - 1, Compositions(total - (k - 1), slots - 1))
  }

  /** `_compositions` of the M4 script: a list, extended branch by branch. */
  method ListCompositions(total: nat, slots: nat) returns (values: seq<seq<int>>)
    requires slots >= 1
    ensures values == Compositions(total, slots)
    decreases slots
  {
    if slots == 1 {
      return [[total]];
    }
    values := [];
    for first := 0 to total + 1
      invariant values == Branches(total, slots, first)
    {
      var suffixes := ListCompositions(total - first, slots - 1);
      values := values + Prefixed(first, suffixes);
    }
  }

  /** `_compositions` of the M8 script: a generator, one value at a time. */
  method YieldCompositions(total: nat, slots: nat) returns (yielded: seq<seq<int>>)
    requires slots >= 1
    ensures yielded == Compositions(total, slots)
    decreases slots
  {
    if slots == 1 {
      return [[total]];
    }
    yielded := [];
    for first := 0 to total + 1
      invariant yielded == Branches(total, slots, first)
    {
      var suffixes := YieldCompositions(total - first, slots - 1);
      ghost var before, branch := yielded, Prefixed(first, suffixes);
      for i := 0 to |suffixes|
        invariant yielded == before + branch[..i]
      {
        yielded := yielded + [[first] + suffixes[i]];
        assert branch[..i + 1] == branch[..i] + [branch[i]];
      }
      assert branch[..|suffixes|] == branch;
    }
  }

  /** What a composition is. */
  ghost predicate Composes(a: seq<int>, total: int, slots: nat) {
    |a| == slots && (forall i :: 0 <= i < |a| ==> a[i] >= 0) && Sum(a) == total
  }

  lemma {:induction false} SumCons(x: int, s: seq<int>)
    ensures Sum([x] + s) == x + Sum(s)
  {
    SumConcat([x], s);
    assert [x][..0] == [];
  }

  lemma {:induction false} InPrefixed(first: int, suffixes: seq<seq<int>>, a: seq<int>)
    ensures a in Prefixed(first, suffixes) <==> a != [] && a[0] == first && a[1..] in suffixes
  {
    if a != [] && a[0] == first && a[1..] in suffixes {
      var i :| 0 <= i < |suffixes| && suffixes[i] == a[1..];
      assert Prefixed(first, suffixes)[i] == a;
    }
  }

  /** The enumeration holds every nonnegative tuple of that length and sum, and nothing else. */
  lemma {:induction false} CompositionsAreComplete(total: nat, slots: nat, a: seq<int>)
    requires slots >= 1
    ensures a in Compositions(total, slots) <==> Composes(a, total, slots)
    decreases slots, 0
  {
    if slots == 1 {
      if |a| == 1 {
        SumCons(a[0], []);
        assert a == [a[0]] + [] && Sum(a) == a[0];
        assert a == [total] <==> a[0] == total;
      }
      assert Compositions(total, slots) == [[total]];
      assert a in Compositions(total, slots) <==> a == [total];
    } else {
      BranchesAreComplete(total, slots, total + 1, a);
      if Composes(a, total, slots) {
        SumNonnegative(a);
      }
    }
  }

  lemma {:induction false} BranchesAreComplete(total: nat, slots: nat, k: nat, a: seq<int>)
    requires slots >= 2 && k <= total + 1
    ensures a in Branches(total, slots, k) <==> Composes(a, total, slots) && a[0] < k
    decreases slots - 1, k + 1
  {
    if k > 0 {
      BranchesAreComplete(total, slots, k - 1, a);
      var suffixes := Compositions(total - (k - 1), slots - 1);
      InPrefixed(k - 1, suffixes, a);
      if a != [] {
        CompositionsAreComplete(total - (k - 1), slots - 1, a[1..]);
        assert a == [a[0]] + a[1..];
        SumCons(a[0], a[1..]);
      }
    }
  }

  /** Lexicographic order of tuples of one length. */
  ghost predicate Precedes(a: seq<int>, b: seq<int>)
    requires |a| == |b|
  {
    a != [] && (a[0] < b[0] || (a[0] == b[0] && Precedes(a[1..], b[1..])))
  }

  ghost predicate Increasing(values: seq<seq<int>>, slots: nat) {
    && (forall i :: 0 <= i < |values| ==> |values[i]| == slots)
    && forall i, j :: 0 <= i < j < |values| ==> Precedes(values[i], values[j])
  }

  lemma {:induction false} PrefixedIncreases(first: int, suffixes: seq<seq<int>>, slots: nat)
    requires Increasing(suffixes, slots)
    ensures Increasing(Prefixed(first, suffixes), slots + 1)
  {
    var r := Prefixed(first, suffixes);
    forall i, j | 0 <= i < j < |r|
      ensures Precedes(r[i], r[j])
    {
      assert r[i][1..] == suffixes[i] && r[j][1..] == suffixes[j];
    }
  }

  /** The enumeration is strictly increasing, so no tuple occurs twice. */
  lemma {:induction false} CompositionsIncrease(total: nat, slots: nat)
    requires slots >= 1
    ensures Increasing(Compositions(total, slots), slots)
    decreases slots, 0
  {
    if slots > 1 {
      BranchesIncrease(total, slots, total + 1);
    }
  }

  lemma {:induction false} BranchesIncrease(total: nat, slots: nat, k: nat)
    requires slots >= 2 && k <= total + 1
    ensures Increasing(Branches(total, slots, k), slots)
    decreases slots - 1, k + 1
  {
    if k > 0 {
      BranchesIncrease(total, slots, k - 1);
      CompositionsIncrease(total - (k - 1), slots - 1);
      var before, branch := Branches(total, slots, k - 1), Prefixed(k - 1, Compositions(total - (k - 1), slots - 1));
      PrefixedIncreases(k - 1, Compositions(total - (k - 1), slots - 1), slots - 1);
      forall i, j | 0 <= i < |before| && 0 <= j < |branch|
        ensures Precedes(before[i], branch[j])
      {
        BranchesAreComplete(total, slots, k - 1, before[i]);
      }
    }
  }

  /** Binomial coefficients, by Pascal's rule. */
  function Binomial(n: nat, k: nat): nat {
    if k == 0 then 1 else if n == 0 then 0 else Binomial(n - 1, k - 1) + Binomial(n - 1, k)
  }

  lemma {:induction false} BinomialAbove(n: nat, k: nat)
    requires n < k
    ensures Binomial(n, k) == 0
  {
    if n > 0 {
      BinomialAbove(n - 1, k - 1);
      BinomialAbove(n - 1, k);
    }
  }

  /** There are (total + slots - 1 choose slots - 1) compositions. */
  lemma {:induction false} CompositionCount(total: nat, slots: nat)
    requires slots >= 1
    ensures |Compositions(total, slots)| == Binomial(total + slots - 1, slots - 1)
    decreases slots, 0
  {
    if slots > 1 {
      BranchCount(total, slots, total + 1);
      BinomialAbove(slots - 2, slots - 1);
    }
  }

  lemma {:induction false} BranchCount(total: nat, slots: nat, k: nat)
    requires slots >= 2 && k <= total + 1
    ensures |Branches(total, slots, k)| + Binomial(total + slots - 1 - k, slots - 1) ==
      Binomial(total + slots - 1, slots - 1)
    decreases slots - 1, k + 1
  {
    if k > 0 {
      BranchCount(total, slots, k - 1);
      CompositionCount(total - (k - 1), slots - 1);
    }
  }

  // ----- the objective and its optimum -----

  type Cost = seq<int> -> int

  function Changes(a: seq<int>, reference: seq<int>): seq<int>
    requires |a| == |reference|
  {
    seq(|a|, i requires 0 <= i < |a| => Flag(a[i] != reference[i]))
  }

  /** `_objective`: cost, changed slots, last active slot, and position-weighted energy. */
  function ObjectiveOf(cost: Cost, reference: seq<int>, a: seq<int>): Objective
    requires |a| == |reference|
  {
    Objective(cost(a), Sum(Changes(a, reference)), LastPositive(a, |a|), Sum(Weighted(a, 0)))
  }

  lemma {:induction false} LessIsTotal(x: Objective, y: Objective, z: Objective)
    ensures !Less(x, x) && (Less(x, y) || Less(y, x) || x == y)
    ensures Less(x, y) && Less(y, z) ==> Less(x, z)
  {
  }

  /** `min` over the scored list. */
  method Minimum(scores: seq<Objective>) returns (best: Objective)
    requires |scores| > 0
    ensures best in scores && forall i :: 0 <= i < |scores| ==> !Less(scores[i], best)
  {
    best := scores[0];
    for i := 1 to |scores|
      invariant best in scores && forall k :: 0 <= k < i ==> !Less(scores[k], best)
    {
      if Less(scores[i], best) {
        best := scores[i];
      }
    }
  }

  /** What the oracle reports: the least objective of any feasible tuple, and exactly those that attain it. */
  ghost predicate Optimum(cost: Cost, reference: seq<int>, total: int, best: Objective, attainers: set<seq<int>>) {
    && (forall a :: Composes(a, total, |reference|) ==> !Less(ObjectiveOf(cost, reference, a), best))
    && (forall a :: a in attainers <==> Composes(a, total, |reference|) && ObjectiveOf(cost, reference, a) == best)
    && attainers != {}
  }

  /** The oracle: enumerate, score, take the minimum, keep the attainers. */
  method RunOracle(cost: Cost, reference: seq<int>, total: nat) returns (best: Objective, attainers: set<seq<int>>)
    requires |reference| >= 1 && total > 0
    ensures Optimum(cost, reference, total, best, attainers)
  {
    hide ObjectiveOf, Less, Compositions;
    var n := |reference|;
    var tuples := ListCompositions(total, n);
    CompositionsIncrease(total, n);
    forall a
      ensures a in tuples <==> Composes(a, total, n)
    {
      CompositionsAreComplete(total, n, a);
    }
    SomethingComposes(total, n);
    var scores := seq(|tuples|, i requires 0 <= i < |tuples| => ObjectiveOf(cost, reference, tuples[i]));
    best := Minimum(scores);
    attainers := set a | a in tuples && ObjectiveOf(cost, reference, a) == best;
    forall a | Composes(a, total, n)
      ensures !Less(ObjectiveOf(cost, reference, a), best)
    {
      assert a in tuples;
      var i :| 0 <= i < |tuples| && tuples[i] == a;
      assert scores[i] == ObjectiveOf(cost, reference, a);
    }
    var i :| 0 <= i < |scores| && scores[i] == best;
    assert tuples[i] in attainers;
  }

  lemma {:induction false} SomethingComposes(total: nat, slots: nat)
    requires slots >= 1
    ensures Compositions(total, slots) != []
  {
    var a := [total] + seq(slots - 1, _ => 0);
    SumCons(total, seq(slots - 1, _ => 0));
    SumZero(seq(slots - 1, _ => 0));
    CompositionsAreComplete(total, slots, a);
  }

  lemma {:induction false} UnchangedIsReference(a: seq<int>, reference: seq<int>)
    requires |a| == |reference|
    ensures Sum(Changes(a, reference)) >= 0
    ensures Sum(Changes(a, reference)) == 0 <==> a == reference
  {
    var changes := Changes(a, reference);
    SumNonnegative(changes);
    if a == reference {
      SumZero(changes);
    } else {
      var i :| 0 <= i < |a| && a[i] != reference[i];
      assert changes[i] == 1;
    }
  }

  /** When no tuple is cheaper than the reference, the reference is the whole optimum set. */
  lemma {:induction false} CheapestReferenceIsKept(cost: Cost, reference: seq<int>, total: int, best: Objective,
      attainers: set<seq<int>>)
    requires Composes(reference, total, |reference|) && Optimum(cost, reference, total, best, attainers)
    requires forall a :: Composes(a, total, |reference|) ==> cost(reference) <= cost(a)
    ensures attainers == {reference}
  {
    hide Composes, Sum, Changes;
    UnchangedIsReference(reference, reference);
    forall a | a in attainers
      ensures a == reference
    {
      assert Composes(a, total, |reference|);
      ComposesLength(a, total, |reference|);
      UnchangedIsReference(a, reference);
      assert !Less(ObjectiveOf(cost, reference, reference), best);
    }
  }

  lemma {:induction false} ComposesLength(a: seq<int>, total: int, slots: nat)
    requires Composes(a, total, slots)
    ensures |a| == slots
  {
  }
}
