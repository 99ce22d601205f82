/** The objective bounds of a lowered model (packages/optimizer/ratereplay_optimizer/lowering.py): every
  schedule the model stands for has its four objective values inside them, so when the bounds pass the
  signed 64-bit check, no objective value can leave that range. */
module Bounds {
  import opened Arithmetic
  import opened Results
  import opened Sums
  import opened Rounding
  import opened Billing
  import opened BillSplit
  import opened Scenarios
  import opened Cp
  import opened Lowering
  import opened LoweredModel
  import opened Exactness

  const SIGNED_INT64_MAX := 9_223_372_036_854_775_807

  datatype ObjectiveBounds = ObjectiveBounds(
    minimumCost: int, maximumCost: int, maximumChanged: int, maximumCompletion: int, maximumStable: int)

  datatype Range = Range(low: int, high: int)

  predicate Representable(x: int) {
    -SIGNED_INT64_MAX <= x <= SIGNED_INT64_MAX
  }

  /** `_check_int64` on the bounds. */
  predicate Fits(bounds: ObjectiveBounds) {
    && Representable(bounds.minimumCost) && Representable(bounds.maximumCost) && Representable(bounds.maximumChanged)
    && Representable(bounds.maximumCompletion) && Representable(bounds.maximumStable)
  }

  // ----- the bounds -----

  /** The largest number of cents of one rate. */
  function RateMaximum(sc: Scenario, periods: seq<Option<Period>>, rate: PeriodRate): int
    requires ReferencesAligned(sc) && WindowsOpen(sc) && |periods| == |sc.slots|
  {
    (PeriodEnergy(periods, ProfileMaxima(sc), rate.period) * Abs(rate.rate) + HALF_CENT) / WATT_HOUR_RATE_TO_CENTS
  }

  function RatesRange(sc: Scenario, periods: seq<Option<Period>>, rates: seq<PeriodRate>, k: nat): Range
    requires ReferencesAligned(sc) && WindowsOpen(sc) && |periods| == |sc.slots| && k <= |rates|
  {
    if k == 0 then Range(0, 0) else
    var before, maximum := RatesRange(sc, periods, rates, k - 1), RateMaximum(sc, periods, rates[k - 1]);
    if rates[k - 1].rate < 0 then before.(low := before.low - maximum) else before.(high := before.high + maximum)
  }

  function CostRange(sc: Scenario, rules: seq<Rule>, n: nat): Range
    requires ReferencesAligned(sc) && WindowsOpen(sc) && WellFormed(rules, |sc.slots|) && n <= |rules|
  {
    if n == 0 then Range(0, 0) else
    var before := CostRange(sc, rules, n - 1);
    if IsTimeCharge(rules[n - 1]) && Resolves(rules[n - 1], rules) then
      var rates := rules[n - 1].charge.rates;
      var more := RatesRange(sc, PeriodsAt(rules, n - 1, |sc.slots|), rates, |rates|);
      Range(before.low + more.low, before.high + more.high)
    else before
  }

  function TaskMaxima(sc: Scenario, t: nat): (maxima: seq<int>)
    requires WindowsOpen(sc) && t < |sc.tasks|
    ensures |maxima| == |sc.slots|
  {
    seq(|sc.slots|, i requires 0 <= i < |sc.slots| => TaskMaximum(sc, t, i))
  }

  function AllMaxima(sc: Scenario): (maxima: Matrix)
    requires WindowsOpen(sc)
    ensures Shaped(sc, maxima)
  {
    seq(|sc.tasks|, t requires 0 <= t < |sc.tasks| => TaskMaxima(sc, t))
  }

  function BoundsOf(sc: Scenario, rules: seq<Rule>, constant: int): ObjectiveBounds
    requires ReferencesAligned(sc) && WindowsOpen(sc) && WellFormed(rules, |sc.slots|)
  {
    var cost := CostRange(sc, rules, |rules|);
    ObjectiveBounds(
      constant + cost.low, constant + cost.high, |sc.tasks| * |sc.slots|, |sc.tasks| * |sc.slots|,
      StableScore(AllMaxima(sc), |sc.tasks|, |sc.slots|))
  }

  ghost predicate Within(objective: Objective, bounds: ObjectiveBounds) {
    && bounds.minimumCost <= objective.cost <= bounds.maximumCost
    && 0 <= objective.changed <= bounds.maximumChanged
    && 0 <= objective.completion <= bounds.maximumCompletion
    && 0 <= objective.stable <= bounds.maximumStable
  }

  // ----- computing them -----

  /** The loop over the time charges and their rates. */
  method ComputeCosts(sc: Scenario, rules: seq<Rule>, constant: int) returns (minimum: int, maximum: int)
    requires ReferencesAligned(sc) && WindowsOpen(sc) && WellFormed(rules, |sc.slots|)
    ensures var range := CostRange(sc, rules, |rules|);
            minimum == constant + range.low && maximum == constant + range.high
  {
    hide WellFormed, ReferencesAligned, WindowsOpen, Resolves, RateMaximum;
    minimum, maximum := constant, constant;
    for i := 0 to |rules|
      invariant minimum == constant + CostRange(sc, rules, i).low && maximum == constant + CostRange(sc, rules, i).high
    {
      if IsTimeCharge(rules[i]) && Resolves(rules[i], rules) {
        var rates, periods := rules[i].charge.rates, PeriodsAt(rules, i, |sc.slots|);
        for j := 0 to |rates|
          invariant minimum == constant + CostRange(sc, rules, i).low + RatesRange(sc, periods, rates, j).low
          invariant maximum == constant + CostRange(sc, rules, i).high + RatesRange(sc, periods, rates, j).high
        {
          if rates[j].rate < 0 {
            minimum := minimum - RateMaximum(sc, periods, rates[j]);
          } else {
            maximum := maximum + RateMaximum(sc, periods, rates[j]);
          }
        }
      }
    }
  }

  method AddTaskMaxima(sc: Scenario, t: nat, sofar: int, base: nat) returns (maximum: int, position: nat)
    requires WindowsOpen(sc) && t < |sc.tasks|
    ensures maximum == sofar + Sum(Weighted(TaskMaxima(sc, t), base)) && position == base + |sc.slots|
  {
    hide TaskMaximum, WindowsOpen, Sum;
    maximum, position := sofar, base;
    ghost var weighted := Weighted(TaskMaxima(sc, t), base);
    NothingSums();
    assert weighted[..0] == [];
    for i := 0 to |sc.slots|
      invariant position == base + i && maximum == sofar + Sum(weighted[..i])
    {
      position := position + 1;
      SumPrefix(weighted, i);
      maximum := maximum + position * TaskMaximum(sc, t, i);
    }
    assert weighted[..|sc.slots|] == weighted;
  }

  lemma {:induction false} NothingSums()
    ensures Sum([]) == 0
  {
  }

  /** The stable score of the maxima: the positions run over all occurrences and slots. */
  method ComputeStable(sc: Scenario) returns (maximum: int)
    requires WindowsOpen(sc)
    ensures maximum == StableScore(AllMaxima(sc), |sc.tasks|, |sc.slots|)
  {
    hide TaskMaxima, WindowsOpen, Weighted, Sum;
    maximum := 0;
    var position := 0;
    for t := 0 to |sc.tasks|
      invariant maximum == StableScore(AllMaxima(sc), t, |sc.slots|) && position == Base(t, |sc.slots|)
    {
      maximum, position := AddTaskMaxima(sc, t, maximum, position);
    }
  }

  /** The bounds of the model, refused when one of them leaves the signed 64-bit range. */
  method ComputeBounds(sc: Scenario, rules: seq<Rule>, constant: int) returns (r: Option<ObjectiveBounds>)
    requires ReferencesAligned(sc) && WindowsOpen(sc) && WellFormed(rules, |sc.slots|)
    ensures r == if Fits(BoundsOf(sc, rules, constant)) then Some(BoundsOf(sc, rules, constant)) else None
  {
    hide WellFormed, ReferencesAligned, WindowsOpen, CostRange, StableScore, Representable;
    var minimum, maximum := ComputeCosts(sc, rules, constant);
    var stable := ComputeStable(sc);
    var entries := |sc.tasks| * |sc.slots|;
    var bounds := ObjectiveBounds(minimum, maximum, entries, entries, stable);
    return if Fits(bounds) then Some(bounds) else None;
  }

  // ----- what they promise -----

  lemma {:induction false} RateWithin(sc: Scenario, periods: seq<Option<Period>>, rate: PeriodRate, profile: seq<int>)
    requires ReferencesAligned(sc) && WindowsOpen(sc) && |periods| == |sc.slots| && Bounded(sc, profile)
    ensures var cents := EnergyCents(PeriodEnergy(periods, profile, rate.period), rate.rate);
            var maximum := RateMaximum(sc, periods, rate);
            if rate.rate < 0 then -maximum <= cents <= 0 else 0 <= cents <= maximum
  {
    hide PeriodEnergy, ProfileMaxima, EnergyCents, Quotient, ReferencesAligned, WindowsOpen;
    PeriodEnergyLe(periods, profile, ProfileMaxima(sc), rate.period);
    var quantity, most := PeriodEnergy(periods, profile, rate.period),
      PeriodEnergy(periods, ProfileMaxima(sc), rate.period);
    DivisionIsHalfUp(quantity, rate.rate);
    QuotientBounds(Abs(rate.rate), quantity, most);
  }

  lemma {:induction false} RatesWithin(
      sc: Scenario, periods: seq<Option<Period>>, rates: seq<PeriodRate>, k: nat, profile: seq<int>)
    requires ReferencesAligned(sc) && WindowsOpen(sc) && |periods| == |sc.slots| && Bounded(sc, profile) && k <= |rates|
    ensures var range := RatesRange(sc, periods, rates, k);
            range.low <= RateCents(rates, k, periods, profile) <= range.high
  {
    hide Bounded, RateMaximum, EnergyCents, PeriodEnergy, ReferencesAligned, WindowsOpen;
    BoundedLength(sc, profile);
    if k > 0 {
      RatesWithin(sc, periods, rates, k - 1, profile);
      RateWithin(sc, periods, rates[k - 1], profile);
    }
  }

  lemma {:induction false} BoundedLength(sc: Scenario, profile: seq<int>)
    requires ReferencesAligned(sc) && WindowsOpen(sc) && Bounded(sc, profile)
    ensures |profile| == |sc.slots|
  {
  }

  lemma {:induction false} CostWithin(sc: Scenario, rules: seq<Rule>, n: nat, profile: seq<int>)
    requires ReferencesAligned(sc) && WindowsOpen(sc) && WellFormed(rules, |sc.slots|) && n <= |rules|
    requires Bounded(sc, profile) && |profile| == |sc.slots|
    ensures var range := CostRange(sc, rules, n); range.low <= VariableCents(rules, n, profile) <= range.high
  {
    hide Bounded, RatesRange, RateCents, WellFormed, Resolves, ReferencesAligned, WindowsOpen;
    if n > 0 {
      CostWithin(sc, rules, n - 1, profile);
      if IsTimeCharge(rules[n - 1]) && Resolves(rules[n - 1], rules) {
        var rates := rules[n - 1].charge.rates;
        RatesWithin(sc, PeriodsAt(rules, n - 1, |sc.slots|), rates, |rates|, profile);
      }
    }
  }

  lemma {:induction false} FlagsWithin(flags: seq<int>)
    requires forall i :: 0 <= i < |flags| ==> 0 <= flags[i] <= 1
    ensures 0 <= Sum(flags) <= |flags|
  {
    if flags != [] {
      FlagsWithin(flags[..|flags| - 1]);
    }
  }

  lemma {:induction false} CountsWithin(sc: Scenario, es: Matrix, k: nat)
    requires ReferencesAligned(sc) && Shaped(sc, es) && k <= |es|
    ensures 0 <= ChangedCount(sc, es, k) <= k * |sc.slots|
    ensures 0 <= CompletionSum(es, k) <= k * |sc.slots|
  {
    if k > 0 {
      hide LastPositive;
      CountsWithin(sc, es, k - 1);
      FlagsWithin(ChangedFlags(sc.tasks[k - 1], es[k - 1]));
      LastPositiveFacts(es[k - 1], |es[k - 1]|);
      assert k * |sc.slots| == (k - 1) * |sc.slots| + |sc.slots|;
    }
  }

  lemma {:induction false} WeightedWithin(e: seq<int>, maxima: seq<int>, base: nat)
    requires |e| == |maxima| && forall i :: 0 <= i < |e| ==> 0 <= e[i] <= maxima[i]
    ensures 0 <= Sum(Weighted(e, base)) <= Sum(Weighted(maxima, base))
  {
    forall i | 0 <= i < |e|
      ensures 0 <= Weighted(e, base)[i] <= Weighted(maxima, base)[i]
    {
      ProductNotNegative(base + i + 1, e[i]);
      ProductAtMost(e[i], maxima[i], base + i + 1);
    }
    SumNonnegative(Weighted(e, base));
    SumLe(Weighted(e, base), Weighted(maxima, base));
  }

  lemma {:induction false} StableWithin(sc: Scenario, es: Matrix, k: nat)
    requires Prepared(sc) && Shaped(sc, es) && k <= |es|
    requires forall t :: 0 <= t < |es| ==> Feasible(sc.slots, sc.tasks[t], WindowAt(sc, t), es[t])
    ensures 0 <= StableScore(es, k, |sc.slots|) <= StableScore(AllMaxima(sc), k, |sc.slots|)
  {
    hide Feasible, TaskMaximum, Weighted, Base;
    if k > 0 {
      StableWithin(sc, es, k - 1);
      var e, maxima := es[k - 1], TaskMaxima(sc, k - 1);
      forall i | 0 <= i < |sc.slots|
        ensures 0 <= e[i] <= maxima[i]
      {
        FeasibleBelowMaximum(sc, k - 1, e, i);
      }
      WeightedWithin(e, maxima, Base(k - 1, |sc.slots|));
    }
  }

  /** Every admitted schedule scores within the bounds. */
  lemma {:induction false} ScoreWithinBounds(sc: Scenario, rules: seq<Rule>, account: Account, es: Matrix)
    requires Ready(sc, rules, account) && Admits(sc, es)
    ensures Bill(sc, rules, account, es).Ok?
    ensures Within(Score(sc, rules, account, es), BoundsOf(sc, rules, Constant(sc, rules, account)))
  {
    hide Feasible, Replay, WellFormed, UniqueIds, ConstantCost, TotalCents, VariableCents, CostRange, StableScore,
      ChangedCount, CompletionSum, Profile, Typed, BackgroundNonnegative, WithinCaps;
    AdmittedBill(sc, rules, account, es);
    ProfileIsBounded(sc, es);
    CostWithin(sc, rules, |rules|, Profile(sc, es));
    CountsWithin(sc, es, |es|);
    StableWithin(sc, es, |es|);
  }

  /** When the bounds pass the check, the four solver expressions are signed 64-bit numbers under every
      assignment that satisfies the model. */
  lemma {:induction false} NoObjectiveOverflows(a: Assignment, sc: Scenario, rules: seq<Rule>, account: Account)
    requires Ready(sc, rules, account) && Satisfies(a, Lowered(sc, rules))
    requires Fits(BoundsOf(sc, rules, Constant(sc, rules, account)))
    ensures forall n :: 0 <= n < 4 ==> Representable(Eval(a, StagesOf(sc, rules, account)[n]))
  {
    hide Satisfies, Lowered, Admits, Replay, WellFormed, UniqueIds, Typed, BackgroundNonnegative, Score, BoundsOf, Eval,
      Extract;
    LoweringIsSound(a, sc, rules, account);
    ScoreWithinBounds(sc, rules, account, Extract(a, sc));
    var stages := StagesOf(sc, rules, account);
    assert Representable(Eval(a, stages[0])) && Representable(Eval(a, stages[1]))
      && Representable(Eval(a, stages[2])) && Representable(Eval(a, stages[3]));
  }
}
