/** The complete lowered model: every occurrence, the electrical caps and the time-of-use cost, and
  what its satisfying assignments are. */
module LoweredModel {
  import opened Arithmetic
  import opened Results
  import opened Sums
  import opened Rounding
  import opened Billing
  import opened BillSplit
  import opened Scenarios
  import opened Cp
  import opened Lowering

  /** A typed scenario whose references and windows name slots of its profile. */
  ghost predicate Prepared(sc: Scenario) {
    Typed(sc) && ReferencesAligned(sc) && WindowsOpen(sc) && BackgroundNonnegative(sc)
  }

  function WindowAt(sc: Scenario, t: nat): Window
    requires WindowsOpen(sc) && t < |sc.tasks|
  {
    WindowOf(sc.slots, sc.tasks[t]).value
  }

  /** The schedule an assignment stands for. */
  function Extract(a: Assignment, sc: Scenario): (es: Matrix)
    ensures Shaped(sc, es)
  {
    seq(|sc.tasks|, t requires 0 <= t < |sc.tasks| => Row(a, t, |sc.slots|))
  }

  // ----- all occurrences -----

  function TaskRows(sc: Scenario, k: nat): seq<Constraint>
    requires ReferencesAligned(sc) && WindowsOpen(sc) && k <= |sc.tasks|
  {
    if k == 0 then [] else
    TaskRows(sc, k - 1) + TaskConstraints(sc.slots, sc.tasks[k - 1], k - 1, WindowAt(sc, k - 1))
  }

  ghost predicate TaskHolds(a: Assignment, sc: Scenario, t: nat)
    requires ReferencesAligned(sc) && WindowsOpen(sc) && t < |sc.tasks|
  {
    var e := Row(a, t, |sc.slots|);
    && Feasible(sc.slots, sc.tasks[t], WindowAt(sc, t), e)
    && Tracks(a, sc.tasks[t], t, e)
    && Realises(a, sc.tasks[t].spec, t, WindowAt(sc, t), e)
  }

  lemma {:induction false} TaskRowsMeaning(a: Assignment, sc: Scenario, k: nat)
    requires Prepared(sc) && k <= |sc.tasks|
    ensures Satisfies(a, TaskRows(sc, k)) <==> forall t :: 0 <= t < k ==> TaskHolds(a, sc, t)
  {
    hide Satisfies, TaskConstraints, Feasible, Tracks, Realises, BackgroundNonnegative;
    if k == 0 {
      SatisfiesNone(a);
    } else {
      TaskRowsMeaning(a, sc, k - 1);
      TaskMeaning(a, sc.slots, sc.tasks[k - 1], k - 1, WindowAt(sc, k - 1));
      SatisfiesConcat(a, TaskRows(sc, k - 1), TaskConstraints(sc.slots, sc.tasks[k - 1], k - 1, WindowAt(sc, k - 1)));
      assert Satisfies(a, TaskRows(sc, k)) <==> Satisfies(a, TaskRows(sc, k - 1)) && TaskHolds(a, sc, k - 1);
    }
  }

  // ----- electrical caps -----

  function SlotTerms(tasks: nat, i: nat, scale: int): seq<Term> {
    seq(tasks, t requires 0 <= t < tasks => Term(scale, Energy(t, i)))
  }

  lemma {:induction false} SlotTermsValue(a: Assignment, sc: Scenario, k: nat, i: nat, scale: int)
    requires k <= |sc.tasks| && i < |sc.slots|
    ensures Sum(TermValues(a, SlotTerms(k, i, scale))) == scale * ColumnSum(Extract(a, sc), k, i)
  {
    hide Value;
    if k > 0 {
      SlotTermsValue(a, sc, k - 1, i, scale);
      assert SlotTerms(k, i, scale) == SlotTerms(k - 1, i, scale) + [Term(scale, Energy(k - 1, i))];
      TermValuesConcat(a, SlotTerms(k - 1, i, scale), [Term(scale, Energy(k - 1, i))]);
      assert TermValues(a, [Term(scale, Energy(k - 1, i))]) == [scale * Value(a, Energy(k - 1, i))];
      SumOne(scale * Value(a, Energy(k - 1, i)));
      assert Extract(a, sc)[k - 1][i] == Value(a, Energy(k - 1, i));
    }
  }

  function CapRow(cap: Option<int>, slot: Slot, tasks: nat, i: nat, constant: int): seq<Constraint> {
    match cap
    case None => []
    case Some(limit) =>
      [CompareLinear(Linear(SlotTerms(tasks, i, WATT_SECONDS_PER_WATT_HOUR), WATT_SECONDS_PER_WATT_HOUR * constant),
                     AtMost, limit * slot.duration)]
  }

  function CapRows(sc: Scenario, n: nat): seq<Constraint>
    requires ReferencesAligned(sc) && n <= |sc.slots|
  {
    if n == 0 then [] else
    CapRows(sc, n - 1)
    + CapRow(sc.siteCap, sc.slots[n - 1], |sc.tasks|, n - 1, Background(sc)[n - 1])
    + CapRow(sc.flexibleCap, sc.slots[n - 1], |sc.tasks|, n - 1, 0)
  }

  lemma {:induction false} CapRowMeaning(a: Assignment, sc: Scenario, cap: Option<int>, i: nat, constant: int)
    requires i < |sc.slots|
    ensures Satisfies(a, CapRow(cap, sc.slots[i], |sc.tasks|, i, constant))
       <==> UnderCap(cap, sc.slots[i], constant + ColumnSum(Extract(a, sc), |sc.tasks|, i))
  {
    hide Satisfies, TermValues, ColumnSum, SlotTerms;
    if cap.None? {
      SatisfiesNone(a);
    } else {
      SatisfiesOne(a, CapRow(cap, sc.slots[i], |sc.tasks|, i, constant)[0]);
      SlotTermsValue(a, sc, |sc.tasks|, i, WATT_SECONDS_PER_WATT_HOUR);
    }
  }

  lemma {:induction false} CapRowsMeaning(a: Assignment, sc: Scenario, n: nat)
    requires ReferencesAligned(sc) && n <= |sc.slots|
    ensures Satisfies(a, CapRows(sc, n))
       <==> forall i :: 0 <= i < n ==>
              && UnderCap(sc.siteCap, sc.slots[i], Profile(sc, Extract(a, sc))[i])
              && UnderCap(sc.flexibleCap, sc.slots[i], Flexible(sc, Extract(a, sc))[i])
  {
    hide Satisfies, UnderCap, ColumnSum, ShiftSum, CapRow, Row;
    if n == 0 {
      SatisfiesNone(a);
    } else {
      CapRowsMeaning(a, sc, n - 1);
      var site := CapRow(sc.siteCap, sc.slots[n - 1], |sc.tasks|, n - 1, Background(sc)[n - 1]);
      var flexible := CapRow(sc.flexibleCap, sc.slots[n - 1], |sc.tasks|, n - 1, 0);
      SatisfiesConcat(a, CapRows(sc, n - 1) + site, flexible);
      SatisfiesConcat(a, CapRows(sc, n - 1), site);
      CapRowMeaning(a, sc, sc.siteCap, n - 1, Background(sc)[n - 1]);
      CapRowMeaning(a, sc, sc.flexibleCap, n - 1, 0);
    }
  }

  // ----- time-of-use cost -----

  const WATT_HOUR_RATE_TO_CENTS := 10_000_000
  const HALF_CENT := 5_000_000

  /** The upper bound of one task's variable in one slot. */
  function TaskMaximum(sc: Scenario, t: nat, i: nat): int
    requires WindowsOpen(sc) && t < |sc.tasks| && i < |sc.slots|
  {
    var w := WindowAt(sc, t);
    match sc.tasks[t].spec
    case Interruptible(_, _) => MaximumEnergy(sc.tasks[t].spec, sc.slots[i], w, i)
    case FixedShape(shape) => ShapeMaximum(i, shape, w.first, StartCount(shape, w))
  }

  function MaximumSum(sc: Scenario, k: nat, i: nat): int
    requires WindowsOpen(sc) && k <= |sc.tasks| && i < |sc.slots|
  {
    if k == 0 then 0 else MaximumSum(sc, k - 1, i) + TaskMaximum(sc, k - 1, i)
  }

  function ProfileMaxima(sc: Scenario): (maxima: seq<int>)
    requires ReferencesAligned(sc) && WindowsOpen(sc)
    ensures |maxima| == |sc.slots|
  {
    seq(|sc.slots|, i requires 0 <= i < |sc.slots| => MaximumSum(sc, |sc.tasks|, i) + Background(sc)[i])
  }

  /** The energy variables of every slot that falls into one period. */
  function QuantityTerms(tasks: nat, periods: seq<Option<Period>>, period: Period, n: nat): seq<Term>
    requires n <= |periods|
  {
    if n == 0 then [] else
    QuantityTerms(tasks, periods, period, n - 1) + if periods[n - 1] == Some(period) then SlotTerms(tasks, n - 1, 1)
      else []
  }

  function RateRow(sc: Scenario, periods: seq<Option<Period>>, rate: PeriodRate, r: nat, j: nat): seq<Constraint>
    requires ReferencesAligned(sc) && WindowsOpen(sc) && |periods| == |sc.slots|
  {
    var magnitude := Abs(rate.rate);
    var quantityMaximum := PeriodEnergy(periods, ProfileMaxima(sc), rate.period);
    [ Domain(Quantity(r, j), 0, quantityMaximum),
      Equals(Quantity(r, j), Linear(QuantityTerms(|sc.tasks|, periods, rate.period, |sc.slots|),
                                    PeriodEnergy(periods, Background(sc), rate.period))),
      Domain(Cents(r, j), 0, (quantityMaximum * magnitude + HALF_CENT) / WATT_HOUR_RATE_TO_CENTS),
      Division(Cents(r, j), magnitude, Quantity(r, j), HALF_CENT, WATT_HOUR_RATE_TO_CENTS) ]
  }

  function RateRows(sc: Scenario, periods: seq<Option<Period>>, rates: seq<PeriodRate>, r: nat, k: nat): seq<Constraint>
    requires ReferencesAligned(sc) && WindowsOpen(sc) && |periods| == |sc.slots| && k <= |rates|
  {
    if k == 0 then [] else RateRows(sc, periods, rates, r, k - 1) + RateRow(sc, periods, rates[k - 1], r, k - 1)
  }

  /** Every time charge refers to one schedule, which classifies every slot into a period it prices. */
  predicate Priced(rates: seq<PeriodRate>, periods: seq<Option<Period>>) {
    forall i :: 0 <= i < |periods| ==> periods[i].Some? && HasRate(rates, periods[i].value)
  }

  predicate HasRate(rates: seq<PeriodRate>, period: Period) {
    exists j :: 0 <= j < |rates| && rates[j].period == period
  }

  ghost predicate Lowerable(rules: seq<Rule>, slots: nat) {
    && WellFormed(rules, slots)
    && forall r :: 0 <= r < |rules| && IsTimeCharge(rules[r]) ==>
         Resolves(rules[r], rules) && Priced(rules[r].charge.rates, PeriodsOf(rules[r], rules))
  }

  function PeriodsAt(rules: seq<Rule>, r: nat, slots: nat): (periods: seq<Option<Period>>)
    requires WellFormed(rules, slots) && r < |rules| && Resolves(rules[r], rules)
    ensures |periods| == slots
  {
    SchedulesOfWellFormed(rules, rules[r].charge.scheduleId, slots);
    PeriodsOf(rules[r], rules)
  }

  function CostRows(sc: Scenario, rules: seq<Rule>, n: nat): seq<Constraint>
    requires ReferencesAligned(sc) && WindowsOpen(sc) && WellFormed(rules, |sc.slots|) && n <= |rules|
  {
    if n == 0 then [] else
    CostRows(sc, rules, n - 1)
    + if IsTimeCharge(rules[n - 1]) && Resolves(rules[n - 1], rules)
      then RateRows(sc, PeriodsAt(rules, n - 1, |sc.slots|), rules[n - 1].charge.rates, n - 1,
        |rules[n - 1].charge.rates|)
      else []
  }

  /** Everything `compile_scenario_model` adds to the solver model. */
  function Lowered(sc: Scenario, rules: seq<Rule>): seq<Constraint>
    requires ReferencesAligned(sc) && WindowsOpen(sc) && WellFormed(rules, |sc.slots|)
  {
    TaskRows(sc, |sc.tasks|) + CapRows(sc, |sc.slots|) + CostRows(sc, rules, |rules|)
  }

  // ----- what the cost constraints mean -----

  lemma {:induction false} PeriodEnergySplits(periods: seq<Option<Period>>, x: seq<int>, y: seq<int>, z: seq<int>,
      period: Period)
    requires |periods| == |x| == |y| == |z| && forall i :: 0 <= i < |z| ==> z[i] == x[i] + y[i]
    ensures PeriodEnergy(periods, z, period) == PeriodEnergy(periods, x, period) + PeriodEnergy(periods, y, period)
  {
    if z != [] {
      var last := |z| - 1;
      PeriodEnergySplits(periods[..last], x[..last], y[..last], z[..last], period);
    }
  }

  lemma {:induction false} PeriodEnergyLe(periods: seq<Option<Period>>, x: seq<int>, y: seq<int>, period: Period)
    requires |periods| == |x| == |y| && forall i :: 0 <= i < |x| ==> 0 <= x[i] <= y[i]
    ensures 0 <= PeriodEnergy(periods, x, period) <= PeriodEnergy(periods, y, period)
  {
    if x != [] {
      var last := |x| - 1;
      PeriodEnergyLe(periods[..last], x[..last], y[..last], period);
    }
  }

  lemma {:induction false} QuantityTermsValue(a: Assignment, sc: Scenario, periods: seq<Option<Period>>, period: Period,
      n: nat)
    requires n <= |periods| == |sc.slots|
    ensures Sum(TermValues(a, QuantityTerms(|sc.tasks|, periods, period, n)))
         == PeriodEnergy(periods[..n], Flexible(sc, Extract(a, sc))[..n], period)
  {
    hide ColumnSum, SlotTerms, Row;
    var flexible := Flexible(sc, Extract(a, sc));
    if n > 0 {
      QuantityTermsValue(a, sc, periods, period, n - 1);
      var last := if periods[n - 1] == Some(period) then SlotTerms(|sc.tasks|, n - 1, 1) else [];
      TermValuesConcat(a, QuantityTerms(|sc.tasks|, periods, period, n - 1), last);
      SlotTermsValue(a, sc, |sc.tasks|, n - 1, 1);
      assert periods[..n][..n - 1] == periods[..n - 1] && flexible[..n][..n - 1] == flexible[..n - 1];
    }
  }

  /** Solver division of a non-negative quantity is the evaluator's half-up rounding. */
  lemma {:induction false} DivisionIsHalfUp(quantity: nat, rate: int)
    ensures Quotient(Abs(rate) * quantity + HALF_CENT, WATT_HOUR_RATE_TO_CENTS) * (if rate < 0 then -1 else 1)
         == EnergyCents(quantity, rate)
  {
    var magnitude := Abs(rate);
    assert magnitude * quantity >= 0;
    HalfUpByFloor(magnitude * quantity, WATT_HOUR_RATE_TO_CENTS, HALF_CENT);
    HalfUpIsOdd(magnitude * quantity, WATT_HOUR_RATE_TO_CENTS);
    assert quantity * rate == if rate < 0 then -(magnitude * quantity) else magnitude * quantity;
  }

  /** The two variables of one rate follow from the profile. */
  ghost predicate RateHolds(a: Assignment, periods: seq<Option<Period>>, rate: PeriodRate, r: nat, j: nat,
      profile: seq<int>)
    requires |periods| == |profile|
  {
    var quantity := PeriodEnergy(periods, profile, rate.period);
    && Value(a, Quantity(r, j)) == quantity
    && Value(a, Cents(r, j)) == Quotient(Abs(rate.rate) * quantity + HALF_CENT, WATT_HOUR_RATE_TO_CENTS)
  }

  ghost predicate Bounded(sc: Scenario, profile: seq<int>)
    requires ReferencesAligned(sc) && WindowsOpen(sc)
  {
    |profile| == |sc.slots| && forall i :: 0 <= i < |profile| ==> 0 <= profile[i] <= ProfileMaxima(sc)[i]
  }

  lemma {:induction false} RateRowMeaning(a: Assignment, sc: Scenario, periods: seq<Option<Period>>, rate: PeriodRate,
      r: nat, j: nat)
    requires ReferencesAligned(sc) && WindowsOpen(sc) && |periods| == |sc.slots|
    requires Bounded(sc, Profile(sc, Extract(a, sc)))
    ensures Satisfies(a, RateRow(sc, periods, rate, r, j)) <==>
      RateHolds(a, periods, rate, r, j, Profile(sc, Extract(a, sc)))
  {
    hide Value, PeriodEnergy, QuantityTerms, ProfileMaxima, ColumnSum, ShiftSum, TermValues, Row, Quotient;
    var profile := Profile(sc, Extract(a, sc));
    var cs := RateRow(sc, periods, rate, r, j);
    assert periods[..|sc.slots|] == periods
      && Flexible(sc, Extract(a, sc))[..|sc.slots|] == Flexible(sc, Extract(a, sc));
    QuantityTermsValue(a, sc, periods, rate.period, |sc.slots|);
    PeriodEnergySplits(periods, Background(sc), Flexible(sc, Extract(a, sc)), profile, rate.period);
    PeriodEnergyLe(periods, profile, ProfileMaxima(sc), rate.period);
    QuotientBounds(Abs(rate.rate), PeriodEnergy(periods, profile, rate.period),
      PeriodEnergy(periods, ProfileMaxima(sc), rate.period));
    if Satisfies(a, cs) {
      assert Holds(a, cs[1]) && Holds(a, cs[3]);
    }
  }

  lemma {:induction false} QuotientBounds(magnitude: nat, quantity: nat, maximum: nat)
    requires quantity <= maximum
    ensures 0 <= Quotient(magnitude * quantity + HALF_CENT, WATT_HOUR_RATE_TO_CENTS)
              <= (maximum * magnitude + HALF_CENT) / WATT_HOUR_RATE_TO_CENTS
  {
    ProductNotNegative(magnitude, quantity);
    ProductAtMost(quantity, maximum, magnitude);
    assert magnitude * quantity == quantity * magnitude;
    DivideLe(magnitude * quantity + HALF_CENT, maximum * magnitude + HALF_CENT);
  }

  lemma {:induction false} DivideLe(x: nat, y: nat)
    requires x <= y
    ensures x / WATT_HOUR_RATE_TO_CENTS <= y / WATT_HOUR_RATE_TO_CENTS
  {
  }

  lemma {:induction false} RateRowsMeaning(a: Assignment, sc: Scenario, periods: seq<Option<Period>>,
      rates: seq<PeriodRate>, r: nat, k: nat)
    requires ReferencesAligned(sc) && WindowsOpen(sc) && |periods| == |sc.slots| && k <= |rates|
    requires Bounded(sc, Profile(sc, Extract(a, sc)))
    ensures Satisfies(a, RateRows(sc, periods, rates, r, k))
       <==> forall j :: 0 <= j < k ==> RateHolds(a, periods, rates[j], r, j, Profile(sc, Extract(a, sc)))
  {
    hide Satisfies, RateRow, RateHolds, Bounded, Profile, Extract;
    if k == 0 {
      SatisfiesNone(a);
    } else {
      RateRowsMeaning(a, sc, periods, rates, r, k - 1);
      RateRowMeaning(a, sc, periods, rates[k - 1], r, k - 1);
      SatisfiesConcat(a, RateRows(sc, periods, rates, r, k - 1), RateRow(sc, periods, rates[k - 1], r, k - 1));
    }
  }

  ghost predicate CostHolds(a: Assignment, rules: seq<Rule>, r: nat, profile: seq<int>)
    requires WellFormed(rules, |profile|) && r < |rules|
  {
    IsTimeCharge(rules[r]) && Resolves(rules[r], rules) ==>
      forall j :: 0 <= j < |rules[r].charge.rates| ==>
        RateHolds(a, PeriodsAt(rules, r, |profile|), rules[r].charge.rates[j], r, j, profile)
  }

  lemma {:induction false} CostRowsMeaning(a: Assignment, sc: Scenario, rules: seq<Rule>, n: nat)
    requires ReferencesAligned(sc) && WindowsOpen(sc) && WellFormed(rules, |sc.slots|) && n <= |rules|
    requires Bounded(sc, Profile(sc, Extract(a, sc)))
    ensures Satisfies(a, CostRows(sc, rules, n))
       <==> forall r :: 0 <= r < n ==> CostHolds(a, rules, r, Profile(sc, Extract(a, sc)))
  {
    hide Satisfies, RateRows, RateHolds, Bounded, Resolves, WellFormed;
    if n == 0 {
      SatisfiesNone(a);
    } else {
      CostRowsMeaning(a, sc, rules, n - 1);
      if IsTimeCharge(rules[n - 1]) && Resolves(rules[n - 1], rules) {
        var rates := rules[n - 1].charge.rates;
        var periods := PeriodsAt(rules, n - 1, |sc.slots|);
        RateRowsMeaning(a, sc, periods, rates, n - 1, |rates|);
        SatisfiesConcat(a, CostRows(sc, rules, n - 1), RateRows(sc, periods, rates, n - 1, |rates|));
      } else {
        SatisfiesConcat(a, CostRows(sc, rules, n - 1), []);
        SatisfiesNone(a);
      }
      assert Satisfies(a, CostRows(sc, rules, n))
        <==> Satisfies(a, CostRows(sc, rules, n - 1)) && CostHolds(a, rules, n - 1, Profile(sc, Extract(a, sc)));
    }
  }

  // ----- the whole model -----

  lemma {:induction false} MaximumEnergyNonnegative(spec: Spec, slot: Slot, w: Window, i: nat)
    requires spec.Interruptible? && TypedSpec(spec) && slot.duration > 0
    ensures MaximumEnergy(spec, slot, w, i) >= 0
  {
    assert spec.maximumPower * slot.duration >= 0;
  }

  lemma {:induction false} FeasibleBelowMaximum(sc: Scenario, t: nat, e: seq<int>, i: nat)
    requires Prepared(sc) && t < |sc.tasks| && i < |sc.slots| && Feasible(sc.slots, sc.tasks[t], WindowAt(sc, t), e)
    ensures 0 <= e[i] <= TaskMaximum(sc, t, i)
  {
    hide BackgroundNonnegative, ReferencesAligned, Placed;
    var w, task := WindowAt(sc, t), sc.tasks[t];
    match task.spec {
      case Interruptible(_, _) =>
        MaximumEnergyNonnegative(task.spec, sc.slots[i], w, i);
        WholeUnits(e[i], task.spec.maximumPower * sc.slots[i].duration);
      case FixedShape(shape) =>
        var c: nat :| w.first <= c <= w.last - |shape| && e == Placed(shape, c, |sc.slots|);
        PlacedBelowMaximum(shape, w, c, |sc.slots|, i);
    }
  }

  lemma {:induction false} PlacedBelowMaximum(shape: seq<int>, w: Window, c: nat, n: nat, i: nat)
    requires TypedSpec(FixedShape(shape)) && w.first <= c <= w.last - |shape| && i < n
    ensures Placed(shape, c, n)[i] <= ShapeMaximum(i, shape, w.first, StartCount(shape, w))
  {
    ShapeMaximumNonnegative(i, shape, w.first, StartCount(shape, w));
    if Covers(shape, c, i) {
      ShapeMaximumBounds(i, shape, w.first, StartCount(shape, w), c);
    }
  }

  lemma {:induction false} ColumnBelowMaximum(sc: Scenario, es: Matrix, k: nat, i: nat)
    requires Prepared(sc) && Shaped(sc, es) && k <= |es| && i < |sc.slots|
    requires forall t :: 0 <= t < k ==> Feasible(sc.slots, sc.tasks[t], WindowAt(sc, t), es[t])
    ensures 0 <= ColumnSum(es, k, i) <= MaximumSum(sc, k, i)
  {
    hide Feasible, TaskMaximum, Prepared;
    if k > 0 {
      ColumnBelowMaximum(sc, es, k - 1, i);
      FeasibleBelowMaximum(sc, k - 1, es[k - 1], i);
    }
  }

  lemma {:induction false} ProfileIsBounded(sc: Scenario, es: Matrix)
    requires Prepared(sc) && Shaped(sc, es)
    requires forall t :: 0 <= t < |es| ==> Feasible(sc.slots, sc.tasks[t], WindowAt(sc, t), es[t])
    ensures Bounded(sc, Profile(sc, es))
  {
    hide Feasible, ColumnSum, MaximumSum, ShiftSum, Typed;
    forall i | 0 <= i < |sc.slots|
      ensures 0 <= Profile(sc, es)[i] <= ProfileMaxima(sc)[i]
    {
      ColumnBelowMaximum(sc, es, |es|, i);
      assert Background(sc)[i] >= 0;
    }
  }

  ghost predicate Solution(a: Assignment, sc: Scenario, rules: seq<Rule>)
    requires ReferencesAligned(sc) && WindowsOpen(sc) && WellFormed(rules, |sc.slots|)
  {
    && (forall t :: 0 <= t < |sc.tasks| ==> TaskHolds(a, sc, t))
    && WithinCaps(sc, Extract(a, sc))
    && (forall r :: 0 <= r < |rules| ==> CostHolds(a, rules, r, Profile(sc, Extract(a, sc))))
  }

  lemma {:induction false} TaskHoldsFeasible(a: Assignment, sc: Scenario, t: nat)
    requires ReferencesAligned(sc) && WindowsOpen(sc) && t < |sc.tasks| && TaskHolds(a, sc, t)
    ensures Feasible(sc.slots, sc.tasks[t], WindowAt(sc, t), Extract(a, sc)[t])
  {
  }

  lemma {:induction false} SolutionIsBounded(a: Assignment, sc: Scenario)
    requires Prepared(sc) && forall t :: 0 <= t < |sc.tasks| ==> TaskHolds(a, sc, t)
    ensures Bounded(sc, Profile(sc, Extract(a, sc)))
  {
    hide TaskHolds, Feasible, Typed, BackgroundNonnegative, Profile;
    forall t | 0 <= t < |sc.tasks|
      ensures Feasible(sc.slots, sc.tasks[t], WindowAt(sc, t), Extract(a, sc)[t])
    {
      TaskHoldsFeasible(a, sc, t);
    }
    ProfileIsBounded(sc, Extract(a, sc));
  }

  lemma {:induction false} LoweredMeaning(a: Assignment, sc: Scenario, rules: seq<Rule>)
    requires Prepared(sc) && WellFormed(rules, |sc.slots|)
    ensures Satisfies(a, Lowered(sc, rules)) <==> Solution(a, sc, rules)
  {
    hide Satisfies, TaskRows, CapRows, CostRows, TaskHolds, CostHolds, Profile, Flexible, Extract, WellFormed, UnderCap;
    SatisfiesConcat(a, TaskRows(sc, |sc.tasks|) + CapRows(sc, |sc.slots|), CostRows(sc, rules, |rules|));
    SatisfiesConcat(a, TaskRows(sc, |sc.tasks|), CapRows(sc, |sc.slots|));
    TaskRowsMeaning(a, sc, |sc.tasks|);
    CapRowsMeaning(a, sc, |sc.slots|);
    if forall t :: 0 <= t < |sc.tasks| ==> TaskHolds(a, sc, t) {
      SolutionIsBounded(a, sc);
      CostRowsMeaning(a, sc, rules, |rules|);
    }
  }

  // ----- the four objectives -----

  function CostTerms(rules: seq<Rule>, n: nat): seq<Term>
    requires n <= |rules|
  {
    if n == 0 then [] else
    CostTerms(rules, n - 1)
    + if IsTimeCharge(rules[n - 1]) && Resolves(rules[n - 1], rules) then
      RateTerms(rules[n - 1].charge.rates, n - 1, |rules[n - 1].charge.rates|) else []
  }

  function RateTerms(rates: seq<PeriodRate>, r: nat, k: nat): seq<Term>
    requires k <= |rates|
  {
    if k == 0 then [] else
    RateTerms(rates, r, k - 1) + [Term(if rates[k - 1].rate < 0 then -1 else 1, Cents(r, k - 1))]
  }

  function ChangedTerms(tasks: nat, slots: nat): seq<Term> {
    if tasks == 0 then [] else ChangedTerms(tasks - 1, slots) + ChangedRow(tasks - 1, slots)
  }

  function ChangedRow(t: nat, slots: nat): seq<Term> {
    seq(slots, i requires 0 <= i < slots => Term(1, Changed(t, i)))
  }

  function CompletionVars(tasks: nat): seq<Term> {
    if tasks == 0 then [] else CompletionVars(tasks - 1) + [Term(1, Completion(tasks - 1))]
  }

  /** Position, over all tasks, of the slot before the first one of task `t`. */
  function Base(t: nat, slots: nat): nat {
    if t == 0 then 0 else Base(t - 1, slots) + slots
  }

  function StableTerms(tasks: nat, slots: nat): seq<Term> {
    if tasks == 0 then [] else StableTerms(tasks - 1, slots) + StableRow(tasks - 1, slots, Base(tasks - 1, slots))
  }

  function StableRow(t: nat, slots: nat, base: nat): seq<Term> {
    seq(slots, i requires 0 <= i < slots => Term(base + i + 1, Energy(t, i)))
  }

  /** The stages, in the order they are minimised. */
  function Stages(sc: Scenario, rules: seq<Rule>, constant: int): (stages: seq<Linear>)
    ensures |stages| == 4
  {
    [ Linear(CostTerms(rules, |rules|), constant),
      Linear(ChangedTerms(|sc.tasks|, |sc.slots|), 0),
      Linear(CompletionVars(|sc.tasks|), 0),
      Linear(StableTerms(|sc.tasks|, |sc.slots|), 0) ]
  }

  // the same numbers, read from a schedule

  function ChangedFlags(task: Task, e: seq<int>): seq<int>
    requires |task.reference| == |e|
  {
    seq(|e|, i requires 0 <= i < |e| => Flag(e[i] != task.reference[i].energy))
  }

  function ChangedCount(sc: Scenario, es: Matrix, k: nat): int
    requires ReferencesAligned(sc) && Shaped(sc, es) && k <= |es|
  {
    if k == 0 then 0 else ChangedCount(sc, es, k - 1) + Sum(ChangedFlags(sc.tasks[k - 1], es[k - 1]))
  }

  function CompletionSum(es: Matrix, k: nat): int
    requires k <= |es|
  {
    if k == 0 then 0 else CompletionSum(es, k - 1) + LastPositive(es[k - 1], |es[k - 1]|)
  }

  function Weighted(e: seq<int>, base: int): seq<int> {
    seq(|e|, i requires 0 <= i < |e| => (base + i + 1) * e[i])
  }

  function StableScore(es: Matrix, k: nat, slots: nat): int
    requires k <= |es|
  {
    if k == 0 then 0 else StableScore(es, k - 1, slots) + Sum(Weighted(es[k - 1], Base(k - 1, slots)))
  }

  lemma {:induction false} RateTermsValue(a: Assignment, periods: seq<Option<Period>>, rates: seq<PeriodRate>, r: nat,
      k: nat, profile: seq<int>)
    requires |periods| == |profile| && k <= |rates| && (forall i :: 0 <= i < |profile| ==> profile[i] >= 0)
    requires forall j :: 0 <= j < k ==> RateHolds(a, periods, rates[j], r, j, profile)
    ensures Sum(TermValues(a, RateTerms(rates, r, k))) == RateCents(rates, k, periods, profile)
  {
    hide Value, EnergyCents, PeriodEnergy, Quotient;
    if k > 0 {
      RateTermsValue(a, periods, rates, r, k - 1, profile);
      var rate := rates[k - 1];
      var sign := if rate.rate < 0 then -1 else 1;
      TermValuesConcat(a, RateTerms(rates, r, k - 1), [Term(sign, Cents(r, k - 1))]);
      assert TermValues(a, [Term(sign, Cents(r, k - 1))]) == [sign * Value(a, Cents(r, k - 1))];
      SumOne(sign * Value(a, Cents(r, k - 1)));
      PeriodEnergyLe(periods, profile, profile, rate.period);
      assert RateHolds(a, periods, rate, r, k - 1, profile);
      DivisionIsHalfUp(PeriodEnergy(periods, profile, rate.period), rate.rate);
    }
  }

  lemma {:induction false} CostTermsValue(a: Assignment, rules: seq<Rule>, n: nat, profile: seq<int>)
    requires WellFormed(rules, |profile|) && n <= |rules| && (forall i :: 0 <= i < |profile| ==> profile[i] >= 0)
    requires forall r :: 0 <= r < n ==> CostHolds(a, rules, r, profile)
    ensures Sum(TermValues(a, CostTerms(rules, n))) == VariableCents(rules, n, profile)
  {
    hide RateHolds, RateTerms, RateCents, WellFormed, Resolves, SchedulesOf, TermValues;
    if n == 0 {
      NoTerms(a);
    } else {
      CostTermsValue(a, rules, n - 1, profile);
      assert CostHolds(a, rules, n - 1, profile);
      if IsTimeCharge(rules[n - 1]) && Resolves(rules[n - 1], rules) {
        var rates, periods := rules[n - 1].charge.rates, PeriodsAt(rules, n - 1, |profile|);
        RateTermsValue(a, periods, rates, n - 1, |rates|, profile);
        TermValuesConcat(a, CostTerms(rules, n - 1), RateTerms(rates, n - 1, |rates|));
      } else {
        assert CostTerms(rules, n) == CostTerms(rules, n - 1);
      }
    }
  }

  lemma {:induction false} NoTerms(a: Assignment)
    ensures TermValues(a, []) == []
  {
  }

  lemma {:induction false} ChangedRowValue(a: Assignment, sc: Scenario, t: nat)
    requires ReferencesAligned(sc) && WindowsOpen(sc) && t < |sc.tasks| && TaskHolds(a, sc, t)
    ensures TermValues(a, ChangedRow(t, |sc.slots|)) == ChangedFlags(sc.tasks[t], Extract(a, sc)[t])
  {
    hide Value, Feasible, Realises, WindowsOpen, LastPositive, Flag;
  }

  lemma {:induction false} ChangedTermsValue(a: Assignment, sc: Scenario, k: nat)
    requires ReferencesAligned(sc) && WindowsOpen(sc) && k <= |sc.tasks|
    requires forall t :: 0 <= t < k ==> TaskHolds(a, sc, t)
    ensures Sum(TermValues(a, ChangedTerms(k, |sc.slots|))) == ChangedCount(sc, Extract(a, sc), k)
  {
    hide TermValues, TaskHolds, ChangedRow, ChangedFlags, ReferencesAligned, WindowsOpen, Extract;
    if k == 0 {
      NoTerms(a);
    } else {
      ChangedTermsValue(a, sc, k - 1);
      ChangedRowValue(a, sc, k - 1);
      TermValuesConcat(a, ChangedTerms(k - 1, |sc.slots|), ChangedRow(k - 1, |sc.slots|));
    }
  }

  lemma {:induction false} CompletionValue(a: Assignment, sc: Scenario, t: nat)
    requires ReferencesAligned(sc) && WindowsOpen(sc) && t < |sc.tasks| && TaskHolds(a, sc, t)
    ensures Sum(TermValues(a, [Term(1, Completion(t))])) == LastPositive(Extract(a, sc)[t], |Extract(a, sc)[t]|)
  {
    hide Value, Feasible, Realises, WindowsOpen, LastPositive;
    assert TermValues(a, [Term(1, Completion(t))]) == [Value(a, Completion(t))];
    SumOne(Value(a, Completion(t)));
  }

  lemma {:induction false} CompletionVarsValue(a: Assignment, sc: Scenario, k: nat)
    requires ReferencesAligned(sc) && WindowsOpen(sc) && k <= |sc.tasks|
    requires forall t :: 0 <= t < k ==> TaskHolds(a, sc, t)
    ensures Sum(TermValues(a, CompletionVars(k))) == CompletionSum(Extract(a, sc), k)
  {
    hide TermValues, TaskHolds, LastPositive, ReferencesAligned, WindowsOpen, Extract;
    if k == 0 {
      NoTerms(a);
    } else {
      CompletionVarsValue(a, sc, k - 1);
      CompletionValue(a, sc, k - 1);
      TermValuesConcat(a, CompletionVars(k - 1), [Term(1, Completion(k - 1))]);
    }
  }

  lemma {:induction false} StableRowValue(a: Assignment, sc: Scenario, t: nat, base: nat)
    requires t < |sc.tasks|
    ensures TermValues(a, StableRow(t, |sc.slots|, base)) == Weighted(Extract(a, sc)[t], base)
  {
    hide Value;
    var terms, e := StableRow(t, |sc.slots|, base), Extract(a, sc)[t];
    forall i | 0 <= i < |sc.slots|
      ensures TermValues(a, terms)[i] == Weighted(e, base)[i]
    {
      assert terms[i] == Term(base + i + 1, Energy(t, i)) && e[i] == Value(a, Energy(t, i));
    }
  }

  lemma {:induction false} StableTermsValue(a: Assignment, sc: Scenario, k: nat)
    requires k <= |sc.tasks|
    ensures Sum(TermValues(a, StableTerms(k, |sc.slots|))) == StableScore(Extract(a, sc), k, |sc.slots|)
  {
    hide TermValues, StableRow, Weighted, Extract;
    if k == 0 {
      NoTerms(a);
    } else {
      StableTermsValue(a, sc, k - 1);
      StableRowValue(a, sc, k - 1, Base(k - 1, |sc.slots|));
      TermValuesConcat(a, StableTerms(k - 1, |sc.slots|), StableRow(k - 1, |sc.slots|, Base(k - 1, |sc.slots|)));
    }
  }
}
