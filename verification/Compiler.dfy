/** Building the solver model, statement by statement
  (packages/optimizer/ratereplay_optimizer/lowering.py). */
module Compiler {
  import opened Arithmetic
  import opened Results
  import opened Sums
  import opened Billing
  import opened BillSplit
  import opened BillTotals
  import opened Scenarios
  import opened Cp
  import opened Lowering
  import opened LoweredModel

  datatype LoweringError = ModelContractViolation | UnsupportedPeriod | ScheduleUnresolved

  class CpModel {
    var constraints: seq<Constraint>

    constructor ()
      ensures constraints == []
    {
      constraints := [];
    }

    method Add(c: Constraint)
      modifies this
      ensures constraints == old(constraints) + [c]
    {
      constraints := constraints + [c];
    }

    method AddInterruptible(t: nat, slots: seq<Slot>, spec: Spec, w: Window)
      requires spec.Interruptible?
      modifies this
      ensures constraints == old(constraints) + InterruptibleRows(t, slots, spec, w, |slots|)
    {
      hide MaximumEnergy;
      for i := 0 to |slots|
        invariant constraints == old(constraints) + InterruptibleRows(t, slots, spec, w, i)
      {
        var power := spec.maximumPower * slots[i].duration;
        Add(Domain(Energy(t, i), 0, MaximumEnergy(spec, slots[i], w, i)));
        Add(Compare(WATT_SECONDS_PER_WATT_HOUR, Energy(t, i), AtMost, power, Always));
        Add(Domain(Active(t, i), 0, 1));
        Add(Compare(1, Energy(t, i), AtLeast, 1, If(Active(t, i))));
        Add(Compare(1, Energy(t, i), Equal, 0, Unless(Active(t, i))));
        if spec.minimumPower != 0 {
          var floor := spec.minimumPower * slots[i].duration;
          Add(Compare(WATT_SECONDS_PER_WATT_HOUR, Energy(t, i), AtLeast, floor, If(Active(t, i))));
        }
        assert constraints == old(constraints)
          + (InterruptibleRows(t, slots, spec, w, i) + InterruptibleRow(t, i, slots[i], spec, w));
      }
    }

    method AddFixedShape(t: nat, slots: nat, shape: seq<int>, first: nat, starts: nat)
      modifies this
      ensures constraints == old(constraints) + ShapeConstraints(t, shape, first, starts, slots)
    {
      hide ShapeTerms, ShapeMaximum;
      for k := 0 to starts
        invariant constraints == old(constraints) + StartDomains(t, first, k)
      {
        Add(Domain(Start(t, first + k), 0, 1));
      }
      Add(ExactlyOne(StartVars(t, first, starts)));
      ghost var before := StartDomains(t, first, starts) + [ExactlyOne(StartVars(t, first, starts))];
      for i := 0 to slots
        invariant constraints == old(constraints) + before + ShapeRows(t, shape, first, starts, i)
      {
        Add(Domain(Energy(t, i), 0, ShapeMaximum(i, shape, first, starts)));
        Add(Equals(Energy(t, i), Linear(ShapeTerms(t, i, shape, first, starts), 0)));
      }
    }

    method AddObjectiveRows(t: nat, reference: seq<int>)
      modifies this
      ensures constraints == old(constraints) + ObjectiveRows(t, reference, |reference|)
        + CompletionConstraints(t, |reference|)
    {
      for i := 0 to |reference|
        invariant constraints == old(constraints) + ObjectiveRows(t, reference, i)
      {
        Add(Domain(Changed(t, i), 0, 1));
        Add(Compare(1, Energy(t, i), Equal, reference[i], Unless(Changed(t, i))));
        Add(Compare(1, Energy(t, i), Unequal, reference[i], If(Changed(t, i))));
        Add(Domain(Working(t, i), 0, 1));
        Add(Compare(1, Energy(t, i), AtLeast, 1, If(Working(t, i))));
        Add(Compare(1, Energy(t, i), Equal, 0, Unless(Working(t, i))));
        assert constraints == old(constraints) + (ObjectiveRows(t, reference, i) + ObjectiveRow(t, i, reference[i]));
      }
      Add(Domain(Completion(t), 1, |reference|));
      Add(Maximum(Completion(t), CompletionTerms(t, |reference|)));
    }

    method AddTask(slots: seq<Slot>, task: Task, t: nat, w: Window) returns (refused: bool)
      requires |task.reference| == |slots|
      modifies this
      ensures refused <==> task.spec.FixedShape? && StartCount(task.spec.shape, w) == 0
      ensures !refused ==> constraints == old(constraints) + TaskConstraints(slots, task, t, w)
    {
      hide InterruptibleRows, ShapeConstraints, ObjectiveRows, CompletionConstraints, StartCount;
      match task.spec {
        case Interruptible(_, _) =>
          AddInterruptible(t, slots, task.spec, w);
        case FixedShape(shape) =>
          if StartCount(shape, w) == 0 {
            return true;
          }
          AddFixedShape(t, |slots|, shape, w.first, StartCount(shape, w));
      }
      Add(CompareLinear(Linear(EnergyTerms(t, |slots|), 0), Equal, task.required));
      AddObjectiveRows(t, Energies(task.reference));
      refused := false;
    }

    method AddCaps(sc: Scenario)
      requires ReferencesAligned(sc)
      modifies this
      ensures constraints == old(constraints) + CapRows(sc, |sc.slots|)
    {
      hide Background, SlotTerms, ReferencesAligned;
      for i := 0 to |sc.slots|
        invariant constraints == old(constraints) + CapRows(sc, i)
      {
        ghost var before := constraints;
        AddCap(sc.siteCap, sc.slots[i], |sc.tasks|, i, Background(sc)[i]);
        AddCap(sc.flexibleCap, sc.slots[i], |sc.tasks|, i, 0);
        assert constraints == before + (CapRow(sc.siteCap, sc.slots[i], |sc.tasks|, i, Background(sc)[i])
                                        + CapRow(sc.flexibleCap, sc.slots[i], |sc.tasks|, i, 0));
      }
    }

    method AddCap(cap: Option<int>, slot: Slot, tasks: nat, i: nat, constant: int)
      modifies this
      ensures constraints == old(constraints) + CapRow(cap, slot, tasks, i, constant)
    {
      if cap.Some? {
        Add(CompareLinear(Linear(SlotTerms(tasks, i, WATT_SECONDS_PER_WATT_HOUR),
          WATT_SECONDS_PER_WATT_HOUR * constant),
                          AtMost, cap.value * slot.duration));
      }
    }

    method AddRates(sc: Scenario, periods: seq<Option<Period>>, rates: seq<PeriodRate>, r: nat)
      requires ReferencesAligned(sc) && WindowsOpen(sc) && |periods| == |sc.slots|
      modifies this
      ensures constraints == old(constraints) + RateRows(sc, periods, rates, r, |rates|)
    {
      hide Background, ProfileMaxima, PeriodEnergy, QuantityTerms, ReferencesAligned, WindowsOpen;
      for j := 0 to |rates|
        invariant constraints == old(constraints) + RateRows(sc, periods, rates, r, j)
      {
        var rate := rates[j];
        var magnitude := Abs(rate.rate);
        var maximum := PeriodEnergy(periods, ProfileMaxima(sc), rate.period);
        Add(Domain(Quantity(r, j), 0, maximum));
        Add(Equals(Quantity(r, j), Linear(QuantityTerms(|sc.tasks|, periods, rate.period, |sc.slots|),
                                          PeriodEnergy(periods, Background(sc), rate.period))));
        Add(Domain(Cents(r, j), 0, (maximum * magnitude + HALF_CENT) / WATT_HOUR_RATE_TO_CENTS));
        Add(Division(Cents(r, j), magnitude, Quantity(r, j), HALF_CENT, WATT_HOUR_RATE_TO_CENTS));
        assert constraints == old(constraints)
          + (RateRows(sc, periods, rates, r, j) + RateRow(sc, periods, rate, r, j));
      }
    }
  }

  /** A time charge prices a schedule exactly when no energy of any profile is left without a rate. */
  lemma {:induction false} PricedExactly(rates: seq<PeriodRate>, periods: seq<Option<Period>>)
    ensures Priced(rates, periods) <==>
            && (forall i :: 0 <= i < |periods| ==> periods[i].Some?)
            && forall energy: seq<int> ::
                 |energy| == |periods| && (forall i :: 0 <= i < |energy| ==> energy[i] >= 0) ==>
                   Sum(Unpriced(rates, periods, energy)) == 0
  {
    hide Sum, Unpriced;
    forall energy: seq<int> | |energy| == |periods| && forall i :: 0 <= i < |energy| ==> energy[i] >= 0
      ensures Sum(Unpriced(rates, periods, energy)) == 0 <==>
        forall i :: 0 <= i < |energy| && energy[i] > 0 ==> HasRateBelow(rates, |rates|, periods[i])
    {
      UnpricedIsZero(rates, periods, energy);
    }
    var ones: seq<int> := seq(|periods|, i => 1);
    assert |ones| == |periods| && forall i :: 0 <= i < |ones| ==> ones[i] == 1;
    forall i | 0 <= i < |periods| && periods[i].Some?
      ensures HasRate(rates, periods[i].value) <==> HasRateBelow(rates, |rates|, periods[i])
    {
    }
    if Sum(Unpriced(rates, periods, ones)) == 0 {
      assert forall i :: 0 <= i < |ones| ==> ones[i] > 0 && HasRateBelow(rates, |rates|, periods[i]);
    }
  }

  /** Whether every slot falls into a period that the charge prices. */
  method CheckPriced(rates: seq<PeriodRate>, periods: seq<Option<Period>>) returns (priced: bool)
    ensures priced <==> Priced(rates, periods)
  {
    var known: set<Period> := {};
    for j := 0 to |rates|
      invariant forall p :: p in known <==> exists k :: 0 <= k < j && rates[k].period == p
    {
      known := known + {rates[j].period};
    }
    for i := 0 to |periods|
      invariant forall k :: 0 <= k < i ==> periods[k].Some? && HasRate(rates, periods[k].value)
    {
      if periods[i].None? || periods[i].value !in known {
        return false;
      }
    }
    return true;
  }

  ghost predicate StartsExist(sc: Scenario)
    requires WindowsOpen(sc)
  {
    forall t :: 0 <= t < |sc.tasks| && sc.tasks[t].spec.FixedShape? ==>
      StartCount(sc.tasks[t].spec.shape, WindowAt(sc, t)) > 0
  }

  predicate RuleLowers(rules: seq<Rule>, i: nat)
    requires i < |rules|
  {
    IsTimeCharge(rules[i]) ==>
      Resolves(rules[i], rules) && Priced(rules[i].charge.rates, PeriodsOf(rules[i], rules))
  }

  /** The first rule that cannot be lowered, and why. */
  predicate NotLowerable(rules: seq<Rule>, i: nat, error: LoweringError) {
    && i < |rules| && (forall k :: 0 <= k < i ==> RuleLowers(rules, k)) && IsTimeCharge(rules[i])
    && match error
       case ScheduleUnresolved => !Resolves(rules[i], rules)
       case UnsupportedPeriod =>
         Resolves(rules[i], rules) && !Priced(rules[i].charge.rates, PeriodsOf(rules[i], rules))
       case _ => false
  }

  /** Every time charge resolves its schedule and prices all of it. */
  method CheckLowerable(rules: seq<Rule>, slots: nat) returns (error: Option<LoweringError>)
    requires WellFormed(rules, slots)
    ensures error.None? <==> Lowerable(rules, slots)
    ensures error.Some? ==> exists i: nat :: NotLowerable(rules, i, error.value)
  {
    hide WellFormed, Priced;
    for i := 0 to |rules|
      invariant forall k :: 0 <= k < i && IsTimeCharge(rules[k]) ==>
        Resolves(rules[k], rules) && Priced(rules[k].charge.rates, PeriodsOf(rules[k], rules))
    {
      if IsTimeCharge(rules[i]) {
        if !Resolves(rules[i], rules) {
          assert NotLowerable(rules, i, ScheduleUnresolved);
          return Some(ScheduleUnresolved);
        }
        var priced := CheckPriced(rules[i].charge.rates, PeriodsOf(rules[i], rules));
        if !priced {
          assert NotLowerable(rules, i, UnsupportedPeriod);
          return Some(UnsupportedPeriod);
        }
      }
    }
    return None;
  }

  /** The variables and constraints of every occurrence. */
  method CompileTasks(sc: Scenario) returns (r: Result<CpModel, LoweringError>)
    requires ReferencesAligned(sc) && WindowsOpen(sc)
    ensures r.Ok? <==> StartsExist(sc)
    ensures r.Err? ==> r.error == ModelContractViolation
    ensures r.Ok? ==> fresh(r.value) && r.value.constraints == TaskRows(sc, |sc.tasks|)
  {
    hide TaskConstraints, ReferencesAligned;
    var model := new CpModel();
    for k := 0 to |sc.tasks|
      invariant fresh(model) && model.constraints == TaskRows(sc, k)
      invariant forall t :: 0 <= t < k && sc.tasks[t].spec.FixedShape? ==>
        StartCount(sc.tasks[t].spec.shape, WindowAt(sc, t)) > 0
    {
      AlignedLength(sc, k);
      var refused := model.AddTask(sc.slots, sc.tasks[k], k, WindowAt(sc, k));
      if refused {
        return Err(ModelContractViolation);
      }
    }
    return Ok(model);
  }

  /** `compile_scenario_model`: refused exactly when a time charge cannot price some slot or a fixed
      shape has no start; otherwise the model holds the constraints of the scenario and no others. */
  method CompileScenarioModel(sc: Scenario, rules: seq<Rule>) returns (r: Result<CpModel, LoweringError>)
    requires ReferencesAligned(sc) && WindowsOpen(sc) && WellFormed(rules, |sc.slots|)
    ensures r.Ok? <==> Lowerable(rules, |sc.slots|) && StartsExist(sc)
    ensures r == Err(ModelContractViolation) <==> Lowerable(rules, |sc.slots|) && !StartsExist(sc)
    ensures r.Err? && r.error != ModelContractViolation ==> exists i: nat :: NotLowerable(rules, i, r.error)
    ensures r.Ok? ==> fresh(r.value) && r.value.constraints == Lowered(sc, rules)
  {
    hide TaskRows, CapRows, RateRows, WellFormed, Priced, StartsExist, ReferencesAligned, WindowsOpen;
    var unpriced := CheckLowerable(rules, |sc.slots|);
    if unpriced.Some? {
      return Err(unpriced.value);
    }
    r := CompileTasks(sc);
    if r.Err? {
      return r;
    }
    var model := r.value;
    model.AddCaps(sc);
    for i := 0 to |rules|
      invariant fresh(model)
      invariant model.constraints == TaskRows(sc, |sc.tasks|) + CapRows(sc, |sc.slots|) + CostRows(sc, rules, i)
    {
      if IsTimeCharge(rules[i]) {
        model.AddRates(sc, PeriodsAt(rules, i, |sc.slots|), rules[i].charge.rates, i);
      }
    }
    return Ok(model);
  }

  lemma {:induction false} AlignedLength(sc: Scenario, t: nat)
    requires ReferencesAligned(sc) && t < |sc.tasks|
    ensures |sc.tasks[t].reference| == |sc.slots|
  {
  }
}
