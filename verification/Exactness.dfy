/** The lowered model and the independent verifier accept the same schedules and score them alike. */
module Exactness {
  import opened Arithmetic
  import opened Billing
  import opened BillSplit
  import opened Scenarios
  import opened Cp
  import opened Lowering
  import opened LoweredModel

  /** The verifier's objective tuple (packages/optimizer/ratereplay_optimizer/verification.py). */
  datatype Objective = Objective(cost: int, changed: int, completion: int, stable: int)

  /** A scenario with an admitted reference, and a tariff that can bill it. */
  ghost predicate Ready(sc: Scenario, rules: seq<Rule>, account: Account) {
    && Prepared(sc) && WellFormed(rules, |sc.slots|) && UniqueIds(rules)
    && Admits(sc, References(sc))
    && Replay(rules, account, Profile(sc, References(sc))).Ok?
  }

  /** The bill of a schedule, computed afresh from its profile. */
  ghost function Bill(sc: Scenario, rules: seq<Rule>, account: Account, es: Matrix): Lines
    requires ReferencesAligned(sc) && Shaped(sc, es) && WellFormed(rules, |sc.slots|)
  {
    Replay(rules, account, Profile(sc, es))
  }

  ghost function Score(sc: Scenario, rules: seq<Rule>, account: Account, es: Matrix): Objective
    requires ReferencesAligned(sc) && Shaped(sc, es) && WellFormed(rules, |sc.slots|)
      && Bill(sc, rules, account, es).Ok?
  {
    Objective(TotalCents(Bill(sc, rules, account, es).value),
              ChangedCount(sc, es, |es|),
              CompletionSum(es, |es|),
              StableScore(es, |es|, |sc.slots|))
  }

  /** The cost that the lowering takes as a constant. */
  ghost function Constant(sc: Scenario, rules: seq<Rule>, account: Account): int
    requires Ready(sc, rules, account)
  {
    ConstantCost(rules, Replay(rules, account, Profile(sc, References(sc))).value)
  }

  ghost function StagesOf(sc: Scenario, rules: seq<Rule>, account: Account): seq<Linear>
    requires Ready(sc, rules, account)
  {
    Stages(sc, rules, Constant(sc, rules, account))
  }

  /** The four stage values under an assignment. */
  ghost function StageValues(a: Assignment, sc: Scenario, rules: seq<Rule>, account: Account): Objective
    requires Ready(sc, rules, account)
  {
    var stages := StagesOf(sc, rules, account);
    Objective(Eval(a, stages[0]), Eval(a, stages[1]), Eval(a, stages[2]), Eval(a, stages[3]))
  }

  /** Every admitted schedule can be billed, and its bill is the constant plus its variable part. */
  lemma {:induction false} AdmittedBill(sc: Scenario, rules: seq<Rule>, account: Account, es: Matrix)
    requires Ready(sc, rules, account) && Admits(sc, es)
    ensures Bill(sc, rules, account, es).Ok?
    ensures TotalCents(Bill(sc, rules, account, es).value)
         == Constant(sc, rules, account) + VariableCents(rules, |rules|, Profile(sc, es))
  {
    hide Admits, Replay, TotalCents, ConstantCost, VariableCents, UniqueIds, WellFormed, Typed, BackgroundNonnegative,
      Background;
    AdmitsShaped(sc, es);
    ProfileEnergyIsInvariant(sc, es);
    ProfileEnergyIsInvariant(sc, References(sc));
    ConstantCostIsExact(rules, account, Profile(sc, References(sc)), Profile(sc, es));
  }

  lemma {:induction false} AdmitsShaped(sc: Scenario, es: Matrix)
    requires ReferencesAligned(sc) && WindowsOpen(sc) && Admits(sc, es)
    ensures Shaped(sc, es)
  {
  }

  lemma {:induction false} SolutionAdmits(a: Assignment, sc: Scenario, rules: seq<Rule>)
    requires ReferencesAligned(sc) && WindowsOpen(sc) && WellFormed(rules, |sc.slots|) && Solution(a, sc, rules)
    ensures Admits(sc, Extract(a, sc))
  {
    hide Feasible, TaskHolds, CostHolds, WithinCaps, WellFormed;
    forall t | 0 <= t < |sc.tasks|
      ensures Feasible(sc.slots, sc.tasks[t], WindowOf(sc.slots, sc.tasks[t]).value, Extract(a, sc)[t])
    {
      TaskHoldsFeasible(a, sc, t);
    }
  }

  /** Soundness: whatever satisfies the lowered model is a schedule the verifier accepts, with a
      fresh bill, and the four solver expressions are the four numbers the verifier recomputes. */
  lemma {:induction false} LoweringIsSound(a: Assignment, sc: Scenario, rules: seq<Rule>, account: Account)
    requires Ready(sc, rules, account) && Satisfies(a, Lowered(sc, rules))
    ensures Admits(sc, Extract(a, sc)) && Bill(sc, rules, account, Extract(a, sc)).Ok?
    ensures StageValues(a, sc, rules, account) == Score(sc, rules, account, Extract(a, sc))
  {
    hide Satisfies, Lowered, Admits, Replay, WellFormed, UniqueIds, Typed, BackgroundNonnegative, ConstantCost,
         VariableCents, TaskHolds, CostHolds, WithinCaps, TotalCents, TermValues, ChangedCount, CompletionSum,
           StableScore, Profile, Extract;
    LoweredMeaning(a, sc, rules);
    SolutionAdmits(a, sc, rules);
    AdmittedBill(sc, rules, account, Extract(a, sc));
    SolutionIsBounded(a, sc);
    CostTermsValue(a, rules, |rules|, Profile(sc, Extract(a, sc)));
    ChangedTermsValue(a, sc, |sc.tasks|);
    CompletionVarsValue(a, sc, |sc.tasks|);
    StableTermsValue(a, sc, |sc.tasks|);
  }

  // ----- completeness -----

  /** Where a fixed shape sits in a vector that executes it. */
  ghost function StartOf(slots: seq<Slot>, spec: Spec, w: Window, e: seq<int>): nat
    requires |e| == |slots| && Executes(slots, spec, w, e)
  {
    match spec
    case Interruptible(_, _) => 0
    case FixedShape(shape) =>
      var c: nat :| w.first <= c <= w.last - |shape| && e == Placed(shape, c, |slots|);
      c
  }

  function Flags(n: nat, k: nat): seq<int> {
    seq(n, i requires 0 <= i < n => Flag(i == k))
  }

  function Positive(e: seq<int>): seq<int> {
    seq(|e|, i requires 0 <= i < |e| => Flag(e[i] > 0))
  }

  ghost function RateQuantities(rules: seq<Rule>, r: nat, profile: seq<int>): seq<int>
    requires WellFormed(rules, |profile|) && r < |rules|
  {
    if IsTimeCharge(rules[r]) && Resolves(rules[r], rules) then
      var rates, periods := rules[r].charge.rates, PeriodsAt(rules, r, |profile|);
      seq(|rates|, j requires 0 <= j < |rates| => PeriodEnergy(periods, profile, rates[j].period))
    else []
  }

  ghost function RateRounded(rules: seq<Rule>, r: nat, profile: seq<int>): seq<int>
    requires WellFormed(rules, |profile|) && r < |rules|
  {
    var quantities := RateQuantities(rules, r, profile);
    seq(|quantities|, j requires 0 <= j < |quantities| =>
      Quotient(Abs(rules[r].charge.rates[j].rate) * quantities[j] + HALF_CENT, WATT_HOUR_RATE_TO_CENTS))
  }

  ghost function StartRow(sc: Scenario, es: Matrix, t: nat): seq<int>
    requires ReferencesAligned(sc) && WindowsOpen(sc) && Admits(sc, es) && t < |es|
  {
    Flags(|sc.slots|, StartOf(sc.slots, sc.tasks[t].spec, WindowAt(sc, t), es[t]))
  }

  /** The assignment that an admitted schedule determines. */
  ghost function Witness(sc: Scenario, rules: seq<Rule>, es: Matrix): Assignment
    requires ReferencesAligned(sc) && WindowsOpen(sc) && WellFormed(rules, |sc.slots|) && Admits(sc, es)
  {
    Assignment(
      es,
      seq(|es|, t requires 0 <= t < |es| => Positive(es[t])),
      seq(|es|, t requires 0 <= t < |es| => StartRow(sc, es, t)),
      seq(|es|, t requires 0 <= t < |es| => ChangedFlags(sc.tasks[t], es[t])),
      seq(|es|, t requires 0 <= t < |es| => Positive(es[t])),
      seq(|es|, t requires 0 <= t < |es| => LastPositive(es[t], |es[t]|)),
      seq(|rules|, r requires 0 <= r < |rules| => RateQuantities(rules, r, Profile(sc, es))),
      seq(|rules|, r requires 0 <= r < |rules| => RateRounded(rules, r, Profile(sc, es))))
  }

  lemma {:induction false} WitnessExtracts(sc: Scenario, rules: seq<Rule>, es: Matrix)
    requires ReferencesAligned(sc) && WindowsOpen(sc) && WellFormed(rules, |sc.slots|) && Admits(sc, es)
    ensures Extract(Witness(sc, rules, es), sc) == es
  {
    hide Feasible, WithinCaps, StartRow, ChangedFlags, Positive, LastPositive, RateQuantities, RateRounded, WellFormed;
    var a := Witness(sc, rules, es);
    forall t | 0 <= t < |sc.tasks|
      ensures Row(a, t, |sc.slots|) == es[t]
    {
    }
  }

  lemma {:induction false} WitnessRealises(sc: Scenario, rules: seq<Rule>, es: Matrix, t: nat)
    requires Typed(sc) && ReferencesAligned(sc) && WindowsOpen(sc) && WellFormed(rules, |sc.slots|) && Admits(sc, es)
      && t < |es|
    ensures Realises(Witness(sc, rules, es), sc.tasks[t].spec, t, WindowAt(sc, t), es[t])
  {
    hide WithinCaps, ChangedFlags, LastPositive, RateQuantities, RateRounded, WellFormed, Placed;
    var a, w, spec := Witness(sc, rules, es), WindowAt(sc, t), sc.tasks[t].spec;
    WindowBounds(sc.slots, sc.tasks[t]);
    if spec.FixedShape? {
      var c := StartOf(sc.slots, spec, w, es[t]);
      StartCountMeaning(spec.shape, w, c);
      assert Chosen(a, t, w.first, StartCount(spec.shape, w), c) by {
        forall d: nat | w.first <= d < w.first + StartCount(spec.shape, w)
          ensures Value(a, Start(t, d)) == if d == c then 1 else 0
        {
          StartCountMeaning(spec.shape, w, d);
          assert a.start[t] == Flags(|sc.slots|, c) && d < |sc.slots|;
          assert Flags(|sc.slots|, c)[d] == Flag(d == c);
        }
      }
    }
  }

  lemma {:induction false} WitnessTracks(sc: Scenario, rules: seq<Rule>, es: Matrix, t: nat)
    requires ReferencesAligned(sc) && WindowsOpen(sc) && WellFormed(rules, |sc.slots|) && Admits(sc, es) && t < |es|
    ensures Tracks(Witness(sc, rules, es), sc.tasks[t], t, es[t])
  {
    hide Feasible, WithinCaps, StartRow, LastPositive, RateQuantities, RateRounded, WellFormed;
  }

  lemma {:induction false} WitnessCosts(sc: Scenario, rules: seq<Rule>, es: Matrix, r: nat)
    requires ReferencesAligned(sc) && WindowsOpen(sc) && WellFormed(rules, |sc.slots|) && Admits(sc, es) && r < |rules|
    ensures CostHolds(Witness(sc, rules, es), rules, r, Profile(sc, es))
  {
    hide Feasible, WithinCaps, StartRow, LastPositive, WellFormed, Profile, Positive, ChangedFlags, PeriodEnergy,
      Quotient, Resolves;
    var a, profile := Witness(sc, rules, es), Profile(sc, es);
    if IsTimeCharge(rules[r]) && Resolves(rules[r], rules) {
      assert a.quantity[r] == RateQuantities(rules, r, profile) && a.cents[r] == RateRounded(rules, r, profile);
    }
  }

  /** Completeness: every schedule the verifier accepts satisfies the lowered model. */
  lemma {:induction false} LoweringIsComplete(sc: Scenario, rules: seq<Rule>, es: Matrix)
    requires Prepared(sc) && WellFormed(rules, |sc.slots|) && Admits(sc, es)
    ensures Satisfies(Witness(sc, rules, es), Lowered(sc, rules)) && Extract(Witness(sc, rules, es), sc) == es
  {
    hide Satisfies, Lowered, Feasible, Realises, Tracks, CostHolds, Witness, WellFormed, Row, WithinCaps;
    var a := Witness(sc, rules, es);
    WitnessExtracts(sc, rules, es);
    forall t | 0 <= t < |sc.tasks|
      ensures TaskHolds(a, sc, t)
    {
      WitnessRealises(sc, rules, es, t);
      WitnessTracks(sc, rules, es, t);
      assert Row(a, t, |sc.slots|) == es[t] by {
        assert Extract(a, sc)[t] == es[t];
      }
    }
    forall r | 0 <= r < |rules|
      ensures CostHolds(a, rules, r, Profile(sc, Extract(a, sc)))
    {
      WitnessCosts(sc, rules, es, r);
    }
    LoweredMeaning(a, sc, rules);
  }
}
