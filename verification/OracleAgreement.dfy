/** The qualification run's own comparison: on the oracle's scenarios the exact optimizer returns a
  member of the oracle's optimum set, with the oracle's objective (scripts/qualify_m4.py and
  scripts/qualify_m8_correctness.py against packages/optimizer/ratereplay_optimizer/solver.py). */
module OracleAgreement {
  import opened Results
  import opened Sums
  import opened Billing
  import opened BillSplit
  import opened Scenarios
  import opened Lowering
  import opened LoweredModel
  import opened Exactness
  import opened Staged
  import opened Oracle

  /** One interruptible load that may use every slot, with power to spare in each, and no caps. */
  predicate OracleScenario(sc: Scenario) {
    && |sc.tasks| == 1 && sc.siteCap.None? && sc.flexibleCap.None?
    && sc.tasks[0].spec.Interruptible? && sc.tasks[0].spec.minimumPower == 0
    && WindowOf(sc.slots, sc.tasks[0]) == Some(Window(0, |sc.slots|))
    && forall i :: 0 <= i < |sc.slots| ==>
         sc.tasks[0].required * WATT_SECONDS_PER_WATT_HOUR <= sc.tasks[0].spec.maximumPower * sc.slots[i].duration
  }

  function ReferenceOf(sc: Scenario): seq<int>
    requires OracleScenario(sc)
  {
    Energies(sc.tasks[0].reference)
  }

  /** On such a scenario the admitted schedules are exactly the enumerated tuples. */
  lemma {:induction false} AdmittedIsEnumerated(sc: Scenario, a: seq<int>)
    requires OracleScenario(sc) && ReferencesAligned(sc) && WindowsOpen(sc)
    ensures Admits(sc, [a]) <==> Composes(a, sc.tasks[0].required, |sc.slots|)
  {
    hide Sum, WindowOf, Background, Aligned;
    if Composes(a, sc.tasks[0].required, |sc.slots|) {
      SumNonnegative(a);
      forall i | 0 <= i < |a|
        ensures (a[i] > 0 ==> 0 <= i < |sc.slots|) && WithinPower(sc.tasks[0].spec, sc.slots[i], a[i])
      {
        assert 0 * sc.slots[i].duration == 0;
      }
      assert Feasible(sc.slots, sc.tasks[0], Window(0, |sc.slots|), a);
    }
    if Admits(sc, [a]) {
      assert Feasible(sc.slots, sc.tasks[0], Window(0, |sc.slots|), [a][0]);
    }
  }

  /** The scripts' cost is the replayed bill of the resulting profile. */
  ghost predicate ReplaysBill(cost: Cost, sc: Scenario, rules: seq<Rule>, account: Account)
    requires OracleScenario(sc) && ReferencesAligned(sc) && WellFormed(rules, |sc.slots|)
  {
    forall a :: Composes(a, sc.tasks[0].required, |sc.slots|) && Bill(sc, rules, account, [a]).Ok? ==>
      cost(a) == TotalCents(Bill(sc, rules, account, [a]).value)
  }

  /** Both sides score a schedule alike. */
  lemma {:induction false} ScoreIsObjective(sc: Scenario, rules: seq<Rule>, account: Account, cost: Cost, a: seq<int>)
    requires OracleScenario(sc) && ReferencesAligned(sc) && WellFormed(rules, |sc.slots|)
      && ReplaysBill(cost, sc, rules, account)
    requires Composes(a, sc.tasks[0].required, |sc.slots|) && Bill(sc, rules, account, [a]).Ok?
    ensures |ReferenceOf(sc)| == |sc.slots|
    ensures Score(sc, rules, account, [a]) == ObjectiveOf(cost, ReferenceOf(sc), a)
  {
    hide Replay, TotalCents, WellFormed, Sum, LastPositive, WindowOf;
    var es := [a];
    assert ChangedCount(sc, es, 0) == 0 && CompletionSum(es, 0) == 0 && StableScore(es, 0, |sc.slots|) == 0
      && Base(0, |sc.slots|) == 0;
    assert Changes(a, ReferenceOf(sc)) == ChangedFlags(sc.tasks[0], a);
  }

  /** With every stage proved optimal, the published schedule is in the oracle's optimum set and its
      objective is the oracle's optimum: the script's two comparisons cannot fail. */
  lemma {:induction false} ExactMatchesOracle(solve: Solver, sc: Scenario, rules: seq<Rule>, account: Account,
      cost: Cost,
                           best: Objective, attainers: set<seq<int>>)
    requires HonestSolver(solve) && Ready(sc, rules, account) && OracleScenario(sc)
      && ReplaysBill(cost, sc, rules, account)
    requires ExactSearch(solve, sc, rules, account).status == AllOptimal
    requires Optimum(cost, ReferenceOf(sc), sc.tasks[0].required, best, attainers)
    ensures var published := Published(solve, sc, rules, account);
            && |published| == 1 && published[0] in attainers
            && Bill(sc, rules, account, published).Ok? && Score(sc, rules, account, published) == best
  {
    hide HonestSolver, ExactSearch, Replay, WellFormed, UniqueIds, Typed, BackgroundNonnegative, Score, Published,
      ObjectiveOf,
         Less, Composes, ReplaysBill, OracleScenario;
    var published := Published(solve, sc, rules, account);
    PublishedIsVerified(solve, sc, rules, account);
    AdmitsShaped(sc, published);
    SingleRow(sc, published);
    var a := published[0];
    AdmittedIsEnumerated(sc, a);
    ScoreIsObjective(sc, rules, account, cost, a);
    var b :| b in attainers;
    AdmittedIsEnumerated(sc, b);
    PublishedIsOptimal(solve, sc, rules, account, [b]);
    ScoreIsObjective(sc, rules, account, cost, b);
    LessIsTotal(best, Score(sc, rules, account, published), best);
  }

  lemma {:induction false} SingleRow(sc: Scenario, es: Matrix)
    requires OracleScenario(sc) && Shaped(sc, es)
    ensures |es| == 1 && es == [es[0]]
  {
  }

  // ----- the script's own scenarios -----

  const HOUR := 3_600

  /** `_oracle_scenario`: three hours from `start`, a 10 W load that needs 10 Wh, and a measured profile that
      already contains its reference. */
  function ScriptScenario(start: int, reference: seq<int>): Scenario
    requires |reference| == 3
  {
    var slots := [Slot(start, HOUR, 100 + reference[0]),
                  Slot(start + HOUR * SECOND, HOUR, 120 + reference[1]),
                  Slot(start + 2 * HOUR * SECOND, HOUR, 80 + reference[2])];
    var schedule := [ScheduleSlot(start, HOUR, reference[0]),
                     ScheduleSlot(start + HOUR * SECOND, HOUR, reference[1]),
                     ScheduleSlot(start + 2 * HOUR * SECOND, HOUR, reference[2])];
    Scenario(slots, [Load(8, "m8-oracle-load")],
      [Task(8, 0, ShiftExisting, Interruptible(10, 0), 10, start, start + 3 * HOUR * SECOND, schedule)], None, None)
  }

  lemma {:induction false} ScriptWindow(start: int, reference: seq<int>)
    requires |reference| == 3
    ensures var sc := ScriptScenario(start, reference); WindowOf(sc.slots, sc.tasks[0]) == Some(Window(0, 3))
  {
    var slots := ScriptScenario(start, reference).slots;
    assert StartIndex(slots, 1, start) == Some(0);
    assert StartIndex(slots, 2, start) == Some(0);
    assert StartIndex(slots, 3, start) == Some(0);
  }

  lemma {:induction false} ScriptBackground(start: int, reference: seq<int>)
    requires |reference| == 3
    ensures var sc := ScriptScenario(start, reference);
            ReferencesAligned(sc) && Background(sc) == [100, 120, 80] && References(sc) == [reference]
  {
    var sc := ScriptScenario(start, reference);
    assert Energies(sc.tasks[0].reference) == reference;
    forall i | 0 <= i < 3
      ensures ShiftSum(sc.tasks, 1, i) == reference[i]
    {
      assert ShiftSum(sc.tasks, 0, i) == 0;
    }
  }

  /** Every scenario of the script meets the conditions of the comparison, whatever tariff can bill it. */
  lemma {:induction false} ScriptScenarioIsReady(start: int, reference: seq<int>, rules: seq<Rule>, account: Account)
    requires Composes(reference, 10, 3) && WellFormed(rules, 3) && UniqueIds(rules)
    requires Replay(rules, account, [100 + reference[0], 120 + reference[1], 80 + reference[2]]).Ok?
    ensures var sc := ScriptScenario(start, reference);
            OracleScenario(sc) && Ready(sc, rules, account) && ReferenceOf(sc) == reference
  {
    hide Replay, WellFormed, UniqueIds, WindowOf, Background, Sum, ShiftSum, ColumnSum;
    var sc := ScriptScenario(start, reference);
    ScriptWindow(start, reference);
    ScriptBackground(start, reference);
    AdmittedIsEnumerated(sc, reference);
    ScriptProfile(start, reference);
  }

  lemma {:induction false} ScriptProfile(start: int, reference: seq<int>)
    requires |reference| == 3
    ensures var sc := ScriptScenario(start, reference);
            && ReferencesAligned(sc) && References(sc) == [reference] && Shaped(sc, References(sc))
            && Profile(sc, References(sc)) == [100 + reference[0], 120 + reference[1], 80 + reference[2]]
  {
    var sc := ScriptScenario(start, reference);
    ScriptBackground(start, reference);
    forall i | 0 <= i < 3
      ensures ColumnSum([reference], 1, i) == reference[i]
    {
      assert ColumnSum([reference], 0, i) == 0;
    }
  }
}
