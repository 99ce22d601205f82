/** What the optimizer may leave out of its cost: every charge that does not depend on when the
  energy is used (packages/optimizer/ratereplay_optimizer/lowering.py, the omitted-charge proofs and
  the constant supported cost). */
module BillSplit {
  import opened Results
  import opened Sums
  import opened Rounding
  import opened Billing

  /** The cents of the first `n` rates of one time-of-use rule, each period rounded by itself. */
  function RateCents(rates: seq<PeriodRate>, n: nat, periods: seq<Option<Period>>, energy: seq<int>): int
    requires n <= |rates| && |periods| == |energy|
  {
    if n == 0 then 0 else
    RateCents(rates, n - 1, periods, energy)
    + EnergyCents(PeriodEnergy(periods, energy, rates[n - 1].period), rates[n - 1].rate)
  }

  predicate IsTimeCharge(rule: Rule) {
    rule.applies && rule.charge.TimeOfUse?
  }

  /** The schedule a time charge refers to, when there is exactly one. */
  predicate Resolves(rule: Rule, rules: seq<Rule>) {
    rule.charge.TimeOfUse? && |SchedulesOf(rules, rule.charge.scheduleId)| == 1
  }

  function PeriodsOf(rule: Rule, rules: seq<Rule>): seq<Option<Period>>
    requires Resolves(rule, rules)
  {
    SchedulesOf(rules, rule.charge.scheduleId)[0]
  }

  function VariableOf(rule: Rule, rules: seq<Rule>, energy: seq<int>): int
    requires WellFormed(rules, |energy|)
  {
    if !IsTimeCharge(rule) || !Resolves(rule, rules) then 0 else
    SchedulesOfWellFormed(rules, rule.charge.scheduleId, |energy|);
    RateCents(rule.charge.rates, |rule.charge.rates|, PeriodsOf(rule, rules), energy)
  }

  /** The part of the first `n` rules' bill that depends on when the energy is used. */
  function VariableCents(rules: seq<Rule>, n: nat, energy: seq<int>): int
    requires WellFormed(rules, |energy|) && n <= |rules|
  {
    if n == 0 then 0 else VariableCents(rules, n - 1, energy) + VariableOf(rules[n - 1], rules, energy)
  }

  lemma {:induction false} TotalConcat(a: seq<Line>, b: seq<Line>)
    ensures TotalCents(a + b) == TotalCents(a) + TotalCents(b)
  {
    if b == [] {
      assert a + b == a;
    } else {
      assert (a + b)[..|a + b| - 1] == a + b[..|b| - 1];
      TotalConcat(a, b[..|b| - 1]);
    }
  }

  lemma {:induction false} NoEnergyNoCents(rate: int)
    ensures EnergyCents(0, rate) == 0
  {
  }

  lemma {:induction false} PeriodLinesTotal(rule: Rule, rates: seq<PeriodRate>, n: nat, periods: seq<Option<Period>>,
      energy: seq<int>)
    requires n <= |rates| && |periods| == |energy|
    ensures TotalCents(PeriodLines(rule, rates, n, periods, energy)) == RateCents(rates, n, periods, energy)
  {
    hide EnergyCents, PeriodEnergy, PeriodName, TotalCents;
    if n == 0 {
      TotalNone();
    } else {
      PeriodLinesTotal(rule, rates, n - 1, periods, energy);
      var r := rates[n - 1];
      var quantity := PeriodEnergy(periods, energy, r.period);
      var last := EnergyLine(rule, PeriodName(r.period), quantity, r.rate);
      TotalConcat(PeriodLines(rule, rates, n - 1, periods, energy), if quantity == 0 then [] else [last]);
      NoEnergyNoCents(r.rate);
      TotalNone();
      TotalOne(last);
    }
  }

  lemma {:induction false} TotalNone()
    ensures TotalCents([]) == 0
  {
  }

  lemma {:induction false} TotalOne(line: Line)
    ensures TotalCents([line]) == line.cents
  {
    assert [line][..0] == [];
  }

  /** Moving energy between slots, with its total unchanged, moves a rule's cents by its variable part. */
  lemma {:induction false} RuleSplits(rule: Rule, rules: seq<Rule>, account: Account, baseline: int, e: seq<int>,
      e': seq<int>)
    requires |e| == |e'| && Sum(e) == Sum(e') && WellFormed(rules, |e|) && rule in rules
    requires LinesOf(rule, rules, account, baseline, e).Ok?
    ensures LinesOf(rule, rules, account, baseline, e').Ok?
    ensures TotalCents(LinesOf(rule, rules, account, baseline, e').value) - VariableOf(rule, rules, e')
         == TotalCents(LinesOf(rule, rules, account, baseline, e).value) - VariableOf(rule, rules, e)
  {
    hide TotalCents, PeriodLines, RateCents, CreditLines, TierLines, SchedulesOf;
    if IsTimeCharge(rule) {
      var rates := rule.charge.rates;
      SchedulesOfWellFormed(rules, rule.charge.scheduleId, |e|);
      var periods := PeriodsOf(rule, rules);
      var credit := CreditLines(rule, rule.charge.credit, baseline, Sum(e));
      PeriodLinesTotal(rule, rates, |rates|, periods, e);
      PeriodLinesTotal(rule, rates, |rates|, periods, e');
      TotalConcat(PeriodLines(rule, rates, |rates|, periods, e), credit);
      TotalConcat(PeriodLines(rule, rates, |rates|, periods, e'), credit);
    }
  }

  lemma {:induction false} RulesSplit(rules: seq<Rule>, n: nat, account: Account, baseline: int, e: seq<int>,
      e': seq<int>)
    requires |e| == |e'| && Sum(e) == Sum(e') && WellFormed(rules, |e|) && n <= |rules|
    requires BillLines(rules, n, account, baseline, e).Ok?
    ensures BillLines(rules, n, account, baseline, e').Ok?
    ensures TotalCents(BillLines(rules, n, account, baseline, e').value) - VariableCents(rules, n, e')
         == TotalCents(BillLines(rules, n, account, baseline, e).value) - VariableCents(rules, n, e)
  {
    hide TotalCents, LinesOf, VariableOf;
    if n > 0 {
      RulesSplit(rules, n - 1, account, baseline, e, e');
      RuleSplits(rules[n - 1], rules, account, baseline, e, e');
      TotalConcat(BillLines(rules, n - 1, account, baseline, e).value,
        LinesOf(rules[n - 1], rules, account, baseline, e).value);
      TotalConcat(BillLines(rules, n - 1, account, baseline, e').value,
        LinesOf(rules[n - 1], rules, account, baseline, e').value);
    }
  }

  /** A bill that can be computed for one placement of the energy can be computed for every other,
      and the two bills differ by their variable parts only. */
  lemma {:induction false} BillSplits(rules: seq<Rule>, account: Account, e: seq<int>, e': seq<int>)
    requires |e| == |e'| && Sum(e) == Sum(e') && WellFormed(rules, |e|)
    requires Replay(rules, account, e).Ok?
    ensures Replay(rules, account, e').Ok?
    ensures TotalCents(Replay(rules, account, e').value) - VariableCents(rules, |rules|, e')
         == TotalCents(Replay(rules, account, e).value) - VariableCents(rules, |rules|, e)
  {
    hide TotalCents, VariableCents, BillLines;
    RulesSplit(rules, |rules|, account, Baseline(rules, account.days).value, e, e');
  }

  // ----- recognising the variable lines of the reference bill by their keys -----

  ghost predicate UniqueIds(rules: seq<Rule>) {
    forall i, j :: 0 <= i < j < |rules| ==> rules[i].id != rules[j].id
  }

  /** The key of a variable line of the rule. */
  ghost predicate IsVariableKey(rule: Rule, key: string) {
    && IsTimeCharge(rule)
    && exists j :: 0 <= j < |rule.charge.rates| && key == rule.key + PeriodName(rule.charge.rates[j].period)
  }

  /** `variable_reference_keys`: the (rule, key) pairs of every rate of every active time charge. */
  ghost predicate VariableKey(rules: seq<Rule>, id: nat, key: string) {
    exists i :: 0 <= i < |rules| && rules[i].id == id && IsVariableKey(rules[i], key)
  }

  /** `reference_variable_cents`: the cents of the lines whose pair is among them. */
  ghost function CentsWithKeys(rules: seq<Rule>, lines: seq<Line>): int {
    if lines == [] then 0 else
    var last := lines[|lines| - 1];
    CentsWithKeys(rules, lines[..|lines| - 1]) + if VariableKey(rules, last.rule, last.key) then last.cents else 0
  }

  ghost function ConstantCost(rules: seq<Rule>, reference: seq<Line>): int {
    TotalCents(reference) - CentsWithKeys(rules, reference)
  }

  lemma {:induction false} KeysConcat(rules: seq<Rule>, a: seq<Line>, b: seq<Line>)
    ensures CentsWithKeys(rules, a + b) == CentsWithKeys(rules, a) + CentsWithKeys(rules, b)
  {
    if b == [] {
      assert a + b == a;
    } else {
      assert (a + b)[..|a + b| - 1] == a + b[..|b| - 1];
      KeysConcat(rules, a, b[..|b| - 1]);
    }
  }

  lemma {:induction false} AllKeys(rules: seq<Rule>, lines: seq<Line>)
    requires forall i :: 0 <= i < |lines| ==> VariableKey(rules, lines[i].rule, lines[i].key)
    ensures CentsWithKeys(rules, lines) == TotalCents(lines)
  {
    if lines != [] {
      AllKeys(rules, lines[..|lines| - 1]);
    }
  }

  lemma {:induction false} NoKeys(rules: seq<Rule>, lines: seq<Line>)
    requires forall i :: 0 <= i < |lines| ==> !VariableKey(rules, lines[i].rule, lines[i].key)
    ensures CentsWithKeys(rules, lines) == 0
  {
    if lines != [] {
      NoKeys(rules, lines[..|lines| - 1]);
    }
  }

  lemma {:induction false} PeriodLineKeys(rule: Rule, rates: seq<PeriodRate>, n: nat, periods: seq<Option<Period>>,
      energy: seq<int>)
    requires n <= |rates| && |periods| == |energy|
    ensures forall i :: 0 <= i < |PeriodLines(rule, rates, n, periods, energy)| ==>
      var line := PeriodLines(rule, rates, n, periods, energy)[i];
      line.rule == rule.id && exists j :: 0 <= j < |rates| && line.key == rule.key + PeriodName(rates[j].period)
  {
    hide EnergyCents, PeriodEnergy, PeriodName;
    if n > 0 {
      PeriodLineKeys(rule, rates, n - 1, periods, energy);
    }
  }

  lemma {:induction false} ShareLineRules(rule: Rule, tiers: seq<Tier>, shares: seq<int>, n: nat)
    requires n <= |shares| <= |tiers|
    ensures forall i :: 0 <= i < |ShareLines(rule, tiers, shares, n)| ==>
      ShareLines(rule, tiers, shares, n)[i].rule == rule.id
  {
    if n > 0 {
      ShareLineRules(rule, tiers, shares, n - 1);
    }
  }

  /** A key of the rule `id` can only come from that rule. */
  lemma {:induction false} KeyOfOneRule(rules: seq<Rule>, i: nat, key: string)
    requires UniqueIds(rules) && i < |rules|
    ensures VariableKey(rules, rules[i].id, key) <==> IsVariableKey(rules[i], key)
  {
    hide IsVariableKey;
    if VariableKey(rules, rules[i].id, key) {
      var k :| 0 <= k < |rules| && rules[k].id == rules[i].id && IsVariableKey(rules[k], key);
      assert k == i;
    }
  }

  lemma {:induction false} CreditKeyIsNotVariable(rule: Rule)
    ensures !IsVariableKey(rule, rule.key + ".baseline_credit")
  {
    forall period: Period
      ensures rule.key + PeriodName(period) != rule.key + ".baseline_credit"
    {
      assert |PeriodName(period)| != |".baseline_credit"|;
    }
  }

  lemma {:induction false} RuleVariableKeys(rules: seq<Rule>, i: nat, account: Account, baseline: int, e: seq<int>)
    requires UniqueIds(rules) && i < |rules| && WellFormed(rules, |e|)
    requires LinesOf(rules[i], rules, account, baseline, e).Ok?
    ensures CentsWithKeys(rules, LinesOf(rules[i], rules, account, baseline, e).value) == VariableOf(rules[i], rules, e)
  {
    hide CentsWithKeys, VariableKey, IsVariableKey, LinesOf, RateCents;
    var rule := rules[i];
    var lines := LinesOf(rule, rules, account, baseline, e).value;
    if IsTimeCharge(rule) {
      TimeChargeKeys(rules, i, account, baseline, e);
    } else {
      OtherLineRules(rule, rules, account, baseline, e);
      forall k | 0 <= k < |lines|
        ensures !VariableKey(rules, lines[k].rule, lines[k].key)
      {
        KeyOfOneRule(rules, i, lines[k].key);
        NotTimeChargeNoKey(rule, lines[k].key);
      }
      NoKeys(rules, lines);
    }
  }

  lemma {:induction false} OtherLineRules(rule: Rule, rules: seq<Rule>, account: Account, baseline: int, e: seq<int>)
    requires WellFormed(rules, |e|) && rule in rules && !IsTimeCharge(rule)
    requires LinesOf(rule, rules, account, baseline, e).Ok?
    ensures var lines := LinesOf(rule, rules, account, baseline, e).value;
            forall k :: 0 <= k < |lines| ==> lines[k].rule == rule.id
  {
    hide ShareLines, CentsOf, SchedulesOf;
    if rule.applies && rule.charge.TieredEnergy? {
      var shares := TierShares(rule.charge.tiers, 0, baseline, Sum(e), 0);
      TierSharesFit(rule.charge.tiers, 0, baseline, Sum(e), 0);
      ShareLineRules(rule, rule.charge.tiers, shares.value, |shares.value|);
    }
  }

  lemma {:induction false} NotTimeChargeNoKey(rule: Rule, key: string)
    requires !IsTimeCharge(rule)
    ensures !IsVariableKey(rule, key)
  {
  }

  lemma {:induction false} TimeChargeKeys(rules: seq<Rule>, i: nat, account: Account, baseline: int, e: seq<int>)
    requires UniqueIds(rules) && i < |rules| && WellFormed(rules, |e|) && IsTimeCharge(rules[i])
    requires LinesOf(rules[i], rules, account, baseline, e).Ok?
    ensures CentsWithKeys(rules, LinesOf(rules[i], rules, account, baseline, e).value) == VariableOf(rules[i], rules, e)
  {
    hide CentsWithKeys, VariableKey, PeriodLines, RateCents, EnergyCents, SchedulesOf, TotalCents, PeriodName;
    var rule := rules[i];
    var rates := rule.charge.rates;
    SchedulesOfWellFormed(rules, rule.charge.scheduleId, |e|);
    var periods := PeriodsOf(rule, rules);
    var timed := PeriodLines(rule, rates, |rates|, periods, e);
    var credit := CreditLines(rule, rule.charge.credit, baseline, Sum(e));
    PeriodLineKeys(rule, rates, |rates|, periods, e);
    forall k | 0 <= k < |timed|
      ensures VariableKey(rules, timed[k].rule, timed[k].key)
    {
      KeyOfOneRule(rules, i, timed[k].key);
    }
    AllKeys(rules, timed);
    PeriodLinesTotal(rule, rates, |rates|, periods, e);
    KeyOfOneRule(rules, i, rule.key + ".baseline_credit");
    CreditKeyIsNotVariable(rule);
    NoKeys(rules, credit);
    KeysConcat(rules, timed, credit);
  }

  lemma {:induction false} BillVariableKeys(rules: seq<Rule>, n: nat, account: Account, baseline: int, e: seq<int>)
    requires UniqueIds(rules) && n <= |rules| && WellFormed(rules, |e|)
    requires BillLines(rules, n, account, baseline, e).Ok?
    ensures CentsWithKeys(rules, BillLines(rules, n, account, baseline, e).value) == VariableCents(rules, n, e)
  {
    hide CentsWithKeys, LinesOf, VariableOf;
    if n == 0 {
      NoKeys(rules, []);
    } else {
      BillVariableKeys(rules, n - 1, account, baseline, e);
      RuleVariableKeys(rules, n - 1, account, baseline, e);
      KeysConcat(rules, BillLines(rules, n - 1, account, baseline, e).value,
        LinesOf(rules[n - 1], rules, account, baseline, e).value);
    }
  }

  /** The constant taken from the reference bill plus the variable part of any other placement of the
      same energy is that placement's bill, to the cent. */
  lemma {:induction false} ConstantCostIsExact(rules: seq<Rule>, account: Account, reference: seq<int>, e: seq<int>)
    requires |reference| == |e| && Sum(reference) == Sum(e) && WellFormed(rules, |e|) && UniqueIds(rules)
    requires Replay(rules, account, reference).Ok?
    ensures Replay(rules, account, e).Ok?
    ensures TotalCents(Replay(rules, account, e).value)
         == ConstantCost(rules, Replay(rules, account, reference).value) + VariableCents(rules, |rules|, e)
  {
    hide TotalCents, VariableCents, BillLines, CentsWithKeys;
    BillSplits(rules, account, reference, e);
    BillVariableKeys(rules, |rules|, account, Baseline(rules, account.days).value, reference);
  }
}
