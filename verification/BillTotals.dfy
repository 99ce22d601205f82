/** What the lines of a bill add up to: how close the cents come to the exact amount, and how much of
  the energy the time-of-use lines account for (packages/tariffs/ratereplay_tariffs/billing.py). */
module BillTotals {
  import opened Arithmetic
  import opened Results
  import opened Sums
  import opened Rounding
  import opened Text
  import opened Billing

  // ----- rounding -----

  /** A line is its own fraction of microdollars, rounded to cents. */
  predicate Rounded(line: Line) {
    line.denominator in {1, WATT_HOURS_PER_KWH} && line.cents == CentsOf(line.numerator, line.denominator)
  }

  ghost predicate AllRounded(lines: seq<Line>) {
    forall i :: 0 <= i < |lines| ==> Rounded(lines[i])
  }

  lemma {:induction false} ShareLinesRounded(rule: Rule, tiers: seq<Tier>, shares: seq<int>, n: nat)
    requires n <= |shares| <= |tiers|
    ensures AllRounded(ShareLines(rule, tiers, shares, n))
  {
    hide CentsOf, Decimal;
    if n > 0 {
      ShareLinesRounded(rule, tiers, shares, n - 1);
    }
  }

  lemma {:induction false} PeriodLinesRounded(rule: Rule, rates: seq<PeriodRate>, n: nat, periods: seq<Option<Period>>,
      energy: seq<int>)
    requires n <= |rates| && |periods| == |energy|
    ensures AllRounded(PeriodLines(rule, rates, n, periods, energy))
  {
    hide CentsOf, PeriodEnergy;
    if n > 0 {
      PeriodLinesRounded(rule, rates, n - 1, periods, energy);
    }
  }

  lemma {:induction false} RuleRounded(rule: Rule, rules: seq<Rule>, account: Account, baseline: int, energy: seq<int>)
    requires WellFormed(rules, |energy|) && rule in rules && LinesOf(rule, rules, account, baseline, energy).Ok?
    ensures AllRounded(LinesOf(rule, rules, account, baseline, energy).value)
  {
    hide CentsOf, SchedulesOf, ShareLines, PeriodLines;
    if rule.applies {
      match rule.charge {
        case TieredEnergy(tiers) =>
          var shares := TierShares(tiers, 0, baseline, Sum(energy), 0).value;
          TierSharesFit(tiers, 0, baseline, Sum(energy), 0);
          ShareLinesRounded(rule, tiers, shares, |shares|);
        case TimeOfUse(id, rates, _) =>
          SchedulesOfWellFormed(rules, id, |energy|);
          PeriodLinesRounded(rule, rates, |rates|, SchedulesOf(rules, id)[0], energy);
        case _ =>
      }
    }
  }

  lemma {:induction false} RulesRounded(rules: seq<Rule>, n: nat, account: Account, baseline: int, energy: seq<int>)
    requires WellFormed(rules, |energy|) && n <= |rules| && BillLines(rules, n, account, baseline, energy).Ok?
    ensures AllRounded(BillLines(rules, n, account, baseline, energy).value)
  {
    hide LinesOf, Rounded;
    if n > 0 {
      RulesRounded(rules, n - 1, account, baseline, energy);
      RuleRounded(rules[n - 1], rules, account, baseline, energy);
    }
  }

  /** The exact amounts of the lines, in cents. */
  function Amounts(lines: seq<Line>): (amounts: seq<Exact>)
    ensures |amounts| == |lines|
  {
    seq(|lines|, i requires 0 <= i < |lines| => Exact(lines[i].numerator, lines[i].denominator * MICRODOLLARS_PER_CENT))
  }

  const COMMON := WATT_HOURS_PER_KWH * MICRODOLLARS_PER_CENT

  lemma {:induction false} AmountsDivide(lines: seq<Line>)
    requires AllRounded(lines)
    ensures Divides(Amounts(lines), COMMON)
  {
    hide CentsOf;
    forall i | 0 <= i < |lines|
      ensures Amounts(lines)[i].denominator > 0 && COMMON % Amounts(lines)[i].denominator == 0
    {
      assert Rounded(lines[i]);
    }
  }

  lemma {:induction false} TotalIsRoundedTotal(lines: seq<Line>)
    requires AllRounded(lines)
    ensures Divides(Amounts(lines), COMMON) && RoundedTotal(Amounts(lines), COMMON) == TotalCents(lines)
  {
    hide HalfUp;
    AmountsDivide(lines);
    if lines != [] {
      var n := |lines| - 1;
      assert Amounts(lines)[..n] == Amounts(lines[..n]);
      assert Rounded(lines[n]);
      TotalIsRoundedTotal(lines[..n]);
    }
  }

  /** The bill that the evaluator computes is within half a cent for each of its lines of the exact total. */
  lemma {:induction false} ReplayErrorBound(rules: seq<Rule>, account: Account, energy: seq<int>)
    requires WellFormed(rules, |energy|) && Replay(rules, account, energy).Ok?
    ensures var lines := Replay(rules, account, energy).value;
            && Divides(Amounts(lines), COMMON)
            && Abs(2 * (TotalCents(lines) * COMMON - ExactTotal(Amounts(lines), COMMON))) <= |lines| * COMMON
  {
    hide BillLines, WellFormed, Baseline, TotalCents, ExactTotal, RoundedTotal, Amounts, Rounded;
    var lines := Replay(rules, account, energy).value;
    RulesRounded(rules, |rules|, account, Baseline(rules, account.days).value, energy);
    TotalIsRoundedTotal(lines);
    BillErrorBound(Amounts(lines), COMMON);
  }

  // ----- the energy of the time-of-use lines -----

  function Quantities(lines: seq<Line>): int {
    if lines == [] then 0 else Quantities(lines[..|lines| - 1]) + lines[|lines| - 1].quantity
  }

  lemma {:induction false} QuantitiesSnoc(lines: seq<Line>, more: seq<Line>)
    requires |more| <= 1
    ensures Quantities(lines + more) == Quantities(lines) + if more == [] then 0 else more[0].quantity
  {
    if more == [] {
      assert lines + more == lines;
    } else {
      assert (lines + more)[..|lines|] == lines;
    }
  }

  predicate HasRateBelow(rates: seq<PeriodRate>, n: nat, period: Option<Period>)
    requires n <= |rates|
  {
    exists k :: 0 <= k < n && Some(rates[k].period) == period
  }

  /** The energy of the slots whose period is among the first `n` rates. */
  function Covered(rates: seq<PeriodRate>, n: nat, periods: seq<Option<Period>>, energy: seq<int>): (covered: seq<int>)
    requires n <= |rates| && |periods| == |energy|
    ensures |covered| == |energy|
  {
    seq(|energy|, i requires 0 <= i < |energy| => if HasRateBelow(rates, n, periods[i]) then energy[i] else 0)
  }

  function InPeriod(periods: seq<Option<Period>>, energy: seq<int>, period: Period): (e: seq<int>)
    requires |periods| == |energy|
    ensures |e| == |energy|
  {
    seq(|energy|, i requires 0 <= i < |energy| => if periods[i] == Some(period) then energy[i] else 0)
  }

  lemma {:induction false} PeriodEnergyIsSum(periods: seq<Option<Period>>, energy: seq<int>, period: Period)
    requires |periods| == |energy|
    ensures PeriodEnergy(periods, energy, period) == Sum(InPeriod(periods, energy, period))
  {
    if energy != [] {
      var n := |energy| - 1;
      PeriodEnergyIsSum(periods[..n], energy[..n], period);
      assert InPeriod(periods, energy, period)[..n] == InPeriod(periods[..n], energy[..n], period);
    }
  }

  predicate DistinctPeriods(rates: seq<PeriodRate>) {
    forall i, j :: 0 <= i < j < |rates| ==> rates[i].period != rates[j].period
  }

  lemma {:induction false} LinesGrow(rule: Rule, rates: seq<PeriodRate>, n: nat, periods: seq<Option<Period>>,
      energy: seq<int>)
    requires 0 < n <= |rates| && |periods| == |energy|
    ensures Quantities(PeriodLines(rule, rates, n, periods, energy))
         == Quantities(PeriodLines(rule, rates, n - 1, periods, energy))
           + PeriodEnergy(periods, energy, rates[n - 1].period)
  {
    hide EnergyCents, PeriodEnergy, Quantities, PeriodName;
    var rate := rates[n - 1];
    var quantity := PeriodEnergy(periods, energy, rate.period);
    QuantitiesSnoc(PeriodLines(rule, rates, n - 1, periods, energy),
                   if quantity == 0 then [] else [EnergyLine(rule, PeriodName(rate.period), quantity, rate.rate)]);
  }

  lemma {:induction false} CoverGrows(rates: seq<PeriodRate>, n: nat, periods: seq<Option<Period>>, energy: seq<int>)
    requires 0 < n <= |rates| && |periods| == |energy| && DistinctPeriods(rates)
    ensures Sum(Covered(rates, n, periods, energy))
         == Sum(Covered(rates, n - 1, periods, energy)) + PeriodEnergy(periods, energy, rates[n - 1].period)
  {
    hide Sum, PeriodEnergy, HasRateBelow, DistinctPeriods;
    var period := rates[n - 1].period;
    var before, own, after := Covered(rates, n - 1, periods, energy), InPeriod(periods, energy, period),
      Covered(rates, n, periods, energy);
    PeriodEnergyIsSum(periods, energy, period);
    forall i | 0 <= i < |energy|
      ensures after[i] == before[i] + own[i]
    {
      OneMoreRate(rates, n, periods[i]);
    }
    SumAdd(before, own, after);
  }

  lemma {:induction false} LinesCover(rule: Rule, rates: seq<PeriodRate>, n: nat, periods: seq<Option<Period>>,
      energy: seq<int>)
    requires n <= |rates| && |periods| == |energy| && DistinctPeriods(rates)
    ensures Quantities(PeriodLines(rule, rates, n, periods, energy)) == Sum(Covered(rates, n, periods, energy))
  {
    hide Sum, PeriodEnergy;
    if n == 0 {
      SumZero(Covered(rates, n, periods, energy));
    } else {
      hide PeriodLines, Covered, Quantities;
      LinesCover(rule, rates, n - 1, periods, energy);
      LinesGrow(rule, rates, n, periods, energy);
      CoverGrows(rates, n, periods, energy);
    }
  }

  lemma {:induction false} OneMoreRate(rates: seq<PeriodRate>, n: nat, period: Option<Period>)
    requires 0 < n <= |rates| && DistinctPeriods(rates)
    ensures HasRateBelow(rates, n, period) <==>
      HasRateBelow(rates, n - 1, period) || period == Some(rates[n - 1].period)
    ensures period == Some(rates[n - 1].period) ==> !HasRateBelow(rates, n - 1, period)
  {
    if HasRateBelow(rates, n - 1, period) {
      var k :| 0 <= k < n - 1 && Some(rates[k].period) == period;
      assert 0 <= k < n && Some(rates[k].period) == period;
    }
  }

  /** The energy of the slots whose period no rate prices. */
  function Unpriced(rates: seq<PeriodRate>, periods: seq<Option<Period>>, energy: seq<int>): (e: seq<int>)
    requires |periods| == |energy|
    ensures |e| == |energy|
  {
    seq(|energy|, i requires 0 <= i < |energy| => if HasRateBelow(rates, |rates|, periods[i]) then 0 else energy[i])
  }

  /** The time-of-use lines account for all the energy but that in periods without a rate, which the
      evaluator leaves out; so they hold exactly the energy if and only if there is none. */
  lemma {:induction false} PeriodsPartition(rule: Rule, rates: seq<PeriodRate>, periods: seq<Option<Period>>,
      energy: seq<int>)
    requires |periods| == |energy| && DistinctPeriods(rates)
    ensures var lines := PeriodLines(rule, rates, |rates|, periods, energy);
            && Quantities(lines) + Sum(Unpriced(rates, periods, energy)) == Sum(energy)
            && (Quantities(lines) == Sum(energy) <==> Sum(Unpriced(rates, periods, energy)) == 0)
  {
    hide Sum, PeriodLines, HasRateBelow;
    LinesCover(rule, rates, |rates|, periods, energy);
    SumAdd(Covered(rates, |rates|, periods, energy), Unpriced(rates, periods, energy), energy);
  }

  /** With nonnegative energy that is: every slot with energy falls into a priced period. */
  lemma {:induction false} UnpricedIsZero(rates: seq<PeriodRate>, periods: seq<Option<Period>>, energy: seq<int>)
    requires |periods| == |energy| && forall i :: 0 <= i < |energy| ==> energy[i] >= 0
    ensures Sum(Unpriced(rates, periods, energy)) == 0
       <==> forall i :: 0 <= i < |energy| && energy[i] > 0 ==> HasRateBelow(rates, |rates|, periods[i])
  {
    hide Sum, HasRateBelow;
    var u := Unpriced(rates, periods, energy);
    SumNonnegative(u);
    if forall i :: 0 <= i < |energy| && energy[i] > 0 ==> HasRateBelow(rates, |rates|, periods[i]) {
      SumZero(u);
    } else {
      var i :| 0 <= i < |energy| && energy[i] > 0 && !HasRateBelow(rates, |rates|, periods[i]);
      assert u[i] > 0;
    }
  }
}
