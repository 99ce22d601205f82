/** What a bill is, apart from how the evaluator computes it
  (packages/tariffs/ratereplay_tariffs/billing.py).

  Every rule contributes a block of lines that its own terms, the account and the energy determine, written
  here in closed form: the bounds of tiers are marks on one scale, the energy of a period is a sum over
  slots, and an allowance or a schedule is the only one of its kind. */
module BillMeaning {
  import opened Arithmetic
  import opened Results
  import opened Sums
  import opened Rounding
  import opened Text
  import opened Billing
  import opened BillTotals

  /** A line from its microdollars, as a fraction, rounded to cents. */
  function Item(rule: Rule, suffix: string, quantity: int, numerator: int, denominator: int): Line
    requires denominator > 0
  {
    Line(rule.id, rule.key + suffix, quantity, numerator, denominator, HalfUp(numerator, denominator * 10_000))
  }

  /** The lines that hold something. */
  function Occupied(lines: seq<Line>): seq<Line> {
    if lines == [] then [] else
    var last := lines[|lines| - 1];
    Occupied(lines[..|lines| - 1]) + if last.quantity == 0 then [] else [last]
  }

  // ----- allowance and schedule -----

  predicate IsAllowance(rule: Rule) {
    rule.charge.BaselineAllowance?
  }

  /** The daily allowance: none when no rule gives one, else that of the only one that applies. */
  ghost predicate Allows(rules: seq<Rule>, daily: int) {
    || ((forall i :: 0 <= i < |rules| ==> !IsAllowance(rules[i])) && daily == 0)
    || exists i :: 0 <= i < |rules| && OnlyAllowance(rules, i) && rules[i].charge.dailyWh == daily
  }

  ghost predicate OnlyAllowance(rules: seq<Rule>, i: nat) {
    && i < |rules| && IsAllowance(rules[i]) && rules[i].applies
    && forall j :: 0 <= j < |rules| && IsAllowance(rules[j]) && rules[j].applies ==> j == i
  }

  predicate IsSchedule(rule: Rule, id: nat) {
    rule.charge.Schedule? && rule.id == id
  }

  /** The schedule of an id: that of the only schedule rule with the id, whether it applies or not. */
  ghost predicate Schedules(rules: seq<Rule>, id: nat, periods: seq<Option<Period>>) {
    exists i :: 0 <= i < |rules| && OnlySchedule(rules, id, i) && rules[i].charge.periods == periods
  }

  ghost predicate OnlySchedule(rules: seq<Rule>, id: nat, i: nat) {
    i < |rules| && IsSchedule(rules[i], id) && forall j :: 0 <= j < |rules| && IsSchedule(rules[j], id) ==> j == i
  }

  // ----- tiers -----

  /** The marks between the tiers: where tier i begins, in watt-hours. */
  function Mark(tiers: seq<Tier>, base: int, i: nat): int
    requires i <= |tiers| && Fractions(tiers)
  {
    if i == 0 || tiers[i - 1].Unlimited? then 0 else base * tiers[i - 1].numerator / tiers[i - 1].denominator
  }

  ghost predicate Whole(tier: Tier, base: int)
    requires tier.Limited? ==> tier.denominator > 0
  {
    tier.Limited? ==> base * tier.numerator % tier.denominator == 0
  }

  /** The first tiers are full, and the energy goes on above them. */
  ghost predicate Filled(tiers: seq<Tier>, base: int, total: int, n: nat)
    requires n <= |tiers| && Fractions(tiers)
  {
    forall i :: 0 <= i < n ==> Full(tiers, base, total, i)
  }

  ghost predicate Full(tiers: seq<Tier>, base: int, total: int, i: nat)
    requires i < |tiers| && Fractions(tiers)
  {
    tiers[i].Limited? && Whole(tiers[i], base) && Mark(tiers, base, i) <= Mark(tiers, base, i + 1) < total
  }

  datatype TierEnd = Placed | Broken | Crossing

  /** The tier where the evaluation ends, and how: all energy is placed, the bound is not a whole number of
      watt-hours, or the bounds cross. */
  ghost predicate EndsAt(tiers: seq<Tier>, base: int, total: int, i: nat, end: TierEnd)
    requires Fractions(tiers)
  {
    && i < |tiers| && Filled(tiers, base, total, i)
    && var lower, upper := Mark(tiers, base, i), Mark(tiers, base, i + 1);
       match end
       case Broken => !Whole(tiers[i], base)
       case Crossing => Whole(tiers[i], base) && (total < lower || (tiers[i].Limited? && upper < lower))
       case Placed => Whole(tiers[i], base) && lower <= total && (tiers[i].Limited? ==> lower <= total <= upper)
  }

  /** The energy of tier i: what lies between its two marks, and the rest in the last tier that is reached. */
  function TierAmount(tiers: seq<Tier>, base: int, total: int, last: nat, i: nat): int
    requires i <= last < |tiers| && Fractions(tiers)
  {
    (if i == last then total else Mark(tiers, base, i + 1)) - Mark(tiers, base, i)
  }

  function TierBlock(rule: Rule, tiers: seq<Tier>, base: int, total: int, last: nat): seq<Line>
    requires last < |tiers| && Fractions(tiers)
  {
    Occupied(seq(last + 1, i requires 0 <= i <= last =>
      var amount := TierAmount(tiers, base, total, last, i);
      Item(rule, ".tier_" + Decimal(i + 1), amount, amount * tiers[i].rate, 1_000)))
  }

  // ----- time of use -----

  function NameOf(period: Period): string {
    match period
    case Peak => ".peak"
    case PartialPeak => ".partial_peak"
    case OffPeak => ".off_peak"
  }

  function RateBlock(rule: Rule, rates: seq<PeriodRate>, periods: seq<Option<Period>>, energy: seq<int>): seq<Line>
    requires |periods| == |energy|
  {
    Occupied(seq(|rates|, i requires 0 <= i < |rates| =>
      var used := Sum(InPeriod(periods, energy, rates[i].period));
      Item(rule, NameOf(rates[i].period), used, used * rates[i].rate, 1_000)))
  }

  function CreditBlock(rule: Rule, credit: Option<int>, base: int, total: int): seq<Line> {
    if credit.None? then [] else
    var used := Min(total, base);
    [Item(rule, ".baseline_credit", used, used * credit.value, 1_000)]
  }

  // ----- rules -----

  /** The lines of a rule, on a baseline of `base` watt-hours. */
  ghost predicate RuleBlock(
      rule: Rule, rules: seq<Rule>, days: int, base: int, energy: seq<int>, block: seq<Line>)
    requires WellFormed(rules, |energy|) && rule in rules
  {
    if !rule.applies then block == [] else
    match rule.charge
    case TieredEnergy(tiers) =>
      || (tiers == [] && Sum(energy) == 0 && block == [])
      || exists i: nat ::
           EndsAt(tiers, base, Sum(energy), i, Placed) && block == TierBlock(rule, tiers, base, Sum(energy), i)
    case TimeOfUse(id, rates, credit) =>
      exists periods ::
        && Schedules(rules, id, periods) && |periods| == |energy|
        && (forall i :: 0 <= i < |periods| ==> periods[i] != None)
        && block == RateBlock(rule, rates, periods, energy) + CreditBlock(rule, credit, base, Sum(energy))
    case FixedDaily(rate) => block == [Item(rule, "", days, days * rate, 1)]
    case FixedMonthly(amount) => block == [Item(rule, "", 1, amount, 1)]
    case _ => block == []
  }

  /** Why a rule has no lines to give. */
  ghost predicate RuleFails(rule: Rule, rules: seq<Rule>, base: int, energy: seq<int>, error: ReplayError)
    requires WellFormed(rules, |energy|) && rule in rules
  {
    && rule.applies
    && match (rule.charge, error)
       case (TieredEnergy(tiers), NonintegralTierBound) =>
         exists i: nat :: EndsAt(tiers, base, Sum(energy), i, Broken)
       case (TieredEnergy(tiers), InvalidTierBound) =>
         exists i: nat :: EndsAt(tiers, base, Sum(energy), i, Crossing)
       case (TieredEnergy(tiers), UncoveredTier) =>
         Filled(tiers, base, Sum(energy), |tiers|) && (tiers == [] ==> Sum(energy) != 0)
       case (TimeOfUse(id, _, _), ScheduleAmbiguity) => forall periods :: !Schedules(rules, id, periods)
       case (TimeOfUse(id, _, _), IntervalRefused) =>
         exists periods :: Schedules(rules, id, periods) && exists i :: 0 <= i < |periods| && periods[i] == None
       case _ => false
  }

  // ----- tiers: the loop ends where the marks say -----

  /** What the shares from tier k on are, when the evaluation ends so. */
  ghost predicate SharesMean(
      tiers: seq<Tier>, k: nat, base: int, total: int, shares: Result<seq<int>, ReplayError>, i: nat, end: TierEnd)
    requires Fractions(tiers) && k <= |tiers|
  {
    if i == |tiers| then
      && Filled(tiers, base, total, |tiers|)
      && shares == if total == Mark(tiers, base, |tiers|) then Ok([]) else Err(UncoveredTier)
    else
      && k <= i && EndsAt(tiers, base, total, i, end)
      && match end
         case Broken => shares == Err(NonintegralTierBound)
         case Crossing => shares == Err(InvalidTierBound)
         case Placed =>
           && shares.Ok? && |shares.value| == i + 1 - k
           && forall j :: k <= j <= i ==> shares.value[j - k] == TierAmount(tiers, base, total, i, j)
  }

  lemma {:induction false} FilledMore(tiers: seq<Tier>, base: int, total: int, k: nat)
    requires Fractions(tiers) && k < |tiers| && Filled(tiers, base, total, k) && tiers[k].Limited?
    requires Whole(tiers[k], base) && Mark(tiers, base, k) <= Mark(tiers, base, k + 1) < total
    ensures Filled(tiers, base, total, k + 1)
  {
  }

  lemma {:induction false} TiersEnd(tiers: seq<Tier>, k: nat, base: int, total: int) returns (i: nat, end: TierEnd)
    requires Fractions(tiers) && k <= |tiers| && Filled(tiers, base, total, k)
    ensures i <= |tiers|
    ensures SharesMean(
              tiers, k, base, total,
              TierShares(tiers, k, base, total - Mark(tiers, base, k), Mark(tiers, base, k)), i, end)
    decreases |tiers| - k
  {
    hide Filled;
    var lower := Mark(tiers, base, k);
    i, end := k, Placed;
    if k < |tiers| {
      var tier, upper := tiers[k], Mark(tiers, base, k + 1);
      TierCase(tiers, k, base, total - lower, lower);
      assert tier.Limited? ==> upper == UpperBound(tier, base) && (Whole(tier, base) <==> IntegralBound(tier, base));
      if !Whole(tier, base) {
        end := Broken;
      } else if total < lower || (tier.Limited? && upper < lower) {
        end := Crossing;
      } else if tier.Limited? && upper < total {
        FilledMore(tiers, base, total, k);
        i, end := TiersEnd(tiers, k + 1, base, total);
        SharesBefore(tiers, k, base, total, TierShares(tiers, k + 1, base, total - upper, upper), i, end);
      }
    }
  }

  lemma {:induction false} SharesBefore(
      tiers: seq<Tier>, k: nat, base: int, total: int, rest: Result<seq<int>, ReplayError>, i: nat, end: TierEnd)
    requires Fractions(tiers) && k < |tiers| && i <= |tiers| && SharesMean(tiers, k + 1, base, total, rest, i, end)
    requires Filled(tiers, base, total, k + 1)
    ensures SharesMean(
              tiers, k, base, total, Prepend([Mark(tiers, base, k + 1) - Mark(tiers, base, k)], rest), i, end)
  {
    hide Mark;
    if i == |tiers| {
      assert Full(tiers, base, total, |tiers| - 1);
    } else if end == Placed {
      var first := Mark(tiers, base, k + 1) - Mark(tiers, base, k);
      var shares := [first] + rest.value;
      forall j | k <= j <= i
        ensures shares[j - k] == TierAmount(tiers, base, total, i, j)
      {
        assert j > k ==> shares[j - k] == rest.value[j - (k + 1)];
      }
    }
  }

  /** An evaluation ends at one tier and in one way. */
  lemma {:induction false} EndsOnce(tiers: seq<Tier>, base: int, total: int, i: nat, end: TierEnd, j: nat,
      other: TierEnd)
    requires Fractions(tiers) && EndsAt(tiers, base, total, i, end) && EndsAt(tiers, base, total, j, other)
    ensures i == j && end == other
  {
    hide Mark, Whole;
    NotFullAtEnd(tiers, base, total, i, end);
    NotFullAtEnd(tiers, base, total, j, other);
  }

  lemma {:induction false} NotFullAtEnd(tiers: seq<Tier>, base: int, total: int, i: nat, end: TierEnd)
    requires Fractions(tiers) && EndsAt(tiers, base, total, i, end)
    ensures !Full(tiers, base, total, i)
  {
  }

  // ----- lines -----

  function ShareItems(rule: Rule, tiers: seq<Tier>, shares: seq<int>, n: nat): (items: seq<Line>)
    requires n <= |shares| <= |tiers|
    ensures |items| == n
  {
    seq(n, i requires 0 <= i < n =>
      Item(rule, ".tier_" + Decimal(i + 1), shares[i], shares[i] * tiers[i].rate, 1_000))
  }

  lemma {:induction false} ShareLinesAreItems(rule: Rule, tiers: seq<Tier>, shares: seq<int>, n: nat)
    requires n <= |shares| <= |tiers|
    ensures ShareLines(rule, tiers, shares, n) == Occupied(ShareItems(rule, tiers, shares, n))
  {
    hide Decimal, HalfUp;
    if n > 0 {
      ShareLinesAreItems(rule, tiers, shares, n - 1);
      assert ShareItems(rule, tiers, shares, n)[..n - 1] == ShareItems(rule, tiers, shares, n - 1);
    }
  }

  function RateItems(rule: Rule, rates: seq<PeriodRate>, periods: seq<Option<Period>>, energy: seq<int>, n: nat)
      : (items: seq<Line>)
    requires n <= |rates| && |periods| == |energy|
    ensures |items| == n
  {
    seq(n, i requires 0 <= i < n =>
      var used := Sum(InPeriod(periods, energy, rates[i].period));
      Item(rule, NameOf(rates[i].period), used, used * rates[i].rate, 1_000))
  }

  lemma {:induction false} PeriodLinesAreItems(
      rule: Rule, rates: seq<PeriodRate>, n: nat, periods: seq<Option<Period>>, energy: seq<int>)
    requires n <= |rates| && |periods| == |energy|
    ensures PeriodLines(rule, rates, n, periods, energy) == Occupied(RateItems(rule, rates, periods, energy, n))
  {
    hide HalfUp, Sum, InPeriod, PeriodEnergy;
    if n > 0 {
      PeriodLinesAreItems(rule, rates, n - 1, periods, energy);
      PeriodEnergyIsSum(periods, energy, rates[n - 1].period);
      assert RateItems(rule, rates, periods, energy, n)[..n - 1] == RateItems(rule, rates, periods, energy, n - 1);
    }
  }

  // ----- the only one of its kind -----

  lemma {:induction false} NoSchedule(rules: seq<Rule>, id: nat)
    ensures SchedulesOf(rules, id) == [] <==> forall j :: 0 <= j < |rules| ==> !IsSchedule(rules[j], id)
  {
    if rules != [] {
      NoSchedule(rules[..|rules| - 1], id);
    }
  }

  lemma {:induction false} ScheduleFound(rules: seq<Rule>, id: nat) returns (i: nat)
    requires |SchedulesOf(rules, id)| == 1
    ensures OnlySchedule(rules, id, i) && SchedulesOf(rules, id)[0] == rules[i].charge.periods
  {
    var rest, last := rules[..|rules| - 1], rules[|rules| - 1];
    if IsSchedule(last, id) {
      i := |rules| - 1;
      NoSchedule(rest, id);
    } else {
      i := ScheduleFound(rest, id);
      assert rest[i] == rules[i];
    }
  }

  lemma {:induction false} ScheduleCounted(rules: seq<Rule>, id: nat, i: nat)
    requires OnlySchedule(rules, id, i)
    ensures SchedulesOf(rules, id) == [rules[i].charge.periods]
  {
    var rest, last := rules[..|rules| - 1], rules[|rules| - 1];
    if i == |rules| - 1 {
      NoSchedule(rest, id);
    } else {
      assert rest[i] == rules[i];
      ScheduleCounted(rest, id, i);
      assert !IsSchedule(last, id);
    }
  }

  lemma {:induction false} SchedulesExactly(rules: seq<Rule>, id: nat, periods: seq<Option<Period>>)
    ensures Schedules(rules, id, periods) <==> SchedulesOf(rules, id) == [periods]
  {
    hide SchedulesOf;
    if SchedulesOf(rules, id) == [periods] {
      var i := ScheduleFound(rules, id);
    }
    if i :| 0 <= i < |rules| && OnlySchedule(rules, id, i) && rules[i].charge.periods == periods {
      ScheduleCounted(rules, id, i);
    }
  }

  predicate Applicable(rule: Rule) {
    IsAllowance(rule) && rule.applies
  }

  lemma {:induction false} NoAllowance(rules: seq<Rule>)
    ensures ApplicableAllowances(rules) == [] <==> forall j :: 0 <= j < |rules| ==> !Applicable(rules[j])
  {
    if rules != [] {
      NoAllowance(rules[..|rules| - 1]);
    }
  }

  lemma {:induction false} AllowanceFound(rules: seq<Rule>) returns (i: nat)
    requires |ApplicableAllowances(rules)| == 1
    ensures OnlyAllowance(rules, i) && ApplicableAllowances(rules)[0] == rules[i].charge.dailyWh
  {
    var rest, last := rules[..|rules| - 1], rules[|rules| - 1];
    if Applicable(last) {
      i := |rules| - 1;
      NoAllowance(rest);
      assert forall j :: 0 <= j < |rest| ==> rest[j] == rules[j] && !Applicable(rest[j]);
    } else {
      i := AllowanceFound(rest);
      assert rest[i] == rules[i];
    }
  }

  lemma {:induction false} AllowanceCounted(rules: seq<Rule>, i: nat)
    requires OnlyAllowance(rules, i)
    ensures ApplicableAllowances(rules) == [rules[i].charge.dailyWh]
  {
    var rest, last := rules[..|rules| - 1], rules[|rules| - 1];
    if i == |rules| - 1 {
      NoAllowance(rest);
    } else {
      assert rest[i] == rules[i];
      AllowanceCounted(rest, i);
      assert !Applicable(last);
    }
  }

  /** The baseline is the daily allowance over the billing days; without exactly one that applies there is no
      bill. */
  lemma {:induction false} BaselineExactly(rules: seq<Rule>, days: int, daily: int)
    ensures Allows(rules, daily) ==> Baseline(rules, days) == Ok(daily * days)
    ensures Baseline(rules, days).Err? <==> forall other :: !Allows(rules, other)
    ensures Baseline(rules, days).Err? ==> Baseline(rules, days).error == BaselineRuleAmbiguity
  {
    hide ApplicableAllowances;
    if i :| 0 <= i < |rules| && OnlyAllowance(rules, i) && rules[i].charge.dailyWh == daily {
      AllowanceCounted(rules, i);
    }
    if forall i :: 0 <= i < |rules| ==> !IsAllowance(rules[i]) {
      assert Allows(rules, 0);
    } else if |ApplicableAllowances(rules)| == 1 {
      var i := AllowanceFound(rules);
      assert Allows(rules, rules[i].charge.dailyWh);
    } else if other :| Allows(rules, other) {
      var i :| 0 <= i < |rules| && OnlyAllowance(rules, i) && rules[i].charge.dailyWh == other;
      AllowanceCounted(rules, i);
    }
  }

  // ----- the bill -----

  lemma {:induction false} TierLinesMean(rule: Rule, rules: seq<Rule>, days: int, base: int, energy: seq<int>)
    requires WellFormed(rules, |energy|) && rule in rules && rule.applies && rule.charge.TieredEnergy?
    ensures var r := TierLines(rule, rule.charge.tiers, base, Sum(energy));
            && (r.Ok? ==> RuleBlock(rule, rules, days, base, energy, r.value))
            && (r.Err? ==> RuleFails(rule, rules, base, energy, r.error))
  {
    hide Sum, WellFormed, TierShares, Decimal, Filled, HalfUp, Mark, Whole;
    var tiers, total := rule.charge.tiers, Sum(energy);
    TiersHaveFractions(rule, rules, |energy|);
    NothingFilled(tiers, base, total);
    var i, end := TiersEnd(tiers, 0, base, total);
    if i < |tiers| && end == Placed {
      var shares := TierShares(tiers, 0, base, total, 0).value;
      ShareLinesAreItems(rule, tiers, shares, i + 1);
      assert TierBlock(rule, tiers, base, total, i) == Occupied(ShareItems(rule, tiers, shares, i + 1)) by {
        BlockOfShares(rule, tiers, base, total, i, shares);
      }
    } else if i == |tiers| {
      FilledMark(tiers, base, total);
    }
  }

  lemma {:induction false} BlockOfShares(
      rule: Rule, tiers: seq<Tier>, base: int, total: int, last: nat, shares: seq<int>)
    requires Fractions(tiers) && last < |tiers| && |shares| == last + 1
    requires forall j :: 0 <= j <= last ==> shares[j] == TierAmount(tiers, base, total, last, j)
    ensures TierBlock(rule, tiers, base, total, last) == Occupied(ShareItems(rule, tiers, shares, last + 1))
  {
    hide TierAmount, Decimal, HalfUp, Occupied;
    var items := seq(last + 1, i requires 0 <= i <= last =>
      var amount := TierAmount(tiers, base, total, last, i);
      Item(rule, ".tier_" + Decimal(i + 1), amount, amount * tiers[i].rate, 1_000));
    assert items == ShareItems(rule, tiers, shares, last + 1);
  }

  lemma {:induction false} TiersHaveFractions(rule: Rule, rules: seq<Rule>, slots: nat)
    requires WellFormed(rules, slots) && rule in rules && rule.charge.TieredEnergy?
    ensures Fractions(rule.charge.tiers)
  {
  }

  lemma {:induction false} NothingFilled(tiers: seq<Tier>, base: int, total: int)
    requires Fractions(tiers)
    ensures Filled(tiers, base, total, 0) && Mark(tiers, base, 0) == 0
  {
  }

  lemma {:induction false} FilledMark(tiers: seq<Tier>, base: int, total: int)
    requires Fractions(tiers) && Filled(tiers, base, total, |tiers|)
    ensures Mark(tiers, base, |tiers|) == total ==> tiers == [] && total == 0
  {
    if tiers != [] {
      assert Full(tiers, base, total, |tiers| - 1);
    }
  }

  lemma {:induction false} TimeLinesMean(
      rule: Rule, rules: seq<Rule>, account: Account, base: int, energy: seq<int>)
    requires WellFormed(rules, |energy|) && rule in rules && rule.applies && rule.charge.TimeOfUse?
    ensures var r := LinesOf(rule, rules, account, base, energy);
            && (r.Ok? ==> RuleBlock(rule, rules, account.days, base, energy, r.value))
            && (r.Err? ==> RuleFails(rule, rules, base, energy, r.error))
  {
    hide Sum, WellFormed, SchedulesOf, Schedules, HalfUp, PeriodLines, RateBlock;
    var id, rates := rule.charge.scheduleId, rule.charge.rates;
    SchedulesOfWellFormed(rules, id, |energy|);
    if |SchedulesOf(rules, id)| == 1 {
      var periods := SchedulesOf(rules, id)[0];
      SchedulesExactly(rules, id, periods);
      PeriodLinesAreItems(rule, rates, |rates|, periods, energy);
      RateBlockIsItems(rule, rates, periods, energy);
    } else {
      forall periods
        ensures !Schedules(rules, id, periods)
      {
        SchedulesExactly(rules, id, periods);
      }
    }
  }

  lemma {:induction false} RateBlockIsItems(
      rule: Rule, rates: seq<PeriodRate>, periods: seq<Option<Period>>, energy: seq<int>)
    requires |periods| == |energy|
    ensures RateBlock(rule, rates, periods, energy) == Occupied(RateItems(rule, rates, periods, energy, |rates|))
  {
  }

  /** A rule's lines are its block, and a rule that gives none has the reason it reports. */
  lemma {:induction false} RuleMeans(rule: Rule, rules: seq<Rule>, account: Account, base: int, energy: seq<int>)
    requires WellFormed(rules, |energy|) && rule in rules
    ensures var r := LinesOf(rule, rules, account, base, energy);
            && (r.Ok? ==> RuleBlock(rule, rules, account.days, base, energy, r.value))
            && (r.Err? ==> RuleFails(rule, rules, base, energy, r.error))
  {
    hide Sum, WellFormed, TierLines, SchedulesOf, HalfUp, EndsAt, Schedules, Filled;
    assert rule.key + "" == rule.key;
    if rule.applies && rule.charge.TieredEnergy? {
      TierLinesMean(rule, rules, account.days, base, energy);
    } else if rule.applies && rule.charge.TimeOfUse? {
      TimeLinesMean(rule, rules, account, base, energy);
    }
  }

  /** A rule has one block, and none when it fails. */
  lemma {:induction false} OneBlock(
      rule: Rule, rules: seq<Rule>, days: int, base: int, energy: seq<int>, block: seq<Line>, other: seq<Line>,
      error: ReplayError)
    requires WellFormed(rules, |energy|) && rule in rules && RuleBlock(rule, rules, days, base, energy, block)
    ensures RuleBlock(rule, rules, days, base, energy, other) ==> other == block
    ensures !RuleFails(rule, rules, base, energy, error)
  {
    hide WellFormed, Sum, EndsAt, Schedules, TierBlock, RateBlock, CreditBlock, Item;
    if rule.applies && rule.charge.TieredEnergy? {
      OneTierBlock(rule, rules, days, base, energy, block, other, error);
    } else if rule.applies && rule.charge.TimeOfUse? {
      forall p, q | Schedules(rules, rule.charge.scheduleId, p) && Schedules(rules, rule.charge.scheduleId, q)
        ensures p == q
      {
        SchedulesExactly(rules, rule.charge.scheduleId, p);
        SchedulesExactly(rules, rule.charge.scheduleId, q);
      }
    }
  }

  lemma {:induction false} OneTierBlock(
      rule: Rule, rules: seq<Rule>, days: int, base: int, energy: seq<int>, block: seq<Line>, other: seq<Line>,
      error: ReplayError)
    requires WellFormed(rules, |energy|) && rule in rules && RuleBlock(rule, rules, days, base, energy, block)
    requires rule.applies && rule.charge.TieredEnergy?
    ensures RuleBlock(rule, rules, days, base, energy, other) ==> other == block
    ensures !RuleFails(rule, rules, base, energy, error)
  {
    hide WellFormed, Sum, EndsAt, TierBlock, Filled;
    var tiers, total := rule.charge.tiers, Sum(energy);
    TiersHaveFractions(rule, rules, |energy|);
    forall i: nat, end
      ensures EndsAt(tiers, base, total, i, end) ==> tiers != [] && !Filled(tiers, base, total, |tiers|)
    {
      if EndsAt(tiers, base, total, i, end) {
        EndIsNotFilled(tiers, base, total, i, end);
      }
    }
    forall i: nat, end, j: nat, last | EndsAt(tiers, base, total, i, end) && EndsAt(tiers, base, total, j, last)
      ensures i == j && end == last
    {
      EndsOnce(tiers, base, total, i, end, j, last);
    }
  }

  lemma {:induction false} EndIsNotFilled(tiers: seq<Tier>, base: int, total: int, i: nat, end: TierEnd)
    requires Fractions(tiers) && EndsAt(tiers, base, total, i, end)
    ensures tiers != [] && !Filled(tiers, base, total, |tiers|)
  {
    NotFullAtEnd(tiers, base, total, i, end);
  }

  /** Tier pricing is marginal: up to tier j the lines hold the lesser of the energy and the bound of that
      tier, which is its own share of the daily allowance over the billing days. */
  lemma {:induction false} TiersHold(tiers: seq<Tier>, daily: int, days: int, total: int, last: nat, j: nat)
    requires Fractions(tiers) && EndsAt(tiers, daily * days, total, last, Placed) && j <= last
    ensures Sum(seq(j + 1, i requires 0 <= i <= j => TierAmount(tiers, daily * days, total, last, i)))
         == if tiers[j].Unlimited? then total
            else Min(total, daily * days * tiers[j].numerator / tiers[j].denominator)
  {
    var base := daily * days;
    var amounts := seq(j + 1, i requires 0 <= i <= j => TierAmount(tiers, base, total, last, i));
    if j < last {
      assert Full(tiers, base, total, j);
    }
    if j > 0 {
      TiersHold(tiers, daily, days, total, last, j - 1);
      assert Full(tiers, base, total, j - 1);
      assert amounts[..j] == seq(j, i requires 0 <= i <= j - 1 => TierAmount(tiers, base, total, last, i));
    } else {
      assert amounts == [amounts[0]] && amounts[..0] == [];
    }
  }

  function Flat(blocks: seq<seq<Line>>): seq<Line> {
    if blocks == [] then [] else Flat(blocks[..|blocks| - 1]) + blocks[|blocks| - 1]
  }

  /** One block for each of the first rules. */
  ghost predicate Blocks(
      rules: seq<Rule>, n: nat, days: int, base: int, energy: seq<int>, blocks: seq<seq<Line>>)
    requires WellFormed(rules, |energy|) && n <= |rules|
  {
    |blocks| == n && forall i :: 0 <= i < n ==> RuleBlock(rules[i], rules, days, base, energy, blocks[i])
  }

  lemma {:induction false} BillLinesMean(rules: seq<Rule>, n: nat, account: Account, base: int, energy: seq<int>)
    returns (blocks: seq<seq<Line>>, failed: nat)
    requires WellFormed(rules, |energy|) && n <= |rules|
    ensures var r := BillLines(rules, n, account, base, energy);
            && (r.Ok? ==> Blocks(rules, n, account.days, base, energy, blocks) && r.value == Flat(blocks))
            && (r.Err? ==>
                  && failed < n && RuleFails(rules[failed], rules, base, energy, r.error)
                  && Blocks(rules, failed, account.days, base, energy, blocks))
  {
    hide WellFormed, LinesOf, RuleBlock, RuleFails;
    blocks, failed := [], 0;
    if n > 0 {
      blocks, failed := BillLinesMean(rules, n - 1, account, base, energy);
      if BillLines(rules, n - 1, account, base, energy).Ok? {
        RuleMeans(rules[n - 1], rules, account, base, energy);
        var last := LinesOf(rules[n - 1], rules, account, base, energy);
        if last.Ok? {
          blocks := blocks + [last.value];
          assert blocks[..n - 1] + [last.value] == blocks;
        } else {
          failed := n - 1;
        }
      }
    }
  }

  /** The evaluator's bill: the blocks of all rules, in order, on the daily allowance over the billing days;
      or else the reason of the first rule that fails, all rules before it having their blocks. */
  lemma {:induction false} ReplayMeans(rules: seq<Rule>, account: Account, energy: seq<int>, daily: int)
    returns (blocks: seq<seq<Line>>, failed: nat)
    requires WellFormed(rules, |energy|) && Allows(rules, daily)
    requires account.eligible && account.bounded && 0 < account.days <= account.maximumDays
    requires Sum(energy) <= account.maximumEnergy
    ensures var r, base := Replay(rules, account, energy), daily * account.days;
            && (r.Ok? ==> Blocks(rules, |rules|, account.days, base, energy, blocks) && r.value == Flat(blocks))
            && (r.Err? ==>
                  && failed < |rules| && RuleFails(rules[failed], rules, base, energy, r.error)
                  && Blocks(rules, failed, account.days, base, energy, blocks))
  {
    hide WellFormed, Sum, BillLines, Baseline, RuleBlock, RuleFails, Allows;
    BaselineExactly(rules, account.days, daily);
    blocks, failed := BillLinesMean(rules, |rules|, account, daily * account.days, energy);
  }

  /** The refusals that come before any rule, in their order. */
  lemma {:induction false} ReplayRefuses(rules: seq<Rule>, account: Account, energy: seq<int>)
    requires WellFormed(rules, |energy|)
    ensures var r := Replay(rules, account, energy);
            var period := 0 < account.days <= account.maximumDays;
            && (r == Err(NotEligible) <==> !account.eligible)
            && (r == Err(UnboundedBillingPeriod) <==> account.eligible && !account.bounded)
            && (r == Err(InvalidBillingPeriod) <==> account.eligible && account.bounded && !period)
            && (r == Err(EnergyBoundExceeded) <==>
                  account.eligible && account.bounded && period && Sum(energy) > account.maximumEnergy)
            && (r == Err(BaselineRuleAmbiguity) <==>
                  && account.eligible && account.bounded && period && Sum(energy) <= account.maximumEnergy
                  && forall daily :: !Allows(rules, daily))
  {
    hide WellFormed, Sum, BillLines, Baseline, RuleFails, Allows;
    BaselineExactly(rules, account.days, 0);
    if Baseline(rules, account.days).Ok? {
      var base := Baseline(rules, account.days).value;
      var blocks, failed := BillLinesMean(rules, |rules|, account, base, energy);
      if BillLines(rules, |rules|, account, base, energy).Err? {
        RuleReasons(rules[failed], rules, base, energy, BillLines(rules, |rules|, account, base, energy).error);
      }
    }
  }

  lemma {:induction false} RuleReasons(rule: Rule, rules: seq<Rule>, base: int, energy: seq<int>, error: ReplayError)
    requires WellFormed(rules, |energy|) && rule in rules && RuleFails(rule, rules, base, energy, error)
    ensures error in {NonintegralTierBound, InvalidTierBound, UncoveredTier, ScheduleAmbiguity, IntervalRefused}
  {
  }
}
