/** The exact evaluator of compiled tariffs (packages/tariffs/ratereplay_tariffs/billing.py).

  A rule carries whether it applies to the account, and a schedule carries the period of every slot
  of the profile (None where the classifier refuses the slot): neither depends on the energy. */
module Billing {
  import opened Results
  import opened Sums
  import opened Rounding
  import opened Text

  datatype Period = Peak | PartialPeak | OffPeak

  datatype Tier = Limited(numerator: int, denominator: int, rate: int) | Unlimited(rate: int)

  datatype PeriodRate = PeriodRate(period: Period, rate: int)

  datatype Charge =
    | BaselineAllowance(dailyWh: int)
    | TieredEnergy(tiers: seq<Tier>)
    | Schedule(periods: seq<Option<Period>>)
    | TimeOfUse(scheduleId: nat, rates: seq<PeriodRate>, credit: Option<int>)
    | FixedDaily(ratePerDay: int)
    | FixedMonthly(amount: int)
    | Unsupported

  datatype Rule = Rule(id: nat, key: string, applies: bool, charge: Charge)

  /** What the account's facts decide: eligibility, and the billing days of a bounded service window. */
  datatype Account = Account(eligible: bool, bounded: bool, days: int, maximumDays: int, maximumEnergy: int)

  /** A line keeps the microdollars it was rounded from, as a fraction. */
  datatype Line = Line(rule: nat, key: string, quantity: int, numerator: int, denominator: int, cents: int)

  datatype ReplayError =
    | NotEligible
    | UnboundedBillingPeriod
    | InvalidBillingPeriod
    | EnergyBoundExceeded
    | BaselineRuleAmbiguity
    | NonintegralTierBound
    | InvalidTierBound
    | UncoveredTier
    | ScheduleAmbiguity
    | IntervalRefused

  type Lines = Result<seq<Line>, ReplayError>

  /** What the model fixes in advance: schedules classify every slot, tier bounds are fractions. */
  predicate WellFormed(rules: seq<Rule>, slots: nat) {
    forall i :: 0 <= i < |rules| ==>
      && (rules[i].charge.Schedule? ==> |rules[i].charge.periods| == slots)
      && (rules[i].charge.TieredEnergy? ==> forall j :: 0 <= j < |rules[i].charge.tiers| ==>
            rules[i].charge.tiers[j].Limited? ==> rules[i].charge.tiers[j].denominator > 0)
  }

  // ----- lines -----

  /** Watt-hours at microdollars per kilowatt-hour. */
  function EnergyLine(rule: Rule, suffix: string, quantity: int, rate: int): Line {
    Line(rule.id, rule.key + suffix, quantity, quantity * rate, WATT_HOURS_PER_KWH, EnergyCents(quantity, rate))
  }

  /** A whole number of microdollars. */
  function AmountLine(rule: Rule, quantity: int, amount: int): Line {
    Line(rule.id, rule.key, quantity, amount, 1, CentsOf(amount, 1))
  }

  // ----- the baseline allowance -----

  function ApplicableAllowances(rules: seq<Rule>): seq<int> {
    if rules == [] then [] else
    var r := rules[|rules| - 1];
    ApplicableAllowances(rules[..|rules| - 1])
    + if r.applies && r.charge.BaselineAllowance? then [r.charge.dailyWh] else []
  }

  function Baseline(rules: seq<Rule>, days: int): Result<int, ReplayError> {
    if forall i :: 0 <= i < |rules| ==> !rules[i].charge.BaselineAllowance? then Ok(0)
    else if |ApplicableAllowances(rules)| != 1 then Err(BaselineRuleAmbiguity)
    else Ok(ApplicableAllowances(rules)[0] * days)
  }

  // ----- tiers -----

  /** The upper bound of a limited tier, in watt-hours. */
  function UpperBound(tier: Tier, baseline: int): int
    requires tier.Limited? && tier.denominator > 0
  {
    baseline * tier.numerator / tier.denominator
  }

  predicate IntegralBound(tier: Tier, baseline: int)
    requires tier.Limited? && tier.denominator > 0
  {
    (baseline * tier.numerator) % tier.denominator == 0
  }

  ghost predicate Fractions(tiers: seq<Tier>) {
    forall j :: 0 <= j < |tiers| ==> tiers[j].Limited? ==> tiers[j].denominator > 0
  }

  /** The watt-hours of each tier reached from tier `k` on, with `remaining` to place above `lower`. */
  function TierShares(tiers: seq<Tier>, k: nat, baseline: int, remaining: int, lower: int)
      : Result<seq<int>, ReplayError>
    requires k <= |tiers| && Fractions(tiers)
    decreases |tiers| - k
  {
    if k == |tiers| then (if remaining != 0 then Err(UncoveredTier) else Ok([])) else
    var tier := tiers[k];
    if tier.Limited? && !IntegralBound(tier, baseline) then Err(NonintegralTierBound) else
    var upper := if tier.Limited? then UpperBound(tier, baseline) else lower;
    var quantity := if tier.Limited? && upper - lower < remaining then upper - lower else remaining;
    if quantity < 0 then Err(InvalidTierBound)
    else if remaining - quantity == 0 then Ok([quantity])
    else
      match TierShares(tiers, k + 1, baseline, remaining - quantity, upper)
      case Ok(rest) => Ok([quantity] + rest)
      case Err(e) => Err(e)
  }

  /** One line for each of the first `n` shares that is not zero. */
  function ShareLines(rule: Rule, tiers: seq<Tier>, shares: seq<int>, n: nat): seq<Line>
    requires n <= |shares| <= |tiers|
  {
    if n == 0 then [] else
    ShareLines(rule, tiers, shares, n - 1)
    + if shares[n - 1] == 0 then []
      else [EnergyLine(rule, ".tier_" + Decimal(n), shares[n - 1], tiers[n - 1].rate)]
  }

  function TierLines(rule: Rule, tiers: seq<Tier>, baseline: int, total: int): Lines
    requires Fractions(tiers)
  {
    match TierShares(tiers, 0, baseline, total, 0)
    case Err(e) => Err(e)
    case Ok(shares) => TierSharesFit(tiers, 0, baseline, total, 0); Ok(ShareLines(rule, tiers, shares, |shares|))
  }

  lemma {:induction false} TierSharesFit(tiers: seq<Tier>, k: nat, baseline: int, remaining: int, lower: int)
    requires k <= |tiers| && Fractions(tiers)
    ensures var r := TierShares(tiers, k, baseline, remaining, lower); r.Ok? ==> |r.value| <= |tiers| - k
    decreases |tiers| - k
  {
    if k < |tiers| {
      var tier := tiers[k];
      var upper := if tier.Limited? then UpperBound(tier, baseline) else lower;
      var quantity := if tier.Limited? && upper - lower < remaining then upper - lower else remaining;
      TierSharesFit(tiers, k + 1, baseline, remaining - quantity, upper);
    }
  }

  /** How one tier step unfolds when energy is left for the next tier. */
  lemma {:induction false} TierStep(tiers: seq<Tier>, k: nat, baseline: int, remaining: int, lower: int,
      shares: seq<int>)
    requires k <= |tiers| && Fractions(tiers) && TierShares(tiers, k, baseline, remaining, lower) == Ok(shares)
    ensures k == |tiers| ==> shares == [] && remaining == 0
    ensures k < |tiers| ==> shares != [] && shares[0] >= 0
    ensures k < |tiers| && |shares| == 1 ==> shares[0] == remaining
    ensures k < |tiers| && |shares| != 1 ==>
      && tiers[k].Limited? && shares[0] == UpperBound(tiers[k], baseline) - lower < remaining
      && TierShares(tiers, k + 1, baseline, remaining - shares[0], lower + shares[0]) == Ok(shares[1..])
    ensures k < |tiers| && tiers[k].Limited? ==> shares[0] <= UpperBound(tiers[k], baseline) - lower
  {
    if k < |tiers| {
      var tier := tiers[k];
      var upper := if tier.Limited? then UpperBound(tier, baseline) else lower;
      var quantity := if tier.Limited? && upper - lower < remaining then upper - lower else remaining;
      if remaining - quantity != 0 {
        var rest := TierShares(tiers, k + 1, baseline, remaining - quantity, upper).value;
        assert ([quantity] + rest)[1..] == rest;
        TierSharesOccupied(tiers, k + 1, baseline, remaining - quantity, upper);
      }
    }
  }

  lemma {:induction false} TierSharesOccupied(tiers: seq<Tier>, k: nat, baseline: int, remaining: int, lower: int)
    requires k <= |tiers| && Fractions(tiers) && remaining != 0
    ensures TierShares(tiers, k, baseline, remaining, lower) != Ok([])
  {
  }

  /** The tiers hold exactly the energy, none of them a negative amount. */
  lemma {:induction false} TiersPartition(tiers: seq<Tier>, k: nat, baseline: int, remaining: int, lower: int,
      shares: seq<int>)
    requires k <= |tiers| && Fractions(tiers) && TierShares(tiers, k, baseline, remaining, lower) == Ok(shares)
    ensures |shares| <= |tiers| - k && Sum(shares) == remaining
    ensures forall j :: 0 <= j < |shares| ==> shares[j] >= 0
    decreases |tiers| - k
  {
    hide TierShares;
    TierStep(tiers, k, baseline, remaining, lower, shares);
    if k < |tiers| {
      assert shares == [shares[0]] + shares[1..];
      SumConcat([shares[0]], shares[1..]);
      if |shares| != 1 {
        TiersPartition(tiers, k + 1, baseline, remaining - shares[0], lower + shares[0], shares[1..]);
      }
    }
  }

  /** Tier pricing is marginal: the tiers up to the j-th hold min(energy, bound of the j-th), and an
      unlimited tier takes all that is left. */
  lemma {:induction false} TiersAreMarginal(tiers: seq<Tier>, k: nat, baseline: int, total: int, lower: int,
      shares: seq<int>, j: nat)
    requires k <= |tiers| && Fractions(tiers) && TierShares(tiers, k, baseline, total - lower, lower) == Ok(shares)
    requires j < |shares| <= |tiers| - k
    ensures lower + Sum(shares[..j + 1]) ==
      if tiers[k + j].Limited? && UpperBound(tiers[k + j], baseline) < total then UpperBound(tiers[k + j], baseline)
        else total
    decreases j
  {
    hide TierShares, UpperBound;
    TierStep(tiers, k, baseline, total - lower, lower, shares);
    if j == 0 {
      assert shares[..1] == [shares[0]];
    } else {
      assert shares[..j + 1] == [shares[0]] + shares[1..][..j];
      SumConcat([shares[0]], shares[1..][..j]);
      TiersAreMarginal(tiers, k + 1, baseline, total, lower + shares[0], shares[1..], j - 1);
    }
  }

  // ----- time of use -----

  function SchedulesOf(rules: seq<Rule>, id: nat): seq<seq<Option<Period>>> {
    if rules == [] then [] else
    var r := rules[|rules| - 1];
    SchedulesOf(rules[..|rules| - 1], id) + if r.charge.Schedule? && r.id == id then [r.charge.periods] else []
  }

  predicate AllClassified(periods: seq<Option<Period>>) {
    forall i :: 0 <= i < |periods| ==> periods[i].Some?
  }

  /** The energy of one period. */
  function PeriodEnergy(periods: seq<Option<Period>>, energy: seq<int>, period: Period): int
    requires |periods| == |energy|
  {
    if energy == [] then 0 else
    var last := |energy| - 1;
    PeriodEnergy(periods[..last], energy[..last], period) + if periods[last] == Some(period) then energy[last] else 0
  }

  function PeriodName(period: Period): string {
    match period
    case Peak => ".peak"
    case PartialPeak => ".partial_peak"
    case OffPeak => ".off_peak"
  }

  /** One line for each of the first `n` rates whose period has energy. */
  function PeriodLines(rule: Rule, rates: seq<PeriodRate>, n: nat, periods: seq<Option<Period>>, energy: seq<int>)
      : seq<Line>
    requires n <= |rates| && |periods| == |energy|
  {
    if n == 0 then [] else
    var r := rates[n - 1];
    var quantity := PeriodEnergy(periods, energy, r.period);
    PeriodLines(rule, rates, n - 1, periods, energy)
    + if quantity == 0 then []
      else [EnergyLine(rule, PeriodName(r.period), quantity, r.rate)]
  }

  function CreditLines(rule: Rule, credit: Option<int>, baseline: int, total: int): seq<Line> {
    match credit
    case None => []
    case Some(rate) =>
      var quantity := if total <= baseline then total else baseline;
      [EnergyLine(rule, ".baseline_credit", quantity, rate)]
  }

  // ----- the whole bill -----

  function LinesOf(rule: Rule, rules: seq<Rule>, account: Account, baseline: int, energy: seq<int>): Lines
    requires WellFormed(rules, |energy|) && rule in rules
  {
    if !rule.applies then Ok([]) else
    match rule.charge
    case BaselineAllowance(_) => Ok([])
    case Schedule(_) => Ok([])
    case Unsupported => Ok([])
    case TieredEnergy(tiers) => TierLines(rule, tiers, baseline, Sum(energy))
    case TimeOfUse(id, rates, credit) =>
      var schedules := SchedulesOf(rules, id);
      if |schedules| != 1 then Err(ScheduleAmbiguity)
      else if !AllClassified(schedules[0]) then Err(IntervalRefused)
      else
        SchedulesOfWellFormed(rules, id, |energy|);
        Ok(PeriodLines(rule, rates, |rates|, schedules[0], energy) + CreditLines(rule, credit, baseline, Sum(energy)))
    case FixedDaily(rate) => Ok([AmountLine(rule, account.days, account.days * rate)])
    case FixedMonthly(amount) => Ok([AmountLine(rule, 1, amount)])
  }

  /** The lines of the first `n` rules. */
  function BillLines(rules: seq<Rule>, n: nat, account: Account, baseline: int, energy: seq<int>): Lines
    requires WellFormed(rules, |energy|) && n <= |rules|
  {
    if n == 0 then Ok([]) else
    match BillLines(rules, n - 1, account, baseline, energy)
    case Err(e) => Err(e)
    case Ok(before) =>
      match LinesOf(rules[n - 1], rules, account, baseline, energy)
      case Err(e) => Err(e)
      case Ok(lines) => Ok(before + lines)
  }

  function Replay(rules: seq<Rule>, account: Account, energy: seq<int>): Lines
    requires WellFormed(rules, |energy|)
  {
    if !account.eligible then Err(NotEligible)
    else if !account.bounded then Err(UnboundedBillingPeriod)
    else if account.days <= 0 || account.days > account.maximumDays then Err(InvalidBillingPeriod)
    else if Sum(energy) > account.maximumEnergy then Err(EnergyBoundExceeded)
    else
      match Baseline(rules, account.days)
      case Err(e) => Err(e)
      case Ok(baseline) => BillLines(rules, |rules|, account, baseline, energy)
  }

  /** Supported cents: the sum of the rounded lines. */
  function TotalCents(lines: seq<Line>): int {
    if lines == [] then 0 else TotalCents(lines[..|lines| - 1]) + lines[|lines| - 1].cents
  }

  lemma {:induction false} SchedulesOfWellFormed(rules: seq<Rule>, id: nat, slots: nat)
    requires WellFormed(rules, slots)
    ensures forall i :: 0 <= i < |SchedulesOf(rules, id)| ==> |SchedulesOf(rules, id)[i]| == slots
  {
    if rules != [] {
      SchedulesOfWellFormed(rules[..|rules| - 1], id, slots);
    }
  }

  // ----- the evaluator, statement by statement -----

  method AppendShare(lines: seq<Line>, rule: Rule, tiers: seq<Tier>, index: nat, quantity: int, ghost shares: seq<int>)
    returns (next: seq<Line>)
    requires index == |shares| < |tiers| && lines == ShareLines(rule, tiers, shares, index)
    ensures next == ShareLines(rule, tiers, shares + [quantity], index + 1)
  {
    hide Decimal, EnergyLine;
    ShareLinesPrefix(rule, tiers, shares, [quantity]);
    if quantity != 0 {
      return lines + [EnergyLine(rule, ".tier_" + Decimal(index + 1), quantity, tiers[index].rate)];
    }
    return lines;
  }

  method EvaluateTiers(rule: Rule, tiers: seq<Tier>, baseline: int, total: int) returns (r: Lines)
    requires Fractions(tiers)
    ensures r == TierLines(rule, tiers, baseline, total)
  {
    hide UpperBound, IntegralBound, ShareLines, TierShares, Prepend;
    var remaining, lower := total, 0;
    var lines: seq<Line> := [];
    ghost var shares: seq<int> := [];
    ghost var goal := TierShares(tiers, 0, baseline, total, 0);
    PrependNothing(goal);
    NoShares(rule, tiers);
    var index := 0;
    while index < |tiers|
      invariant 0 <= index <= |tiers| && |shares| == index
      invariant goal == Prepend(shares, TierShares(tiers, index, baseline, remaining, lower))
      invariant lines == ShareLines(rule, tiers, shares, index)
    {
      var tier := tiers[index];
      TierCase(tiers, index, baseline, remaining, lower);
      PrependCases(shares, TierShares(tiers, index, baseline, remaining, lower));
      if tier.Limited? && !IntegralBound(tier, baseline) {
        return Err(NonintegralTierBound);
      }
      var upper := if tier.Limited? then UpperBound(tier, baseline) else lower;
      var quantity := if tier.Limited? && upper - lower < remaining then upper - lower else remaining;
      if quantity < 0 {
        return Err(InvalidTierBound);
      }
      lines := AppendShare(lines, rule, tiers, index, quantity, shares);
      if remaining == quantity {
        return Ok(lines);
      }
      PrependSnoc(shares, quantity, TierShares(tiers, index + 1, baseline, remaining - quantity, upper));
      shares := shares + [quantity];
      remaining, lower := remaining - quantity, upper;
      index := index + 1;
    }
    NoTierLeft(tiers, baseline, remaining, lower);
    PrependCases(shares, TierShares(tiers, index, baseline, remaining, lower));
    if remaining != 0 {
      return Err(UncoveredTier);
    }
    assert shares + [] == shares;
    r := Ok(lines);
  }

  ghost function Prepend(before: seq<int>, r: Result<seq<int>, ReplayError>): Result<seq<int>, ReplayError> {
    match r
    case Ok(rest) => Ok(before + rest)
    case Err(e) => Err(e)
  }

  /** One tier of the definition, with the rest of the tiers folded up. */
  lemma {:induction false} TierCase(tiers: seq<Tier>, k: nat, baseline: int, remaining: int, lower: int)
    requires k < |tiers| && Fractions(tiers)
    ensures var tier := tiers[k];
            var upper := if tier.Limited? then UpperBound(tier, baseline) else lower;
            var quantity := if tier.Limited? && upper - lower < remaining then upper - lower else remaining;
            TierShares(tiers, k, baseline, remaining, lower) ==
              if tier.Limited? && !IntegralBound(tier, baseline) then Err(NonintegralTierBound)
              else if quantity < 0 then Err(InvalidTierBound)
              else if remaining == quantity then Ok([quantity])
              else Prepend([quantity], TierShares(tiers, k + 1, baseline, remaining - quantity, upper))
  {
    hide UpperBound, IntegralBound;
  }

  lemma {:induction false} NoTierLeft(tiers: seq<Tier>, baseline: int, remaining: int, lower: int)
    requires Fractions(tiers)
    ensures TierShares(tiers, |tiers|, baseline, remaining, lower) == if remaining != 0 then Err(UncoveredTier)
      else Ok([])
  {
  }

  lemma {:induction false} NoShares(rule: Rule, tiers: seq<Tier>)
    ensures ShareLines(rule, tiers, [], 0) == []
  {
  }

  lemma {:induction false} PrependNothing(r: Result<seq<int>, ReplayError>)
    ensures Prepend([], r) == r
  {
    assert r.Ok? ==> [] + r.value == r.value;
  }

  lemma {:induction false} PrependCases(before: seq<int>, r: Result<seq<int>, ReplayError>)
    ensures r.Ok? ==> Prepend(before, r) == Ok(before + r.value)
    ensures r.Err? ==> Prepend(before, r) == r
  {
  }

  lemma {:induction false} PrependSnoc(before: seq<int>, x: int, r: Result<seq<int>, ReplayError>)
    ensures Prepend(before + [x], r) == Prepend(before, Prepend([x], r))
  {
    if r.Ok? {
      assert before + [x] + r.value == before + ([x] + r.value);
    }
  }

  lemma {:induction false} ShareLinesPrefix(rule: Rule, tiers: seq<Tier>, shares: seq<int>, more: seq<int>)
    requires |shares| + |more| <= |tiers|
    ensures ShareLines(rule, tiers, shares + more, |shares|) == ShareLines(rule, tiers, shares, |shares|)
  {
    ShareLinesAgree(rule, tiers, shares + more, shares, |shares|);
  }

  lemma {:induction false} ShareLinesAgree(rule: Rule, tiers: seq<Tier>, a: seq<int>, b: seq<int>, n: nat)
    requires n <= |a| <= |tiers| && n <= |b| <= |tiers| && forall i :: 0 <= i < n ==> a[i] == b[i]
    ensures ShareLines(rule, tiers, a, n) == ShareLines(rule, tiers, b, n)
  {
    if n > 0 {
      ShareLinesAgree(rule, tiers, a, b, n - 1);
    }
  }

  /** `_period_energy`: one pass over the intervals, refusing the first unclassified one. */
  method PeriodTotals(periods: seq<Option<Period>>, energy: seq<int>) returns (r: Result<map<Period, int>, ReplayError>)
    requires |periods| == |energy|
    ensures r.Err? <==> !AllClassified(periods)
    ensures r.Err? ==> r.error == IntervalRefused
    ensures r.Ok? ==> forall p :: (if p in r.value then r.value[p] else 0) == PeriodEnergy(periods, energy, p)
  {
    var totals: map<Period, int> := map[];
    for i := 0 to |energy|
      invariant AllClassified(periods[..i])
      invariant forall p :: (if p in totals then totals[p] else 0) == PeriodEnergy(periods[..i], energy[..i], p)
    {
      if periods[i].None? {
        return Err(IntervalRefused);
      }
      var period := periods[i].value;
      assert periods[..i + 1][..i] == periods[..i] && energy[..i + 1][..i] == energy[..i];
      totals := totals[period := (if period in totals then totals[period] else 0) + energy[i]];
    }
    assert periods[..|energy|] == periods && energy[..|energy|] == energy;
    r := Ok(totals);
  }

  method EvaluatePeriods(rule: Rule, rates: seq<PeriodRate>, periods: seq<Option<Period>>, energy: seq<int>)
    returns (r: Lines)
    requires |periods| == |energy|
    ensures r == if AllClassified(periods) then Ok(PeriodLines(rule, rates, |rates|, periods, energy))
      else Err(IntervalRefused)
  {
    var totals := PeriodTotals(periods, energy);
    if totals.Err? {
      return Err(totals.error);
    }
    var lines: seq<Line> := [];
    for i := 0 to |rates|
      invariant lines == PeriodLines(rule, rates, i, periods, energy)
    {
      var rate := rates[i];
      var quantity := if rate.period in totals.value then totals.value[rate.period] else 0;
      if quantity != 0 {
        lines := lines + [EnergyLine(rule, PeriodName(rate.period), quantity, rate.rate)];
      }
    }
    r := Ok(lines);
  }

  /** `replay_compiled_tariff`, up to the sum of its lines. */
  method ReplayCompiledTariff(rules: seq<Rule>, account: Account, energy: seq<int>) returns (r: Lines)
    requires WellFormed(rules, |energy|)
    ensures r == Replay(rules, account, energy)
  {
    if !account.eligible {
      return Err(NotEligible);
    }
    if !account.bounded {
      return Err(UnboundedBillingPeriod);
    }
    if account.days <= 0 || account.days > account.maximumDays {
      return Err(InvalidBillingPeriod);
    }
    if Sum(energy) > account.maximumEnergy {
      return Err(EnergyBoundExceeded);
    }
    var baseline := Baseline(rules, account.days);
    if baseline.Err? {
      return Err(baseline.error);
    }
    var lines: seq<Line> := [];
    for i := 0 to |rules|
      invariant BillLines(rules, i, account, baseline.value, energy) == Ok(lines)
      invariant forall e :: BillLines(rules, i, account, baseline.value, energy) != Err(e)
    {
      var next := EvaluateRule(rules[i], rules, account, baseline.value, energy);
      if next.Err? {
        BillLinesStop(rules, i + 1, account, baseline.value, energy);
        return next;
      }
      lines := lines + next.value;
    }
    r := Ok(lines);
  }

  method EvaluateRule(rule: Rule, rules: seq<Rule>, account: Account, baseline: int, energy: seq<int>)
      returns (r: Lines)
    requires WellFormed(rules, |energy|) && rule in rules
    ensures r == LinesOf(rule, rules, account, baseline, energy)
  {
    if !rule.applies || rule.charge.BaselineAllowance? || rule.charge.Schedule? || rule.charge.Unsupported? {
      return Ok([]);
    }
    match rule.charge {
      case TieredEnergy(tiers) =>
        r := EvaluateTiers(rule, tiers, baseline, Sum(energy));
      case TimeOfUse(id, rates, credit) =>
        var schedules := SchedulesOf(rules, id);
        if |schedules| != 1 {
          return Err(ScheduleAmbiguity);
        }
        SchedulesOfWellFormed(rules, id, |energy|);
        r := EvaluatePeriods(rule, rates, schedules[0], energy);
        if r.Ok? {
          r := Ok(r.value + CreditLines(rule, credit, baseline, Sum(energy)));
        }
      case FixedDaily(rate) =>
        r := Ok([AmountLine(rule, account.days, account.days * rate)]);
      case FixedMonthly(amount) =>
        r := Ok([AmountLine(rule, 1, amount)]);
    }
  }

  /** The first rule that fails decides the outcome. */
  lemma {:induction false} BillLinesStop(rules: seq<Rule>, n: nat, account: Account, baseline: int, energy: seq<int>)
    requires WellFormed(rules, |energy|) && n <= |rules|
    ensures BillLines(rules, n, account, baseline, energy).Err? ==>
      BillLines(rules, |rules|, account, baseline, energy) == BillLines(rules, n, account, baseline, energy)
    decreases |rules| - n
  {
    if n < |rules| {
      BillLinesStop(rules, n + 1, account, baseline, energy);
    }
  }
}
