/** Half-up cent rounding, as it is written three times: scripts/validate_m3_goldens.py,
  benchmarks/reference/m8_golden_derivations.py and packages/tariffs/ratereplay_tariffs/ir.py. */
module Rounding {
  import opened Arithmetic

  /** `_half_up`: the magnitude is divided with remainder, half rounds up, and the sign is restored. */
  function HalfUp(numerator: int, denominator: int): int
    requires denominator > 0
  {
    var magnitude := Abs(numerator);
    var quotient := magnitude / denominator;
    var rounded := if (magnitude % denominator) * 2 >= denominator then quotient + 1 else quotient;
    if numerator < 0 then -rounded else rounded
  }

  /** The nearest integer to a fraction; a tie goes away from zero. */
  ghost predicate Nearest(numerator: int, denominator: int, k: int) {
    var twice := 2 * (k * denominator);
    if numerator >= 0 then
      twice - denominator <= 2 * numerator < twice + denominator
    else
      twice - denominator < 2 * numerator <= twice + denominator
  }

  lemma {:induction false} NearestIsUnique(numerator: int, denominator: int, j: int, k: int)
    requires denominator > 0 && Nearest(numerator, denominator, j) && Nearest(numerator, denominator, k)
    ensures j == k
  {
    if j < k {
      MultiplesApart(j, k, denominator);
    } else if k < j {
      MultiplesApart(k, j, denominator);
    }
  }

  /** `_half_up` returns the nearest integer, ties away from zero, and only that integer. */
  lemma {:induction false} HalfUpIsNearest(numerator: int, denominator: int, k: int)
    requires denominator > 0
    ensures HalfUp(numerator, denominator) == k <==> Nearest(numerator, denominator, k)
  {
    HalfUpNear(numerator, denominator);
    if Nearest(numerator, denominator, k) {
      NearestIsUnique(numerator, denominator, HalfUp(numerator, denominator), k);
    }
  }

  lemma {:induction false} HalfUpNear(numerator: int, denominator: int)
    requires denominator > 0
    ensures Nearest(numerator, denominator, HalfUp(numerator, denominator))
  {
    var m := Abs(numerator);
    DivisionFacts(m, denominator);
    NextMultiple(m / denominator, denominator);
  }

  lemma {:induction false} HalfUpIsOdd(numerator: int, denominator: int)
    requires denominator > 0
    ensures HalfUp(-numerator, denominator) == -HalfUp(numerator, denominator)
  {
  }

  lemma {:induction false} HalfUpIsMonotone(a: int, b: int, denominator: int)
    requires denominator > 0 && a <= b
    ensures HalfUp(a, denominator) <= HalfUp(b, denominator)
  {
    hide HalfUp;
    var j, k := HalfUp(a, denominator), HalfUp(b, denominator);
    HalfUpNear(a, denominator);
    HalfUpNear(b, denominator);
    if k < j {
      MultiplesApart(k, j, denominator);
    }
  }

  /** Reducing a fraction to lowest terms, or not, makes no difference. */
  lemma {:induction false} HalfUpIgnoresScale(numerator: int, denominator: int, scale: int)
    requires denominator > 0 && scale > 0
    ensures denominator * scale > 0 && HalfUp(numerator * scale, denominator * scale) == HalfUp(numerator, denominator)
  {
    hide HalfUp;
    var k := HalfUp(numerator, denominator);
    HalfUpNear(numerator, denominator);
    var twice := 2 * (k * denominator);
    ScaleOrder(twice - denominator, 2 * numerator, scale);
    ScaleOrder(2 * numerator, twice + denominator, scale);
    ScaleOrder(0, denominator, scale);
    ScaleOrder(0, numerator, scale);
    Distribute(k, numerator, denominator, scale);
    HalfUpIsNearest(numerator * scale, denominator * scale, k);
  }

  lemma {:induction false} Distribute(k: int, n: int, d: int, scale: int)
    ensures (2 * n) * scale == 2 * (n * scale)
    ensures (2 * (k * d) - d) * scale == 2 * (k * (d * scale)) - d * scale
    ensures (2 * (k * d) + d) * scale == 2 * (k * (d * scale)) + d * scale
  {
    assert (k * d) * scale == k * (d * scale);
    assert (2 * (k * d) - d) * scale == 2 * ((k * d) * scale) - d * scale;
    assert (2 * (k * d) + d) * scale == 2 * ((k * d) * scale) + d * scale;
  }

  lemma {:induction false} ScaleOrder(a: int, b: int, scale: int)
    requires scale > 0
    ensures a < b <==> a * scale < b * scale
    ensures a <= b <==> a * scale <= b * scale
  {
    if a < b {
      MultiplesApart(a, b, scale);
    } else if b < a {
      MultiplesApart(b, a, scale);
    }
  }

  /** Adding half the denominator and taking the floor rounds a non-negative fraction half up. */
  lemma {:induction false} HalfUpByFloor(numerator: nat, denominator: int, half: int)
    requires half > 0 && denominator == 2 * half
    ensures HalfUp(numerator, denominator) == (numerator + half) / denominator
  {
    DivisionFacts(numerator + half, denominator);
    HalfUpIsNearest(numerator, denominator, (numerator + half) / denominator);
  }

  // ----- a line and a bill -----

  const MICRODOLLARS_PER_CENT := 10_000
  const WATT_HOURS_PER_KWH := 1_000

  /** `round_half_up_cents` of the fraction numerator/denominator of microdollars. */
  function CentsOf(numerator: int, denominator: int): int
    requires denominator > 0
  {
    HalfUp(numerator, denominator * MICRODOLLARS_PER_CENT)
  }

  /** The cents of an energy line: watt-hours times microdollars per kilowatt-hour. */
  function EnergyCents(quantity: int, rate: int): int {
    CentsOf(quantity * rate, WATT_HOURS_PER_KWH)
  }

  /** An exact amount, `numerator / denominator` cents. */
  datatype Exact = Exact(numerator: int, denominator: int)

  ghost predicate Divides(lines: seq<Exact>, common: int) {
    forall i :: 0 <= i < |lines| ==> lines[i].denominator > 0 && common % lines[i].denominator == 0
  }

  /** The exact total, counted in units of `1 / common` cents. */
  ghost function ExactTotal(lines: seq<Exact>, common: int): int
    requires common > 0 && Divides(lines, common)
  {
    if lines == [] then 0 else
    var line := lines[|lines| - 1];
    ExactTotal(lines[..|lines| - 1], common) + line.numerator * (common / line.denominator)
  }

  ghost function RoundedTotal(lines: seq<Exact>, common: int): int
    requires common > 0 && Divides(lines, common)
  {
    if lines == [] then 0 else
    var line := lines[|lines| - 1];
    RoundedTotal(lines[..|lines| - 1], common) + HalfUp(line.numerator, line.denominator)
  }

  /** A bill of n separately rounded lines is within n half-cents of its exact total. */
  lemma {:induction false} BillErrorBound(lines: seq<Exact>, common: int)
    requires common > 0 && Divides(lines, common)
    ensures Abs(2 * (RoundedTotal(lines, common) * common - ExactTotal(lines, common))) <= |lines| * common
  {
    hide HalfUp;
    if lines != [] {
      var rest, line := lines[..|lines| - 1], lines[|lines| - 1];
      BillErrorBound(rest, common);
      DivisionFacts(common, line.denominator);
      var cents := HalfUp(line.numerator, line.denominator);
      LineErrorBound(line.numerator, line.denominator, common / line.denominator, cents);
      Accumulate(RoundedTotal(rest, common), cents, |rest|, common);
    }
  }

  lemma {:induction false} Accumulate(total: int, cents: int, n: int, common: int)
    ensures (total + cents) * common == total * common + cents * common && (n + 1) * common == n * common + common
  {
  }

  lemma {:induction false} LineErrorBound(numerator: int, denominator: int, scale: int, cents: int)
    requires denominator > 0 && scale >= 0 && cents == HalfUp(numerator, denominator)
    ensures Abs(2 * (cents * (scale * denominator) - numerator * scale)) <= scale * denominator
  {
    hide HalfUp;
    HalfUpNear(numerator, denominator);
    ScaleBetween(2 * (cents * denominator - numerator), denominator, scale);
    Regroup(cents, numerator, denominator, scale);
  }

  lemma {:induction false} Regroup(cents: int, numerator: int, denominator: int, scale: int)
    ensures 2 * (cents * (scale * denominator) - numerator * scale) == (2 * (cents * denominator - numerator)) * scale
  {
    assert cents * (scale * denominator) == (cents * denominator) * scale;
  }

  lemma {:induction false} ScaleBetween(x: int, bound: int, scale: int)
    requires -bound <= x <= bound && scale >= 0
    ensures -(scale * bound) <= x * scale <= scale * bound
  {
    assert (bound - x) * scale >= 0 && (bound + x) * scale >= 0;
  }
}
