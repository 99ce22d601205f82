/** The golden derivation in decimal arithmetic (benchmarks/reference/m8_golden_derivations.py): division
  by a power of ten keeps 28 digits, ties to even, and the quotient is then quantised to whole cents by
  looking at the first digit it drops. */
module Decimals {
  import opened Arithmetic
  import opened Results
  import opened Rounding

  /** A nonnegative decimal: `coefficient * 10^exponent`. */
  datatype Number = Number(coefficient: int, exponent: int)

  datatype DecimalError = InvalidOperation

  const PRECISION := 28

  // ----- powers of ten -----

  function Power(e: nat): (p: nat)
    ensures p >= 1
  {
    if e == 0 then 1 else 10 * Power(e - 1)
  }

  lemma {:induction false} PowerAdd(a: nat, b: nat)
    ensures Power(a + b) == Power(a) * Power(b)
  {
    if a > 0 {
      PowerAdd(a - 1, b);
      assert Power(a + b) == 10 * Power(a - 1 + b);
      assert 10 * (Power(a - 1) * Power(b)) == (10 * Power(a - 1)) * Power(b);
    }
  }

  lemma {:induction false} PowerSplit(j: nat, e: nat)
    requires e <= j
    ensures Power(j) == Power(j - e) * Power(e)
  {
    hide Power;
    PowerAdd(j - e, e);
    assert j - e + e == j;
  }

  lemma {:induction false} PowerOrder(a: nat, b: nat)
    requires a <= b
    ensures Power(a) <= Power(b)
  {
    PowerAdd(a, b - a);
    assert Power(a) * Power(b - a) >= Power(a);
  }

  lemma {:induction false} PowerStep(e: nat)
    requires e > 0
    ensures Power(e) == 10 * Power(e - 1) && Power(e) % 2 == 0 && Power(e) / 2 == 5 * Power(e - 1)
  {
    HalfOfTen(Power(e - 1));
  }

  lemma {:induction false} HalfOfTen(p: nat)
    ensures (10 * p) % 2 == 0 && (10 * p) / 2 == 5 * p
  {
  }

  // ----- rounding a coefficient to 28 digits -----

  /** How many digits a coefficient has beyond the precision. */
  function Excess(c: int): nat
    decreases if c < 0 then 0 else c
  {
    if c < Power(PRECISION) then 0 else 1 + Excess(c / 10)
  }

  /** The leading digits, ties to the even digit. */
  function HalfEven(c: int, unit: nat): int
    requires unit > 0
  {
    var q, r := c / unit, c % unit;
    if 2 * r < unit || (2 * r == unit && q % 2 == 0) then q else q + 1
  }

  /** A coefficient that has grown to 29 digits is a power of ten and gives up its last zero. */
  function Carried(x: Number): Number {
    if x.coefficient >= Power(PRECISION) then Number(x.coefficient / 10, x.exponent + 1) else x
  }

  function Fit(x: Number): Number {
    var j := Excess(x.coefficient);
    Carried(Number(HalfEven(x.coefficient, Power(j)), x.exponent + j))
  }

  /** `Decimal(n) / Decimal(10**e)`. */
  function Divide(n: nat, e: nat): Number {
    var places: int := e;
    Fit(Number(n, -places))
  }

  // ----- quantising -----

  /** `_round_half_up`: the first dropped digit decides. */
  function DropDigits(c: int, k: nat): int
    requires k > 0
  {
    if (c / Power(k - 1)) % 10 >= 5 then c / Power(k) + 1 else c / Power(k)
  }

  /** `quantize(Decimal("1"), rounding=ROUND_HALF_UP)`: refused when the result has more than 28 digits. */
  function Quantize(x: Number): Result<int, DecimalError> {
    var whole := if x.exponent >= 0 then x.coefficient * Power(x.exponent) else DropDigits(x.coefficient, -x.exponent);
    if whole < Power(PRECISION) then Ok(whole) else Err(InvalidOperation)
  }

  /** `_round_ratio` for a denominator of `10^e`; the sign is carried along. */
  function RoundRatio(numerator: int, e: nat): Result<int, DecimalError> {
    match Quantize(Divide(Abs(numerator), e))
    case Ok(cents) => Ok(if numerator < 0 then -cents else cents)
    case Err(error) => Err(error)
  }

  // ----- the first dropped digit -----

  /** Dropping one digit more. */
  lemma {:induction false} Quotients(c: nat, a: int)
    requires a > 0
    ensures c / (10 * a) == (c / a) / 10 && c % (10 * a) == ((c / a) % 10) * a + c % a
  {
    var q, r := c / a, c % a;
    var s, t := q / 10, q % 10;
    DivisionFacts(c, a);
    assert q == 10 * s + t;
    Regrouped(a, s, t);
    MultiplesApart(t, 10, a);
    ProductNotNegative(t, a);
    QuotientIs(c, 10 * a, s, t * a + r);
  }

  lemma {:induction false} Regrouped(a: int, s: int, t: int)
    ensures (10 * s + t) * a == (10 * a) * s + t * a
  {
    assert (10 * s) * a == (10 * a) * s;
  }

  lemma {:induction false} QuotientIs(c: int, d: int, q: int, r: int)
    requires d > 0 && c == d * q + r && 0 <= r < d
    ensures c / d == q && c % d == r
  {
    var p, s := c / d, c % d;
    assert c == d * p + s && d * p == p * d && d * q == q * d;
    if p < q {
      MultiplesApart(p, q, d);
    } else if q < p {
      MultiplesApart(q, p, d);
    }
  }

  lemma {:induction false} FirstDigit(digit: int, p: int, r: int)
    requires p > 0 && 0 <= r < p && 0 <= digit
    ensures digit >= 5 <==> (digit * p + r) * 2 >= 10 * p
  {
    if digit >= 5 {
      ProductNotNegative(digit - 5, p);
      assert digit * p == 5 * p + (digit - 5) * p;
    } else {
      ProductNotNegative(4 - digit, p);
      assert digit * p == 4 * p - (4 - digit) * p;
    }
  }

  /** Deciding by the first dropped digit is rounding half up. */
  lemma {:induction false} DropDigitsIsHalfUp(c: nat, k: nat)
    requires k > 0
    ensures DropDigits(c, k) == HalfUp(c, Power(k))
  {
    hide Power;
    PowerStep(k);
    var p := Power(k - 1);
    Quotients(c, p);
    FirstDigit((c / p) % 10, p, c % p);
  }

  // ----- how many digits are lost -----

  /** The excess is what it says: a coefficient with 28 + j digits loses j of them. */
  lemma {:induction false} ExcessBounds(c: nat)
    ensures c < Power(PRECISION + Excess(c))
    ensures Excess(c) > 0 ==> c >= Power(PRECISION - 1 + Excess(c))
  {
    hide Power;
    if c >= Power(PRECISION) {
      ExcessBounds(c / 10);
      var j := Excess(c / 10);
      PowerStep(PRECISION + 1 + j);
      PowerStep(PRECISION);
      PowerStep(PRECISION + j);
      if j == 0 {
        assert c >= Power(PRECISION);
      }
    }
  }

  lemma {:induction false} ExcessIs(c: nat, j: nat)
    requires Power(PRECISION - 1 + j) <= c < Power(PRECISION + j)
    ensures Excess(c) == j
  {
    hide Power, Excess;
    ExcessBounds(c);
    var k := Excess(c);
    if k < j {
      PowerOrder(PRECISION + k, PRECISION - 1 + j);
    } else if k > j {
      PowerOrder(PRECISION + j, PRECISION - 1 + k);
    }
  }

  function Scaled(h: int, j: nat): int {
    h * Power(j)
  }

  /** The number a division keeps, in units of one over the denominator. */
  function Kept(n: nat): int {
    Scaled(HalfEven(n, Power(Excess(n))), Excess(n))
  }

  lemma {:induction false} HalfEvenBetween(c: nat, unit: nat)
    requires unit > 0
    ensures HalfEven(c, unit) >= 0
    ensures c - unit < HalfEven(c, unit) * unit < c + unit
  {
    DivisionFacts(c, unit);
    NextMultiple(c / unit, unit);
    QuotientNotNegative(c, unit);
  }

  lemma {:induction false} QuotientNotNegative(c: nat, unit: nat)
    requires unit > 0
    ensures c / unit >= 0
  {
  }

  /** The kept digits are at most 28, or the power of ten after them, and at least 28 if any were lost. */
  lemma {:induction false} KeptDigits(n: nat)
    ensures 0 <= HalfEven(n, Power(Excess(n))) <= Power(PRECISION)
    ensures Excess(n) > 0 ==> HalfEven(n, Power(Excess(n))) >= Power(PRECISION - 1)
  {
    hide Power, Excess, HalfEven;
    var j := Excess(n);
    var h := HalfEven(n, Power(j));
    ExcessBounds(n);
    HalfEvenBetween(n, Power(j));
    PowerAdd(PRECISION, j);
    if h > Power(PRECISION) {
      MultiplesApart(Power(PRECISION), h, Power(j));
    }
    if j > 0 {
      PowerAdd(PRECISION - 1, j);
      if h < Power(PRECISION - 1) {
        MultiplesApart(h, Power(PRECISION - 1), Power(j));
      }
    }
  }

  // ----- quantising is rounding half up -----

  function Whole(x: Number): int {
    if x.exponent >= 0 then x.coefficient * Power(x.exponent) else DropDigits(x.coefficient, -x.exponent)
  }

  lemma {:induction false} WholeMultiple(k: nat, d: int)
    requires d > 0
    ensures HalfUp(k * d, d) == k
  {
    hide HalfUp;
    ProductNotNegative(k, d);
    HalfUpIsNearest(k * d, d, k);
  }

  lemma {:induction false} ShiftedMultiple(h: nat, a: nat, d: int)
    requires d > 0
    ensures HalfUp(h * (a * d), d) == h * a
  {
    hide HalfUp;
    Associate(h, a, d);
    ProductNotNegative(h, a);
    WholeMultiple(h * a, d);
  }

  lemma {:induction false} Associate(a: int, b: int, c: int)
    ensures a * (b * c) == (a * b) * c
  {
  }

  lemma {:induction false} ScaledRatio(h: nat, a: int, u: int)
    requires a > 0 && u > 0
    ensures a * u > 0 && HalfUp(h * u, a * u) == HalfUp(h, a)
  {
    HalfUpIgnoresScale(h, a, u);
  }

  lemma {:induction false} ShiftUp(h: nat, u: int, a: nat, d: int)
    requires d > 0 && u == a * d
    ensures HalfUp(h * u, d) == h * a
  {
    hide HalfUp;
    ShiftedMultiple(h, a, d);
  }

  lemma {:induction false} ShiftDown(h: nat, u: int, a: int, d: int)
    requires a > 0 && u > 0 && d == a * u
    ensures d > 0 && HalfUp(h * u, d) == HalfUp(h, a)
  {
    hide HalfUp;
    ScaledRatio(h, a, u);
  }

  /** The whole number of a scaled coefficient is its half-up quotient. */
  lemma {:induction false} WholeIsHalfUp(h: nat, j: nat, e: nat)
    ensures Whole(Number(h, j as int - e as int)) == HalfUp(Scaled(h, j), Power(e))
  {
    hide Power, HalfUp, DropDigits;
    if j >= e {
      PowerSplit(j, e);
      ShiftUp(h, Power(j), Power(j - e), Power(e));
    } else {
      DropDigitsIsHalfUp(h, e - j);
      PowerSplit(e, j);
      ShiftDown(h, Power(j), Power(e - j), Power(e));
    }
  }

  /** Giving up a zero does not change the whole number. */
  lemma {:induction false} CarriedWhole(x: Number)
    requires 0 <= x.coefficient <= Power(PRECISION)
    ensures Whole(Carried(x)) == Whole(x)
  {
    if x.coefficient == Power(PRECISION) {
      hide Power, DropDigits;
      PowerStep(PRECISION);
      var c := Power(PRECISION - 1);
      assert x.coefficient == 10 * c && x.coefficient / 10 == c;
      if x.exponent >= 0 {
        PowerStep(x.exponent + 1);
        Associate(c, 10, Power(x.exponent));
      } else {
        CarriedDrop(c, -x.exponent);
      }
    }
  }

  lemma {:induction false} CarriedDrop(c: nat, k: nat)
    requires k > 0
    ensures DropDigits(10 * c, k) == if k == 1 then c * Power(0) else DropDigits(c, k - 1)
  {
    hide HalfUp;
    DropDigitsIsHalfUp(10 * c, k);
    PowerStep(k);
    if k == 1 {
      WholeMultiple(c, 10);
    } else {
      hide Power;
      DropDigitsIsHalfUp(c, k - 1);
      HalfUpIgnoresScale(c, Power(k - 1), 10);
    }
  }

  /** `_round_ratio` rounds the kept number half up, and refuses more than 28 digits. */
  lemma {:induction false} RoundRatioMeans(numerator: int, e: nat)
    ensures var cents := HalfUp(Kept(Abs(numerator)), Power(e));
            RoundRatio(numerator, e)
            == if cents < Power(PRECISION) then Ok(if numerator < 0 then -cents else cents) else Err(InvalidOperation)
  {
    hide Power, HalfUp, HalfEven, Excess, Carried, Scaled, DropDigits;
    var n := Abs(numerator);
    var j := Excess(n);
    var h := HalfEven(n, Power(j));
    KeptDigits(n);
    var places: int := e;
    CarriedWhole(Number(h, j - places));
    WholeIsHalfUp(h, j, e);
  }

  // ----- when the derivation refuses -----

  lemma {:induction false} ReachesExactly(y: nat, d: int, k: int)
    requires d > 0 && k >= 1
    ensures HalfUp(y, d) >= k <==> 2 * y >= 2 * (k * d) - d
  {
    hide HalfUp;
    var r := HalfUp(y, d);
    HalfUpIsNearest(y, d, r);
    if r > k {
      MultiplesApart(k, r, d);
    } else if r < k {
      MultiplesApart(r, k, d);
    }
  }

  lemma {:induction false} KeptBelow(n: nat, e: nat)
    requires Excess(n) < e
    ensures 0 <= Kept(n) && 10 * Kept(n) <= Power(PRECISION) * Power(e) && 10 * n <= Power(PRECISION) * Power(e)
  {
    hide Power, Excess, HalfEven;
    var j := Excess(n);
    var h := HalfEven(n, Power(j));
    KeptDigits(n);
    ExcessBounds(n);
    PowerAdd(PRECISION, j);
    PowerAdd(PRECISION, e);
    PowerStep(PRECISION + j + 1);
    PowerOrder(PRECISION + j + 1, PRECISION + e);
    ProductNotNegative(h, Power(j));
    ProductNotNegative(Power(PRECISION) - h, Power(j));
    ProductAtMost(h, Power(PRECISION), Power(j));
  }

  lemma {:induction false} KeptAbove(n: nat, e: nat)
    requires Excess(n) > e
    ensures Kept(n) >= Power(PRECISION) * Power(e) && n >= Power(PRECISION) * Power(e)
  {
    hide Power, Excess, HalfEven;
    var j := Excess(n);
    var h := HalfEven(n, Power(j));
    KeptDigits(n);
    ExcessBounds(n);
    PowerAdd(PRECISION - 1, j);
    PowerAdd(PRECISION, e);
    PowerOrder(PRECISION + e, PRECISION - 1 + j);
    ProductAtMost(Power(PRECISION - 1), h, Power(j));
  }

  /** With as many digits lost as the denominator has zeros, rounding twice is rounding to even. */
  lemma {:induction false} KeptAt(n: nat, e: nat)
    requires Excess(n) == e
    ensures Kept(n) >= 0 && HalfUp(Kept(n), Power(e)) == HalfEven(n, Power(e))
    ensures n / Power(e) < Power(PRECISION)
  {
    hide Power, Excess, HalfEven, HalfUp;
    var h := HalfEven(n, Power(e));
    KeptDigits(n);
    ProductNotNegative(h, Power(e));
    WholeMultiple(h, Power(e));
    ExcessBounds(n);
    PowerAdd(PRECISION, e);
    BelowProduct(n, Power(e), Power(PRECISION));
  }

  lemma {:induction false} BelowProduct(n: nat, d: int, k: int)
    requires d > 0 && n < k * d
    ensures n / d < k
  {
    DivisionFacts(n, d);
    if n / d >= k {
      ProductAtMost(k, n / d, d);
    }
  }

  lemma {:induction false} LimitIsEven()
    ensures Power(PRECISION) % 2 == 0
  {
    PowerStep(PRECISION);
  }

  /** Half up and half even differ only on a tie with an even quotient. */
  lemma {:induction false} TiesDiffer(n: nat, d: nat)
    requires d > 0
    ensures HalfUp(n, d) == HalfEven(n, d) <==> !(2 * (n % d) == d && (n / d) % 2 == 0)
    ensures n / d <= HalfEven(n, d) <= n / d + 1 && n / d <= HalfUp(n, d) <= n / d + 1
  {
  }

  lemma {:induction false} RefusedAlike(n: nat, e: nat)
    requires e >= 1
    ensures Kept(n) >= 0
    ensures HalfUp(Kept(n), Power(e)) >= Power(PRECISION) <==> HalfUp(n, Power(e)) >= Power(PRECISION)
  {
    hide Power, Excess, HalfEven, HalfUp, Kept;
    var d, k := Power(e), Power(PRECISION);
    var j := Excess(n);
    if j == e {
      KeptAt(n, e);
      TiesDiffer(n, d);
      LimitIsEven();
    } else {
      if j < e {
        KeptBelow(n, e);
      } else {
        KeptAbove(n, e);
      }
      ProductAtMost(1, k, d);
      ReachesExactly(Kept(n), d, k);
      ReachesExactly(n, d, k);
    }
  }

  // ----- when the two derivations part -----

  /** No multiple of a multiple of `unit` lies strictly between two neighbouring multiples of `unit`. */
  lemma {:induction false} NoneBetween(c: int, k: int, m: int, unit: int)
    requires unit > 0
    ensures k * (m * unit) <= c * unit || k * (m * unit) >= c * unit + unit
    ensures k * (m * unit) >= c * unit || k * (m * unit) <= c * unit - unit
  {
    Associate(k, m, unit);
    if k * m < c {
      MultiplesApart(k * m, c, unit);
    } else if k * m > c {
      MultiplesApart(c, k * m, unit);
    }
  }

  lemma {:induction false} QuotientReaches(n: nat, d: int, k: int)
    requires d > 0
    ensures n / d >= k <==> n >= k * d
  {
    DivisionFacts(n, d);
    if n / d >= k {
      ProductAtMost(k, n / d, d);
    } else {
      MultiplesApart(n / d, k, d);
    }
  }

  lemma {:induction false} OnMultiple(b: nat, d: int)
    requires d > 0
    ensures b % d == 0 <==> b == (b / d) * d
  {
    DivisionFacts(b, d);
  }

  /** Rounding to a multiple of `unit` first differs from rounding half up at once exactly when it moves
      the number up onto a half. */
  lemma {:induction false} RoundingTwice(n: nat, h: nat, unit: nat, half: nat, m: int)
    requires unit > 0 && half > 0 && half == m * unit && n - unit < h * unit < n + unit
    ensures HalfUp(h * unit, 2 * half) == HalfUp(n, 2 * half)
       <==> !(h * unit > n && (h * unit + half) % (2 * half) == 0)
  {
    hide HalfUp;
    var d, v := 2 * half, h * unit;
    HalfUpByFloor(n, d, half);
    HalfUpByFloor(v, d, half);
    var a, b := n + half, v + half;
    var p, q := a / d, b / d;
    SumOfMultiples(h, m, unit);
    QuotientReaches(a, d, p);
    QuotientReaches(a, d, q);
    QuotientReaches(b, d, p);
    QuotientReaches(b, d, q);
    NoneBetween(h + m, p, 2 * m, unit);
    NoneBetween(h + m, q, 2 * m, unit);
    OnMultiple(b, d);
  }

  lemma {:induction false} SumOfMultiples(h: int, m: int, unit: int)
    ensures (h + m) * unit == h * unit + m * unit && (2 * m) * unit == 2 * (m * unit)
  {
  }

  lemma {:induction false} HalfOfPower(e: nat, j: nat) returns (half: nat, m: int)
    requires j < e
    ensures half > 0 && Power(e) == 2 * half && half == m * Power(j)
  {
    hide Power;
    PowerStep(e);
    PowerSplit(e - 1, j);
    half, m := 5 * Power(e - 1), 5 * Power(e - 1 - j);
    Associate(5, Power(e - 1 - j), Power(j));
  }

  /** Where the derivations part: the 28 digits move the number up onto a half cent, or, when they end
      exactly at the cents, the number is a half cent after an even one. */
  predicate Parts(n: nat, e: nat) {
    if Excess(n) < e then
      Kept(n) > n && 2 * (Kept(n) % Power(e)) == Power(e)
    else
      2 * (n % Power(e)) == Power(e) && (n / Power(e)) % 2 == 0
  }

  lemma {:induction false} HalfResidue(v: nat, half: nat)
    requires half > 0
    ensures (v + half) % (2 * half) == 0 <==> 2 * (v % (2 * half)) == 2 * half
  {
    var d := 2 * half;
    DivisionFacts(v, d);
    var q, r := v / d, v % d;
    NextMultiple(q, d);
    if r < half {
      QuotientIs(v + half, d, q, r + half);
    } else {
      QuotientIs(v + half, d, q + 1, r - half);
    }
  }

  lemma {:induction false} PartsExactly(n: nat, e: nat)
    requires e >= 1 && Excess(n) <= e
    ensures Kept(n) >= 0 && (HalfUp(Kept(n), Power(e)) == HalfUp(n, Power(e)) <==> !Parts(n, e))
  {
    hide Power, Excess, HalfEven, HalfUp;
    var j := Excess(n);
    if j == e {
      KeptAt(n, e);
      TiesDiffer(n, Power(e));
    } else {
      var h := HalfEven(n, Power(j));
      HalfEvenBetween(n, Power(j));
      ProductNotNegative(h, Power(j));
      var half, m := HalfOfPower(e, j);
      RoundingTwice(n, h, Power(j), half, m);
      HalfResidue(Kept(n), half);
    }
  }

  /** The decimal derivation, for every numerator and every power of ten: it refuses exactly when the
      cents have more than 28 digits, and otherwise it gives the half-up cents exactly when the two
      roundings do not part. */
  lemma {:induction false} RoundRatioIsExact(numerator: int, e: nat)
    requires e >= 1
    ensures RoundRatio(numerator, e).Err? <==> Abs(HalfUp(numerator, Power(e))) >= Power(PRECISION)
    ensures RoundRatio(numerator, e).Ok? ==>
      (RoundRatio(numerator, e).value == HalfUp(numerator, Power(e)) <==> !Parts(Abs(numerator), e))
  {
    hide Power, Excess, Kept, HalfUp, Parts, RoundRatio;
    var n := Abs(numerator);
    RoundRatioMeans(numerator, e);
    RefusedAlike(n, e);
    HalfUpIsOdd(n, Power(e));
    HalfUpNotNegative(n, Power(e));
    HalfUpNotNegative(Kept(n), Power(e));
    if Excess(n) <= e {
      PartsExactly(n, e);
    } else {
      KeptAbove(n, e);
      ProductAtMost(1, Power(PRECISION), Power(e));
      ReachesExactly(n, Power(e), Power(PRECISION));
    }
  }

  lemma {:induction false} HalfUpNotNegative(n: nat, d: int)
    requires d > 0
    ensures HalfUp(n, d) >= 0
  {
    QuotientNotNegative(n, d);
  }

  lemma {:induction false} BelowLimit(n: nat, e: nat)
    requires Excess(n) < e
    ensures HalfUp(n, Power(e)) < Power(PRECISION)
  {
    hide Power, Excess, HalfUp, Kept;
    KeptBelow(n, e);
    ProductAtMost(1, Power(PRECISION), Power(e));
    ReachesExactly(n, Power(e), Power(PRECISION));
  }

  lemma {:induction false} ShortIsKept(n: nat)
    requires n < Power(PRECISION)
    ensures Excess(n) == 0 && Kept(n) == n
  {
    assert HalfEven(n, 1) == n;
  }

  /** Up to 28 digits the two derivations agree. */
  lemma {:induction false} RoundRatioAgrees(numerator: int, e: nat)
    requires e >= 1 && Abs(numerator) < Power(PRECISION)
    ensures RoundRatio(numerator, e) == Ok(HalfUp(numerator, Power(e)))
  {
    hide Power, HalfUp, RoundRatio, Kept, Excess;
    RoundRatioMeans(numerator, e);
    ShortIsKept(Abs(numerator));
    BelowLimit(Abs(numerator), e);
    HalfUpIsOdd(Abs(numerator), Power(e));
  }

  // ----- the lines of a golden case -----

  /** `_derive_line`: the three kinds of line, with their own denominators. */
  datatype GoldenLine =
    | EnergyLine(energyWh: int, rate: int)
    | DailyLine(days: int, ratePerDay: int)
    | FixedLine(amount: int)

  function LineNumerator(line: GoldenLine): int {
    match line
    case EnergyLine(energyWh, rate) => energyWh * rate
    case DailyLine(days, ratePerDay) => days * ratePerDay
    case FixedLine(amount) => amount
  }

  /** The zeros of the denominator: 10 000 000 for energy, 10 000 otherwise. */
  function LineZeros(line: GoldenLine): nat {
    if line.EnergyLine? then 7 else 4
  }

  function DeriveLine(line: GoldenLine): Result<int, DecimalError> {
    RoundRatio(LineNumerator(line), LineZeros(line))
  }

  /** The cents of the integer derivation and of the evaluator. */
  function LineCents(line: GoldenLine): int {
    match line
    case EnergyLine(energyWh, rate) => EnergyCents(energyWh, rate)
    case DailyLine(days, ratePerDay) => CentsOf(days * ratePerDay, 1)
    case FixedLine(amount) => CentsOf(amount, 1)
  }

  lemma {:induction false} PowerValues()
    ensures Power(4) == 10_000 && Power(7) == 10_000_000
  {
    assert Power(1) == 10 && Power(2) == 100 && Power(3) == 1_000;
    assert Power(5) == 100_000 && Power(6) == 1_000_000;
  }

  lemma {:induction false} LineCentsIsHalfUp(line: GoldenLine)
    ensures LineCents(line) == HalfUp(LineNumerator(line), Power(LineZeros(line)))
  {
    hide HalfUp, Power;
    PowerValues();
  }

  /** Every line of a golden case, exactly: when the decimal derivation refuses, when it gives the
      evaluator's cents, and that it always does up to 28 digits. */
  lemma {:induction false} DerivedLineIsExact(line: GoldenLine)
    ensures DeriveLine(line).Err? <==> Abs(LineCents(line)) >= Power(PRECISION)
    ensures DeriveLine(line).Ok? ==>
      (DeriveLine(line).value == LineCents(line) <==> !Parts(Abs(LineNumerator(line)), LineZeros(line)))
    ensures Abs(LineNumerator(line)) < Power(PRECISION) ==> DeriveLine(line) == Ok(LineCents(line))
  {
    hide Power, HalfUp, RoundRatio, Parts, LineNumerator, LineCents;
    LineCentsIsHalfUp(line);
    RoundRatioIsExact(LineNumerator(line), LineZeros(line));
    if Abs(LineNumerator(line)) < Power(PRECISION) {
      RoundRatioAgrees(LineNumerator(line), LineZeros(line));
    }
  }

  // ----- both ways of parting occur -----

  lemma {:induction false} LimitValue()
    ensures Power(PRECISION) == 10_000_000_000_000_000_000_000_000_000
  {
    PowerValues();
    PowerAdd(7, 7);
    PowerAdd(14, 14);
    PowerAdd(7, 14);
    assert Power(14) == 100_000_000_000_000;
  }

  lemma {:induction false} PowerOne()
    ensures Power(0) == 1 && Power(1) == 10
  {
  }

  /** 29 digits move a last 4 999 999 up to 5 000 000. */
  lemma {:induction false} PartsUpward()
    ensures Parts(Power(28) + 4_999_999, 7)
  {
    hide Power, Excess;
    LimitValue();
    PowerValues();
    PowerOne();
    PowerStep(29);
    var n := Power(28) + 4_999_999;
    ExcessIs(n, 1);
    assert HalfEven(n, 10) == 1_000_000_000_000_000_000_000_500_000;
  }

  /** When the digits end at the cents, a half after an even cent moves down: e more than 27 + e digits. */
  lemma {:induction false} PartsDownward(e: nat)
    requires e >= 1
    ensures Parts(Power(27 + e) + 5 * Power(e - 1), e)
  {
    hide Power, Excess;
    var n, d := Power(27 + e) + 5 * Power(e - 1), Power(e);
    PowerStep(e);
    PowerStep(28 + e);
    PowerOrder(e, 27 + e);
    ExcessIs(n, e);
    PowerAdd(27, e);
    PowerStep(27);
    QuotientIs(n, d, Power(27), 5 * Power(e - 1));
  }

  /** Lines on which the two derivations differ, in both ways. */
  lemma {:induction false} GoldenLinesPart(line: GoldenLine)
    requires line in [EnergyLine(Power(28) + 4_999_999, 1), EnergyLine(Power(34) + 5_000_000, 1),
      FixedLine(Power(31) + 5_000)]
    ensures DeriveLine(line).Ok? && DeriveLine(line).value != LineCents(line)
  {
    hide Power, Parts, DeriveLine, LineCents;
    PowerValues();
    PartsUpward();
    PartsDownward(7);
    PartsDownward(4);
    PowerSix();
    DerivedLineIsExact(line);
    GoldenLinesAreShort(line);
  }

  lemma {:induction false} PowerSix()
    ensures Power(6) == 1_000_000 && Power(3) == 1_000
  {
    assert Power(1) == 10 && Power(2) == 100 && Power(4) == 10_000 && Power(5) == 100_000;
  }

  lemma {:induction false} GoldenLinesAreShort(line: GoldenLine)
    requires line in [EnergyLine(Power(28) + 4_999_999, 1), EnergyLine(Power(34) + 5_000_000, 1),
      FixedLine(Power(31) + 5_000)]
    ensures Abs(LineCents(line)) < Power(PRECISION)
  {
    hide Power, HalfUp, LineCents;
    LineCentsIsHalfUp(line);
    LimitValue();
    PowerValues();
    PowerAdd(6, 28);
    PowerAdd(3, 28);
    PowerSix();
    var n, d, k := LineNumerator(line), Power(LineZeros(line)), Power(PRECISION);
    HalfUpNotNegative(n, d);
    ReachesExactly(n, d, k);
  }
}
