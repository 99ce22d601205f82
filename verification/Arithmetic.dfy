/** Small facts about products, quotients and finite sets that several modules share. */
module Arithmetic {

  function Abs(x: int): nat {
    if x < 0 then -x else x
  }

  function Min(a: int, b: int): int {
    if a < b then a else b
  }

  lemma {:induction false} DivisionFacts(m: nat, d: int)
    requires d > 0
    ensures m == (m / d) * d + m % d && 0 <= m % d < d
  {
  }

  /** Distinct multiples of a positive number are at least that number apart. */
  lemma {:induction false} MultiplesApart(j: int, k: int, d: int)
    requires d > 0 && j < k
    ensures j * d + d <= k * d
  {
    var m := k - j - 1;
    assert m >= 0 && m * d >= 0;
    assert k * d == j * d + d + m * d;
  }

  lemma {:induction false} NextMultiple(k: int, d: int)
    ensures (k + 1) * d == k * d + d && (-k) * d == -(k * d) && (-(k + 1)) * d == -(k * d) - d
  {
  }

  lemma {:induction false} ProductNotNegative(t: int, a: int)
    requires t >= 0 && a >= 0
    ensures t * a >= 0
  {
  }

  lemma {:induction false} ProductAtMost(a: int, b: int, w: int)
    requires a <= b && w >= 0
    ensures a * w <= b * w
  {
    var m := b - a;
    ProductNotNegative(m, w);
    assert b * w == a * w + m * w;
  }

  lemma {:induction false} SubsetSize<T>(a: set<T>, b: set<T>)
    requires a <= b
    ensures |a| <= |b|
  {
    assert b == a + (b - a);
  }

  lemma {:induction false} AddSize<T>(s: set<T>, x: T)
    ensures |s + {x}| == |s| + (if x in s then 0 else 1)
  {
    if x in s {
      assert s + {x} == s;
    }
  }

  lemma {:induction false} RemoveSize<T>(s: set<T>, x: T)
    ensures |s - {x}| == |s| - (if x in s then 1 else 0)
  {
    if x in s {
      assert s == (s - {x}) + {x};
      AddSize(s - {x}, x);
    } else {
      assert s - {x} == s;
    }
  }
}
