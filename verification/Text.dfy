/** Decimal notation. */
module Text {

  /** Decimal digits, as `str` writes a non-negative integer. */
  function Decimal(n: nat): string {
    if n < 10 then [Digit(n)] else Decimal(n / 10) + [Digit(n % 10)]
  }

  function Digit(n: nat): char
    requires n < 10
  {
    '0' + n as char
  }

  predicate IsDigit(ch: char) {
    '0' <= ch <= '9'
  }

  /** The number that a non-empty string of digits denotes. */
  function Parse(s: string): nat
    requires forall ch :: ch in s ==> IsDigit(ch)
  {
    if s == [] then 0
    else
      assert IsDigit(s[|s| - 1]);
      Parse(s[..|s| - 1]) * 10 + (s[|s| - 1] as int - '0' as int)
  }

  /** Reading back what was written. */
  lemma {:induction false} DecimalParses(n: nat)
    ensures Decimal(n) != [] && (forall ch :: ch in Decimal(n) ==> IsDigit(ch)) && Parse(Decimal(n)) == n
  {
    if n >= 10 {
      DecimalParses(n / 10);
      var s := Decimal(n);
      assert s[..|s| - 1] == Decimal(n / 10);
    } else {
      assert Decimal(n)[..0] == [];
    }
  }

  function Zeros(k: nat): string {
    seq(k, i => '0')
  }

  lemma {:induction false} ZerosParse(s: string)
    requires forall ch :: ch in s ==> IsDigit(ch)
    ensures Parse(s) == 0 <==> s == Zeros(|s|)
  {
    if s != [] {
      ZerosParse(s[..|s| - 1]);
      assert Zeros(|s|)[..|s| - 1] == Zeros(|s| - 1);
      assert s == s[..|s| - 1] + [s[|s| - 1]] && IsDigit(s[|s| - 1]);
      assert Zeros(|s|) == Zeros(|s| - 1) + ['0'];
    }
  }

  lemma {:induction false} LastDigit(last: char, n: nat)
    requires IsDigit(last)
    ensures forall m: nat :: m * 10 + (last as int - '0' as int) == n <==> m == n / 10 && last == Digit(n % 10)
  {
    var d := last as int - '0' as int;
    assert last == Digit(d);
    forall m: nat
      ensures m * 10 + d == n <==> m == n / 10 && d == n % 10
    {
    }
  }

  /** What denotes a positive number: its decimal notation after any number of zeros. */
  lemma {:induction false} DenotesExactly(s: string, n: nat)
    requires n >= 1
    ensures (forall ch :: ch in s ==> IsDigit(ch)) && Parse(s) == n <==>
            |s| >= |Decimal(n)| && s == Zeros(|s| - |Decimal(n)|) + Decimal(n)
  {
    if s != [] {
      var rest, last := s[..|s| - 1], s[|s| - 1];
      assert s == rest + [last];
      assert forall ch :: ch in s <==> ch in rest || ch == last;
      if IsDigit(last) {
        LastDigit(last, n);
      }
      if n < 10 {
        if rest == Zeros(|rest|) {
          assert forall ch :: ch in rest ==> ch == '0';
        }
        if forall ch :: ch in rest ==> IsDigit(ch) {
          ZerosParse(rest);
          assert IsDigit(last) ==> Parse(s) == Parse(rest) * 10 + (last as int - '0' as int);
        }
        assert |s| >= 1 && (s == Zeros(|s| - 1) + [Digit(n)] <==> rest == Zeros(|rest|) && last == Digit(n));
      } else {
        DenotesExactly(rest, n / 10);
        var k := |s| - |Decimal(n)|;
        if k >= 0 {
          var zeros := Zeros(k);
          assert zeros + Decimal(n) == (zeros + Decimal(n / 10)) + [Digit(n % 10)];
          assert s == zeros + Decimal(n) <==> rest == zeros + Decimal(n / 10) && last == Digit(n % 10) by {
            if s == zeros + Decimal(n) {
              assert rest == (zeros + Decimal(n))[..|s| - 1];
            }
          }
        }
      }
    }
  }
}
