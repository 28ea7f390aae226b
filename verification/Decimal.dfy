/** Decimal rendering of natural numbers, as JavaScript's `String(n)` writes them. */
module Decimal {

  function Digit(d: nat): char
    requires d < 10
  {
    "0123456789"[d]
  }

  function Render(n: nat): (s: string)
    ensures |s| >= 1
  {
    if n < 10 then [Digit(n)] else Render(n / 10) + [Digit(n % 10)]
  }

  predicate IsDigit(c: char) {
    '0' <= c <= '9'
  }

  lemma {:induction false} RenderIsDigits(n: nat)
    ensures forall i :: 0 <= i < |Render(n)| ==> IsDigit(Render(n)[i])
  {
    if n >= 10 {
      RenderIsDigits(n / 10);
    }
  }

  /** The number that decimal digits stand for. */
  function Value(s: string): int {
    if s == "" then 0 else 10 * Value(s[..|s| - 1]) + (s[|s| - 1] as int - '0' as int)
  }

  lemma {:induction false} RenderHasValue(n: nat)
    ensures Value(Render(n)) == n
  {
    if n >= 10 {
      RenderHasValue(n / 10);
      assert Render(n)[..|Render(n)| - 1] == Render(n / 10);
    } else {
      assert Render(n)[..0] == "";
    }
  }

  lemma DigitIsInjective(a: nat, b: nat)
    requires a < 10 && b < 10 && Digit(a) == Digit(b)
    ensures a == b
  {}

  lemma {:induction false} RenderIsInjective(m: nat, n: nat)
    requires Render(m) == Render(n)
    ensures m == n
  {
    if m >= 10 && n >= 10 {
      var s, t := Render(m / 10), Render(n / 10);
      assert Render(m)[|s|] == Digit(m % 10) && Render(n)[|t|] == Digit(n % 10);
      assert s == Render(m)[..|s|] && t == Render(n)[..|t|];
      RenderIsInjective(m / 10, n / 10);
      DigitIsInjective(m % 10, n % 10);
    } else if m < 10 && n < 10 {
      assert Render(m)[0] == Render(n)[0];
      DigitIsInjective(m, n);
    }
  }

  lemma {:induction false} RenderGrows(m: nat, n: nat)
    requires m <= n
    ensures |Render(m)| <= |Render(n)|
  {
    if n >= 10 && m >= 10 {
      RenderGrows(m / 10, n / 10);
    }
  }

  lemma {:induction false} TenfoldAddsOneDigit(m: nat, n: nat)
    requires n <= 10 * m + 9
    ensures |Render(n)| <= |Render(m)| + 1
  {
    RenderGrows(n / 10, m);
  }

  /** Adding to a number adds no more digits than it adds units. */
  lemma {:induction false} RenderGrowsSlowly(m: nat, more: nat)
    ensures |Render(m + more)| <= |Render(m)| + more
  {
    if more > 0 {
      RenderGrowsSlowly(m, more - 1);
      TenfoldAddsOneDigit(m + more - 1, m + more);
    }
  }
}
