/** Products and quotients of natural numbers. */
module Arithmetic {

  function CeilDiv(a: nat, b: nat): (q: nat)
    requires b > 0
    ensures q * b >= a && (q - 1) * b < a
  {
    CeilBounds(a, b);
    (a + b - 1) / b
  }

  lemma CeilBounds(a: nat, b: nat)
    requires b > 0
    ensures var q := (a + b - 1) / b; q * b >= a && (q - 1) * b < a
  {
    var n := a + b - 1;
    assert n == n / b * b + n % b;
    assert (n / b - 1) * b == n / b * b - b;
  }

  lemma MulMono(x: int, y: int, k: nat)
    requires x <= y
    ensures x * k <= y * k
  {
    assert (y - x) * k >= 0;
  }

  lemma TimesNext(n: nat, s: nat)
    requires n > 0
    ensures n * s == s + (n - 1) * s && n * s >= s
  {
    assert (n - 1) * s >= 0;
  }

  lemma DivTimes(a: nat, b: nat)
    requires b > 0
    ensures a * b / b == a && a * b % b == 0
  {
    DivUnique(a * b, b, a, 0);
  }

  lemma DivUnique(x: nat, b: nat, a: nat, r: nat)
    requires b > 0 && x == a * b + r && r < b
    ensures x / b == a && x % b == r
  {
    assert x == x / b * b + x % b;
    if x / b < a { MulMono(x / b + 1, a, b); }
    if x / b > a { MulMono(a + 1, x / b, b); }
  }
}
