// Multiplication and division by a variable, one fact at a time.

module Arith {

  lemma MulMono(a: int, b: int, c: nat)
    requires a <= b
    ensures a * c <= b * c
  {
  }

  lemma Distribute(a: nat, b: nat, c: nat)
    ensures (a + b) * c == a * c + b * c
  {
  }

  lemma DivModParts(x: int, n: int)
    requires 0 <= x && 0 < n
    ensures x == (x / n) * n + x % n && 0 <= x % n < n && x / n >= 0
  {
  }

  // Division has one quotient and one remainder.
  lemma DivModUnique(x: nat, q: nat, r: nat, n: nat)
    requires r < n && x == q * n + r
    ensures x / n == q && x % n == r
  {
    var p, s := x / n, x % n;
    DivModParts(x, n);
    if p < q {
      MulMono(p + 1, q, n);
    } else if p > q {
      MulMono(q + 1, p, n);
    }
  }

  // Whole rounds do not change the remainder.
  lemma RoundsModulo(x: nat, q: nat, n: nat)
    requires n > 0
    ensures (x + q * n) % n == x % n
  {
    var a, r := x / n, x % n;
    DivModParts(x, n);
    Distribute(a, q, n);
    DivModUnique(x + q * n, a + q, r, n);
  }

  lemma NextModulo(x: nat, n: nat)
    requires n > 0
    ensures (x + 1) % n == if x % n + 1 < n then x % n + 1 else 0
  {
    var q, r := x / n, x % n;
    DivModParts(x, n);
    if r + 1 < n {
      DivModUnique(x + 1, q, r + 1, n);
    } else {
      Distribute(q, 1, n);
      DivModUnique(x + 1, q + 1, 0, n);
    }
  }
}
