/** Inverses modulo a prime, by the extended Euclidean algorithm. */
module PrimeFields {
  predicate Times(a: int, b: int, n: int) {
    a * b == n
  }

  ghost predicate Prime(n: nat) {
    n >= 2 && forall d: nat, k: nat | Times(d, k, n) :: d == 1 || d == n
  }

  /** Some combination of `a` and `b` divides them both. */
  lemma {:induction false} Bezout(a: nat, b: nat) returns (g: nat, x: int, y: int, p: nat, q: nat)
    ensures g == a * x + b * y && a == g * p && b == g * q
    decreases b
  {
    if b == 0 {
      g, x, y, p, q := a, 1, 0, 1, 0;
    } else {
      var c, r := a / b, a % b;
      var x', y', q';
      g, x', y', q, q' := Bezout(b, r);
      x, y, p := y', x' - c * y', q * c + q';
      assert a == b * c + r;
      assert b * (x' - c * y') == b * x' - (b * c) * y';
      assert g * (q * c + q') == (g * q) * c + g * q';
    }
  }

  lemma MultiplesAreFar(n: int, m: int)
    requires 0 <= n
    ensures m <= -1 ==> n * m + n <= 0
    ensures m == 0 ==> n * m == 0
    ensures m >= 1 ==> n * m >= n
  {
    assert n * m == n * (m - 1) + n == n * (m + 1) - n;
  }

  /** Below a prime, every positive number has an inverse. */
  lemma InverseModPrime(n: nat, d: nat) returns (i: nat, k: nat)
    requires Prime(n) && 0 < d < n
    ensures i * d == 1 + n * k
  {
    var g, x, y, p, q := Bezout(d, n);
    assert Times(g, q, n);
    MultiplesAreFar(n, p);
    i := x % n;
    var c := x / n;
    var m := -y - c * d;
    calc {
      i * d;
      (x - n * c) * d;
      d * x - n * (c * d);
      1 - n * y - n * (c * d);
      1 + n * m;
    }
    MultiplesAreFar(n, m);
    k := m;
  }
}
