/** An abstract commutative group of prime order, and multiples of its points. */
module PrimeGroups {
  import opened PrimeFields

  /** `zero` is the point at infinity, `base` the generator G. */
  datatype Group<!P> = Group(add: (P, P) -> P, neg: P -> P, zero: P, base: P, order: nat)

  /** `k` times `p`. */
  function Mul<P>(g: Group<P>, k: nat, p: P): P {
    if k == 0 then g.zero else g.add(p, Mul(g, k - 1, p))
  }

  predicate Commutes<P(==)>(g: Group<P>, x: P, y: P) {
    g.add(x, y) == g.add(y, x)
  }

  predicate Associates<P(==)>(g: Group<P>, x: P, y: P, z: P) {
    g.add(g.add(x, y), z) == g.add(x, g.add(y, z))
  }

  predicate HasUnit<P(==)>(g: Group<P>, x: P) {
    g.add(x, g.zero) == x
  }

  predicate HasInverse<P(==)>(g: Group<P>, x: P) {
    g.add(x, g.neg(x)) == g.zero
  }

  predicate HasOrder<P(==)>(g: Group<P>, x: P) {
    Mul(g, g.order, x) == g.zero
  }

  /** The laws of a commutative group in which every point times the prime order is the point at infinity. */
  ghost predicate Lawful<P(!new)>(g: Group<P>) {
    && Prime(g.order) && g.base != g.zero
    && (forall x, y :: Commutes(g, x, y))
    && (forall x, y, z :: Associates(g, x, y, z))
    && (forall x :: HasUnit(g, x))
    && (forall x :: HasInverse(g, x))
    && (forall x :: HasOrder(g, x))
  }

  function Sub<P>(g: Group<P>, x: P, y: P): P {
    g.add(x, g.neg(y))
  }

  lemma Swap<P(!new)>(g: Group<P>, a: P, b: P, c: P, d: P)
    requires Lawful(g)
    ensures g.add(g.add(a, b), g.add(c, d)) == g.add(g.add(a, c), g.add(b, d))
  {
    assert Associates(g, a, b, g.add(c, d)) && Associates(g, b, c, d) && Commutes(g, b, c);
    assert Associates(g, c, b, d) && Associates(g, a, c, g.add(b, d));
  }

  lemma SubAdd<P(!new)>(g: Group<P>, x: P, y: P)
    requires Lawful(g)
    ensures Sub(g, g.add(x, y), y) == x
    ensures g.add(Sub(g, x, y), y) == x
  {
    assert HasInverse(g, y) && HasUnit(g, x);
    assert Associates(g, x, y, g.neg(y));
    assert Associates(g, x, g.neg(y), y) && Commutes(g, g.neg(y), y);
  }

  /** Adding the same point keeps points apart. */
  lemma Cancel<P(!new)>(g: Group<P>, x: P, y: P, z: P)
    requires Lawful(g)
    ensures g.add(x, z) == g.add(y, z) <==> x == y
  {
    SubAdd(g, x, z);
    SubAdd(g, y, z);
  }

  lemma {:induction false} MulSum<P(!new)>(g: Group<P>, a: nat, b: nat, p: P)
    requires Lawful(g)
    ensures Mul(g, a + b, p) == g.add(Mul(g, a, p), Mul(g, b, p))
  {
    if a == 0 {
      assert Commutes(g, g.zero, Mul(g, b, p)) && HasUnit(g, Mul(g, b, p));
    } else {
      MulSum(g, a - 1, b, p);
      assert Associates(g, p, Mul(g, a - 1, p), Mul(g, b, p));
    }
  }

  lemma {:induction false} MulZero<P(!new)>(g: Group<P>, k: nat)
    requires Lawful(g)
    ensures Mul(g, k, g.zero) == g.zero
  {
    if k != 0 {
      MulZero(g, k - 1);
      assert HasUnit(g, g.zero);
    }
  }

  lemma {:induction false} MulProduct<P(!new)>(g: Group<P>, a: nat, b: nat, p: P)
    requires Lawful(g)
    ensures Mul(g, a * b, p) == Mul(g, a, Mul(g, b, p))
  {
    if a != 0 {
      MulProduct(g, a - 1, b, p);
      assert a * b == b + (a - 1) * b;
      MulSum(g, b, (a - 1) * b, p);
    }
  }

  lemma MulCommutes<P(!new)>(g: Group<P>, a: nat, b: nat, p: P)
    requires Lawful(g)
    ensures Mul(g, a, Mul(g, b, p)) == Mul(g, b, Mul(g, a, p))
  {
    MulProduct(g, a, b, p);
    MulProduct(g, b, a, p);
    assert a * b == b * a;
  }

  lemma {:induction false} MulOfSum<P(!new)>(g: Group<P>, k: nat, p: P, q: P)
    requires Lawful(g)
    ensures Mul(g, k, g.add(p, q)) == g.add(Mul(g, k, p), Mul(g, k, q))
  {
    if k == 0 {
      assert HasUnit(g, g.zero);
    } else {
      MulOfSum(g, k - 1, p, q);
      Swap(g, p, q, Mul(g, k - 1, p), Mul(g, k - 1, q));
    }
  }

  /** Adding a multiple of the order to a multiplier changes nothing. */
  lemma MulRound<P(!new)>(g: Group<P>, r: nat, q: nat, p: P)
    requires Lawful(g)
    ensures Mul(g, r + q * g.order, p) == Mul(g, r, p)
  {
    MulSum(g, r, q * g.order, p);
    MulProduct(g, q, g.order, p);
    assert HasOrder(g, p);
    MulZero(g, q);
    assert HasUnit(g, Mul(g, r, p));
  }

  /** Only the multiplier modulo the order matters. */
  lemma MulModulo<P(!new)>(g: Group<P>, k: nat, p: P)
    requires Lawful(g)
    ensures Mul(g, k % g.order, p) == Mul(g, k, p)
  {
    var q, r := k / g.order, k % g.order;
    assert k == r + q * g.order;
    MulRound(g, r, q, p);
  }

  lemma MulOne<P(!new)>(g: Group<P>, p: P)
    requires Lawful(g)
    ensures Mul(g, 1, p) == p
  {
    assert HasUnit(g, p);
    assert Mul(g, 1, p) == g.add(p, Mul(g, 0, p));
  }

  /** A multiplier below the order can be undone. */
  lemma Undo<P(!new)>(g: Group<P>, d: nat) returns (i: nat)
    requires Lawful(g) && 0 < d < g.order
    ensures forall p :: Mul(g, i, Mul(g, d, p)) == p
  {
    var k;
    i, k := InverseModPrime(g.order, d);
    assert i * d == 1 + k * g.order;
    forall p ensures Mul(g, i, Mul(g, d, p)) == p {
      MulProduct(g, i, d, p);
      MulRound(g, 1, k, p);
      MulOne(g, p);
    }
  }

  /** A point other than infinity has no smaller order. */
  lemma MulIsZero<P(!new)>(g: Group<P>, d: nat, p: P)
    requires Lawful(g) && 0 < d < g.order
    ensures Mul(g, d, p) == g.zero <==> p == g.zero
  {
    var i := Undo(g, d);
    MulZero(g, i);
    MulZero(g, d);
    assert Mul(g, i, Mul(g, d, p)) == p;
  }
}
