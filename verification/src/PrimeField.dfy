/** Arithmetic modulo a prime: the scalars of P-256, and, through discrete
    logarithms, its points. */
module PrimeField {

  ghost predicate Prime(q: nat) {
    q > 1 && forall d: nat {:trigger q % d} :: 1 < d < q ==> q % d != 0
  }

  lemma ModOfMultiple(x: int, k: int, q: nat)
    requires q > 0
    ensures (x + k * q) % q == x % q
  {
    var r := x % q;
    assert x + k * q == (x / q + k) * q + r;
    QuotientUnique(x + k * q, x / q + k, r, q);
  }

  lemma QuotientUnique(x: int, k: int, r: int, q: nat)
    requires q > 0 && 0 <= r < q && x == k * q + r
    ensures x % q == r
  {
    var d := x / q - k;
    assert d * q == r - x % q;
    NonzeroMultiple(d, q);
  }

  lemma NonzeroMultiple(d: int, q: int)
    requires q > 0
    ensures d > 0 ==> d * q >= q
    ensures d < 0 ==> d * q <= -q
  {
  }

  lemma SameResidue(x: int, y: int, k: int, q: nat)
    requires q > 0 && x == y + k * q
    ensures x % q == y % q
  {
    ModOfMultiple(y, k, q);
  }

  lemma Reduction(a: int, q: nat) returns (k: int)
    requires q > 0
    ensures a % q == a + k * q
  {
    k := -(a / q);
  }

  /** A reduction inside a product can be dropped before an outer reduction. */
  lemma ModMul(a: int, b: int, q: nat)
    requires q > 0
    ensures ((a % q) * b) % q == (a * b) % q
    ensures (b * (a % q)) % q == (b * a) % q
  {
    var k := a / q;
    assert (a % q) * b == a * b + (-k * b) * q;
    ModOfMultiple(a * b, -k * b, q);
  }

  lemma ModAdd(a: int, b: int, q: nat)
    requires q > 0
    ensures ((a % q) + b) % q == (a + b) % q
    ensures (b + (a % q)) % q == (b + a) % q
  {
    var k := Reduction(a, q);
    SameResidue((a % q) + b, a + b, k, q);
  }

  lemma ModSub(a: int, b: int, q: nat)
    requires q > 0
    ensures (b - (a % q)) % q == (b - a) % q
    ensures ((a % q) - b) % q == (a - b) % q
  {
    var k := Reduction(a, q);
    SameResidue((a % q) - b, a - b, k, q);
    SameResidue(b - a, b - (a % q), k, q);
  }

  lemma ModZeroDifference(a: int, b: int, q: nat)
    requires q > 0
    ensures a % q == b % q <==> (a - b) % q == 0
  {
    if a % q == b % q {
      assert a - b == 0 + (a / q - b / q) * q;
      ModOfMultiple(0, a / q - b / q, q);
    } else if (a - b) % q == 0 {
      assert a == b + ((a - b) / q) * q;
      ModOfMultiple(b, (a - b) / q, q);
    }
  }

  /** Euclid's lemma, by the remainder sequence of `q` and `a`. */
  lemma {:induction false} Euclid(a: nat, b: int, q: nat)
    requires Prime(q) && 0 < a < q && (a * b) % q == 0
    ensures b % q == 0
    decreases a
  {
    if a > 1 {
      var k, r := q / a, q % a;
      assert q == k * a + r;
      assert r * b == q * b - k * (a * b);
      assert (r * b) % q == 0 by {
        var m := a * b / q;
        assert a * b == m * q;
        assert q * b - k * (a * b) == 0 + (b - k * m) * q;
        ModOfMultiple(0, b - k * m, q);
      }
      Euclid(r, b, q);
    }
  }

  lemma MultipleTimes(a: int, b: int, q: nat)
    requires q > 0 && a % q == 0
    ensures (a * b) % q == 0 && (b * a) % q == 0
  {
    assert a * b == 0 + (a / q * b) * q;
    ModOfMultiple(0, a / q * b, q);
  }

  /** A prime field has no zero divisors. */
  lemma NoZeroDivisors(a: int, b: int, q: nat)
    requires Prime(q)
    ensures (a * b) % q == 0 <==> a % q == 0 || b % q == 0
  {
    if a % q == 0 {
      MultipleTimes(a, b, q);
    } else if b % q == 0 {
      MultipleTimes(b, a, q);
    } else if (a * b) % q == 0 {
      ModMul(a, b, q);
      Euclid(a % q, b, q);
    }
  }

  lemma SmallMod(a: int, q: nat)
    requires 0 <= a < q
    ensures a % q == a
  {
  }

  /** No zero divisors among reduced values. */
  lemma ReducedProduct(a: int, b: int, q: nat)
    requires Prime(q) && 0 <= a < q && 0 <= b < q
    ensures (a * b) % q == 0 <==> a == 0 || b == 0
  {
    NoZeroDivisors(a, b, q);
    SmallMod(a, q);
    SmallMod(b, q);
  }

  lemma SumCongruent(a: int, a': int, b: int, b': int, q: nat)
    requires q > 0 && a % q == a' % q && b % q == b' % q
    ensures (a + b) % q == (a' + b') % q
  {
    ModAdd(a, b, q);
    ModAdd(a', b, q);
    ModAdd(b, a', q);
    ModAdd(b', a', q);
  }

  lemma ThreeTerms(a: int, b: int, d: int, q: nat)
    requires q > 0
    ensures ((a + b) % q + d) % q == (a + b + d) % q
  {
    ModAdd(a + b, d, q);
  }

  /** Inverses, by the remainder sequence of `q` and `a`. */
  lemma {:induction false} Inverse(a: nat, q: nat) returns (e: int)
    requires Prime(q) && 0 < a < q
    ensures (a * e) % q == 1
    decreases a
  {
    if a == 1 {
      e := 1;
    } else {
      var k, r := q / a, q % a;
      var f := Inverse(r, q);
      e := -k * f;
      InverseStep(a, q, k, r, f);
      SameResidue(a * e, r * f, -f, q);
    }
  }

  lemma InverseStep(a: int, q: int, k: int, r: int, f: int)
    requires q == k * a + r
    ensures a * (-k * f) == r * f + (-f) * q
  {
    assert a * (-k * f) == -f * (k * a);
  }

  lemma Quotient(a: int, b: int, q: nat) returns (k: int)
    requires q > 0 && a % q == b % q
    ensures a == b + k * q
  {
    k := a / q - b / q;
    assert a == a / q * q + a % q && b == b / q * q + b % q;
  }
}
