/** Polynomials over the field of two elements, as naturals: bit i of a number is
    the coefficient of x^i, addition is XOR. */
module CarryLess {
  import opened Bits

  /** `a` if the constant term of `b` is set. */
  function Term(a: nat, b: nat): nat {
    if b % 2 == 1 then a else 0
  }

  /** The product of two polynomials. */
  function Product(a: nat, b: nat): nat
    decreases b
  {
    if b == 0 then 0 else Xor(Term(a, b), 2 * Product(a, b / 2))
  }

  lemma ProductStep(a: nat, b: nat)
    ensures Product(a, b) == Xor(Term(a, b), 2 * Product(a, b / 2))
  {
    if b == 0 {
      XorZero(0);
    }
  }

  lemma OddXor(b: nat, c: nat)
    ensures Xor(b, c) % 2 == 1 <==> (b % 2 == 1) != (c % 2 == 1)
  {
    hide Xor;
    XorHalves(b, c);
  }

  lemma TermXor(a: nat, b: nat, c: nat)
    ensures Term(a, Xor(b, c)) == Xor(Term(a, b), Term(a, c))
  {
    hide Xor;
    OddXor(b, c);
    if b % 2 != 1 {
      XorCommutes(0, Term(a, c));
      XorZero(Term(a, c));
    } else if c % 2 != 1 {
      XorZero(a);
    } else {
      XorSelf(a);
    }
  }

  /** The product distributes over the sum. */
  lemma {:induction false} ProductXor(a: nat, b: nat, c: nat)
    ensures Product(a, Xor(b, c)) == Xor(Product(a, b), Product(a, c))
    decreases b + c
  {
    hide Xor, Term, Product;
    if b + c > 0 {
      ProductXor(a, b / 2, c / 2);
      XorHalves(b, c);
      ProductStep(a, b);
      ProductStep(a, c);
      ProductStep(a, Xor(b, c));
      TermXor(a, b, c);
      XorDouble(Product(a, b / 2), Product(a, c / 2));
      ExchangeMiddle(Term(a, b), Term(a, c), 2 * Product(a, b / 2), 2 * Product(a, c / 2));
    } else {
      ProductOfZero(a);
      XorZero(0);
    }
  }

  lemma ProductOfZero(a: nat)
    ensures Product(a, 0) == 0
  {
  }

  lemma ProductDouble(a: nat, b: nat)
    ensures Product(a, 2 * b) == 2 * Product(a, b)
  {
    hide Xor;
    ProductStep(a, 2 * b);
    XorCommutes(0, 2 * Product(a, b));
    XorZero(2 * Product(a, b));
  }

  lemma {:induction false} ProductShift(a: nat, b: nat, k: nat)
    ensures Product(a, Pow2(k) * b) == Pow2(k) * Product(a, b)
    decreases k
  {
    hide Product, Xor;
    if k > 0 {
      ProductShift(a, b, k - 1);
      Doubled(b, k);
      Doubled(Product(a, b), k);
      ProductDouble(a, Pow2(k - 1) * b);
    }
  }

  /** A sum has the degree of the larger summand. */
  lemma {:induction false} XorLarge(x: nat, y: nat, w: nat)
    requires x >= Pow2(w) && y < Pow2(w)
    ensures Xor(x, y) >= Pow2(w)
    decreases w
  {
    hide Xor;
    if w == 0 {
      XorZero(x);
    } else {
      XorHalves(x, y);
      XorLarge(x / 2, y / 2, w - 1);
    }
  }

  /** A nonzero multiple of a polynomial of degree `w` has at least that degree. */
  lemma {:induction false} MultipleIsLarge(g: nat, q: nat, w: nat)
    requires Pow2(w) <= g < Pow2(w + 1) && q > 0
    ensures Product(g, q) >= Pow2(w)
    decreases q
  {
    hide Xor;
    ProductStep(g, q);
    if q == 1 {
      XorZero(g);
    } else {
      MultipleIsLarge(g, q / 2, w);
      hide Product;
      XorLarge(2 * Product(g, q / 2), Term(g, q), w + 1);
      XorCommutes(Term(g, q), 2 * Product(g, q / 2));
    }
  }

  /** No multiple of a polynomial with a constant term and a higher one is a
      single power. */
  lemma {:induction false} MultipleIsNoPower(g: nat, q: nat, w: nat, n: nat)
    requires Pow2(w) <= g < Pow2(w + 1) && g % 2 == 1 && w > 0
    ensures Product(g, q) != Pow2(n)
    decreases n
  {
    hide Xor;
    if q > 0 {
      if n == 0 {
        MultipleIsLarge(g, q, w);
      } else {
        ProductStep(g, q);
        hide Product;
        XorHalves(Term(g, q), 2 * Product(g, q / 2));
        MultipleIsNoPower(g, q / 2, w, n - 1);
        if q % 2 == 0 {
          ProductDouble(g, q / 2);
        }
      }
    }
  }

  // ----- Division

  /** `value` is `q` times `g`, plus `r`. */
  predicate DividesAs(g: nat, value: nat, q: nat, r: nat) {
    value == Xor(Product(g, q), r)
  }

  /** `r` is the remainder of `value` modulo `g`, a polynomial of degree `w`. */
  ghost predicate IsRemainder(g: nat, w: nat, value: nat, r: nat) {
    r < Pow2(w) && exists q :: DividesAs(g, value, q, r)
  }

  lemma DifferenceIsMultiple(g: nat, v1: nat, q1: nat, r1: nat, v2: nat, q2: nat, r2: nat)
    requires DividesAs(g, v1, q1, r1) && DividesAs(g, v2, q2, r2)
    ensures Xor(v1, v2) == Xor(Product(g, Xor(q1, q2)), Xor(r1, r2))
  {
    hide Xor, Product;
    ExchangeMiddle(Product(g, q1), r1, Product(g, q2), r2);
    ProductXor(g, q1, q2);
  }

  /** There is at most one remainder. */
  lemma RemainderUnique(g: nat, w: nat, value: nat, r1: nat, r2: nat)
    requires Pow2(w) <= g < Pow2(w + 1)
    requires IsRemainder(g, w, value, r1) && IsRemainder(g, w, value, r2)
    ensures r1 == r2
  {
    hide Xor, Product, Pow2;
    var q1 :| DividesAs(g, value, q1, r1);
    var q2 :| DividesAs(g, value, q2, r2);
    DifferenceIsMultiple(g, value, q1, r1, value, q2, r2);
    XorSelf(value);
    XorIsZero(Product(g, Xor(q1, q2)), Xor(r1, r2));
    SmallXor(r1, r2, w);
    if Xor(q1, q2) > 0 {
      MultipleIsLarge(g, Xor(q1, q2), w);
    } else {
      ProductOfZero(g);
    }
    XorIsZero(r1, r2);
  }

  lemma {:induction false} XorIsZero(a: nat, b: nat)
    ensures Xor(a, b) == 0 <==> a == b
    decreases a + b
  {
    if a + b > 0 {
      hide Xor;
      XorHalves(a, b);
      XorIsZero(a / 2, b / 2);
    }
  }
}
