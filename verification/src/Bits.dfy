/** Machine-word operations on naturals: shifts, truncation, OR and XOR, with the
    bit each one produces. */
module Bits {

  const WORD_BITS: nat := 64

  function Shr(s: nat, k: nat): nat {
    if k == 0 then s else Shr(s / 2, k - 1)
  }

  /** The low `w` bits. */
  function Truncate(s: nat, w: nat): nat
    decreases w
  {
    if w == 0 then 0 else 2 * Truncate(s / 2, w - 1) + s % 2
  }

  /** Bits shifted out at the top are lost. */
  function Shl(s: nat, k: nat, w: nat): nat
    decreases k
  {
    if k == 0 then s else Shl(Truncate(2 * s, w), k - 1, w)
  }

  function Or(a: nat, b: nat): nat
    decreases a + b
  {
    if a == 0 && b == 0 then 0 else
    2 * Or(a / 2, b / 2) + (if a % 2 == 1 || b % 2 == 1 then 1 else 0)
  }

  predicate Bit(s: nat, i: nat) {
    Shr(s, i) % 2 == 1
  }

  lemma {:induction false} ZeroBits(i: nat)
    ensures !Bit(0, i)
  {
    if i > 0 {
      ZeroBits(i - 1);
    }
  }

  lemma {:induction false} OrBit(a: nat, b: nat, i: nat)
    ensures Bit(Or(a, b), i) <==> Bit(a, i) || Bit(b, i)
    decreases i
  {
    hide Or;
    OrHalves(a, b);
    if i > 0 {
      OrBit(a / 2, b / 2, i - 1);
    }
  }

  lemma OrHalves(a: nat, b: nat)
    ensures Or(a, b) / 2 == Or(a / 2, b / 2)
    ensures Or(a, b) % 2 == 1 <==> a % 2 == 1 || b % 2 == 1
  {
  }

  lemma {:induction false} TruncationKeepsBits(s: nat, w: nat, i: nat)
    requires i < w
    ensures Bit(Truncate(s, w), i) <==> Bit(s, i)
    decreases i
  {
    if i > 0 {
      TruncationKeepsBits(s / 2, w - 1, i - 1);
      assert Truncate(s, w) / 2 == Truncate(s / 2, w - 1);
    }
  }

  lemma DoubleBit(s: nat, i: nat, w: nat)
    requires i < w
    ensures Bit(Truncate(2 * s, w), i) <==> i > 0 && Bit(s, i - 1)
  {
    hide Truncate;
    TruncationKeepsBits(2 * s, w, i);
  }

  lemma {:induction false} ShlBit(s: nat, k: nat, i: nat, w: nat)
    requires i < w
    ensures Bit(Shl(s, k, w), i) <==> i >= k && Bit(s, i - k)
    decreases k
  {
    if k > 0 {
      hide Bit, Truncate;
      ShlBit(Truncate(2 * s, w), k - 1, i, w);
      if i >= k - 1 {
        DoubleBit(s, i - (k - 1), w);
      }
    }
  }

  lemma OneBit(i: nat)
    ensures Bit(1, i) <==> i == 0
  {
    if i > 0 {
      ZeroBits(i - 1);
    }
  }

  function Pow2(w: nat): (p: nat)
    ensures p > 0
  {
    if w == 0 then 1 else 2 * Pow2(w - 1)
  }

  lemma {:induction false} PowerBit(k: nat, i: nat)
    ensures Bit(Pow2(k), i) <==> i == k
    decreases k
  {
    if k == 0 {
      OneBit(i);
    } else if i > 0 {
      PowerBit(k - 1, i - 1);
    }
  }

  lemma {:induction false} SmallOr(a: nat, b: nat, w: nat)
    requires a < Pow2(w) && b < Pow2(w)
    ensures Or(a, b) < Pow2(w)
    decreases w
  {
    if w > 0 {
      SmallOr(a / 2, b / 2, w - 1);
    }
  }

  /** A word is determined by its bits. */
  lemma {:induction false} SameBits(a: nat, b: nat, w: nat)
    requires a < Pow2(w) && b < Pow2(w)
    requires forall i: nat :: i < w ==> (Bit(a, i) <==> Bit(b, i))
    ensures a == b
    decreases w
  {
    if w > 0 {
      assert Bit(a, 0) <==> Bit(b, 0);
      forall i: nat | i < w - 1 ensures Bit(a / 2, i) <==> Bit(b / 2, i) {
        assert Bit(a, i + 1) <==> Bit(b, i + 1);
      }
      SameBits(a / 2, b / 2, w - 1);
    }
  }

  lemma {:induction false} TruncateSmall(s: nat, w: nat)
    requires s < Pow2(w)
    ensures Truncate(s, w) == s
    decreases w
  {
    if w > 0 {
      TruncateSmall(s / 2, w - 1);
    }
  }

  lemma {:induction false} TruncateBound(s: nat, w: nat)
    ensures Truncate(s, w) < Pow2(w)
    decreases w
  {
    if w > 0 {
      TruncateBound(s / 2, w - 1);
    }
  }

  lemma {:induction false} HighBitClear(s: nat, w: nat)
    requires s < Pow2(w)
    ensures !Bit(s, w)
    decreases w
  {
    if w > 0 {
      HighBitClear(s / 2, w - 1);
    }
  }

  lemma {:induction false} OrZero(a: nat, b: nat)
    ensures Or(a, b) == 0 <==> a == 0 && b == 0
    decreases a + b
  {
    if a + b > 0 {
      OrZero(a / 2, b / 2);
    }
  }

  // ----- XOR

  function Xor(a: nat, b: nat): nat
    decreases a + b
  {
    if a == 0 && b == 0 then 0 else 2 * Xor(a / 2, b / 2) + (a % 2 + b % 2) % 2
  }

  lemma XorHalves(a: nat, b: nat)
    ensures Xor(a, b) / 2 == Xor(a / 2, b / 2)
    ensures Xor(a, b) % 2 == (a % 2 + b % 2) % 2
  {
  }

  lemma {:induction false} XorBit(a: nat, b: nat, i: nat)
    ensures Bit(Xor(a, b), i) <==> Bit(a, i) != Bit(b, i)
    decreases i
  {
    hide Xor;
    XorHalves(a, b);
    if i > 0 {
      XorBit(a / 2, b / 2, i - 1);
    }
  }

  lemma {:induction false} SmallXor(a: nat, b: nat, w: nat)
    requires a < Pow2(w) && b < Pow2(w)
    ensures Xor(a, b) < Pow2(w)
    decreases w
  {
    if w > 0 {
      SmallXor(a / 2, b / 2, w - 1);
    }
  }

  lemma {:induction false} XorSelf(a: nat)
    ensures Xor(a, a) == 0
  {
    if a > 0 {
      XorSelf(a / 2);
    }
  }

  lemma {:induction false} XorZero(a: nat)
    ensures Xor(a, 0) == a
  {
    if a > 0 {
      XorZero(a / 2);
    }
  }

  lemma {:induction false} XorCommutes(a: nat, b: nat)
    ensures Xor(a, b) == Xor(b, a)
    decreases a + b
  {
    if a + b > 0 {
      XorCommutes(a / 2, b / 2);
    }
  }

  lemma {:induction false} XorAssociates(a: nat, b: nat, c: nat)
    ensures Xor(Xor(a, b), c) == Xor(a, Xor(b, c))
    decreases a + b + c
  {
    hide Xor;
    if a + b + c > 0 {
      XorAssociates(a / 2, b / 2, c / 2);
      LeftHalves(a, b, c);
      LeftHalves(b, c, a);
      XorCommutes(Xor(b, c), a);
      XorCommutes(Xor(b / 2, c / 2), a / 2);
      Parity(a % 2, b % 2, c % 2);
      SameHalves(Xor(Xor(a, b), c), Xor(a, Xor(b, c)));
    } else {
      XorZero(0);
    }
  }

  lemma LeftHalves(a: nat, b: nat, c: nat)
    ensures Xor(Xor(a, b), c) / 2 == Xor(Xor(a / 2, b / 2), c / 2)
    ensures Xor(Xor(a, b), c) % 2 == ((a % 2 + b % 2) % 2 + c % 2) % 2
  {
    hide Xor;
    XorHalves(a, b);
    XorHalves(Xor(a, b), c);
  }

  lemma Parity(a: nat, b: nat, c: nat)
    requires a < 2 && b < 2 && c < 2
    ensures ((a + b) % 2 + c) % 2 == ((b + c) % 2 + a) % 2
  {
  }

  lemma SameHalves(x: nat, y: nat)
    requires x / 2 == y / 2 && x % 2 == y % 2
    ensures x == y
  {
  }

  lemma XorDouble(a: nat, b: nat)
    ensures Xor(2 * a, 2 * b) == 2 * Xor(a, b)
  {
    hide Xor;
    XorHalves(2 * a, 2 * b);
    SameHalves(Xor(2 * a, 2 * b), 2 * Xor(a, b));
  }

  lemma {:induction false} TruncateXor(a: nat, b: nat, w: nat)
    ensures Truncate(Xor(a, b), w) == Xor(Truncate(a, w), Truncate(b, w))
    decreases w
  {
    hide Xor;
    if w > 0 {
      XorHalves(a, b);
      TruncateXor(a / 2, b / 2, w - 1);
      XorHalves(Truncate(a, w), Truncate(b, w));
      assert Truncate(a, w) / 2 == Truncate(a / 2, w - 1) && Truncate(b, w) / 2 == Truncate(b / 2, w - 1);
      assert Truncate(a, w) % 2 == a % 2 && Truncate(b, w) % 2 == b % 2;
    } else {
      XorZero(0);
    }
  }

  lemma XorCancels(a: nat, b: nat, p: nat)
    ensures Xor(Xor(a, b), p) == Xor(Xor(a, p), b) == Xor(a, Xor(b, p))
    ensures Xor(Xor(a, p), Xor(b, p)) == Xor(a, b)
  {
    hide Xor;
    XorAssociates(a, b, p);
    XorAssociates(a, p, b);
    XorCommutes(b, p);
    XorAssociates(a, p, Xor(b, p));
    XorAssociates(p, b, p);
    XorCommutes(p, b);
    XorAssociates(b, p, p);
    XorSelf(p);
    XorZero(b);
  }

  lemma ExchangeMiddle(x: nat, y: nat, a: nat, b: nat)
    ensures Xor(Xor(x, y), Xor(a, b)) == Xor(Xor(x, a), Xor(y, b))
  {
    hide Xor;
    XorAssociates(Xor(x, y), a, b);
    XorCancels(x, y, a);
    XorAssociates(Xor(x, a), y, b);
  }

  lemma Doubled(a: nat, k: nat)
    requires k > 0
    ensures Pow2(k) * a == 2 * (Pow2(k - 1) * a)
  {
  }

  lemma {:induction false} XorShift(a: nat, b: nat, k: nat)
    ensures Xor(Pow2(k) * a, Pow2(k) * b) == Pow2(k) * Xor(a, b)
    decreases k
  {
    hide Xor;
    if k > 0 {
      XorShift(a, b, k - 1);
      Doubled(a, k);
      Doubled(b, k);
      Doubled(Xor(a, b), k);
      hide Pow2;
      XorDouble(Pow2(k - 1) * a, Pow2(k - 1) * b);
    }
  }

  lemma {:induction false} XorHigh(h: nat, l: nat, k: nat)
    requires l < Pow2(k)
    ensures Xor(Pow2(k) * h + l, Pow2(k) * h) == l
    decreases k
  {
    hide Xor;
    if k == 0 {
      XorSelf(h);
    } else {
      var m := Pow2(k - 1) * h;
      Doubled(h, k);
      XorHigh(h, l / 2, k - 1);
      Reassemble(m, l);
    }
  }

  lemma Reassemble(m: nat, l: nat)
    requires Xor(m + l / 2, m) == l / 2
    ensures Xor(2 * m + l, 2 * m) == l
  {
    hide Xor;
    XorHalves(2 * m + l, 2 * m);
    assert (2 * m + l) / 2 == m + l / 2;
  }

  /** Numbers without a common bit add like words. */
  lemma SumIsXor(h: nat, l: nat, k: nat)
    requires l < Pow2(k)
    ensures Pow2(k) * h + l == Xor(Pow2(k) * h, l)
  {
    hide Xor, Pow2;
    var high := Pow2(k) * h;
    XorHigh(h, l, k);
    XorCancels(high + l, high, high);
    XorSelf(high);
    XorZero(high + l);
    XorCommutes(l, high);
  }

  lemma {:induction false} HighBitSet(s: nat, w: nat)
    requires Pow2(w) <= s < Pow2(w + 1)
    ensures Bit(s, w)
    decreases w
  {
    if w > 0 {
      HighBitSet(s / 2, w - 1);
    }
  }

  lemma {:induction false} TruncateHigh(s: nat, w: nat)
    requires Pow2(w) <= s < Pow2(w + 1)
    ensures Truncate(s, w) == s - Pow2(w)
    decreases w
  {
    if w > 0 {
      TruncateHigh(s / 2, w - 1);
    }
  }
}
