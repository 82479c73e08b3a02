/** Steering data: a Bloom filter over joiner IDs with two CRC-16 hashes. */
module Steering {
  import opened Bytes
  import opened Bits
  import opened CarryLess

  const FILTER_LEN: nat := 16
  const CCITT: U16 := 0x1021
  const ANSI: U16 := 0x8005
  const CRC_BITS: nat := 16

  // ----- CRC-16, most significant bit first, initial value zero

  function CrcBit(poly: nat, crc: nat): nat {
    var shifted := Truncate(2 * crc, CRC_BITS);
    if Bit(crc, CRC_BITS - 1) then Xor(shifted, poly) else shifted
  }

  function CrcBits(poly: nat, crc: nat, n: nat): nat {
    if n == 0 then crc else CrcBit(poly, CrcBits(poly, crc, n - 1))
  }

  function CrcByte(poly: nat, crc: nat, b: Byte): nat {
    CrcBits(poly, Xor(crc, 256 * b), 8)
  }

  function Crc(poly: nat, bs: Bytes): nat {
    if bs == [] then 0 else CrcByte(poly, Crc(poly, bs[..|bs| - 1]), bs[|bs| - 1])
  }

  method Crc16(poly: nat, bytes: Bytes) returns (crc: nat)
    ensures crc == Crc(poly, bytes)
  {
    hide CrcBit, Xor, Truncate, Bit;
    crc := 0;
    for i := 0 to |bytes|
      invariant crc == Crc(poly, bytes[..i])
    {
      crc := Xor(crc, 256 * (bytes[i] as nat));
      ghost var start := crc;
      for k := 0 to 8
        invariant crc == CrcBits(poly, start, k)
      {
        crc := CrcBit(poly, crc);
      }
      assert bytes[..i + 1][..i] == bytes[..i];
    }
    assert bytes[..|bytes|] == bytes;
  }

  function XorAll(a: Bytes, b: Bytes): (r: Bytes)
    requires |a| == |b|
    ensures |r| == |a|
  {
    if a == [] then [] else XorAll(a[..|a| - 1], b[..|b| - 1]) + [XorBytes(a[|a| - 1], b[|b| - 1])]
  }

  function XorBytes(a: Byte, b: Byte): Byte {
    XorBytesBound(a, b);
    Xor(a, b)
  }

  lemma XorBytesBound(a: Byte, b: Byte)
    ensures Xor(a, b) < 256
  {
    hide Xor;
    WordPowers();
    SmallXor(a, b, 8);
  }

  lemma CrcBitLinear(poly: nat, x: nat, y: nat)
    ensures CrcBit(poly, Xor(x, y)) == Xor(CrcBit(poly, x), CrcBit(poly, y))
  {
    hide Xor, Truncate, Bit;
    XorBit(x, y, CRC_BITS - 1);
    XorDouble(x, y);
    TruncateXor(2 * x, 2 * y, CRC_BITS);
    XorCancels(Truncate(2 * x, CRC_BITS), Truncate(2 * y, CRC_BITS), poly);
  }

  lemma {:induction false} CrcBitsLinear(poly: nat, x: nat, y: nat, n: nat)
    ensures CrcBits(poly, Xor(x, y), n) == Xor(CrcBits(poly, x, n), CrcBits(poly, y, n))
  {
    hide CrcBit, Xor, Bit, Truncate;
    if n > 0 {
      CrcBitsLinear(poly, x, y, n - 1);
      CrcBitLinear(poly, CrcBits(poly, x, n - 1), CrcBits(poly, y, n - 1));
    }
  }

  lemma CrcByteLinear(poly: nat, x: nat, y: nat, a: Byte, b: Byte)
    ensures CrcByte(poly, Xor(x, y), XorBytes(a, b)) == Xor(CrcByte(poly, x, a), CrcByte(poly, y, b))
  {
    assert Pow2(8) == 256;
    hide CrcBits, Xor, Pow2;
    XorShift(a, b, 8);
    ExchangeMiddle(x, y, 256 * a, 256 * b);
    CrcBitsLinear(poly, Xor(x, 256 * a), Xor(y, 256 * b), 8);
  }

  /** The CRC is linear over XOR on inputs of one length, for any polynomial. */
  lemma {:induction false} CrcLinear(poly: nat, a: Bytes, b: Bytes)
    requires |a| == |b|
    ensures Crc(poly, XorAll(a, b)) == Xor(Crc(poly, a), Crc(poly, b))
  {
    hide CrcByte, Xor;
    if a != [] {
      var n := |a| - 1;
      assert XorAll(a, b)[..n] == XorAll(a[..n], b[..n]);
      CrcLinear(poly, a[..n], b[..n]);
      CrcByteLinear(poly, Crc(poly, a[..n]), Crc(poly, b[..n]), a[n], b[n]);
    } else {
      XorZero(0);
    }
  }

  // ----- Appending the CRC

  lemma {:induction false} CrcBound(poly: U16, bs: Bytes)
    ensures Crc(poly, bs) < 0x1_0000
  {
    hide CrcBits, Xor;
    if bs != [] {
      CrcBound(poly, bs[..|bs| - 1]);
      WordPowers();
      hide Pow2;
      var crc, b: nat := Crc(poly, bs[..|bs| - 1]), bs[|bs| - 1];
      SmallXor(crc, 256 * b, CRC_BITS);
      CrcBitsBound(poly, Xor(crc, 256 * b), 8);
    }
  }

  lemma WordPowers()
    ensures Pow2(8) == 0x100 && Pow2(15) == 0x8000 && Pow2(16) == 0x1_0000
  {
    assert Pow2(4) == 16 && Pow2(8) == 256 && Pow2(12) == 4096;
  }

  lemma {:induction false} CrcBitsBound(poly: U16, crc: nat, n: nat)
    requires crc < 0x1_0000
    ensures CrcBits(poly, crc, n) < 0x1_0000
  {
    hide Xor, Truncate, Bit;
    if n > 0 {
      CrcBitsBound(poly, crc, n - 1);
      WordPowers();
      hide Pow2;
      var shifted := Truncate(2 * CrcBits(poly, crc, n - 1), CRC_BITS);
      TruncateBound(2 * CrcBits(poly, crc, n - 1), CRC_BITS);
      SmallXor(shifted, poly, CRC_BITS);
    }
  }

  /** A step from a value below 0x8000 only doubles it. */
  lemma NoFeedback(poly: nat, x: nat)
    requires x < 0x8000
    ensures CrcBit(poly, x) == 2 * x
  {
    WordPowers();
    hide Pow2, Xor, Bit, Truncate;
    HighBitClear(x, CRC_BITS - 1);
    TruncateSmall(2 * x, CRC_BITS);
  }

  lemma {:induction false} EightSteps(poly: nat, x: nat, n: nat)
    requires x < 0x100 && n <= 8
    ensures CrcBits(poly, x, n) == Pow2(n) * x
  {
    hide CrcBit, Pow2;
    PowerTimes(n, x);
    if n > 0 {
      EightSteps(poly, x, n - 1);
      PowerBelow(n - 1, x);
      NoFeedback(poly, Pow2(n - 1) * x);
    }
  }

  lemma PowerTimes(n: nat, x: nat)
    ensures Pow2(n) * x == if n == 0 then x else 2 * (Pow2(n - 1) * x)
  {
  }

  lemma PowerBelow(k: nat, x: nat)
    requires k <= 7 && x < 0x100
    ensures Pow2(k) * x < 0x8000
  {
    assert Pow2(7) == 128 && Pow2(6) == 64 && Pow2(5) == 32 && Pow2(4) == 16 && Pow2(3) == 8 && Pow2(2) == 4 && Pow2(1) == 2;
  }

  /** Appending a message's own CRC, most significant octet first, gives zero. */
  lemma CrcResidue(poly: U16, bs: Bytes)
    ensures Crc(poly, bs + BigEndian(Crc(poly, bs), 2)) == 0
  {
    hide CrcByte;
    var crc := Crc(poly, bs);
    CrcBound(poly, bs);
    var h, l := crc / 256, crc % 256;
    assert BigEndian(crc, 2) == [h, l] by {
      assert BigEndian(crc / 256, 1) == BigEndian(crc / 256 / 256, 0) + [h % 256];
    }
    var one, two := bs + [h], bs + [h, l];
    assert one[..|bs|] == bs && two[..|bs| + 1] == one;
    CancelHigh(poly, h, l);
    CancelLow(poly, l);
  }

  lemma CancelHigh(poly: nat, h: Byte, l: Byte)
    ensures CrcByte(poly, 256 * h + l, h) == 256 * l
  {
    WordPowers();
    hide Pow2, Xor, CrcBits;
    XorHigh(h, l, 8);
    EightSteps(poly, l, 8);
  }

  lemma CancelLow(poly: nat, l: Byte)
    ensures CrcByte(poly, 256 * l, l) == 0
  {
    hide Pow2, Xor, CrcBits;
    XorSelf(256 * l);
    EightSteps(poly, 0, 8);
  }

  // ----- The CRC is a remainder

  /** x^16 + ... of a CRC whose polynomial is given without its leading term. */
  function Generator(poly: nat): nat {
    Pow2(CRC_BITS) + poly
  }

  /** A step from a value at or above 0x8000 drops the top bit and subtracts. */
  lemma Feedback(poly: U16, x: nat)
    requires 0x8000 <= x < 0x1_0000
    ensures CrcBit(poly, x) == Xor(2 * x - 0x1_0000, poly)
  {
    WordPowers();
    assert Pow2(17) == 2 * Pow2(16);
    hide Pow2, Xor, Bit, Truncate;
    HighBitSet(x, CRC_BITS - 1);
    TruncateHigh(2 * x, CRC_BITS);
  }

  /** One step is one step of long division. */
  lemma StepDivides(poly: U16, x: nat)
    requires x < 0x1_0000
    ensures 2 * x == Xor(if x < 0x8000 then 0 else Generator(poly), CrcBit(poly, x))
  {
    WordPowers();
    hide Pow2, Xor, CrcBit;
    if x < 0x8000 {
      NoFeedback(poly, x);
      XorCommutes(0, 2 * x);
      XorZero(2 * x);
    } else {
      var y := 2 * x - 0x1_0000;
      Feedback(poly, x);
      SumIsXor(1, poly, CRC_BITS);
      SumIsXor(1, y, CRC_BITS);
      XorCancels(0x1_0000, y, poly);
    }
  }

  lemma {:induction false} StepsDivide(poly: U16, x: nat, n: nat) returns (q: nat)
    requires x < 0x1_0000
    ensures DividesAs(Generator(poly), Pow2(n) * x, q, CrcBits(poly, x, n))
    decreases n
  {
    hide Xor, CrcBit, Product, Generator;
    PowerTimes(n, x);
    if n == 0 {
      q := 0;
      ProductOfZero(Generator(poly));
      XorCommutes(0, x);
      XorZero(x);
    } else {
      var p := StepsDivide(poly, x, n - 1);
      q := OneMore(poly, x, n - 1, p);
    }
  }

  lemma OneMore(poly: U16, x: nat, n: nat, p: nat) returns (q: nat)
    requires x < 0x1_0000 && DividesAs(Generator(poly), Pow2(n) * x, p, CrcBits(poly, x, n))
    ensures DividesAs(Generator(poly), 2 * (Pow2(n) * x), q, CrcBits(poly, x, n + 1))
  {
    hide Xor, CrcBit, Product, Generator, Pow2;
    var g, y := Generator(poly), CrcBits(poly, x, n);
    CrcBitsBound(poly, x, n);
    StepDivides(poly, y);
    q := 2 * p + if y < 0x8000 then 0 else 1;
    assert q / 2 == p;
    ProductStep(g, q);
    XorDouble(Product(g, p), y);
    XorAssociates(2 * Product(g, p), Term(g, q), CrcBit(poly, y));
    XorCommutes(2 * Product(g, p), Term(g, q));
  }

  lemma ByteDivides(poly: U16, value: nat, crc: nat, p: nat, b: Byte) returns (q: nat)
    requires crc < 0x1_0000 && DividesAs(Generator(poly), 0x1_0000 * value, p, crc)
    ensures DividesAs(Generator(poly), 0x1_0000 * (256 * value + b), q, CrcByte(poly, crc, b))
  {
    WordPowers();
    hide Xor, CrcBits, Product, Generator, Pow2;
    var g, mixed := Generator(poly), Xor(crc, 256 * (b as nat));
    SmallXor(crc, 256 * b, CRC_BITS);
    var steps := StepsDivide(poly, mixed, 8);
    q := Xor(256 * p, steps);
    ProductXor(g, 256 * p, steps);
    ProductShift(g, p, 8);
    ByteOf(value, b, Product(g, p), crc);
    XorAssociates(256 * Product(g, p), Product(g, steps), CrcByte(poly, crc, b));
  }

  /** The message grows by eight bits at its low end. */
  lemma ByteOf(value: nat, b: Byte, multiple: nat, crc: nat)
    requires 0x1_0000 * value == Xor(multiple, crc)
    ensures 0x1_0000 * (256 * value + b) == Xor(256 * multiple, 256 * Xor(crc, 256 * (b as nat)))
  {
    WordPowers();
    hide Xor, Pow2;
    SumIsXor(value, b, 8);
    XorShift(256 * value, b, 16);
    XorShift(multiple, crc, 8);
    XorShift(crc, 256 * (b as nat), 8);
    XorAssociates(256 * multiple, 256 * crc, 0x1_0000 * (b as nat));
  }

  lemma {:induction false} CrcDivides(poly: U16, bs: Bytes) returns (q: nat)
    ensures DividesAs(Generator(poly), 0x1_0000 * FromBigEndian(bs), q, Crc(poly, bs))
    decreases |bs|
  {
    hide Xor, CrcByte, Product, Generator, Pow2;
    if bs == [] {
      q := 0;
      ProductOfZero(Generator(poly));
      XorZero(0);
    } else {
      var n := |bs| - 1;
      var p := CrcDivides(poly, bs[..n]);
      CrcBound(poly, bs[..n]);
      q := ByteDivides(poly, FromBigEndian(bs[..n]), Crc(poly, bs[..n]), p, bs[n]);
    }
  }

  lemma GeneratorDegree(poly: U16)
    ensures Pow2(16) <= Generator(poly) < Pow2(17)
    ensures Generator(poly) % 2 == poly % 2
  {
    WordPowers();
    assert Pow2(17) == 2 * Pow2(16);
  }

  /** The CRC is the remainder of the message times x^16 modulo x^16 + `poly`,
      and nothing else is. */
  lemma CrcIsRemainder(poly: U16, bs: Bytes, r: nat)
    ensures r == Crc(poly, bs) <==> IsRemainder(Generator(poly), 16, 0x1_0000 * FromBigEndian(bs), r)
  {
    var q := CrcDivides(poly, bs);
    CrcBound(poly, bs);
    WordPowers();
    GeneratorDegree(poly);
    hide Xor, Crc, Product, Generator, Pow2;
    assert IsRemainder(Generator(poly), 16, 0x1_0000 * FromBigEndian(bs), Crc(poly, bs));
    if IsRemainder(Generator(poly), 16, 0x1_0000 * FromBigEndian(bs), r) {
      RemainderUnique(Generator(poly), 16, 0x1_0000 * FromBigEndian(bs), r, Crc(poly, bs));
    }
  }

  /** With a constant term in the polynomial, one wrong bit is always noticed. */
  lemma OneBitNoticed(poly: U16, a: Bytes, b: Bytes, i: nat)
    requires poly % 2 == 1 && Xor(FromBigEndian(a), FromBigEndian(b)) == Pow2(i)
    ensures Crc(poly, a) != Crc(poly, b)
  {
    hide Xor, Crc, Product, Generator, Pow2, FromBigEndian;
    var p := CrcDivides(poly, a);
    var q := CrcDivides(poly, b);
    var d := Xor(p, q);
    DifferenceIsMultiple(Generator(poly), 0x1_0000 * FromBigEndian(a), p, Crc(poly, a),
                         0x1_0000 * FromBigEndian(b), q, Crc(poly, b));
    ShiftedPower(FromBigEndian(a), FromBigEndian(b), i);
    if Crc(poly, a) == Crc(poly, b) {
      XorSelf(Crc(poly, a));
      XorZero(Product(Generator(poly), d));
      GeneratorDegree(poly);
      MultipleIsNoPower(Generator(poly), d, 16, 16 + i);
    }
  }

  lemma ShiftedPower(a: nat, b: nat, i: nat)
    requires Xor(a, b) == Pow2(i)
    ensures Xor(0x1_0000 * a, 0x1_0000 * b) == Pow2(16 + i)
  {
    WordPowers();
    hide Xor, Pow2;
    XorShift(a, b, 16);
    PowerSum(16, i);
  }

  lemma {:induction false} PowerSum(m: nat, n: nat)
    ensures Pow2(m) * Pow2(n) == Pow2(m + n)
    decreases m
  {
    if m > 0 {
      PowerSum(m - 1, n);
      Doubled(Pow2(n), m);
    }
  }

  // ----- The Bloom filter

  /** Bit 0 is the least significant bit of the last octet. */
  predicate TestBit(f: Bytes, bit: nat)
    requires bit < 8 * |f|
  {
    Bit(f[|f| - 1 - bit / 8], bit % 8)
  }

  /** `byte |= 1 << k` */
  function OrMask(x: Byte, k: nat): Byte
    requires k < 8
  {
    MaskBound(x, k);
    Or(x, Pow2(k))
  }

  lemma MaskBound(x: Byte, k: nat)
    requires k < 8
    ensures Or(x, Pow2(k)) < 256
  {
    assert Pow2(8) == 256;
    assert Pow2(7) == 128 && Pow2(6) == 64 && Pow2(5) == 32 && Pow2(4) == 16 && Pow2(3) == 8 && Pow2(2) == 4 && Pow2(1) == 2;
    SmallOr(x, Pow2(k), 8);
  }

  function SetBit(f: Bytes, bit: nat): (r: Bytes)
    requires bit < 8 * |f|
    ensures |r| == |f|
  {
    var idx := |f| - 1 - bit / 8;
    f[idx := OrMask(f[idx], bit % 8)]
  }

  function BitOf(poly: nat, id: Bytes, len: nat): (b: nat)
    requires len > 0
    ensures b < 8 * len
  {
    Crc(poly, id) % (8 * len)
  }

  function BloomAdd(f: Bytes, id: Bytes): (r: Bytes)
    requires f != []
    ensures |r| == |f|
  {
    SetBit(SetBit(f, BitOf(CCITT, id, |f|)), BitOf(ANSI, id, |f|))
  }

  const ZEROS: Bytes := [0, 0, 0, 0, 0, 0, 0, 0, 0, 0, 0, 0, 0, 0, 0, 0]

  /** Anything but a full-size filter is first replaced by an empty one. */
  function AddJoiner(data: Bytes, id: Bytes): (r: Bytes)
    ensures |r| == FILTER_LEN
  {
    BloomAdd(if |data| != FILTER_LEN then ZEROS else data, id)
  }

  method SetBitInPlace(out: array<Byte>, bit: nat)
    requires bit < 8 * out.Length
    modifies out
    ensures out[..] == SetBit(old(out[..]), bit)
  {
    hide OrMask;
    var idx := out.Length - 1 - bit / 8;
    out[idx] := OrMask(out[idx], bit % 8);
  }

  method ComputeBloomFilter(out: array<Byte>, input: Bytes)
    requires out.Length > 0
    modifies out
    ensures out[..] == BloomAdd(old(out[..]), input)
  {
    hide Crc, SetBit;
    var bits := out.Length * 8;
    var ccitt := Crc16(CCITT, input);
    var ansi := Crc16(ANSI, input);
    SetBitInPlace(out, ccitt % bits);
    SetBitInPlace(out, ansi % bits);
  }

  method AddJoinerToSteeringData(data: Bytes, id: Bytes) returns (r: Bytes)
    ensures r == AddJoiner(data, id)
  {
    hide BloomAdd;
    var steering := if |data| != FILTER_LEN then ZEROS else data;
    var buffer := new Byte[FILTER_LEN](i requires 0 <= i < FILTER_LEN => steering[i]);
    assert buffer[..] == steering;
    ComputeBloomFilter(buffer, id);
    r := buffer[..];
  }

  lemma SetBitEffect(f: Bytes, bit: nat, other: nat)
    requires bit < 8 * |f| && other < 8 * |f|
    ensures TestBit(SetBit(f, bit), other) <==> other == bit || TestBit(f, other)
  {
    hide Bit, Or, Pow2;
    if bit / 8 == other / 8 {
      OrBit(f[|f| - 1 - bit / 8], Pow2(bit % 8), other % 8);
      PowerBit(bit % 8, other % 8);
    }
  }

  /** Adding an ID sets its two bits and touches no other. */
  lemma BloomAddEffect(f: Bytes, id: Bytes, bit: nat)
    requires f != [] && bit < 8 * |f|
    ensures TestBit(BloomAdd(f, id), bit)
            <==> bit == BitOf(CCITT, id, |f|) || bit == BitOf(ANSI, id, |f|) || TestBit(f, bit)
  {
    hide TestBit, SetBit, BitOf;
    var ccitt, ansi := BitOf(CCITT, id, |f|), BitOf(ANSI, id, |f|);
    SetBitEffect(f, ccitt, bit);
    SetBitEffect(SetBit(f, ccitt), ansi, bit);
  }

  function AddAll(data: Bytes, ids: seq<Bytes>): Bytes {
    if ids == [] then data else AddJoiner(AddAll(data, ids[..|ids| - 1]), ids[|ids| - 1])
  }

  /** `bit` is the remainder of the ID, taken as a polynomial, modulo `g`. */
  ghost predicate RemainderBit(g: nat, id: Bytes, bit: nat) {
    exists r: nat :: IsRemainder(g, CRC_BITS, 0x1_0000 * FromBigEndian(id), r) && bit == r % (8 * FILTER_LEN)
  }

  /** The two hashes of an ID: modulo x^16 + x^12 + x^5 + 1 and modulo
      x^16 + x^15 + x^2 + 1. */
  ghost predicate HashesTo(id: Bytes, bit: nat) {
    || RemainderBit(Pow2(16) + Pow2(12) + Pow2(5) + 1, id, bit)
    || RemainderBit(Pow2(16) + Pow2(15) + Pow2(2) + 1, id, bit)
  }

  lemma BitIsRemainder(poly: U16, id: Bytes, bit: nat)
    ensures bit == BitOf(poly, id, FILTER_LEN) <==> RemainderBit(Generator(poly), id, bit)
  {
    hide Crc, IsRemainder, Generator, FromBigEndian;
    CrcIsRemainder(poly, id, Crc(poly, id));
    if r: nat :| IsRemainder(Generator(poly), CRC_BITS, 0x1_0000 * FromBigEndian(id), r) && bit == r % (8 * FILTER_LEN) {
      CrcIsRemainder(poly, id, r);
    }
  }

  lemma Hashes(id: Bytes, bit: nat)
    ensures HashesTo(id, bit) <==> bit == BitOf(CCITT, id, FILTER_LEN) || bit == BitOf(ANSI, id, FILTER_LEN)
  {
    hide BitOf, RemainderBit;
    WordPowers();
    assert Pow2(2) == 4 && Pow2(5) == 32 && Pow2(12) == 4096;
    BitIsRemainder(CCITT, id, bit);
    BitIsRemainder(ANSI, id, bit);
  }

  /** The bits of a filter after any sequence of additions: those it had and
      the two remainders of each added ID, so nothing is cleared and nothing is missed. */
  lemma {:induction false} FilterContents(data: Bytes, ids: seq<Bytes>, bit: nat)
    requires |data| == FILTER_LEN && bit < 8 * FILTER_LEN
    ensures |AddAll(data, ids)| == FILTER_LEN
    ensures TestBit(AddAll(data, ids), bit) <==> TestBit(data, bit) || exists id :: id in ids && HashesTo(id, bit)
  {
    hide TestBit, BitOf, BloomAdd, HashesTo;
    if ids != [] {
      var n := |ids| - 1;
      FilterContents(data, ids[..n], bit);
      BloomAddEffect(AddAll(data, ids[..n]), ids[n], bit);
      Hashes(ids[n], bit);
      assert ids == ids[..n] + [ids[n]];
      if id :| id in ids && HashesTo(id, bit) {
        assert id in ids[..n] || id == ids[n];
      }
      if HashesTo(ids[n], bit) {
        assert ids[n] in ids;
      }
    }
  }

  lemma SameFilter(f: Bytes, g: Bytes)
    requires |f| == |g| && forall bit: nat :: bit < 8 * |f| ==> (TestBit(f, bit) <==> TestBit(g, bit))
    ensures f == g
  {
    assert Pow2(8) == 256;
    hide Bit, Pow2;
    forall i | 0 <= i < |f| ensures f[i] == g[i] {
      forall k: nat | k < 8 ensures Bit(f[i], k) <==> Bit(g[i], k) {
        var bit := 8 * (|f| - 1 - i) + k;
        assert bit / 8 == |f| - 1 - i && bit % 8 == k;
        assert TestBit(f, bit) <==> TestBit(g, bit);
      }
      SameBits(f[i], g[i], 8);
    }
  }

  /** The filter depends only on which IDs were added. */
  lemma FilterDependsOnSet(data: Bytes, ids: seq<Bytes>, jds: seq<Bytes>)
    requires |data| == FILTER_LEN
    requires forall id :: id in ids <==> id in jds
    ensures AddAll(data, ids) == AddAll(data, jds)
  {
    hide TestBit, BitOf, BloomAdd, HashesTo;
    var f, g := AddAll(data, ids), AddAll(data, jds);
    FilterContents(data, ids, 0);
    FilterContents(data, jds, 0);
    forall bit: nat | bit < 8 * FILTER_LEN ensures TestBit(f, bit) <==> TestBit(g, bit) {
      FilterContents(data, ids, bit);
      FilterContents(data, jds, bit);
    }
    SameFilter(f, g);
  }

  lemma EmptyFilter(bit: nat)
    requires bit < 8 * FILTER_LEN
    ensures !TestBit(ZEROS, bit)
  {
    hide Bit;
    ZeroBits(bit % 8);
  }

  /** Starting from no steering data is starting from the empty filter; any
      other short or long input is discarded the same way. */
  lemma WrongSizeIsReset(data: Bytes, ids: seq<Bytes>)
    requires ids != []
    ensures |data| != FILTER_LEN ==> AddAll(data, ids) == AddAll(ZEROS, ids)
    decreases |ids|
  {
    hide BloomAdd;
    var n := |ids| - 1;
    if n > 0 {
      WrongSizeIsReset(data, ids[..n]);
    }
  }
}
