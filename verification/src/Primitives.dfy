/** The cryptographic primitives the DTLS profile is built on, as parameters.

    Every theorem in the project is stated for an arbitrary value of `Crypto`, so
    it holds for every hash, MAC, AEAD and point encoding that satisfies the few
    laws in `Valid`.  P-256 is represented by discrete logarithms: a point is the
    exponent of the generator modulo the group order `q`, the generator is 1 and
    the identity is 0. */
module Primitives {
  import opened Bytes
  import opened PrimeField

  const POINT_LEN: nat := 65
  const SCALAR_LEN: nat := 32
  /** 2^256 */
  const SCALAR_BOUND: nat := 0x1_00000000_00000000_00000000_00000000_00000000_00000000_00000000_00000000
  const DIGEST_LEN: nat := 32
  const TAG_LEN: nat := 8
  const FIXED_IV_LEN: nat := 4

  type FixedIv = b: Bytes | |b| == FIXED_IV_LEN witness [0, 0, 0, 0]

  datatype PrimitiveSet = PrimitiveSet(
    q: nat,
    encodePoint: nat -> Bytes,
    decodePoint: Bytes -> Option<nat>,
    sha256: Bytes -> Bytes,
    hmac: (Bytes, Bytes) -> Bytes,
    seal: (Bytes, Bytes, Bytes, Bytes) -> Bytes,
    unseal: (Bytes, Bytes, Bytes, Bytes) -> Option<Bytes>)
  {
    /** `q` is prime and its scalars fit 32 octets; uncompressed SEC1 decodes to
        the encoded point, and the identity is one octet. */
    ghost predicate GroupLaws() {
      && Prime(q) && q <= SCALAR_BOUND
      && encodePoint(0) == [0]
      && (forall p: nat :: p < q ==> decodePoint(encodePoint(p)) == Some(p))
      && (forall p: nat :: 0 < p < q ==> |encodePoint(p)| == POINT_LEN)
      && (forall b :: decodePoint(b).Some? ==> decodePoint(b).value < q)
    }

    ghost predicate DigestLaws() {
      && (forall b :: |sha256(b)| == DIGEST_LEN)
      && (forall k, b :: |hmac(k, b)| == DIGEST_LEN)
    }

    /** Opening inverts sealing for one key, nonce and additional data. */
    ghost predicate AeadLaws() {
      forall k, n, a, p ::
        |seal(k, n, a, p)| == |p| + TAG_LEN && unseal(k, n, a, seal(k, n, a, p)) == Some(p)
    }

    ghost predicate Valid() {
      GroupLaws() && DigestLaws() && AeadLaws()
    }
  }

  type Crypto = c: PrimitiveSet | c.Valid() ghost witness Sample()

  function SampleEncode(p: nat): Bytes { if p == 0 then [0] else seq(POINT_LEN, _ => p % 256) }
  function SampleDecode(b: Bytes): Option<nat> {
    if b == [0] then Some(0) else if |b| == POINT_LEN && b[0] < 5 then Some(b[0]) else None
  }
  function SampleDigest(b: Bytes): Bytes { seq(DIGEST_LEN, _ => 0) }
  function SampleMac(k: Bytes, b: Bytes): Bytes { seq(DIGEST_LEN, _ => 0) }
  function SampleSeal(k: Bytes, n: Bytes, a: Bytes, p: Bytes): Bytes { p + seq(TAG_LEN, _ => 0) }
  function SampleUnseal(k: Bytes, n: Bytes, a: Bytes, s: Bytes): Option<Bytes> {
    if |s| < TAG_LEN then None else Some(s[..|s| - TAG_LEN])
  }

  ghost const SAMPLE: PrimitiveSet :=
    PrimitiveSet(5, SampleEncode, SampleDecode, SampleDigest, SampleMac, SampleSeal, SampleUnseal)

  lemma SampleIsPrime()
    ensures Prime(5) && 5 <= SCALAR_BOUND
  {
    assert 5 % 2 == 1 && 5 % 3 == 2 && 5 % 4 == 1;
  }

  lemma SampleSealed()
    ensures forall k, n, a, p {:trigger SampleSeal(k, n, a, p)} ::
              |SampleSeal(k, n, a, p)| == |p| + TAG_LEN && SampleUnseal(k, n, a, SampleSeal(k, n, a, p)) == Some(p)
  {
    forall k: Bytes, n: Bytes, a: Bytes, p: Bytes
      ensures SampleUnseal(k, n, a, SampleSeal(k, n, a, p)) == Some(p)
    {
      assert SampleSeal(k, n, a, p)[..|p|] == p;
    }
  }

  lemma SamplePoints()
    ensures forall p: nat {:trigger SampleEncode(p)} ::
              p < 5 ==> (p > 0 ==> |SampleEncode(p)| == POINT_LEN) && SampleDecode(SampleEncode(p)) == Some(p)
  {
  }

  lemma SampleGroup()
    ensures SAMPLE.GroupLaws()
  {
    SampleIsPrime();
    SamplePoints();
  }

  /** Primitives over the field of five elements: the laws are not contradictory. */
  ghost function Sample(): (c: PrimitiveSet)
    ensures c.Valid()
  {
    SampleGroup();
    SampleSealed();
    SAMPLE
  }

  /** The same group and AEAD with another hash and MAC. */
  ghost function WithDigests(c: Crypto, sha256: Bytes -> Bytes, hmac: (Bytes, Bytes) -> Bytes): (d: Crypto)
    requires (forall b :: |sha256(b)| == DIGEST_LEN) && (forall k, b :: |hmac(k, b)| == DIGEST_LEN)
    ensures SameGroup(c, d) && d.sha256 == sha256 && d.hmac == hmac
  {
    c.(sha256 := sha256, hmac := hmac)
  }

  ghost predicate SameGroup(c: Crypto, d: Crypto) {
    c.q == d.q && c.encodePoint == d.encodePoint && c.decodePoint == d.decodePoint
  }

  lemma PointsDiffer(c: Crypto, p: nat, r: nat)
    requires p < c.q && r < c.q && c.encodePoint(p) == c.encodePoint(r)
    ensures p == r
  {
    assert c.decodePoint(c.encodePoint(p)) == Some(p);
  }

  /** `point_from_bytes`: a decodable point other than the identity. */
  function PointFromBytes(c: Crypto, b: Bytes): (r: Result<nat>)
    ensures r.Ok? ==> 0 < r.value < c.q
  {
    match c.decodePoint(b)
    case Some(p) => if p == 0 then Err(Error.Crypto) else Ok(p)
    case None => Err(Error.Crypto)
  }

  lemma PointRoundTrip(c: Crypto, p: nat)
    requires 0 < p < c.q
    ensures PointFromBytes(c, c.encodePoint(p)) == Ok(p)
  {
  }

  /** `scalar_from_repr`: 32 octets naming a reduced scalar. */
  function ScalarFromRepr(c: Crypto, b: Bytes): (r: Result<nat>)
    ensures r.Ok? ==> r.value < c.q
  {
    var n := FromBigEndian(b);
    if n < c.q then Ok(n) else Err(Error.Crypto)
  }

  /** Every reduced scalar survives its 32-octet representation. */
  lemma ScalarRoundTrip(c: Crypto, x: nat)
    requires x < c.q
    ensures ScalarFromRepr(c, BigEndian(x, SCALAR_LEN)) == Ok(x)
  {
    BoundIsPower();
    BigEndianRoundTrip(x, SCALAR_LEN);
  }

  lemma BoundIsPower()
    ensures Pow256(SCALAR_LEN) == SCALAR_BOUND
  {
    assert Pow256(4) == 0x1_00000000;
    assert Pow256(8) == 0x1_00000000_00000000;
    assert Pow256(12) == 0x1_00000000_00000000_00000000;
    assert Pow256(16) == 0x1_00000000_00000000_00000000_00000000;
    assert Pow256(20) == 0x1_00000000_00000000_00000000_00000000_00000000;
    assert Pow256(24) == 0x1_00000000_00000000_00000000_00000000_00000000_00000000;
    assert Pow256(28) == 0x1_00000000_00000000_00000000_00000000_00000000_00000000_00000000;
    assert Pow256(32) == 0x1_00000000_00000000_00000000_00000000_00000000_00000000_00000000_00000000;
  }

  function Add(c: Crypto, a: int, b: int): (r: nat)
    ensures r < c.q
  {
    (a + b) % c.q
  }

  function Sub(c: Crypto, a: int, b: int): (r: nat)
    ensures r < c.q
  {
    (a - b) % c.q
  }

  function Mul(c: Crypto, a: int, b: int): (r: nat)
    ensures r < c.q
  {
    (a * b) % c.q
  }
}
