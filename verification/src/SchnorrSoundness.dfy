/** What an accepted Schnorr proof says (section 3 of RFC 8235): which response
    it must hold, whose exponent it proves, and what its challenge covers. */
module SchnorrSoundness {
  import opened Bytes
  import opened PrimeField
  import opened Primitives
  import opened EcJpake

  /** The commitment and response of a proof solve the verification equation. */
  ghost predicate Solves(c: Crypto, proof: SchnorrProof, base: nat, public: nat, id: Bytes, other: Bytes, v: nat) {
    && 0 < v < c.q && proof.v == c.encodePoint(v) && FromBigEndian(proof.r) < c.q
    && (base * FromBigEndian(proof.r) + public * Challenge(c, base, v, public, id, other)) % c.q == v
  }

  /** Exactly the proofs in the prover's name that solve the equation for a
      public point other than the identity are accepted. */
  lemma VerifyExact(c: Crypto, proof: SchnorrProof, base: nat, public: nat, id: Bytes, other: Bytes)
    ensures Verify(c, proof, base, public, id, other).Ok?
            <==> proof.proverId == id && public != 0 && exists v :: Solves(c, proof, base, public, id, other, v)
  {
    hide Challenge, FromBigEndian;
    if Verify(c, proof, base, public, id, other).Ok? {
      var v := Accepted(c, proof, base, public, id, other);
    }
    if proof.proverId == id && public != 0 && exists v :: Solves(c, proof, base, public, id, other, v) {
      var v :| Solves(c, proof, base, public, id, other, v);
      var r := FromBigEndian(proof.r);
      SumOfReduced(base * r, public * Challenge(c, base, v, public, id, other), c.q);
    }
  }

  lemma Accepted(c: Crypto, proof: SchnorrProof, base: nat, public: nat, id: Bytes, other: Bytes) returns (v: nat)
    requires Verify(c, proof, base, public, id, other).Ok?
    ensures Solves(c, proof, base, public, id, other, v)
  {
    hide Challenge, FromBigEndian;
    v := PointFromBytes(c, proof.v).value;
    var r := FromBigEndian(proof.r);
    var h := Challenge(c, base, v, public, id, other);
    SumOfReduced(base * r, public * h, c.q);
    assert c.decodePoint(c.encodePoint(Add(c, Mul(c, base, r), Mul(c, public, h)))) == Some(v);
  }

  // ----- What the protocol rounds accept

  /** A proof in the name of `id` that the exponent of `public` is known. */
  ghost predicate Proven(c: Crypto, proof: SchnorrProof, base: nat, public: nat, id: Bytes) {
    proof.proverId == id && public != 0 && exists v :: Solves(c, proof, base, public, id, [], v)
  }

  ghost predicate RoundOneProven(c: Crypto, peer: RoundOne) {
    var g1, g2 := PointFromBytes(c, peer.g1), PointFromBytes(c, peer.g2);
    g1.Ok? && g2.Ok? && Proven(c, peer.proof1, 1, g1.value, peer.id) && Proven(c, peer.proof2, 1, g2.value, peer.id)
  }

  lemma RoundOneExact(c: Crypto, peer: RoundOne)
    ensures VerifyRoundOne(c, peer).Ok? <==> RoundOneProven(c, peer)
  {
    hide Verify, Solves, PointFromBytes;
    var g1, g2 := PointFromBytes(c, peer.g1), PointFromBytes(c, peer.g2);
    if g1.Ok? && g2.Ok? {
      VerifyExact(c, peer.proof1, 1, g1.value, peer.id, []);
      VerifyExact(c, peer.proof2, 1, g2.value, peer.id, []);
    }
  }

  /** A second round is made exactly for a proven first round and a base other
      than the identity. */
  lemma RoundTwoExact(c: Crypto, p: Party, own: RoundOne, peer: RoundOne, v: nat)
    ensures MakeRoundTwo(c, p, own, peer, v).Ok?
            <==> RoundOneProven(c, peer) && var base := SecondRoundBase(c, p, own, peer, p.role); base.Ok? && base.value != 0
  {
    hide VerifyRoundOne, RoundOneProven, SecondRoundBase, Generate;
    RoundOneExact(c, peer);
  }

  /** A shared point is computed exactly from proven rounds of the peer. */
  lemma FinishExact(c: Crypto, p: Party, own: RoundOne, peer: RoundOne, two: RoundTwo)
    ensures SharedPoint(c, p, own, peer, two).Ok?
            <==> && RoundOneProven(c, peer)
                 && var base, point := SecondRoundBase(c, p, own, peer, p.role.Peer()), PointFromBytes(c, two.point);
                    base.Ok? && point.Ok? && Proven(c, two.proof, base.value, point.value, peer.id)
  {
    hide VerifyRoundOne, SecondRoundBase, Verify, Solves, PointFromBytes;
    RoundOneExact(c, peer);
    var base, point := SecondRoundBase(c, p, own, peer, p.role.Peer()), PointFromBytes(c, two.point);
    if base.Ok? && point.Ok? {
      VerifyExact(c, two.proof, base.value, point.value, peer.id, []);
    }
  }

  // ----- One commitment

  /** For one commitment there is one response: every altered one is refused. */
  lemma ResponseUnique(c: Crypto, p1: SchnorrProof, p2: SchnorrProof, base: nat, public: nat, id: Bytes, other: Bytes)
    requires 0 < base < c.q && p1.v == p2.v
    requires Verify(c, p1, base, public, id, other).Ok? && Verify(c, p2, base, public, id, other).Ok?
    ensures FromBigEndian(p1.r) == FromBigEndian(p2.r)
    ensures |p1.r| == |p2.r| ==> p1 == p2
  {
    hide Challenge, FromBigEndian, Verify;
    VerifyExact(c, p1, base, public, id, other);
    VerifyExact(c, p2, base, public, id, other);
    var v := Accepted(c, p1, base, public, id, other);
    var w := Accepted(c, p2, base, public, id, other);
    PointsDiffer(c, v, w);
    var r1, r2 := FromBigEndian(p1.r), FromBigEndian(p2.r);
    OneSolution(base, r1, r2, public * Challenge(c, base, v, public, id, other), c.q);
    FromBigEndianRoundTrip(p1.r);
    FromBigEndianRoundTrip(p2.r);
  }

  lemma OneSolution(base: nat, r1: nat, r2: nat, t: int, q: nat)
    requires Prime(q) && 0 < base < q && r1 < q && r2 < q
    requires (base * r1 + t) % q == (base * r2 + t) % q
    ensures r1 == r2
  {
    ModZeroDifference(base * r1 + t, base * r2 + t, q);
    assert base * r1 + t - (base * r2 + t) == base * (r1 - r2);
    NoZeroDivisors(base, r1 - r2, q);
    SmallMod(base, q);
    ModZeroDifference(r1, r2, q);
    SmallMod(r1, q);
    SmallMod(r2, q);
  }

  /** Special soundness: two accepted proofs with one commitment and different
      challenges, under any two hashes, give away the exponent of the public
      point: the difference of the responses over that of the challenges. */
  lemma ExponentKnown(c1: Crypto, c2: Crypto, p1: SchnorrProof, p2: SchnorrProof, base: nat, public: nat, v: nat,
                      id1: Bytes, other1: Bytes, id2: Bytes, other2: Bytes) returns (x: nat)
    requires SameGroup(c1, c2) && base < c1.q && public < c1.q && v < c1.q && p1.v == p2.v == c1.encodePoint(v)
    requires Verify(c1, p1, base, public, id1, other1).Ok? && Verify(c2, p2, base, public, id2, other2).Ok?
    requires Challenge(c1, base, v, public, id1, other1) != Challenge(c2, base, v, public, id2, other2)
    ensures x < c1.q && Mul(c1, base, x) == public
    ensures var h1, h2 := Challenge(c1, base, v, public, id1, other1), Challenge(c2, base, v, public, id2, other2);
            Mul(c1, x, h2 - h1) == Sub(c1, FromBigEndian(p1.r), FromBigEndian(p2.r))
  {
    hide Challenge, FromBigEndian, Verify;
    var v1 := Accepted(c1, p1, base, public, id1, other1);
    var v2 := Accepted(c2, p2, base, public, id2, other2);
    PointsDiffer(c1, v, v1);
    PointsDiffer(c1, v, v2);
    x := Extract(c1.q, base, public, FromBigEndian(p1.r), FromBigEndian(p2.r),
                 Challenge(c1, base, v, public, id1, other1), Challenge(c2, base, v, public, id2, other2));
  }

  lemma Extract(q: nat, base: nat, public: nat, r1: nat, r2: nat, h1: nat, h2: nat) returns (x: nat)
    requires Prime(q) && public < q && h1 < q && h2 < q && h1 != h2
    requires (base * r1 + public * h1) % q == (base * r2 + public * h2) % q
    ensures x < q && (base * x) % q == public && (x * (h2 - h1)) % q == (r1 - r2) % q
  {
    var e, m := InverseOfDifference(h1, h2, q);
    x := ((r1 - r2) * e) % q;
    var k := Quotient(base * r1 + public * h1, base * r2 + public * h2, q);
    Exponent(base, public, r1, r2, h1, h2, e, k, m, q);
    Regroup(r1 - r2, e, h2 - h1, m, q);
    SameResidue((r1 - r2) * e * (h2 - h1), r1 - r2, (r1 - r2) * m, q);
    ModMul((r1 - r2) * e, h2 - h1, q);
  }

  lemma InverseOfDifference(h1: nat, h2: nat, q: nat) returns (e: int, m: int)
    requires Prime(q) && h1 < q && h2 < q && h1 != h2
    ensures (h2 - h1) * e == 1 + m * q
  {
    ModZeroDifference(h2, h1, q);
    SmallMod(h1, q);
    SmallMod(h2, q);
    e := Inverse((h2 - h1) % q, q);
    ModMul(h2 - h1, e, q);
    SmallMod(1, q);
    m := Quotient((h2 - h1) * e, 1, q);
  }

  lemma Exponent(base: nat, public: nat, r1: nat, r2: nat, h1: nat, h2: nat, e: int, k: int, m: int, q: nat)
    requires public < q && (h2 - h1) * e == 1 + m * q
    requires base * r1 + public * h1 == base * r2 + public * h2 + k * q
    ensures (base * (((r1 - r2) * e) % q)) % q == public
  {
    Distribute(base, r1, r2);
    Distribute(public, h2, h1);
    CrossTerms(base, public, r1 - r2, h2 - h1, e, k, m, q);
    SameResidue(base * ((r1 - r2) * e), public, public * m + k * e, q);
    SmallMod(public, q);
    ModMul((r1 - r2) * e, base, q);
  }

  lemma Distribute(a: int, b: int, d: int)
    ensures a * (b - d) == a * b - a * d
  {
  }

  lemma CrossTerms(base: int, public: int, r: int, h: int, e: int, k: int, m: int, q: int)
    requires base * r == public * h + k * q && h * e == 1 + m * q
    ensures base * (r * e) == public + (public * m + k * e) * q
  {
    assert base * (r * e) == (public * h + k * q) * e;
    assert (public * h + k * q) * e == public * (h * e) + (k * e) * q;
    assert public * (1 + m * q) == public + (public * m) * q;
  }

  lemma Regroup(r: int, e: int, h: int, m: int, q: int)
    requires h * e == 1 + m * q
    ensures r * e * h == r + (r * m) * q
  {
    assert r * e * h == r * (h * e);
    assert r * (1 + m * q) == r + (r * m) * q;
  }

  // ----- What the challenge covers

  lemma FirstItem(a: Bytes, b: Bytes, x: Bytes, y: Bytes)
    requires |a| < 0x1_0000_0000 && |b| < 0x1_0000_0000 && HashItem(a) + x == HashItem(b) + y
    ensures a == b && x == y
  {
    assert Pow256(4) == 0x1_0000_0000;
    TakeVectorAppend(a, 4, x);
    TakeVectorAppend(b, 4, y);
  }

  predicate Hashable(b: Bytes) {
    |b| < 0x1_0000_0000
  }

  /** The hashed octets determine the base, the commitment, the public point, the
      prover and the other information. */
  lemma InputInjective(c: Crypto, b1: nat, v1: nat, p1: nat, id1: Bytes, other1: Bytes,
                       b2: nat, v2: nat, p2: nat, id2: Bytes, other2: Bytes)
    requires b1 < c.q && v1 < c.q && p1 < c.q && b2 < c.q && v2 < c.q && p2 < c.q
    requires Hashable(id1) && Hashable(other1) && Hashable(id2) && Hashable(other2)
    requires ChallengeInput(c, b1, v1, p1, id1, other1) == ChallengeInput(c, b2, v2, p2, id2, other2)
    ensures b1 == b2 && v1 == v2 && p1 == p2 && id1 == id2 && other1 == other2
  {
    hide HashItem, ChallengeInput, Rest;
    Nested(c, b1, v1, p1, id1, other1);
    Nested(c, b2, v2, p2, id2, other2);
    var t1, t2 := HashItem(id1) + Rest(other1), HashItem(id2) + Rest(other2);
    var s1, s2 := HashItem(c.encodePoint(p1)) + t1, HashItem(c.encodePoint(p2)) + t2;
    FirstItem(c.encodePoint(b1), c.encodePoint(b2), HashItem(c.encodePoint(v1)) + s1, HashItem(c.encodePoint(v2)) + s2);
    FirstItem(c.encodePoint(v1), c.encodePoint(v2), s1, s2);
    FirstItem(c.encodePoint(p1), c.encodePoint(p2), t1, t2);
    FirstItem(id1, id2, Rest(other1), Rest(other2));
    PointsDiffer(c, b1, b2);
    PointsDiffer(c, v1, v2);
    PointsDiffer(c, p1, p2);
    RestInjective(other1, other2);
  }

  function Rest(other: Bytes): Bytes {
    if other == [] then [] else HashItem(other)
  }

  lemma Nested(c: Crypto, base: nat, v: nat, public: nat, id: Bytes, other: Bytes)
    ensures ChallengeInput(c, base, v, public, id, other)
         == HashItem(c.encodePoint(base))
            + (HashItem(c.encodePoint(v)) + (HashItem(c.encodePoint(public)) + (HashItem(id) + Rest(other))))
  {
    hide HashItem;
  }

  lemma RestInjective(a: Bytes, b: Bytes)
    requires Hashable(a) && Hashable(b) && Rest(a) == Rest(b)
    ensures a == b
  {
    if a != [] && b != [] {
      FirstItem(a, b, [], []);
      assert HashItem(a) + [] == HashItem(a) && HashItem(b) + [] == HashItem(b);
    }
  }

  function TwoDigests(first: Bytes, b: Bytes): (d: Bytes)
    ensures |d| == DIGEST_LEN
  {
    BigEndian(if b == first then 0 else 1, DIGEST_LEN)
  }

  lemma DigestsDiffer()
    ensures FromBigEndian(BigEndian(0, DIGEST_LEN)) == 0 && FromBigEndian(BigEndian(1, DIGEST_LEN)) == 1
  {
    hide BigEndian, FromBigEndian, Pow256;
    BoundIsPower();
    BigEndianRoundTrip(0, DIGEST_LEN);
    BigEndianRoundTrip(1, DIGEST_LEN);
  }

  /** The challenge covers all of its input: for any two different inputs some
      hash gives different challenges. */
  lemma ChallengeSeparates(c: Crypto, b1: nat, v1: nat, p1: nat, id1: Bytes, other1: Bytes,
                           b2: nat, v2: nat, p2: nat, id2: Bytes, other2: Bytes) returns (d: Crypto)
    requires b1 < c.q && v1 < c.q && p1 < c.q && b2 < c.q && v2 < c.q && p2 < c.q
    requires Hashable(id1) && Hashable(other1) && Hashable(id2) && Hashable(other2)
    requires (b1, v1, p1, id1, other1) != (b2, v2, p2, id2, other2)
    ensures SameGroup(c, d) && Challenge(d, b1, v1, p1, id1, other1) != Challenge(d, b2, v2, p2, id2, other2)
  {
    hide ChallengeInput, BigEndian, FromBigEndian;
    DigestsDiffer();
    var first := ChallengeInput(c, b1, v1, p1, id1, other1);
    d := WithDigests(c, b => TwoDigests(first, b), c.hmac);
    SameInput(c, d, b1, v1, p1, id1, other1);
    SameInput(c, d, b2, v2, p2, id2, other2);
    if ChallengeInput(c, b2, v2, p2, id2, other2) == first {
      InputInjective(c, b1, v1, p1, id1, other1, b2, v2, p2, id2, other2);
    }
    SmallMod(0, c.q);
    SmallMod(1, c.q);
  }

  lemma SameInput(c: Crypto, d: Crypto, base: nat, v: nat, public: nat, id: Bytes, other: Bytes)
    requires SameGroup(c, d)
    ensures ChallengeInput(d, base, v, public, id, other) == ChallengeInput(c, base, v, public, id, other)
  {
  }

  // ----- The secret and the session key

  /** The number a secret stands for: a long one stands for its digest. */
  function SecretNumber(c: Crypto, secret: Bytes): nat {
    FromBigEndian(if |secret| <= SCALAR_LEN then secret else c.sha256(secret))
  }

  /** Two secrets mean the same scalar exactly when their numbers are congruent,
      with zero standing for one. */
  lemma SameScalar(c: Crypto, a: Bytes, b: Bytes)
    ensures ScalarFromSecret(c, a) == ScalarFromSecret(c, b)
            <==> var m, n := SecretNumber(c, a) % c.q, SecretNumber(c, b) % c.q; m == n || (m <= 1 && n <= 1)
  {
    hide SecretNumber, ScalarFromSecret;
    ScalarMeans(c, a);
    ScalarMeans(c, b);
  }

  lemma ScalarMeans(c: Crypto, a: Bytes)
    ensures ScalarFromSecret(c, a) == var m := SecretNumber(c, a) % c.q; if m == 0 then 1 else m
  {
    hide FromBigEndian;
    if |a| <= SCALAR_LEN {
      PaddedValue(a);
    }
  }

  lemma PaddedValue(a: Bytes)
    requires |a| <= SCALAR_LEN
    ensures FromBigEndian(seq(SCALAR_LEN - |a|, _ => 0) + a) == FromBigEndian(a)
  {
    PaddedBy(SCALAR_LEN - |a|, a);
  }

  lemma {:induction false} PaddedBy(n: nat, a: Bytes)
    ensures FromBigEndian(seq(n, _ => 0) + a) == FromBigEndian(a)
    decreases n + |a|
  {
    var padded: Bytes := seq(n, _ => 0) + a;
    if a != [] {
      PaddedBy(n, a[..|a| - 1]);
      assert padded[..|padded| - 1] == seq(n, _ => 0) + a[..|a| - 1];
    } else if n > 0 {
      PaddedBy(n - 1, a);
      assert padded[..|padded| - 1] == seq(n - 1, _ => 0) + a;
    }
  }

  /** Two parties with arbitrary secrets agree on a point exactly when the
      secrets mean the same scalar, or by the coincidence x1 + x2 + x3 + x4 = 0. */
  lemma PassphrasesMustMatch(c: Crypto, a: Bytes, b: Bytes, x1: nat, x2: nat, x3: nat, x4: nat, n: Nonces)
    requires NonzeroScalar(c, x1) && NonzeroScalar(c, x2) && NonzeroScalar(c, x3) && NonzeroScalar(c, x4)
    requires NonzeroNonces(c, n)
    requires var client, server := NewParty(c, Client, a, x1, x2), NewParty(c, Server, b, x3, x4);
             ClientBase(c, client, server) != 0 && ServerBase(c, client, server) != 0
    ensures var client, server := NewParty(c, Client, a, x1, x2), NewParty(c, Server, b, x3, x4);
            var rc, rs := ClientOne(c, client, n), ServerOne(c, server, n);
            var tc, ts := ClientTwo(c, client, server, n), ServerTwo(c, client, server, n);
            && tc.Ok? && ts.Ok?
            && var kc, ks := SharedPoint(c, client, rc, rs, ts.value), SharedPoint(c, server, rs, rc, tc.value);
               var m, k := SecretNumber(c, a) % c.q, SecretNumber(c, b) % c.q;
            && kc.Ok? && ks.Ok?
            && (kc == ks <==> m == k || (m <= 1 && k <= 1) || TotalSum(c, client, server) == 0)
  {
    hide SharedPoint, ClientOne, ServerOne, ClientTwo, ServerTwo, SecretNumber, ScalarFromSecret;
    hide TotalSum, ClientBase, ServerBase, NonzeroNonces;
    SameScalar(c, a, b);
    SecretsMustMatch(c, NewParty(c, Client, a, x1, x2), NewParty(c, Server, b, x3, x4), n);
  }

  /** The session key depends on the shared point's x coordinate, and on all of
      it: it separates points, under some hash, exactly when x does. */
  lemma KeySeparates(c: Crypto, s: nat, t: nat)
    requires 0 < s < c.q && 0 < t < c.q
    ensures (exists d :: SameGroup(c, d) && SessionKey(d, s) != SessionKey(d, t))
            <==> c.encodePoint(s)[1..33] != c.encodePoint(t)[1..33]
  {
    hide BigEndian, FromBigEndian;
    var x, y := c.encodePoint(s)[1..33], c.encodePoint(t)[1..33];
    if x != y {
      var d := WithDigests(c, b => TwoDigests(x, b), c.hmac);
      DigestsDiffer();
      assert SameGroup(c, d) && SessionKey(d, s) != SessionKey(d, t);
    }
  }
}
