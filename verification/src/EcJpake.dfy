/** EC J-PAKE with Schnorr proofs: section 3.2 of RFC 8236 and section 3 of
    RFC 8235, as the Thread profile uses them.  Random scalars are inputs; the
    source draws each from the nonzero scalars. */
module EcJpake {
  import opened Bytes
  import opened PrimeField
  import opened Primitives

  datatype Role = Client | Server {
    function Peer(): Role { if Client? then Server else Client }
    function ThreadId(): Bytes {
      if Client? then [0x63, 0x6c, 0x69, 0x65, 0x6e, 0x74] else [0x73, 0x65, 0x72, 0x76, 0x65, 0x72]
    }
  }

  /** `v` is a SEC1 point, `r` a 32-octet scalar. */
  datatype SchnorrProof = SchnorrProof(v: Bytes, r: Bytes, proverId: Bytes)

  datatype RoundOne = RoundOne(g1: Bytes, g2: Bytes, proof1: SchnorrProof, proof2: SchnorrProof, id: Bytes)

  datatype RoundTwo = RoundTwo(point: Bytes, proof: SchnorrProof)

  datatype Party = Party(role: Role, id: Bytes, secret: nat, x1: nat, x2: nat)

  ghost predicate NonzeroScalar(c: Crypto, x: nat) { 0 < x < c.q }

  // ----- Schnorr proofs

  function HashItem(item: Bytes): Bytes { BigEndian(|item|, 4) + item }

  function Challenge(c: Crypto, base: nat, v: nat, public: nat, id: Bytes, other: Bytes): (r: nat)
    ensures r < c.q
  {
    FromBigEndian(c.sha256(ChallengeInput(c, base, v, public, id, other))) % c.q
  }

  /** What the challenge hashes. */
  function ChallengeInput(c: Crypto, base: nat, v: nat, public: nat, id: Bytes, other: Bytes): Bytes {
    HashItem(c.encodePoint(base)) + HashItem(c.encodePoint(v)) + HashItem(c.encodePoint(public)) + HashItem(id)
    + if other == [] then [] else HashItem(other)
  }

  function Generate(c: Crypto, base: nat, private: nat, public: nat, id: Bytes, other: Bytes, v: nat): SchnorrProof {
    var vPoint := Mul(c, base, v);
    var r := Sub(c, v, Mul(c, private, Challenge(c, base, vPoint, public, id, other)));
    SchnorrProof(c.encodePoint(vPoint), BigEndian(r, SCALAR_LEN), id)
  }

  function Verify(c: Crypto, proof: SchnorrProof, base: nat, public: nat, id: Bytes, other: Bytes): Result<()> {
    if proof.proverId != id || public == 0 then Err(Error.Crypto) else
    var vPoint :- PointFromBytes(c, proof.v);
    var r :- ScalarFromRepr(c, proof.r);
    var challenge := Challenge(c, base, vPoint, public, id, other);
    var expected := Add(c, Mul(c, base, r), Mul(c, public, challenge));
    if c.encodePoint(expected) != proof.v then Err(Error.Crypto) else Ok(())
  }

  /** base * (v - x*h) + (base*x) * h = base * v, with every operation reduced. */
  lemma SchnorrEquation(base: int, x: int, v: int, h: int, q: nat)
    requires q > 0
    ensures ((base * ((v - x * h % q) % q)) % q + ((base * x) % q * h) % q) % q == (base * v) % q
  {
    var s, t := (v - x * h % q) % q, (base * x) % q;
    assert (base * s) % q == (base * (v - x * h)) % q by {
      ModSub(x * h, v, q);
      ModMul(v - x * h, base, q);
    }
    assert (t * h) % q == ((base * x) * h) % q by {
      ModMul(base * x, h, q);
    }
    SumOfReduced(base * s, t * h, q);
    SumCongruent(base * s, base * (v - x * h), t * h, (base * x) * h, q);
    SchnorrPolynomial(base, x, v, h);
  }

  lemma SumOfReduced(a: int, b: int, q: nat)
    requires q > 0
    ensures (a % q + b % q) % q == (a + b) % q
  {
    ModAdd(a, b % q, q);
    ModAdd(b, a, q);
  }

  lemma SchnorrPolynomial(base: int, x: int, v: int, h: int)
    ensures base * (v - x * h) + (base * x) * h == base * v
  {
    assert base * (v - x * h) == base * v - base * (x * h);
    assert base * (x * h) == (base * x) * h;
  }

  /** Completeness: an honestly generated proof verifies, exactly when the base
      and the exponent are nonzero. */
  lemma SchnorrComplete(c: Crypto, base: nat, x: nat, id: Bytes, other: Bytes, v: nat)
    requires base < c.q && x < c.q && NonzeroScalar(c, v)
    ensures Verify(c, Generate(c, base, x, Mul(c, base, x), id, other, v), base, Mul(c, base, x), id, other).Ok?
            <==> base != 0 && x != 0
  {
    hide Mul, Add, Sub;
    var vPoint, public := Mul(c, base, v), Mul(c, base, x);
    NonzeroProduct(c, base, x);
    NonzeroProduct(c, base, v);
    if base != 0 && x != 0 {
      var h := Challenge(c, base, vPoint, public, id, other);
      var r := Sub(c, v, Mul(c, x, h));
      PointRoundTrip(c, vPoint);
      ScalarRoundTrip(c, r);
      VerificationPoint(c, base, x, v, h);
    }
  }

  lemma VerificationPoint(c: Crypto, base: nat, x: nat, v: nat, h: nat)
    ensures Add(c, Mul(c, base, Sub(c, v, Mul(c, x, h))), Mul(c, Mul(c, base, x), h)) == Mul(c, base, v)
  {
    SchnorrEquation(base, x, v, h, c.q);
  }

  lemma NonzeroProduct(c: Crypto, a: nat, b: nat)
    requires a < c.q && b < c.q
    ensures Mul(c, a, b) == 0 <==> a == 0 || b == 0
  {
    ReducedProduct(a, b, c.q);
  }

  // ----- The protocol rounds

  function ScalarFromSecret(c: Crypto, secret: Bytes): (s: nat)
    ensures NonzeroScalar(c, s)
  {
    var bytes := if |secret| <= SCALAR_LEN then seq(SCALAR_LEN - |secret|, _ => 0) + secret else c.sha256(secret);
    var scalar := FromBigEndian(bytes) % c.q;
    if scalar == 0 then 1 else scalar
  }

  /** A Thread-profile party; `x1` and `x2` are x3 and x4 on the server side. */
  function NewParty(c: Crypto, role: Role, secret: Bytes, x1: nat, x2: nat): Party {
    Party(role, role.ThreadId(), ScalarFromSecret(c, secret), x1, x2)
  }

  function MakeRoundOne(c: Crypto, p: Party, v1: nat, v2: nat): RoundOne {
    var g1, g2 := Mul(c, 1, p.x1), Mul(c, 1, p.x2);
    RoundOne(c.encodePoint(g1), c.encodePoint(g2),
             Generate(c, 1, p.x1, g1, p.id, [], v1), Generate(c, 1, p.x2, g2, p.id, [], v2), p.id)
  }

  function VerifyRoundOne(c: Crypto, peer: RoundOne): Result<()> {
    var g1 :- PointFromBytes(c, peer.g1);
    var g2 :- PointFromBytes(c, peer.g2);
    if g2 == 0 then Err(Error.Crypto) else
    var _ :- Verify(c, peer.proof1, 1, g1, peer.id, []);
    Verify(c, peer.proof2, 1, g2, peer.id, [])
  }

  function SecondRoundBase(c: Crypto, p: Party, own: RoundOne, peer: RoundOne, sender: Role): (r: Result<nat>)
    ensures r.Ok? ==> r.value < c.q
  {
    var ownG1 :- PointFromBytes(c, own.g1);
    var ownG2 :- PointFromBytes(c, own.g2);
    var peerG1 :- PointFromBytes(c, peer.g1);
    var peerG2 :- PointFromBytes(c, peer.g2);
    Ok(match (p.role, sender)
       case (Client, Client) => Add(c, Add(c, ownG1, peerG1), peerG2)
       case (Client, Server) => Add(c, Add(c, ownG1, ownG2), peerG1)
       case (Server, Server) => Add(c, Add(c, peerG1, peerG2), ownG1)
       case (Server, Client) => Add(c, Add(c, peerG1, ownG1), ownG2))
  }

  function MakeRoundTwo(c: Crypto, p: Party, own: RoundOne, peer: RoundOne, v: nat): (r: Result<RoundTwo>)
    ensures r.Ok? ==> |r.value.proof.r| == SCALAR_LEN
  {
    var _ :- VerifyRoundOne(c, peer);
    var base :- SecondRoundBase(c, p, own, peer, p.role);
    if base == 0 then Err(Error.Crypto) else
    var exponent := Mul(c, p.x2, p.secret);
    var point := Mul(c, base, exponent);
    Ok(RoundTwo(c.encodePoint(point), Generate(c, base, exponent, point, p.id, [], v)))
  }

  /** The point `finish` computes before hashing it; the identity is possible. */
  function SharedPoint(c: Crypto, p: Party, own: RoundOne, peer: RoundOne, peerTwo: RoundTwo): (r: Result<nat>)
    ensures r.Ok? ==> r.value < c.q
  {
    var _ :- VerifyRoundOne(c, peer);
    var peerBase :- SecondRoundBase(c, p, own, peer, p.role.Peer());
    var peerPoint :- PointFromBytes(c, peerTwo.point);
    var _ :- Verify(c, peerTwo.proof, peerBase, peerPoint, peer.id, []);
    var peerX2 :- PointFromBytes(c, peer.g2);
    var exponent := Mul(c, p.x2, p.secret);
    Ok(Mul(c, Sub(c, peerPoint, Mul(c, peerX2, exponent)), p.x2))
  }

  /** SHA-256 of the x coordinate of a point other than the identity. */
  function SessionKey(c: Crypto, shared: nat): (key: Bytes)
    requires 0 < shared < c.q
    ensures |key| == DIGEST_LEN
  {
    c.sha256(c.encodePoint(shared)[1..33])
  }

  function Finish(c: Crypto, p: Party, own: RoundOne, peer: RoundOne, peerTwo: RoundTwo): (r: Result<Bytes>)
    ensures r.Ok? ==> |r.value| == DIGEST_LEN
  {
    var shared :- SharedPoint(c, p, own, peer, peerTwo);
    if shared == 0 then Err(Error.Crypto) else Ok(SessionKey(c, shared))
  }

  // ----- Agreement between two honest parties

  /** A client and a server with nonzero scalars; their secrets may differ. */
  ghost predicate HonestPair(c: Crypto, client: Party, server: Party) {
    && client.role == Client && server.role == Server
    && NonzeroScalar(c, client.x1) && NonzeroScalar(c, client.x2) && NonzeroScalar(c, client.secret)
    && NonzeroScalar(c, server.x1) && NonzeroScalar(c, server.x2) && NonzeroScalar(c, server.secret)
  }

  /** The base of the client's and of the server's second round. */
  function ClientBase(c: Crypto, client: Party, server: Party): nat {
    (client.x1 + server.x1 + server.x2) % c.q
  }

  function ServerBase(c: Crypto, client: Party, server: Party): nat {
    (client.x1 + client.x2 + server.x1) % c.q
  }

  lemma TimesGenerator(c: Crypto, x: nat)
    requires x < c.q
    ensures Mul(c, 1, x) == x
  {
    SmallMod(x, c.q);
  }

  lemma RoundOneAccepted(c: Crypto, p: Party, v1: nat, v2: nat)
    requires NonzeroScalar(c, p.x1) && NonzeroScalar(c, p.x2)
    requires NonzeroScalar(c, v1) && NonzeroScalar(c, v2)
    ensures var r := MakeRoundOne(c, p, v1, v2);
            && VerifyRoundOne(c, r).Ok? && r.id == p.id
            && PointFromBytes(c, r.g1) == Ok(p.x1) && PointFromBytes(c, r.g2) == Ok(p.x2)
  {
    hide Mul, Verify, Generate;
    TimesGenerator(c, p.x1);
    TimesGenerator(c, p.x2);
    SchnorrComplete(c, 1, p.x1, p.id, [], v1);
    SchnorrComplete(c, 1, p.x2, p.id, [], v2);
    PointRoundTrip(c, p.x1);
    PointRoundTrip(c, p.x2);
  }

  lemma ThreeTermSum(c: Crypto, a: nat, b: nat, d: nat)
    ensures Add(c, Add(c, a, b), d) == (a + b + d) % c.q
  {
    assert c.q > 0;
    hide Prime;
    ThreeTerms(a, b, d, c.q);
  }

  /** Both sides compute the same base for each sender. */
  lemma BasesAgree(c: Crypto, client: Party, server: Party, rc: RoundOne, rs: RoundOne)
    requires client.role == Client && server.role == Server
    requires PointFromBytes(c, rc.g1) == Ok(client.x1) && PointFromBytes(c, rc.g2) == Ok(client.x2)
    requires PointFromBytes(c, rs.g1) == Ok(server.x1) && PointFromBytes(c, rs.g2) == Ok(server.x2)
    ensures SecondRoundBase(c, client, rc, rs, Client) == Ok(ClientBase(c, client, server))
    ensures SecondRoundBase(c, server, rs, rc, Client) == Ok(ClientBase(c, client, server))
    ensures SecondRoundBase(c, client, rc, rs, Server) == Ok(ServerBase(c, client, server))
    ensures SecondRoundBase(c, server, rs, rc, Server) == Ok(ServerBase(c, client, server))
  {
    hide Add, PointFromBytes;
    ThreeTermSum(c, client.x1, server.x1, server.x2);
    ThreeTermSum(c, client.x1, client.x2, server.x1);
    ThreeTermSum(c, server.x1, server.x2, client.x1);
  }

  /** What `rcv` computes from the second round of `snd`, whose base is `base`. */
  function ReceivedPoint(c: Crypto, snd: Party, rcv: Party, base: nat): nat {
    Mul(c, Sub(c, Mul(c, base, Mul(c, snd.x2, snd.secret)), Mul(c, snd.x2, Mul(c, rcv.x2, rcv.secret))), rcv.x2)
  }

  /** A second round exists exactly when its base is not the identity, and the
      peer then accepts its proof. */
  lemma RoundTwoAccepted(c: Crypto, snd: Party, rcv: Party, rsnd: RoundOne, rrcv: RoundOne, base: nat, v: nat)
    requires rcv.role == snd.role.Peer() && rsnd.id == snd.id
    requires VerifyRoundOne(c, rsnd).Ok? && VerifyRoundOne(c, rrcv).Ok?
    requires PointFromBytes(c, rsnd.g2) == Ok(snd.x2)
    requires NonzeroScalar(c, snd.x2) && NonzeroScalar(c, snd.secret) && NonzeroScalar(c, v) && base < c.q
    requires SecondRoundBase(c, snd, rsnd, rrcv, snd.role) == Ok(base)
    requires SecondRoundBase(c, rcv, rrcv, rsnd, snd.role) == Ok(base)
    ensures MakeRoundTwo(c, snd, rsnd, rrcv, v).Ok? <==> base != 0
    ensures base != 0 ==>
      SharedPoint(c, rcv, rrcv, rsnd, MakeRoundTwo(c, snd, rsnd, rrcv, v).value) == Ok(ReceivedPoint(c, snd, rcv, base))
  {
    hide Mul, Sub, VerifyRoundOne, SecondRoundBase, Verify, Generate;
    var exponent := Mul(c, snd.x2, snd.secret);
    NonzeroProduct(c, snd.x2, snd.secret);
    NonzeroProduct(c, base, exponent);
    SchnorrComplete(c, base, exponent, snd.id, [], v);
    if base != 0 {
      PointRoundTrip(c, Mul(c, base, exponent));
    }
  }

  /** ReceivedPoint as one polynomial. */
  lemma ReceivedPointExpanded(c: Crypto, snd: Party, rcv: Party, base: int)
    ensures ReceivedPoint(c, snd, rcv, base % c.q)
         == (snd.x2 * rcv.x2 * (base * snd.secret - rcv.x2 * rcv.secret)) % c.q
  {
    SharedPolynomial(base, snd.x2, snd.secret, rcv.x2, rcv.secret, c.q);
  }

  lemma SharedPolynomial(base: int, x: int, s: int, y: int, t: int, q: nat)
    requires q > 0
    ensures ((((base % q) * (x * s % q)) % q - (x * (y * t % q)) % q) % q * y) % q
         == (x * y * (base * s - y * t)) % q
  {
    var m, n := base * (x * s), x * (y * t);
    ReducedProducts(base, x * s, q);
    ModMul(y * t, x, q);
    ReducedDifference(m, n, q);
    ModMul(m - n, y, q);
    FactorShared(base, x, s, y, t);
  }

  lemma ReducedProducts(a: int, b: int, q: nat)
    requires q > 0
    ensures ((a % q) * (b % q)) % q == (a * b) % q
  {
    ModMul(a, b % q, q);
    ModMul(b, a, q);
  }

  lemma ReducedDifference(m: int, n: int, q: nat)
    requires q > 0
    ensures (m % q - n % q) % q == (m - n) % q
  {
    ModSub(m, n % q, q);
    ModSub(n, m, q);
  }

  lemma FactorShared(base: int, x: int, s: int, y: int, t: int)
    ensures (base * (x * s) - x * (y * t)) * y == x * y * (base * s - y * t)
  {
    assert base * (x * s) - x * (y * t) == x * (base * s - y * t);
  }

  /** The four proof nonces of round one and the two of round two. */
  datatype Nonces = Nonces(c1: nat, c2: nat, s1: nat, s2: nat, c3: nat, s3: nat)

  ghost predicate NonzeroNonces(c: Crypto, n: Nonces) {
    && NonzeroScalar(c, n.c1) && NonzeroScalar(c, n.c2) && NonzeroScalar(c, n.c3)
    && NonzeroScalar(c, n.s1) && NonzeroScalar(c, n.s2) && NonzeroScalar(c, n.s3)
  }

  function ClientOne(c: Crypto, client: Party, n: Nonces): RoundOne { MakeRoundOne(c, client, n.c1, n.c2) }
  function ServerOne(c: Crypto, server: Party, n: Nonces): RoundOne { MakeRoundOne(c, server, n.s1, n.s2) }
  function ClientTwo(c: Crypto, client: Party, server: Party, n: Nonces): Result<RoundTwo> {
    MakeRoundTwo(c, client, ClientOne(c, client, n), ServerOne(c, server, n), n.c3)
  }
  function ServerTwo(c: Crypto, client: Party, server: Party, n: Nonces): Result<RoundTwo> {
    MakeRoundTwo(c, server, ServerOne(c, server, n), ClientOne(c, client, n), n.s3)
  }

  /** Second rounds fail exactly on a degenerate base; otherwise both shared
      points are defined and have their closed forms. */
  lemma HonestRounds(c: Crypto, client: Party, server: Party, n: Nonces)
    requires HonestPair(c, client, server) && NonzeroNonces(c, n)
    ensures VerifyRoundOne(c, ClientOne(c, client, n)).Ok? && VerifyRoundOne(c, ServerOne(c, server, n)).Ok?
    ensures ClientTwo(c, client, server, n).Ok? <==> ClientBase(c, client, server) != 0
    ensures ServerTwo(c, client, server, n).Ok? <==> ServerBase(c, client, server) != 0
    ensures ServerTwo(c, client, server, n).Ok? ==>
      SharedPoint(c, client, ClientOne(c, client, n), ServerOne(c, server, n), ServerTwo(c, client, server, n).value)
      == Ok(ReceivedPoint(c, server, client, ServerBase(c, client, server)))
    ensures ClientTwo(c, client, server, n).Ok? ==>
      SharedPoint(c, server, ServerOne(c, server, n), ClientOne(c, client, n), ClientTwo(c, client, server, n).value)
      == Ok(ReceivedPoint(c, client, server, ClientBase(c, client, server)))
  {
    hide SecondRoundBase, VerifyRoundOne, MakeRoundOne, MakeRoundTwo, SharedPoint, ReceivedPoint, PointFromBytes;
    var rc, rs := ClientOne(c, client, n), ServerOne(c, server, n);
    RoundOneAccepted(c, client, n.c1, n.c2);
    RoundOneAccepted(c, server, n.s1, n.s2);
    BasesAgree(c, client, server, rc, rs);
    RoundTwoAccepted(c, client, server, rc, rs, ClientBase(c, client, server), n.c3);
    RoundTwoAccepted(c, server, client, rs, rc, ServerBase(c, client, server), n.s3);
  }

  /** The closed forms of the shared points for secrets s (client), t (server). */
  lemma SharedPointForms(c: Crypto, client: Party, server: Party)
    ensures ReceivedPoint(c, server, client, ServerBase(c, client, server))
         == (client.x2 * server.x2 * ((client.x1 + client.x2 + server.x1) * server.secret - client.x2 * client.secret)) % c.q
    ensures ReceivedPoint(c, client, server, ClientBase(c, client, server))
         == (client.x2 * server.x2 * ((client.x1 + server.x1 + server.x2) * client.secret - server.x2 * server.secret)) % c.q
  {
    hide ReceivedPoint;
    ReceivedPointExpanded(c, server, client, client.x1 + client.x2 + server.x1);
    ReceivedPointExpanded(c, client, server, client.x1 + server.x1 + server.x2);
    assert server.x2 * client.x2 == client.x2 * server.x2;
  }

  /** x1 + x3 */
  function FirstSum(c: Crypto, client: Party, server: Party): nat {
    (client.x1 + server.x1) % c.q
  }

  /** x1 + x2 + x3 + x4 */
  function TotalSum(c: Crypto, client: Party, server: Party): nat {
    (client.x1 + client.x2 + server.x1 + server.x2) % c.q
  }

  /** The three sums that must not vanish for a run to complete. */
  ghost predicate NonDegenerate(c: Crypto, client: Party, server: Party) {
    && FirstSum(c, client, server) != 0
    && ClientBase(c, client, server) != 0
    && ServerBase(c, client, server) != 0
  }

  /** (x1 + x3) * x2 * x4 * s */
  function AgreedPoint(c: Crypto, client: Party, server: Party): (r: nat)
    ensures r < c.q
  {
    (client.x2 * server.x2 * ((client.x1 + server.x1) * client.secret)) % c.q
  }

  lemma AgreedPointNonzero(c: Crypto, client: Party, server: Party)
    requires HonestPair(c, client, server)
    ensures AgreedPoint(c, client, server) == 0 <==> FirstSum(c, client, server) == 0
  {
    ProductOfFour(client.x2, server.x2, client.x1 + server.x1, client.secret, c.q);
  }

  lemma ProductOfFour(a: nat, b: nat, d: nat, e: nat, q: nat)
    requires Prime(q) && 0 < a < q && 0 < b < q && 0 < e < q
    ensures (a * b * (d * e)) % q == 0 <==> d % q == 0
  {
    SmallMod(a, q);
    SmallMod(b, q);
    SmallMod(e, q);
    NoZeroDivisors(a * b, d * e, q);
    NoZeroDivisors(a, b, q);
    NoZeroDivisors(d, e, q);
  }

  /** Equal secrets: a run completes on both sides exactly when no sum is
      degenerate, and both sides then derive one key, from (x1+x3)*x2*x4*s. */
  lemma KeyAgreement(c: Crypto, client: Party, server: Party, n: Nonces)
    requires HonestPair(c, client, server) && NonzeroNonces(c, n) && client.secret == server.secret
    ensures var rc, rs := ClientOne(c, client, n), ServerOne(c, server, n);
            var tc, ts := ClientTwo(c, client, server, n), ServerTwo(c, client, server, n);
            && (NonDegenerate(c, client, server)
                <==> tc.Ok? && ts.Ok? && Finish(c, client, rc, rs, ts.value).Ok? && Finish(c, server, rs, rc, tc.value).Ok?)
            && (NonDegenerate(c, client, server) ==>
                  && AgreedPoint(c, client, server) != 0
                  && Finish(c, client, rc, rs, ts.value) == Ok(SessionKey(c, AgreedPoint(c, client, server)))
                  && Finish(c, server, rs, rc, tc.value) == Ok(SessionKey(c, AgreedPoint(c, client, server))))
  {
    hide SharedPoint, ReceivedPoint, ClientOne, ServerOne, ClientTwo, ServerTwo;
    hide AgreedPoint, FirstSum, ClientBase, ServerBase, HonestPair, NonzeroNonces, SessionKey;
    HonestRounds(c, client, server, n);
    EqualSecretPoints(c, client, server);
    AgreedPointNonzero(c, client, server);
  }

  lemma EqualSecretPoints(c: Crypto, client: Party, server: Party)
    requires client.secret == server.secret
    ensures ReceivedPoint(c, server, client, ServerBase(c, client, server)) == AgreedPoint(c, client, server)
    ensures ReceivedPoint(c, client, server, ClientBase(c, client, server)) == AgreedPoint(c, client, server)
  {
    hide ReceivedPoint, ClientBase, ServerBase;
    SharedPointForms(c, client, server);
    OwnSecretCancels(client.x1, client.x2, server.x1, server.x2, client.secret);
  }

  lemma OwnSecretCancels(x1: int, x2: int, x3: int, x4: int, s: int)
    ensures x2 * x4 * ((x1 + x2 + x3) * s - x2 * s) == x2 * x4 * ((x1 + x3) * s)
    ensures x2 * x4 * ((x1 + x3 + x4) * s - x4 * s) == x2 * x4 * ((x1 + x3) * s)
  {
    assert (x1 + x2 + x3) * s - x2 * s == (x1 + x3) * s;
    assert (x1 + x3 + x4) * s - x4 * s == (x1 + x3) * s;
  }

  /** Different secrets: the two sides agree on a point only by the coincidence
      x1 + x2 + x3 + x4 = 0. */
  lemma SecretsMustMatch(c: Crypto, client: Party, server: Party, n: Nonces)
    requires HonestPair(c, client, server) && NonzeroNonces(c, n)
    requires ClientBase(c, client, server) != 0 && ServerBase(c, client, server) != 0
    ensures var rc, rs := ClientOne(c, client, n), ServerOne(c, server, n);
            var tc, ts := ClientTwo(c, client, server, n), ServerTwo(c, client, server, n);
            && tc.Ok? && ts.Ok?
            && var kc, ks := SharedPoint(c, client, rc, rs, ts.value), SharedPoint(c, server, rs, rc, tc.value);
            && kc.Ok? && ks.Ok?
            && (kc == ks <==> client.secret == server.secret || TotalSum(c, client, server) == 0)
  {
    hide SharedPoint, ReceivedPoint, ClientOne, ServerOne, ClientTwo, ServerTwo;
    hide TotalSum, ClientBase, ServerBase, HonestPair, NonzeroNonces;
    HonestRounds(c, client, server, n);
    ReceivedPointsCoincide(c, client, server);
  }

  lemma ReceivedPointsCoincide(c: Crypto, client: Party, server: Party)
    requires HonestPair(c, client, server)
    ensures ReceivedPoint(c, server, client, ServerBase(c, client, server))
            == ReceivedPoint(c, client, server, ClientBase(c, client, server))
            <==> client.secret == server.secret || TotalSum(c, client, server) == 0
  {
    hide ReceivedPoint, ClientBase, ServerBase;
    SharedPointForms(c, client, server);
    PointsCoincide(client.x1, client.x2, server.x1, server.x2, client.secret, server.secret, c.q);
  }

  lemma PointsCoincide(x1: nat, x2: nat, x3: nat, x4: nat, s: nat, t: nat, q: nat)
    requires Prime(q) && 0 < x2 < q && 0 < x4 < q && 0 < s < q && 0 < t < q
    ensures (x2 * x4 * ((x1 + x2 + x3) * t - x2 * s)) % q == (x2 * x4 * ((x1 + x3 + x4) * s - x4 * t)) % q
            <==> s == t || (x1 + x2 + x3 + x4) % q == 0
  {
    var m, n := x2 * x4 * ((x1 + x2 + x3) * t - x2 * s), x2 * x4 * ((x1 + x3 + x4) * s - x4 * t);
    DifferenceFactors(x1, x2, x3, x4, s, t);
    ModZeroDifference(m, n, q);
    NoZeroDivisors(x2 * x4, (x1 + x2 + x3 + x4) * (t - s), q);
    NoZeroDivisors(x1 + x2 + x3 + x4, t - s, q);
    ReducedProduct(x2, x4, q);
    ModZeroDifference(t, s, q);
    SmallMod(s, q);
    SmallMod(t, q);
  }

  lemma DifferenceFactors(x1: int, x2: int, x3: int, x4: int, s: int, t: int)
    ensures x2 * x4 * ((x1 + x2 + x3) * t - x2 * s) - x2 * x4 * ((x1 + x3 + x4) * s - x4 * t)
         == x2 * x4 * ((x1 + x2 + x3 + x4) * (t - s))
  {
    var a, b := (x1 + x2 + x3) * t - x2 * s, (x1 + x3 + x4) * s - x4 * t;
    assert a - b == (x1 + x2 + x3 + x4) * (t - s);
    assert x2 * x4 * a - x2 * x4 * b == x2 * x4 * (a - b);
  }
}
