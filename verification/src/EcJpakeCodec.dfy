/** TLS encodings of EC J-PAKE messages: ECSchnorrZKP, ECJPAKEKeyKPPairList and
    the key-exchange parameters. */
module EcJpakeCodec {
  import opened Bytes
  import opened Primitives
  import opened EcJpake
  import opened SchnorrSoundness

  // ----- Scalars without leading zeros

  /** Leading zero octets removed, keeping at least one octet. */
  function TrimScalar(b: Bytes): (t: Bytes)
    requires b != []
  {
    if b[0] == 0 && |b| > 1 then TrimScalar(b[1..]) else b
  }

  function LeftPad(b: Bytes, n: nat): (p: Bytes)
    requires |b| <= n
    ensures |p| == n
  {
    seq(n - |b|, _ => 0) + b
  }

  lemma {:induction false} PadTrim(b: Bytes)
    requires b != []
    ensures 0 < |TrimScalar(b)| <= |b|
    ensures LeftPad(TrimScalar(b), |b|) == b
  {
    if b[0] == 0 && |b| > 1 {
      PadTrim(b[1..]);
      assert b == [0] + b[1..];
      assert TrimScalar(b) == TrimScalar(b[1..]);
      hide TrimScalar;
      PadMore(TrimScalar(b), |b| - 1);
    } else {
      assert seq(0, _ => 0) + b == b;
    }
  }

  lemma PadMore(b: Bytes, n: nat)
    requires |b| <= n
    ensures LeftPad(b, n + 1) == [0] + LeftPad(b, n)
  {
  }

  // ----- Writers

  function EncodePoint(c: Crypto, point: Bytes): Result<Bytes> {
    var p :- PointFromBytes(c, point);
    var canonical := c.encodePoint(p);
    if |canonical| > 255 then Err(Error.Crypto) else Ok([|canonical|] + canonical)
  }

  function EncodeProof(c: Crypto, proof: SchnorrProof): Result<Bytes>
    requires |proof.r| == SCALAR_LEN
  {
    var v :- EncodePoint(c, proof.v);
    var r := TrimScalar(proof.r);
    if |r| > 255 || r == [] then Err(Error.Crypto) else Ok(v + ([|r|] + r))
  }

  function EncodeKeyKp(c: Crypto, point: Bytes, proof: SchnorrProof): Result<Bytes>
    requires |proof.r| == SCALAR_LEN
  {
    var p :- EncodePoint(c, point);
    var z :- EncodeProof(c, proof);
    Ok(p + z)
  }

  function EncodeKkpp(c: Crypto, r: RoundOne): Result<Bytes>
    requires |r.proof1.r| == |r.proof2.r| == SCALAR_LEN
  {
    var first :- EncodeKeyKp(c, r.g1, r.proof1);
    var second :- EncodeKeyKp(c, r.g2, r.proof2);
    Ok(first + second)
  }

  const CURVE_PARAMS: Bytes := [0x03, 0x00, 0x17]

  function EncodeKeyExchange(c: Crypto, r: RoundTwo, curveParams: bool): Result<Bytes>
    requires |r.proof.r| == SCALAR_LEN
  {
    var kp :- EncodeKeyKp(c, r.point, r.proof);
    Ok((if curveParams then CURVE_PARAMS else []) + kp)
  }

  // ----- Readers; each returns the value read and the unread input

  function ReadOpaque8(s: Bytes): (r: Result<(Bytes, Bytes)>)
    ensures r.Ok? ==> |r.value.1| < |s|
  {
    var (n, rest) :- TakeInt(s, 1);
    if n == 0 then Err(Error.Crypto) else Take(rest, n)
  }

  function ReadPoint(c: Crypto, s: Bytes): Result<(Bytes, Bytes)> {
    var (b, rest) :- ReadOpaque8(s);
    var p :- PointFromBytes(c, b);
    Ok((c.encodePoint(p), rest))
  }

  function ReadProof(c: Crypto, s: Bytes, id: Bytes): (r: Result<(SchnorrProof, Bytes)>)
    ensures r.Ok? ==> |r.value.0.r| == SCALAR_LEN
  {
    var (v, s1) :- ReadPoint(c, s);
    var (r, rest) :- ReadOpaque8(s1);
    if r == [] || |r| > SCALAR_LEN then Err(Error.Crypto) else
    var padded := LeftPad(r, SCALAR_LEN);
    var _ :- ScalarFromRepr(c, padded);
    Ok((SchnorrProof(v, padded, id), rest))
  }

  function ReadKeyKp(c: Crypto, s: Bytes, id: Bytes): (r: Result<((Bytes, SchnorrProof), Bytes)>)
    ensures r.Ok? ==> |r.value.0.1.r| == SCALAR_LEN
  {
    var (point, s1) :- ReadPoint(c, s);
    var (proof, rest) :- ReadProof(c, s1, id);
    Ok(((point, proof), rest))
  }

  function DecodeKkpp(c: Crypto, bytes: Bytes, id: Bytes): (r: Result<RoundOne>)
    ensures r.Ok? ==> |r.value.proof1.r| == |r.value.proof2.r| == SCALAR_LEN
  {
    var ((g1, proof1), s1) :- ReadKeyKp(c, bytes, id);
    var ((g2, proof2), rest) :- ReadKeyKp(c, s1, id);
    if rest != [] then Err(Error.Crypto) else
    var p1 :- PointFromBytes(c, g1);
    var p2 :- PointFromBytes(c, g2);
    var _ :- Verify(c, proof1, 1, p1, id, []);
    var _ :- Verify(c, proof2, 1, p2, id, []);
    Ok(RoundOne(g1, g2, proof1, proof2, id))
  }

  function ReadCurveParams(s: Bytes): Result<Bytes> {
    var (curveType, s1) :- TakeInt(s, 1);
    var (curve, rest) :- TakeInt(s1, 2);
    if curveType != 0x03 || curve != 0x0017 then Err(Error.Crypto) else Ok(rest)
  }

  function DecodeKeyExchange(c: Crypto, bytes: Bytes, id: Bytes, curveParams: bool): (r: Result<RoundTwo>)
    ensures r.Ok? ==> |r.value.proof.r| == SCALAR_LEN
  {
    var s :- if curveParams then ReadCurveParams(bytes) else Ok(bytes);
    var ((point, proof), rest) :- ReadKeyKp(c, s, id);
    if rest != [] then Err(Error.Crypto) else Ok(RoundTwo(point, proof))
  }

  // ----- Round trips

  /** An uncompressed encoding of a point other than the identity. */
  ghost predicate CanonicalPoint(c: Crypto, b: Bytes) {
    PointFromBytes(c, b).Ok? && c.encodePoint(PointFromBytes(c, b).value) == b
  }

  ghost predicate CanonicalProof(c: Crypto, proof: SchnorrProof, id: Bytes) {
    && CanonicalPoint(c, proof.v)
    && |proof.r| == SCALAR_LEN && ScalarFromRepr(c, proof.r).Ok?
    && proof.proverId == id
  }

  ghost predicate CanonicalRoundOne(c: Crypto, r: RoundOne) {
    && CanonicalPoint(c, r.g1) && CanonicalProof(c, r.proof1, r.id)
    && CanonicalPoint(c, r.g2) && CanonicalProof(c, r.proof2, r.id)
  }

  ghost predicate CanonicalRoundTwo(c: Crypto, r: RoundTwo, id: Bytes) {
    CanonicalPoint(c, r.point) && CanonicalProof(c, r.proof, id)
  }

  lemma ReadOpaque8Append(v: Bytes, rest: Bytes)
    requires 0 < |v| < 256
    ensures ReadOpaque8([|v|] + v + rest) == Ok((v, rest))
  {
    PowerValues();
    assert BigEndian(|v|, 1) == [|v|] by { assert BigEndian(|v| / 256, 0) == []; }
    assert [|v|] + v + rest == BigEndian(|v|, 1) + (v + rest);
    TakeIntAppend(|v|, 1, v + rest);
    TakeAppend(v, rest);
  }

  lemma ReadPointAppend(c: Crypto, point: Bytes, rest: Bytes)
    requires CanonicalPoint(c, point)
    ensures EncodePoint(c, point).Ok? && ReadPoint(c, EncodePoint(c, point).value + rest) == Ok((point, rest))
  {
    hide ReadOpaque8;
    ReadOpaque8Append(point, rest);
  }

  lemma ReadProofAppend(c: Crypto, proof: SchnorrProof, id: Bytes, rest: Bytes)
    requires CanonicalProof(c, proof, id)
    ensures EncodeProof(c, proof).Ok? && ReadProof(c, EncodeProof(c, proof).value + rest, id) == Ok((proof, rest))
  {
    hide ReadOpaque8, ReadPoint, EncodePoint, CanonicalPoint, TrimScalar, LeftPad, ScalarFromRepr;
    var r := TrimScalar(proof.r);
    PadTrim(proof.r);
    ReadPointAppend(c, proof.v, [|r|] + r + rest);
    ReadOpaque8Append(r, rest);
    var v := EncodePoint(c, proof.v).value;
    assert v + ([|r|] + r) + rest == v + ([|r|] + r + rest);
  }

  lemma ReadKeyKpAppend(c: Crypto, point: Bytes, proof: SchnorrProof, id: Bytes, rest: Bytes)
    requires CanonicalPoint(c, point) && CanonicalProof(c, proof, id)
    ensures EncodeKeyKp(c, point, proof).Ok?
    ensures ReadKeyKp(c, EncodeKeyKp(c, point, proof).value + rest, id) == Ok(((point, proof), rest))
  {
    hide ReadPoint, ReadProof, EncodePoint, EncodeProof, CanonicalPoint;
    ReadProofAppend(c, proof, id, rest);
    var z := EncodeProof(c, proof).value;
    ReadPointAppend(c, point, z + rest);
    var p := EncodePoint(c, point).value;
    assert p + z + rest == p + (z + rest);
  }

  /** A verified round one survives the wire. */
  lemma KkppRoundTrip(c: Crypto, r: RoundOne)
    requires CanonicalRoundOne(c, r) && VerifyRoundOne(c, r).Ok?
    ensures EncodeKkpp(c, r).Ok? && DecodeKkpp(c, EncodeKkpp(c, r).value, r.id) == Ok(r)
  {
    hide ReadKeyKp, EncodeKeyKp, CanonicalPoint, Verify, PointFromBytes, ScalarFromRepr;
    ReadKeyKpAppend(c, r.g2, r.proof2, r.id, []);
    var second := EncodeKeyKp(c, r.g2, r.proof2).value;
    assert second + [] == second;
    ReadKeyKpAppend(c, r.g1, r.proof1, r.id, second);
  }

  /** Whatever is accepted as a round one is verified and canonical, so
      re-encoding it and decoding again gives the same message. */
  lemma KkppAccepted(c: Crypto, bytes: Bytes, id: Bytes)
    requires DecodeKkpp(c, bytes, id).Ok?
    ensures var r := DecodeKkpp(c, bytes, id).value;
            && r.id == id && CanonicalRoundOne(c, r) && RoundOneProven(c, r)
            && EncodeKkpp(c, r).Ok? && DecodeKkpp(c, EncodeKkpp(c, r).value, id) == Ok(r)
  {
    var r := DecodeKkpp(c, bytes, id).value;
    AcceptedIsCanonical(c, bytes, id);
    KkppRoundTrip(c, r);
    RoundOneExact(c, r);
  }

  lemma AcceptedIsCanonical(c: Crypto, bytes: Bytes, id: Bytes)
    requires DecodeKkpp(c, bytes, id).Ok?
    ensures var r := DecodeKkpp(c, bytes, id).value;
            r.id == id && CanonicalRoundOne(c, r) && VerifyRoundOne(c, r).Ok?
  {
    hide ReadKeyKp, CanonicalPoint, CanonicalProof, Verify;
    ReadKeyKpCanonical(c, bytes, id);
    ReadKeyKpCanonical(c, ReadKeyKp(c, bytes, id).value.1, id);
  }

  lemma ReadKeyKpCanonical(c: Crypto, s: Bytes, id: Bytes)
    requires ReadKeyKp(c, s, id).Ok?
    ensures var (point, proof) := ReadKeyKp(c, s, id).value.0;
            CanonicalPoint(c, point) && CanonicalProof(c, proof, id)
  {
    hide ReadOpaque8, LeftPad, ScalarFromRepr;
  }

  lemma KeyExchangeRoundTrip(c: Crypto, r: RoundTwo, id: Bytes, curveParams: bool)
    requires CanonicalRoundTwo(c, r, id)
    ensures EncodeKeyExchange(c, r, curveParams).Ok?
    ensures DecodeKeyExchange(c, EncodeKeyExchange(c, r, curveParams).value, id, curveParams) == Ok(r)
  {
    hide ReadKeyKp, EncodeKeyKp, CanonicalPoint, CanonicalProof;
    ReadKeyKpAppend(c, r.point, r.proof, id, []);
    var kp := EncodeKeyKp(c, r.point, r.proof).value;
    assert kp + [] == kp && [] + kp == kp;
    ReadCurveParamsAppend(kp);
  }

  lemma ReadCurveParamsAppend(rest: Bytes)
    ensures ReadCurveParams(CURVE_PARAMS + rest) == Ok(rest)
  {
    var s := CURVE_PARAMS + rest;
    assert s[..1] == [3] && s[1..][..2] == [0, 0x17] && s[1..][2..] == rest;
    assert FromBigEndian([3]) == 3;
    assert FromBigEndian([0, 0x17]) == 256 * FromBigEndian([0]) + 0x17;
  }

  // ----- What honest parties send is canonical

  lemma GeneratedCanonical(c: Crypto, base: nat, x: nat, public: nat, id: Bytes, v: nat)
    requires 0 < base < c.q && NonzeroScalar(c, v)
    ensures CanonicalProof(c, Generate(c, base, x, public, id, [], v), id)
  {
    hide Mul, Sub;
    NonzeroProduct(c, base, v);
    PointRoundTrip(c, Mul(c, base, v));
    ScalarRoundTrip(c, Sub(c, v, Mul(c, x, Challenge(c, base, Mul(c, base, v), public, id, []))));
  }

  lemma RoundOneCanonical(c: Crypto, p: Party, v1: nat, v2: nat)
    requires NonzeroScalar(c, p.x1) && NonzeroScalar(c, p.x2)
    requires NonzeroScalar(c, v1) && NonzeroScalar(c, v2)
    ensures CanonicalRoundOne(c, MakeRoundOne(c, p, v1, v2))
  {
    hide Mul, Generate, CanonicalProof;
    TimesGenerator(c, p.x1);
    TimesGenerator(c, p.x2);
    PointRoundTrip(c, p.x1);
    PointRoundTrip(c, p.x2);
    GeneratedCanonical(c, 1, p.x1, p.x1, p.id, v1);
    GeneratedCanonical(c, 1, p.x2, p.x2, p.id, v2);
  }

  lemma RoundTwoCanonical(c: Crypto, p: Party, own: RoundOne, peer: RoundOne, v: nat)
    requires NonzeroScalar(c, p.x2) && NonzeroScalar(c, p.secret) && NonzeroScalar(c, v)
    requires MakeRoundTwo(c, p, own, peer, v).Ok?
    ensures CanonicalRoundTwo(c, MakeRoundTwo(c, p, own, peer, v).value, p.id)
  {
    hide Mul, Generate, VerifyRoundOne, SecondRoundBase, CanonicalProof;
    var base := SecondRoundBase(c, p, own, peer, p.role).value;
    var exponent := Mul(c, p.x2, p.secret);
    NonzeroProduct(c, p.x2, p.secret);
    NonzeroProduct(c, base, exponent);
    PointRoundTrip(c, Mul(c, base, exponent));
    GeneratedCanonical(c, base, exponent, Mul(c, base, exponent), p.id, v);
  }
}
