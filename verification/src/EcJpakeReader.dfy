/** The EC-JPAKE decoders over the bounds-checked cursor. */
module EcJpakeReader {
  import opened Bytes
  import opened Cursors
  import opened Primitives
  import opened EcJpake
  import opened EcJpakeCodec

  method ReadOpaqueU8(cursor: Cursor) returns (r: Result<Bytes>)
    requires cursor.Valid()
    modifies cursor`offset
    ensures cursor.Valid()
    ensures match ReadOpaque8(old(cursor.Rest()))
            case Ok((b, rest)) => r == Ok(b) && cursor.Rest() == rest
            case Err(e) => r == Err(e)
  {
    hide TakeInt, Take;
    var n := cursor.ReadInt(1);
    if n.Err? {
      return Err(n.error);
    }
    if n.value == 0 {
      return Err(Error.Crypto);
    }
    r := cursor.ReadExact(n.value);
  }

  method ReadTlsPoint(c: Crypto, cursor: Cursor) returns (r: Result<Bytes>)
    requires cursor.Valid()
    modifies cursor`offset
    ensures cursor.Valid()
    ensures match ReadPoint(c, old(cursor.Rest()))
            case Ok((b, rest)) => r == Ok(b) && cursor.Rest() == rest
            case Err(e) => r == Err(e)
  {
    hide ReadOpaque8, PointFromBytes;
    var b := ReadOpaqueU8(cursor);
    if b.Err? {
      return Err(b.error);
    }
    var p := PointFromBytes(c, b.value);
    if p.Err? {
      return Err(p.error);
    }
    r := Ok(c.encodePoint(p.value));
  }

  method ReadSchnorrProof(c: Crypto, cursor: Cursor, id: Bytes) returns (r: Result<SchnorrProof>)
    requires cursor.Valid()
    modifies cursor`offset
    ensures cursor.Valid()
    ensures match ReadProof(c, old(cursor.Rest()), id)
            case Ok((proof, rest)) => r == Ok(proof) && cursor.Rest() == rest
            case Err(e) => r == Err(e)
  {
    hide ReadOpaque8, ReadPoint, ScalarFromRepr, LeftPad;
    var v := ReadTlsPoint(c, cursor);
    if v.Err? {
      return Err(v.error);
    }
    var scalar := ReadOpaqueU8(cursor);
    if scalar.Err? {
      return Err(scalar.error);
    }
    if scalar.value == [] || |scalar.value| > SCALAR_LEN {
      return Err(Error.Crypto);
    }
    var padded := LeftPad(scalar.value, SCALAR_LEN);
    var checked := ScalarFromRepr(c, padded);
    if checked.Err? {
      return Err(checked.error);
    }
    r := Ok(SchnorrProof(v.value, padded, id));
  }

  method ReadKeyPair(c: Crypto, cursor: Cursor, id: Bytes) returns (r: Result<(Bytes, SchnorrProof)>)
    requires cursor.Valid()
    modifies cursor`offset
    ensures cursor.Valid()
    ensures match ReadKeyKp(c, old(cursor.Rest()), id)
            case Ok((pair, rest)) => r == Ok(pair) && cursor.Rest() == rest
            case Err(e) => r == Err(e)
  {
    hide ReadPoint, ReadProof;
    var point := ReadTlsPoint(c, cursor);
    if point.Err? {
      return Err(point.error);
    }
    var proof := ReadSchnorrProof(c, cursor, id);
    if proof.Err? {
      return Err(proof.error);
    }
    r := Ok((point.value, proof.value));
  }

  method DecodeTlsKkpp(c: Crypto, bytes: Bytes, id: Bytes) returns (r: Result<RoundOne>)
    ensures r == DecodeKkpp(c, bytes, id)
  {
    hide ReadKeyKp, PointFromBytes, Verify;
    var cursor := new Cursor(bytes);
    var first := ReadKeyPair(c, cursor, id);
    if first.Err? {
      return Err(first.error);
    }
    var second := ReadKeyPair(c, cursor, id);
    if second.Err? {
      return Err(second.error);
    }
    var remaining := cursor.Remaining();
    if remaining != 0 {
      return Err(Error.Crypto);
    }
    var (g1, proof1) := first.value;
    var (g2, proof2) := second.value;
    var p1 := PointFromBytes(c, g1);
    if p1.Err? {
      return Err(p1.error);
    }
    var p2 := PointFromBytes(c, g2);
    if p2.Err? {
      return Err(p2.error);
    }
    var v1 := Verify(c, proof1, 1, p1.value, id, []);
    if v1.Err? {
      return Err(v1.error);
    }
    var v2 := Verify(c, proof2, 1, p2.value, id, []);
    if v2.Err? {
      return Err(v2.error);
    }
    r := Ok(RoundOne(g1, g2, proof1, proof2, id));
  }

  method ReadSecp256r1(cursor: Cursor) returns (r: Result<()>)
    requires cursor.Valid()
    modifies cursor`offset
    ensures cursor.Valid()
    ensures match ReadCurveParams(old(cursor.Rest()))
            case Ok(rest) => r == Ok(()) && cursor.Rest() == rest
            case Err(e) => r == Err(e)
  {
    hide TakeInt;
    var curveType := cursor.ReadInt(1);
    if curveType.Err? {
      return Err(curveType.error);
    }
    var curve := cursor.ReadInt(2);
    if curve.Err? {
      return Err(curve.error);
    }
    if curveType.value != 0x03 || curve.value != 0x0017 {
      return Err(Error.Crypto);
    }
    r := Ok(());
  }

  method DecodeTlsKeyExchange(c: Crypto, bytes: Bytes, id: Bytes, curveParams: bool) returns (r: Result<RoundTwo>)
    ensures r == DecodeKeyExchange(c, bytes, id, curveParams)
  {
    hide ReadKeyKp, ReadCurveParams;
    var cursor := new Cursor(bytes);
    if curveParams {
      var params := ReadSecp256r1(cursor);
      if params.Err? {
        return Err(params.error);
      }
    }
    var pair := ReadKeyPair(c, cursor, id);
    if pair.Err? {
      return Err(pair.error);
    }
    var remaining := cursor.Remaining();
    if remaining != 0 {
      return Err(Error.Crypto);
    }
    r := Ok(RoundTwo(pair.value.0, pair.value.1));
  }
}
