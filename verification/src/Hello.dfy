/** ClientHello, ServerHello and HelloVerifyRequest bodies. */
module Hello {
  import opened Bytes
  import opened Cursors

  const TLS_ECJPAKE_WITH_AES_128_CCM_8: U16 := 0xc0ff
  const TLS_EMPTY_RENEGOTIATION_INFO_SCSV: U16 := 0x00ff
  const DTLS_1_2_VERSION: U16 := 0xfefd
  const TLS_COMPRESSION_NULL: Byte := 0
  const EXTENSION_MAX_FRAGMENT_LENGTH: U16 := 1
  const EXTENSION_SUPPORTED_GROUPS: U16 := 10
  const EXTENSION_EC_POINT_FORMATS: U16 := 11
  const EXTENSION_SIGNATURE_ALGORITHMS: U16 := 13
  const EXTENSION_ECJPAKE_KKPP: U16 := 256

  type Random = b: Bytes | |b| == 32 witness seq(32, _ => 0)

  datatype TlsExtension = TlsExtension(extensionType: U16, data: Bytes)

  datatype ClientHello = ClientHello(
    random: Random, sessionId: Bytes, cookie: Bytes, cipherSuites: seq<U16>,
    compressionMethods: Bytes, extensions: seq<TlsExtension>)

  datatype ServerHello = ServerHello(
    random: Random, sessionId: Bytes, cipherSuite: U16, compressionMethod: Byte, extensions: seq<TlsExtension>)

  datatype HelloVerifyRequest = HelloVerifyRequest(serverVersion: U16, cookie: Bytes)

  // ----- Extension blocks

  function EncodeExtension(e: TlsExtension): Bytes
  {
    BigEndian(e.extensionType, 2) + Vector(e.data, 2)
  }

  function EncodeExtensionList(es: seq<TlsExtension>): Result<Bytes> {
    if es == [] then Ok([]) else
    if |es[0].data| > 0xffff then Err(Error.Crypto) else
    var rest :- EncodeExtensionList(es[1..]);
    Ok(EncodeExtension(es[0]) + rest)
  }

  function EncodeExtensions(es: seq<TlsExtension>): Result<Bytes> {
    var body :- EncodeExtensionList(es);
    if |body| > 0xffff then Err(Error.Crypto) else Ok(Vector(body, 2))
  }

  function TakeExtension(s: Bytes): (r: Result<(TlsExtension, Bytes)>)
    ensures r.Ok? ==> |r.value.1| < |s|
  {
    PowerValues();
    var (ty, s1) :- TakeInt(s, 2);
    var (data, rest) :- TakeVector(s1, 2);
    Ok((TlsExtension(ty, data), rest))
  }

  function DecodeExtensionList(s: Bytes): Result<seq<TlsExtension>>
    decreases |s|
  {
    if s == [] then Ok([]) else
    var (e, s1) :- TakeExtension(s);
    var es :- DecodeExtensionList(s1);
    Ok([e] + es)
  }

  /** The block may be missing altogether. */
  function TakeExtensions(s: Bytes): Result<(seq<TlsExtension>, Bytes)> {
    if s == [] then Ok(([], [])) else
    var (body, rest) :- TakeVector(s, 2);
    var es :- DecodeExtensionList(body);
    Ok((es, rest))
  }

  lemma TakeExtensionAppend(e: TlsExtension, rest: Bytes)
    requires |e.data| <= 0xffff
    ensures TakeExtension(EncodeExtension(e) + rest) == Ok((e, rest))
  {
    PowerValues();
    assert EncodeExtension(e) + rest == BigEndian(e.extensionType, 2) + (Vector(e.data, 2) + rest);
    TakeIntAppend(e.extensionType, 2, Vector(e.data, 2) + rest);
    TakeVectorAppend(e.data, 2, rest);
  }

  lemma TakeExtensionInverse(s: Bytes)
    requires TakeExtension(s).Ok?
    ensures var (e, rest) := TakeExtension(s).value;
            |e.data| <= 0xffff && s == EncodeExtension(e) + rest
  {
    hide TakeInt, TakeVector, BigEndian, Vector;
    PowerValues();
    TakeIntInverse(s, 2);
    var (ty, s1) := TakeInt(s, 2).value;
    TakeVectorInverse(s1, 2);
    var (data, rest) := TakeVector(s1, 2).value;
    assert s == BigEndian(ty, 2) + (Vector(data, 2) + rest);
  }

  lemma {:induction false} ExtensionListRoundTrip(es: seq<TlsExtension>)
    requires EncodeExtensionList(es).Ok?
    ensures DecodeExtensionList(EncodeExtensionList(es).value) == Ok(es)
  {
    if es != [] {
      ExtensionListRoundTrip(es[1..]);
      TakeExtensionAppend(es[0], EncodeExtensionList(es[1..]).value);
      assert es == [es[0]] + es[1..];
    }
  }

  lemma {:induction false} ExtensionListInverse(s: Bytes)
    requires DecodeExtensionList(s).Ok?
    ensures EncodeExtensionList(DecodeExtensionList(s).value) == Ok(s)
    decreases |s|
  {
    if s != [] {
      hide TakeExtension, EncodeExtension;
      var (e, s1) := TakeExtension(s).value;
      TakeExtensionInverse(s);
      ExtensionListInverse(s1);
      var es := DecodeExtensionList(s).value;
      assert es[0] == e && es[1..] == DecodeExtensionList(s1).value;
    }
  }

  lemma ExtensionsRoundTrip(es: seq<TlsExtension>)
    requires EncodeExtensions(es).Ok?
    ensures TakeExtensions(EncodeExtensions(es).value) == Ok((es, []))
  {
    PowerValues();
    var body := EncodeExtensionList(es).value;
    ExtensionListRoundTrip(es);
    TakeVectorAppend(body, 2, []);
    assert Vector(body, 2) + [] == Vector(body, 2);
  }

  /** The octets of an extension block, or the empty block when there is none. */
  lemma ExtensionsInverse(s: Bytes)
    requires TakeExtensions(s).Ok? && TakeExtensions(s).value.1 == []
    ensures EncodeExtensions(TakeExtensions(s).value.0) == Ok(if s == [] then [0, 0] else s)
  {
    PowerValues();
    if s == [] {
      assert Vector([], 2) == [0, 0] by {
        assert BigEndian(0, 1) == [0];
      }
    } else {
      TakeVectorInverse(s, 2);
      var (body, rest) := TakeVector(s, 2).value;
      ExtensionListInverse(body);
      assert Vector(body, 2) + [] == Vector(body, 2);
    }
  }

  method ReadExtension(cursor: Cursor) returns (r: Result<TlsExtension>)
    requires cursor.Valid()
    modifies cursor`offset
    ensures cursor.Valid()
    ensures match TakeExtension(old(cursor.Rest()))
            case Ok((e, rest)) => r == Ok(e) && cursor.Rest() == rest
            case Err(e) => r == Err(e)
  {
    PowerValues();
    var ty := cursor.ReadInt(2);
    if ty.Err? {
      return Err(ty.error);
    }
    var data := cursor.ReadVector(2);
    if data.Err? {
      return Err(data.error);
    }
    r := Ok(TlsExtension(ty.value, data.value));
  }

  /** What is left of the block, read behind `extensions`. */
  lemma ListFrom(extensions: seq<TlsExtension>, s: Bytes)
    ensures s == [] ==> Prefixed(extensions, DecodeExtensionList(s)) == Ok(extensions)
    ensures s != [] ==>
              match TakeExtension(s)
              case Ok((e, rest)) => Prefixed(extensions, DecodeExtensionList(s)) == Prefixed(extensions + [e], DecodeExtensionList(rest))
              case Err(e) => Prefixed(extensions, DecodeExtensionList(s)) == Err(e)
  {
    hide TakeExtension;
    if s == [] {
      assert extensions + [] == extensions;
    } else if TakeExtension(s).Ok? {
      var (e, rest) := TakeExtension(s).value;
      PrefixedStep(extensions, [e], DecodeExtensionList(rest));
    }
  }

  /** The source's loop over a cursor on the block's octets. */
  method ReadExtensionList(body: Bytes) returns (r: Result<seq<TlsExtension>>)
    ensures r == DecodeExtensionList(body)
  {
    hide TakeExtension, DecodeExtensionList, Prefixed;
    var cursor := new Cursor(body);
    var extensions: seq<TlsExtension> := [];
    var remaining := cursor.Remaining();
    PrefixedEmpty(DecodeExtensionList(body));
    while remaining > 0
      invariant cursor.Valid() && remaining == |cursor.Rest()|
      invariant DecodeExtensionList(body) == Prefixed(extensions, DecodeExtensionList(cursor.Rest()))
      decreases remaining
    {
      ListFrom(extensions, cursor.Rest());
      var extension := ReadExtension(cursor);
      if extension.Err? {
        return Err(extension.error);
      }
      extensions := extensions + [extension.value];
      remaining := cursor.Remaining();
    }
    ListFrom(extensions, cursor.Rest());
    return Ok(extensions);
  }

  /** The source's loop that builds the block. */
  method AppendExtensions(out: Bytes, extensions: seq<TlsExtension>) returns (r: Result<Bytes>)
    ensures r == Prefixed(out, EncodeExtensions(extensions))
  {
    var encoded: Bytes := [];
    var i := 0;
    assert extensions[0..] == extensions;
    PrefixedEmpty(EncodeExtensionList(extensions));
    while i < |extensions|
      invariant i <= |extensions|
      invariant EncodeExtensionList(extensions) == Prefixed(encoded, EncodeExtensionList(extensions[i..]))
    {
      var e := extensions[i];
      assert extensions[i..][1..] == extensions[i + 1..];
      if |e.data| > 0xffff {
        return Err(Error.Crypto);
      }
      PrefixedStep(encoded, EncodeExtension(e), EncodeExtensionList(extensions[i + 1..]));
      encoded := encoded + EncodeExtension(e);
      i := i + 1;
    }
    PrefixedEmpty(Ok(encoded));
    if |encoded| > 0xffff {
      return Err(Error.Crypto);
    }
    return Ok(out + Vector(encoded, 2));
  }

  // ----- Cipher suites

  function EncodeSuites(suites: seq<U16>): (b: Bytes)
    ensures |b| == 2 * |suites|
  {
    if suites == [] then [] else BigEndian(suites[0], 2) + EncodeSuites(suites[1..])
  }

  function DecodeSuites(b: Bytes): seq<U16>
    requires |b| % 2 == 0
  {
    PowerValues();
    if b == [] then [] else [FromBigEndian(b[..2])] + DecodeSuites(b[2..])
  }

  lemma {:induction false} SuitesRoundTrip(suites: seq<U16>)
    ensures DecodeSuites(EncodeSuites(suites)) == suites
  {
    if suites != [] {
      DecodeSuitesStep(suites[0], EncodeSuites(suites[1..]));
      SuitesRoundTrip(suites[1..]);
    }
  }

  lemma DecodeSuitesStep(suite: U16, rest: Bytes)
    requires |rest| % 2 == 0
    ensures DecodeSuites(BigEndian(suite, 2) + rest) == [suite] + DecodeSuites(rest)
  {
    hide BigEndian, FromBigEndian;
    PowerValues();
    var b := BigEndian(suite, 2) + rest;
    assert b[..2] == BigEndian(suite, 2) && b[2..] == rest;
    BigEndianRoundTrip(suite, 2);
  }

  lemma {:induction false} SuitesInverse(b: Bytes)
    requires |b| % 2 == 0
    ensures EncodeSuites(DecodeSuites(b)) == b
  {
    if b != [] {
      SuitesInverse(b[2..]);
      FromBigEndianRoundTrip(b[..2]);
      var suites := DecodeSuites(b);
      assert suites[0] == FromBigEndian(b[..2]) && suites[1..] == DecodeSuites(b[2..]);
      assert b == b[..2] + b[2..];
    }
  }

  // ----- ClientHello

  function EncodeClientHello(h: ClientHello): Result<Bytes> {
    if |h.sessionId| > 255 || |h.cookie| > 255 || |h.compressionMethods| > 255 || 2 * |h.cipherSuites| > 0xffff
    then Err(Error.Crypto) else
    var extensions :- EncodeExtensions(h.extensions);
    Ok(BigEndian(DTLS_1_2_VERSION, 2) + (h.random + (Vector(h.sessionId, 1) + (Vector(h.cookie, 1)
       + (Vector(EncodeSuites(h.cipherSuites), 2) + (Vector(h.compressionMethods, 1) + extensions))))))
  }

  function TakeRandom(s: Bytes): (r: Result<(Random, Bytes)>)
    ensures r.Ok? ==> r.value.0 + r.value.1 == s
  {
    Take(s, 32)
  }

  function TakeVersion(s: Bytes): Result<Bytes> {
    var (version, rest) :- TakeInt(s, 2);
    if version != DTLS_1_2_VERSION then Err(Error.Crypto) else Ok(rest)
  }

  function DecodeClientHello(b: Bytes): Result<ClientHello> {
    var s1 :- TakeVersion(b);
    var (random, s2) :- TakeRandom(s1);
    var (sessionId, s3) :- TakeVector(s2, 1);
    var (cookie, s4) :- TakeVector(s3, 1);
    var (suites, s5) :- TakeVector(s4, 2);
    if |suites| % 2 != 0 then Err(Error.Crypto) else
    var (compression, s6) :- TakeVector(s5, 1);
    var (extensions, s7) :- TakeExtensions(s6);
    if s7 != [] then Err(Error.Crypto) else
    Ok(ClientHello(random, sessionId, cookie, DecodeSuites(suites), compression, extensions))
  }

  lemma TakeVersionAppend(rest: Bytes)
    ensures TakeVersion(BigEndian(DTLS_1_2_VERSION, 2) + rest) == Ok(rest)
  {
    PowerValues();
    TakeIntAppend(DTLS_1_2_VERSION, 2, rest);
  }

  lemma TakeVersionInverse(b: Bytes)
    requires TakeVersion(b).Ok?
    ensures b == BigEndian(DTLS_1_2_VERSION, 2) + TakeVersion(b).value
  {
    TakeIntInverse(b, 2);
  }

  lemma ClientHelloRoundTrip(h: ClientHello)
    requires EncodeClientHello(h).Ok?
    ensures DecodeClientHello(EncodeClientHello(h).value) == Ok(h)
  {
    hide TakeVersion, TakeRandom, TakeVector, TakeExtensions, EncodeExtensions, EncodeSuites, DecodeSuites, Vector, BigEndian;
    PowerValues();
    var ext := EncodeExtensions(h.extensions).value;
    var suites := EncodeSuites(h.cipherSuites);
    var s6 := ext;
    var s5 := Vector(h.compressionMethods, 1) + s6;
    var s4 := Vector(suites, 2) + s5;
    var s3 := Vector(h.cookie, 1) + s4;
    var s2 := Vector(h.sessionId, 1) + s3;
    var s1 := h.random + s2;
    TakeVersionAppend(s1);
    TakeRandomAppend(h.random, s2);
    TakeVectorAppend(h.sessionId, 1, s3);
    TakeVectorAppend(h.cookie, 1, s4);
    TakeVectorAppend(suites, 2, s5);
    TakeVectorAppend(h.compressionMethods, 1, s6);
    ExtensionsRoundTrip(h.extensions);
    SuitesRoundTrip(h.cipherSuites);
  }

  lemma TakeRandomAppend(random: Random, rest: Bytes)
    ensures TakeRandom(random + rest) == Ok((random, rest))
  {
    TakeAppend(random, rest);
  }

  /** The unread input where the extension block starts. */
  function ClientHelloTail(b: Bytes): Bytes
    requires DecodeClientHello(b).Ok?
  {
    var s1 := TakeVersion(b).value;
    var s2 := TakeRandom(s1).value.1;
    var s3 := TakeVector(s2, 1).value.1;
    var s4 := TakeVector(s3, 1).value.1;
    var s5 := TakeVector(s4, 2).value.1;
    TakeVector(s5, 1).value.1
  }

  /** Decoding loses nothing: re-encoding gives the same octets, with an empty
      extension block made explicit when the input had none. */
  lemma ClientHelloInverse(b: Bytes)
    requires DecodeClientHello(b).Ok?
    ensures EncodeClientHello(DecodeClientHello(b).value)
         == Ok(b + if ClientHelloTail(b) == [] then [0, 0] else [])
  {
    hide TakeVersion, TakeRandom, TakeVector, TakeExtensions, EncodeExtensions, EncodeSuites, DecodeSuites, Vector, BigEndian;
    PowerValues();
    var s1 := TakeVersion(b).value;
    var (random, s2) := TakeRandom(s1).value;
    var (sid, s3) := TakeVector(s2, 1).value;
    var (cookie, s4) := TakeVector(s3, 1).value;
    var (suites, s5) := TakeVector(s4, 2).value;
    var (comp, s6) := TakeVector(s5, 1).value;
    TakeVersionInverse(b);
    TakeVectorInverse(s2, 1);
    TakeVectorInverse(s3, 1);
    TakeVectorInverse(s4, 2);
    TakeVectorInverse(s5, 1);
    SuitesInverse(suites);
    ExtensionsInverse(s6);
    var fill: Bytes := if s6 == [] then [0, 0] else [];
    assert s6 + fill == if s6 == [] then [0, 0] else s6;
    assert EncodeExtensions(TakeExtensions(s6).value.0) == Ok(s6 + fill);
    assert Vector(comp, 1) + (s6 + fill) == s5 + fill;
    RightNested(BigEndian(DTLS_1_2_VERSION, 2), random, Vector(sid, 1), Vector(cookie, 1), Vector(suites, 2), s5, fill);
  }

  lemma RightNested(a: Bytes, b: Bytes, c: Bytes, d: Bytes, e: Bytes, g: Bytes, h: Bytes)
    ensures a + (b + (c + (d + (e + (g + h))))) == a + (b + (c + (d + (e + g)))) + h
  {
    assert e + (g + h) == e + g + h;
    assert d + (e + g + h) == d + (e + g) + h;
    assert c + (d + (e + g) + h) == c + (d + (e + g)) + h;
    assert b + (c + (d + (e + g)) + h) == b + (c + (d + (e + g))) + h;
  }

  method ClientHelloDecode(b: Bytes) returns (r: Result<ClientHello>)
    ensures r == DecodeClientHello(b)
  {
    hide TakeVector, DecodeExtensionList, DecodeSuites;
    var cursor := new Cursor(b);
    var version := cursor.ReadInt(2);
    if version.Err? || version.value != DTLS_1_2_VERSION {
      return Err(Error.Crypto);
    }
    var random := cursor.ReadExact(32);
    if random.Err? { return Err(random.error); }
    var sessionId := cursor.ReadVector(1);
    if sessionId.Err? { return Err(sessionId.error); }
    var cookie := cursor.ReadVector(1);
    if cookie.Err? { return Err(cookie.error); }
    var suites := cursor.ReadVector(2);
    if suites.Err? { return Err(suites.error); }
    if |suites.value| % 2 != 0 {
      return Err(Error.Crypto);
    }
    var compression := cursor.ReadVector(1);
    if compression.Err? { return Err(compression.error); }
    var extensions := ReadExtensions(cursor);
    if extensions.Err? { return Err(extensions.error); }
    var remaining := cursor.Remaining();
    if remaining != 0 {
      return Err(Error.Crypto);
    }
    return Ok(ClientHello(random.value, sessionId.value, cookie.value, DecodeSuites(suites.value),
                          compression.value, extensions.value));
  }

  method ReadExtensions(cursor: Cursor) returns (r: Result<seq<TlsExtension>>)
    requires cursor.Valid()
    modifies cursor`offset
    ensures cursor.Valid()
    ensures match TakeExtensions(old(cursor.Rest()))
            case Ok((es, rest)) => r == Ok(es) && cursor.Rest() == rest
            case Err(e) => r == Err(e)
  {
    hide TakeVector, DecodeExtensionList;
    var remaining := cursor.Remaining();
    if remaining == 0 {
      return Ok([]);
    }
    var body := cursor.ReadVector(2);
    if body.Err? { return Err(body.error); }
    r := ReadExtensionList(body.value);
  }

  // ----- ServerHello and HelloVerifyRequest

  function EncodeServerHello(h: ServerHello): Result<Bytes> {
    if |h.sessionId| > 255 then Err(Error.Crypto) else
    var extensions :- EncodeExtensions(h.extensions);
    Ok(BigEndian(DTLS_1_2_VERSION, 2) + (h.random + (Vector(h.sessionId, 1)
       + (BigEndian(h.cipherSuite, 2) + (BigEndian(h.compressionMethod, 1) + extensions)))))
  }

  function TakeU16(s: Bytes): (r: Result<(U16, Bytes)>) {
    PowerValues();
    TakeInt(s, 2)
  }

  function TakeU8(s: Bytes): (r: Result<(Byte, Bytes)>) {
    PowerValues();
    TakeInt(s, 1)
  }

  function DecodeServerHello(b: Bytes): Result<ServerHello> {
    var s1 :- TakeVersion(b);
    var (random, s2) :- TakeRandom(s1);
    var (sessionId, s3) :- TakeVector(s2, 1);
    var (suite, s4) :- TakeU16(s3);
    var (compression, s5) :- TakeU8(s4);
    var (extensions, s6) :- TakeExtensions(s5);
    if s6 != [] then Err(Error.Crypto) else
    Ok(ServerHello(random, sessionId, suite, compression, extensions))
  }

  method ReadVersion(cursor: Cursor) returns (r: Result<()>)
    requires cursor.Valid()
    modifies cursor`offset
    ensures cursor.Valid()
    ensures match TakeVersion(old(cursor.Rest()))
            case Ok(rest) => r == Ok(()) && cursor.Rest() == rest
            case Err(e) => r == Err(e)
  {
    var version := cursor.ReadInt(2);
    if version.Err? || version.value != DTLS_1_2_VERSION {
      return Err(Error.Crypto);
    }
    r := Ok(());
  }

  method ServerHelloDecode(b: Bytes) returns (r: Result<ServerHello>)
    ensures r == DecodeServerHello(b)
  {
    PowerValues();
    hide TakeVersion, TakeVector, TakeExtensions, TakeInt, Pow256;
    var cursor := new Cursor(b);
    var version := ReadVersion(cursor);
    if version.Err? { return Err(version.error); }
    var random := cursor.ReadExact(32);
    if random.Err? { return Err(random.error); }
    var sessionId := cursor.ReadVector(1);
    if sessionId.Err? { return Err(sessionId.error); }
    var suite := cursor.ReadInt(2);
    if suite.Err? { return Err(suite.error); }
    var compression := cursor.ReadInt(1);
    if compression.Err? { return Err(compression.error); }
    var extensions := ReadExtensions(cursor);
    if extensions.Err? { return Err(extensions.error); }
    var remaining := cursor.Remaining();
    if remaining != 0 {
      return Err(Error.Crypto);
    }
    return Ok(ServerHello(random.value, sessionId.value, suite.value, compression.value, extensions.value));
  }

  lemma ServerHelloRoundTrip(h: ServerHello)
    requires EncodeServerHello(h).Ok?
    ensures DecodeServerHello(EncodeServerHello(h).value) == Ok(h)
  {
    hide TakeVersion, TakeRandom, TakeVector, TakeExtensions, EncodeExtensions, Vector, BigEndian, TakeInt;
    PowerValues();
    var s5 := EncodeExtensions(h.extensions).value;
    var s4 := BigEndian(h.compressionMethod, 1) + s5;
    var s3 := BigEndian(h.cipherSuite, 2) + s4;
    var s2 := Vector(h.sessionId, 1) + s3;
    TakeVersionAppend(h.random + s2);
    TakeRandomAppend(h.random, s2);
    TakeVectorAppend(h.sessionId, 1, s3);
    TakeIntAppend(h.cipherSuite, 2, s4);
    TakeIntAppend(h.compressionMethod, 1, s5);
    ExtensionsRoundTrip(h.extensions);
  }

  function ServerHelloTail(b: Bytes): Bytes
    requires DecodeServerHello(b).Ok?
  {
    var s1 := TakeVersion(b).value;
    var s2 := TakeRandom(s1).value.1;
    var s3 := TakeVector(s2, 1).value.1;
    var s4 := TakeU16(s3).value.1;
    TakeU8(s4).value.1
  }

  lemma ServerHelloInverse(b: Bytes)
    requires DecodeServerHello(b).Ok?
    ensures EncodeServerHello(DecodeServerHello(b).value)
         == Ok(b + if ServerHelloTail(b) == [] then [0, 0] else [])
  {
    hide TakeVersion, TakeRandom, TakeVector, TakeExtensions, EncodeExtensions, Vector, BigEndian;
    PowerValues();
    var s1 := TakeVersion(b).value;
    var (random, s2) := TakeRandom(s1).value;
    var (sid, s3) := TakeVector(s2, 1).value;
    var (suite, s4) := TakeU16(s3).value;
    var (comp, s5) := TakeU8(s4).value;
    TakeVersionInverse(b);
    TakeVectorInverse(s2, 1);
    TakeIntInverse(s3, 2);
    TakeIntInverse(s4, 1);
    ExtensionsInverse(s5);
    var fill: Bytes := if s5 == [] then [0, 0] else [];
    assert s5 + fill == if s5 == [] then [0, 0] else s5;
    assert EncodeExtensions(TakeExtensions(s5).value.0) == Ok(s5 + fill);
    RightNested(BigEndian(DTLS_1_2_VERSION, 2), random, Vector(sid, 1), BigEndian(suite, 2), BigEndian(comp, 1), s5, fill);
  }

  function EncodeHelloVerify(h: HelloVerifyRequest): Result<Bytes> {
    if |h.cookie| > 255 then Err(Error.Crypto) else Ok(BigEndian(h.serverVersion, 2) + Vector(h.cookie, 1))
  }

  function DecodeHelloVerify(b: Bytes): Result<HelloVerifyRequest> {
    var (version, s1) :- TakeU16(b);
    var (cookie, rest) :- TakeVector(s1, 1);
    if rest != [] then Err(Error.Crypto) else Ok(HelloVerifyRequest(version, cookie))
  }

  lemma HelloVerifyRoundTrip(h: HelloVerifyRequest)
    requires EncodeHelloVerify(h).Ok?
    ensures DecodeHelloVerify(EncodeHelloVerify(h).value) == Ok(h)
  {
    hide TakeVector, Vector, BigEndian, TakeInt;
    PowerValues();
    TakeIntAppend(h.serverVersion, 2, Vector(h.cookie, 1));
    TakeVectorAppend(h.cookie, 1, []);
    assert Vector(h.cookie, 1) + [] == Vector(h.cookie, 1);
  }

  // ----- The Thread profile

  function FindExtension(es: seq<TlsExtension>, ty: U16): Option<Bytes> {
    if es == [] then None else if es[0].extensionType == ty then Some(es[0].data) else FindExtension(es[1..], ty)
  }

  /** The first extension of the type is found, if there is one. */
  lemma {:induction false} FindsFirst(es: seq<TlsExtension>, ty: U16, i: nat)
    requires i <= |es| && forall k :: 0 <= k < i ==> es[k].extensionType != ty
    ensures i == |es| ==> FindExtension(es, ty) == None
    ensures i < |es| && es[i].extensionType == ty ==> FindExtension(es, ty) == Some(es[i].data)
    decreases i
  {
    if i > 0 {
      FindsFirst(es[1..], ty, i - 1);
    }
  }

  const EC_POINT_FORMATS: TlsExtension := TlsExtension(EXTENSION_EC_POINT_FORMATS, [0x01, 0x00])

  function ThreadClientHello(random: Random, cookie: Bytes, kkpp: Bytes): ClientHello {
    ClientHello(random, [], cookie, [TLS_ECJPAKE_WITH_AES_128_CCM_8, TLS_EMPTY_RENEGOTIATION_INFO_SCSV],
                [TLS_COMPRESSION_NULL],
                [TlsExtension(EXTENSION_SUPPORTED_GROUPS, [0x00, 0x02, 0x00, 0x17]),
                 TlsExtension(EXTENSION_SIGNATURE_ALGORITHMS, [0x00, 0x02, 0x04, 0x03]),
                 EC_POINT_FORMATS,
                 TlsExtension(EXTENSION_ECJPAKE_KKPP, kkpp),
                 TlsExtension(EXTENSION_MAX_FRAGMENT_LENGTH, [0x02])])
  }

  function ThreadServerHello(random: Random, kkpp: Bytes): ServerHello {
    ServerHello(random, [], TLS_ECJPAKE_WITH_AES_128_CCM_8, TLS_COMPRESSION_NULL,
                [TlsExtension(EXTENSION_ECJPAKE_KKPP, kkpp), EC_POINT_FORMATS])
  }
}
