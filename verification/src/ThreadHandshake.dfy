/** The two runtime-neutral handshake machines.  Callers feed complete handshake
    messages in and send out the messages built; an error is terminal. */
module ThreadHandshake {
  import opened Bytes
  import opened Primitives
  import opened EcJpake
  import opened EcJpakeCodec
  import opened KeySchedule
  import opened Handshake
  import H = Hello

  type Hello = H.ClientHello

  // ----- Shared pieces

  function Push(transcript: Bytes, m: HandshakeMessage): Result<Bytes> {
    var b :- TranscriptBytes(m);
    Ok(transcript + b)
  }

  function FinishedData(c: Crypto, transcript: Bytes, keys: KeyMaterial, role: Role): (v: Bytes)
    ensures |v| == 12
  {
    VerifyData(c, keys.masterSecret, role, c.sha256(transcript))
  }

  lemma FinishedIs(c: Crypto, transcript: Bytes, keys: KeyMaterial, role: Role)
    ensures IsFinished(c, keys.masterSecret, role, transcript, FinishedData(c, transcript, keys, role))
  {
    hide VerifyData, IsFinished;
    VerifyDataIs(c, keys.masterSecret, role, transcript);
  }

  /** The Finished data covers the master secret, the sender and the transcript:
      if any of them differs, it differs under some hash and MAC. */
  lemma FinishedCovers(c: Crypto, t1: Bytes, k1: KeyMaterial, r1: Role, t2: Bytes, k2: KeyMaterial, r2: Role) returns (d: Crypto)
    requires (k1.masterSecret, r1, t1) != (k2.masterSecret, r2, t2)
    ensures SameGroup(c, d) && FinishedData(d, t1, k1, r1) != FinishedData(d, t2, k2, r2)
  {
    hide FinishedData, IsFinished;
    d := FinishedSeparates(c, k1.masterSecret, r1, t1, k2.masterSecret, r2, t2);
    FinishedIs(d, t1, k1, r1);
    FinishedIs(d, t2, k2, r2);
  }

  // ----- Client

  datatype ClientState = ClientState(
    party: Party, clientOne: RoundOne, serverOne: Option<RoundOne>, serverTwo: Option<RoundTwo>,
    clientRandom: H.Random, serverRandom: Option<H.Random>, transcript: Bytes)
  {
    /** Every round-one scalar response has 32 octets. */
    predicate WellSized() {
      && |clientOne.proof1.r| == |clientOne.proof2.r| == SCALAR_LEN
    }
  }

  function NewClient(c: Crypto, secret: Bytes, random: H.Random, x1: nat, x2: nat, v1: nat, v2: nat): (s: ClientState)
    ensures s.WellSized()
  {
    var party := NewParty(c, Client, secret, x1, x2);
    ClientState(party, MakeRoundOne(c, party, v1, v2), None, None, random, None, [])
  }

  function ClientKkpp(c: Crypto, s: ClientState): Result<Bytes>
    requires s.WellSized()
  {
    EncodeKkpp(c, s.clientOne)
  }

  function RecordClientHello(s: ClientState, m: HandshakeMessage): Result<ClientState> {
    if m.messageType != ClientHello then Err(Error.Crypto) else
    var t :- Push(s.transcript, m);
    Ok(s.(transcript := t))
  }

  function HandleServerHello(c: Crypto, s: ClientState, m: HandshakeMessage): Result<ClientState> {
    if m.messageType != ServerHello then Err(Error.Crypto) else
    var hello :- H.DecodeServerHello(m.payload);
    if hello.cipherSuite != H.TLS_ECJPAKE_WITH_AES_128_CCM_8 || hello.compressionMethod != H.TLS_COMPRESSION_NULL
    then Err(Error.Crypto) else
    match H.FindExtension(hello.extensions, H.EXTENSION_ECJPAKE_KKPP)
    case None => Err(Error.Crypto)
    case Some(kkpp) =>
      var one :- DecodeKkpp(c, kkpp, Server.ThreadId());
      var t :- Push(s.transcript, m);
      Ok(s.(serverOne := Some(one), serverRandom := Some(hello.random), transcript := t))
  }

  function HandleServerKeyExchange(c: Crypto, s: ClientState, m: HandshakeMessage): Result<ClientState> {
    if m.messageType != ServerKeyExchange then Err(Error.Crypto) else
    var two :- DecodeKeyExchange(c, m.payload, Server.ThreadId(), true);
    var t :- Push(s.transcript, m);
    Ok(s.(serverTwo := Some(two), transcript := t))
  }

  function HandleServerHelloDone(s: ClientState, m: HandshakeMessage): Result<ClientState> {
    if m.messageType != ServerHelloDone || m.payload != [] then Err(Error.Crypto) else
    var t :- Push(s.transcript, m);
    Ok(s.(transcript := t))
  }

  function BuildClientKeyExchange(c: Crypto, s: ClientState, messageSeq: U16, v: nat): Result<(ClientState, HandshakeMessage)> {
    if s.serverOne.None? then Err(InvalidState) else
    var two :- MakeRoundTwo(c, s.party, s.clientOne, s.serverOne.value, v);
    var payload :- EncodeKeyExchange(c, two, false);
    var m := HandshakeMessage(ClientKeyExchange, messageSeq, payload);
    var t :- Push(s.transcript, m);
    Ok((s.(transcript := t), m))
  }

  function ClientKeys(c: Crypto, s: ClientState): Result<KeyMaterial> {
    if s.serverOne.None? || s.serverTwo.None? || s.serverRandom.None? then Err(InvalidState) else
    var preMaster :- Finish(c, s.party, s.clientOne, s.serverOne.value, s.serverTwo.value);
    Ok(DeriveKeys(c, preMaster, s.clientRandom, s.serverRandom.value))
  }

  function BuildClientFinished(c: Crypto, s: ClientState, messageSeq: U16): Result<(ClientState, HandshakeMessage)> {
    var keys :- ClientKeys(c, s);
    var m := HandshakeMessage(Finished, messageSeq, FinishedData(c, s.transcript, keys, Client));
    var t :- Push(s.transcript, m);
    Ok((s.(transcript := t), m))
  }

  function VerifyServerFinished(c: Crypto, s: ClientState, m: HandshakeMessage, keys: KeyMaterial): Result<ClientState> {
    if m.messageType != Finished || m.payload != FinishedData(c, s.transcript, keys, Server) then Err(Error.Crypto) else
    var t :- Push(s.transcript, m);
    Ok(s.(transcript := t))
  }

  // ----- Server

  const COOKIE_LEN: nat := 16

  /** The stateless cookie: a MAC of the client's random. */
  function Cookie(c: Crypto, key: Bytes, clientRandom: H.Random): (b: Bytes)
    ensures |b| == COOKIE_LEN
  {
    c.hmac(key, clientRandom)[..COOKIE_LEN]
  }

  /** Different keys or randoms have different cookies under some MAC. */
  lemma CookieCovers(c: Crypto, k1: Bytes, r1: H.Random, k2: Bytes, r2: H.Random) returns (d: Crypto)
    requires (k1, r1) != (k2, r2)
    ensures SameGroup(c, d) && d.hmac(k1, r1)[..16] != d.hmac(k2, r2)[..16]
  {
    hide Repeat;
    if k1 != k2 {
      d := WithDigests(c, c.sha256, (k, b) => Tells(k1, k));
    } else {
      d := WithDigests(c, c.sha256, (k, b) => Tells(r1, b));
    }
    assert d.hmac(k1, r1)[..16][0] != d.hmac(k2, r2)[..16][0];
  }

  predicate CookieVerifies(c: Crypto, key: Bytes, hello: Hello) {
    hello.cookie == Cookie(c, key, hello.random)
  }

  datatype ServerState = ServerState(
    party: Party, serverOne: RoundOne, clientOne: Option<RoundOne>, clientTwo: Option<RoundTwo>,
    serverRandom: H.Random, clientRandom: Option<H.Random>, transcript: Bytes)
  {
    predicate WellSized() {
      && |serverOne.proof1.r| == |serverOne.proof2.r| == SCALAR_LEN
    }
  }

  function NewServer(c: Crypto, secret: Bytes, random: H.Random, x1: nat, x2: nat, v1: nat, v2: nat): (s: ServerState)
    ensures s.WellSized()
  {
    var party := NewParty(c, Server, secret, x1, x2);
    ServerState(party, MakeRoundOne(c, party, v1, v2), None, None, random, None, [])
  }

  function HandleClientHello(c: Crypto, s: ServerState, m: HandshakeMessage): (r: Result<ServerState>)
    ensures r.Ok? && s.WellSized() ==> r.value.WellSized()
  {
    if m.messageType != ClientHello then Err(Error.Crypto) else
    var hello :- H.DecodeClientHello(m.payload);
    if H.TLS_ECJPAKE_WITH_AES_128_CCM_8 !in hello.cipherSuites || H.TLS_COMPRESSION_NULL !in hello.compressionMethods
    then Err(Error.Crypto) else
    match H.FindExtension(hello.extensions, H.EXTENSION_ECJPAKE_KKPP)
    case None => Err(Error.Crypto)
    case Some(kkpp) =>
      var one :- DecodeKkpp(c, kkpp, Client.ThreadId());
      var t :- Push(s.transcript, m);
      Ok(s.(clientOne := Some(one), clientRandom := Some(hello.random), transcript := t))
  }

  function BuildServerHello(c: Crypto, s: ServerState, messageSeq: U16): (r: Result<(ServerState, HandshakeMessage)>)
    requires s.WellSized()
    ensures r.Ok? ==> r.value.0.WellSized()
  {
    if s.clientRandom.None? then Err(InvalidState) else
    var kkpp :- EncodeKkpp(c, s.serverOne);
    var payload :- H.EncodeServerHello(H.ThreadServerHello(s.serverRandom, kkpp));
    var m := HandshakeMessage(ServerHello, messageSeq, payload);
    var t :- Push(s.transcript, m);
    Ok((s.(transcript := t), m))
  }

  function BuildServerKeyExchange(c: Crypto, s: ServerState, messageSeq: U16, v: nat): Result<(ServerState, HandshakeMessage)> {
    if s.clientOne.None? then Err(InvalidState) else
    var two :- MakeRoundTwo(c, s.party, s.serverOne, s.clientOne.value, v);
    var payload :- EncodeKeyExchange(c, two, true);
    var m := HandshakeMessage(ServerKeyExchange, messageSeq, payload);
    var t :- Push(s.transcript, m);
    Ok((s.(transcript := t), m))
  }

  function BuildServerHelloDone(s: ServerState, messageSeq: U16): Result<(ServerState, HandshakeMessage)> {
    var m := HandshakeMessage(ServerHelloDone, messageSeq, []);
    var t :- Push(s.transcript, m);
    Ok((s.(transcript := t), m))
  }

  function HandleClientKeyExchange(c: Crypto, s: ServerState, m: HandshakeMessage): Result<ServerState> {
    if m.messageType != ClientKeyExchange then Err(Error.Crypto) else
    var two :- DecodeKeyExchange(c, m.payload, Client.ThreadId(), false);
    var t :- Push(s.transcript, m);
    Ok(s.(clientTwo := Some(two), transcript := t))
  }

  function ServerKeys(c: Crypto, s: ServerState): Result<KeyMaterial> {
    if s.clientOne.None? || s.clientTwo.None? || s.clientRandom.None? then Err(InvalidState) else
    var preMaster :- Finish(c, s.party, s.serverOne, s.clientOne.value, s.clientTwo.value);
    Ok(DeriveKeys(c, preMaster, s.clientRandom.value, s.serverRandom))
  }

  function VerifyClientFinished(c: Crypto, s: ServerState, m: HandshakeMessage, keys: KeyMaterial): Result<ServerState> {
    if m.messageType != Finished || m.payload != FinishedData(c, s.transcript, keys, Client) then Err(Error.Crypto) else
    var t :- Push(s.transcript, m);
    Ok(s.(transcript := t))
  }

  function BuildServerFinished(c: Crypto, s: ServerState, messageSeq: U16, keys: KeyMaterial): Result<(ServerState, HandshakeMessage)> {
    var m := HandshakeMessage(Finished, messageSeq, FinishedData(c, s.transcript, keys, Server));
    var t :- Push(s.transcript, m);
    Ok((s.(transcript := t), m))
  }

  // ----- Which Finished messages verify

  lemma FinishedPushes(t: Bytes, m: HandshakeMessage)
    requires |m.payload| == 12
    ensures Push(t, m).Ok?
  {
    hide TranscriptBytes;
    EncodableMessage(m);
  }

  /** Exactly the client Finished over the server's own transcript verifies. */
  lemma ClientFinishedExact(c: Crypto, s: ServerState, m: HandshakeMessage, keys: KeyMaterial)
    ensures VerifyClientFinished(c, s, m, keys).Ok?
            <==> m.messageType == Finished && IsFinished(c, keys.masterSecret, Client, s.transcript, m.payload)
  {
    hide FinishedData, Push, FinishedSeed;
    FinishedIs(c, s.transcript, keys, Client);
    if m.payload == FinishedData(c, s.transcript, keys, Client) {
      FinishedPushes(s.transcript, m);
    }
  }

  /** Exactly the server Finished over the client's own transcript verifies. */
  lemma ServerFinishedExact(c: Crypto, s: ClientState, m: HandshakeMessage, keys: KeyMaterial)
    ensures VerifyServerFinished(c, s, m, keys).Ok?
            <==> m.messageType == Finished && IsFinished(c, keys.masterSecret, Server, s.transcript, m.payload)
  {
    hide FinishedData, Push, FinishedSeed;
    FinishedIs(c, s.transcript, keys, Server);
    if m.payload == FinishedData(c, s.transcript, keys, Server) {
      FinishedPushes(s.transcript, m);
    }
  }

  /** A Finished over any other transcript is refused, by either side, under some
      hash and MAC: nothing of the transcript goes uncovered. */
  lemma AlteredTranscriptRefused(c: Crypto, s: ServerState, p: ClientState, keys: KeyMaterial, t: Bytes, messageSeq: U16)
      returns (d: Crypto, e: Crypto)
    requires t != s.transcript && t != p.transcript
    ensures SameGroup(c, d) && SameGroup(c, e)
    ensures VerifyClientFinished(d, s, HandshakeMessage(Finished, messageSeq, FinishedData(d, t, keys, Client)), keys).Err?
    ensures VerifyServerFinished(e, p, HandshakeMessage(Finished, messageSeq, FinishedData(e, t, keys, Server)), keys).Err?
  {
    hide FinishedData;
    d := FinishedCovers(c, t, keys, Client, s.transcript, keys, Client);
    e := FinishedCovers(c, t, keys, Server, p.transcript, keys, Server);
  }

  /** The server flight: ServerHello 1, ServerKeyExchange 2, ServerHelloDone 3. */
  function ServerFlight(c: Crypto, s: ServerState, m: HandshakeMessage, v: nat): Result<(ServerState, seq<HandshakeMessage>)>
    requires s.WellSized()
  {
    var s1 :- HandleClientHello(c, s, m);
    var (s2, hello) :- BuildServerHello(c, s1, 1);
    var (s3, exchange) :- BuildServerKeyExchange(c, s2, 2, v);
    var (s4, done) :- BuildServerHelloDone(s3, 3);
    Ok((s4, [hello, exchange, done]))
  }

  lemma FlightKeepsRoundOne(c: Crypto, s: ServerState, m: HandshakeMessage, v: nat)
    requires s.WellSized()
    ensures var r := ServerFlight(c, s, m, v); r.Ok? ==> r.value.0.serverOne == s.serverOne
  {
    hide H.DecodeClientHello, H.FindExtension, DecodeKkpp, EncodeKkpp, H.EncodeServerHello, MakeRoundTwo, EncodeKeyExchange, Push;
  }

  lemma ExchangeKeepsRoundOne(c: Crypto, s: ServerState, m: HandshakeMessage)
    ensures var r := HandleClientKeyExchange(c, s, m); r.Ok? ==> r.value.serverOne == s.serverOne
  {
    hide DecodeKeyExchange, Push;
  }
}
