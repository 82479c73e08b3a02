/** The DTLS client as a machine over received datagrams: three waits, each
    ended by the flight it was waiting for. */
module ClientDriver {
  import opened Bytes
  import opened Primitives
  import opened Record
  import opened RecordProtection
  import opened KeySchedule
  import opened Handshake
  import opened ThreadHandshake
  import H = Hello
  import opened ServerDriver

  // ----- The cookie-retry state

  datatype HelloState = HelloState(
    random: H.Random, cookie: Bytes, kkpp: Bytes, nextRecord: U64, nextMessage: U16, lastHello: Option<U16>)

  function NewHelloState(random: H.Random, kkpp: Bytes): HelloState {
    HelloState(random, [], kkpp, 0, 0, None)
  }

  function NextHello(s: HelloState): Result<(HelloState, DtlsRecord)> {
    var payload :- H.EncodeClientHello(H.ThreadClientHello(s.random, s.cookie, s.kkpp));
    var r :- PlaintextRecord(HandshakeMessage(ClientHello, s.nextMessage, payload), s.nextRecord);
    Ok((s.(nextMessage := (s.nextMessage + 1) % 0x1_0000, lastHello := Some(s.nextMessage), nextRecord := Increment(s.nextRecord)), r))
  }

  function HandleVerifyRequest(s: HelloState, r: DtlsRecord): Result<HelloState> {
    var m :- RecordMessage(r, HelloVerifyRequest);
    if s.lastHello != Some(m.messageSeq) then Err(Error.Crypto) else
    var verify :- H.DecodeHelloVerify(m.payload);
    if verify.serverVersion != H.DTLS_1_2_VERSION then Err(Error.Crypto) else
    Ok(s.(cookie := verify.cookie))
  }

  // ----- The client machine

  datatype ClientConfig = ClientConfig(
    secret: Bytes, local: Address, peer: Address, random: H.Random, x1: nat, x2: nat, v1: nat, v2: nat, v3: nat)
  {
    function NewHandshake(c: Crypto): (s: ClientState)
      ensures s.WellSized()
    {
      NewClient(c, secret, random, x1, x2, v1, v2)
    }
  }

  datatype Connector =
    | AwaitVerify(hello: HelloState, handshake: ClientState, sent: seq<Sent>)
    | AwaitFlight(hello: HelloState, handshake: ClientState, sent: seq<Sent>)
    | AwaitFinished(handshake: ClientState, keys: KeyMaterial, sawChangeCipherSpec: bool, sent: seq<Sent>)
    | Connected(keyMaterial: KeyMaterial, handshake: ClientState, sent: seq<Sent>)
    | Aborted(sent: seq<Sent>)

  function Send(cfg: ClientConfig, sent: seq<Sent>, rs: seq<DtlsRecord>): seq<Sent> {
    sent + [Sent(cfg.local, cfg.peer, rs)]
  }

  function Start(c: Crypto, cfg: ClientConfig): Connector {
    var handshake := cfg.NewHandshake(c);
    match ClientKkpp(c, handshake)
    case Err(_) => Aborted([])
    case Ok(kkpp) =>
      match NextHello(NewHelloState(cfg.random, kkpp))
      case Err(_) => Aborted([])
      case Ok((hello, r)) => AwaitVerify(hello, handshake, Send(cfg, [], [r]))
  }

  /** The second ClientHello, the first to enter the transcript. */
  function Retry(cfg: ClientConfig, hello: HelloState, handshake: ClientState, sent: seq<Sent>): Connector {
    match NextHello(hello)
    case Err(_) => Aborted(sent)
    case Ok((next, r)) =>
      match RecordMessage(r, ClientHello)
      case Err(_) => Aborted(sent)
      case Ok(m) =>
        match RecordClientHello(handshake, m)
        case Err(_) => Aborted(sent)
        case Ok(recorded) => AwaitFlight(next, recorded, Send(cfg, sent, [r]))
  }

  lemma RetryLeaves(cfg: ClientConfig, hello: HelloState, handshake: ClientState, sent: seq<Sent>)
    ensures !Retry(cfg, hello, handshake, sent).AwaitVerify?
  {
    hide NextHello, RecordMessage, RecordClientHello;
  }

  predicate HasVerifyRequest(ms: seq<HandshakeMessage>) {
    exists k :: 0 <= k < |ms| && ms[k].messageType == HelloVerifyRequest
  }

  function VerifyRecord(cfg: ClientConfig, st: Connector, r: DtlsRecord): Connector
    requires st.AwaitVerify?
  {
    match r.header.contentType
    case Handshake =>
      (match RecordMessages(r)
       case Err(_) => Aborted(st.sent)
       case Ok(ms) =>
         if !HasVerifyRequest(ms) then st else
         match HandleVerifyRequest(st.hello, r)
         case Err(_) => Aborted(st.sent)
         case Ok(hello) => Retry(cfg, hello, st.handshake, st.sent))
    case Alert => Aborted(st.sent)
    case _ => st
  }

  function VerifyRecords(cfg: ClientConfig, st: Connector, rs: seq<DtlsRecord>): Connector
    decreases |rs|
  {
    if !st.AwaitVerify? || rs == [] then st else VerifyRecords(cfg, VerifyRecord(cfg, st, rs[0]), rs[1..])
  }

  /** ClientKeyExchange, ChangeCipherSpec and the encrypted Finished. */
  function ClientFlight(c: Crypto, cfg: ClientConfig, hello: HelloState, handshake: ClientState): Result<(ClientState, KeyMaterial, seq<DtlsRecord>)> {
    var (s1, exchange) :- BuildClientKeyExchange(c, handshake, hello.nextMessage, cfg.v3);
    var keys :- ClientKeys(c, s1);
    var (s2, finished) :- BuildClientFinished(c, s1, (hello.nextMessage + 1) % 0x1_0000);
    var r1 :- PlaintextRecord(exchange, hello.nextRecord);
    var r2 :- NewRecord(ChangeCipherSpec, 0, Increment(hello.nextRecord), [1]);
    var b :- EncodeMessage(finished);
    var r3 :- Protect(c, ContentType.Handshake, 1, 0, keys.keyBlock.clientWriteKey, keys.keyBlock.clientWriteIv, b);
    Ok((s2, keys, [r1, r2, r3]))
  }

  function Answer(c: Crypto, cfg: ClientConfig, hello: HelloState, s: ClientState, sent: seq<Sent>): (st: Connector)
    ensures !st.AwaitFlight?
  {
    match ClientFlight(c, cfg, hello, s)
    case Err(_) => Aborted(sent)
    case Ok((finished, keys, rs)) => AwaitFinished(finished, keys, false, Send(cfg, sent, rs))
  }

  function FlightMessage(c: Crypto, cfg: ClientConfig, st: Connector, m: HandshakeMessage): Connector
    requires st.AwaitFlight?
  {
    match m.messageType
    case ServerHello =>
      (match HandleServerHello(c, st.handshake, m)
       case Err(_) => Aborted(st.sent)
       case Ok(s) => AwaitFlight(st.hello, s, st.sent))
    case ServerKeyExchange =>
      (match HandleServerKeyExchange(c, st.handshake, m)
       case Err(_) => Aborted(st.sent)
       case Ok(s) => AwaitFlight(st.hello, s, st.sent))
    case ServerHelloDone =>
      (match HandleServerHelloDone(st.handshake, m)
       case Err(_) => Aborted(st.sent)
       case Ok(s) => Answer(c, cfg, st.hello, s, st.sent))
    case _ => Aborted(st.sent)
  }

  function FlightMessages(c: Crypto, cfg: ClientConfig, st: Connector, ms: seq<HandshakeMessage>): Connector
    decreases |ms|
  {
    if !st.AwaitFlight? || ms == [] then st else FlightMessages(c, cfg, FlightMessage(c, cfg, st, ms[0]), ms[1..])
  }

  function FlightRecord(c: Crypto, cfg: ClientConfig, st: Connector, r: DtlsRecord): Connector
    requires st.AwaitFlight?
  {
    match r.header.contentType
    case Handshake =>
      (match RecordMessages(r)
       case Err(_) => Aborted(st.sent)
       case Ok(ms) => FlightMessages(c, cfg, st, ms))
    case Alert => Aborted(st.sent)
    case _ => st
  }

  function ReadFlight(c: Crypto, cfg: ClientConfig, st: Connector, rs: seq<DtlsRecord>): Connector
    decreases |rs|
  {
    if !st.AwaitFlight? || rs == [] then st else ReadFlight(c, cfg, FlightRecord(c, cfg, st, rs[0]), rs[1..])
  }

  function FinishedMessages(c: Crypto, st: Connector, ms: seq<HandshakeMessage>): Connector
    decreases |ms|
  {
    if !st.AwaitFinished? || ms == [] then st else
    if ms[0].messageType != Finished then FinishedMessages(c, st, ms[1..]) else
    match VerifyServerFinished(c, st.handshake, ms[0], st.keys)
    case Err(_) => Aborted(st.sent)
    case Ok(s) => Connected(st.keys, s, st.sent)
  }

  function FinishedRecord(c: Crypto, st: Connector, r: DtlsRecord): Connector
    requires st.AwaitFinished?
  {
    match (r.header.epoch, r.header.contentType)
    case (_, ChangeCipherSpec) => if r.payload != [1] then Aborted(st.sent) else st.(sawChangeCipherSpec := true)
    case (1, Handshake) =>
      if !st.sawChangeCipherSpec then Aborted(st.sent) else
      (match Open(c, r, st.keys.keyBlock.serverWriteKey, st.keys.keyBlock.serverWriteIv)
       case Err(_) => Aborted(st.sent)
       case Ok(plaintext) =>
         match NewRecord(ContentType.Handshake, 1, 0, plaintext)
         case Err(_) => Aborted(st.sent)
         case Ok(plain) =>
           match RecordMessages(plain)
           case Err(_) => Aborted(st.sent)
           case Ok(ms) => FinishedMessages(c, st, ms))
    case (_, Alert) => Aborted(st.sent)
    case _ => st
  }

  function ReadFinished(c: Crypto, st: Connector, rs: seq<DtlsRecord>): Connector
    decreases |rs|
  {
    if !st.AwaitFinished? || rs == [] then st else ReadFinished(c, FinishedRecord(c, st, rs[0]), rs[1..])
  }

  function ClientStep(c: Crypto, cfg: ClientConfig, st: Connector, d: Datagram): Connector {
    if d.source != cfg.peer then st else
    match st
    case AwaitVerify(_, _, _) => VerifyRecords(cfg, st, d.records)
    case AwaitFlight(_, _, _) => ReadFlight(c, cfg, st, d.records)
    case AwaitFinished(_, _, _, _) => ReadFinished(c, st, d.records)
    case _ => st
  }

  function ClientRun(c: Crypto, cfg: ClientConfig, ds: seq<Datagram>): Connector {
    if ds == [] then Start(c, cfg) else ClientStep(c, cfg, ClientRun(c, cfg, ds[..|ds| - 1]), ds[|ds| - 1])
  }
}
