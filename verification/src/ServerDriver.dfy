/** The single-peer DTLS acceptor as a machine over received datagrams.  The
    transport, its timeouts and its addresses are inputs; an acceptor that runs
    out of datagrams in a waiting state has timed out. */
module ServerDriver {
  import opened Bytes
  import opened Primitives
  import opened Record
  import opened RecordProtection
  import opened KeySchedule
  import opened Handshake
  import opened ThreadHandshake
  import H = Hello

  const ALERT_HANDSHAKE_FAILURE: Bytes := [2, 40]
  const WORD: nat := 0x1_0000_0000_0000_0000

  type Address = nat

  datatype Datagram = Datagram(records: seq<DtlsRecord>, local: Address, source: Address)

  datatype Sent = Sent(local: Address, to: Address, records: seq<DtlsRecord>)

  /** The acceptor's secret and everything it draws at random. */
  datatype Config = Config(
    secret: Bytes, cookieKey: Bytes, random: H.Random, x1: nat, x2: nat, v1: nat, v2: nat, v3: nat)
  {
    function NewHandshake(c: Crypto): (s: ServerState)
      ensures s.WellSized()
    {
      NewServer(c, secret, random, x1, x2, v1, v2)
    }
  }

  /** `hello` and `exchanges` are history: the accepted ClientHello and the
      ClientKeyExchanges handled so far. */
  datatype Acceptor =
    | AwaitHello(next: U64, sent: seq<Sent>)
    | AwaitClient(local: Address, peer: Address, handshake: ServerState, next: U64, sawChangeCipherSpec: bool,
                  keys: Option<KeyMaterial>, sent: seq<Sent>, hello: HandshakeMessage, exchanges: seq<HandshakeMessage>)
    | Accepted(local: Address, peer: Address, keyMaterial: KeyMaterial, handshake: ServerState,
               sent: seq<Sent>, hello: HandshakeMessage, exchanges: seq<HandshakeMessage>, finished: HandshakeMessage)
    | Failed(sent: seq<Sent>)

  function Increment(n: U64): U64 { (n + 1) % WORD }

  function PlaintextRecord(m: HandshakeMessage, sequence: U64): Result<DtlsRecord> {
    var b :- EncodeMessage(m);
    NewRecord(ContentType.Handshake, 0, sequence, b)
  }

  // ----- Before a peer is chosen

  function VerifyRequest(c: Crypto, key: Bytes, random: H.Random, messageSeq: U16): Result<HandshakeMessage> {
    VerifyMessage(messageSeq, H.EncodeHelloVerify(H.HelloVerifyRequest(H.DTLS_1_2_VERSION, Cookie(c, key, random))))
  }

  function VerifyMessage(messageSeq: U16, payload: Result<Bytes>): Result<HandshakeMessage> {
    var b :- payload;
    Ok(HandshakeMessage(HelloVerifyRequest, messageSeq, b))
  }

  datatype HelloScan =
    | Waiting(next: U64, sent: seq<Sent>)
    | Chosen(message: HandshakeMessage, next: U64, sent: seq<Sent>)
    | Broken(sent: seq<Sent>)

  function ScanMessage(c: Crypto, cfg: Config, m: HandshakeMessage, d: Datagram, next: U64, sent: seq<Sent>): HelloScan {
    if m.messageType != ClientHello then Waiting(next, sent) else
    match H.DecodeClientHello(m.payload)
    case Err(_) => Broken(sent)
    case Ok(hello) =>
      if CookieVerifies(c, cfg.cookieKey, hello) then Chosen(m, next, sent) else
      match VerifyRequest(c, cfg.cookieKey, hello.random, m.messageSeq)
      case Err(_) => Broken(sent)
      case Ok(verify) =>
        match PlaintextRecord(verify, next)
        case Err(_) => Broken(sent)
        case Ok(r) => Waiting(Increment(next), sent + [Sent(d.local, d.source, [r])])
  }

  function ScanMessages(c: Crypto, cfg: Config, ms: seq<HandshakeMessage>, d: Datagram, next: U64, sent: seq<Sent>): HelloScan {
    if ms == [] then Waiting(next, sent) else
    match ScanMessage(c, cfg, ms[0], d, next, sent)
    case Waiting(n, s) => ScanMessages(c, cfg, ms[1..], d, n, s)
    case Chosen(m, n, s) => Chosen(m, n, s)
    case Broken(s) => Broken(s)
  }

  function ScanRecord(c: Crypto, cfg: Config, r: DtlsRecord, d: Datagram, next: U64, sent: seq<Sent>): HelloScan {
    if r.header.epoch != 0 || r.header.contentType != ContentType.Handshake then Waiting(next, sent) else
    match RecordMessages(r)
    case Err(_) => Broken(sent)
    case Ok(ms) => ScanMessages(c, cfg, ms, d, next, sent)
  }

  function ScanRecords(c: Crypto, cfg: Config, rs: seq<DtlsRecord>, d: Datagram, next: U64, sent: seq<Sent>): HelloScan {
    if rs == [] then Waiting(next, sent) else
    match ScanRecord(c, cfg, rs[0], d, next, sent)
    case Waiting(n, s) => ScanRecords(c, cfg, rs[1..], d, n, s)
    case Chosen(m, n, s) => Chosen(m, n, s)
    case Broken(s) => Broken(s)
  }

  function FlightRecords(ms: seq<HandshakeMessage>, next: U64): Result<seq<DtlsRecord>> {
    if ms == [] then Ok([]) else
    var r :- PlaintextRecord(ms[0], next);
    Prefixed([r], FlightRecords(ms[1..], Increment(next)))
  }

  /** The server flight to the chosen peer. */
  function Choose(c: Crypto, cfg: Config, m: HandshakeMessage, d: Datagram, next: U64, sent: seq<Sent>): Acceptor {
    match ServerFlight(c, cfg.NewHandshake(c), m, cfg.v3)
    case Err(_) => Failed(sent)
    case Ok((handshake, ms)) =>
      match FlightRecords(ms, next)
      case Err(_) => Failed(sent)
      case Ok(rs) =>
        AwaitClient(d.local, d.source, handshake, Increment(Increment(Increment(next))), false, None, sent + [Sent(d.local, d.source, rs)], m, [])
  }

  // ----- With a chosen peer

  function HandleExchange(c: Crypto, st: Acceptor, m: HandshakeMessage): Acceptor
    requires st.AwaitClient?
  {
    if m.messageType != ClientKeyExchange then Failed(st.sent) else
    match HandleClientKeyExchange(c, st.handshake, m)
    case Err(_) => Failed(st.sent)
    case Ok(handshake) =>
      match ServerKeys(c, handshake)
      case Err(_) => Failed(st.sent)
      case Ok(keys) => st.(handshake := handshake, keys := Some(keys), exchanges := st.exchanges + [m])
  }

  function HandleExchanges(c: Crypto, st: Acceptor, ms: seq<HandshakeMessage>): Acceptor
    decreases |ms|
  {
    if !st.AwaitClient? || ms == [] then st else HandleExchanges(c, HandleExchange(c, st, ms[0]), ms[1..])
  }

  function AlertDatagram(st: Acceptor): seq<Sent>
    requires st.AwaitClient?
  {
    match NewRecord(Alert, 0, st.next, ALERT_HANDSHAKE_FAILURE)
    case Ok(r) => [Sent(st.local, st.peer, [r])]
    case Err(_) => []
  }

  /** The Finished message inside an encrypted record. */
  function OpenFinished(c: Crypto, r: DtlsRecord, keys: KeyMaterial): Result<HandshakeMessage> {
    var plaintext :- Open(c, r, keys.keyBlock.clientWriteKey, keys.keyBlock.clientWriteIv);
    var plain :- NewRecord(ContentType.Handshake, 1, 0, plaintext);
    RecordMessage(plain, Finished)
  }

  function FinishedFlight(c: Crypto, st: Acceptor, handshake: ServerState, keys: KeyMaterial): Result<seq<DtlsRecord>>
    requires st.AwaitClient?
  {
    var (_, finished) :- BuildServerFinished(c, handshake, 4, keys);
    var ccs :- NewRecord(ChangeCipherSpec, 0, st.next, [1]);
    var b :- EncodeMessage(finished);
    var protected :- Protect(c, ContentType.Handshake, 1, 0, keys.keyBlock.serverWriteKey, keys.keyBlock.serverWriteIv, b);
    Ok([ccs, protected])
  }

  function HandleFinished(c: Crypto, st: Acceptor, r: DtlsRecord): Acceptor
    requires st.AwaitClient?
  {
    if !st.sawChangeCipherSpec || st.keys.None? then Failed(st.sent) else
    var keys := st.keys.value;
    if Open(c, r, keys.keyBlock.clientWriteKey, keys.keyBlock.clientWriteIv).Err? then Failed(st.sent + AlertDatagram(st)) else
    match OpenFinished(c, r, keys)
    case Err(_) => Failed(st.sent)
    case Ok(finished) =>
      match VerifyClientFinished(c, st.handshake, finished, keys)
      case Err(_) => Failed(st.sent + AlertDatagram(st))
      case Ok(handshake) =>
        match FinishedFlight(c, st, handshake, keys)
        case Err(_) => Failed(st.sent)
        case Ok(rs) => Accepted(st.local, st.peer, keys, st.handshake, st.sent + [Sent(st.local, st.peer, rs)], st.hello, st.exchanges, finished)
  }

  function HandleRecord(c: Crypto, st: Acceptor, r: DtlsRecord): Acceptor
    requires st.AwaitClient?
  {
    match (r.header.epoch, r.header.contentType)
    case (0, Handshake) =>
      (match RecordMessages(r)
       case Err(_) => Failed(st.sent)
       case Ok(ms) => HandleExchanges(c, st, ms))
    case (0, ChangeCipherSpec) => if r.payload != [1] then Failed(st.sent) else st.(sawChangeCipherSpec := true)
    case (1, Handshake) => HandleFinished(c, st, r)
    case (_, Alert) => Failed(st.sent)
    case _ => st
  }

  function HandleRecords(c: Crypto, st: Acceptor, rs: seq<DtlsRecord>): Acceptor
    decreases |rs|
  {
    if !st.AwaitClient? || rs == [] then st else HandleRecords(c, HandleRecord(c, st, rs[0]), rs[1..])
  }

  // ----- Whole runs

  function Step(c: Crypto, cfg: Config, st: Acceptor, d: Datagram): Acceptor {
    match st
    case AwaitHello(next, sent) =>
      (match ScanRecords(c, cfg, d.records, d, next, sent)
       case Waiting(n, s) => AwaitHello(n, s)
       case Chosen(m, n, s) => Choose(c, cfg, m, d, n, s)
       case Broken(s) => Failed(s))
    case AwaitClient(_, peer, _, _, _, _, _, _, _) => if d.source != peer then st else HandleRecords(c, st, d.records)
    case _ => st
  }

  function Run(c: Crypto, cfg: Config, ds: seq<Datagram>): Acceptor {
    if ds == [] then AwaitHello(0, []) else Step(c, cfg, Run(c, cfg, ds[..|ds| - 1]), ds[|ds| - 1])
  }
}
