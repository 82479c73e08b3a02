/** The composed run of the two drivers over a network that delivers each flight
    once, in order. */
module HonestRun {
  import opened Bytes
  import opened Primitives
  import opened Record
  import opened RecordProtection
  import opened KeySchedule
  import opened Handshake
  import opened EcJpake
  import opened ThreadHandshake
  import opened HonestHandshake
  import opened ServerDriver
  import opened ClientDriver
  import H = Hello

  // ----- A record built from one message is read back as that message

  /** `r` is a plaintext record holding exactly the message `m`. */
  ghost predicate Carries(r: DtlsRecord, m: HandshakeMessage) {
    && r.header.epoch == 0 && r.header.contentType == ContentType.Handshake
    && RecordMessages(r) == Ok([m]) && RecordMessage(r, m.messageType) == Ok(m)
  }

  lemma PlaintextReadable(m: HandshakeMessage, sequence: U64) returns (r: DtlsRecord)
    requires |m.payload| <= 1000
    ensures PlaintextRecord(m, sequence) == Ok(r) && Carries(r, m)
  {
    hide TranscriptBytes, EncodeMessage, RecordMessage;
    EncodeIsTranscript(m);
    var b := EncodeMessage(m).value;
    MessageSize(m);
    ReadBack(m, b);
    r := PlaintextRecord(m, sequence).value;
    SingleMessage(r, m);
  }

  lemma MessageSize(m: HandshakeMessage)
    requires |m.payload| <= 1000
    ensures TranscriptBytes(m).Ok? && |TranscriptBytes(m).value| == HANDSHAKE_HEADER_LEN + |m.payload|
  {
    EncodableMessage(m);
  }

  lemma ReadBack(m: HandshakeMessage, b: Bytes)
    requires |m.payload| <= 1000 && TranscriptBytes(m) == Ok(b)
    ensures ParseMessages(b) == Ok([m])
  {
    hide TranscriptBytes;
    assert [m][1..] == [];
    PrefixedEmpty(Ok(b));
    assert Transcript([m]) == Ok(b);
    ParseTranscript([m]);
  }

  /** `r` is an encrypted record that opens to exactly the message `m`. */
  ghost predicate Conceals(c: Crypto, r: DtlsRecord, m: HandshakeMessage, key: Bytes, iv: FixedIv) {
    && r.header.epoch == 1 && r.header.contentType == ContentType.Handshake
    && var b := Open(c, r, key, iv);
    && b.Ok?
    && var plain := NewRecord(ContentType.Handshake, 1, 0, b.value);
    && plain.Ok? && RecordMessages(plain.value) == Ok([m]) && RecordMessage(plain.value, m.messageType) == Ok(m)
  }

  lemma ProtectedReadable(c: Crypto, m: HandshakeMessage, key: Bytes, iv: FixedIv) returns (b: Bytes, r: DtlsRecord)
    requires |m.payload| <= 1000
    ensures EncodeMessage(m) == Ok(b) && Protect(c, ContentType.Handshake, 1, 0, key, iv, b) == Ok(r)
    ensures Conceals(c, r, m, key, iv)
  {
    hide TranscriptBytes, EncodeMessage, Protect, Open, Nonce, RecordMessage;
    EncodeIsTranscript(m);
    MessageSize(m);
    b := EncodeMessage(m).value;
    ReadBack(m, b);
    ProtectSucceeds(c, ContentType.Handshake, 1, 0, key, iv, b);
    r := Protect(c, ContentType.Handshake, 1, 0, key, iv, b).value;
    OpenProtect(c, ContentType.Handshake, 1, 0, key, iv, b);
    ProtectedNonce(c, ContentType.Handshake, 1, 0, key, iv, b);
    SingleMessage(NewRecord(ContentType.Handshake, 1, 0, b).value, m);
  }

  // ----- How each driver takes one flight

  /** A ClientHello with a wrong cookie is answered with the right one. */
  lemma ServerAnswersCookie(c: Crypto, cfg: Config, m: HandshakeMessage, hello: H.ClientHello, r: DtlsRecord, d: Datagram,
                            verify: HandshakeMessage, answer: DtlsRecord, next: U64, sent: seq<Sent>)
    requires m.messageType == ClientHello && Carries(r, m) && d.records == [r]
    requires H.DecodeClientHello(m.payload) == Ok(hello) && !CookieVerifies(c, cfg.cookieKey, hello)
    requires VerifyRequest(c, cfg.cookieKey, hello.random, m.messageSeq) == Ok(verify)
    requires PlaintextRecord(verify, next) == Ok(answer)
    ensures Step(c, cfg, AwaitHello(next, sent), d) == AwaitHello(Increment(next), sent + [Sent(d.local, d.source, [answer])])
  {
    hide H.DecodeClientHello, CookieVerifies, VerifyRequest, PlaintextRecord, RecordMessages, RecordMessage, Choose;
    assert [m][1..] == [] && [r][1..] == [];
    var after := Waiting(Increment(next), sent + [Sent(d.local, d.source, [answer])]);
    assert ScanMessage(c, cfg, m, d, next, sent) == after;
    assert ScanMessages(c, cfg, [m], d, next, sent) == after;
    assert ScanRecord(c, cfg, r, d, next, sent) == after;
    assert ScanRecords(c, cfg, [r], d, next, sent) == after;
  }

  /** A ClientHello with its own cookie makes its sender the peer. */
  lemma ServerChooses(c: Crypto, cfg: Config, m: HandshakeMessage, hello: H.ClientHello, r: DtlsRecord, d: Datagram, next: U64, sent: seq<Sent>)
    requires m.messageType == ClientHello && Carries(r, m) && d.records == [r]
    requires H.DecodeClientHello(m.payload) == Ok(hello) && CookieVerifies(c, cfg.cookieKey, hello)
    ensures Step(c, cfg, AwaitHello(next, sent), d) == Choose(c, cfg, m, d, next, sent)
  {
    hide H.DecodeClientHello, CookieVerifies, VerifyRequest, PlaintextRecord, RecordMessages, RecordMessage, Choose;
    assert ScanMessage(c, cfg, m, d, next, sent) == Chosen(m, next, sent);
    assert ScanMessages(c, cfg, [m], d, next, sent) == Chosen(m, next, sent);
    assert ScanRecord(c, cfg, r, d, next, sent) == Chosen(m, next, sent);
    assert ScanRecords(c, cfg, [r], d, next, sent) == Chosen(m, next, sent);
  }

  lemma ClientTakesCookie(c: Crypto, cfg: ClientConfig, st: Connector, m: HandshakeMessage, verify: H.HelloVerifyRequest, r: DtlsRecord, d: Datagram)
    requires st.AwaitVerify? && d.source == cfg.peer && d.records == [r]
    requires m.messageType == HelloVerifyRequest && Carries(r, m) && st.hello.lastHello == Some(m.messageSeq)
    requires H.DecodeHelloVerify(m.payload) == Ok(verify) && verify.serverVersion == H.DTLS_1_2_VERSION
    ensures ClientStep(c, cfg, st, d) == Retry(cfg, st.hello.(cookie := verify.cookie), st.handshake, st.sent)
  {
    hide RecordMessages, RecordMessage, H.DecodeHelloVerify, Retry;
    var hello := st.hello.(cookie := verify.cookie);
    RetryLeaves(cfg, hello, st.handshake, st.sent);
    assert [r][1..] == [];
    assert [m][0].messageType == HelloVerifyRequest;
    assert HandleVerifyRequest(st.hello, r) == Ok(hello);
    assert VerifyRecord(cfg, st, r) == Retry(cfg, hello, st.handshake, st.sent);
    assert VerifyRecords(cfg, st, [r]) == Retry(cfg, hello, st.handshake, st.sent);
  }

  lemma ClientTakesMessage(c: Crypto, cfg: ClientConfig, st: Connector, m: HandshakeMessage, r: DtlsRecord)
    requires st.AwaitFlight? && Carries(r, m)
    ensures FlightRecord(c, cfg, st, r) == FlightMessage(c, cfg, st, m)
  {
    hide RecordMessages, RecordMessage, FlightMessage;
    assert [m][0] == m && [m][1..] == [];
    var after := FlightMessage(c, cfg, st, m);
    assert FlightMessages(c, cfg, after, []) == after;
    assert FlightMessages(c, cfg, st, [m]) == after;
  }

  /** The client reads ServerHello, ServerKeyExchange and ServerHelloDone and
      answers with its own flight. */
  lemma ClientTakesFlight(c: Crypto, cfg: ClientConfig, st: Connector, d: Datagram, rs: seq<DtlsRecord>, ms: seq<HandshakeMessage>,
                          s1: ClientState, s2: ClientState, s3: ClientState)
    requires st.AwaitFlight? && d.source == cfg.peer && d.records == rs && |rs| == |ms| == 3
    requires Carries(rs[0], ms[0]) && Carries(rs[1], ms[1]) && Carries(rs[2], ms[2])
    requires ms[0].messageType == ServerHello && ms[1].messageType == ServerKeyExchange && ms[2].messageType == ServerHelloDone
    requires HandleServerHello(c, st.handshake, ms[0]) == Ok(s1)
    requires HandleServerKeyExchange(c, s1, ms[1]) == Ok(s2)
    requires HandleServerHelloDone(s2, ms[2]) == Ok(s3)
    ensures ClientStep(c, cfg, st, d) == Answer(c, cfg, st.hello, s3, st.sent)
  {
    hide HandleServerHello, HandleServerKeyExchange, HandleServerHelloDone, Answer, Carries, FlightRecord;
    ClientTakesMessage(c, cfg, st, ms[0], rs[0]);
    var st1, st2 := AwaitFlight(st.hello, s1, st.sent), AwaitFlight(st.hello, s2, st.sent);
    ClientTakesMessage(c, cfg, st1, ms[1], rs[1]);
    ClientTakesMessage(c, cfg, st2, ms[2], rs[2]);
    assert rs[1..][0] == rs[1] && rs[1..][1..] == [rs[2]] && [rs[2]][1..] == [];
    ReadFlightStep(c, cfg, st, rs);
    ReadFlightStep(c, cfg, st1, rs[1..]);
    ReadFlightStep(c, cfg, st2, [rs[2]]);
  }

  lemma ReadFlightStep(c: Crypto, cfg: ClientConfig, st: Connector, rs: seq<DtlsRecord>)
    requires st.AwaitFlight? && rs != []
    ensures ReadFlight(c, cfg, st, rs) == ReadFlight(c, cfg, FlightRecord(c, cfg, st, rs[0]), rs[1..])
  {
    hide FlightRecord;
  }

  /** The server reads ClientKeyExchange, ChangeCipherSpec and Finished. */
  lemma ServerTakesFlight(c: Crypto, cfg: Config, st: Acceptor, d: Datagram, rs: seq<DtlsRecord>,
                          exchange: HandshakeMessage, finished: HandshakeMessage,
                          s1: ServerState, s2: ServerState, keys: KeyMaterial, answer: seq<DtlsRecord>)
    requires st.AwaitClient? && d.source == st.peer && d.records == rs && |rs| == 3
    requires Carries(rs[0], exchange) && exchange.messageType == ClientKeyExchange
    requires HandleClientKeyExchange(c, st.handshake, exchange) == Ok(s1) && ServerKeys(c, s1) == Ok(keys)
    requires rs[1].header.epoch == 0 && rs[1].header.contentType == ChangeCipherSpec && rs[1].payload == [1]
    requires Conceals(c, rs[2], finished, keys.keyBlock.clientWriteKey, keys.keyBlock.clientWriteIv)
    requires finished.messageType == Finished && VerifyClientFinished(c, s1, finished, keys) == Ok(s2)
    requires FinishedFlight(c, st, s2, keys) == Ok(answer)
    ensures Step(c, cfg, st, d)
         == Accepted(st.local, st.peer, keys, s1, st.sent + [Sent(st.local, st.peer, answer)], st.hello, st.exchanges + [exchange], finished)
  {
    hide HandleClientKeyExchange, ServerKeys, VerifyClientFinished, FinishedFlight, RecordMessages, RecordMessage, Open;
    var st1 := st.(handshake := s1, keys := Some(keys), exchanges := st.exchanges + [exchange]);
    var st2 := st1.(sawChangeCipherSpec := true);
    assert [exchange][1..] == [];
    assert HandleExchange(c, st, exchange) == st1;
    assert HandleExchanges(c, st, [exchange]) == st1;
    assert HandleRecord(c, st, rs[0]) == st1;
    assert HandleRecord(c, st1, rs[1]) == st2;
    SameFinishedFlight(c, st, st2, s2, keys);
    assert rs[1..][0] == rs[1] && rs[1..][1..] == [rs[2]] && [rs[2]][1..] == [];
    HandleRecordsStep(c, st, rs);
    HandleRecordsStep(c, st1, rs[1..]);
    HandleRecordsStep(c, st2, [rs[2]]);
  }

  lemma SameFinishedFlight(c: Crypto, st: Acceptor, st': Acceptor, s: ServerState, keys: KeyMaterial)
    requires st.AwaitClient? && st'.AwaitClient? && st.next == st'.next
    ensures FinishedFlight(c, st, s, keys) == FinishedFlight(c, st', s, keys)
  {
    hide BuildServerFinished, EncodeMessage, Protect;
  }

  lemma HandleRecordsStep(c: Crypto, st: Acceptor, rs: seq<DtlsRecord>)
    requires st.AwaitClient? && rs != []
    ensures HandleRecords(c, st, rs) == HandleRecords(c, HandleRecord(c, st, rs[0]), rs[1..])
  {
    hide HandleRecord;
  }

  /** The client reads ChangeCipherSpec and the server's Finished. */
  lemma ClientTakesFinished(c: Crypto, cfg: ClientConfig, st: Connector, d: Datagram, rs: seq<DtlsRecord>, finished: HandshakeMessage, s: ClientState)
    requires st.AwaitFinished? && d.source == cfg.peer && d.records == rs && |rs| == 2
    requires rs[0].header.contentType == ChangeCipherSpec && rs[0].payload == [1]
    requires Conceals(c, rs[1], finished, st.keys.keyBlock.serverWriteKey, st.keys.keyBlock.serverWriteIv)
    requires finished.messageType == Finished && VerifyServerFinished(c, st.handshake, finished, st.keys) == Ok(s)
    ensures ClientStep(c, cfg, st, d) == Connected(st.keys, s, st.sent)
  {
    hide VerifyServerFinished, RecordMessages, RecordMessage, Open;
    var st1 := st.(sawChangeCipherSpec := true);
    assert FinishedRecord(c, st, rs[0]) == st1;
    assert FinishedMessages(c, st1, [finished]) == Connected(st.keys, s, st.sent);
    assert FinishedRecord(c, st1, rs[1]) == Connected(st.keys, s, st.sent);
    assert rs[1..] == [rs[1]];
    ReadFinishedStep(c, st, rs);
    ReadFinishedStep(c, st1, rs[1..]);
  }

  lemma ReadFinishedStep(c: Crypto, st: Connector, rs: seq<DtlsRecord>)
    requires st.AwaitFinished? && rs != []
    ensures ReadFinished(c, st, rs) == ReadFinished(c, FinishedRecord(c, st, rs[0]), rs[1..])
  {
    hide FinishedRecord;
  }

  // ----- The two machines and the network between them

  /** Addresses, the cookie key and the handshake inputs of one run. */
  datatype World = World(i: Inputs, cookieKey: Bytes, client: Address, server: Address) {
    function Server(): Config {
      Config(i.secret, cookieKey, i.serverRandom, i.x3, i.x4, i.n.s1, i.n.s2, i.n.s3)
    }
    function Client(): ClientConfig {
      ClientConfig(i.secret, client, server, i.clientRandom, i.x1, i.x2, i.n.c1, i.n.c2, i.n.c3)
    }
    /** The last flight of the client as the server receives it, and conversely. */
    function ToServer(sent: seq<Sent>): Datagram
      requires sent != []
    {
      Datagram(sent[|sent| - 1].records, server, client)
    }
    function ToClient(sent: seq<Sent>): Datagram
      requires sent != []
    {
      Datagram(sent[|sent| - 1].records, client, server)
    }
  }

  datatype Pair = Pair(client: Connector, server: Acceptor)

  /** One round trip: the client's last flight reaches the server, and the
      server's answer reaches the client. */
  function Exchange(c: Crypto, w: World, p: Pair): Pair {
    if p.client.sent == [] then p else
    var server := Step(c, w.Server(), p.server, w.ToServer(p.client.sent));
    if server.sent == [] then Pair(p.client, server) else
    Pair(ClientStep(c, w.Client(), p.client, w.ToClient(server.sent)), server)
  }

  function Initial(c: Crypto, w: World): Pair {
    Pair(Start(c, w.Client()), AwaitHello(0, []))
  }

  // ----- First round trip: the cookie

  lemma SameHandshakes(c: Crypto, w: World)
    ensures w.Client().NewHandshake(c) == w.i.Client0(c) && w.Server().NewHandshake(c) == w.i.Server0(c)
  {
    hide NewClient, NewServer;
  }

  function TheCookie(c: Crypto, w: World): (b: Bytes)
    ensures |b| == COOKIE_LEN
  {
    Cookie(c, w.cookieKey, w.i.clientRandom)
  }

  /** A ClientHello of this run: its state before and after, and its record. */
  lemma HelloBuilt(c: Crypto, w: World, h: HelloState) returns (m: HandshakeMessage, r: DtlsRecord)
    requires w.i.Drawn(c) && |h.cookie| <= 255 && h.random == w.i.clientRandom && ClientKkpp(c, w.i.Client0(c)) == Ok(h.kkpp)
    requires h.nextMessage < 10 && h.nextRecord < 10
    ensures HelloMessage(c, w.i, h.cookie, h.nextMessage) == Ok(m) && m.messageType == ClientHello && m.messageSeq == h.nextMessage
    ensures Carries(r, m)
    ensures NextHello(h) == Ok((h.(nextMessage := h.nextMessage + 1, lastHello := Some(h.nextMessage), nextRecord := h.nextRecord + 1), r))
  {
    hide ClientKkpp, H.EncodeClientHello, H.ThreadClientHello, PlaintextRecord, HandleClientHello, RecordClientHello;
    hide H.DecodeClientHello, TranscriptBytes, Carries, NewClient, NewServer, Server1, Client1;
    ClientHelloAccepted(c, w.i, h.cookie, h.nextMessage);
    m := HelloMessage(c, w.i, h.cookie, h.nextMessage).value;
    r := PlaintextReadable(m, h.nextRecord);
  }

  ghost function LastFlight(sent: seq<Sent>): seq<DtlsRecord>
  {
    if sent == [] then [] else sent[|sent| - 1].records
  }

  lemma Started(c: Crypto, w: World) returns (m: HandshakeMessage, r: DtlsRecord, kkpp: Bytes)
    requires w.i.Drawn(c)
    ensures ClientKkpp(c, w.i.Client0(c)) == Ok(kkpp)
    ensures HelloMessage(c, w.i, [], 0) == Ok(m) && m.messageType == ClientHello && m.messageSeq == 0 && Carries(r, m)
    ensures Start(c, w.Client())
         == AwaitVerify(HelloState(w.i.clientRandom, [], kkpp, 1, 1, Some(0)), w.i.Client0(c), [Sent(w.client, w.server, [r])])
  {
    hide ClientKkpp, NextHello, Carries, HelloMessage, HandleClientHello, RecordClientHello, H.DecodeClientHello, TranscriptBytes, NewClient;
    kkpp := KkppBuilt(c, w.i);
    SameHandshakes(c, w);
    m, r := HelloBuilt(c, w, NewHelloState(w.i.clientRandom, kkpp));
  }

  lemma KkppBuilt(c: Crypto, i: Inputs) returns (kkpp: Bytes)
    requires i.Drawn(c)
    ensures ClientKkpp(c, i.Client0(c)) == Ok(kkpp)
  {
    hide ClientKkpp, HandleClientHello, RecordClientHello, H.DecodeClientHello, TranscriptBytes, H.EncodeClientHello;
    ClientHelloAccepted(c, i, [], 0);
    kkpp := ClientKkpp(c, i.Client0(c)).value;
  }

  lemma VerifyBuilt(c: Crypto, key: Bytes, random: H.Random, messageSeq: U16) returns (v: HandshakeMessage, r: DtlsRecord)
    ensures VerifyRequest(c, key, random, messageSeq) == Ok(v) && v.messageType == HelloVerifyRequest && v.messageSeq == messageSeq
    ensures H.DecodeHelloVerify(v.payload) == Ok(H.HelloVerifyRequest(H.DTLS_1_2_VERSION, Cookie(c, key, random)))
    ensures PlaintextRecord(v, 0) == Ok(r) && Carries(r, v)
  {
    var h := H.HelloVerifyRequest(H.DTLS_1_2_VERSION, Cookie(c, key, random));
    assert H.EncodeHelloVerify(h).Ok? && |H.EncodeHelloVerify(h).value| <= 1000;
    H.HelloVerifyRoundTrip(h);
    hide H.DecodeHelloVerify, H.EncodeHelloVerify, PlaintextRecord, Carries;
    v := VerifyRequest(c, key, random, messageSeq).value;
    r := PlaintextReadable(v, 0);
  }

  /** The state of the pair once the client has retried with its cookie. */
  ghost predicate AfterCookie(c: Crypto, w: World, p: Pair, m: HandshakeMessage, r: DtlsRecord) {
    && p.client.AwaitFlight? && p.server.AwaitHello?
    && HelloMessage(c, w.i, TheCookie(c, w), 1) == Ok(m) && m.messageSeq == 1 && Carries(r, m)
    && TranscriptBytes(m).Ok? && p.client.handshake == Client1(c, w.i, TranscriptBytes(m).value)
    && p.client.hello.nextMessage == 2 && p.client.hello.nextRecord == 2
    && p.client.sent != [] && LastFlight(p.client.sent) == [r]
  }

  lemma Retried(c: Crypto, w: World, h: HelloState, sent: seq<Sent>) returns (m: HandshakeMessage, r: DtlsRecord)
    requires w.i.Drawn(c) && h.cookie == TheCookie(c, w) && h.random == w.i.clientRandom && ClientKkpp(c, w.i.Client0(c)) == Ok(h.kkpp)
    requires h.nextMessage == 1 && h.nextRecord == 1
    ensures HelloMessage(c, w.i, TheCookie(c, w), 1) == Ok(m) && m.messageSeq == 1 && Carries(r, m) && TranscriptBytes(m).Ok?
    ensures Retry(w.Client(), h, w.i.Client0(c), sent)
         == AwaitFlight(h.(nextMessage := 2, lastHello := Some(1), nextRecord := 2), Client1(c, w.i, TranscriptBytes(m).value),
                        sent + [Sent(w.client, w.server, [r])])
  {
    hide ClientKkpp, NextHello, HelloMessage, HandleClientHello, RecordClientHello, H.DecodeClientHello, TranscriptBytes, RecordMessages, RecordMessage, Cookie;
    m, r := HelloBuilt(c, w, h);
    ClientHelloAccepted(c, w.i, h.cookie, 1);
  }

  /** The server's answer to the first ClientHello. */
  lemma ServerSendsCookie(c: Crypto, w: World, m: HandshakeMessage, r: DtlsRecord) returns (v: HandshakeMessage, rv: DtlsRecord)
    requires w.i.Drawn(c) && HelloMessage(c, w.i, [], 0) == Ok(m) && m.messageType == ClientHello && m.messageSeq == 0 && Carries(r, m)
    ensures v.messageType == HelloVerifyRequest && v.messageSeq == 0 && Carries(rv, v)
    ensures H.DecodeHelloVerify(v.payload) == Ok(H.HelloVerifyRequest(H.DTLS_1_2_VERSION, TheCookie(c, w)))
    ensures Step(c, w.Server(), AwaitHello(0, []), w.ToServer([Sent(w.client, w.server, [r])]))
         == AwaitHello(1, [Sent(w.server, w.client, [rv])])
  {
    hide Step, HelloMessage, HandleClientHello, RecordClientHello, H.DecodeClientHello, TranscriptBytes, Carries;
    hide VerifyRequest, PlaintextRecord, H.DecodeHelloVerify;
    ClientHelloAccepted(c, w.i, [], 0);
    var hello := H.DecodeClientHello(m.payload).value;
    v, rv := VerifyBuilt(c, w.cookieKey, w.i.clientRandom, 0);
    ServerAnswersCookie(c, w.Server(), m, hello, r, w.ToServer([Sent(w.client, w.server, [r])]), v, rv, 0, []);
  }

  lemma FirstRound(c: Crypto, w: World) returns (m: HandshakeMessage, r: DtlsRecord)
    requires w.i.Drawn(c)
    ensures AfterCookie(c, w, Exchange(c, w, Initial(c, w)), m, r)
  {
    hide Start, Step, ClientStep, HelloMessage, HandleClientHello, RecordClientHello, H.DecodeClientHello, TranscriptBytes, Carries;
    hide H.DecodeHelloVerify, Retry, ClientKkpp, TheCookie, Client1, NewClient;
    var m0, r0, kkpp := Started(c, w);
    var v, rv := ServerSendsCookie(c, w, m0, r0);
    var st := Start(c, w.Client());
    var server := Step(c, w.Server(), AwaitHello(0, []), w.ToServer(st.sent));
    ClientTakesCookie(c, w.Client(), st, v, H.HelloVerifyRequest(H.DTLS_1_2_VERSION, TheCookie(c, w)), rv, w.ToClient(server.sent));
    m, r := Retried(c, w, st.hello.(cookie := TheCookie(c, w)), st.sent);
  }

  // ----- Second round trip: the server flight and the client's answer

  function T(m: HandshakeMessage): Bytes {
    match TranscriptBytes(m) case Ok(b) => b case Err(_) => []
  }

  /** The five messages before either Finished, and the octets they make. */
  datatype Flights = Flights(
    hello: HandshakeMessage, serverHello: HandshakeMessage, serverExchange: HandshakeMessage, done: HandshakeMessage,
    serverTwo: RoundTwo)
  {
    function T1(): Bytes { T(hello) }
    function T2(): Bytes { T1() + T(serverHello) }
    function T3(): Bytes { T2() + T(serverExchange) }
    function T4(): Bytes { T3() + T(done) }
  }

  ghost predicate FlightOf(c: Crypto, i: Inputs, f: Flights) {
    && f.hello.messageType == ClientHello && f.serverHello.messageType == ServerHello
    && f.serverExchange.messageType == ServerKeyExchange && f.done.messageType == ServerHelloDone
    && |f.hello.payload| <= 1000 && |f.serverHello.payload| <= 1000 && |f.serverExchange.payload| <= 1000 && f.done.payload == []
    && ServerTwo(c, i.ClientParty(c), i.ServerParty(c), i.n) == Ok(f.serverTwo)
    && ServerFlight(c, i.Server0(c), f.hello, i.n.s3) == Ok((Server1(c, i, f.T4()), [f.serverHello, f.serverExchange, f.done]))
    && HandleServerHello(c, Client1(c, i, f.T1()), f.serverHello) == Ok(Client2(c, i, f.T2()))
    && HandleServerKeyExchange(c, Client2(c, i, f.T2()), f.serverExchange) == Ok(Client3(c, i, f.serverTwo, f.T3()))
    && HandleServerHelloDone(Client3(c, i, f.serverTwo, f.T3()), f.done) == Ok(Client3(c, i, f.serverTwo, f.T4()))
  }

  lemma FlightBuilt(c: Crypto, i: Inputs, cookie: Bytes, m: HandshakeMessage) returns (f: Flights)
    requires i.Drawn(c) && |cookie| <= 255 && HelloMessage(c, i, cookie, 1) == Ok(m)
    requires ServerTwo(c, i.ClientParty(c), i.ServerParty(c), i.n).Ok?
    ensures f.hello == m && FlightOf(c, i, f)
  {
    hide HelloMessage, HandleClientHello, BuildServerHello, BuildServerKeyExchange, BuildServerHelloDone, H.DecodeClientHello;
    hide HandleServerHello, HandleServerKeyExchange, HandleServerHelloDone, ServerTwo, RecordClientHello;
    hide TranscriptBytes, Client1, Client2, Client3, Server1, NewServer, NewClient;
    ClientHelloAccepted(c, i, cookie, 1);
    HelloType(c, i, cookie, m);
    var two := ServerTwo(c, i.ClientParty(c), i.ServerParty(c), i.n).value;
    var t1 := T(m);
    ServerHelloAccepted(c, i, t1);
    var sh := BuildServerHello(c, Server1(c, i, t1), 1).value.1;
    var t2 := t1 + T(sh);
    ServerKeyExchangeAccepted(c, i, t2);
    var ske := BuildServerKeyExchange(c, Server1(c, i, t2), 2, i.n.s3).value.1;
    var t3 := t2 + T(ske);
    ServerHelloDoneAccepted(c, i, two, t3);
    var shd := BuildServerHelloDone(Server1(c, i, t3), 3).value.1;
    f := Flights(m, sh, ske, shd, two);
  }

  lemma HelloType(c: Crypto, i: Inputs, cookie: Bytes, m: HandshakeMessage)
    requires HelloMessage(c, i, cookie, 1) == Ok(m)
    ensures m.messageType == ClientHello
  {
    hide H.EncodeClientHello, ClientKkpp;
  }

  lemma FlightCarried(ms: seq<HandshakeMessage>, next: U64) returns (rs: seq<DtlsRecord>)
    requires |ms| == 3 && |ms[0].payload| <= 1000 && |ms[1].payload| <= 1000 && |ms[2].payload| <= 1000
    ensures FlightRecords(ms, next) == Ok(rs) && |rs| == 3
    ensures Carries(rs[0], ms[0]) && Carries(rs[1], ms[1]) && Carries(rs[2], ms[2])
  {
    hide PlaintextRecord, Carries, Increment;
    var r0 := PlaintextReadable(ms[0], next);
    var r1 := PlaintextReadable(ms[1], Increment(next));
    var r2 := PlaintextReadable(ms[2], Increment(Increment(next)));
    assert ms[1..][0] == ms[1] && ms[1..][1..] == [ms[2]] && [ms[2]][1..] == [];
    FlightStep(ms, next, r0);
    FlightStep(ms[1..], Increment(next), r1);
    FlightStep([ms[2]], Increment(Increment(next)), r2);
    rs := [r0] + ([r1] + ([r2] + []));
  }

  lemma FlightStep(ms: seq<HandshakeMessage>, next: U64, r: DtlsRecord)
    requires ms != [] && PlaintextRecord(ms[0], next) == Ok(r)
    ensures FlightRecords(ms, next) == Prefixed([r], FlightRecords(ms[1..], Increment(next)))
  {
    hide PlaintextRecord, Increment;
  }

  /** The client's flight, with what the server makes of it. */
  ghost predicate AnswerOf(c: Crypto, i: Inputs, f: Flights, keys: KeyMaterial, exchange: HandshakeMessage, finished: HandshakeMessage, clientTwo: RoundTwo) {
    var t5 := f.T4() + T(exchange);
    && exchange.messageType == ClientKeyExchange && finished.messageType == Finished
    && TranscriptBytes(exchange).Ok? && TranscriptBytes(finished).Ok?
    && HandleClientKeyExchange(c, Server1(c, i, f.T4()), exchange) == Ok(Server2(c, i, clientTwo, t5))
    && ServerKeys(c, Server2(c, i, clientTwo, t5)) == Ok(keys)
    && VerifyClientFinished(c, Server2(c, i, clientTwo, t5), finished, keys) == Ok(Server2(c, i, clientTwo, t5 + T(finished)))
  }

  lemma AnswerBuilt(c: Crypto, w: World, h: HelloState, f: Flights)
      returns (keys: KeyMaterial, exchange: HandshakeMessage, finished: HandshakeMessage, clientTwo: RoundTwo, rs: seq<DtlsRecord>)
    requires w.i.Drawn(c) && NonDegenerate(c, w.i.ClientParty(c), w.i.ServerParty(c))
    requires ServerTwo(c, w.i.ClientParty(c), w.i.ServerParty(c), w.i.n) == Ok(f.serverTwo)
    requires h.nextMessage == 2 && h.nextRecord == 2
    ensures AgreedPoint(c, w.i.ClientParty(c), w.i.ServerParty(c)) != 0 && keys == AgreedKeys(c, w.i)
    ensures AnswerOf(c, w.i, f, keys, exchange, finished, clientTwo)
    ensures ClientFlight(c, w.Client(), h, Client3(c, w.i, f.serverTwo, f.T4()))
         == Ok((Client3(c, w.i, f.serverTwo, f.T4() + T(exchange) + T(finished)), keys, rs))
    ensures |rs| == 3 && Carries(rs[0], exchange)
    ensures rs[1].header.epoch == 0 && rs[1].header.contentType == ChangeCipherSpec && rs[1].payload == [1]
    ensures Conceals(c, rs[2], finished, keys.keyBlock.clientWriteKey, keys.keyBlock.clientWriteIv)
  {
    hide BuildClientKeyExchange, BuildClientFinished, HandleClientKeyExchange, VerifyClientFinished, ClientKeys, ServerKeys;
    hide TranscriptBytes, Client3, Server1, Server2, ServerTwo, ClientTwo, NonDegenerate, AgreedPoint, AgreedKeys, EncodeMessage, Protect, PlaintextRecord, Carries, Conceals;
    var i := w.i;
    var t4 := f.T4();
    KeysAgree(c, i, t4, t4);
    ClientKeyExchangeAccepted(c, i, f.serverTwo, 2, t4);
    exchange := BuildClientKeyExchange(c, Client3(c, i, f.serverTwo, t4), 2, i.n.c3).value.1;
    clientTwo := ClientTwo(c, i.ClientParty(c), i.ServerParty(c), i.n).value;
    var t5 := t4 + T(exchange);
    KeysAgree(c, i, t5, t5);
    keys := AgreedKeys(c, i);
    FinishedAccepted(c, i, f.serverTwo, clientTwo, keys, 3, t5);
    finished := BuildClientFinished(c, Client3(c, i, f.serverTwo, t5), 3).value.1;
    var r1 := PlaintextReadable(exchange, 2);
    var b, r3 := ProtectedReadable(c, finished, keys.keyBlock.clientWriteKey, keys.keyBlock.clientWriteIv);
    var r2 := NewRecord(ChangeCipherSpec, 0, 3, [1]).value;
    rs := [r1, r2, r3];
  }

  /** The pair once the client has sent its Finished. */
  ghost predicate AfterFlights(c: Crypto, w: World, p: Pair, f: Flights, keys: KeyMaterial,
                               exchange: HandshakeMessage, finished: HandshakeMessage, clientTwo: RoundTwo) {
    && FlightOf(c, w.i, f) && AnswerOf(c, w.i, f, keys, exchange, finished, clientTwo) && f.hello.messageSeq == 1
    && p.server.AwaitClient? && p.server.local == w.server && p.server.peer == w.client
    && p.server.handshake == Server1(c, w.i, f.T4()) && p.server.hello == f.hello && p.server.exchanges == []
    && p.client.AwaitFinished? && p.client.keys == keys && !p.client.sawChangeCipherSpec
    && p.client.handshake == Client3(c, w.i, f.serverTwo, f.T4() + T(exchange) + T(finished))
    && p.client.sent != []
    && var rs := LastFlight(p.client.sent);
    && |rs| == 3 && Carries(rs[0], exchange)
    && rs[1].header.epoch == 0 && rs[1].header.contentType == ChangeCipherSpec && rs[1].payload == [1]
    && Conceals(c, rs[2], finished, keys.keyBlock.clientWriteKey, keys.keyBlock.clientWriteIv)
  }

  lemma ServerSendsFlight(c: Crypto, w: World, p: Pair, m: HandshakeMessage, r: DtlsRecord, f: Flights)
      returns (server: Acceptor, rs: seq<DtlsRecord>)
    requires w.i.Drawn(c) && AfterCookie(c, w, p, m, r) && f.hello == m && FlightOf(c, w.i, f)
    ensures server == Step(c, w.Server(), p.server, w.ToServer(p.client.sent))
    ensures server.AwaitClient? && server.local == w.server && server.peer == w.client
    ensures server.handshake == Server1(c, w.i, f.T4()) && server.hello == m && server.exchanges == []
    ensures server.sent != [] && LastFlight(server.sent) == rs && |rs| == 3
    ensures Carries(rs[0], f.serverHello) && Carries(rs[1], f.serverExchange) && Carries(rs[2], f.done)
  {
    hide HelloMessage, HandleClientHello, RecordClientHello, H.DecodeClientHello, TranscriptBytes, Carries, ServerFlight, FlightRecords;
    hide HandleServerHello, HandleServerKeyExchange, HandleServerHelloDone, ServerTwo, Client1, Client2, Client3, Server1, Step, NewServer, NewClient, Cookie;
    ClientHelloAccepted(c, w.i, TheCookie(c, w), 1);
    var hello := H.DecodeClientHello(m.payload).value;
    var d := w.ToServer(p.client.sent);
    ServerChooses(c, w.Server(), m, hello, r, d, p.server.next, p.server.sent);
    SameHandshakes(c, w);
    rs := FlightCarried([f.serverHello, f.serverExchange, f.done], p.server.next);
    server := Step(c, w.Server(), p.server, d);
  }

  lemma ClientAnswers(c: Crypto, w: World, st: Connector, d: Datagram, f: Flights)
      returns (keys: KeyMaterial, exchange: HandshakeMessage, finished: HandshakeMessage, clientTwo: RoundTwo, flight: seq<DtlsRecord>)
    requires w.i.Drawn(c) && NonDegenerate(c, w.i.ClientParty(c), w.i.ServerParty(c)) && FlightOf(c, w.i, f)
    requires st.AwaitFlight? && st.handshake == Client1(c, w.i, f.T1()) && st.hello.nextMessage == 2 && st.hello.nextRecord == 2
    requires d.source == w.server && |d.records| == 3
    requires Carries(d.records[0], f.serverHello) && Carries(d.records[1], f.serverExchange) && Carries(d.records[2], f.done)
    ensures AgreedPoint(c, w.i.ClientParty(c), w.i.ServerParty(c)) != 0 && keys == AgreedKeys(c, w.i)
    ensures AnswerOf(c, w.i, f, keys, exchange, finished, clientTwo)
    ensures ClientStep(c, w.Client(), st, d)
         == AwaitFinished(Client3(c, w.i, f.serverTwo, f.T4() + T(exchange) + T(finished)), keys, false, st.sent + [Sent(w.client, w.server, flight)])
    ensures |flight| == 3 && Carries(flight[0], exchange)
    ensures flight[1].header.epoch == 0 && flight[1].header.contentType == ChangeCipherSpec && flight[1].payload == [1]
    ensures Conceals(c, flight[2], finished, keys.keyBlock.clientWriteKey, keys.keyBlock.clientWriteIv)
  {
    hide ServerTwo, NonDegenerate, AgreedPoint, AgreedKeys, AnswerOf, Carries, Conceals, ClientStep, ClientFlight, TranscriptBytes;
    hide HandleServerHello, HandleServerKeyExchange, HandleServerHelloDone, ServerFlight, Client1, Client2, Client3, Server1, Server2, NewServer, NewClient;
    keys, exchange, finished, clientTwo, flight := AnswerBuilt(c, w, st.hello, f);
    ClientTakesFlight(c, w.Client(), st, d, d.records, [f.serverHello, f.serverExchange, f.done],
                      Client2(c, w.i, f.T2()), Client3(c, w.i, f.serverTwo, f.T3()), Client3(c, w.i, f.serverTwo, f.T4()));
  }

  lemma SecondRound(c: Crypto, w: World, p: Pair, m: HandshakeMessage, r: DtlsRecord)
      returns (f: Flights, keys: KeyMaterial, exchange: HandshakeMessage, finished: HandshakeMessage, clientTwo: RoundTwo)
    requires w.i.Drawn(c) && NonDegenerate(c, w.i.ClientParty(c), w.i.ServerParty(c)) && AfterCookie(c, w, p, m, r)
    ensures AgreedPoint(c, w.i.ClientParty(c), w.i.ServerParty(c)) != 0 && keys == AgreedKeys(c, w.i)
    ensures AfterFlights(c, w, Exchange(c, w, p), f, keys, exchange, finished, clientTwo)
  {
    hide HelloMessage, ServerTwo, NonDegenerate, AgreedPoint, AgreedKeys, AnswerOf, FlightOf, Carries, Conceals, Step, ClientStep, TranscriptBytes;
    hide Client1, Client3, Server1, NewServer, NewClient, Cookie;
    ServerTwoExists(c, w.i);
    f := FlightBuilt(c, w.i, TheCookie(c, w), m);
    var server, rs := ServerSendsFlight(c, w, p, m, r, f);
    var flight;
    keys, exchange, finished, clientTwo, flight := ClientAnswers(c, w, p.client, w.ToClient(server.sent), f);
  }

  lemma ServerTwoExists(c: Crypto, i: Inputs)
    requires i.Drawn(c) && NonDegenerate(c, i.ClientParty(c), i.ServerParty(c))
    ensures ServerTwo(c, i.ClientParty(c), i.ServerParty(c), i.n).Ok?
  {
    hide ServerTwo, ClientTwo, NonDegenerate, AgreedPoint, AgreedKeys, ClientKeys, ServerKeys, Client3, Server2;
    KeysAgree(c, i, [], []);
  }

  // ----- Third round trip: both Finished messages

  lemma FinishedAnswer(c: Crypto, w: World, st: Acceptor, f: Flights, keys: KeyMaterial, clientTwo: RoundTwo, t: Bytes)
      returns (m: HandshakeMessage, rs: seq<DtlsRecord>)
    requires st.AwaitClient?
    ensures m.messageType == Finished && TranscriptBytes(m).Ok?
    ensures FinishedFlight(c, st, Server2(c, w.i, clientTwo, t), keys) == Ok(rs) && |rs| == 2
    ensures rs[0].header.contentType == ChangeCipherSpec && rs[0].payload == [1]
    ensures Conceals(c, rs[1], m, keys.keyBlock.serverWriteKey, keys.keyBlock.serverWriteIv)
    ensures VerifyServerFinished(c, Client3(c, w.i, f.serverTwo, t), m, keys) == Ok(Client3(c, w.i, f.serverTwo, t + T(m)))
    ensures BuildServerFinished(c, Server2(c, w.i, clientTwo, t), 4, keys) == Ok((Server2(c, w.i, clientTwo, t + T(m)), m))
  {
    hide BuildServerFinished, VerifyServerFinished, TranscriptBytes, Client3, Server2, EncodeMessage, Protect, Conceals;
    ServerFinishedAccepted(c, w.i, f.serverTwo, clientTwo, keys, t);
    m := BuildServerFinished(c, Server2(c, w.i, clientTwo, t), 4, keys).value.1;
    var b, r := ProtectedReadable(c, m, keys.keyBlock.serverWriteKey, keys.keyBlock.serverWriteIv);
    rs := [NewRecord(ChangeCipherSpec, 0, st.next, [1]).value, r];
  }

  lemma ThirdRound(c: Crypto, w: World, p: Pair, f: Flights, keys: KeyMaterial, exchange: HandshakeMessage, finished: HandshakeMessage, clientTwo: RoundTwo)
      returns (last: HandshakeMessage)
    requires AfterFlights(c, w, p, f, keys, exchange, finished, clientTwo)
    ensures var q := Exchange(c, w, p);
            && last.messageType == Finished && TranscriptBytes(last).Ok?
            && q.server.Accepted? && q.server.peer == w.client && q.server.keyMaterial == keys && q.server.finished == finished
            && q.server.handshake.transcript == f.T4() + T(exchange)
            && q.client.Connected? && q.client.keyMaterial == keys
            && q.client.handshake.transcript == f.T4() + T(exchange) + T(finished) + T(last)
            && ServerFinishes(c, q.server, f.T4() + T(exchange) + T(finished), last, q.client.handshake.transcript)
  {
    hide Carries, Conceals, Step, ClientStep, TranscriptBytes, FlightOf, NewServer, NewClient, FinishedFlight, VerifyServerFinished;
    hide HandleClientKeyExchange, ServerKeys, VerifyClientFinished, BuildServerFinished;
    var t5 := f.T4() + T(exchange);
    var m, rs := FinishedAnswer(c, w, p.server, f, keys, clientTwo, t5 + T(finished));
    last := m;
    ServerTakesFlight(c, w.Server(), p.server, w.ToServer(p.client.sent), LastFlight(p.client.sent), exchange, finished,
                      Server2(c, w.i, clientTwo, t5), Server2(c, w.i, clientTwo, t5 + T(finished)), keys, rs);
    var server := Step(c, w.Server(), p.server, w.ToServer(p.client.sent));
    ClientTakesFinished(c, w.Client(), p.client, w.ToClient(server.sent), rs, m, Client3(c, w.i, f.serverTwo, t5 + T(finished) + T(m)));
  }

  // ----- The theorem

  function Final(c: Crypto, w: World): Pair {
    Exchange(c, w, Exchange(c, w, Exchange(c, w, Initial(c, w))))
  }

  ghost predicate Types(ms: seq<HandshakeMessage>, types: seq<HandshakeType>) {
    |ms| == |types| && forall k :: 0 <= k < |ms| ==> ms[k].messageType == types[k]
  }

  /** From its transcript at the client's Finished the server came to `before` by
      verifying it, and to `after` by building its own Finished `m`. */
  ghost predicate ServerFinishes(c: Crypto, st: Acceptor, before: Bytes, m: HandshakeMessage, after: Bytes) {
    && st.Accepted?
    && var verified := VerifyClientFinished(c, st.handshake, st.finished, st.keyMaterial);
       && verified.Ok? && verified.value.transcript == before
       && var built := BuildServerFinished(c, verified.value, 4, st.keyMaterial);
          built.Ok? && built.value.1 == m && built.value.0.transcript == after
  }

  /** `ms` are the messages both sides hashed, before each Finished and after
      both: the retried ClientHello comes first, so neither the first ClientHello
      nor the HelloVerifyRequest is among them; the sixth is the client's Finished
      over the five before it and the seventh the server's over all six. */
  ghost predicate SameTranscript(c: Crypto, p: Pair, ms: seq<HandshakeMessage>) {
    && Types(ms, [ClientHello, ServerHello, ServerKeyExchange, ServerHelloDone, ClientKeyExchange, Finished, Finished])
    && ms[0].messageSeq == 1
    && p.server.Accepted? && p.client.Connected?
    && ms[5] == p.server.finished
    && Transcript(ms[..5]) == Ok(p.server.handshake.transcript)
    && Transcript(ms) == Ok(p.client.handshake.transcript)
    && Transcript(ms[..6]).Ok?
    && ServerFinishes(c, p.server, Transcript(ms[..6]).value, ms[6], p.client.handshake.transcript)
    && IsFinished(c, p.server.keyMaterial.masterSecret, Client, Transcript(ms[..5]).value, ms[5].payload)
    && IsFinished(c, p.server.keyMaterial.masterSecret, Server, Transcript(ms[..6]).value, ms[6].payload)
  }

  lemma FinishesMean(c: Crypto, st: Acceptor, before: Bytes, m: HandshakeMessage, after: Bytes)
    requires ServerFinishes(c, st, before, m, after)
    ensures IsFinished(c, st.keyMaterial.masterSecret, Client, st.handshake.transcript, st.finished.payload)
    ensures IsFinished(c, st.keyMaterial.masterSecret, Server, before, m.payload)
  {
    hide VerifyClientFinished, IsFinished, FinishedData, ThreadHandshake.Push;
    ClientFinishedExact(c, st.handshake, st.finished, st.keyMaterial);
    FinishedIs(c, before, st.keyMaterial, Server);
  }

  lemma SevenMessages(f: Flights, exchange: HandshakeMessage, finished: HandshakeMessage, last: HandshakeMessage)
    requires |f.hello.payload| <= MAX_U24 && |f.serverHello.payload| <= MAX_U24 && |f.serverExchange.payload| <= MAX_U24 && f.done.payload == []
    requires TranscriptBytes(exchange).Ok? && TranscriptBytes(finished).Ok? && TranscriptBytes(last).Ok?
    ensures var ms := [f.hello, f.serverHello, f.serverExchange, f.done, exchange, finished, last];
            && Transcript(ms[..5]) == Ok(f.T4() + T(exchange))
            && Transcript(ms[..6]) == Ok(f.T4() + T(exchange) + T(finished))
            && Transcript(ms) == Ok(f.T4() + T(exchange) + T(finished) + T(last))
  {
    hide TranscriptBytes;
    EncodableMessage(f.hello);
    EncodableMessage(f.serverHello);
    EncodableMessage(f.serverExchange);
    EncodableMessage(f.done);
    TranscriptSnoc([], f.hello);
    assert Transcript([]) == Ok([]) && [] + [f.hello] == [f.hello] && [] + T(f.hello) == T(f.hello);
    hide Transcript;
    TranscriptSnoc([f.hello], f.serverHello);
    assert [f.hello] + [f.serverHello] == [f.hello, f.serverHello];
    TranscriptSnoc([f.hello, f.serverHello], f.serverExchange);
    assert [f.hello, f.serverHello] + [f.serverExchange] == [f.hello, f.serverHello, f.serverExchange];
    TranscriptSnoc([f.hello, f.serverHello, f.serverExchange], f.done);
    var four := [f.hello, f.serverHello, f.serverExchange, f.done];
    assert [f.hello, f.serverHello, f.serverExchange] + [f.done] == four;
    TranscriptSnoc(four, exchange);
    TranscriptSnoc(four + [exchange], finished);
    TranscriptSnoc(four + [exchange] + [finished], last);
    var ms := [f.hello, f.serverHello, f.serverExchange, f.done, exchange, finished, last];
    assert ms[..5] == four + [exchange] && ms[..6] == four + [exchange] + [finished] && ms == four + [exchange] + [finished] + [last];
  }

  /** For all randoms, cookie keys and non-degenerate scalars, three round trips
      connect the client and the server under the same PSK: each accepts the
      other's Finished, their transcripts agree and so do all their keys. */
  lemma HonestRunCompletes(c: Crypto, w: World)
    requires w.i.Drawn(c) && NonDegenerate(c, w.i.ClientParty(c), w.i.ServerParty(c))
    ensures var p := Final(c, w);
            && p.server.Accepted? && p.client.Connected?
            && p.server.peer == w.client
            && p.server.keyMaterial == p.client.keyMaterial
            && AgreedPoint(c, w.i.ClientParty(c), w.i.ServerParty(c)) != 0
            && p.client.keyMaterial == AgreedKeys(c, w.i)
            && exists ms :: SameTranscript(c, p, ms)
  {
    hide Exchange, Initial, AfterCookie, AfterFlights, NonDegenerate, AgreedPoint, AgreedKeys, SameTranscript;
    var m, r := FirstRound(c, w);
    var p1 := Exchange(c, w, Initial(c, w));
    var f, keys, exchange, finished, clientTwo := SecondRound(c, w, p1, m, r);
    var p2 := Exchange(c, w, p1);
    var ms := TranscriptsMatch(c, w, p2, f, keys, exchange, finished, clientTwo);
  }

  lemma TranscriptsMatch(c: Crypto, w: World, p: Pair, f: Flights, keys: KeyMaterial, exchange: HandshakeMessage, finished: HandshakeMessage, clientTwo: RoundTwo)
      returns (ms: seq<HandshakeMessage>)
    requires AfterFlights(c, w, p, f, keys, exchange, finished, clientTwo)
    ensures var q := Exchange(c, w, p);
            && q.server.Accepted? && q.server.peer == w.client && q.server.keyMaterial == keys
            && q.client.Connected? && q.client.keyMaterial == keys
            && SameTranscript(c, q, ms)
  {
    hide Exchange, TranscriptBytes, Transcript, AfterFlights, ServerFinishes, IsFinished;
    var last := ThirdRound(c, w, p, f, keys, exchange, finished, clientTwo);
    FlightShapes(c, w, p, f, keys, exchange, finished, clientTwo);
    SevenMessages(f, exchange, finished, last);
    ms := [f.hello, f.serverHello, f.serverExchange, f.done, exchange, finished, last];
    var q := Exchange(c, w, p);
    FinishesMean(c, q.server, f.T4() + T(exchange) + T(finished), last, q.client.handshake.transcript);
  }

  lemma FlightShapes(c: Crypto, w: World, p: Pair, f: Flights, keys: KeyMaterial, exchange: HandshakeMessage, finished: HandshakeMessage, clientTwo: RoundTwo)
    requires AfterFlights(c, w, p, f, keys, exchange, finished, clientTwo)
    ensures f.hello.messageType == ClientHello && f.serverHello.messageType == ServerHello && f.hello.messageSeq == 1
    ensures f.serverExchange.messageType == ServerKeyExchange && f.done.messageType == ServerHelloDone
    ensures |f.hello.payload| <= 1000 && |f.serverHello.payload| <= 1000 && |f.serverExchange.payload| <= 1000 && f.done.payload == []
    ensures exchange.messageType == ClientKeyExchange && finished.messageType == Finished
    ensures TranscriptBytes(exchange).Ok? && TranscriptBytes(finished).Ok?
  {
    hide ServerTwo, ServerFlight, HandleServerHello, HandleServerKeyExchange, HandleServerHelloDone, TranscriptBytes, Carries, Conceals;
    hide HandleClientKeyExchange, ServerKeys, VerifyClientFinished, Client1, Client2, Client3, Server1, Server2;
  }

  // ----- Degenerate scalars

  /** Without a ServerKeyExchange the acceptor fails at the retried hello. */
  lemma NoServerFlight(c: Crypto, w: World, p: Pair, m: HandshakeMessage, r: DtlsRecord)
    requires w.i.Drawn(c) && AfterCookie(c, w, p, m, r) && ServerTwo(c, w.i.ClientParty(c), w.i.ServerParty(c), w.i.n).Err?
    ensures Exchange(c, w, p).server.Failed?
  {
    hide ServerTwo, HelloMessage, Carries, TranscriptBytes, Client1, Cookie, Step, ClientStep;
    ChoiceFails(c, w, p, m, r);
  }

  lemma ChoiceFails(c: Crypto, w: World, p: Pair, m: HandshakeMessage, r: DtlsRecord)
    requires w.i.Drawn(c) && AfterCookie(c, w, p, m, r) && ServerTwo(c, w.i.ClientParty(c), w.i.ServerParty(c), w.i.n).Err?
    ensures Step(c, w.Server(), p.server, w.ToServer(p.client.sent)).Failed?
  {
    hide HelloMessage, HandleClientHello, RecordClientHello, H.DecodeClientHello, TranscriptBytes, Carries, ServerFlight, FlightRecords;
    hide ServerTwo, Client1, Server1, Step, NewServer, NewClient, Cookie;
    ClientHelloAccepted(c, w.i, TheCookie(c, w), 1);
    HelloType(c, w.i, TheCookie(c, w), m);
    ServerChooses(c, w.Server(), m, H.DecodeClientHello(m.payload).value, r, w.ToServer(p.client.sent), p.server.next, p.server.sent);
    SameHandshakes(c, w);
    FlightMissing(c, w.i, TheCookie(c, w), m);
  }

  lemma FlightMissing(c: Crypto, i: Inputs, cookie: Bytes, m: HandshakeMessage)
    requires i.Drawn(c) && |cookie| <= 255 && HelloMessage(c, i, cookie, 1) == Ok(m)
    requires ServerTwo(c, i.ClientParty(c), i.ServerParty(c), i.n).Err?
    ensures ServerFlight(c, i.Server0(c), m, i.n.s3).Err?
  {
    hide HelloMessage, HandleClientHello, BuildServerHello, BuildServerKeyExchange, BuildServerHelloDone, H.DecodeClientHello;
    hide HandleServerHello, HandleServerKeyExchange, ServerTwo, RecordClientHello;
    hide TranscriptBytes, Client1, Client2, Client3, Server1, NewServer, NewClient;
    ClientHelloAccepted(c, i, cookie, 1);
    ServerHelloAccepted(c, i, T(m));
    var sh := BuildServerHello(c, Server1(c, i, T(m)), 1).value.1;
    ServerKeyExchangeAccepted(c, i, T(m) + T(sh));
  }

  /** A client that cannot build its key exchange or derive keys aborts. */
  lemma NoClientFlight(c: Crypto, w: World, h: HelloState, two: RoundTwo, t: Bytes)
    requires w.i.Drawn(c) && !NonDegenerate(c, w.i.ClientParty(c), w.i.ServerParty(c))
    requires ServerTwo(c, w.i.ClientParty(c), w.i.ServerParty(c), w.i.n) == Ok(two)
    ensures ClientFlight(c, w.Client(), h, Client3(c, w.i, two, t)).Err?
  {
    hide BuildClientKeyExchange, BuildClientFinished, HandleClientKeyExchange, ClientKeys, TranscriptBytes, Client3, Server1, Server2;
    hide ServerTwo, ClientTwo, NonDegenerate, EncodeMessage, Protect, PlaintextRecord;
    ClientKeyExchangeAccepted(c, w.i, two, h.nextMessage, t);
    var r := BuildClientKeyExchange(c, Client3(c, w.i, two, t), h.nextMessage, w.i.n.c3);
    if r.Ok? {
      NoClientKeys(c, w.i, two, t + T(r.value.1));
    }
  }

  lemma NoClientKeys(c: Crypto, i: Inputs, two: RoundTwo, t: Bytes)
    requires i.Drawn(c) && !NonDegenerate(c, i.ClientParty(c), i.ServerParty(c))
    requires ServerTwo(c, i.ClientParty(c), i.ServerParty(c), i.n) == Ok(two)
    requires ClientTwo(c, i.ClientParty(c), i.ServerParty(c), i.n).Ok?
    ensures ClientKeys(c, Client3(c, i, two, t)).Err?
  {
    hide SharedPoint, ReceivedPoint, ClientTwo, ServerTwo, ClientOne, ServerOne, AgreedPoint, FirstSum, ClientBase, ServerBase, HonestPair, NonzeroNonces, SessionKey, DeriveKeys;
    InputsArePair(c, i);
    PartiesInStates(c, i);
    HonestRounds(c, i.ClientParty(c), i.ServerParty(c), i.n);
    EqualSecretPoints(c, i.ClientParty(c), i.ServerParty(c));
    AgreedPointNonzero(c, i.ClientParty(c), i.ServerParty(c));
  }

  lemma ClientGivesUp(c: Crypto, w: World, p: Pair, m: HandshakeMessage, r: DtlsRecord)
    requires w.i.Drawn(c) && !NonDegenerate(c, w.i.ClientParty(c), w.i.ServerParty(c)) && AfterCookie(c, w, p, m, r)
    requires ServerTwo(c, w.i.ClientParty(c), w.i.ServerParty(c), w.i.n).Ok?
    ensures Exchange(c, w, p).client.Aborted?
  {
    hide HelloMessage, ServerTwo, NonDegenerate, Carries, Step, ClientStep, ClientFlight, TranscriptBytes, ServerFlight;
    hide HandleServerHello, HandleServerKeyExchange, HandleServerHelloDone, Client1, Client2, Client3, Server1, NewServer, NewClient, Cookie;
    var f := FlightBuilt(c, w.i, TheCookie(c, w), m);
    var server, rs := ServerSendsFlight(c, w, p, m, r, f);
    ClientTakesFlight(c, w.Client(), p.client, w.ToClient(server.sent), rs, [f.serverHello, f.serverExchange, f.done],
                      Client2(c, w.i, f.T2()), Client3(c, w.i, f.serverTwo, f.T3()), Client3(c, w.i, f.serverTwo, f.T4()));
    NoClientFlight(c, w, p.client.hello, f.serverTwo, f.T4());
  }

  lemma FailureStays(c: Crypto, w: World, p: Pair)
    ensures p.server.Failed? ==> Exchange(c, w, p).server.Failed?
    ensures p.client.Aborted? ==> Exchange(c, w, p).client.Aborted?
  {
    hide HandleRecords, ScanRecords, Choose, VerifyRecords, ReadFlight, ReadFinished;
  }

  /** The honest run connects exactly when the scalars are not degenerate. */
  lemma HonestRunExact(c: Crypto, w: World)
    requires w.i.Drawn(c)
    ensures Final(c, w).server.Accepted? && Final(c, w).client.Connected?
            <==> NonDegenerate(c, w.i.ClientParty(c), w.i.ServerParty(c))
  {
    hide Exchange, Initial, AfterCookie, NonDegenerate, AgreedPoint, AgreedKeys, SameTranscript, ServerTwo;
    if NonDegenerate(c, w.i.ClientParty(c), w.i.ServerParty(c)) {
      HonestRunCompletes(c, w);
    } else {
      var m, r := FirstRound(c, w);
      var p1 := Exchange(c, w, Initial(c, w));
      if ServerTwo(c, w.i.ClientParty(c), w.i.ServerParty(c), w.i.n).Ok? {
        ClientGivesUp(c, w, p1, m, r);
      } else {
        NoServerFlight(c, w, p1, m, r);
      }
      FailureStays(c, w, Exchange(c, w, p1));
    }
  }
}
