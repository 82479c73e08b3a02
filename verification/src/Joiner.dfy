/** One relayed joiner commissioning session as a machine over the datagrams it
    is fed.  Outgoing datagrams are kept as the records that form them. */
module Joiner {
  import opened Bytes
  import opened Primitives
  import opened Record
  import opened RecordProtection
  import opened KeySchedule
  import opened Handshake
  import opened ThreadHandshake
  import D = ServerDriver
  import H = Hello
  import C = Coap

  const TLV_STATE: Byte := 16
  const STATE_ACCEPT: Byte := 0x01
  const STATE_REJECT: Byte := 0xff
  const JOIN_FIN: Bytes := ['/' as int, 'c' as int, '/' as int, 'j' as int, 'f' as int]

  datatype Info = Info(
    vendorName: Bytes, vendorModel: Bytes, vendorSwVersion: Bytes, vendorStackVersion: Bytes,
    provisioningUrl: Option<Bytes>, vendorData: Option<Bytes>)

  /** The primitives, UTF-8 validity and the JOIN_FIN.req payload parser. */
  datatype Env = Env(c: Crypto, utf8: Bytes -> bool, parseJoinFin: Bytes -> Result<Info>)

  datatype Phase = AwaitingClientHello | AwaitingClientFlight | Connected | Finalized {
    function Rank(): nat {
      match this
      case AwaitingClientHello => 0
      case AwaitingClientFlight => 1
      case Connected => 2
      case Finalized => 3
    }
  }

  datatype Event =
    | Transmit(records: seq<DtlsRecord>, includeKek: bool)
    | JoinerConnected
    | JoinerFinalized(accepted: bool, info: Info)

  /** A relayed datagram, the randomness available while handling it, and what
      the handler would answer if asked. */
  datatype Input = Input(datagram: Bytes, v: nat, answer: bool)

  /** `events` are all events pushed so far.  `hello`, `verified`, `asked` and
      `protected` are history: the ClientHello that was answered with the server
      flight, the client Finished that connected the session with the handshake it
      was verified in, the questions put to the handler, and the records sealed. */
  datatype Session = Session(
    phase: Phase, handshake: ServerState, cookieKey: Bytes, keys: Option<KeyMaterial>, flight: seq<DtlsRecord>,
    epoch0: U64, epoch1: U64, sawChangeCipherSpec: bool, decision: Option<bool>, error: Option<Error>,
    events: seq<Event>, hello: Option<HandshakeMessage>, verified: Option<(ServerState, HandshakeMessage)>,
    asked: seq<Info>, protected: seq<DtlsRecord>)
  {
    function Fail(e: Error): Session { this.(error := Some(e)) }

    function Push(e: Event): Session { this.(events := events + [e]) }
  }

  function NewSession(c: Crypto, cfg: D.Config): (s: Session)
    ensures s.handshake.WellSized()
  {
    Session(AwaitingClientHello, cfg.NewHandshake(c), cfg.cookieKey, None, [], 0, 0, false, None, None, [], None, None, [], [])
  }

  // ----- Plaintext handshake messages

  /** Demands the cookie for the hello's own random. */
  function DemandCookie(c: Crypto, s: Session, m: HandshakeMessage, random: H.Random): Result<Session> {
    var verify :- D.VerifyRequest(c, s.cookieKey, random, m.messageSeq);
    var r :- D.PlaintextRecord(verify, s.epoch0);
    Ok(s.(epoch0 := D.Increment(s.epoch0)).Push(Transmit([r], false)))
  }

  /** Answers with the server flight, kept for a repeated hello. */
  function SendFlight(c: Crypto, s: Session, m: HandshakeMessage, v: nat): Result<Session>
    requires s.handshake.WellSized()
  {
    var (handshake, ms) :- ServerFlight(c, s.handshake, m, v);
    var rs :- D.FlightRecords(ms, s.epoch0);
    Ok(s.(handshake := handshake, epoch0 := D.Increment(D.Increment(D.Increment(s.epoch0))), flight := rs,
          phase := AwaitingClientFlight, hello := Some(m)).Push(Transmit(rs, false)))
  }

  /** A ClientHello before the server flight: a cookie demand, or the flight. */
  function AnswerHello(c: Crypto, s: Session, m: HandshakeMessage, v: nat): Result<Session>
    requires s.handshake.WellSized()
  {
    var hello :- H.DecodeClientHello(m.payload);
    if !CookieVerifies(c, s.cookieKey, hello) then DemandCookie(c, s, m, hello.random) else SendFlight(c, s, m, v)
  }

  function TakeExchange(c: Crypto, s: Session, m: HandshakeMessage): Result<Session> {
    var handshake :- HandleClientKeyExchange(c, s.handshake, m);
    var keys :- ServerKeys(c, handshake);
    Ok(s.(handshake := handshake, keys := Some(keys)))
  }

  function HandlePlaintext(c: Crypto, s: Session, m: HandshakeMessage, v: nat): Result<Session>
    requires s.handshake.WellSized()
  {
    match (m.messageType, s.phase)
    case (ClientHello, AwaitingClientHello) => AnswerHello(c, s, m, v)
    case (ClientHello, AwaitingClientFlight) => Ok(s.Push(Transmit(s.flight, false)))
    case (ClientKeyExchange, AwaitingClientFlight) => TakeExchange(c, s, m)
    case _ => Err(Error.Crypto)
  }

  /** A step that may fail: the session is as before, and dead, if it does. */
  function Settle(s: Session, r: Result<Session>): Session {
    match r
    case Ok(t) => t
    case Err(e) => s.Fail(e)
  }

  function HandlePlaintexts(c: Crypto, s: Session, ms: seq<HandshakeMessage>, v: nat): (t: Session)
    requires s.handshake.WellSized()
    ensures t.handshake.WellSized()
    decreases |ms|
  {
    if s.error.Some? || ms == [] then s
    else
      KeepsSize(c, s, ms[0], v);
      HandlePlaintexts(c, Settle(s, HandlePlaintext(c, s, ms[0], v)), ms[1..], v)
  }

  /** What the fold over the messages from `i` on comes to. */
  lemma PlaintextsFrom(c: Crypto, s: Session, ms: seq<HandshakeMessage>, v: nat, i: nat)
    requires s.handshake.WellSized() && s.error.None? && i <= |ms|
    ensures i == |ms| ==> HandlePlaintexts(c, s, ms[i..], v) == s
    ensures i < |ms| ==>
              var t := Settle(s, HandlePlaintext(c, s, ms[i], v));
              && t.handshake.WellSized()
              && HandlePlaintexts(c, s, ms[i..], v) == HandlePlaintexts(c, t, ms[i + 1..], v)
              && (t.error.Some? ==> HandlePlaintexts(c, s, ms[i..], v) == t)
  {
    hide HandlePlaintext;
    if i < |ms| {
      KeepsSize(c, s, ms[i], v);
      assert ms[i..][1..] == ms[i + 1..];
    }
  }

  lemma KeepsSize(c: Crypto, s: Session, m: HandshakeMessage, v: nat)
    requires s.handshake.WellSized()
    ensures var r := HandlePlaintext(c, s, m, v); r.Ok? ==> r.value.handshake.WellSized()
  {
    hide ServerFlight, HandleClientKeyExchange, ServerKeys, D.VerifyRequest, D.PlaintextRecord, D.FlightRecords, CookieVerifies, H.DecodeClientHello;
    FlightKeepsRoundOne(c, s.handshake, m, v);
    ExchangeKeepsRoundOne(c, s.handshake, m);
  }

  // ----- The encrypted Finished

  function OpenRecord(c: Crypto, s: Session, r: DtlsRecord): Result<Bytes> {
    if s.keys.None? then Err(InvalidState)
    else Open(c, r, s.keys.value.keyBlock.clientWriteKey, s.keys.value.keyBlock.clientWriteIv)
  }

  /** Seals under the server write key with the next epoch-1 number. */
  function Seal(c: Crypto, s: Session, ty: ContentType, plaintext: Bytes): Result<(Session, DtlsRecord)>
    requires s.keys.Some?
  {
    var block := s.keys.value.keyBlock;
    var r :- Protect(c, ty, 1, s.epoch1, block.serverWriteKey, block.serverWriteIv, plaintext);
    Ok((s.(epoch1 := D.Increment(s.epoch1), protected := s.protected + [r]), r))
  }

  function FirstVerified(s: Session, m: HandshakeMessage): Option<(ServerState, HandshakeMessage)> {
    if s.verified.Some? then s.verified else Some((s.handshake, m))
  }

  /** The verified handshake with the server's Finished, its ChangeCipherSpec
      record and the octets of the Finished. */
  function FinishedParts(c: Crypto, s: Session, m: HandshakeMessage): Result<(ServerState, DtlsRecord, Bytes)>
    requires s.keys.Some?
  {
    var handshake :- VerifyClientFinished(c, s.handshake, m, s.keys.value);
    var (sent, finished) :- BuildServerFinished(c, handshake, 4, s.keys.value);
    var ccs :- NewRecord(ChangeCipherSpec, 0, s.epoch0, [1]);
    var b :- EncodeMessage(finished);
    Ok((sent, ccs, b))
  }

  function TakeFinished(c: Crypto, s: Session, m: HandshakeMessage): Result<Session>
    requires s.keys.Some?
  {
    var (sent, ccs, b) :- FinishedParts(c, s, m);
    var (t, r) :- Seal(c, s, ContentType.Handshake, b);
    Ok(t.(handshake := sent, epoch0 := D.Increment(s.epoch0), phase := Connected, verified := FirstVerified(s, m))
       .Push(Transmit([ccs, r], false)).Push(JoinerConnected))
  }

  function TakeFinishedMessages(c: Crypto, s: Session, ms: seq<HandshakeMessage>): (t: Session)
    requires s.keys.Some?
    ensures t.handshake.serverOne == s.handshake.serverOne
    decreases |ms|
  {
    if s.error.Some? || ms == [] then s
    else if ms[0].messageType != Finished then TakeFinishedMessages(c, s, ms[1..])
    else
      KeepsKeys(c, s, ms[0]);
      TakeFinishedMessages(c, Settle(s, TakeFinished(c, s, ms[0])), ms[1..])
  }

  /** What the fold over the messages from `i` on comes to. */
  lemma FinishedFrom(c: Crypto, s: Session, ms: seq<HandshakeMessage>, i: nat)
    requires s.keys.Some? && s.error.None? && i <= |ms|
    ensures i == |ms| ==> TakeFinishedMessages(c, s, ms[i..]) == s
    ensures i < |ms| && ms[i].messageType != Finished ==>
              TakeFinishedMessages(c, s, ms[i..]) == TakeFinishedMessages(c, s, ms[i + 1..])
    ensures i < |ms| && ms[i].messageType == Finished ==>
              var t := Settle(s, TakeFinished(c, s, ms[i]));
              && t.keys == s.keys
              && TakeFinishedMessages(c, s, ms[i..]) == TakeFinishedMessages(c, t, ms[i + 1..])
              && (t.error.Some? ==> TakeFinishedMessages(c, s, ms[i..]) == t)
  {
    hide TakeFinished;
    if i < |ms| {
      KeepsKeys(c, s, ms[i]);
      assert ms[i..][1..] == ms[i + 1..];
    }
  }

  lemma KeepsKeys(c: Crypto, s: Session, m: HandshakeMessage)
    requires s.keys.Some?
    ensures var r := TakeFinished(c, s, m);
            r.Ok? ==> r.value.keys == s.keys && r.value.handshake.serverOne == s.handshake.serverOne
  {
    hide ThreadHandshake.Push, FinishedData, EncodeMessage, Protect, NewRecord;
  }

  function OpenedMessages(c: Crypto, s: Session, r: DtlsRecord): Result<seq<HandshakeMessage>> {
    var plaintext :- OpenRecord(c, s, r);
    var plain :- NewRecord(ContentType.Handshake, 1, 0, plaintext);
    RecordMessages(plain)
  }

  function HandleEncrypted(c: Crypto, s: Session, r: DtlsRecord): (t: Session)
    ensures t.handshake.serverOne == s.handshake.serverOne
  {
    if s.phase != AwaitingClientFlight then s
    else if !s.sawChangeCipherSpec then s.Fail(Error.Crypto)
    else
      match OpenedMessages(c, s, r)
      case Err(e) => s.Fail(e)
      case Ok(ms) => TakeFinishedMessages(c, s, ms)
  }

  // ----- JOIN_FIN

  function StatePayload(accepted: bool): Bytes {
    [TLV_STATE, 1, if accepted then STATE_ACCEPT else STATE_REJECT]
  }

  function JoinFinResponse(request: C.CoapMessage, accepted: bool): C.CoapMessage {
    C.CoapMessage(C.Acknowledgement, C.CHANGED, request.messageId, request.token, [], StatePayload(accepted))
  }

  /** The decision of this session, asking the handler only for the first one. */
  function Decide(s: Session, info: Info, answer: bool): (t: Session)
    ensures t.decision.Some?
  {
    if s.decision.Some? then s else s.(decision := Some(answer), asked := s.asked + [info])
  }

  /** The answer to a JOIN_FIN.req of a session that has decided. */
  function Respond(c: Crypto, s: Session, request: C.CoapMessage, info: Info): Result<Session>
    requires s.decision.Some?
  {
    var accepted := s.decision.value;
    if s.keys.None? then Err(InvalidState)
    else
      var b :- C.Encode(JoinFinResponse(request, accepted));
      var (t, r) :- Seal(c, s, ApplicationData, b);
      var sent := t.(phase := Finalized).Push(Transmit([r], accepted));
      Ok(if s.phase != Finalized then sent.Push(JoinerFinalized(accepted, info)) else sent)
  }

  function OpenedRequest(env: Env, s: Session, r: DtlsRecord): Result<(C.CoapMessage, Option<Bytes>)> {
    var plaintext :- OpenRecord(env.c, s, r);
    var request :- C.Decode(plaintext);
    var path :- C.UriPath(request, env.utf8);
    Ok((request, path))
  }

  function HandleData(env: Env, s: Session, r: DtlsRecord, answer: bool): (t: Session)
    ensures t.handshake == s.handshake
  {
    if s.phase.Rank() < Connected.Rank() then s.Fail(Error.Crypto)
    else
      match OpenedRequest(env, s, r)
      case Err(e) => s.Fail(e)
      case Ok((request, path)) =>
        if path != Some(JOIN_FIN) then s
        else
          match env.parseJoinFin(request.payload)
          case Err(e) => s.Fail(e)
          case Ok(info) =>
            var decided := Decide(s, info, answer);
            Settle(decided, Respond(env.c, decided, request, info))
  }

  // ----- Datagrams and runs

  function HandleRecord(env: Env, s: Session, r: DtlsRecord, input: Input): (t: Session)
    requires s.handshake.WellSized()
    ensures t.handshake.WellSized()
  {
    match (r.header.epoch, r.header.contentType)
    case (0, Handshake) =>
      (match RecordMessages(r)
       case Err(e) => s.Fail(e)
       case Ok(ms) => HandlePlaintexts(env.c, s, ms, input.v))
    case (0, ChangeCipherSpec) => if r.payload != [1] then s.Fail(Error.Crypto) else s.(sawChangeCipherSpec := true)
    case (1, Handshake) => HandleEncrypted(env.c, s, r)
    case (1, ApplicationData) => HandleData(env, s, r, input.answer)
    case (_, Alert) => s.Fail(Error.Crypto)
    case _ => s
  }

  function HandleRecords(env: Env, s: Session, rs: seq<DtlsRecord>, input: Input): (t: Session)
    requires s.handshake.WellSized()
    ensures t.handshake.WellSized()
    decreases |rs|
  {
    if s.error.Some? || rs == [] then s else HandleRecords(env, HandleRecord(env, s, rs[0], input), rs[1..], input)
  }

  /** What the fold over the records from `i` on comes to. */
  lemma RecordsFrom(env: Env, s: Session, rs: seq<DtlsRecord>, input: Input, i: nat)
    requires s.handshake.WellSized() && s.error.None? && i <= |rs|
    ensures i == |rs| ==> HandleRecords(env, s, rs[i..], input) == s
    ensures i < |rs| ==>
              var t := HandleRecord(env, s, rs[i], input);
              && HandleRecords(env, s, rs[i..], input) == HandleRecords(env, t, rs[i + 1..], input)
              && (t.error.Some? ==> HandleRecords(env, s, rs[i..], input) == t)
  {
    hide HandleRecord;
    if i < |rs| {
      assert rs[i..][1..] == rs[i + 1..];
    }
  }

  function Receive(env: Env, s: Session, input: Input): (t: Session)
    requires s.handshake.WellSized()
    ensures t.handshake.WellSized()
  {
    match ParseDatagram(input.datagram)
    case Err(e) => s.Fail(e)
    case Ok(rs) => HandleRecords(env, s, rs, input)
  }

  /** A session is fed datagrams until it fails. */
  function Run(env: Env, cfg: D.Config, inputs: seq<Input>): (t: Session)
    ensures t.handshake.WellSized()
  {
    if inputs == [] then NewSession(env.c, cfg)
    else
      var s := Run(env, cfg, inputs[..|inputs| - 1]);
      if s.error.Some? then s else Receive(env, s, inputs[|inputs| - 1])
  }
}
