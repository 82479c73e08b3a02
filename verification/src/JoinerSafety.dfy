/** What every run of a joiner session keeps. */
module JoinerSafety {
  import opened Bytes
  import opened Primitives
  import opened Record
  import opened RecordProtection
  import opened KeySchedule
  import opened Handshake
  import opened ThreadHandshake
  import opened Joiner
  import D = ServerDriver
  import EJ = EcJpake
  import H = Hello
  import C = Coap
  import S = Session

  // ----- What never changes back

  ghost predicate Extends(s: Session, t: Session) {
    && s.phase.Rank() <= t.phase.Rank()
    && s.cookieKey == t.cookieKey
    && (s.phase.Rank() >= 1 ==> t.hello == s.hello && t.flight == s.flight)
    && (s.phase.Rank() >= 2 ==> t.keys == s.keys)
    && (s.decision.Some? ==> t.decision == s.decision)
    && (s.sawChangeCipherSpec ==> t.sawChangeCipherSpec)
    && s.events <= t.events && s.protected <= t.protected && s.asked <= t.asked
  }

  // ----- What each part of the state means

  /** The hello that was answered echoed the cookie for its own random. */
  predicate Answered(c: Crypto, key: Bytes, m: HandshakeMessage) {
    var hello := H.DecodeClientHello(m.payload);
    hello.Ok? && CookieVerifies(c, key, hello.value)
  }

  predicate Authenticated(c: Crypto, s: Session) {
    && s.keys.Some? && s.verified.Some? && s.sawChangeCipherSpec
    && ServerKeys(c, s.verified.value.0) == Ok(s.keys.value)
    && VerifyClientFinished(c, s.verified.value.0, s.verified.value.1, s.keys.value).Ok?
  }

  predicate Phases(c: Crypto, s: Session) {
    && (s.phase.Rank() >= 1 ==> s.hello.Some? && Answered(c, s.cookieKey, s.hello.value))
    && (s.keys.Some? ==> ServerKeys(c, s.handshake) == Ok(s.keys.value))
    && (s.phase.Rank() >= 2 ==> Authenticated(c, s))
    && (s.phase.AwaitingClientHello? ==> s.keys.None?)
    && (s.phase.Rank() < 2 ==> s.protected == [] && s.decision.None? && s.verified.None?)
    && (s.phase.Finalized? ==> s.decision.Some?)
    && (s.error.None? && s.decision.Some? ==> s.phase.Finalized?)
    && |s.asked| == (if s.decision.Some? then 1 else 0)
  }

  /** The k-th sealed record carries number k, and its nonce is that of (1, k). */
  ghost predicate Numbered(s: Session) {
    && s.epoch1 == |s.protected| <= SEQUENCE_LIMIT
    && forall k :: 0 <= k < |s.protected| ==> s.keys.Some? && SealedAs(s.protected[k], s.keys.value, k)
  }

  predicate SealedAs(r: DtlsRecord, keys: KeyMaterial, k: nat) {
    && k < SEQUENCE_LIMIT && r.header.epoch == 1 && r.header.sequence == k && |r.payload| >= EXPLICIT_NONCE_LEN
    && Nonce(keys.keyBlock.serverWriteIv, 1, k) == Ok(RecordNonce(r, keys.keyBlock.serverWriteIv))
  }

  /** The record opens, under the session's write key, to the JOIN_FIN.rsp for
      `request` that carries `accepted`. */
  predicate Carries(c: Crypto, r: DtlsRecord, keys: KeyMaterial, request: C.CoapMessage, accepted: bool) {
    && r.header.contentType == ApplicationData
    && C.Encode(JoinFinResponse(request, accepted)).Ok?
    && Open(c, r, keys.keyBlock.serverWriteKey, keys.keyBlock.serverWriteIv) == C.Encode(JoinFinResponse(request, accepted))
  }

  predicate NoData(rs: seq<DtlsRecord>) {
    forall r :: r in rs ==> r.header.contentType != ApplicationData
  }

  ghost predicate Explained(c: Crypto, s: Session, e: Event) {
    match e
    case Transmit(rs, kek) =>
      || (NoData(rs) && !kek)
      || (&& s.phase.Finalized? && s.keys.Some? && s.decision == Some(kek)
          && |rs| == 1 && exists request :: Carries(c, rs[0], s.keys.value, request, kek))
    case JoinerConnected => s.phase.Rank() >= 2
    case JoinerFinalized(accepted, info) => s.phase.Finalized? && s.decision == Some(accepted) && s.asked == [info]
  }

  function FinalizedCount(es: seq<Event>): nat {
    if es == [] then 0 else FinalizedCount(es[..|es| - 1]) + if es[|es| - 1].JoinerFinalized? then 1 else 0
  }

  ghost predicate Logged(c: Crypto, s: Session) {
    && NoData(s.flight)
    && (forall e :: e in s.events ==> Explained(c, s, e))
    && FinalizedCount(s.events) == (if s.phase.Finalized? then 1 else 0)
  }

  ghost predicate Sound(c: Crypto, s: Session) {
    s.handshake.WellSized() && Phases(c, s) && Numbered(s) && Logged(c, s)
  }

  ghost predicate Keeps(c: Crypto, s: Session, t: Session) {
    Sound(c, t) && Extends(s, t)
  }

  // ----- The event log

  lemma ExplainedLater(c: Crypto, s: Session, t: Session, e: Event)
    requires Explained(c, s, e) && Extends(s, t) && |t.asked| <= 1
    ensures Explained(c, t, e)
  {
    hide Carries, NoData;
    if e.JoinerFinalized? {
      assert t.asked[0] == s.asked[0];
      assert t.asked == s.asked;
    }
  }

  lemma LogLater(c: Crypto, s: Session, t: Session)
    requires (forall e :: e in s.events ==> Explained(c, s, e)) && Extends(s, t) && |t.asked| <= 1
    ensures forall e :: e in s.events ==> Explained(c, t, e)
  {
    hide Explained, Extends;
    forall e | e in s.events ensures Explained(c, t, e) {
      ExplainedLater(c, s, t, e);
    }
  }

  lemma LogPush(c: Crypto, s: Session, e: Event)
    requires (forall d :: d in s.events ==> Explained(c, s, d)) && Explained(c, s, e) && |s.asked| <= 1
    ensures Extends(s, s.Push(e))
    ensures forall d :: d in s.Push(e).events ==> Explained(c, s.Push(e), d)
    ensures FinalizedCount(s.Push(e).events) == FinalizedCount(s.events) + if e.JoinerFinalized? then 1 else 0
  {
    assert (s.events + [e])[..|s.events|] == s.events;
    hide Explained;
    forall d | d in s.Push(e).events ensures Explained(c, s.Push(e), d) {
      assert d in s.events || d == e;
      ExplainedLater(c, s, s.Push(e), d);
    }
  }

  // ----- Each step keeps the invariant

  lemma FailKeeps(c: Crypto, s: Session, e: Error)
    requires Sound(c, s)
    ensures Keeps(c, s, s.Fail(e))
  {
    hide Explained, ServerKeys, VerifyClientFinished, Answered;
    forall d | d in s.events ensures Explained(c, s.Fail(e), d) {
      ExplainedLater(c, s, s.Fail(e), d);
    }
  }

  lemma ExtendsTransitive(s: Session, t: Session, u: Session)
    requires Extends(s, t) && Extends(t, u)
    ensures Extends(s, u)
  {
  }

  /** Pushing a plaintext datagram. */
  lemma PlaintextPush(c: Crypto, s: Session, rs: seq<DtlsRecord>)
    requires Sound(c, s) && NoData(rs)
    ensures Keeps(c, s, s.Push(Transmit(rs, false)))
  {
    hide NoData, ServerKeys, VerifyClientFinished, Answered, SealedAs;
    LogPush(c, s, Transmit(rs, false));
    hide FinalizedCount;
  }

  /** Changing only fields the invariant does not mention. */
  lemma Epoch0Keeps(c: Crypto, s: Session, next: U64)
    requires Sound(c, s)
    ensures Keeps(c, s, s.(epoch0 := next))
  {
    hide Explained, ServerKeys, VerifyClientFinished, Answered, SealedAs, FinalizedCount;
    LogLater(c, s, s.(epoch0 := next));
  }

  lemma FlightHasNoData(ms: seq<HandshakeMessage>, next: U64)
    requires D.FlightRecords(ms, next).Ok?
    ensures NoData(D.FlightRecords(ms, next).value)
  {
    hide EncodeMessage;
    if ms != [] {
      FlightHasNoData(ms[1..], D.Increment(next));
    }
  }

  lemma FlightKeepsParty(c: Crypto, s: ServerState, m: HandshakeMessage, v: nat)
    requires s.WellSized()
    ensures var r := ServerFlight(c, s, m, v); r.Ok? ==> r.value.0.WellSized()
  {
    hide ServerFlight;
    FlightKeepsRoundOne(c, s, m, v);
  }

  lemma AnswerKeeps(c: Crypto, s: Session, m: HandshakeMessage, v: nat)
    requires Sound(c, s) && s.handshake.WellSized() && s.phase.AwaitingClientHello? && AnswerHello(c, s, m, v).Ok?
    ensures Keeps(c, s, AnswerHello(c, s, m, v).value)
  {
    assert s.handshake.WellSized();
    hide H.DecodeClientHello, CookieVerifies, D.VerifyRequest, ServerFlight, D.FlightRecords, EncodeMessage, Sound, Extends;
    var hello := H.DecodeClientHello(m.payload).value;
    if !CookieVerifies(c, s.cookieKey, hello) {
      var verify := D.VerifyRequest(c, s.cookieKey, hello.random, m.messageSeq).value;
      var r := D.PlaintextRecord(verify, s.epoch0).value;
      var t := s.(epoch0 := D.Increment(s.epoch0));
      Epoch0Keeps(c, s, D.Increment(s.epoch0));
      PlaintextPush(c, t, [r]);
      ExtendsTransitive(s, t, t.Push(Transmit([r], false)));
    } else {
      var (handshake, ms) := ServerFlight(c, s.handshake, m, v).value;
      var rs := D.FlightRecords(ms, s.epoch0).value;
      FlightHasNoData(ms, s.epoch0);
      FlightKeepsParty(c, s.handshake, m, v);
      var t := s.(handshake := handshake, epoch0 := D.Increment(D.Increment(D.Increment(s.epoch0))), flight := rs,
            phase := AwaitingClientFlight, hello := Some(m));
      FlightStored(c, s, t);
      PlaintextPush(c, t, rs);
      ExtendsTransitive(s, t, t.Push(Transmit(rs, false)));
    }
  }

  lemma FlightStored(c: Crypto, s: Session, t: Session)
    requires Sound(c, s) && s.phase.AwaitingClientHello? && t.handshake.WellSized()
    requires t == s.(handshake := t.handshake, epoch0 := t.epoch0, flight := t.flight, phase := AwaitingClientFlight, hello := t.hello)
    requires NoData(t.flight) && t.hello.Some? && Answered(c, t.cookieKey, t.hello.value)
    ensures Keeps(c, s, t)
  {
    hide Explained, ServerKeys, VerifyClientFinished, Answered, SealedAs, FinalizedCount, NoData;
    LogLater(c, s, t);
  }

  lemma ExchangeKeeps(c: Crypto, s: Session, m: HandshakeMessage)
    requires Sound(c, s) && s.phase.AwaitingClientFlight? && TakeExchange(c, s, m).Ok?
    ensures Keeps(c, s, TakeExchange(c, s, m).value)
  {
    hide Explained, ServerKeys, VerifyClientFinished, Answered, SealedAs, FinalizedCount, NoData, HandleClientKeyExchange;
    ExchangeKeepsRoundOne(c, s.handshake, m);
    LogLater(c, s, TakeExchange(c, s, m).value);
  }

  lemma ChangeCipherSpecKeeps(c: Crypto, s: Session)
    requires Sound(c, s)
    ensures Keeps(c, s, s.(sawChangeCipherSpec := true))
  {
    hide Explained, ServerKeys, VerifyClientFinished, Answered, SealedAs, FinalizedCount, NoData;
    LogLater(c, s, s.(sawChangeCipherSpec := true));
  }

  // ----- Sealed records

  lemma SealNumbers(c: Crypto, s: Session, ty: ContentType, b: Bytes)
    requires Numbered(s) && s.keys.Some? && Seal(c, s, ty, b).Ok?
    ensures var (t, r) := Seal(c, s, ty, b).value;
            && Numbered(t) && r.header.contentType == ty
            && Open(c, r, s.keys.value.keyBlock.serverWriteKey, s.keys.value.keyBlock.serverWriteIv) == Ok(b)
  {
    hide Protect, Open, Nonce;
    var block := s.keys.value.keyBlock;
    ProtectSucceeds(c, ty, 1, s.epoch1, block.serverWriteKey, block.serverWriteIv, b);
    ProtectedNonce(c, ty, 1, s.epoch1, block.serverWriteKey, block.serverWriteIv, b);
    OpenProtect(c, ty, 1, s.epoch1, block.serverWriteKey, block.serverWriteIv, b);
    var (t, r) := Seal(c, s, ty, b).value;
    assert SealedAs(r, s.keys.value, s.epoch1);
    hide SealedAs;
    assert forall k :: 0 <= k < |s.protected| ==> t.protected[k] == s.protected[k];
  }

  lemma KeysIgnoreTranscript(c: Crypto, s: ServerState, m: HandshakeMessage, seqNumber: U16, keys: KeyMaterial)
    ensures var r := VerifyClientFinished(c, s, m, keys);
            r.Ok? ==> r.value == s.(transcript := r.value.transcript) && ServerKeys(c, r.value) == ServerKeys(c, s)
    ensures var r := BuildServerFinished(c, s, seqNumber, keys);
            r.Ok? ==> r.value.0 == s.(transcript := r.value.0.transcript) && ServerKeys(c, r.value.0) == ServerKeys(c, s)
  {
    hide ThreadHandshake.Push, FinishedData, EJ.Finish, DeriveKeys;
  }

  lemma FinishedKeeps(c: Crypto, s: Session, m: HandshakeMessage)
    requires Sound(c, s) && 1 <= s.phase.Rank() <= 2 && s.keys.Some? && s.sawChangeCipherSpec && s.error.None?
    requires TakeFinished(c, s, m).Ok?
    ensures Keeps(c, s, TakeFinished(c, s, m).value)
    ensures TakeFinished(c, s, m).value.phase.Connected?
  {
    hide VerifyClientFinished, BuildServerFinished, EncodeMessage, Seal, Sound, Extends;
    var keys := s.keys.value;
    var handshake := VerifyClientFinished(c, s.handshake, m, keys).value;
    var (sent, finished) := BuildServerFinished(c, handshake, 4, keys).value;
    var ccs := NewRecord(ChangeCipherSpec, 0, s.epoch0, [1]).value;
    var b := EncodeMessage(finished).value;
    var (sealed, r) := Seal(c, s, ContentType.Handshake, b).value;
    var t := sealed.(handshake := sent, epoch0 := D.Increment(s.epoch0), phase := Connected, verified := FirstVerified(s, m));
    ConnectedKeeps(c, s, m, t, b);
    var u := t.Push(Transmit([ccs, r], false));
    SealType(c, s, ContentType.Handshake, b);
    PlaintextPush(c, t, [ccs, r]);
    ExtendsTransitive(s, t, u);
    ConnectedPush(c, u);
    ExtendsTransitive(s, u, u.Push(JoinerConnected));
  }

  lemma SealType(c: Crypto, s: Session, ty: ContentType, b: Bytes)
    requires s.keys.Some? && Seal(c, s, ty, b).Ok?
    ensures var (t, r) := Seal(c, s, ty, b).value;
            r.header.contentType == ty && t == s.(epoch1 := D.Increment(s.epoch1), protected := s.protected + [r])
  {
    hide Protect;
    var block := s.keys.value.keyBlock;
    ProtectedNonce(c, ty, 1, s.epoch1, block.serverWriteKey, block.serverWriteIv, b);
  }

  lemma ConnectedPush(c: Crypto, s: Session)
    requires Sound(c, s) && s.phase.Connected?
    ensures Keeps(c, s, s.Push(JoinerConnected))
  {
    hide NoData, ServerKeys, VerifyClientFinished, Answered, SealedAs;
    LogPush(c, s, JoinerConnected);
    hide FinalizedCount;
  }

  lemma ConnectedKeeps(c: Crypto, s: Session, m: HandshakeMessage, t: Session, b: Bytes)
    requires Sound(c, s) && 1 <= s.phase.Rank() <= 2 && s.keys.Some? && s.sawChangeCipherSpec && s.error.None?
    requires var keys := s.keys.value;
             var r := VerifyClientFinished(c, s.handshake, m, keys);
             && r.Ok? && BuildServerFinished(c, r.value, 4, keys).Ok? && Seal(c, s, ContentType.Handshake, b).Ok?
             && t == Seal(c, s, ContentType.Handshake, b).value.0.(
                       handshake := BuildServerFinished(c, r.value, 4, keys).value.0, epoch0 := t.epoch0,
                       phase := Connected, verified := FirstVerified(s, m))
    ensures Keeps(c, s, t)
  {
    hide VerifyClientFinished, BuildServerFinished, ServerKeys, Answered, SealedAs, Explained, FinalizedCount, NoData, Seal;
    SealNumbers(c, s, ContentType.Handshake, b);
    SealType(c, s, ContentType.Handshake, b);
    KeysIgnoreTranscript(c, s.handshake, m, 4, s.keys.value);
    KeysIgnoreTranscript(c, VerifyClientFinished(c, s.handshake, m, s.keys.value).value, m, 4, s.keys.value);
    LogLater(c, s, t);
  }

  // ----- The JOIN_FIN response

  /** The pieces of a response that was sent. */
  lemma ResponseShape(c: Crypto, d: Session, request: C.CoapMessage, info: Info) returns (b: Bytes)
    requires d.decision.Some? && Respond(c, d, request, info).Ok?
    ensures d.keys.Some? && C.Encode(JoinFinResponse(request, d.decision.value)) == Ok(b) && Seal(c, d, ApplicationData, b).Ok?
    ensures var (t, r) := Seal(c, d, ApplicationData, b).value;
            var sent := t.(phase := Finalized).Push(Transmit([r], d.decision.value));
            Respond(c, d, request, info)
            == Ok(if d.phase != Finalized then sent.Push(JoinerFinalized(d.decision.value, info)) else sent)
  {
    hide C.Encode, Seal, JoinFinResponse;
    b := C.Encode(JoinFinResponse(request, d.decision.value)).value;
  }

  lemma RespondKeeps(c: Crypto, s: Session, request: C.CoapMessage, info: Info, answer: bool)
    requires Sound(c, s) && s.phase.Rank() >= 2 && s.error.None?
    requires Respond(c, Decide(s, info, answer), request, info).Ok?
    ensures Keeps(c, s, Respond(c, Decide(s, info, answer), request, info).value)
  {
    DecidedWhenFinalized(c, s);
    hide C.Encode, Seal, Keeps, Sound, Respond;
    var d := Decide(s, info, answer);
    var b := ResponseShape(c, d, request, info);
    if s.phase.Finalized? {
      RepeatKeeps(c, s, request, d.decision.value, b);
    } else {
      FirstKeeps(c, s, d, request, info, b);
    }
  }

  lemma DecidedWhenFinalized(c: Crypto, s: Session)
    requires Sound(c, s) && s.phase.Rank() >= 2 && s.error.None?
    ensures s.keys.Some? && (s.phase.Finalized? <==> s.decision.Some?)
  {
    hide Numbered, Logged, ServerKeys, VerifyClientFinished, Answered;
  }

  /** A repeated JOIN_FIN.req gets the same decision. */
  lemma RepeatKeeps(c: Crypto, s: Session, request: C.CoapMessage, accepted: bool, b: Bytes)
    requires Sound(c, s) && s.phase.Finalized? && s.decision == Some(accepted) && s.keys.Some?
    requires C.Encode(JoinFinResponse(request, accepted)) == Ok(b) && Seal(c, s, ApplicationData, b).Ok?
    ensures var (t, r) := Seal(c, s, ApplicationData, b).value;
            Keeps(c, s, t.(phase := Finalized).Push(Transmit([r], accepted)))
  {
    hide C.Encode, Seal, ServerKeys, VerifyClientFinished, Answered, SealedAs, Explained, FinalizedCount, NoData, Open;
    var (t, r) := Seal(c, s, ApplicationData, b).value;
    SealNumbers(c, s, ApplicationData, b);
    SealType(c, s, ApplicationData, b);
    assert t.(phase := Finalized) == t;
    LogLater(c, s, t);
    ResponseExplained(c, t, r, request, accepted);
    LogPush(c, t, Transmit([r], accepted));
  }

  lemma ResponseExplained(c: Crypto, s: Session, r: DtlsRecord, request: C.CoapMessage, accepted: bool)
    requires s.phase.Finalized? && s.keys.Some? && s.decision == Some(accepted)
    requires Carries(c, r, s.keys.value, request, accepted)
    ensures Explained(c, s, Transmit([r], accepted))
  {
    hide Carries;
    var rs := [r];
    assert Carries(c, rs[0], s.keys.value, request, accepted);
  }

  lemma FirstKeeps(c: Crypto, s: Session, d: Session, request: C.CoapMessage, info: Info, b: Bytes)
    requires Sound(c, s) && s.phase.Connected? && s.error.None? && s.keys.Some?
    requires d.decision.Some? && d == s.(decision := d.decision, asked := s.asked + [info])
    requires C.Encode(JoinFinResponse(request, d.decision.value)) == Ok(b) && Seal(c, d, ApplicationData, b).Ok?
    ensures var (t, r) := Seal(c, d, ApplicationData, b).value;
            Keeps(c, s, t.(phase := Finalized).Push(Transmit([r], d.decision.value))
                         .Push(JoinerFinalized(d.decision.value, info)))
  {
    hide C.Encode, Seal, ServerKeys, VerifyClientFinished, Answered, SealedAs, Explained, FinalizedCount, NoData, Open;
    var accepted := d.decision.value;
    var (sealed, r) := Seal(c, d, ApplicationData, b).value;
    SealNumbers(c, d, ApplicationData, b);
    SealType(c, d, ApplicationData, b);
    var t := sealed.(phase := Finalized);
    LogLater(c, s, t);
    ResponseExplained(c, t, r, request, accepted);
    LogPush(c, t, Transmit([r], accepted));
    var u := t.Push(Transmit([r], accepted));
    FinalizedExplained(c, u, accepted, info);
    LogPush(c, u, JoinerFinalized(accepted, info));
  }

  lemma FinalizedExplained(c: Crypto, s: Session, accepted: bool, info: Info)
    requires s.phase.Finalized? && s.decision == Some(accepted) && s.asked == [info]
    ensures Explained(c, s, JoinerFinalized(accepted, info))
  {
  }

  lemma RefusedKeeps(c: Crypto, s: Session, info: Info, answer: bool, e: Error)
    requires Sound(c, s) && s.phase.Rank() >= 2 && s.error.None?
    ensures Keeps(c, s, Decide(s, info, answer).Fail(e))
  {
    hide Explained, ServerKeys, VerifyClientFinished, Answered, SealedAs, FinalizedCount, NoData;
    LogLater(c, s, Decide(s, info, answer).Fail(e));
  }

  // ----- Whole inputs

  lemma SoundKeeps(c: Crypto, s: Session)
    requires Sound(c, s)
    ensures Keeps(c, s, s)
  {
  }

  lemma Chain(c: Crypto, s: Session, t: Session, u: Session)
    requires Keeps(c, s, t) && Keeps(c, t, u)
    ensures Keeps(c, s, u)
  {
    hide Sound;
    ExtendsTransitive(s, t, u);
  }

  lemma FlightKept(c: Crypto, s: Session)
    requires Sound(c, s)
    ensures NoData(s.flight)
  {
    hide Phases, Numbered, NoData, Explained;
  }

  lemma PlaintextKeeps(c: Crypto, s: Session, m: HandshakeMessage, v: nat)
    requires Sound(c, s) && s.handshake.WellSized()
    ensures Keeps(c, s, Settle(s, HandlePlaintext(c, s, m, v)))
  {
    hide AnswerHello, TakeExchange, Keeps, Sound, NoData;
    FlightKept(c, s);
    match HandlePlaintext(c, s, m, v)
    case Err(e) => FailKeeps(c, s, e);
    case Ok(_) =>
      if m.messageType.ClientKeyExchange? {
        ExchangeKeeps(c, s, m);
      } else if s.phase.AwaitingClientHello? {
        AnswerKeeps(c, s, m, v);
      } else {
        PlaintextPush(c, s, s.flight);
      }
  }

  lemma {:induction false} PlaintextsKeep(c: Crypto, s: Session, ms: seq<HandshakeMessage>, v: nat)
    requires Sound(c, s) && s.handshake.WellSized()
    ensures Keeps(c, s, HandlePlaintexts(c, s, ms, v))
    decreases |ms|
  {
    if s.error.Some? || ms == [] {
      SoundKeeps(c, s);
    } else {
      hide HandlePlaintext, Extends;
      KeepsSize(c, s, ms[0], v);
      var t := Settle(s, HandlePlaintext(c, s, ms[0], v));
      PlaintextKeeps(c, s, ms[0], v);
      PlaintextsKeep(c, t, ms[1..], v);
      Chain(c, s, t, HandlePlaintexts(c, t, ms[1..], v));
    }
  }

  lemma {:induction false} FinishedMessagesKeep(c: Crypto, s: Session, ms: seq<HandshakeMessage>)
    requires Sound(c, s) && 1 <= s.phase.Rank() <= 2 && s.keys.Some? && s.sawChangeCipherSpec
    ensures Keeps(c, s, TakeFinishedMessages(c, s, ms))
    decreases |ms|
  {
    hide TakeFinished, Sound, Extends;
    if s.error.Some? || ms == [] {
      SoundKeeps(c, s);
    } else if ms[0].messageType != Finished {
      FinishedMessagesKeep(c, s, ms[1..]);
    } else {
      KeepsKeys(c, s, ms[0]);
      match TakeFinished(c, s, ms[0])
      case Err(e) =>
        FailKeeps(c, s, e);
      case Ok(t) =>
        FinishedKeeps(c, s, ms[0]);
        StillChanged(s, t);
        FinishedMessagesKeep(c, t, ms[1..]);
        Chain(c, s, t, TakeFinishedMessages(c, t, ms[1..]));
    }
  }

  lemma StillChanged(s: Session, t: Session)
    requires Extends(s, t) && s.sawChangeCipherSpec
    ensures t.sawChangeCipherSpec
  {
  }

  lemma EncryptedKeeps(c: Crypto, s: Session, r: DtlsRecord)
    requires Sound(c, s)
    ensures Keeps(c, s, HandleEncrypted(c, s, r))
  {
    hide Open, NewRecord, RecordMessages, TakeFinishedMessages, Sound, Extends;
    if s.phase != AwaitingClientFlight {
      SoundKeeps(c, s);
    } else if !s.sawChangeCipherSpec {
      FailKeeps(c, s, Error.Crypto);
    } else {
      match OpenedMessages(c, s, r)
      case Err(e) => FailKeeps(c, s, e);
      case Ok(ms) => FinishedMessagesKeep(c, s, ms);
    }
  }

  lemma DataKeeps(env: Env, s: Session, r: DtlsRecord, answer: bool)
    requires Sound(env.c, s) && s.error.None?
    ensures Keeps(env.c, s, HandleData(env, s, r, answer))
  {
    hide OpenedRequest, Respond, Decide, Sound, Extends;
    var c := env.c;
    if s.phase.Rank() < Connected.Rank() {
      FailKeeps(c, s, Error.Crypto);
    } else {
      match OpenedRequest(env, s, r)
      case Err(e) =>
        FailKeeps(c, s, e);
      case Ok((request, path)) =>
        if path != Some(JOIN_FIN) {
          SoundKeeps(c, s);
        } else {
          match env.parseJoinFin(request.payload)
          case Err(e) =>
            FailKeeps(c, s, e);
          case Ok(info) =>
            match Respond(c, Decide(s, info, answer), request, info)
            case Err(e) => RefusedKeeps(c, s, info, answer, e);
            case Ok(t) => RespondKeeps(c, s, request, info, answer);
        }
    }
  }

  lemma RecordKeeps(env: Env, s: Session, r: DtlsRecord, input: Input)
    requires Sound(env.c, s) && s.handshake.WellSized() && s.error.None?
    ensures Keeps(env.c, s, HandleRecord(env, s, r, input))
  {
    hide RecordMessages, HandlePlaintexts, HandleEncrypted, HandleData, Sound, Extends;
    var c := env.c;
    match (r.header.epoch, r.header.contentType)
    case (0, Handshake) => {
      match RecordMessages(r)
      case Err(e) => FailKeeps(c, s, e);
      case Ok(ms) => PlaintextsKeep(c, s, ms, input.v);
    }
    case (0, ChangeCipherSpec) =>
      FailKeeps(c, s, Error.Crypto);
      ChangeCipherSpecKeeps(c, s);
    case (1, Handshake) => EncryptedKeeps(c, s, r);
    case (1, ApplicationData) => DataKeeps(env, s, r, input.answer);
    case (_, Alert) => FailKeeps(c, s, Error.Crypto);
    case _ => SoundKeeps(c, s);
  }

  lemma {:induction false} RecordsKeep(env: Env, s: Session, rs: seq<DtlsRecord>, input: Input)
    requires Sound(env.c, s) && s.handshake.WellSized()
    ensures Keeps(env.c, s, HandleRecords(env, s, rs, input))
    decreases |rs|
  {
    hide HandleRecord, Sound, Extends;
    if s.error.Some? || rs == [] {
      SoundKeeps(env.c, s);
    } else {
      var t := HandleRecord(env, s, rs[0], input);
      RecordKeeps(env, s, rs[0], input);
      RecordsKeep(env, t, rs[1..], input);
      Chain(env.c, s, t, HandleRecords(env, t, rs[1..], input));
    }
  }

  lemma ReceiveKeeps(env: Env, s: Session, input: Input)
    requires Sound(env.c, s) && s.handshake.WellSized()
    ensures Keeps(env.c, s, Receive(env, s, input))
  {
    hide HandleRecords, Sound, Extends, ParseDatagram;
    match ParseDatagram(input.datagram)
    case Err(e) => FailKeeps(env.c, s, e);
    case Ok(rs) => RecordsKeep(env, s, rs, input);
  }

  lemma NewIsSound(c: Crypto, cfg: D.Config)
    ensures Sound(c, NewSession(c, cfg))
  {
    hide ServerKeys, VerifyClientFinished, Answered;
  }

  lemma {:induction false} RunIsSound(env: Env, cfg: D.Config, inputs: seq<Input>)
    ensures Sound(env.c, Run(env, cfg, inputs))
  {
    hide Sound, Extends, Receive, NewSession;
    if inputs == [] {
      NewIsSound(env.c, cfg);
    } else {
      var n := |inputs| - 1;
      RunIsSound(env, cfg, inputs[..n]);
      ReceiveKeeps(env, Run(env, cfg, inputs[..n]), inputs[n]);
    }
  }

  // ----- The session over every run

  /** Phases never move back; from Connected on the key material is present and
      frozen; a decision, once made, stays; and no event is taken back. */
  lemma {:induction false} NeverMovesBack(env: Env, cfg: D.Config, inputs: seq<Input>, k: nat)
    requires k <= |inputs|
    ensures Extends(Run(env, cfg, inputs[..k]), Run(env, cfg, inputs))
    decreases |inputs|
  {
    hide Sound, Extends, Receive, NewSession;
    var n := |inputs| - 1;
    if k == |inputs| {
      assert inputs[..k] == inputs;
      RunIsSound(env, cfg, inputs);
      SoundKeeps(env.c, Run(env, cfg, inputs));
    } else {
      NeverMovesBack(env, cfg, inputs[..n], k);
      assert inputs[..n][..k] == inputs[..k];
      var s, t := Run(env, cfg, inputs[..n]), Run(env, cfg, inputs);
      RunIsSound(env, cfg, inputs[..n]);
      ReceiveKeeps(env, s, inputs[n]);
      SoundKeeps(env.c, s);
      ExtendsTransitive(Run(env, cfg, inputs[..k]), s, t);
    }
  }

  /** The handler is asked at most once and JOINER_FINALIZED is emitted at most
      once, whatever arrives. */
  lemma DecidedOnce(env: Env, cfg: D.Config, inputs: seq<Input>)
    ensures var s := Run(env, cfg, inputs);
            && |s.asked| <= 1 && FinalizedCount(s.events) <= 1
            && (s.decision.Some? <==> |s.asked| == 1)
            && forall e :: e in s.events && e.JoinerFinalized? ==> s.decision == Some(e.accepted) && s.asked == [e.info]
  {
    hide Receive, NewSession, Authenticated, Answered, FinalizedCount, Carries, NoData;
    RunIsSound(env, cfg, inputs);
  }

  /** The response on the wire: an acknowledgement 2.04 that repeats the message ID
      and the token, with a State TLV of 1 or 0xff. */
  lemma ResponseWire(q: C.CoapMessage, accepted: bool)
    requires |q.token| <= 8
    ensures C.Encode(JoinFinResponse(q, accepted))
         == Ok([0x60 + |q.token|, 0x44] + BigEndian(q.messageId, 2) + q.token + [0xff, 16, 1, if accepted then 1 else 0xff])
  {
    hide BigEndian;
    assert C.Ordered(0, C.StableSort([])) && C.EncodeOptions(0, C.StableSort([])) == Ok([]);
    var head: Bytes := [0x60 + |q.token|, 0x44] + BigEndian(q.messageId, 2) + q.token;
    assert head + [] == head;
    assert [C.PAYLOAD_MARKER] + StatePayload(accepted) == [0xff, 16, 1, if accepted then 1 else 0xff];
  }

  /** A response on the wire tells its decision and the request it answers. */
  lemma ResponseTellsDecision(q1: C.CoapMessage, a1: bool, q2: C.CoapMessage, a2: bool)
    requires |q1.token| <= 8 && |q2.token| <= 8
    requires C.Encode(JoinFinResponse(q1, a1)) == C.Encode(JoinFinResponse(q2, a2))
    ensures a1 == a2 && q1.messageId == q2.messageId && q1.token == q2.token
  {
    hide C.Encode, C.Decode;
    var r1, r2 := JoinFinResponse(q1, a1), JoinFinResponse(q2, a2);
    C.DecodeEncode(r1);
    C.DecodeEncode(r2);
    assert r1.payload[2] == if a1 then STATE_ACCEPT else STATE_REJECT;
    assert r2.payload[2] == if a2 then STATE_ACCEPT else STATE_REJECT;
  }

  /** Only JOIN_FIN responses carrying the one decision are sent as application
      data, and the KEK goes with exactly the accepting ones. */
  lemma ResponseDecision(env: Env, cfg: D.Config, inputs: seq<Input>, e: Event)
    requires e in Run(env, cfg, inputs).events && e.Transmit?
    requires e.includeKek || !NoData(e.records)
    ensures var s := Run(env, cfg, inputs);
            s.phase.Finalized? && s.keys.Some? && s.decision == Some(e.includeKek) && !NoData(e.records)
  {
    hide Receive, NewSession, Authenticated, Answered, FinalizedCount;
    RunIsSound(env, cfg, inputs);
    assert Explained(env.c, Run(env, cfg, inputs), e);
    assert |e.records| == 1 ==> e.records[0] in e.records;
  }

  /** No two records sealed by a session share a nonce under its write key. */
  lemma JoinerNoncesDistinct(env: Env, cfg: D.Config, inputs: seq<Input>, i: nat, j: nat)
    requires i < j < |Run(env, cfg, inputs).protected|
    ensures var s := Run(env, cfg, inputs);
            && s.keys.Some? && s.protected[i].header.sequence == i && s.protected[j].header.sequence == j
            && var iv := s.keys.value.keyBlock.serverWriteIv;
               && |s.protected[i].payload| >= EXPLICIT_NONCE_LEN && |s.protected[j].payload| >= EXPLICIT_NONCE_LEN
               && RecordNonce(s.protected[i], iv) != RecordNonce(s.protected[j], iv)
  {
    hide Receive, NewSession, Phases, Logged, Nonce, RecordNonce;
    RunIsSound(env, cfg, inputs);
    var s := Run(env, cfg, inputs);
    assert SealedAs(s.protected[i], s.keys.value, i) && SealedAs(s.protected[j], s.keys.value, j);
    S.DistinctNonces(s.keys.value.keyBlock.serverWriteIv, i, j);
  }
}
