/** What must have arrived before a joiner session connects or answers, over
    every sequence of inputs. */
module JoinerEvidence {
  import opened Bytes
  import opened Primitives
  import opened Record
  import opened RecordProtection
  import opened KeySchedule
  import opened Handshake
  import opened ThreadHandshake
  import opened Joiner
  import opened JoinerSafety
  import A = AcceptorSafety
  import EJ = EcJpake
  import H = Hello
  import C = Coap
  import D = ServerDriver

  // ----- The records that arrived

  /** A received record and the input whose datagram held it. */
  datatype Seen = Seen(record: DtlsRecord, input: Input)

  function Tag(rs: seq<DtlsRecord>, input: Input): seq<Seen> {
    if rs == [] then [] else [Seen(rs[0], input)] + Tag(rs[1..], input)
  }

  function SeenIn(input: Input): seq<Seen> {
    match ParseDatagram(input.datagram)
    case Ok(rs) => Tag(rs, input)
    case Err(_) => []
  }

  /** All records of the inputs, in order; a datagram that does not parse has
      none. */
  function Trace(inputs: seq<Input>): seq<Seen> {
    if inputs == [] then [] else Trace(inputs[..|inputs| - 1]) + SeenIn(inputs[|inputs| - 1])
  }

  // ----- Evidence in a trace

  ghost predicate Heard(tr: seq<Seen>, m: HandshakeMessage) {
    exists k :: 0 <= k < |tr| && A.CarriesMessage(tr[k].record, m)
  }

  /** The hello arrived with an input whose randomness is `v`. */
  ghost predicate HeardHello(tr: seq<Seen>, m: HandshakeMessage, v: nat) {
    exists k :: 0 <= k < |tr| && A.CarriesMessage(tr[k].record, m) && tr[k].input.v == v
  }

  ghost predicate Changed(tr: seq<Seen>) {
    exists k :: 0 <= k < |tr| && A.IsChangeCipherSpec(tr[k].record)
  }

  /** `hs` is the handshake reached from a fresh one by the flight for a received
      hello that echoed its cookie and then the received key exchanges `ms`. */
  ghost predicate Reached(c: Crypto, cfg: D.Config, tr: seq<Seen>, hello: HandshakeMessage, v: nat,
                          ms: seq<HandshakeMessage>, hs: ServerState) {
    && A.EchoedCookie(c, cfg, hello) && HeardHello(tr, hello, v)
    && (forall m :: m in ms ==> m.messageType == ClientKeyExchange && Heard(tr, m))
    && A.AfterExchanges(c, cfg.(v3 := v), hello, ms) == Ok(hs)
  }

  /** What a record of epoch 1 opens to under the client write key. */
  function OpenedUnder(c: Crypto, keys: KeyMaterial, r: DtlsRecord): Result<seq<HandshakeMessage>> {
    var plaintext :- Open(c, r, keys.keyBlock.clientWriteKey, keys.keyBlock.clientWriteIv);
    var plain :- NewRecord(ContentType.Handshake, 1, 0, plaintext);
    RecordMessages(plain)
  }

  ghost predicate OpensTo(c: Crypto, keys: KeyMaterial, r: DtlsRecord, m: HandshakeMessage) {
    && r.header.epoch == 1 && r.header.contentType == ContentType.Handshake && m.messageType == Finished
    && OpenedUnder(c, keys, r).Ok? && m in OpenedUnder(c, keys, r).value
  }

  /** The j-th record authenticated the joiner: it opens under `keys` to a
      Finished `m`; before it came the hello, at least one ClientKeyExchange and
      a ChangeCipherSpec; the handshake they reach derives `keys`, and `m` holds
      the client's Finished data over its transcript. */
  ghost predicate Authenticates(c: Crypto, cfg: D.Config, tr: seq<Seen>, j: nat, hello: HandshakeMessage,
                                hs: ServerState, m: HandshakeMessage, keys: KeyMaterial) {
    && j < |tr| && OpensTo(c, keys, tr[j].record, m) && Changed(tr[..j])
    && (exists v, ms :: ms != [] && Reached(c, cfg, tr[..j], hello, v, ms, hs))
    && ServerKeys(c, hs) == Ok(keys) && IsFinished(c, keys.masterSecret, EJ.Client, hs.transcript, m.payload)
  }

  // ----- The evidence a session rests on

  ghost predicate Flown(c: Crypto, cfg: D.Config, tr: seq<Seen>, s: Session) {
    && s.hello.Some?
    && (s.keys.Some? ==> ServerKeys(c, s.handshake) == Ok(s.keys.value))
    && exists v, ms :: Reached(c, cfg, tr, s.hello.value, v, ms, s.handshake) && (s.keys.Some? ==> ms != [])
  }

  ghost predicate Proven(c: Crypto, cfg: D.Config, tr: seq<Seen>, s: Session) {
    && s.hello.Some? && s.keys.Some? && s.verified.Some?
    && exists j :: Authenticates(c, cfg, tr, j, s.hello.value, s.verified.value.0, s.verified.value.1, s.keys.value)
  }

  ghost predicate Evident(c: Crypto, cfg: D.Config, tr: seq<Seen>, s: Session) {
    && s.cookieKey == cfg.cookieKey && (s.sawChangeCipherSpec ==> Changed(tr))
    && (s.phase.Rank() == 0 ==> s.handshake == cfg.NewHandshake(c) && s.keys.None?)
    && (s.phase.Rank() < 2 ==> s.verified.None?)
    && (s.phase.Rank() == 1 ==> Flown(c, cfg, tr, s))
    && (s.phase.Rank() >= 2 ==> Proven(c, cfg, tr, s))
  }

  // ----- Evidence only accumulates

  lemma HeardMore(tr: seq<Seen>, more: seq<Seen>, m: HandshakeMessage)
    ensures Heard(tr, m) ==> Heard(tr + more, m)
  {
    hide A.CarriesMessage;
    if k :| 0 <= k < |tr| && A.CarriesMessage(tr[k].record, m) {
      assert (tr + more)[k] == tr[k];
    }
  }

  lemma HelloMore(tr: seq<Seen>, more: seq<Seen>, m: HandshakeMessage, v: nat)
    ensures HeardHello(tr, m, v) ==> HeardHello(tr + more, m, v)
  {
    hide A.CarriesMessage;
    if k :| 0 <= k < |tr| && A.CarriesMessage(tr[k].record, m) && tr[k].input.v == v {
      assert (tr + more)[k] == tr[k];
    }
  }

  lemma ChangedMore(tr: seq<Seen>, more: seq<Seen>)
    ensures Changed(tr) ==> Changed(tr + more)
  {
    hide A.IsChangeCipherSpec;
    if k :| 0 <= k < |tr| && A.IsChangeCipherSpec(tr[k].record) {
      assert (tr + more)[k] == tr[k];
    }
  }

  lemma ReachedMore(c: Crypto, cfg: D.Config, tr: seq<Seen>, more: seq<Seen>, hello: HandshakeMessage, v: nat,
                    ms: seq<HandshakeMessage>, hs: ServerState)
    requires Reached(c, cfg, tr, hello, v, ms, hs)
    ensures Reached(c, cfg, tr + more, hello, v, ms, hs)
  {
    hide Heard, HeardHello, A.EchoedCookie, A.AfterExchanges;
    HelloMore(tr, more, hello, v);
    forall m | m in ms ensures Heard(tr + more, m) {
      HeardMore(tr, more, m);
    }
  }

  lemma AuthenticatesMore(c: Crypto, cfg: D.Config, tr: seq<Seen>, more: seq<Seen>, j: nat, hello: HandshakeMessage,
                          hs: ServerState, m: HandshakeMessage, keys: KeyMaterial)
    requires Authenticates(c, cfg, tr, j, hello, hs, m, keys)
    ensures Authenticates(c, cfg, tr + more, j, hello, hs, m, keys)
  {
    hide OpensTo, Changed, Reached, ServerKeys, VerifyClientFinished;
    assert (tr + more)[..j] == tr[..j] && (tr + more)[j] == tr[j];
  }

  lemma EvidentMore(c: Crypto, cfg: D.Config, tr: seq<Seen>, more: seq<Seen>, s: Session)
    requires Evident(c, cfg, tr, s)
    ensures Evident(c, cfg, tr + more, s)
  {
    hide Reached, Authenticates, Changed, ServerKeys;
    ChangedMore(tr, more);
    if s.phase.Rank() == 1 {
      var v, ms :| Reached(c, cfg, tr, s.hello.value, v, ms, s.handshake) && (s.keys.Some? ==> ms != []);
      ReachedMore(c, cfg, tr, more, s.hello.value, v, ms, s.handshake);
    } else if s.phase.Rank() >= 2 {
      var j :| Authenticates(c, cfg, tr, j, s.hello.value, s.verified.value.0, s.verified.value.1, s.keys.value);
      AuthenticatesMore(c, cfg, tr, more, j, s.hello.value, s.verified.value.0, s.verified.value.1, s.keys.value);
    }
  }

  /** The parts of a session that the evidence speaks of. */
  predicate SameGround(s: Session, t: Session) {
    && t.phase.Rank() == s.phase.Rank() && t.cookieKey == s.cookieKey && t.sawChangeCipherSpec == s.sawChangeCipherSpec
    && t.handshake == s.handshake && t.keys == s.keys && t.hello == s.hello && t.verified == s.verified
  }

  lemma EvidentSame(c: Crypto, cfg: D.Config, tr: seq<Seen>, s: Session, t: Session)
    requires Evident(c, cfg, tr, s)
    requires SameGround(s, t)
    ensures Evident(c, cfg, tr, t)
  {
    hide Reached, Authenticates, Changed, ServerKeys;
  }

  // ----- Plaintext records

  lemma FlightEvident(c: Crypto, cfg: D.Config, tr: seq<Seen>, x: Seen, s: Session, m: HandshakeMessage)
    requires Evident(c, cfg, tr, s) && s.phase.AwaitingClientHello? && s.handshake.WellSized()
    requires x in tr && A.CarriesMessage(x.record, m) && A.EchoedCookie(c, cfg, m)
    requires SendFlight(c, s, m, x.input.v).Ok?
    ensures Evident(c, cfg, tr, SendFlight(c, s, m, x.input.v).value)
  {
    hide ServerFlight, D.FlightRecords, A.EchoedCookie, A.CarriesMessage, Changed, D.Increment;
    var t := SendFlight(c, s, m, x.input.v).value;
    var v, ms: seq<HandshakeMessage> := x.input.v, [];
    assert A.AfterExchanges(c, cfg.(v3 := v), m, ms) == Ok(t.handshake);
    assert HeardHello(tr, m, v);
    assert Reached(c, cfg, tr, m, v, ms, t.handshake);
  }

  lemma ExchangeEvident(c: Crypto, cfg: D.Config, tr: seq<Seen>, x: Seen, s: Session, m: HandshakeMessage)
    requires Evident(c, cfg, tr, s) && s.phase.AwaitingClientFlight?
    requires x in tr && A.CarriesMessage(x.record, m) && m.messageType == ClientKeyExchange
    requires TakeExchange(c, s, m).Ok?
    ensures Evident(c, cfg, tr, TakeExchange(c, s, m).value)
  {
    hide HandleClientKeyExchange, ServerKeys, A.EchoedCookie, A.CarriesMessage, Changed, HeardHello, ServerFlight;
    var t := TakeExchange(c, s, m).value;
    var hello := s.hello.value;
    var v, ms :| Reached(c, cfg, tr, hello, v, ms, s.handshake) && (s.keys.Some? ==> ms != []);
    var next := ms + [m];
    assert next[..|next| - 1] == ms && next[|next| - 1] == m;
    assert Heard(tr, m);
    assert Reached(c, cfg, tr, hello, v, next, t.handshake);
  }

  lemma PlaintextEvident(c: Crypto, cfg: D.Config, tr: seq<Seen>, x: Seen, s: Session, m: HandshakeMessage)
    requires Evident(c, cfg, tr, s) && s.handshake.WellSized()
    requires x in tr && A.CarriesMessage(x.record, m)
    ensures Evident(c, cfg, tr, Settle(s, HandlePlaintext(c, s, m, x.input.v)))
  {
    hide Evident, SendFlight, DemandCookie, TakeExchange, A.CarriesMessage, CookieVerifies;
    var r := HandlePlaintext(c, s, m, x.input.v);
    var t := Settle(s, r);
    if r.Err? {
      EvidentSame(c, cfg, tr, s, t);
    } else if m.messageType == ClientKeyExchange {
      ExchangeEvident(c, cfg, tr, x, s, m);
    } else if s.phase.AwaitingClientFlight? {
      EvidentSame(c, cfg, tr, s, t);
    } else {
      HelloEvident(c, cfg, tr, x, s, m);
    }
  }

  lemma HelloEvident(c: Crypto, cfg: D.Config, tr: seq<Seen>, x: Seen, s: Session, m: HandshakeMessage)
    requires Evident(c, cfg, tr, s) && s.handshake.WellSized() && s.phase.AwaitingClientHello?
    requires x in tr && A.CarriesMessage(x.record, m) && m.messageType == ClientHello
    requires AnswerHello(c, s, m, x.input.v).Ok?
    ensures Evident(c, cfg, tr, AnswerHello(c, s, m, x.input.v).value)
  {
    assert s.cookieKey == cfg.cookieKey;
    hide Evident, SendFlight, DemandCookie, A.CarriesMessage, H.DecodeClientHello;
    var hello := H.DecodeClientHello(m.payload).value;
    if CookieVerifies(c, s.cookieKey, hello) {
      FlightEvident(c, cfg, tr, x, s, m);
    } else {
      DemandGround(c, s, m, hello.random);
      EvidentSame(c, cfg, tr, s, DemandCookie(c, s, m, hello.random).value);
    }
  }

  lemma DemandGround(c: Crypto, s: Session, m: HandshakeMessage, random: H.Random)
    ensures var r := DemandCookie(c, s, m, random); r.Ok? ==> SameGround(s, r.value)
  {
    hide D.VerifyRequest, D.PlaintextRecord;
  }

  lemma {:induction false} PlaintextsEvident(c: Crypto, cfg: D.Config, tr: seq<Seen>, x: Seen, s: Session, ms: seq<HandshakeMessage>)
    requires Evident(c, cfg, tr, s) && s.handshake.WellSized()
    requires x in tr && forall m :: m in ms ==> A.CarriesMessage(x.record, m)
    ensures Evident(c, cfg, tr, HandlePlaintexts(c, s, ms, x.input.v))
    decreases |ms|
  {
    hide Evident, HandlePlaintext, A.CarriesMessage;
    if s.error.None? && ms != [] {
      KeepsSize(c, s, ms[0], x.input.v);
      PlaintextEvident(c, cfg, tr, x, s, ms[0]);
      PlaintextsEvident(c, cfg, tr, x, Settle(s, HandlePlaintext(c, s, ms[0], x.input.v)), ms[1..]);
    }
  }

  // ----- The Finished

  /** What a successful Finished leaves of the ground. */
  lemma FinishedGround(c: Crypto, s: Session, m: HandshakeMessage)
    requires s.keys.Some? && TakeFinished(c, s, m).Ok?
    ensures var t := TakeFinished(c, s, m).value;
            && t.phase.Connected? && t.cookieKey == s.cookieKey && t.sawChangeCipherSpec == s.sawChangeCipherSpec
            && t.keys == s.keys && t.hello == s.hello && t.verified == FirstVerified(s, m) && t.error == s.error
            && VerifyClientFinished(c, s.handshake, m, s.keys.value).Ok?
  {
    hide VerifyClientFinished, BuildServerFinished, EncodeMessage, Protect, NewRecord, D.Increment;
  }

  /** The first Finished of a record turns the evidence for the flight into proof. */
  lemma FinishedEvident(c: Crypto, cfg: D.Config, tr: seq<Seen>, x: Seen, s: Session, m: HandshakeMessage)
    requires Evident(c, cfg, tr, s) && s.phase.AwaitingClientFlight? && s.keys.Some? && s.sawChangeCipherSpec
    requires OpensTo(c, s.keys.value, x.record, m) && TakeFinished(c, s, m).Ok?
    ensures Evident(c, cfg, tr + [x], TakeFinished(c, s, m).value)
  {
    hide TakeFinished, OpensTo, Reached, ServerKeys, VerifyClientFinished, IsFinished, Changed;
    FinishedGround(c, s, m);
    ClientFinishedExact(c, s.handshake, m, s.keys.value);
    ChangedMore(tr, [x]);
    var j, all := |tr|, tr + [x];
    assert all[..j] == tr && all[j] == x;
    assert Authenticates(c, cfg, all, j, s.hello.value, s.handshake, m, s.keys.value);
  }

  lemma {:induction false} FinishedMessagesEvident(c: Crypto, cfg: D.Config, tr: seq<Seen>, x: Seen, s: Session, ms: seq<HandshakeMessage>)
    requires s.keys.Some? && s.sawChangeCipherSpec && s.error.None?
    requires if s.phase.Connected? then Evident(c, cfg, tr + [x], s) else s.phase.AwaitingClientFlight? && Evident(c, cfg, tr, s)
    requires forall m :: m in ms && m.messageType == Finished ==> OpensTo(c, s.keys.value, x.record, m)
    ensures Evident(c, cfg, tr + [x], TakeFinishedMessages(c, s, ms))
    decreases |ms|
  {
    hide Evident, TakeFinished, OpensTo;
    if ms == [] {
      if !s.phase.Connected? {
        EvidentMore(c, cfg, tr, [x], s);
      }
    } else if ms[0].messageType != Finished {
      FinishedMessagesEvident(c, cfg, tr, x, s, ms[1..]);
    } else {
      KeepsKeys(c, s, ms[0]);
      match TakeFinished(c, s, ms[0])
      case Err(e) =>
        if !s.phase.Connected? {
          EvidentMore(c, cfg, tr, [x], s);
        }
        EvidentSame(c, cfg, tr + [x], s, s.Fail(e));
      case Ok(t) =>
        FinishedGround(c, s, ms[0]);
        if s.phase.Connected? {
          RepeatedEvident(c, cfg, tr + [x], s, t);
        } else {
          FinishedEvident(c, cfg, tr, x, s, ms[0]);
        }
        FinishedMessagesEvident(c, cfg, tr, x, t, ms[1..]);
    }
  }

  /** A further Finished of the same record changes nothing that was proven. */
  lemma RepeatedEvident(c: Crypto, cfg: D.Config, tr: seq<Seen>, s: Session, t: Session)
    requires Evident(c, cfg, tr, s) && s.phase.Connected? && t.phase.Connected?
    requires t.cookieKey == s.cookieKey && t.sawChangeCipherSpec == s.sawChangeCipherSpec
    requires t.keys == s.keys && t.hello == s.hello && (s.verified.Some? ==> t.verified == s.verified)
    ensures Evident(c, cfg, tr, t)
  {
    hide Authenticates, Changed;
  }

  lemma EncryptedEvident(c: Crypto, cfg: D.Config, tr: seq<Seen>, x: Seen, s: Session)
    requires Evident(c, cfg, tr, s) && s.error.None?
    requires x.record.header.epoch == 1 && x.record.header.contentType == ContentType.Handshake
    ensures Evident(c, cfg, tr + [x], HandleEncrypted(c, s, x.record))
  {
    hide Evident, Open, NewRecord, RecordMessages, TakeFinishedMessages;
    EvidentMore(c, cfg, tr, [x], s);
    var t := HandleEncrypted(c, s, x.record);
    if s.phase.AwaitingClientFlight? && s.sawChangeCipherSpec && OpenedMessages(c, s, x.record).Ok? {
      FinishedMessagesEvident(c, cfg, tr, x, s, OpenedMessages(c, s, x.record).value);
    } else {
      EvidentSame(c, cfg, tr + [x], s, t);
    }
  }

  // ----- Whole runs

  lemma RespondGround(c: Crypto, s: Session, request: C.CoapMessage, info: Info)
    requires s.decision.Some?
    ensures var r := Respond(c, s, request, info);
            r.Ok? ==> r.value.phase.Finalized? && SameGround(s.(phase := Finalized), r.value)
  {
    hide C.Encode, Protect, D.Increment;
  }

  lemma DataGround(env: Env, s: Session, r: DtlsRecord, answer: bool)
    ensures var t := HandleData(env, s, r, answer);
            SameGround(s, t) || (s.phase.Rank() >= 2 && t.phase.Finalized? && SameGround(s.(phase := Finalized), t))
  {
    hide OpenedRequest, Respond;
    match OpenedRequest(env, s, r)
    case Err(_) =>
    case Ok((request, _)) =>
      match env.parseJoinFin(request.payload)
      case Err(_) =>
      case Ok(info) => RespondGround(env.c, Decide(s, info, answer), request, info);
  }

  lemma DataEvident(env: Env, cfg: D.Config, tr: seq<Seen>, s: Session, r: DtlsRecord, answer: bool)
    requires Evident(env.c, cfg, tr, s)
    ensures Evident(env.c, cfg, tr, HandleData(env, s, r, answer))
  {
    hide HandleData, Authenticates, Changed, Reached, ServerKeys;
    DataGround(env, s, r, answer);
  }

  lemma RecordEvident(env: Env, cfg: D.Config, tr: seq<Seen>, s: Session, x: Seen)
    requires Evident(env.c, cfg, tr, s) && s.handshake.WellSized() && s.error.None?
    ensures Evident(env.c, cfg, tr + [x], HandleRecord(env, s, x.record, x.input))
  {
    hide Evident, RecordMessages, HandlePlaintexts, HandleEncrypted, HandleData;
    var c, all := env.c, tr + [x];
    EvidentMore(c, cfg, tr, [x], s);
    match (x.record.header.epoch, x.record.header.contentType)
    case (0, Handshake) => {
      match RecordMessages(x.record)
      case Err(e) => EvidentSame(c, cfg, all, s, s.Fail(e));
      case Ok(ms) =>
        assert all[|tr|] == x;
        PlaintextsEvident(c, cfg, all, x, s, ms);
    }
    case (0, ChangeCipherSpec) =>
      EvidentSame(c, cfg, all, s, s.Fail(Error.Crypto));
      if x.record.payload == [1] {
        ChangeEvident(c, cfg, tr, x, s);
      }
    case (1, Handshake) => EncryptedEvident(c, cfg, tr, x, s);
    case (1, ApplicationData) => DataEvident(env, cfg, all, s, x.record, x.input.answer);
    case (_, Alert) => EvidentSame(c, cfg, all, s, s.Fail(Error.Crypto));
    case _ =>
  }

  lemma ChangeEvident(c: Crypto, cfg: D.Config, tr: seq<Seen>, x: Seen, s: Session)
    requires Evident(c, cfg, tr + [x], s) && A.IsChangeCipherSpec(x.record)
    ensures Evident(c, cfg, tr + [x], s.(sawChangeCipherSpec := true))
  {
    hide Authenticates, Reached, ServerKeys, A.IsChangeCipherSpec;
    assert (tr + [x])[|tr|] == x;
  }

  lemma {:induction false} RecordsEvident(env: Env, cfg: D.Config, tr: seq<Seen>, s: Session, rs: seq<DtlsRecord>, input: Input)
    requires Evident(env.c, cfg, tr, s) && s.handshake.WellSized()
    ensures Evident(env.c, cfg, tr + Tag(rs, input), HandleRecords(env, s, rs, input))
    decreases |rs|
  {
    hide Evident, HandleRecord;
    if s.error.Some? || rs == [] {
      EvidentMore(env.c, cfg, tr, Tag(rs, input), s);
    } else {
      var x := Seen(rs[0], input);
      RecordEvident(env, cfg, tr, s, x);
      RecordsEvident(env, cfg, tr + [x], HandleRecord(env, s, rs[0], input), rs[1..], input);
      assert tr + Tag(rs, input) == tr + [x] + Tag(rs[1..], input);
    }
  }

  lemma NewEvident(c: Crypto, cfg: D.Config)
    ensures Evident(c, cfg, [], NewSession(c, cfg))
  {
  }

  lemma ReceiveEvident(env: Env, cfg: D.Config, tr: seq<Seen>, s: Session, input: Input)
    requires Evident(env.c, cfg, tr, s) && s.handshake.WellSized()
    ensures Evident(env.c, cfg, tr + SeenIn(input), Receive(env, s, input))
  {
    hide Evident, HandleRecords, ParseDatagram;
    match ParseDatagram(input.datagram)
    case Err(e) =>
      assert tr + [] == tr;
      EvidentSame(env.c, cfg, tr, s, s.Fail(e));
    case Ok(rs) => RecordsEvident(env, cfg, tr, s, rs, input);
  }

  lemma {:induction false} RunEvident(env: Env, cfg: D.Config, inputs: seq<Input>)
    ensures Evident(env.c, cfg, Trace(inputs), Run(env, cfg, inputs))
  {
    hide Evident, Receive, SeenIn, NewSession;
    if inputs == [] {
      NewEvident(env.c, cfg);
    } else {
      var n := |inputs| - 1;
      RunEvident(env, cfg, inputs[..n]);
      var s, tr := Run(env, cfg, inputs[..n]), Trace(inputs[..n]);
      EvidentMore(env.c, cfg, tr, SeenIn(inputs[n]), s);
      ReceiveEvident(env, cfg, tr, s, inputs[n]);
    }
  }

  /** A connected session was authenticated by what it received: one record of
      the inputs opens under the session's keys to a Finished that verifies in the
      handshake reached by a hello that echoed the cookie for its own random and at
      least one ClientKeyExchange; that handshake derives those keys, and the
      hello, the exchanges and a ChangeCipherSpec came in earlier records. */
  lemma ConnectedIsAuthenticated(env: Env, cfg: D.Config, inputs: seq<Input>)
    requires Run(env, cfg, inputs).phase.Rank() >= 2
    ensures Proven(env.c, cfg, Trace(inputs), Run(env, cfg, inputs))
  {
    hide Run, Trace, Proven, Flown, Changed;
    RunEvident(env, cfg, inputs);
  }

  // ----- The requests that were answered

  /** The k-th record is application data that opens to a JOIN_FIN request. */
  ghost predicate RequestAt(env: Env, tr: seq<Seen>, k: nat, s: Session, request: C.CoapMessage) {
    && k < |tr| && tr[k].record.header.epoch == 1 && tr[k].record.header.contentType == ApplicationData
    && s.keys.Some? && OpenedRequest(env, s, tr[k].record) == Ok((request, Some(JOIN_FIN)))
  }

  /** The datagram answers, with its flag for decision, a request received. */
  ghost predicate Answers(env: Env, tr: seq<Seen>, s: Session, e: Event, request: C.CoapMessage) {
    && e.Transmit? && s.keys.Some? && |e.records| == 1
    && Carries(env.c, e.records[0], s.keys.value, request, e.includeKek)
    && exists k :: RequestAt(env, tr, k, s, request)
  }

  /** The k-th record put the question to the handler, and got its answer. */
  ghost predicate AskedAt(env: Env, tr: seq<Seen>, k: nat, s: Session, info: Info, decision: bool) {
    exists request :: RequestAt(env, tr, k, s, request) && env.parseJoinFin(request.payload) == Ok(info)
                      && tr[k].input.answer == decision
  }

  ghost predicate Requested(env: Env, tr: seq<Seen>, s: Session) {
    && (forall e :: e in s.events && e.Transmit? && !NoData(e.records) ==> exists request :: Answers(env, tr, s, e, request))
    && (s.asked != [] ==> s.decision.Some? && exists k :: AskedAt(env, tr, k, s, s.asked[0], s.decision.value))
  }

  lemma RequestAtMore(env: Env, tr: seq<Seen>, more: seq<Seen>, k: nat, s: Session, t: Session, request: C.CoapMessage)
    requires RequestAt(env, tr, k, s, request) && t.keys == s.keys
    ensures RequestAt(env, tr + more, k, t, request)
  {
    hide Open, C.Decode, C.UriPath;
    assert (tr + more)[k] == tr[k];
  }

  lemma AnswersMore(env: Env, tr: seq<Seen>, more: seq<Seen>, s: Session, t: Session, e: Event, request: C.CoapMessage)
    requires Answers(env, tr, s, e, request) && t.keys == s.keys
    ensures Answers(env, tr + more, t, e, request)
  {
    hide RequestAt, Carries;
    var k :| RequestAt(env, tr, k, s, request);
    RequestAtMore(env, tr, more, k, s, t, request);
  }

  lemma AskedMore(env: Env, tr: seq<Seen>, more: seq<Seen>, k: nat, s: Session, t: Session, info: Info, decision: bool)
    requires AskedAt(env, tr, k, s, info, decision) && t.keys == s.keys
    ensures AskedAt(env, tr + more, k, t, info, decision)
  {
    var request :| RequestAt(env, tr, k, s, request) && env.parseJoinFin(request.payload) == Ok(info) && tr[k].input.answer == decision;
    RequestAtMore(env, tr, more, k, s, t, request);
    assert (tr + more)[k] == tr[k];
  }

  /** Nothing asked, nothing answered: a session that has not decided. */
  lemma UndecidedRequested(env: Env, tr: seq<Seen>, s: Session)
    requires Sound(env.c, s) && s.decision.None?
    ensures Requested(env, tr, s)
  {
    hide Authenticated, Answered, Numbered, FinalizedCount, Carries, NoData, ServerKeys;
    forall e | e in s.events && e.Transmit? ensures NoData(e.records) {
      assert Explained(env.c, s, e);
    }
  }

  lemma RequestedMore(env: Env, tr: seq<Seen>, more: seq<Seen>, s: Session, t: Session)
    requires Requested(env, tr, s)
    requires t.keys == s.keys && t.asked == s.asked && t.decision == s.decision && t.events == s.events
    ensures Requested(env, tr + more, t)
  {
    hide Answers, AskedAt, NoData;
    forall e | e in t.events && e.Transmit? && !NoData(e.records)
      ensures exists request :: Answers(env, tr + more, t, e, request)
    {
      var request :| Answers(env, tr, s, e, request);
      AnswersMore(env, tr, more, s, t, e, request);
    }
    if t.asked != [] {
      var k :| AskedAt(env, tr, k, s, s.asked[0], s.decision.value);
      AskedMore(env, tr, more, k, s, t, s.asked[0], s.decision.value);
    }
  }

  // ----- Records other than application data decide nothing

  /** From `s` to `t` nothing is decided, and after the decision nothing is sent. */
  predicate Quiet(s: Session, t: Session) {
    && t.decision == s.decision && t.asked == s.asked
    && (s.phase.Finalized? ==> t.phase.Finalized? && t.keys == s.keys && t.events == s.events)
  }

  lemma {:induction false} PlaintextsQuiet(c: Crypto, s: Session, ms: seq<HandshakeMessage>, v: nat)
    requires s.handshake.WellSized()
    ensures Quiet(s, HandlePlaintexts(c, s, ms, v))
    decreases |ms|
  {
    hide HandlePlaintext;
    if s.error.None? && ms != [] {
      KeepsSize(c, s, ms[0], v);
      PlaintextQuiet(c, s, ms[0], v);
      PlaintextsQuiet(c, Settle(s, HandlePlaintext(c, s, ms[0], v)), ms[1..], v);
    }
  }

  lemma PlaintextQuiet(c: Crypto, s: Session, m: HandshakeMessage, v: nat)
    requires s.handshake.WellSized()
    ensures Quiet(s, Settle(s, HandlePlaintext(c, s, m, v)))
  {
    hide H.DecodeClientHello, CookieVerifies, D.VerifyRequest, D.PlaintextRecord, ServerFlight, D.FlightRecords, HandleClientKeyExchange, ServerKeys, D.Increment;
  }

  lemma {:induction false} FinishedQuiet(c: Crypto, s: Session, ms: seq<HandshakeMessage>)
    requires s.keys.Some?
    ensures var t := TakeFinishedMessages(c, s, ms); t.decision == s.decision && t.asked == s.asked
    decreases |ms|
  {
    hide TakeFinished;
    if s.error.None? && ms != [] {
      KeepsKeys(c, s, ms[0]);
      OneFinishedQuiet(c, s, ms[0]);
      if ms[0].messageType != Finished {
        FinishedQuiet(c, s, ms[1..]);
      } else {
        FinishedQuiet(c, Settle(s, TakeFinished(c, s, ms[0])), ms[1..]);
      }
    }
  }

  lemma OneFinishedQuiet(c: Crypto, s: Session, m: HandshakeMessage)
    requires s.keys.Some?
    ensures var r := TakeFinished(c, s, m); r.Ok? ==> r.value.decision == s.decision && r.value.asked == s.asked
  {
    hide VerifyClientFinished, BuildServerFinished, EncodeMessage, Protect, NewRecord, D.Increment;
  }

  lemma EncryptedQuiet(c: Crypto, s: Session, r: DtlsRecord)
    ensures Quiet(s, HandleEncrypted(c, s, r))
  {
    hide Open, NewRecord, RecordMessages, TakeFinishedMessages;
    if s.phase.AwaitingClientFlight? && s.sawChangeCipherSpec && OpenedMessages(c, s, r).Ok? {
      FinishedQuiet(c, s, OpenedMessages(c, s, r).value);
    }
  }

  lemma OtherQuiet(env: Env, s: Session, r: DtlsRecord, input: Input)
    requires s.handshake.WellSized() && !(r.header.epoch == 1 && r.header.contentType == ApplicationData)
    ensures Quiet(s, HandleRecord(env, s, r, input))
  {
    hide RecordMessages, HandlePlaintexts, HandleEncrypted, HandleData;
    if RecordMessages(r).Ok? {
      PlaintextsQuiet(env.c, s, RecordMessages(r).value, input.v);
    }
    EncryptedQuiet(env.c, s, r);
  }

  // ----- Application data

  lemma DataRequested(env: Env, tr: seq<Seen>, s: Session, x: Seen)
    requires Sound(env.c, s) && s.error.None? && Requested(env, tr, s)
    requires x.record.header.epoch == 1 && x.record.header.contentType == ApplicationData
    ensures Requested(env, tr + [x], HandleData(env, s, x.record, x.input.answer))
  {
    hide OpenedRequest, Respond, Decide, Requested, Sound;
    var t, all := HandleData(env, s, x.record, x.input.answer), tr + [x];
    KeysPresent(env.c, s);
    RequestedMore(env, tr, [x], s, s);
    if s.phase.Rank() >= 2 && OpenedRequest(env, s, x.record).Ok? {
      var (request, path) := OpenedRequest(env, s, x.record).value;
      if path == Some(JOIN_FIN) && env.parseJoinFin(request.payload).Ok? {
        var info := env.parseJoinFin(request.payload).value;
        var k := |tr|;
        assert all[k] == x;
        assert RequestAt(env, all, k, s, request);
        hide RequestAt;
        DecideRequested(env, all, k, s, request, info, x.input.answer);
        SettleRequested(env, all, k, s, request, info, x.input.answer);
        return;
      }
    }
    RequestedMore(env, all, [], s, t);
    assert all + [] == all;
  }

  lemma KeysPresent(c: Crypto, s: Session)
    requires Sound(c, s)
    ensures s.phase.Rank() >= 2 ==> s.keys.Some?
  {
    hide Numbered, Logged, ServerKeys, VerifyClientFinished;
  }

  /** The decision is the handler's answer to the first request, or an old one. */
  lemma DecideRequested(env: Env, tr: seq<Seen>, k: nat, s: Session, request: C.CoapMessage, info: Info, answer: bool)
    requires Sound(env.c, s) && s.error.None? && Requested(env, tr, s)
    requires RequestAt(env, tr, k, s, request) && env.parseJoinFin(request.payload) == Ok(info) && tr[k].input.answer == answer
    ensures Requested(env, tr, Decide(s, info, answer))
  {
    var d := Decide(s, info, answer);
    if s.decision.None? {
      assert s.asked == [];
      hide Sound;
      assert d.asked[0] == info;
      RequestAtMore(env, tr, [], k, s, d, request);
      assert tr + [] == tr;
      hide RequestAt;
      assert AskedAt(env, tr, k, d, info, answer);
      AnsweredSame(env, tr, s, d);
    }
  }

  lemma AnsweredSame(env: Env, tr: seq<Seen>, s: Session, d: Session)
    requires Requested(env, tr, s) && d.events == s.events && d.keys == s.keys
    ensures forall e :: e in d.events && e.Transmit? && !NoData(e.records) ==> exists request :: Answers(env, tr, d, e, request)
  {
    hide Answers, NoData, AskedAt;
    forall e | e in d.events && e.Transmit? && !NoData(e.records) ensures exists request :: Answers(env, tr, d, e, request) {
      var request :| Answers(env, tr, s, e, request);
      AnswersMore(env, tr, [], s, d, e, request);
      assert tr + [] == tr;
    }
  }

  lemma SettleRequested(env: Env, tr: seq<Seen>, k: nat, s: Session, request: C.CoapMessage, info: Info, answer: bool)
    requires Sound(env.c, s) && Requested(env, tr, Decide(s, info, answer)) && RequestAt(env, tr, k, s, request)
    ensures var d := Decide(s, info, answer); Requested(env, tr, Settle(d, Respond(env.c, d, request, info)))
  {
    assert Numbered(s);
    hide Sound, Requested, Respond;
    var d := Decide(s, info, answer);
    assert tr + [] == tr;
    match Respond(env.c, d, request, info)
    case Err(e) => RequestedMore(env, tr, [], d, d.Fail(e));
    case Ok(t) =>
      RequestAtMore(env, tr, [], k, s, d, request);
      RespondRequested(env, tr, k, d, request, info);
  }

  lemma RespondRequested(env: Env, tr: seq<Seen>, k: nat, d: Session, request: C.CoapMessage, info: Info)
    requires Numbered(d) && d.decision.Some? && Requested(env, tr, d) && RequestAt(env, tr, k, d, request)
    requires Respond(env.c, d, request, info).Ok?
    ensures Requested(env, tr, Respond(env.c, d, request, info).value)
  {
    assert d.keys.Some?;
    hide Requested, Numbered, Seal, C.Encode, RequestAt, Open;
    var c, accepted := env.c, d.decision.value;
    var b := C.Encode(JoinFinResponse(request, accepted)).value;
    SealNumbers(c, d, ApplicationData, b);
    SealType(c, d, ApplicationData, b);
    var r := Seal(c, d, ApplicationData, b).value.1;
    var t, e := Respond(c, d, request, info).value, Transmit([r], accepted);
    assert Carries(c, r, d.keys.value, request, accepted);
    assert [r][0] == r;
    hide Carries;
    assert Answers(env, tr, d, e, request);
    ResponsePushed(env, tr, d, t, e, request, JoinerFinalized(accepted, info));
  }

  lemma ResponsePushed(env: Env, tr: seq<Seen>, s: Session, t: Session, e: Event, request: C.CoapMessage, f: Event)
    requires Requested(env, tr, s) && Answers(env, tr, s, e, request) && !f.Transmit?
    requires t.keys == s.keys && t.asked == s.asked && t.decision == s.decision
    requires t.events == s.events + [e] || t.events == s.events + [e] + [f]
    ensures Requested(env, tr, t)
  {
    hide Answers, NoData, AskedAt;
    assert tr + [] == tr;
    AnswersMore(env, tr, [], s, t, e, request);
    forall g | g in t.events && g.Transmit? && !NoData(g.records) ensures exists q :: Answers(env, tr, t, g, q) {
      assert g in s.events || g == e;
      if g in s.events {
        var q :| Answers(env, tr, s, g, q);
        AnswersMore(env, tr, [], s, t, g, q);
      }
    }
    if t.asked != [] {
      var k :| AskedAt(env, tr, k, s, s.asked[0], s.decision.value);
      AskedMore(env, tr, [], k, s, t, s.asked[0], s.decision.value);
    }
  }

  // ----- Whole runs again

  lemma DataRecord(env: Env, s: Session, x: Seen)
    requires s.handshake.WellSized() && x.record.header.epoch == 1 && x.record.header.contentType == ApplicationData
    ensures HandleRecord(env, s, x.record, x.input) == HandleData(env, s, x.record, x.input.answer)
  {
    hide HandleData, HandlePlaintexts, HandleEncrypted, RecordMessages;
  }

  lemma DecidedIsFinalized(c: Crypto, s: Session)
    requires Sound(c, s) && s.error.None?
    ensures s.decision.Some? ==> s.phase.Finalized?
  {
    hide Numbered, Logged, Authenticated, Answered, ServerKeys;
  }

  lemma OtherRequested(env: Env, tr: seq<Seen>, s: Session, x: Seen, t: Session)
    requires Sound(env.c, s) && Sound(env.c, t) && s.error.None? && Requested(env, tr, s) && Quiet(s, t)
    ensures Requested(env, tr + [x], t)
  {
    hide Sound, Requested;
    DecidedIsFinalized(env.c, s);
    if s.decision.None? {
      UndecidedRequested(env, tr + [x], t);
    } else {
      RequestedMore(env, tr, [x], s, t);
    }
  }

  lemma RecordRequested(env: Env, tr: seq<Seen>, s: Session, x: Seen)
    requires Sound(env.c, s) && s.handshake.WellSized() && s.error.None? && Requested(env, tr, s)
    ensures Requested(env, tr + [x], HandleRecord(env, s, x.record, x.input))
  {
    hide Sound, Requested, HandleRecord, HandleData, Extends, Quiet;
    if x.record.header.epoch == 1 && x.record.header.contentType == ApplicationData {
      DataRequested(env, tr, s, x);
      DataRecord(env, s, x);
    } else {
      RecordKeeps(env, s, x.record, x.input);
      OtherQuiet(env, s, x.record, x.input);
      OtherRequested(env, tr, s, x, HandleRecord(env, s, x.record, x.input));
    }
  }

  lemma {:induction false} RecordsRequested(env: Env, tr: seq<Seen>, s: Session, rs: seq<DtlsRecord>, input: Input)
    requires Sound(env.c, s) && s.handshake.WellSized() && Requested(env, tr, s)
    ensures Requested(env, tr + Tag(rs, input), HandleRecords(env, s, rs, input))
    decreases |rs|
  {
    hide Sound, Extends, Requested, HandleRecord;
    if s.error.Some? || rs == [] {
      RequestedMore(env, tr, Tag(rs, input), s, s);
    } else {
      var x := Seen(rs[0], input);
      RecordRequested(env, tr, s, x);
      RecordKeeps(env, s, rs[0], input);
      RecordsRequested(env, tr + [x], HandleRecord(env, s, rs[0], input), rs[1..], input);
      assert tr + Tag(rs, input) == tr + [x] + Tag(rs[1..], input);
    }
  }

  lemma ReceiveRequested(env: Env, tr: seq<Seen>, s: Session, input: Input)
    requires Sound(env.c, s) && s.handshake.WellSized() && Requested(env, tr, s)
    ensures Requested(env, tr + SeenIn(input), Receive(env, s, input))
  {
    hide Sound, Requested, HandleRecords, ParseDatagram;
    match ParseDatagram(input.datagram)
    case Err(e) => RequestedMore(env, tr, [], s, s.Fail(e));
    case Ok(rs) => RecordsRequested(env, tr, s, rs, input);
  }

  lemma {:induction false} RunRequested(env: Env, cfg: D.Config, inputs: seq<Input>)
    ensures Requested(env, Trace(inputs), Run(env, cfg, inputs))
  {
    hide Sound, Requested, Receive, SeenIn;
    if inputs == [] {
      NewIsSound(env.c, cfg);
      UndecidedRequested(env, [], NewSession(env.c, cfg));
    } else {
      var n := |inputs| - 1;
      RunRequested(env, cfg, inputs[..n]);
      RunIsSound(env, cfg, inputs[..n]);
      var s, tr := Run(env, cfg, inputs[..n]), Trace(inputs[..n]);
      RequestedMore(env, tr, SeenIn(inputs[n]), s, s);
      ReceiveRequested(env, tr, s, inputs[n]);
    }
  }

  /** Every application-data datagram ever sent is a JOIN_FIN response, carrying
      the one decision of the session, to a JOIN_FIN request among the received
      records; the KEK goes with exactly the accepting ones; and the joiner was
      authenticated as above. */
  lemma ResponsesAgree(env: Env, cfg: D.Config, inputs: seq<Input>, e: Event)
    requires e in Run(env, cfg, inputs).events && e.Transmit?
    requires e.includeKek || !NoData(e.records)
    ensures var s, tr := Run(env, cfg, inputs), Trace(inputs);
            && s.phase.Finalized? && s.decision == Some(e.includeKek)
            && Proven(env.c, cfg, tr, s)
            && exists request :: Answers(env, tr, s, e, request)
  {
    hide Run, Trace, Proven, Answers, NoData, AskedAt;
    ResponseDecision(env, cfg, inputs, e);
    ConnectedIsAuthenticated(env, cfg, inputs);
    RunRequested(env, cfg, inputs);
  }

  /** A session's decision is what the handler answered when some received
      JOIN_FIN request was put to it. */
  lemma DecisionIsHandlers(env: Env, cfg: D.Config, inputs: seq<Input>)
    requires Run(env, cfg, inputs).decision.Some?
    ensures var s := Run(env, cfg, inputs);
            |s.asked| == 1 && exists k :: AskedAt(env, Trace(inputs), k, s, s.asked[0], s.decision.value)
  {
    hide Run, Trace, Answers, NoData, AskedAt;
    DecidedOnce(env, cfg, inputs);
    RunRequested(env, cfg, inputs);
  }
}
