/** The joiner session as the object it is, refining the session machine.  Its
    handler's answer comes with the input; events are returned to the caller. */
module JoinerObject {
  import opened Bytes
  import opened Primitives
  import opened Record
  import opened RecordProtection
  import opened KeySchedule
  import opened Handshake
  import opened HandshakeMachines
  import opened Joiner
  import T = ThreadHandshake
  import D = ServerDriver
  import H = Hello
  import C = Coap
  import A = AcceptLoop

  class JoinerSession {
    const cfg: D.Config
    const handshake: ThreadDtlsServerHandshake
    var phase: Phase
    var keyMaterial: Option<KeyMaterial>
    var serverFlight: seq<DtlsRecord>
    var epoch0Sequence: U64
    var epoch1Sequence: U64
    var sawClientChangeCipherSpec: bool
    var finalizeDecision: Option<bool>
    ghost var events: seq<Event>
    ghost var hello: Option<HandshakeMessage>
    ghost var verified: Option<(T.ServerState, HandshakeMessage)>
    ghost var asked: seq<Info>
    ghost var protected: seq<DtlsRecord>

    ghost function View(): Session
      reads this, handshake, handshake.transcript
    {
      Session(phase, handshake.View(), cfg.cookieKey, keyMaterial, serverFlight, epoch0Sequence, epoch1Sequence,
              sawClientChangeCipherSpec, finalizeDecision, None, events, hello, verified, asked, protected)
    }

    ghost predicate Valid()
      reads handshake, handshake.transcript
    {
      handshake.Valid()
    }

    /** A handler's result against the machine's, from `s` to `t`: the new state
        and the events pushed, or the error; a decision is never lost. */
    ghost predicate Did(s: Session, t: Session, r: Result<seq<Event>>)
      reads this, handshake, handshake.transcript
    {
      && Valid()
      && asked == t.asked && finalizeDecision == t.decision
      && match t.error
         case None => r.Ok? && View() == t && t.events == s.events + r.value
         case Some(e) => r == Err(e)
    }

    constructor (c: Crypto, config: D.Config)
      ensures Valid() && fresh(handshake) && fresh(handshake.transcript) && cfg == config
      ensures View() == NewSession(c, config)
    {
      cfg := config;
      handshake := new ThreadDtlsServerHandshake(c, config.secret, config.random, config.x1, config.x2, config.v1, config.v2);
      phase, keyMaterial, serverFlight := AwaitingClientHello, None, [];
      epoch0Sequence, epoch1Sequence, sawClientChangeCipherSpec, finalizeDecision := 0, 0, false, None;
      events, hello, verified, asked, protected := [], None, None, [], [];
    }

    method PlaintextRecord(m: HandshakeMessage) returns (r: Result<DtlsRecord>)
      modifies this`epoch0Sequence
      ensures r == D.PlaintextRecord(m, old(epoch0Sequence))
      ensures r.Ok? ==> epoch0Sequence == D.Increment(old(epoch0Sequence))
    {
      hide EncodeMessage, NewRecord;
      r := D.PlaintextRecord(m, epoch0Sequence);
      if r.Ok? {
        epoch0Sequence := D.Increment(epoch0Sequence);
      }
    }

    method SendCookieDemand(c: Crypto, m: HandshakeMessage, random: H.Random, ghost s: Session)
      returns (r: Result<seq<Event>>)
      requires Valid() && s == View()
      modifies this
      ensures Did(s, Settle(s, DemandCookie(c, s, m, random)), r)
    {
      hide D.VerifyRequest, D.PlaintextRecord;
      var verify := D.VerifyRequest(c, cfg.cookieKey, random, m.messageSeq);
      if verify.Err? {
        return Err(verify.error);
      }
      var record := PlaintextRecord(verify.value);
      if record.Err? {
        return Err(record.error);
      }
      events := events + [Transmit([record.value], false)];
      r := Ok([Transmit([record.value], false)]);
    }

    method SendServerFlight(c: Crypto, m: HandshakeMessage, v: nat, ghost s: Session) returns (r: Result<seq<Event>>)
      requires Valid() && s == View() && s.handshake.WellSized()
      modifies this, handshake, handshake.transcript
      ensures Did(s, Settle(s, SendFlight(c, s, m, v)), r)
    {
      hide T.ServerFlight, D.FlightRecords, D.Increment;
      var flight := A.BuildFlight(c, handshake, m, v);
      if flight.Err? {
        return Err(flight.error);
      }
      var records, next := A.NumberFlight(flight.value, epoch0Sequence);
      if records.Err? {
        return Err(records.error);
      }
      KeepFlight(m, records.value, next);
      r := Ok([Transmit(records.value, false)]);
    }

    method KeepFlight(m: HandshakeMessage, records: seq<DtlsRecord>, next: U64)
      modifies this
      ensures View() == old(View()).(epoch0 := next, flight := records, phase := AwaitingClientFlight, hello := Some(m))
                                   .Push(Transmit(records, false))
    {
      epoch0Sequence, serverFlight, phase, hello := next, records, AwaitingClientFlight, Some(m);
      events := events + [Transmit(records, false)];
    }

    method AnswerClientHello(c: Crypto, m: HandshakeMessage, v: nat, ghost s: Session) returns (r: Result<seq<Event>>)
      requires Valid() && s == View() && s.handshake.WellSized()
      modifies this, handshake, handshake.transcript
      ensures Did(s, Settle(s, AnswerHello(c, s, m, v)), r)
    {
      hide H.DecodeClientHello, T.CookieVerifies, DemandCookie, SendFlight;
      var decoded := H.DecodeClientHello(m.payload);
      if decoded.Err? {
        return Err(decoded.error);
      }
      if !T.CookieVerifies(c, cfg.cookieKey, decoded.value) {
        r := SendCookieDemand(c, m, decoded.value.random, s);
      } else {
        r := SendServerFlight(c, m, v, s);
      }
    }

    method TakeClientKeyExchange(c: Crypto, m: HandshakeMessage, ghost s: Session) returns (r: Result<seq<Event>>)
      requires Valid() && s == View()
      modifies this, handshake, handshake.transcript
      ensures Did(s, Settle(s, TakeExchange(c, s, m)), r)
    {
      hide T.HandleClientKeyExchange, T.ServerKeys;
      var taken := handshake.HandleClientKeyExchange(c, m);
      if taken.Err? {
        return Err(taken.error);
      }
      var keys := handshake.DeriveKeyMaterial(c);
      if keys.Err? {
        return Err(keys.error);
      }
      keyMaterial := Some(keys.value);
      r := Ok([]);
      assert events + [] == events;
    }

    method HandlePlaintextHandshake(c: Crypto, m: HandshakeMessage, v: nat, ghost s: Session)
      returns (r: Result<seq<Event>>)
      requires Valid() && s == View() && s.handshake.WellSized()
      modifies this, handshake, handshake.transcript
      ensures Did(s, Settle(s, HandlePlaintext(c, s, m, v)), r)
    {
      hide AnswerHello, TakeExchange;
      match (m.messageType, phase)
      case (ClientHello, AwaitingClientHello) =>
        r := AnswerClientHello(c, m, v, s);
      case (ClientHello, AwaitingClientFlight) =>
        events := events + [Transmit(serverFlight, false)];
        r := Ok([Transmit(serverFlight, false)]);
      case (ClientKeyExchange, AwaitingClientFlight) =>
        r := TakeClientKeyExchange(c, m, s);
      case _ =>
        r := Err(Error.Crypto);
    }

    /** All messages of one plaintext record, until one fails. */
    lemma DidThen(s: Session, now: Session, t: Session, pushed: seq<Event>, r: Result<seq<Event>>)
      requires now.events == s.events + pushed && Did(now, t, r)
      ensures Did(s, t, match r case Ok(es) => Ok(pushed + es) case Err(e) => Err(e))
    {
      if r.Ok? {
        assert s.events + pushed + r.value == s.events + (pushed + r.value);
      }
    }

    method HandlePlaintextRecord(c: Crypto, ms: seq<HandshakeMessage>, v: nat, ghost s: Session)
      returns (r: Result<seq<Event>>)
      requires Valid() && s == View() && s.handshake.WellSized()
      modifies this, handshake, handshake.transcript
      ensures Did(s, HandlePlaintexts(c, s, ms, v), r)
    {
      hide HandlePlaintext, HandlePlaintexts;
      var pushed: seq<Event> := [];
      ghost var now := s;
      assert s.events + [] == s.events && ms[0..] == ms;
      for i := 0 to |ms|
        invariant Did(s, now, Ok(pushed)) && now.error.None? && now.handshake.WellSized()
        invariant HandlePlaintexts(c, s, ms, v) == HandlePlaintexts(c, now, ms[i..], v)
      {
        PlaintextsFrom(c, now, ms, v, i);
        ghost var next := Settle(now, HandlePlaintext(c, now, ms[i], v));
        r := HandlePlaintextHandshake(c, ms[i], v, now);
        DidThen(s, now, next, pushed, r);
        if r.Err? {
          return;
        }
        pushed, now := pushed + r.value, next;
      }
      PlaintextsFrom(c, now, ms, v, |ms|);
      r := Ok(pushed);
    }

    // ----- Sealed records

    method SealRecord(c: Crypto, ty: ContentType, plaintext: Bytes, ghost s: Session) returns (r: Result<DtlsRecord>)
      requires Valid() && keyMaterial.Some? && s == View()
      modifies this`epoch1Sequence, this`protected
      ensures Valid()
      ensures match Seal(c, s, ty, plaintext)
              case Ok((t, record)) => r == Ok(record) && View() == t
              case Err(e) => r == Err(e) && View() == s
    {
      hide Protect;
      var block := keyMaterial.value.keyBlock;
      r := Protect(c, ty, 1, epoch1Sequence, block.serverWriteKey, block.serverWriteIv, plaintext);
      if r.Ok? {
        epoch1Sequence := D.Increment(epoch1Sequence);
        protected := protected + [r.value];
      }
    }

    method PrepareFinished(c: Crypto, m: HandshakeMessage, ghost s: Session) returns (r: Result<(DtlsRecord, Bytes)>)
      requires Valid() && s == View() && s.keys.Some?
      modifies handshake, handshake.transcript
      ensures Valid()
      ensures match FinishedParts(c, s, m)
              case Ok((sent, ccs, b)) => r == Ok((ccs, b)) && handshake.View() == sent
              case Err(e) => r == Err(e)
    {
      hide T.VerifyClientFinished, T.BuildServerFinished, EncodeMessage, NewRecord;
      var checked := handshake.VerifyClientFinished(c, m, keyMaterial.value);
      if checked.Err? {
        return Err(checked.error);
      }
      var finished := handshake.BuildServerFinished(c, 4, keyMaterial.value);
      if finished.Err? {
        return Err(finished.error);
      }
      var ccs := NewRecord(ChangeCipherSpec, 0, epoch0Sequence, [1]);
      if ccs.Err? {
        return Err(ccs.error);
      }
      var wire := EncodeMessage(finished.value);
      if wire.Err? {
        return Err(wire.error);
      }
      r := Ok((ccs.value, wire.value));
    }

    method TakeClientFinished(c: Crypto, m: HandshakeMessage, ghost s: Session) returns (r: Result<seq<Event>>)
      requires Valid() && s == View() && s.keys.Some?
      modifies this, handshake, handshake.transcript
      ensures Did(s, Settle(s, TakeFinished(c, s, m)), r)
    {
      hide FinishedParts, Seal, D.Increment;
      ghost var was := handshake.View();
      var parts := PrepareFinished(c, m, s);
      if parts.Err? {
        return Err(parts.error);
      }
      SealIgnoresHandshake(c, s, View(), ContentType.Handshake, parts.value.1);
      var sealed := SealRecord(c, ContentType.Handshake, parts.value.1, View());
      if sealed.Err? {
        return Err(sealed.error);
      }
      var sent := [Transmit([parts.value.0, sealed.value], false), JoinerConnected];
      BecomeConnected(was, m, sent);
      r := Ok(sent);
      assert s.events + sent == s.events + [sent[0]] + [sent[1]];
    }

    method BecomeConnected(ghost was: T.ServerState, m: HandshakeMessage, sent: seq<Event>)
      modifies this
      ensures View() == old(View()).(epoch0 := D.Increment(old(epoch0Sequence)), phase := Connected,
                                     verified := if old(verified).Some? then old(verified) else Some((was, m)), events := old(events) + sent)
    {
      epoch0Sequence, phase := D.Increment(epoch0Sequence), Connected;
      verified := if verified.Some? then verified else Some((was, m));
      events := events + sent;
    }

    method TakeFinishedRecord(c: Crypto, ms: seq<HandshakeMessage>, ghost s: Session) returns (r: Result<seq<Event>>)
      requires Valid() && s == View() && s.keys.Some?
      modifies this, handshake, handshake.transcript
      ensures Did(s, TakeFinishedMessages(c, s, ms), r)
    {
      hide TakeFinished, TakeFinishedMessages;
      var pushed: seq<Event> := [];
      ghost var now := s;
      assert s.events + [] == s.events && ms[0..] == ms;
      for i := 0 to |ms|
        invariant Did(s, now, Ok(pushed)) && now.error.None? && now.keys == s.keys
        invariant TakeFinishedMessages(c, s, ms) == TakeFinishedMessages(c, now, ms[i..])
      {
        FinishedFrom(c, now, ms, i);
        if ms[i].messageType == Finished {
          ghost var next := Settle(now, TakeFinished(c, now, ms[i]));
          r := TakeClientFinished(c, ms[i], now);
          DidThen(s, now, next, pushed, r);
          if r.Err? {
            return;
          }
          pushed, now := pushed + r.value, next;
        }
      }
      FinishedFrom(c, now, ms, |ms|);
      r := Ok(pushed);
    }

    method OpenRecordOf(c: Crypto, record: DtlsRecord) returns (r: Result<Bytes>)
      ensures r == OpenRecord(c, View(), record)
    {
      hide Open;
      if keyMaterial.None? {
        return Err(InvalidState);
      }
      r := Open(c, record, keyMaterial.value.keyBlock.clientWriteKey, keyMaterial.value.keyBlock.clientWriteIv);
    }

    method HandleEncryptedHandshake(c: Crypto, record: DtlsRecord, ghost s: Session) returns (r: Result<seq<Event>>)
      requires Valid() && s == View()
      modifies this, handshake, handshake.transcript
      ensures Did(s, HandleEncrypted(c, s, record), r)
    {
      hide OpenRecord, NewRecord, RecordMessages, TakeFinishedMessages;
      assert s.events + [] == s.events;
      if phase != AwaitingClientFlight {
        return Ok([]);
      }
      if !sawClientChangeCipherSpec {
        return Err(Error.Crypto);
      }
      var plaintext := OpenRecordOf(c, record);
      if plaintext.Err? {
        return Err(plaintext.error);
      }
      OpenedNeedsKeys(c, s, record);
      var plain := NewRecord(ContentType.Handshake, 1, 0, plaintext.value);
      if plain.Err? {
        return Err(plain.error);
      }
      var messages := ReadMessages(plain.value);
      if messages.Err? {
        return Err(messages.error);
      }
      r := TakeFinishedRecord(c, messages.value, s);
    }

    // ----- JOIN_FIN

    method DecideOnce(info: Info, answer: bool) returns (accepted: bool)
      modifies this`finalizeDecision, this`asked
      ensures View() == Decide(old(View()), info, answer) && finalizeDecision == Some(accepted)
    {
      if finalizeDecision.None? {
        finalizeDecision := Some(answer);
        asked := asked + [info];
      }
      accepted := finalizeDecision.value;
    }

    method SendJoinFinResponse(c: Crypto, request: C.CoapMessage, accepted: bool, info: Info, ghost s: Session)
      returns (r: Result<seq<Event>>)
      requires Valid() && s == View() && s.decision == Some(accepted)
      modifies this
      ensures Did(s, Settle(s, Respond(c, s, request, info)), r)
    {
      hide C.Encode, Seal;
      if keyMaterial.None? {
        return Err(InvalidState);
      }
      var wire := C.EncodeMessage(JoinFinResponse(request, accepted));
      if wire.Err? {
        return Err(wire.error);
      }
      var record := SealRecord(c, ApplicationData, wire.value, s);
      if record.Err? {
        return Err(record.error);
      }
      SealKeepsPhase(c, s, ApplicationData, wire.value);
      var first := phase != Finalized;
      var sent := [Transmit([record.value], accepted)] + if first then [JoinerFinalized(accepted, info)] else [];
      BecomeFinalized(sent);
      r := Ok(sent);
      assert first ==> s.events + sent == s.events + [sent[0]] + [sent[1]];
    }

    method BecomeFinalized(sent: seq<Event>)
      modifies this`phase, this`events
      ensures View() == old(View()).(phase := Finalized, events := old(events) + sent)
    {
      phase := Finalized;
      events := events + sent;
    }

    method OpenRequest(env: Env, record: DtlsRecord) returns (r: Result<(C.CoapMessage, Option<Bytes>)>)
      ensures r == OpenedRequest(env, View(), record)
    {
      hide OpenRecord, C.Decode, C.UriPath;
      var plaintext := OpenRecordOf(env.c, record);
      if plaintext.Err? {
        return Err(plaintext.error);
      }
      var request := C.DecodeMessage(plaintext.value);
      if request.Err? {
        return Err(request.error);
      }
      var path := C.ReadUriPath(request.value, env.utf8);
      if path.Err? {
        return Err(path.error);
      }
      r := Ok((request.value, path.value));
    }

    method HandleApplicationData(env: Env, record: DtlsRecord, answer: bool, ghost s: Session)
      returns (r: Result<seq<Event>>)
      requires Valid() && s == View()
      modifies this
      ensures Did(s, HandleData(env, s, record, answer), r)
    {
      hide OpenedRequest, Respond;
      assert s.events + [] == s.events;
      if phase != Connected && phase != Finalized {
        return Err(Error.Crypto);
      }
      var query := OpenRequest(env, record);
      if query.Err? {
        return Err(query.error);
      }
      if query.value.1 != Some(JOIN_FIN) {
        return Ok([]);
      }
      var request := query.value.0;
      var info := env.parseJoinFin(request.payload);
      if info.Err? {
        return Err(info.error);
      }
      var accepted := DecideOnce(info.value, answer);
      r := SendJoinFinResponse(env.c, request, accepted, info.value, Decide(s, info.value, answer));
    }

    // ----- Datagrams

    method HandleOne(env: Env, record: DtlsRecord, input: Input, ghost s: Session) returns (r: Result<seq<Event>>)
      requires Valid() && s == View() && s.handshake.WellSized()
      modifies this, handshake, handshake.transcript
      ensures Did(s, HandleRecord(env, s, record, input), r)
    {
      hide RecordMessages, HandlePlaintexts, HandleEncrypted, HandleData;
      assert s.events + [] == s.events;
      match (record.header.epoch, record.header.contentType)
      case (0, Handshake) =>
        var messages := ReadMessages(record);
        if messages.Err? {
          return Err(messages.error);
        }
        r := HandlePlaintextRecord(env.c, messages.value, input.v, s);
      case (0, ChangeCipherSpec) =>
        if record.payload != [1] {
          return Err(Error.Crypto);
        }
        sawClientChangeCipherSpec := true;
        r := Ok([]);
      case (1, Handshake) =>
        r := HandleEncryptedHandshake(env.c, record, s);
      case (1, ApplicationData) =>
        r := HandleApplicationData(env, record, input.answer, s);
      case (_, Alert) =>
        r := Err(Error.Crypto);
      case _ =>
        r := Ok([]);
    }

    method HandleAll(env: Env, records: seq<DtlsRecord>, input: Input, ghost s: Session) returns (r: Result<seq<Event>>)
      requires Valid() && s == View() && s.handshake.WellSized()
      modifies this, handshake, handshake.transcript
      ensures Did(s, HandleRecords(env, s, records, input), r)
    {
      hide HandleRecord, HandleRecords;
      var pushed: seq<Event> := [];
      ghost var now := s;
      assert s.events + [] == s.events && records[0..] == records;
      for i := 0 to |records|
        invariant Did(s, now, Ok(pushed)) && now.error.None? && now.handshake.WellSized()
        invariant HandleRecords(env, s, records, input) == HandleRecords(env, now, records[i..], input)
      {
        RecordsFrom(env, now, records, input, i);
        ghost var next := HandleRecord(env, now, records[i], input);
        r := HandleOne(env, records[i], input, now);
        DidThen(s, now, next, pushed, r);
        if r.Err? {
          return;
        }
        pushed, now := pushed + r.value, next;
      }
      RecordsFrom(env, now, records, input, |records|);
      r := Ok(pushed);
    }

    /** Feeds one relayed datagram into the session. */
    method ReceiveDatagram(env: Env, input: Input, ghost s: Session) returns (r: Result<seq<Event>>)
      requires Valid() && s == View() && s.handshake.WellSized()
      modifies this, handshake, handshake.transcript
      ensures Did(s, Receive(env, s, input), r)
    {
      hide HandleRecords, ParseDatagram;
      var parsed := ReadDatagram(input.datagram);
      if parsed.Err? {
        return Err(parsed.error);
      }
      r := HandleAll(env, parsed.value, input, s);
    }
  }

  lemma OpenedNeedsKeys(c: Crypto, s: Session, r: DtlsRecord)
    requires OpenRecord(c, s, r).Ok?
    ensures s.keys.Some?
  {
    hide Open;
  }

  lemma SealKeepsPhase(c: Crypto, s: Session, ty: ContentType, b: Bytes)
    requires s.keys.Some? && Seal(c, s, ty, b).Ok?
    ensures var t := Seal(c, s, ty, b).value.0; t.phase == s.phase && t.events == s.events
  {
    hide Protect;
  }

  lemma SealIgnoresHandshake(c: Crypto, s: Session, t: Session, ty: ContentType, b: Bytes)
    requires s.keys.Some? && t == s.(handshake := t.handshake)
    ensures match Seal(c, s, ty, b)
            case Ok((u, r)) => Seal(c, t, ty, b) == Ok((u.(handshake := t.handshake), r))
            case Err(e) => Seal(c, t, ty, b) == Err(e)
  {
    hide Protect;
  }
}
